/** The send window of a Relay connection: the fields `sendBase`, `nextSeq`, `unacked` and
    `retransCnt`, and the critical sections that change them. */
module SendWindow {
  import opened RelayTypes

  datatype Window = Window(sendBase: nat, nextSeq: nat, unacked: map<nat, Payload>, retransCnt: nat)

  const InitialWindow := Window(1, 1, map[], 0)

  /** sendLoop may number another payload only while the window has room. */
  predicate HasRoom(cfg: Config, w: Window) {
    w.nextSeq - w.sendBase < AsUint64(cfg.windowSize)
  }

  /** sendLoop gives a payload the next sequence number and keeps it until it is acknowledged. */
  function Number(w: Window, data: Payload): Window {
    w.(nextSeq := w.nextSeq + 1,
       unacked := w.unacked[w.nextSeq := data],
       sendBase := if w.sendBase == 0 then w.nextSeq else w.sendBase)
  }

  /** handleAck: a cumulative ACK inside the window retires every frame up to it. */
  function HandleAck(w: Window, ackSeq: nat): Window {
    if w.sendBase <= ackSeq < w.nextSeq then
      w.(sendBase := ackSeq + 1, unacked := Retire(w.unacked, ackSeq), retransCnt := 0)
    else w
  }

  function Retire(unacked: map<nat, Payload>, ackSeq: nat): map<nat, Payload> {
    map s | s in unacked && s > ackSeq :: unacked[s]
  }

  /** What one call of retransmit decides before it sends anything. */
  datatype RoundStart = Nothing | Exhausted(win: Window) | Resend(win: Window, frames: seq<(nat, Payload)>)

  function BeginRound(cfg: Config, w: Window): RoundStart {
    if w.unacked == map[] then Nothing
    else if w.retransCnt + 1 > cfg.maxRetransmits then Exhausted(w.(retransCnt := w.retransCnt + 1))
    else Resend(w.(retransCnt := w.retransCnt + 1), Snapshot(w.unacked, w.sendBase, w.nextSeq))
  }

  /** The unacknowledged frames with numbers in [lo, hi), in sending order. */
  function Snapshot(unacked: map<nat, Payload>, lo: nat, hi: nat): (frames: seq<(nat, Payload)>)
    ensures forall i :: 0 <= i < |frames| ==>
              frames[i].0 in unacked && frames[i].1 == unacked[frames[i].0] && lo <= frames[i].0 < hi
    ensures forall i, j :: 0 <= i < j < |frames| ==> frames[i].0 < frames[j].0
    decreases hi - lo
  {
    if lo >= hi then []
    else if hi - 1 in unacked then Snapshot(unacked, lo, hi - 1) + [(hi - 1, unacked[hi - 1])]
    else Snapshot(unacked, lo, hi - 1)
  }

  /** The window invariant against the history of numbered payloads: the frames kept are exactly
      those numbered and not yet retired, each with the payload it was numbered with. */
  ghost predicate WindowInv(cfg: Config, w: Window, numbered: seq<Payload>) {
    && 1 <= w.sendBase <= w.nextSeq
    && w.nextSeq == |numbered| + 1
    && w.nextSeq - w.sendBase <= AsUint64(cfg.windowSize)
    && (forall s :: s in w.unacked <==> w.sendBase <= s < w.nextSeq)
    && (forall s :: s in w.unacked ==> w.unacked[s] == numbered[s - 1])
  }

  lemma NumberKeepsWindow(cfg: Config, w: Window, numbered: seq<Payload>, data: Payload)
    requires WindowInv(cfg, w, numbered) && HasRoom(cfg, w)
    ensures WindowInv(cfg, Number(w, data), numbered + [data])
  {
  }

  lemma HandleAckKeepsWindow(cfg: Config, w: Window, numbered: seq<Payload>, ackSeq: nat)
    requires WindowInv(cfg, w, numbered)
    ensures WindowInv(cfg, HandleAck(w, ackSeq), numbered)
    ensures HandleAck(w, ackSeq).sendBase >= w.sendBase
    ensures HandleAck(w, ackSeq).sendBase > w.sendBase ==>
              HandleAck(w, ackSeq).sendBase == ackSeq + 1 && HandleAck(w, ackSeq).retransCnt == 0
    ensures HandleAck(w, ackSeq).sendBase == w.sendBase ==> HandleAck(w, ackSeq) == w
  {
  }

  /** An ACK inside the window retires exactly the frames up to it; any other ACK retires none. */
  lemma AckRetiresExactly(cfg: Config, w: Window, numbered: seq<Payload>, ackSeq: nat)
    requires WindowInv(cfg, w, numbered)
    ensures var retired := w.unacked.Keys - HandleAck(w, ackSeq).unacked.Keys;
            forall s :: s in retired <==> w.sendBase <= s <= ackSeq < w.nextSeq
  {
  }

  /** A retransmission round has nothing to do exactly when nothing is unacknowledged; otherwise it costs
      one unit of the budget, and either resends every unacknowledged frame, once and in order, or
      gives up because the budget was spent. */
  lemma RoundResendsAll(cfg: Config, w: Window, numbered: seq<Payload>)
    requires WindowInv(cfg, w, numbered)
    ensures BeginRound(cfg, w).Nothing? <==> w.sendBase == w.nextSeq
    ensures BeginRound(cfg, w).Exhausted? <==> w.sendBase < w.nextSeq && w.retransCnt >= cfg.maxRetransmits
    ensures BeginRound(cfg, w).Resend? <==> w.sendBase < w.nextSeq && w.retransCnt < cfg.maxRetransmits
    ensures !BeginRound(cfg, w).Nothing? ==> BeginRound(cfg, w).win == w.(retransCnt := w.retransCnt + 1)
    ensures BeginRound(cfg, w).Resend? ==> |BeginRound(cfg, w).frames| == w.nextSeq - w.sendBase
    ensures BeginRound(cfg, w).Resend? ==>
              forall i :: 0 <= i < w.nextSeq - w.sendBase ==>
                BeginRound(cfg, w).frames[i] == (w.sendBase + i, numbered[w.sendBase + i - 1])
  {
    assert w.sendBase in w.unacked <==> w.sendBase < w.nextSeq;
    if w.sendBase == w.nextSeq { assert w.unacked.Keys == {}; }
    if w.sendBase < w.nextSeq { SnapshotSize(w.unacked, w.sendBase, w.nextSeq); }
    forall i: nat | i < w.nextSeq - w.sendBase
      ensures i < |Snapshot(w.unacked, w.sendBase, w.nextSeq)|
              && Snapshot(w.unacked, w.sendBase, w.nextSeq)[i] == (w.sendBase + i, numbered[w.sendBase + i - 1])
    {
      SnapshotAt(w.unacked, w.sendBase, w.nextSeq, i);
    }
  }

  lemma {:induction false} SnapshotSize(unacked: map<nat, Payload>, lo: nat, hi: nat)
    requires lo <= hi && forall s :: lo <= s < hi ==> s in unacked
    ensures |Snapshot(unacked, lo, hi)| == hi - lo
    decreases hi
  {
    if lo < hi { SnapshotSize(unacked, lo, hi - 1); }
  }

  lemma {:induction false} SnapshotAt(unacked: map<nat, Payload>, lo: nat, hi: nat, i: nat)
    requires i < hi - lo && forall s :: lo <= s < hi ==> s in unacked
    ensures i < |Snapshot(unacked, lo, hi)| && Snapshot(unacked, lo, hi)[i] == (lo + i, unacked[lo + i])
    decreases hi
  {
    SnapshotSize(unacked, lo, hi - 1);
    if i < hi - 1 - lo { SnapshotAt(unacked, lo, hi - 1, i); }
  }

  lemma WindowSizeBound(cfg: Config, w: Window, numbered: seq<Payload>)
    requires WindowInv(cfg, w, numbered)
    ensures |w.unacked| == w.nextSeq - w.sendBase <= AsUint64(cfg.windowSize)
  {
    IntervalSize(w.unacked.Keys, w.sendBase, w.nextSeq);
  }
}
