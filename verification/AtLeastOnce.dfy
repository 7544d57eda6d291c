/** At-least-once mode: the receiver acknowledges each frame by its own number, while the sender
    retires cumulatively. Frames can be given up undelivered; this module says exactly when. */
module AtLeastOnce {
  import opened RelayTypes
  import opened SendWindow

  /** The send window, the frames ever sent, the numbers handed to the application (each of which
      has been acknowledged by its own number), and the payloads in numbering order. */
  datatype Mode = Mode(win: Window, sent: set<nat>, delivered: set<nat>, numbered: seq<Payload>)

  const InitialMode := Mode(InitialWindow, {}, {}, [])

  datatype Event = NumberOne(data: Payload) | Transmit(seqNo: nat) | Deliver(seqNo: nat) | AckArrives(ackSeq: nat)

  function Step(cfg: Config, m: Mode, e: Event): Mode {
    match e
    case NumberOne(data) =>
      if HasRoom(cfg, m.win) then m.(win := Number(m.win, data), numbered := m.numbered + [data]) else m
    case Transmit(n) => if n in m.win.unacked then m.(sent := m.sent + {n}) else m
    case Deliver(n) => if n in m.sent then m.(delivered := m.delivered + {n}) else m
    case AckArrives(a) => if a in m.delivered then m.(win := HandleAck(m.win, a)) else m
  }

  function Exec(cfg: Config, run: seq<Event>): Mode {
    if run == [] then InitialMode else Step(cfg, Exec(cfg, run[..|run| - 1]), run[|run| - 1])
  }

  /** Every numbered frame is still kept for resending or has been delivered. */
  ghost predicate NothingLost(w: Window, delivered: set<nat>) {
    forall n :: 1 <= n < w.nextSeq ==> n in w.unacked || n in delivered
  }

  /** The ACK retires at most the frame it names. */
  predicate RetiresOnlyItself(w: Window, ackSeq: nat) {
    !(w.sendBase < ackSeq < w.nextSeq)
  }

  /** Every ACK that a run applies retires only the frame it names; an ACK is applied once its frame was
      delivered. */
  ghost predicate AcksInOrder(cfg: Config, run: seq<Event>) {
    forall i :: 0 <= i < |run| ==> InOrder(Exec(cfg, run[..i]), run[i])
  }

  predicate InOrder(m: Mode, e: Event) {
    e.AckArrives? && e.ackSeq in m.delivered ==> RetiresOnlyItself(m.win, e.ackSeq)
  }

  lemma PrefixInOrder(cfg: Config, run: seq<Event>, n: nat)
    requires AcksInOrder(cfg, run) && n < |run|
    ensures AcksInOrder(cfg, run[..n]) && InOrder(Exec(cfg, run[..n]), run[n])
  {
    forall i | 0 <= i < n ensures InOrder(Exec(cfg, run[..n][..i]), run[..n][i]) {
      assert run[..n][..i] == run[..i];
    }
  }

  ghost predicate ModeInv(cfg: Config, m: Mode) {
    && WindowInv(cfg, m.win, m.numbered) && NothingLost(m.win, m.delivered)
    && m.delivered <= m.sent && forall n :: n in m.sent ==> 1 <= n < m.win.nextSeq
  }

  lemma StepLosesNothing(cfg: Config, m: Mode, e: Event)
    requires ModeInv(cfg, m) && InOrder(m, e)
    ensures ModeInv(cfg, Step(cfg, m, e)) && Step(cfg, m, e).win.sendBase >= m.win.sendBase
  {
    match e
    case NumberOne(data) => if HasRoom(cfg, m.win) { NumberKeepsWindow(cfg, m.win, m.numbered, data); }
    case AckArrives(a) => HandleAckKeepsWindow(cfg, m.win, m.numbered, a);
    case _ =>
  }

  /** With ACKs in order the mode delivers at least once: nothing is ever given up undelivered. */
  lemma {:induction false} OrderedAcksLoseNothing(cfg: Config, run: seq<Event>)
    requires AcksInOrder(cfg, run)
    ensures ModeInv(cfg, Exec(cfg, run))
  {
    if run != [] {
      var last := |run| - 1;
      PrefixInOrder(cfg, run, last);
      OrderedAcksLoseNothing(cfg, run[..last]);
      StepLosesNothing(cfg, Exec(cfg, run[..last]), run[last]);
    }
  }

  // The order is needed

  /** Two runs that look the same from the sender. */
  ghost predicate SameSender(f: Mode, g: Mode) {
    g.win == f.win && g.sent == f.sent && g.numbered == f.numbered
  }

  /** g is f with only the frames delivered that were retired before `base`. */
  ghost predicate Sparse(f: Mode, g: Mode, base: nat) {
    SameSender(f, g) && forall n :: n in g.delivered <==> n in f.delivered && n < base
  }

  lemma StepStaysSparse(cfg: Config, f: Mode, g: Mode, e: Event, base: nat)
    requires ModeInv(cfg, f) && InOrder(f, e) && Sparse(f, g, base) && Step(cfg, f, e).win.sendBase <= base
    ensures var skip := e.Deliver? && e.seqNo >= base;
            Sparse(Step(cfg, f, e), if skip then g else Step(cfg, g, e), base)
    ensures InOrder(g, e)
  {
  }

  lemma Extend(cfg: Config, run: seq<Event>, e: Event) returns (longer: seq<Event>)
    ensures longer == run + [e] && Exec(cfg, longer) == Step(cfg, Exec(cfg, run), e)
    ensures AcksInOrder(cfg, run) && InOrder(Exec(cfg, run), e) ==> AcksInOrder(cfg, longer)
  {
    longer := run + [e];
    assert longer[..|run|] == run;
    assert forall i :: 0 <= i < |run| ==> longer[..i] == run[..i];
  }

  /** Every run with ACKs in order has a sibling that looks the same from the sender and has delivered
      nothing but what was retired. */
  lemma {:induction false} SparseSibling(cfg: Config, run: seq<Event>, base: nat) returns (kept: seq<Event>)
    requires AcksInOrder(cfg, run) && Exec(cfg, run).win.sendBase <= base
    ensures AcksInOrder(cfg, kept) && Sparse(Exec(cfg, run), Exec(cfg, kept), base)
  {
    if run == [] {
      kept := [];
    } else {
      var last := |run| - 1;
      var f := Exec(cfg, run[..last]);
      PrefixInOrder(cfg, run, last);
      OrderedAcksLoseNothing(cfg, run[..last]);
      StepLosesNothing(cfg, f, run[last]);
      kept := SparseSibling(cfg, run[..last], base);
      StepStaysSparse(cfg, f, Exec(cfg, kept), run[last], base);
      if !(run[last].Deliver? && run[last].seqNo >= base) { kept := Extend(cfg, kept, run[last]); }
    }
  }

  /** In some run that the sender cannot tell from its own, with ACKs in order so far, applying the ACK
      gives an undelivered frame up. */
  ghost predicate MayLose(cfg: Config, m: Mode, ackSeq: nat) {
    exists run :: AcksInOrder(cfg, run) && SameSender(m, Exec(cfg, run))
                  && !NothingLost(Step(cfg, Exec(cfg, run), AckArrives(ackSeq)).win, Exec(cfg, run).delivered)
  }

  /** In every state of every run with ACKs in order so far: an ACK may give a frame up undelivered if and
      only if its frame was sent and it jumps over the oldest unacknowledged one. */
  lemma AckIsSafeIff(cfg: Config, run: seq<Event>, ackSeq: nat)
    requires AcksInOrder(cfg, run)
    ensures var m := Exec(cfg, run);
            MayLose(cfg, m, ackSeq) <==> ackSeq in m.sent && !RetiresOnlyItself(m.win, ackSeq)
  {
    var m := Exec(cfg, run);
    OrderedAcksLoseNothing(cfg, run);
    if ackSeq in m.sent && !RetiresOnlyItself(m.win, ackSeq) {
      var kept := SparseSibling(cfg, run, m.win.sendBase);
      kept := Extend(cfg, kept, Deliver(ackSeq));
      JumpLoses(cfg, Exec(cfg, kept), ackSeq);
    } else {
      forall other | AcksInOrder(cfg, other) && SameSender(m, Exec(cfg, other))
        ensures NothingLost(Step(cfg, Exec(cfg, other), AckArrives(ackSeq)).win, Exec(cfg, other).delivered)
      {
        OrderedAcksLoseNothing(cfg, other);
        StepLosesNothing(cfg, Exec(cfg, other), AckArrives(ackSeq));
      }
    }
  }

  lemma JumpLoses(cfg: Config, m: Mode, ackSeq: nat)
    requires WindowInv(cfg, m.win, m.numbered) && ackSeq in m.delivered && !RetiresOnlyItself(m.win, ackSeq)
    requires m.win.sendBase !in m.delivered
    ensures !NothingLost(Step(cfg, m, AckArrives(ackSeq)).win, m.delivered)
  {
    var w := Step(cfg, m, AckArrives(ackSeq)).win;
    assert m.win.sendBase !in w.unacked && 1 <= m.win.sendBase < w.nextSeq;
  }

  /** Without that condition a frame is given up: the second frame overtakes the first, and its ACK
      retires both although the first was never delivered. */
  lemma OvertakingAckLosesFrame() returns (run: seq<Event>)
    ensures var m := Exec(Config(2, 5, 64), run);
            1 < m.win.nextSeq && 1 !in m.win.unacked && 1 !in m.delivered
  {
    var cfg := Config(2, 5, 64);
    run := [];
    run := Extend(cfg, run, NumberOne([1]));
    run := Extend(cfg, run, NumberOne([2]));
    assert Exec(cfg, run).win.nextSeq == 3 && 2 in Exec(cfg, run).win.unacked;
    run := Extend(cfg, run, Transmit(2));
    run := Extend(cfg, run, Deliver(2));
    assert Exec(cfg, run).delivered == {2};
    run := Extend(cfg, run, AckArrives(2));
  }
}
