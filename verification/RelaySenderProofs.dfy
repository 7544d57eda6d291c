/** What every event of the sending half keeps. */
module RelaySenderProofs {
  import opened RelayTypes
  import opened SendWindow
  import opened RelaySender

  /** The payloads among queued items, in order. */
  ghost function PayloadsOf(items: seq<Item>): (r: seq<Payload>) {
    if items == [] then []
    else (if items[0].Payloads? then [items[0].data] else []) + PayloadsOf(items[1..])
  }

  /** The payload sendLoop has taken and not yet numbered. */
  ghost function Held(s: Sender): seq<Payload> {
    if s.loop.Windowing? then [s.loop.data] else []
  }

  /** Frames that carry the payload their number was given to. */
  ghost predicate Faithful(m: map<nat, Payload>, numbered: seq<Payload>) {
    forall n :: n in m ==> 1 <= n <= |numbered| && m[n] == numbered[n - 1]
  }

  /** Nothing accepted is lost or reordered on its way to a sequence number. */
  ghost predicate OrderInv(s: Sender) {
    && s.numbered <= s.queued
    && (s.loop != LoopDone ==> s.queued == s.numbered + Held(s) + PayloadsOf(s.sendCh))
  }

  /** Every frame that may be transmitted carries the payload of its number. */
  ghost predicate CarryInv(s: Sender) {
    && Faithful(s.outstanding, s.numbered)
    && (s.loop.Slotting? ==>
          && 1 <= s.loop.seqNo == |s.numbered| && s.loop.data == s.numbered[s.loop.seqNo - 1]
          && s.loop.seqNo !in s.outstanding)
    && (s.round.Round? ==>
          && Faithful(s.round.sending, s.numbered)
          && forall i :: 0 <= i < |s.round.todo| ==>
               1 <= s.round.todo[i].0 <= |s.numbered| && s.round.todo[i].1 == s.numbered[s.round.todo[i].0 - 1])
  }

  /** The RPC slots in use are exactly those of the running transmissions, and within the limit. */
  ghost predicate SlotInv(cfg: Config, s: Sender) {
    && (s.round.Round? && s.round.slot ==> s.round.todo != [])
    && (s.round.Round? ==> RoundOrdered(s.round.todo, s.round.sending))
    && s.inflight == |s.outstanding| + SlotsOfRound(s.round)
    && s.inflight <= InflightLimit(cfg)
  }

  /** A round tries its frames in order, so no frame is being sent twice in it. */
  ghost predicate RoundOrdered(todo: seq<(nat, Payload)>, sending: map<nat, Payload>) {
    && (forall i, j :: 0 <= i < j < |todo| ==> todo[i].0 < todo[j].0)
    && (forall n, i :: n in sending && 0 <= i < |todo| ==> n < todo[i].0)
  }

  ghost function SlotsOfRound(r: Round): nat {
    if r.Round? then |r.sending| + (if r.slot then 1 else 0) else 0
  }

  ghost predicate MayQueue(h: Holder) {
    h.SendReady? || h.FlushReady? || h.CloseReady?
  }

  /** Close queues its marker once and last; past the marker nothing is queued or in flight. */
  ghost predicate CloseInv(s: Sender) {
    && (s.closer != NotClosing ==> s.state == Closing || s.state == Closed)
    && (s.holder == CloseReady ==> s.state == Closing || s.state == Closed)
    && (MayQueue(s.holder) ==> s.closer == NotClosing)
    && (s.closer == NotClosing ==> !s.flushed && s.loop != AtClose && CloseMark !in s.sendCh)
    && (s.loop == LoopDone ==> s.state == Closed)
    && (s.loop == AtClose ==> s.sendCh == [] && !s.flushed)
    && (s.closer != NotClosing && !s.flushed && s.loop != AtClose && s.loop != LoopDone ==>
          s.sendCh != [] && s.sendCh[|s.sendCh| - 1] == CloseMark && CloseMark !in s.sendCh[..|s.sendCh| - 1])
    && (s.flushed ==>
          && s.sendCh == [] && s.queued == s.numbered && s.outstanding == map[]
          && (s.loop == Selecting || s.loop == LoopDone))
    && (s.closer == CloseDrained || s.closer == CloseSent ==> s.flushed && s.win.unacked == map[])
  }

  /** A barrier stands behind exactly the payloads queued before it. */
  ghost predicate FlushInv(s: Sender) {
    && (s.holder.FlushHeld? || s.holder.FlushReady? ==> s.holder.before == |s.queued|)
    && (s.loop != LoopDone ==>
          forall i :: 0 <= i < |s.sendCh| && s.sendCh[i].Barrier? ==>
            s.sendCh[i].before == |s.numbered| + |Held(s)| + |PayloadsOf(s.sendCh[..i])|)
    && (s.loop.AtBarrier? ==> s.loop.before == |s.numbered|)
    && (forall w :: w in s.waiting ==> w.target == w.before + 1 && w.target <= s.win.nextSeq)
    && (forall n :: n in s.flushedBefore ==> n < s.win.sendBase)
  }

  /** Every number retired pays for at most MaxRetransmits rounds. */
  ghost predicate RetryInv(cfg: Config, s: Sender) {
    && s.win.sendBase >= 1
    && s.rounds <= Paid(cfg.maxRetransmits, s.win.sendBase - 1) + Spent(cfg, s.win)
  }

  ghost function Paid(perNumber: nat, numbers: nat): nat {
    if numbers == 0 then 0 else Paid(perNumber, numbers - 1) + perNumber
  }

  ghost function Spent(cfg: Config, w: Window): nat {
    if w.retransCnt <= cfg.maxRetransmits then w.retransCnt else cfg.maxRetransmits
  }

  ghost predicate SenderInv(cfg: Config, s: Sender) {
    && WindowInv(cfg, s.win, s.numbered)
    && OrderInv(s)
    && CarryInv(s)
    && SlotInv(cfg, s)
    && CloseInv(s)
    && FlushInv(s)
    && RetryInv(cfg, s)
  }

  lemma {:induction false} PayloadsOfAppend(items: seq<Item>, x: Item)
    ensures PayloadsOf(items + [x]) == PayloadsOf(items) + if x.Payloads? then [x.data] else []
  {
    var longer := items + [x];
    if items == [] {
      assert longer[1..] == [];
    } else {
      PayloadsOfAppend(items[1..], x);
      assert longer[0] == items[0] && longer[1..] == items[1..] + [x];
    }
  }

  lemma InitialInv(cfg: Config)
    ensures SenderInv(cfg, InitialSender)
  {
  }

  // The window and the retry budget

  lemma KeepsWindow(cfg: Config, s: Sender, e: SenderEvent)
    requires WindowInv(cfg, s.win, s.numbered)
    ensures WindowInv(cfg, Step(cfg, s, e).win, Step(cfg, s, e).numbered)
  {
    if e == OfLoop(NumberNext) && s.loop.Windowing? && HasRoom(cfg, s.win) {
      NumberKeepsWindow(cfg, s.win, s.numbered, s.loop.data);
    } else {
      NumbersNothing(cfg, s, e);
    }
  }

  lemma NumbersNothing(cfg: Config, s: Sender, e: SenderEvent)
    requires !(e == OfLoop(NumberNext) && s.loop.Windowing? && HasRoom(cfg, s.win))
    ensures var t := Step(cfg, s, e);
            t.numbered == s.numbered && t.win.(retransCnt := s.win.retransCnt) == s.win
  {
    match e
    case OfCaller(x) => CallerFrame(s, x);
    case OfRetry(x) => RetryFrame(cfg, s, x);
    case OfBarrier(x) => BarrierFrame(s, x);
    case _ =>
  }

  lemma KeepsRetry(cfg: Config, s: Sender, e: SenderEvent)
    requires RetryInv(cfg, s)
    ensures RetryInv(cfg, Step(cfg, s, e))
  {
    match e
    case OfCaller(x) => CallerFrame(s, x);
    case OfLoop(x) => LoopRetries(cfg, s, x);
    case OfRetry(x) => RoundRetries(cfg, s, x);
    case OfBarrier(x) => BarrierFrame(s, x);
    case _ =>
  }

  lemma LoopRetries(cfg: Config, s: Sender, e: LoopEvent)
    requires s.win.sendBase >= 1
    ensures var t := StepLoop(cfg, s, e);
            t.win.sendBase == s.win.sendBase && t.win.retransCnt == s.win.retransCnt && t.rounds == s.rounds
  {
  }

  lemma RoundRetries(cfg: Config, s: Sender, e: RetryEvent)
    requires RetryInv(cfg, s)
    ensures RetryInv(cfg, StepRetry(cfg, s, e))
  {
    if e != BeginResend { assert StepRetry(cfg, s, e).win == s.win && StepRetry(cfg, s, e).rounds == s.rounds; }
  }

  lemma {:induction false} PaidGrows(perNumber: nat, a: nat, b: nat)
    requires a < b
    ensures Paid(perNumber, a) + perNumber <= Paid(perNumber, b)
  {
    if a + 1 < b { PaidGrows(perNumber, a, b - 1); }
  }

  lemma {:induction false} PaidIsProduct(perNumber: nat, numbers: nat)
    ensures Paid(perNumber, numbers) == perNumber * numbers
  {
    if numbers > 0 { PaidIsProduct(perNumber, numbers - 1); }
  }

  // The order of payloads

  lemma KeepsOrder(cfg: Config, s: Sender, e: SenderEvent)
    requires OrderInv(s)
    ensures OrderInv(Step(cfg, s, e))
  {
    match e
    case OfCaller(c) => CallerKeepsOrder(s, c);
    case OfLoop(l) => LoopKeepsOrder(cfg, s, l);
    case _ =>
      var t := Step(cfg, s, e);
      assert t.sendCh == s.sendCh && t.queued == s.queued && t.numbered == s.numbered && t.loop == s.loop;
  }

  lemma CallerKeepsOrder(s: Sender, e: CallerEvent)
    requires OrderInv(s)
    ensures OrderInv(StepCaller(s, e))
  {
    if e == Enqueue {
      match s.holder
      case SendReady(data) => PayloadsOfAppend(s.sendCh, Payloads(data));
      case FlushReady(before) => PayloadsOfAppend(s.sendCh, Barrier(before));
      case CloseReady => PayloadsOfAppend(s.sendCh, CloseMark);
      case _ =>
    }
  }

  lemma LoopKeepsOrder(cfg: Config, s: Sender, e: LoopEvent)
    requires OrderInv(s)
    ensures OrderInv(StepLoop(cfg, s, e))
  {
  }

  // Transmissions

  lemma KeepsCarry(cfg: Config, s: Sender, e: SenderEvent)
    requires CarryInv(s) && WindowInv(cfg, s.win, s.numbered)
    ensures CarryInv(Step(cfg, s, e))
  {
    match e
    case OfCaller(x) => CallerFrame(s, x);
    case OfLoop(l) => LoopKeepsCarry(cfg, s, l);
    case OfRetry(r) => RetryKeepsCarry(cfg, s, r);
    case OfBarrier(b) => BarrierFrame(s, b);
    case _ =>
  }

  lemma BarrierFrame(s: Sender, e: BarrierEvent)
    ensures var t := StepBarrier(s, e);
            t.(waiting := s.waiting, flushedBefore := s.flushedBefore, closer := s.closer) == s
  {
  }

  lemma LoopKeepsCarry(cfg: Config, s: Sender, e: LoopEvent)
    requires CarryInv(s) && WindowInv(cfg, s.win, s.numbered)
    ensures CarryInv(StepLoop(cfg, s, e))
  {
  }

  lemma RetryKeepsCarry(cfg: Config, s: Sender, e: RetryEvent)
    requires CarryInv(s) && WindowInv(cfg, s.win, s.numbered)
    ensures CarryInv(StepRetry(cfg, s, e))
  {
    match e
    case BeginResend => StartRoundKeepsCarry(cfg, s);
    case Relaunch => RelaunchKeepsCarry(s);
    case _ =>
  }

  lemma StartRoundKeepsCarry(cfg: Config, s: Sender)
    requires CarryInv(s) && WindowInv(cfg, s.win, s.numbered)
    ensures CarryInv(StartRound(cfg, s))
  {
  }

  lemma RelaunchKeepsCarry(s: Sender)
    requires CarryInv(s)
    ensures CarryInv(LaunchRetry(s))
  {
  }

  lemma KeepsSlots(cfg: Config, s: Sender, e: SenderEvent)
    requires SlotInv(cfg, s) && CarryInv(s)
    ensures SlotInv(cfg, Step(cfg, s, e))
  {
    match e
    case OfCaller(c) => CallerFrame(s, c);
    case OfLoop(l) => LoopKeepsSlots(cfg, s, l);
    case OfRetry(r) => RetryKeepsSlots(cfg, s, r);
    case _ =>
  }

  lemma CallerFrame(s: Sender, e: CallerEvent)
    ensures var t := StepCaller(s, e);
            t.(state := s.state, holder := s.holder, sendCh := s.sendCh, queued := s.queued, closer := s.closer) == s
  {
  }

  lemma LoopKeepsSlots(cfg: Config, s: Sender, e: LoopEvent)
    requires SlotInv(cfg, s) && CarryInv(s)
    ensures SlotInv(cfg, StepLoop(cfg, s, e))
  {
    match e
    case Launch => LaunchKeepsSlots(cfg, s);
    case Accepted(n) => AcceptedKeepsSlots(cfg, s, n);
    case _ =>
  }

  lemma LaunchKeepsSlots(cfg: Config, s: Sender)
    requires SlotInv(cfg, s) && (s.loop.Slotting? ==> s.loop.seqNo !in s.outstanding)
    ensures SlotInv(cfg, LaunchFirst(cfg, s))
  {
    if s.loop.Slotting? { AddOne(s.outstanding, s.loop.seqNo, s.loop.data); }
  }

  lemma AcceptedKeepsSlots(cfg: Config, s: Sender, n: nat)
    requires SlotInv(cfg, s)
    ensures SlotInv(cfg, AcceptedRPC(s, n))
  {
    if n in s.outstanding { RemoveOne(s.outstanding, n); }
  }

  lemma RetryKeepsSlots(cfg: Config, s: Sender, e: RetryEvent)
    requires SlotInv(cfg, s)
    ensures SlotInv(cfg, StepRetry(cfg, s, e))
  {
    match e
    case BeginResend => StartRoundKeepsSlots(cfg, s);
    case Relaunch => RelaunchKeepsSlots(cfg, s);
    case Reaccepted(n) => ReacceptedKeepsSlots(cfg, s, n);
    case _ =>
  }

  lemma StartRoundKeepsSlots(cfg: Config, s: Sender)
    requires SlotInv(cfg, s)
    ensures SlotInv(cfg, StartRound(cfg, s))
  {
    if s.round == Armed && StartRound(cfg, s).round.Round? {
      assert StartRound(cfg, s).round.sending == map[];
    }
  }

  lemma RelaunchKeepsSlots(cfg: Config, s: Sender)
    requires SlotInv(cfg, s)
    ensures SlotInv(cfg, LaunchRetry(s))
  {
    if s.round.Round? && s.round.todo != [] {
      AddOne(s.round.sending, s.round.todo[0].0, s.round.todo[0].1);
    }
  }

  lemma ReacceptedKeepsSlots(cfg: Config, s: Sender, n: nat)
    requires SlotInv(cfg, s)
    ensures SlotInv(cfg, AcceptedRetry(s, n))
  {
    if s.round.Round? && n in s.round.sending { RemoveOne(s.round.sending, n); }
  }

  lemma AddOne(m: map<nat, Payload>, k: nat, v: Payload)
    requires k !in m
    ensures |m[k := v]| == |m| + 1
  {
    assert m[k := v].Keys == m.Keys + {k};
  }

  lemma RemoveOne(m: map<nat, Payload>, k: nat)
    requires k in m
    ensures |m - {k}| == |m| - 1
  {
    assert (m - {k}).Keys == m.Keys - {k};
  }

  // The Close marker

  lemma KeepsClose(cfg: Config, s: Sender, e: SenderEvent)
    requires CloseInv(s) && OrderInv(s)
    ensures CloseInv(Step(cfg, s, e))
  {
    match e
    case OfCaller(c) => CallerKeepsClose(s, c);
    case OfLoop(l) => LoopKeepsClose(cfg, s, l);
    case OfRetry(r) => RetryKeepsClose(cfg, s, r);
    case _ =>
  }

  lemma CallerKeepsClose(s: Sender, e: CallerEvent)
    requires CloseInv(s)
    ensures CloseInv(StepCaller(s, e))
  {
  }

  lemma LoopKeepsClose(cfg: Config, s: Sender, e: LoopEvent)
    requires CloseInv(s) && OrderInv(s)
    ensures CloseInv(StepLoop(cfg, s, e))
  {
    if e == Take && s.loop == Selecting && |s.sendCh| > 1 {
      assert s.sendCh[..|s.sendCh| - 1][1..] == s.sendCh[1..][..|s.sendCh| - 2];
    }
  }

  lemma RetryKeepsClose(cfg: Config, s: Sender, e: RetryEvent)
    requires CloseInv(s)
    ensures CloseInv(StepRetry(cfg, s, e))
  {
    RetryFrame(cfg, s, e);
  }

  /** Retransmission touches the retry counter, the round and the slots, and may close. */
  lemma RetryFrame(cfg: Config, s: Sender, e: RetryEvent)
    ensures var t := StepRetry(cfg, s, e);
            && t.(win := s.win, round := s.round, state := s.state, inflight := s.inflight, rounds := s.rounds) == s
            && t.win.(retransCnt := s.win.retransCnt) == s.win
            && (t.state == s.state || t.state == Closed)
  {
  }

  // Flush barriers

  lemma KeepsFlush(cfg: Config, s: Sender, e: SenderEvent)
    requires FlushInv(s) && OrderInv(s) && WindowInv(cfg, s.win, s.numbered)
    ensures FlushInv(Step(cfg, s, e))
  {
    match e
    case OfCaller(c) => CallerKeepsFlush(s, c);
    case OfLoop(l) => LoopKeepsFlush(cfg, s, l);
    case OfRetry(r) => RetryKeepsFlush(cfg, s, r);
    case OfBarrier(b) => BarrierKeepsFlush(cfg, s, b);
    case _ =>
  }

  lemma RetryKeepsFlush(cfg: Config, s: Sender, e: RetryEvent)
    requires FlushInv(s)
    ensures FlushInv(StepRetry(cfg, s, e))
  {
    RetryFrame(cfg, s, e);
  }

  lemma BarrierKeepsFlush(cfg: Config, s: Sender, e: BarrierEvent)
    requires FlushInv(s) && WindowInv(cfg, s.win, s.numbered)
    ensures FlushInv(StepBarrier(s, e))
  {
    if s.win.sendBase < s.win.nextSeq { assert s.win.sendBase in s.win.unacked; }
  }

  lemma CallerKeepsFlush(s: Sender, e: CallerEvent)
    requires FlushInv(s) && OrderInv(s)
    ensures FlushInv(StepCaller(s, e))
  {
    CallerFrame(s, e);
    if e == Enqueue {
      var t := PutItem(s);
      forall i | 0 <= i < |t.sendCh| && t.sendCh[i].Barrier? && t.loop != LoopDone
        ensures t.sendCh[i].before == |t.numbered| + |Held(t)| + |PayloadsOf(t.sendCh[..i])|
      {
        assert t.sendCh[..i] == if i < |s.sendCh| then s.sendCh[..i] else s.sendCh;
      }
    }
  }

  lemma LoopKeepsFlush(cfg: Config, s: Sender, e: LoopEvent)
    requires FlushInv(s) && WindowInv(cfg, s.win, s.numbered)
    ensures FlushInv(StepLoop(cfg, s, e))
  {
    if e == Take && s.loop == Selecting && s.sendCh != [] {
      var t := TakeItem(s);
      assert PayloadsOf(s.sendCh[..0]) == [];
      forall i | 0 <= i < |t.sendCh| && t.sendCh[i].Barrier?
        ensures t.sendCh[i].before == |t.numbered| + |Held(t)| + |PayloadsOf(t.sendCh[..i])|
      {
        BehindHead(s.sendCh, i);
      }
    }
  }

  lemma BehindHead(items: seq<Item>, i: nat)
    requires i < |items| - 1
    ensures items[..i + 1][1..] == items[1..][..i] && items[..i + 1][0] == items[0]
  {
  }

  // All together

  lemma StepKeeps(cfg: Config, s: Sender, e: SenderEvent)
    requires SenderInv(cfg, s)
    ensures SenderInv(cfg, Step(cfg, s, e))
  {
    KeepsWindow(cfg, s, e);
    KeepsRetry(cfg, s, e);
    KeepsOrder(cfg, s, e);
    KeepsCarry(cfg, s, e);
    KeepsSlots(cfg, s, e);
    KeepsClose(cfg, s, e);
    KeepsFlush(cfg, s, e);
  }

  lemma AckKeeps(cfg: Config, s: Sender, ackSeq: nat)
    requires SenderInv(cfg, s)
    ensures SenderInv(cfg, ReceiveAck(s, ackSeq))
  {
    HandleAckKeepsWindow(cfg, s.win, s.numbered, ackSeq);
    AckKeepsRetry(cfg, s, ackSeq);
    AckKeepsOthers(s, ackSeq);
  }

  lemma AckKeepsRetry(cfg: Config, s: Sender, ackSeq: nat)
    requires RetryInv(cfg, s)
    ensures RetryInv(cfg, ReceiveAck(s, ackSeq))
  {
    var t := ReceiveAck(s, ackSeq);
    if t.win.sendBase > s.win.sendBase {
      PaidGrows(cfg.maxRetransmits, s.win.sendBase - 1, t.win.sendBase - 1);
    }
  }

  lemma AckKeepsOthers(s: Sender, ackSeq: nat)
    ensures OrderInv(s) ==> OrderInv(ReceiveAck(s, ackSeq))
    ensures CarryInv(s) ==> CarryInv(ReceiveAck(s, ackSeq))
    ensures CloseInv(s) ==> CloseInv(ReceiveAck(s, ackSeq))
    ensures FlushInv(s) ==> FlushInv(ReceiveAck(s, ackSeq))
  {
    var t := ReceiveAck(s, ackSeq);
    assert Held(t) == Held(s);
    assert t.win.sendBase >= s.win.sendBase && t.win.nextSeq == s.win.nextSeq;
    assert s.win.unacked == map[] ==> t.win.unacked == map[];
  }
}
