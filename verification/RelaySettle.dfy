/** Finishing what is in hand: from every reachable state of an open link each goroutine has a next
    step to take, and taking these steps brings both halves to rest. */
module RelaySettle {
  import opened RelayTypes
  import opened AckWorker
  import S = RelaySender
  import SP = RelaySenderProofs
  import R = RelayReceiver
  import RI = RelayReceiverInvariant
  import opened RelayLink
  import opened RelayProgress

  // The reader and the dispatcher

  /** The ACK worker has not met a failed send, after which it only closes the connection. */
  predicate Working(w: Worker) {
    w != Stopped && (w.Replied? ==> w.ok)
  }

  /** The receiving half is open for data, and stays so: the reader is not about to admit a terminal
      frame, nor to fail the connection because a frame other than DATA finds the inbox full. */
  predicate Receiving(cfg: Config, r: R.Receiver) {
    && !r.closed && !r.gate.failed && !r.gate.terminal
    && (r.reader.Pushing? && !r.reader.frame.Data? ==> r.reader.frame.Other? && |r.gate.inbox| < Budget(cfg) + 8)
  }

  /** The step that continues what the reader has in hand, or else the dispatcher. */
  function NextStep(cfg: Config, r: R.Receiver): R.ReceiverEvent {
    match r.reader
    case Replaying(_) => R.OfReader(R.Replay)
    case Weighing(_, _) => R.OfReader(R.Weigh)
    case Beginning(_) => R.OfReader(R.Register)
    case Pushing(_) => R.OfReader(R.Push)
    case Vacant =>
      if r.disp.Publishing? && r.disp.batch != [] && |r.out.recvCh| >= cfg.recvCap then R.OfApp(R.Receive)
      else R.OfDispatcher(NextDispatch(r.disp))
  }

  function NextDispatch(d: R.Dispatcher): R.DispatchEvent {
    match d
    case Took(_) => R.HandleFrame
    case Publishing(_, _, _) => R.Publish
    case Counting(_, _, _) => R.CountOne
    case Marking(_, _) => R.MarkDelivered
    case Acking(_, _) => R.QueueBatchAck
    case Finishing(_) => R.Unregister
    case Releasing(_) => R.Release
    case _ => R.TakeFrame
  }

  function ReaderRank(rd: R.Reader): nat {
    match rd
    case Vacant => 0
    case Replaying(_) => 1
    case Pushing(_) => 1
    case Beginning(_) => 2
    case Weighing(_, _) => 3
  }

  function Stage(d: R.Dispatcher): nat {
    match d
    case Took(_) => 6
    case Publishing(_, _, _) => 5
    case Counting(_, _, _) => 5
    case Marking(_, _) => 4
    case Acking(_, _) => 3
    case Finishing(_) => 2
    case Releasing(_) => 1
    case _ => 0
  }

  /** Publications and countings left in the batch. */
  function Left(d: R.Dispatcher): nat {
    if d.Publishing? then 2 * |d.batch| else if d.Counting? then 2 * |d.batch| + 1 else 0
  }

  /** t is nearer to rest than r: by the reader, the inbox, the dispatcher, its batch, the channel. */
  ghost predicate Nearer(t: R.Receiver, r: R.Receiver) {
    if ReaderRank(t.reader) != ReaderRank(r.reader) then ReaderRank(t.reader) < ReaderRank(r.reader)
    else if |t.gate.inbox| != |r.gate.inbox| then |t.gate.inbox| < |r.gate.inbox|
    else if Stage(t.disp) != Stage(r.disp) then Stage(t.disp) < Stage(r.disp)
    else if Left(t.disp) != Left(r.disp) then Left(t.disp) < Left(r.disp)
    else |t.out.recvCh| < |r.out.recvCh|
  }

  lemma ReaderAdvances(cfg: Config, r: R.Receiver)
    requires Receiving(cfg, r) && Working(r.acks.worker) && r.reader != R.Vacant
    requires RI.ReaderInv(cfg, r)
    ensures var t := R.Step(cfg, r, NextStep(cfg, r));
            Receiving(cfg, t) && Working(t.acks.worker) && Nearer(t, r)
  {
  }

  /** What the invariants say of an open dispatcher's place. */
  lemma OpenDispatcher(cfg: Config, r: R.Receiver)
    requires RI.ReceiverInv(cfg, r) && Receiving(cfg, r)
    ensures RI.Alive(r.disp) && !r.disp.AwaitingIdle?
    ensures r.disp.Took? ==> r.disp.frame.Data? || r.disp.frame.Other?
    ensures r.disp.Counting? ==> r.order.recvReady > 0
    ensures r.disp.Releasing? ==> r.gate.inboxData > 0
  {
  }

  lemma DispatcherAdvances(cfg: Config, r: R.Receiver)
    requires Receiving(cfg, r) && Working(r.acks.worker) && r.reader == R.Vacant && cfg.recvCap >= 1
    requires RI.Alive(r.disp) && !r.disp.AwaitingIdle?
    requires r.disp == R.Choosing ==> r.gate.inbox != []
    requires r.disp.Took? ==> r.disp.frame.Data? || r.disp.frame.Other?
    requires r.disp.Counting? ==> r.order.recvReady > 0
    requires r.disp.Releasing? ==> r.gate.inboxData > 0
    ensures var t := R.Step(cfg, r, NextStep(cfg, r));
            Receiving(cfg, t) && Working(t.acks.worker) && Nearer(t, r)
  {
  }

  /** What settling the receiving half leaves alone. */
  ghost predicate SenderSame(l: Link, t: Link) {
    t.snd == l.snd && t.data == l.data && t.acks == l.acks
  }

  lemma {:induction false} SettleReceiver(c: Configs, run: seq<Event>) returns (next: seq<Event>)
    requires var r := Exec(c, run).rcv; Receiving(c.receiver, r) && Working(r.acks.worker) && c.receiver.recvCap >= 1
    ensures run <= next && SenderSame(Exec(c, run), Exec(c, next))
    ensures Quiet(Exec(c, next).rcv) && Working(Exec(c, next).rcv.acks.worker)
    decreases ReaderRank(Exec(c, run).rcv.reader), |Exec(c, run).rcv.gate.inbox|, Stage(Exec(c, run).rcv.disp),
              Left(Exec(c, run).rcv.disp), |Exec(c, run).rcv.out.recvCh|
  {
    var r := Exec(c, run).rcv;
    if Quiet(r) {
      next := run;
    } else {
      NextAdvances(c, run);
      next := RcvStep(c, run, NextStep(c.receiver, r));
      next := SettleReceiver(c, next);
    }
  }

  lemma NextAdvances(c: Configs, run: seq<Event>)
    requires var r := Exec(c, run).rcv;
             Receiving(c.receiver, r) && Working(r.acks.worker) && c.receiver.recvCap >= 1 && !Quiet(r)
    ensures var r := Exec(c, run).rcv; var t := R.Step(c.receiver, r, NextStep(c.receiver, r));
            Receiving(c.receiver, t) && Working(t.acks.worker) && Nearer(t, r)
  {
    var r := Exec(c, run).rcv;
    assert RI.ReceiverInv(c.receiver, r) by { RunKeeps(c, run); }
    if r.reader != R.Vacant {
      ReaderAdvances(c.receiver, r);
    } else {
      OpenDispatcher(c.receiver, r);
      DispatcherAdvances(c.receiver, r);
    }
  }

  // The ACK worker

  function NextWork(w: Worker): R.WorkerEvent {
    match w
    case Asleep => R.WakeUp
    case Sending(_) => R.SendReturns(true)
    case Replied(_, _) => R.SettleUp
    case _ => R.PickUp
  }

  function WorkLeft(w: Worker): nat {
    match w
    case Sending(_) => 3
    case Replied(_, _) => 2
    case Picking => 1
    case _ => 0
  }

  /** The worker sleeps and nothing is pending. */
  predicate Rested(a: Acks) {
    a.worker == Asleep && a.pending.None?
  }

  lemma {:induction false} SettleWorker(c: Configs, run: seq<Event>) returns (next: seq<Event>)
    requires Quiet(Exec(c, run).rcv) && Working(Exec(c, run).rcv.acks.worker)
    ensures run <= next && SenderSame(Exec(c, run), Exec(c, next))
    ensures Quiet(Exec(c, next).rcv) && Rested(Exec(c, next).rcv.acks)
    decreases Exec(c, run).rcv.acks.pending.Some?, Exec(c, run).rcv.acks.token,
              WorkLeft(Exec(c, run).rcv.acks.worker)
  {
    var a := Exec(c, run).rcv.acks;
    if Rested(a) {
      next := run;
    } else {
      assert a.pending.Some? ==> a.token || a.worker != Asleep by { RunKeeps(c, run); }
      WorkerAdvances(Exec(c, run).rcv);
      next := RcvStep(c, run, R.OfWorker(NextWork(a.worker)));
      next := SettleWorker(c, next);
    }
  }

  lemma WorkerAdvances(r: R.Receiver)
    requires Working(r.acks.worker) && !Rested(r.acks)
    requires r.acks.pending.Some? ==> r.acks.token || r.acks.worker != Asleep
    ensures var t := R.StepWorker(r, NextWork(r.acks.worker));
            && t == r.(acks := t.acks) && Working(t.acks.worker)
            && (if t.acks.pending.Some? != r.acks.pending.Some? then t.acks.pending.None?
                else if t.acks.token != r.acks.token then !t.acks.token
                else WorkLeft(t.acks.worker) < WorkLeft(r.acks.worker))
  {
  }

  /** At rest there is no idle channel: nothing keeps a Close or a terminal frame waiting. */
  lemma RestIsIdle(c: Configs, run: seq<Event>)
    requires Quiet(Exec(c, run).rcv) && Rested(Exec(c, run).rcv.acks)
    ensures Exec(c, run).rcv.acks.idle.None?
  {
    RunKeeps(c, run);
    assert RI.Work(Exec(c, run).rcv) == 0;
  }

  /** From every reachable state of an open receiving half, all ACK work can be finished. */
  lemma ReachIdle(c: Configs, run: seq<Event>) returns (next: seq<Event>)
    requires var r := Exec(c, run).rcv; Receiving(c.receiver, r) && Working(r.acks.worker) && c.receiver.recvCap >= 1
    ensures run <= next && SenderSame(Exec(c, run), Exec(c, next))
    ensures var t := Exec(c, next).rcv; Quiet(t) && Rested(t.acks) && t.acks.idle.None?
  {
    next := SettleReceiver(c, run);
    next := SettleWorker(c, next);
    RestIsIdle(c, next);
  }

  // The sending half

  /** No RPC is outstanding, and a round can begin: it has been asked for, or sendLoop can hear the ACK
      timer and there is none. */
  ghost predicate Resting(s: S.Sender) {
    && s.inflight == 0 && s.state != Closed
    && (s.round == S.Armed || (s.round == S.NoRound && (s.loop == S.Selecting || s.loop.Windowing?)))
  }

  /** What settling leaves alone in the sending half. A payload that waits for the window keeps waiting. */
  ghost predicate SenderKept(s: S.Sender, t: S.Sender) {
    && t.win == s.win && t.numbered == s.numbered && t.queued == s.queued && t.sendCh == s.sendCh
    && t.state == s.state && t.closer == s.closer && s.waiting <= t.waiting
    && (t.round == S.Armed <==> s.round == S.Armed)
    && (if s.loop.Windowing? then t.loop == s.loop else !t.loop.Windowing?)
  }

  ghost predicate ReceiverSame(l: Link, t: Link) {
    t.rcv == l.rcv && t.data == l.data && t.acks == l.acks
  }

  /** sendLoop has a frame to launch or a barrier to pass. */
  function LoopLeft(loop: S.Loop): nat {
    if loop.Slotting? || loop.AtBarrier? || loop.AtClose? then 1 else 0
  }

  /** Frames a running round has yet to launch, and the round itself. */
  function RoundLeft(r: S.Round): nat {
    if r.Round? then |r.todo| + 1 else 0
  }

  function InSlots(r: S.Round): nat {
    if r.Round? then 2 * |r.sending| + (if r.slot then 0 else 1) else 0
  }

  /** t is nearer to rest than s: by sendLoop, the first transmissions, the round, its slots. */
  ghost predicate SenderNearer(t: S.Sender, s: S.Sender) {
    if LoopLeft(t.loop) != LoopLeft(s.loop) then LoopLeft(t.loop) < LoopLeft(s.loop)
    else if |t.outstanding| != |s.outstanding| then |t.outstanding| < |s.outstanding|
    else if RoundLeft(t.round) != RoundLeft(s.round) then RoundLeft(t.round) < RoundLeft(s.round)
    else InSlots(t.round) < InSlots(s.round)
  }

  /** The step that continues the sending half: an RPC returns, the round goes on, sendLoop goes on. */
  lemma NextSend(cfg: Config, s: S.Sender) returns (e: S.SenderEvent)
    requires SP.SlotInv(cfg, s) && s.loop != S.LoopDone && s.state != Closed && !Resting(s)
    ensures S.Emit(s, e) == {} && SenderNearer(S.Step(cfg, s, e), s)
    ensures SenderKept(s, S.Step(cfg, s, e))
  {
    if s.outstanding != map[] {
      e := NextAccepted(cfg, s);
    } else if s.round.Round? {
      e := NextRetry(cfg, s);
    } else {
      e := S.OfLoop(if s.loop.Slotting? then S.Launch else S.Pass);
    }
  }

  lemma NextRetry(cfg: Config, s: S.Sender) returns (e: S.SenderEvent)
    requires SP.SlotInv(cfg, s) && s.outstanding == map[] && s.round.Round?
    ensures S.Emit(s, e) == {} && SenderNearer(S.Step(cfg, s, e), s)
    ensures SenderKept(s, S.Step(cfg, s, e)) && S.Step(cfg, s, e).loop == s.loop
  {
    if s.round.sending != map[] {
      e := NextReturn(cfg, s);
    } else if s.round.slot {
      e := S.OfRetry(S.Relaunch);
    } else if s.round.todo != [] {
      e := S.OfRetry(if S.StillPending(s, s.round.todo[0].0) then S.Slot else S.Skip);
    } else {
      e := S.OfRetry(S.End);
    }
  }

  lemma NextAccepted(cfg: Config, s: S.Sender) returns (e: S.SenderEvent)
    requires s.outstanding != map[] && s.inflight > 0
    ensures S.Emit(s, e) == {} && SenderNearer(S.Step(cfg, s, e), s)
    ensures SenderKept(s, S.Step(cfg, s, e)) && S.Step(cfg, s, e).loop == s.loop
  {
    var n :| n in s.outstanding;
    e := S.OfLoop(S.Accepted(n));
    assert s.outstanding.Keys == (s.outstanding - {n}).Keys + {n};
  }

  lemma NextReturn(cfg: Config, s: S.Sender) returns (e: S.SenderEvent)
    requires s.round.Round? && s.round.sending != map[] && s.inflight > 0
    ensures S.Emit(s, e) == {} && SenderNearer(S.Step(cfg, s, e), s)
    ensures SenderKept(s, S.Step(cfg, s, e)) && S.Step(cfg, s, e).loop == s.loop
  {
    var n :| n in s.round.sending;
    e := S.OfRetry(S.Reaccepted(n));
    assert s.round.sending.Keys == (s.round.sending - {n}).Keys + {n};
  }

  lemma {:induction false} SettleSender(c: Configs, run: seq<Event>) returns (next: seq<Event>)
    requires Exec(c, run).snd.state != Closed
    ensures run <= next && ReceiverSame(Exec(c, run), Exec(c, next))
    ensures SenderKept(Exec(c, run).snd, Exec(c, next).snd) && Resting(Exec(c, next).snd)
    decreases LoopLeft(Exec(c, run).snd.loop), |Exec(c, run).snd.outstanding|,
              RoundLeft(Exec(c, run).snd.round), InSlots(Exec(c, run).snd.round)
  {
    var s := Exec(c, run).snd;
    if Resting(s) {
      next := run;
    } else {
      assert SP.SlotInv(c.sender, s) && s.loop != S.LoopDone by { RunKeeps(c, run); }
      var e := NextSend(c.sender, s);
      next := SndStep(c, run, e);
      assert Exec(c, next).data == Exec(c, run).data;
      next := SettleSender(c, next);
    }
  }
}
