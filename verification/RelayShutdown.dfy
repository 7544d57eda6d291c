/** That a closed connection comes to an end: every goroutine can finish and leave. */
module RelayShutdown {
  import opened RelayTypes
  import opened AckWorker
  import S = RelaySender
  import SP = RelaySenderProofs
  import R = RelayReceiver
  import opened RelayLink
  import opened RelayProgress
  import opened RelaySettle

  // The receiving half

  /** The step of the reader, or else of the dispatcher, towards the end. */
  function EndStep(cfg: Config, r: R.Receiver): R.ReceiverEvent {
    if r.reader != R.Vacant then NextStep(cfg, r)
    else R.OfDispatcher(
      match r.disp
      case Choosing => R.Leave
      case Leaving => R.CleanUp
      case AwaitingIdle(_, _) => R.PassTerminal
      case Publishing(_, batch, _) => if batch == [] then R.Publish else R.DropBatch
      case _ => NextDispatch(r.disp))
  }

  function EndStage(d: R.Dispatcher): nat {
    match d
    case Took(_) => 9
    case Counting(_, _, _) => 8
    case Publishing(_, _, _) => 7
    case Marking(_, _) => 6
    case Acking(_, _) => 5
    case Finishing(_) => 4
    case Releasing(_) => 3
    case AwaitingIdle(_, _) => 3
    case Choosing => 2
    case Leaving => 1
    case Gone => 0
  }

  lemma ReaderEnds(cfg: Config, r: R.Receiver)
    requires r.closed && r.reader != R.Vacant
    ensures var t := R.Step(cfg, r, EndStep(cfg, r));
            t.closed && t.disp == r.disp && ReaderRank(t.reader) < ReaderRank(r.reader)
  {
  }

  lemma DispatcherEnds(cfg: Config, r: R.Receiver)
    requires r.closed && r.reader == R.Vacant && r.disp != R.Gone
    requires r.disp.Counting? ==> r.order.recvReady > 0
    requires r.disp.Releasing? ==> r.gate.inboxData > 0
    ensures var t := R.Step(cfg, r, EndStep(cfg, r));
            t.closed && t.reader == R.Vacant && EndStage(t.disp) < EndStage(r.disp)
  {
  }

  lemma {:induction false} DispatcherLeaves(c: Configs, run: seq<Event>) returns (next: seq<Event>)
    requires Exec(c, run).rcv.closed
    ensures run <= next && SenderSame(Exec(c, run), Exec(c, next))
    ensures var t := Exec(c, next).rcv; t.closed && t.disp == R.Gone && t.reader == R.Vacant
    decreases ReaderRank(Exec(c, run).rcv.reader), EndStage(Exec(c, run).rcv.disp)
  {
    var r := Exec(c, run).rcv;
    if r.reader != R.Vacant {
      ReaderEnds(c.receiver, r);
      next := RcvStep(c, run, EndStep(c.receiver, r));
      next := DispatcherLeaves(c, next);
    } else if r.disp != R.Gone {
      Countable(c, run);
      DispatcherEnds(c.receiver, r);
      next := RcvStep(c, run, EndStep(c.receiver, r));
      next := DispatcherLeaves(c, next);
    } else {
      next := run;
    }
  }

  lemma Countable(c: Configs, run: seq<Event>)
    ensures var r := Exec(c, run).rcv;
            (r.disp.Counting? ==> r.order.recvReady > 0) && (r.disp.Releasing? ==> r.gate.inboxData > 0)
  {
    RunKeeps(c, run);
  }

  function EndWork(w: Worker): R.WorkerEvent {
    if w == Asleep then R.Stop else NextWork(w)
  }

  function StagesLeft(w: Worker): nat {
    match w
    case Stopped => 0
    case Asleep => 1
    case Picking => 2
    case Replied(_, _) => 3
    case Sending(_) => 4
  }

  lemma WorkerEnds(r: R.Receiver)
    requires r.closed && r.acks.worker != Stopped
    ensures var t := R.StepWorker(r, EndWork(r.acks.worker));
            && t == r.(acks := t.acks)
            && (if t.acks.pending.Some? != r.acks.pending.Some? then t.acks.pending.None?
                else StagesLeft(t.acks.worker) < StagesLeft(r.acks.worker))
  {
  }

  lemma {:induction false} WorkerLeaves(c: Configs, run: seq<Event>) returns (next: seq<Event>)
    requires Exec(c, run).rcv.closed
    ensures run <= next && SenderSame(Exec(c, run), Exec(c, next))
    ensures var r := Exec(c, run).rcv; var t := Exec(c, next).rcv; t == r.(acks := t.acks) && t.acks.worker == Stopped
    decreases Exec(c, run).rcv.acks.pending.Some?, StagesLeft(Exec(c, run).rcv.acks.worker)
  {
    var r := Exec(c, run).rcv;
    if r.acks.worker == Stopped {
      next := run;
    } else {
      WorkerEnds(r);
      next := RcvStep(c, run, R.OfWorker(EndWork(r.acks.worker)));
      next := WorkerLeaves(c, next);
    }
  }

  // The sending half

  /** sendLoop is gone, and no RPC and no round is left. */
  ghost predicate SenderGone(s: S.Sender) {
    s.loop == S.LoopDone && s.round == S.NoRound && s.outstanding == map[] && s.inflight == 0
  }

  lemma EndSend(cfg: Config, s: S.Sender) returns (e: S.SenderEvent)
    requires SP.SlotInv(cfg, s) && s.loop == S.LoopDone && s.state == Closed && !SenderGone(s)
    ensures S.Emit(s, e) == {}
    ensures var t := S.Step(cfg, s, e);
            && t.loop == S.LoopDone && t.state == Closed
            && (if s.round == S.Armed then t.round != S.Armed else t.round != S.Armed && SenderNearer(t, s))
  {
    if s.round == S.Armed {
      e := S.OfRetry(S.BeginResend);
    } else if s.outstanding != map[] {
      e := NextAccepted(cfg, s);
    } else {
      e := NextRetry(cfg, s);
    }
  }

  lemma {:induction false} SenderLeaves(c: Configs, run: seq<Event>) returns (next: seq<Event>)
    requires Exec(c, run).snd.state == Closed && Exec(c, run).snd.loop == S.LoopDone
    ensures run <= next && ReceiverSame(Exec(c, run), Exec(c, next)) && SenderGone(Exec(c, next).snd)
    decreases Exec(c, run).snd.round == S.Armed, |Exec(c, run).snd.outstanding|,
              RoundLeft(Exec(c, run).snd.round), InSlots(Exec(c, run).snd.round)
  {
    var s := Exec(c, run).snd;
    if SenderGone(s) {
      next := run;
    } else {
      assert SP.SlotInv(c.sender, s) by { RunKeeps(c, run); }
      var e := EndSend(c.sender, s);
      next := SndStep(c, run, e);
      assert Exec(c, next).data == Exec(c, run).data;
      next := SenderLeaves(c, next);
    }
  }

  /** From every reachable state in which both ends are closed, some continuation ends every goroutine: sendLoop,
      its RPCs and its round on one side, reader, dispatcher and ACK worker on the other, with nothing
      further put on the wire by the sender. */
  lemma ShutdownCompletes(c: Configs, run: seq<Event>) returns (next: seq<Event>)
    requires Exec(c, run).snd.state == Closed && Exec(c, run).rcv.closed
    ensures run <= next
    ensures var l := Exec(c, run); var t := Exec(c, next);
            && SenderGone(t.snd) && t.data == l.data
            && t.rcv.disp == R.Gone && t.rcv.reader == R.Vacant && t.rcv.acks.worker == Stopped
            && t.rcv.gate.inbox == [] && t.rcv.gate.failed
  {
    next := SndStep(c, run, S.OfLoop(S.Exit));
    next := SenderLeaves(c, next);
    next := DispatcherLeaves(c, next);
    next := WorkerLeaves(c, next);
    RunKeeps(c, next);
  }
}
