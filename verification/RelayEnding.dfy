/** That a connection can end well: from every reachable state of an open receiving half a Close gets
    past its wait for ACKs, and a CLOSE on the wire takes effect and lets the application drain. */
module RelayEnding {
  import opened RelayTypes
  import S = RelaySender
  import SP = RelaySenderProofs
  import R = RelayReceiver
  import opened RelayLink
  import opened RelayProgress
  import opened RelaySettle
  import opened RelayRecovery
  import opened RelayOverflow
  import opened RelayTheorems

  /** waitReceiveACK in a local Close returns: whatever is in hand can be finished, and then no idle channel
      holds it up. */
  lemma CloseGetsPastWait(c: Configs, run: seq<Event>) returns (next: seq<Event>)
    requires var r := Exec(c, run).rcv; Receiving(c.receiver, r) && Working(r.acks.worker) && c.receiver.recvCap >= 1
    ensures run <= next && SenderSame(Exec(c, run), Exec(c, next))
    ensures !Exec(c, next).rcv.closed && Exec(c, next).rcv.waiter.IdleSeen?
  {
    next := ReachIdle(c, run);
    if Exec(c, next).rcv.waiter == R.NoWait { next := RcvStep(c, next, R.OfApp(R.StartWait)); }
    if Exec(c, next).rcv.waiter.AwaitIdle? { next := RcvStep(c, next, R.OfApp(R.EndWait)); }
  }

  /** The admitted CLOSE is dispatched and closes the connection as a remote close. */
  lemma CloseTakesEffect(c: Configs, run: seq<Event>) returns (next: seq<Event>)
    requires var r := Exec(c, run).rcv; Quiet(r) && r.acks.idle.None? && Close in Exec(c, run).data
    ensures run <= next && SenderSame(Exec(c, run), Exec(c, next))
    ensures var t := Exec(c, next).rcv; t.closed && t.remoteClosed && t.out == Exec(c, run).rcv.out
  {
    next := AdmitClose(c, run);
    var r := Exec(c, next).rcv;
    assert r.gate.inbox == [Close];
    next := RcvStep(c, next, R.OfDispatcher(R.TakeFrame));
    assert Exec(c, next).rcv == r.(gate := r.gate.(inbox := []), disp := R.Took(Close));
    next := RcvStep(c, next, R.OfDispatcher(R.HandleFrame));
    assert Exec(c, next).rcv == r.(gate := r.gate.(inbox := []), disp := R.AwaitingIdle(Close, None));
    next := RcvStep(c, next, R.OfDispatcher(R.PassTerminal));
  }

  /** The application takes what is left, and only then is told that the connection has ended. */
  lemma {:induction false} Drained(c: Configs, run: seq<Event>) returns (next: seq<Event>)
    requires Exec(c, run).rcv.closed
    ensures run <= next && SenderSame(Exec(c, run), Exec(c, next))
    ensures var r := Exec(c, run).rcv; var t := Exec(c, next).rcv;
            t.remoteClosed == r.remoteClosed && t.out.published == r.out.published && t.out.recvCh == [] && t.out.ended
    decreases |Exec(c, run).rcv.out.recvCh|
  {
    if Exec(c, run).rcv.out.recvCh == [] {
      next := RcvStep(c, run, R.OfApp(R.ReceiveError));
    } else {
      next := RcvStep(c, run, R.OfApp(R.Receive));
      next := Drained(c, next);
    }
  }

  /** From every reachable state with the CLOSE on the wire and the receiving half open, some continuation
      closes the connection as a remote close, hands every payload whose Send returned nil to the
      application, in order, and ends its receives. */
  lemma CloseCanBeGraceful(c: Configs, run: seq<Event>) returns (next: seq<Event>)
    requires var r := Exec(c, run).rcv; Receiving(c.receiver, r) && Working(r.acks.worker) && c.receiver.recvCap >= 1
    requires Close in Exec(c, run).data
    ensures run <= next
    ensures var t := Exec(c, next);
            && t.rcv.remoteClosed && t.rcv.out.ended
            && t.rcv.out.consumed == t.snd.queued == Exec(c, run).snd.queued
  {
    next := ReachIdle(c, run);
    next := CloseTakesEffect(c, next);
    next := Drained(c, next);
    RemoteCloseIsComplete(c, next);
  }

  // Flush

  /** A Flush that has queued its barrier: the barrier is on the channel or at sendLoop, or the Flush polls
      for ACKs, or it has returned nil. */
  ghost predicate Flushing(s: S.Sender, before: nat) {
    || Barrier(before) in s.sendCh || s.loop == S.AtBarrier(before)
    || (exists w :: w in s.waiting && w.before == before) || before in s.flushedBefore
  }

  lemma TakeKeepsFlushing(s: S.Sender, before: nat)
    requires Flushing(s, before)
    ensures Flushing(S.TakeItem(s), before)
  {
    var t := S.TakeItem(s);
    if s.loop == S.Selecting && Barrier(before) in s.sendCh {
      var i :| 0 <= i < |s.sendCh| && s.sendCh[i] == Barrier(before);
      if i > 0 { assert t.sendCh[i - 1] == Barrier(before); }
    } else if exists w :: w in s.waiting && w.before == before {
      var w :| w in s.waiting && w.before == before;
      assert w in t.waiting;
    }
  }

  /** A sender that has the same barriers, or more of them. */
  lemma MoreKeepsFlushing(s: S.Sender, t: S.Sender, before: nat)
    requires Flushing(s, before) && s.sendCh <= t.sendCh && t.loop == s.loop
    requires s.waiting <= t.waiting && s.flushedBefore <= t.flushedBefore
    ensures Flushing(t, before)
  {
    if exists w :: w in s.waiting && w.before == before {
      var w :| w in s.waiting && w.before == before;
      assert w in t.waiting;
    }
  }

  lemma PollKeepsFlushing(s: S.Sender, w: S.Waiting, before: nat)
    requires Flushing(s, before)
    ensures Flushing(S.FinishFlush(s, w), before)
  {
    var t := S.FinishFlush(s, w);
    if exists v :: v in s.waiting && v.before == before {
      var v :| v in s.waiting && v.before == before;
      assert v in t.waiting || before in t.flushedBefore;
    }
  }

  lemma LoopKeepsFlushing(cfg: Config, s: S.Sender, e: S.LoopEvent, before: nat)
    requires Flushing(s, before)
    ensures Flushing(S.StepLoop(cfg, s, e), before) || S.StepLoop(cfg, s, e).loop == S.LoopDone
  {
    var t := S.StepLoop(cfg, s, e);
    if e == S.Take {
      TakeKeepsFlushing(s, before);
    } else if e == S.Pass && s.loop == S.AtBarrier(before) && t != s {
      assert S.Waiting(before, s.win.nextSeq) in t.waiting;
    } else if exists w :: w in s.waiting && w.before == before {
      var w :| w in s.waiting && w.before == before;
      assert w in t.waiting;
    }
  }

  lemma StepKeepsFlushing(cfg: Config, s: S.Sender, e: S.SenderEvent, before: nat)
    requires Flushing(s, before)
    ensures Flushing(S.Step(cfg, s, e), before) || S.Step(cfg, s, e).loop == S.LoopDone
  {
    match e
    case OfLoop(x) => LoopKeepsFlushing(cfg, s, x, before);
    case OfBarrier(PollFlush(w)) => PollKeepsFlushing(s, w, before);
    case OfRetry(x) =>
      SP.RetryFrame(cfg, s, x);
      MoreKeepsFlushing(s, S.Step(cfg, s, e), before);
    case _ => MoreKeepsFlushing(s, S.Step(cfg, s, e), before);
  }

  lemma LinkKeepsFlushing(c: Configs, l: Link, e: Event, before: nat)
    requires Flushing(l.snd, before) || l.snd.loop == S.LoopDone
    ensures Flushing(Step(c, l, e).snd, before) || Step(c, l, e).snd.loop == S.LoopDone
  {
    match e
    case SenderStep(x) =>
      if l.snd.loop == S.LoopDone {
        GoneStaysGone(c.sender, l.snd, x);
      } else {
        StepKeepsFlushing(c.sender, l.snd, x, before);
      }
    case ReceiverStep(_) =>
    case AckDelivery(a) => if Flushing(l.snd, before) { MoreKeepsFlushing(l.snd, S.ReceiveAck(l.snd, a), before); }
  }

  lemma GoneStaysGone(cfg: Config, s: S.Sender, e: S.SenderEvent)
    requires s.loop == S.LoopDone
    ensures S.Step(cfg, s, e).loop == S.LoopDone
  {
    match e
    case OfCaller(x) => SP.CallerFrame(s, x);
    case OfRetry(x) => SP.RetryFrame(cfg, s, x);
    case OfBarrier(x) => SP.BarrierFrame(s, x);
    case _ =>
  }

  /** No step of any run forgets a Flush while sendLoop is there. */
  lemma {:induction false} FlushIsKept(c: Configs, run: seq<Event>, more: seq<Event>, before: nat)
    requires Flushing(Exec(c, run).snd, before)
    ensures Flushing(Exec(c, run + more).snd, before) || Exec(c, run + more).snd.loop == S.LoopDone
  {
    if more == [] {
      assert run + more == run;
    } else {
      FlushIsKept(c, run, more[..|more| - 1], before);
      assert (run + more)[..|run + more| - 1] == run + more[..|more| - 1];
      LinkKeepsFlushing(c, Exec(c, run + more[..|more| - 1]), more[|more| - 1], before);
    }
  }

  /** From every reachable live state with such a Flush, some continuation lets it return nil. */
  lemma FlushReturns(c: Configs, run: seq<Event>, before: nat) returns (next: seq<Event>)
    requires Live(c, Exec(c, run)) && c.sender.windowSize != 0 && Flushing(Exec(c, run).snd, before)
    ensures run <= next && before in Exec(c, next).snd.flushedBefore
  {
    next := EverythingQueuedArrives(c, run);
    assert next == run + next[|run|..];
    FlushIsKept(c, run, next[|run|..], before);
    var s := Exec(c, next).snd;
    if before !in s.flushedBefore {
      var w :| w in s.waiting && w.before == before;
      next := SndStep(c, next, S.OfBarrier(S.PollFlush(w)));
    }
  }

  // Close at both ends

  /** From every reachable live state in which Close has queued its marker, some continuation emits the
      CLOSE. */
  lemma CloseIsEmitted(c: Configs, run: seq<Event>) returns (next: seq<Event>)
    requires Live(c, Exec(c, run)) && c.sender.windowSize != 0 && Exec(c, run).snd.closer == S.CloseQueued
    ensures run <= next && Live(c, Exec(c, next)) && Close in Exec(c, next).data
    ensures Exec(c, next).snd.queued == Exec(c, run).snd.queued
  {
    next := EverythingQueuedArrives(c, run);
    MarkerHasPassed(c, next);
    next := SndStep(c, next, S.OfBarrier(S.PollUnacked));
    next := SndStep(c, next, S.OfBarrier(S.EmitClose));
  }

  lemma MarkerHasPassed(c: Configs, run: seq<Event>)
    requires var s := Exec(c, run).snd; s.closer == S.CloseQueued && s.sendCh == [] && s.loop == S.Selecting
    ensures Exec(c, run).snd.flushed
  {
    RunKeeps(c, run);
  }

  /** Both ends together: from every reachable live state in which Close has queued its marker, some
      continuation closes the connection gracefully, with everything that was sent handed to the peer's
      application before its receives end. */
  lemma CloseCompletes(c: Configs, run: seq<Event>) returns (next: seq<Event>)
    requires Live(c, Exec(c, run)) && c.sender.windowSize != 0 && Exec(c, run).snd.closer == S.CloseQueued
    ensures run <= next
    ensures var t := Exec(c, next);
            && t.rcv.remoteClosed && t.rcv.out.ended
            && t.rcv.out.consumed == t.snd.queued == Exec(c, run).snd.queued
  {
    next := CloseIsEmitted(c, run);
    next := CloseCanBeGraceful(c, next);
  }
}
