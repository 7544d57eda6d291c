/** Publication, terminal frames and acknowledgement: the rest of what the receiving half keeps. */
module RelayReceiverEndings {
  import opened RelayTypes
  import opened AckWorker
  import opened RelayReceiver
  import opened RelayReceiverInvariant
  import opened RelayReceiverProofs

  // Publication

  lemma ReaderKeepsPublish(cfg: Config, r: Receiver, e: ReaderEvent)
    requires PublishInv(r) && AcksInv(r.acks)
    ensures PublishInv(StepReader(cfg, r, e))
  {
    if e != Push {
      ReaderFrame(cfg, r, e);
    }
  }

  lemma DispatcherKeepsPublish(cfg: Config, r: Receiver, e: DispatchEvent)
    requires PublishInv(r) && OrderInv(cfg, r)
    ensures PublishInv(StepDispatcher(cfg, r, e))
  {
    match e
    case HandleFrame =>
      if r.disp.Took? {
        if r.disp.frame.Data? { HandleDataKeepsPublish(cfg, r); } else { ControlKeepsPublish(cfg, r); }
      }
    case Publish => PublishKeepsPublish(cfg, r);
    case _ => RestKeepsPublish(cfg, r, e);
  }

  lemma RestKeepsPublish(cfg: Config, r: Receiver, e: DispatchEvent)
    requires PublishInv(r) && e != HandleFrame && e != Publish
    ensures PublishInv(StepDispatcher(cfg, r, e))
  {
    if e == QueueBatchAck && r.disp.Acking? { assert |r.out.published| == r.disp.ackSeq; }
  }

  lemma ControlKeepsPublish(cfg: Config, r: Receiver)
    requires r.disp.Took? && !r.disp.frame.Data? && PublishInv(r)
    ensures PublishInv(Dispatch(cfg, r, r.disp.frame))
  {
    ControlFrameFrame(cfg, r);
  }

  lemma HandleDataKeepsPublish(cfg: Config, r: Receiver)
    requires r.disp.Took? && r.disp.frame.Data?
    requires PublishInv(r) && PipeInv(cfg, r.order, Pending(r), {})
    ensures PublishInv(Dispatch(cfg, r, r.disp.frame))
  {
    HandleFrameFrame(cfg, r);
    HandleKeepsPipe(cfg, r.order, Pending(r), r.disp.frame.payload);
  }

  lemma PublishKeepsPublish(cfg: Config, r: Receiver)
    requires PublishInv(r)
    ensures PublishInv(PublishNext(cfg, r))
  {
  }

  lemma WorkerKeepsPublish(r: Receiver, e: WorkerEvent)
    requires PublishInv(r)
    ensures PublishInv(StepWorker(r, e))
  {
  }

  lemma AppKeepsPublish(r: Receiver, e: AppEvent)
    requires PublishInv(r)
    ensures PublishInv(StepApp(r, e))
  {
  }

  // Terminal frames

  lemma ReaderKeepsTerminal(cfg: Config, r: Receiver, e: ReaderEvent)
    requires TerminalInv(r) && ReaderInv(cfg, r) && GateInv(r)
    ensures TerminalInv(StepReader(cfg, r, e))
  {
    if e != Push {
      ReaderFrame(cfg, r, e);
    } else if r.reader.Pushing? {
      PushKeepsTerminal(cfg, r);
    }
  }

  lemma PushKeepsTerminal(cfg: Config, r: Receiver)
    requires TerminalInv(r) && ReaderInv(cfg, r) && r.reader.Pushing?
    ensures TerminalInv(PushFrame(cfg, r))
  {
    PushFrameFrame(cfg, r);
    var t := PushFrame(cfg, r);
    if t.gate.inbox != r.gate.inbox {
      var n := |r.gate.inbox|;
      assert forall i :: 0 <= i < n ==> t.gate.inbox[i] == r.gate.inbox[i];
      assert t.gate.inbox[n] == r.reader.frame;
    }
  }

  lemma DispatcherKeepsTerminal(cfg: Config, r: Receiver, e: DispatchEvent)
    requires TerminalInv(r) && GateInv(r)
    ensures TerminalInv(StepDispatcher(cfg, r, e))
  {
    if Quiet(e) {
      QuietKeepsTerminal(cfg, r, e);
    } else if e == TakeFrame {
      TakeKeepsTerminal(r);
    } else if e == HandleFrame {
      HandleKeepsTerminal(cfg, r);
    } else if e == PassTerminal {
      PassKeepsTerminal(cfg, r);
    }
  }

  lemma QuietKeepsTerminal(cfg: Config, r: Receiver, e: DispatchEvent)
    requires TerminalInv(r) && Quiet(e)
    ensures TerminalInv(StepDispatcher(cfg, r, e))
  {
    QuietFrame(cfg, r, e);
  }

  lemma TakeKeepsTerminal(r: Receiver)
    requires TerminalInv(r)
    ensures TerminalInv(TakeNext(r))
  {
    if r.disp == Choosing && r.gate.inbox != [] {
      TakeKeepsQueue(r.gate.inbox, r.closed);
      TakeFrameFrame(r);
    }
  }

  /** The queue part of the invariant while the dispatcher is choosing. */
  ghost predicate QueueOrdered(inbox: seq<Frame>, closed: bool) {
    && (forall i, j :: 0 <= i < j < |inbox| && inbox[i].Terminal() ==> !inbox[j].Data?)
    && (forall j :: 0 <= j < |inbox| && inbox[j].Ack? ==> TerminalBefore(inbox, j) || closed)
  }

  lemma TakeKeepsQueue(inbox: seq<Frame>, closed: bool)
    requires inbox != [] && QueueOrdered(inbox, closed)
    ensures inbox[0].Ack? ==> closed
    ensures inbox[0].Terminal() ==> forall j :: 0 <= j < |inbox[1..]| ==> !inbox[1..][j].Data?
    ensures QueueOrdered(inbox[1..], closed || inbox[0].Terminal())
    ensures TerminalBefore(inbox, |inbox|) <==> inbox[0].Terminal() || TerminalBefore(inbox[1..], |inbox| - 1)
  {
    assert !TerminalBefore(inbox, 0);
    TerminalTail(inbox, |inbox| - 1);
    forall j | 0 <= j < |inbox| - 1 && inbox[1..][j].Ack?
      ensures TerminalBefore(inbox[1..], j) || inbox[0].Terminal() || closed
    {
      TerminalTail(inbox, j);
      assert inbox[j + 1].Ack?;
    }
  }

  lemma TerminalTail(inbox: seq<Frame>, j: nat)
    requires j < |inbox|
    ensures TerminalBefore(inbox, j + 1) <==> inbox[0].Terminal() || TerminalBefore(inbox[1..], j)
  {
    if TerminalBefore(inbox[1..], j) {
      var i :| 0 <= i < j && inbox[1..][i].Terminal();
      assert inbox[i + 1].Terminal();
    }
    if TerminalBefore(inbox, j + 1) && !inbox[0].Terminal() {
      var i :| 0 <= i < j + 1 && inbox[i].Terminal();
      assert inbox[1..][i - 1].Terminal();
    }
  }

  lemma HandleKeepsTerminal(cfg: Config, r: Receiver)
    requires TerminalInv(r)
    ensures TerminalInv(StepDispatcher(cfg, r, HandleFrame))
  {
    if r.disp.Took? && r.disp.frame.Data? {
      HandleFrameFrame(cfg, r);
    }
  }

  lemma PassKeepsTerminal(cfg: Config, r: Receiver)
    requires TerminalInv(r) && GateInv(r)
    ensures TerminalInv(StepDispatcher(cfg, r, PassTerminal))
  {
    if r.disp.AwaitingIdle? { NoDataNoSeqs(r.gate.inbox); }
  }

  lemma {:induction false} NoDataNoSeqs(frames: seq<Frame>)
    requires forall j :: 0 <= j < |frames| ==> !frames[j].Data?
    ensures SeqsOf(frames) == []
  {
    if frames != [] { NoDataNoSeqs(frames[1..]); }
  }

  lemma AppKeepsTerminal(r: Receiver, e: AppEvent)
    requires TerminalInv(r)
    ensures TerminalInv(StepApp(r, e))
  {
  }

  // Acknowledgement

  lemma ReaderKeepsAck(cfg: Config, r: Receiver, e: ReaderEvent)
    requires AckInv(r) && (r.reader.Beginning? ==> r.reader.frame.Data?)
    ensures AckInv(StepReader(cfg, r, e)) && Progress(r.acks, StepReader(cfg, r, e).acks)
  {
    match e
    case Arrive(f) => ReaderFrame(cfg, r, e);
    case Replay => ReplayKeepsAck(cfg, r);
    case Weigh =>
    case Register => RegisterKeepsAck(cfg, r);
    case Push => PushKeepsAck(cfg, r);
  }

  lemma ReplayKeepsAck(cfg: Config, r: Receiver)
    requires AckInv(r)
    ensures AckInv(StepReader(cfg, r, Replay)) && Progress(r.acks, StepReader(cfg, r, Replay).acks)
  {
    if r.reader.Replaying? { QueueKeeps(r.acks, r.reader.ack); }
  }

  lemma RegisterKeepsAck(cfg: Config, r: Receiver)
    requires AckInv(r) && (r.reader.Beginning? ==> r.reader.frame.Data?)
    ensures AckInv(StepReader(cfg, r, Register)) && Progress(r.acks, StepReader(cfg, r, Register).acks)
  {
    BeginKeeps(r.acks);
  }

  lemma PushKeepsAck(cfg: Config, r: Receiver)
    requires AckInv(r)
    ensures AckInv(PushFrame(cfg, r)) && Progress(r.acks, PushFrame(cfg, r).acks)
  {
    if r.reader.Pushing? {
      PushCountsWork(cfg, r);
      FinishKeeps(r.acks);
    }
  }

  lemma PushCountsWork(cfg: Config, r: Receiver)
    requires r.reader.Pushing?
    ensures var t := PushFrame(cfg, r); var full := |r.gate.inbox| >= Budget(cfg) + 8;
            && Work(t) == Work(r) - (if full && r.reader.frame.Data? then 1 else 0)
            && t.disp == r.disp && t.out == r.out && (r.closed ==> t.closed)
            && t.acks == (if full && r.reader.frame.Data? then Finish(r.acks) else r.acks)
  {
    SeqsOfAppend(r.gate.inbox, r.reader.frame);
  }

  lemma DispatcherKeepsAck(cfg: Config, r: Receiver, e: DispatchEvent)
    requires AckInv(r) && PublishInv(r)
    ensures AckInv(StepDispatcher(cfg, r, e)) && Progress(r.acks, StepDispatcher(cfg, r, e).acks)
  {
    if Quiet(e) {
      QuietKeepsAck(cfg, r, e);
    } else if e == TakeFrame {
      TakeKeepsAck(r);
    } else if e == HandleFrame {
      HandleKeepsAck(cfg, r);
    }
  }

  lemma QuietKeepsAck(cfg: Config, r: Receiver, e: DispatchEvent)
    requires AckInv(r) && PublishInv(r) && Quiet(e)
    ensures AckInv(StepDispatcher(cfg, r, e)) && Progress(r.acks, StepDispatcher(cfg, r, e).acks)
  {
    QuietFrame(cfg, r, e);
    match e
    case QueueBatchAck => if r.disp.Acking? { QueueKeeps(r.acks, r.disp.ackSeq); }
    case Unregister => FinishKeeps(r.acks);
    case _ =>
  }

  lemma TakeKeepsAck(r: Receiver)
    requires AckInv(r)
    ensures AckInv(TakeNext(r))
  {
  }

  lemma HandleKeepsAck(cfg: Config, r: Receiver)
    requires AckInv(r)
    ensures AckInv(StepDispatcher(cfg, r, HandleFrame)) && StepDispatcher(cfg, r, HandleFrame).acks == r.acks
  {
    if r.disp.Took? && r.disp.frame.Data? { HandleFrameFrame(cfg, r); }
  }

  lemma WorkerKeepsAck(r: Receiver, e: WorkerEvent)
    requires AckInv(r)
    ensures AckInv(StepWorker(r, e)) && Progress(r.acks, StepWorker(r, e).acks)
  {
    match e
    case WakeUp => WakeKeeps(r.acks);
    case PickUp => PickKeeps(r.acks);
    case SendReturns(ok) => ReplyKeeps(r.acks, ok);
    case SettleUp => SettleKeeps(r.acks);
    case _ =>
  }

  lemma AppKeepsAck(r: Receiver, e: AppEvent)
    requires AckInv(r)
    ensures AckInv(StepApp(r, e)) && StepApp(r, e).acks == r.acks
  {
  }

  /** With no idle channel open, the ACK of everything published has been settled. */
  lemma IdleMeansSettled(r: Receiver)
    requires AckInv(r) && r.acks.idle.None? && !r.closed
    ensures |r.out.published| <= Settled(r.acks)
  {
    IdleMeansAccepted(r.acks);
  }

  /** A waiter that is still waiting after a step is still right about what it waits for. */
  lemma WatchKept(r: Receiver, t: Receiver, channel: Option<nat>, need: nat)
    requires Watching(r.acks, r.closed, channel, need)
    requires AckInv(t) && Progress(r.acks, t.acks) && (r.closed ==> t.closed) && need <= |t.out.published|
    ensures Watching(t.acks, t.closed, channel, need)
  {
    if t.acks.idle.None? && !t.closed { IdleMeansSettled(t); }
  }

  lemma WatchInvKept(r: Receiver, t: Receiver)
    requires WatchInv(r) && AckInv(t) && Progress(r.acks, t.acks) && (r.closed ==> t.closed)
    requires r.out.published <= t.out.published && t.waiter == r.waiter
    requires t.disp.AwaitingIdle? ==> t.disp == r.disp && t.out.published == r.out.published
    requires t.remoteClosed ==> r.remoteClosed && t.out.published == r.out.published
    ensures WatchInv(t)
  {
    if t.disp.AwaitingIdle? { WatchKept(r, t, t.disp.channel, |t.out.published|); }
    if t.waiter.AwaitIdle? { WatchKept(r, t, t.waiter.channel, t.waiter.need); }
  }

  lemma DispatcherKeepsWatch(cfg: Config, r: Receiver, e: DispatchEvent)
    requires WatchInv(r) && AckInv(r) && PublishInv(r) && TerminalInv(r)
    ensures WatchInv(StepDispatcher(cfg, r, e))
  {
    if e == HandleFrame && r.disp.Took? && r.disp.frame.Terminal() {
      TerminalStartsWatch(cfg, r);
    } else if e == PassTerminal {
      PassKeepsWatch(cfg, r);
    } else {
      DispatcherKeepsAck(cfg, r, e);
      DispatcherLeavesWatch(cfg, r, e);
      WatchInvKept(r, StepDispatcher(cfg, r, e));
    }
  }

  /** Apart from terminal frames the dispatcher leaves the waiters alone. */
  lemma DispatcherLeavesWatch(cfg: Config, r: Receiver, e: DispatchEvent)
    requires r.remoteClosed ==> r.closed && (r.disp == Choosing || !Alive(r.disp))
    requires e != PassTerminal && !(e == HandleFrame && r.disp.Took? && r.disp.frame.Terminal())
    ensures var t := StepDispatcher(cfg, r, e);
            && (r.closed ==> t.closed) && r.out.published <= t.out.published && t.waiter == r.waiter
            && (t.disp.AwaitingIdle? ==> t.disp == r.disp && t.out.published == r.out.published)
            && (t.remoteClosed ==> r.remoteClosed && t.out.published == r.out.published)
  {
  }

  lemma TerminalStartsWatch(cfg: Config, r: Receiver)
    requires WatchInv(r) && AckInv(r) && r.disp.Took? && r.disp.frame.Terminal()
    ensures WatchInv(StepDispatcher(cfg, r, HandleFrame))
  {
    if r.acks.idle.None? && !r.closed { IdleMeansSettled(r); }
  }

  /** The channel the dispatcher watched is closed, or the connection was closed before. */
  lemma PassKeepsWatch(cfg: Config, r: Receiver)
    requires WatchInv(r) && AckInv(r)
    ensures WatchInv(StepDispatcher(cfg, r, PassTerminal))
  {
  }

  lemma AppKeepsWatch(r: Receiver, e: AppEvent)
    requires WatchInv(r) && AckInv(r)
    ensures WatchInv(StepApp(r, e))
  {
    if r.acks.idle.None? && !r.closed { IdleMeansSettled(r); }
  }

  // All together

  lemma StepKeeps(cfg: Config, r: Receiver, e: ReceiverEvent)
    requires ReceiverInv(cfg, r)
    ensures ReceiverInv(cfg, Step(cfg, r, e))
  {
    match e
    case OfReader(x) => ReaderKeeps(cfg, r, x);
    case OfDispatcher(x) => DispatcherKeeps(cfg, r, x);
    case OfWorker(x) => WorkerKeepsAll(cfg, r, x);
    case OfApp(x) => AppKeeps(cfg, r, x);
  }

  lemma ReaderKeeps(cfg: Config, r: Receiver, e: ReaderEvent)
    requires ReceiverInv(cfg, r)
    ensures ReceiverInv(cfg, StepReader(cfg, r, e))
  {
    ReaderKeepsGate(cfg, r, e);
    ReaderKeepsOrder(cfg, r, e);
    ReaderKeepsReader(cfg, r, e);
    ReaderKeepsStore(cfg, r, e);
    ReaderKeepsPublish(cfg, r, e);
    ReaderKeepsTerminal(cfg, r, e);
    ReaderKeepsAck(cfg, r, e);
    ReaderKeepsWatch(cfg, r, e);
  }

  lemma ReaderKeepsWatch(cfg: Config, r: Receiver, e: ReaderEvent)
    requires WatchInv(r) && AckInv(r) && (r.reader.Beginning? ==> r.reader.frame.Data?)
    ensures WatchInv(StepReader(cfg, r, e))
  {
    ReaderKeepsAck(cfg, r, e);
    if e != Push { ReaderFrame(cfg, r, e); }
    WatchInvKept(r, StepReader(cfg, r, e));
  }

  lemma DispatcherKeeps(cfg: Config, r: Receiver, e: DispatchEvent)
    requires ReceiverInv(cfg, r)
    ensures ReceiverInv(cfg, StepDispatcher(cfg, r, e))
  {
    DispatcherKeepsGate(cfg, r, e);
    DispatcherKeepsOrder(cfg, r, e);
    DispatcherKeepsReader(cfg, r, e);
    DispatcherKeepsStore(cfg, r, e);
    DispatcherKeepsPublish(cfg, r, e);
    DispatcherKeepsTerminal(cfg, r, e);
    DispatcherKeepsAck(cfg, r, e);
    DispatcherKeepsWatch(cfg, r, e);
  }

  lemma WorkerKeepsAll(cfg: Config, r: Receiver, e: WorkerEvent)
    requires ReceiverInv(cfg, r)
    ensures ReceiverInv(cfg, StepWorker(r, e))
  {
    WorkerKeepsPublish(r, e);
    WorkerKeepsAck(r, e);
    WorkerFrame(r, e);
    RestKept(cfg, r, StepWorker(r, e));
    WatchInvKept(r, StepWorker(r, e));
  }

  ghost predicate SameButAcks(r: Receiver, t: Receiver) {
    && t.gate == r.gate && t.order == r.order && t.out == r.out && t.log == r.log
    && t.reader == r.reader && t.disp == r.disp && t.waiter == r.waiter
    && t.closed == r.closed && t.remoteClosed == r.remoteClosed
  }

  lemma WorkerFrame(r: Receiver, e: WorkerEvent)
    ensures SameButAcks(r, StepWorker(r, e))
  {
  }

  lemma RestKept(cfg: Config, r: Receiver, t: Receiver)
    requires GateInv(r) && OrderInv(cfg, r) && ReaderInv(cfg, r) && StoreInv(cfg, r) && TerminalInv(r)
    requires SameButAcks(r, t)
    ensures GateInv(t) && OrderInv(cfg, t) && ReaderInv(cfg, t) && StoreInv(cfg, t) && TerminalInv(t)
  {
    assert Pending(t) == Pending(r);
  }

  lemma AppKeeps(cfg: Config, r: Receiver, e: AppEvent)
    requires ReceiverInv(cfg, r)
    ensures ReceiverInv(cfg, StepApp(r, e))
  {
    AppKeepsGate(r, e);
    AppKeepsStore(cfg, r, e);
    AppKeepsPublish(r, e);
    AppKeepsTerminal(r, e);
    AppKeepsAck(r, e);
    AppKeepsWatch(r, e);
  }
}
