/** What each step of a Relay connection does and when it does it, said of every state: the laws that the
    invariants and the theorems about runs do not already force. */
module RelayLaws {
  import opened RelayTypes
  import opened SendWindow
  import opened ReorderBuffer
  import opened AckWorker
  import S = RelaySender
  import R = RelayReceiver

  // Callers

  ghost predicate Checking(h: S.Holder) {
    h.SendHeld? || h.FlushHeld? || h == S.CloseHeld
  }

  /** Send, Flush and Close get on if and only if the connection is open when they look; Close alone then
      changes the state, to closing. Whoever does not get on gives the lock back. Nothing is queued. */
  lemma CheckPassesIff(s: S.Sender)
    requires Checking(s.holder)
    ensures var t := S.StepCaller(s, S.CheckState);
            && t.holder == (if s.state != Open then S.Free else
                            match s.holder
                            case SendHeld(data) => S.SendReady(data)
                            case FlushHeld(before) => S.FlushReady(before)
                            case _ => S.CloseReady)
            && t.state == (if s.holder == S.CloseHeld && s.state == Open then Closing else s.state)
            && t.sendCh == s.sendCh && t.queued == s.queued && t.closer == s.closer
  {
  }

  /** A lock holder that got on puts exactly its own item at the end of the channel, or gives up and puts
      none; either way the lock is free again. Only Send adds to what was queued. */
  lemma HolderFinishes(s: S.Sender)
    requires s.holder.SendReady? || s.holder.FlushReady? || s.holder == S.CloseReady
    ensures var t := S.StepCaller(s, S.Enqueue); var u := S.StepCaller(s, S.GiveUp);
            && t.holder == u.holder == S.Free
            && |t.sendCh| == |s.sendCh| + 1 && t.sendCh[..|s.sendCh|] == s.sendCh
            && (s.holder.SendReady? ==>
                  t.sendCh[|s.sendCh|] == Payloads(s.holder.data) && t.queued == s.queued + [s.holder.data])
            && (s.holder.FlushReady? ==> t.sendCh[|s.sendCh|] == Barrier(s.holder.before) && t.queued == s.queued)
            && (s.holder == S.CloseReady ==>
                  t.sendCh[|s.sendCh|] == CloseMark && t.closer == S.CloseQueued && t.queued == s.queued)
            && u.sendCh == s.sendCh && u.queued == s.queued && u.closer == s.closer
  {
  }

  /** One caller at a time holds the lock, and an empty Send does not even take it. */
  lemma LockIsTakenIff(s: S.Sender, data: Payload)
    ensures s.holder == S.Free ==>
              S.StepCaller(s, S.LockForSend(data)).holder == if data == [] then S.Free else S.SendHeld(data)
    ensures s.holder == S.Free ==> S.StepCaller(s, S.LockForFlush).holder == S.FlushHeld(|s.queued|)
    ensures s.holder == S.Free ==> S.StepCaller(s, S.LockForClose).holder == S.CloseHeld
    ensures s.holder != S.Free ==>
              && S.StepCaller(s, S.LockForSend(data)) == s
              && S.StepCaller(s, S.LockForFlush) == s && S.StepCaller(s, S.LockForClose) == s
  {
  }

  /** A connection opens once, by an OPEN_ACK while it is opening, and any failure closes it. */
  lemma OpensAndFails(cfg: Config, s: S.Sender)
    ensures S.Step(cfg, s, S.OpenAcked).state == (if s.state == Opening then Open else s.state)
    ensures S.Step(cfg, s, S.Fail).state == Closed
  {
  }

  // sendLoop and retransmission

  /** sendLoop takes the next item whenever it is selecting and there is one, and goes where its kind says. */
  lemma TakesIff(cfg: Config, s: S.Sender)
    ensures var t := S.StepLoop(cfg, s, S.Take);
            && (t.sendCh != s.sendCh <==> s.loop == S.Selecting && s.sendCh != [])
            && (s.loop == S.Selecting && s.sendCh != [] ==>
                  && s.sendCh == [s.sendCh[0]] + t.sendCh
                  && (t.loop.Windowing? <==> s.sendCh[0].Payloads?) && (t.loop.AtBarrier? <==> s.sendCh[0].Barrier?)
                  && (t.loop == S.AtClose <==> s.sendCh[0] == CloseMark)
                  && (t.loop.Windowing? ==> t.loop.data == s.sendCh[0].data)
                  && (t.loop.AtBarrier? ==> t.loop.before == s.sendCh[0].before))
  {
    if s.sendCh != [] { assert s.sendCh == [s.sendCh[0]] + s.sendCh[1..]; }
  }

  /** A payload that waits for the window is numbered if and only if fewer than the window are unacknowledged,
      and goes on to wait for an RPC slot with its number. */
  lemma NumbersIff(cfg: Config, s: S.Sender)
    requires s.loop.Windowing?
    ensures var t := S.StepLoop(cfg, s, S.NumberNext);
            && (t.loop == S.Slotting(s.win.nextSeq, s.loop.data) <==>
                  s.win.nextSeq < s.win.sendBase + AsUint64(cfg.windowSize))
            && (t.loop == S.Slotting(s.win.nextSeq, s.loop.data) ==>
                  t.win.nextSeq == s.win.nextSeq + 1 && t.numbered == s.numbered + [s.loop.data])
            && (t.loop != S.Slotting(s.win.nextSeq, s.loop.data) ==> t == s)
  {
  }

  /** A numbered payload is launched if and only if fewer RPCs than the window, at most 64, are in flight. */
  lemma LaunchesIff(cfg: Config, s: S.Sender)
    requires s.loop.Slotting?
    ensures var t := S.StepLoop(cfg, s, S.Launch);
            var limit := if cfg.windowSize < 1 then 1 else if cfg.windowSize > 64 then 64 else cfg.windowSize;
            && (t.loop == S.Selecting <==> s.inflight < limit)
            && (s.inflight < limit ==>
                  t.inflight == s.inflight + 1 && t.outstanding == s.outstanding[s.loop.seqNo := s.loop.data])
            && (s.inflight >= limit ==> t == s)
  {
  }

  /** An RPC that runs puts its own frame on the wire, and frees its slot when it returns. */
  lemma TransmitsAndReturns(cfg: Config, s: S.Sender, n: nat)
    requires n in s.outstanding && s.inflight > 0
    ensures S.Emit(s, S.OfLoop(S.Transmit(n))) == {Data(n, s.outstanding[n])}
    ensures var t := S.StepLoop(cfg, s, S.Accepted(n));
            n !in t.outstanding && t.inflight == s.inflight - 1 && t.outstanding == s.outstanding - {n}
  {
  }

  /** So does a retransmission. */
  lemma RetransmitsAndReturns(cfg: Config, s: S.Sender, n: nat)
    requires s.round.Round? && n in s.round.sending && s.inflight > 0
    ensures S.Emit(s, S.OfRetry(S.Retransmit(n))) == {Data(n, s.round.sending[n])}
    ensures var t := S.StepRetry(cfg, s, S.Reaccepted(n));
            n !in t.round.sending && t.inflight == s.inflight - 1 && t.round.todo == s.round.todo
  {
  }

  /** A round takes a slot whenever one is free, and ends if and only if nothing of it is left. */
  lemma SlotsAndEndsIff(cfg: Config, s: S.Sender)
    requires s.round.Round?
    ensures s.round.todo != [] && !s.round.slot ==>
              (S.StepRetry(cfg, s, S.Slot).round.slot <==> s.inflight < InflightLimit(cfg))
    ensures S.StepRetry(cfg, s, S.End).round == S.NoRound <==>
              s.round.todo == [] && !s.round.slot && s.round.sending == map[]
  {
  }

  /** A Flush returns if and only if every number below its target is acknowledged; Close goes on if and only
      if its marker has passed and nothing at all is unacknowledged. */
  lemma PollsIff(s: S.Sender, w: S.Waiting)
    ensures w in s.waiting ==>
              (w !in S.StepBarrier(s, S.PollFlush(w)).waiting <==> forall n :: n in s.win.unacked ==> n >= w.target)
    ensures w in s.waiting && (forall n :: n in s.win.unacked ==> n >= w.target) ==>
              w.before in S.StepBarrier(s, S.PollFlush(w)).flushedBefore
    ensures s.closer == S.CloseQueued ==>
              (S.StepBarrier(s, S.PollUnacked).closer == S.CloseDrained <==> s.flushed && s.win.unacked == map[])
  {
  }

  /** A barrier or the close marker is passed if and only if no first transmission is running and there is
      no round; the Flush then waits for every number given out so far. */
  lemma BarrierPassesIff(cfg: Config, s: S.Sender)
    ensures var t := S.StepLoop(cfg, s, S.Pass); var clear := s.outstanding == map[] && s.round == S.NoRound;
            && (s.loop.AtBarrier? ==>
                  && (t.loop == S.Selecting <==> clear)
                  && (clear ==> S.Waiting(s.loop.before, s.win.nextSeq) in t.waiting))
            && (s.loop == S.AtClose ==> (t.loop == S.Selecting <==> clear) && (clear ==> t.flushed))
            && (!clear ==> t == s)
  {
  }

  /** The ACK timer asks for a round if and only if sendLoop is selecting or waiting for the window and there
      is no round. */
  lemma TimerArmsIff(cfg: Config, s: S.Sender)
    ensures s.round != S.Armed ==>
              (S.StepRetry(cfg, s, S.Timer).round == S.Armed <==>
                 s.round == S.NoRound && (s.loop == S.Selecting || s.loop.Windowing?))
  {
  }

  /** A round that was asked for begins wherever sendLoop is, with every frame the window says, or ends at
      once. */
  lemma ArmedBegins(cfg: Config, s: S.Sender)
    requires s.round == S.Armed
    ensures var t := S.StepRetry(cfg, s, S.BeginResend);
            match BeginRound(cfg, s.win)
            case Resend(_, frames) => t.round == S.Round(frames, false, map[]) && t.rounds == s.rounds + 1
            case _ => t.round == S.NoRound && t.rounds == s.rounds
  {
  }

  /** A round sends its next frame again if and only if that frame is still unacknowledged on a connection
      that is not closed; otherwise it leaves it out, before or after taking a slot, and gives the slot
      back. It is cut short only by a close. */
  lemma ResendsIff(cfg: Config, s: S.Sender)
    requires s.round.Round? && s.round.todo != [] && (s.round.slot ==> s.inflight > 0)
    ensures var n := s.round.todo[0].0; var pending := n in s.win.unacked && s.state != Closed;
            && (s.round.slot ==>
                  var t := S.StepRetry(cfg, s, S.Relaunch);
                  && t.round == S.Round(s.round.todo[1..], false,
                                        if pending then s.round.sending[n := s.round.todo[0].1] else s.round.sending)
                  && t.inflight == (if pending then s.inflight else s.inflight - 1))
            && (!s.round.slot ==>
                  S.StepRetry(cfg, s, S.Skip) ==
                    if pending then s else s.(round := s.round.(todo := s.round.todo[1..])))
            && (S.StepRetry(cfg, s, S.Abandon) != s ==> s.state == Closed && !s.round.slot)
  {
  }

  /** The CLOSE frame goes out if and only if Close has seen everything acknowledged and the connection is
      not closed. */
  lemma CloseGoesOutIff(s: S.Sender)
    ensures Close in S.Emit(s, S.OfBarrier(S.EmitClose)) <==> s.closer == S.CloseDrained && s.state != Closed
  {
  }

  // The receiving half

  /** handleData by cases: the expected frame releases itself and what it completes and is acknowledged up to
      there; a frame ahead is kept exactly inside the window; an older one changes nothing and is
      acknowledged again up to what is expected. */
  lemma HandlesIff(cfg: Config, o: Reorder, seqNo: nat, payload: Payload)
    ensures var h := HandleData(cfg, o, seqNo, payload);
            && (h.Dropped? <==>
                  seqNo > o.expectedSeq && seqNo - o.expectedSeq >= AsUint64(cfg.windowSize))
            && (h.Handled? ==> h.ackSeq == h.order.expectedSeq - 1 && h.order.recvReady == o.recvReady + |h.ready|)
            && (h.Handled? && seqNo == o.expectedSeq ==>
                  && |h.ready| >= 1 && h.ready[0] == payload && h.order.expectedSeq == seqNo + |h.ready|
                  && h.order.expectedSeq !in o.recvBuf)
            && (h.Handled? && seqNo > o.expectedSeq ==>
                  h.ready == [] && h.order == o.(recvBuf := o.recvBuf[seqNo := payload]))
            && (seqNo < o.expectedSeq ==> h.Handled? && h.ready == [] && h.order == o)
  {
  }

  /** A frame that is pushed enters the inbox if and only if there is room; DATA that finds none is dropped
      and its ACK unregistered, any other frame then fails the connection. */
  lemma PushEntersIff(cfg: Config, r: R.Receiver)
    requires r.reader.Pushing?
    ensures var t := R.StepReader(cfg, r, R.Push); var f := r.reader.frame;
            var room := |r.gate.inbox| < cfg.recvCap + 2 * GateWindow(cfg) + 8;
            && t.reader == R.Vacant
            && (room <==> t.gate.inbox == r.gate.inbox + [f])
            && (!room && f.Data? ==> t == r.(reader := R.Vacant, acks := Finish(r.acks)))
            && (!room && !f.Data? ==> t.closed && t.gate.failed && (!r.closed ==> !t.remoteClosed))
            && (room ==> t.closed == r.closed && t.acks == r.acks)
  {
  }

  /** The ACK of a DATA frame is registered if and only if the connection is not closed; otherwise the frame
      is dropped. */
  lemma RegistersIff(cfg: Config, r: R.Receiver)
    requires r.reader.Beginning?
    ensures var t := R.StepReader(cfg, r, R.Register);
            && (!r.closed ==> t.reader == R.Pushing(r.reader.frame) && t.acks.generating == r.acks.generating + 1)
            && (r.closed ==> t == r.(reader := R.Vacant))
  {
  }

  /** The free reader acts on every arrival as the gate judges it; one that is busy takes none. */
  lemma ReaderFollowsGate(cfg: Config, r: R.Receiver, f: Frame)
    ensures var t := R.StepReader(cfg, r, R.Arrive(f)); var v := R.Judge(cfg, r.closed, r.order, r.gate, f);
            && (r.reader != R.Vacant ==> t == r)
            && (r.reader == R.Vacant ==>
                  t.reader == match v
                    case ReplayAck(ack) => R.Replaying(ack)
                    case Consider(_) => R.Weighing(f, |r.order.recvBuf| + r.order.recvReady)
                    case Admit => R.Pushing(f)
                    case _ => R.Vacant)
  {
  }

  /** An ACK to be replayed is queued, unless the connection is closed. */
  lemma ReplayQueues(cfg: Config, r: R.Receiver)
    requires r.reader.Replaying?
    ensures var t := R.StepReader(cfg, r, R.Replay);
            && t.reader == R.Vacant
            && (r.closed ==> t.acks == r.acks)
            && (!r.closed ==> t.acks.pending.Some? && t.acks.pending.value >= r.reader.ack && t.acks.token)
  {
  }

  /** The dispatcher of an open connection takes the head of the inbox whenever it is choosing and there is
      one, and then does what the kind of the frame asks. */
  lemma DispatchesIff(cfg: Config, r: R.Receiver)
    ensures var t := R.StepDispatcher(cfg, r, R.TakeFrame);
            && (t.gate.inbox != r.gate.inbox <==> r.disp == R.Choosing && r.gate.inbox != [])
            && (t.gate.inbox != r.gate.inbox ==> r.gate.inbox == [r.gate.inbox[0]] + t.gate.inbox)
            && (t.gate.inbox != r.gate.inbox && !r.closed ==> t.disp == R.Took(r.gate.inbox[0]))
    ensures r.disp.Took? ==>
              var t := R.StepDispatcher(cfg, r, R.HandleFrame); var f := r.disp.frame;
              && (t.disp.AwaitingIdle? <==> f.Terminal()) && (f.Terminal() ==> t.disp.channel == r.acks.idle)
              && (f.Ack? ==> t.log.ackApplied == r.log.ackApplied + [f.ackSeq])
              && (f.Ack? || f.Other? <==> t.disp == R.Choosing)
              && (f.Data? ==> t.log.dispatched == r.log.dispatched + [f.seqNo])
              && (f.Data? ==>
                    (t.disp == R.Finishing(f.seqNo) <==> HandleData(cfg, r.order, f.seqNo, f.payload).Dropped?))
  {
    if r.gate.inbox != [] { assert r.gate.inbox == [r.gate.inbox[0]] + r.gate.inbox[1..]; }
  }

  /** A ready payload is published if and only if the channel has room, in order; after the last of a batch
      the watermark is recorded, its ACK queued if there is one, the ACK unregistered and the frame
      released, the last when the reader is not at work. */
  lemma PublishesIff(cfg: Config, r: R.Receiver)
    requires r.disp.Publishing?
    ensures var t := R.StepDispatcher(cfg, r, R.Publish);
            && (r.disp.batch != [] ==>
                  && (t.disp.Counting? <==> |r.out.recvCh| < cfg.recvCap)
                  && (t.disp.Counting? ==>
                        && t.out.recvCh == r.out.recvCh + [r.disp.batch[0]]
                        && r.disp.batch == [r.disp.batch[0]] + t.disp.batch))
            && (r.disp.batch == [] ==> t.disp == R.Marking(r.disp.seqNo, r.disp.ackSeq))
  {
    if r.disp.batch != [] { assert r.disp.batch == [r.disp.batch[0]] + r.disp.batch[1..]; }
  }

  lemma FinishesFrame(cfg: Config, r: R.Receiver)
    ensures r.disp.Marking? ==>
              var t := R.StepDispatcher(cfg, r, R.MarkDelivered);
              && t.order.recvDelivered == r.disp.ackSeq
              && (t.disp == R.Acking(r.disp.seqNo, r.disp.ackSeq) <==> r.disp.ackSeq > 0)
              && (t.disp == R.Finishing(r.disp.seqNo) <==> r.disp.ackSeq == 0)
    ensures r.disp.Acking? && !r.closed ==>
              var t := R.StepDispatcher(cfg, r, R.QueueBatchAck);
              t.disp == R.Finishing(r.disp.seqNo) && t.acks == Queue(r.acks, r.disp.ackSeq)
    ensures r.disp.Counting? && r.order.recvReady > 0 ==>
              var t := R.StepDispatcher(cfg, r, R.CountOne);
              && t.disp == R.Publishing(r.disp.seqNo, r.disp.batch, r.disp.ackSeq)
              && t.order.recvReady == r.order.recvReady - 1
    ensures r.disp.Finishing? ==>
              var t := R.StepDispatcher(cfg, r, R.Unregister);
              && t.disp == R.Releasing(r.disp.seqNo)
              && (r.acks.generating > 0 ==> t.acks.generating == r.acks.generating - 1)
    ensures r.disp.Releasing? && r.gate.inboxData > 0 ==>
              var t := R.StepDispatcher(cfg, r, R.Release);
              && (t.disp == R.Choosing <==> r.reader == R.Vacant)
              && (t.disp == R.Choosing ==>
                    t.gate.inboxData == r.gate.inboxData - 1 && t.gate.inboxSeq == r.gate.inboxSeq - {r.disp.seqNo})
    ensures r.disp == R.Choosing ==> (R.StepDispatcher(cfg, r, R.Leave).disp == R.Leaving <==> r.closed)
    ensures r.disp == R.Leaving ==>
              var t := R.StepDispatcher(cfg, r, R.CleanUp);
              && (t.disp == R.Gone <==> r.reader == R.Vacant)
              && (t.disp == R.Gone ==> t.gate.inbox == [] && t.gate.inboxSeq == {} && t.gate.failed)
  {
  }

  /** A local Close starts to wait for the idle channel of that moment, for everything published until then,
      and is through if and only if the connection is open and that channel is gone. */
  lemma WaitsIff(r: R.Receiver)
    ensures r.waiter == R.NoWait ==> R.StepApp(r, R.StartWait).waiter == R.AwaitIdle(r.acks.idle, |r.out.published|)
    ensures r.waiter.AwaitIdle? ==>
              (R.StepApp(r, R.EndWait).waiter == R.IdleSeen(r.waiter.need) <==>
                 !r.closed && (r.waiter.channel.None? || r.acks.idle != r.waiter.channel))
  {
  }

  /** Queueing keeps the larger ACK, leaves a wake-up and opens an idle channel; nothing else changes. */
  lemma QueueIs(a: Acks, ack: nat)
    ensures var b := Queue(a, ack);
            && b.pending == Some(if a.pending.Some? && a.pending.value >= ack then a.pending.value else ack)
            && b.token && b.idle.Some? && (a.idle.Some? ==> b.idle == a.idle)
            && b.worker == a.worker && b.sending == a.sending && b.generating == a.generating
  {
  }

  /** The worker wakes if and only if it sleeps and there is a wake-up; it takes the pending ACK, or sleeps
      again when there is none; it goes on after an accepted send and stops after a failed one. */
  lemma WorkerStepsIff(a: Acks, ok: bool)
    ensures a.worker == Asleep ==> (Wake(a).worker == Picking <==> a.token)
    ensures a.worker == Asleep && a.token ==> !Wake(a).token
    ensures a.worker == Picking ==>
              && Pick(a).pending.None? && Pick(a).sending == a.pending.Some?
              && Pick(a).worker == (if a.pending.Some? then Sending(a.pending.value) else Asleep)
              && (Pick(a).idle.None? <==> a.idle.None? || (a.generating == 0 && a.pending.None?))
    ensures a.worker.Sending? ==> Reply(a, ok).worker == Replied(a.worker.ack, ok) && Reply(a, ok).idle == a.idle
    ensures a.worker.Replied? ==>
              && Settle(a).worker == (if a.worker.ok then Picking else Stopped) && !Settle(a).sending
              && (Settle(a).idle.None? <==>
                    a.idle.None? || (a.worker.ok && a.generating == 0 && a.pending.None?))
  {
  }

  /** Once a connection is closed, no step queues an ACK or registers one, and the dispatcher takes no further
      frame. */
  lemma ClosedQueuesNothing(cfg: Config, r: R.Receiver, e: R.ReceiverEvent)
    requires r.closed
    ensures QueuesNothing(r.acks, R.Step(cfg, r, e).acks)
    ensures e == R.OfDispatcher(R.TakeFrame) && r.disp == R.Choosing && r.gate.inbox != [] ==>
              R.Step(cfg, r, e).disp == R.Leaving
  {
    match e
    case OfReader(x) => ReaderQueuesNothing(cfg, r, x);
    case OfDispatcher(x) => DispatcherQueuesNothing(cfg, r, x);
    case _ =>
  }

  ghost predicate QueuesNothing(a: Acks, b: Acks) {
    && b.queuedMax == a.queuedMax && b.generating <= a.generating
    && (b.pending.Some? ==> b.pending == a.pending)
  }

  lemma ReaderQueuesNothing(cfg: Config, r: R.Receiver, e: R.ReaderEvent)
    requires r.closed
    ensures QueuesNothing(r.acks, R.StepReader(cfg, r, e).acks)
  {
  }

  lemma DispatcherQueuesNothing(cfg: Config, r: R.Receiver, e: R.DispatchEvent)
    requires r.closed
    ensures QueuesNothing(r.acks, R.StepDispatcher(cfg, r, e).acks)
  {
  }

  /** An abort closes at any time, not as a remote close. */
  lemma AbortCloses(cfg: Config, r: R.Receiver)
    ensures var t := R.Step(cfg, r, R.OfApp(R.Abort));
            && t.closed && (!r.closed ==> !t.remoteClosed) && t == r.(closed := true, remoteClosed := t.remoteClosed)
  {
  }

  /** The application takes payloads in channel order, and is told of the end if and only if the connection
      is closed and, after a remote close, nothing is left to take. */
  lemma ReceivesIff(cfg: Config, r: R.Receiver)
    ensures var t := R.Step(cfg, r, R.OfApp(R.Receive)); var u := R.Step(cfg, r, R.OfApp(R.ReceiveError));
            && t.out.consumed + t.out.recvCh == r.out.consumed + r.out.recvCh
            && |t.out.consumed| == |r.out.consumed| + (if r.out.recvCh == [] then 0 else 1)
            && (!r.out.ended ==> (u.out.ended <==> r.closed && (r.remoteClosed ==> r.out.recvCh == [])))
  {
  }
}
