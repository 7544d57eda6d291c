/** Every event of the receiving half keeps its invariant. */
module RelayReceiverProofs {
  import opened RelayTypes
  import opened ReorderBuffer
  import opened RelayReceiver
  import opened RelayReceiverInvariant

  // What each process leaves alone

  lemma ReaderFrame(cfg: Config, r: Receiver, e: ReaderEvent)
    requires e != Push
    ensures var t := StepReader(cfg, r, e);
            && t.gate == r.gate && t.order == r.order && t.disp == r.disp && t.out == r.out && t.waiter == r.waiter
            && t.closed == r.closed && t.remoteClosed == r.remoteClosed
            && t.log.(ackApplied := r.log.ackApplied) == r.log
  {
  }

  lemma PushFrameFrame(cfg: Config, r: Receiver)
    requires r.reader.Pushing?
    ensures var t := PushFrame(cfg, r); var d := r.reader.frame.Data? && |r.gate.inbox| < Budget(cfg) + 8;
            && Pending(t) == (if d then Pending(r) + [r.reader.frame.seqNo] else Pending(r))
            && t.gate.inboxSeq == (if d then r.gate.inboxSeq + {r.reader.frame.seqNo} else r.gate.inboxSeq)
            && t.gate.inboxData == r.gate.inboxData + (if d then 1 else 0)
            && t.order == r.order && t.disp == r.disp && t.out == r.out && t.reader == Vacant && t.waiter == r.waiter
  {
    SeqsOfAppend(r.gate.inbox, r.reader.frame);
  }

  /** The dispatcher's steps that leave pipeline, reorder buffer and gate alone. */
  ghost predicate Quiet(e: DispatchEvent) {
    e == Publish || e == DropBatch || e == CountOne || e == MarkDelivered || e == QueueBatchAck || e == Unregister
  }

  lemma QuietFrame(cfg: Config, r: Receiver, e: DispatchEvent)
    requires Quiet(e)
    ensures var t := StepDispatcher(cfg, r, e);
            && t.gate == r.gate && t.log == r.log && t.reader == r.reader && t.waiter == r.waiter
            && t.closed == r.closed && t.remoteClosed == r.remoteClosed
            && t.order.expectedSeq == r.order.expectedSeq && t.order.recvBuf == r.order.recvBuf
            && Active(t.disp) == Active(r.disp) && Alive(t.disp) == Alive(r.disp)
            && (t.disp.Took? <==> r.disp.Took?) && (t.disp.Took? ==> t.disp == r.disp)
            && (AtTerminal(t.disp) <==> AtTerminal(r.disp))
  {
  }

  lemma TakeFrameFrame(r: Receiver)
    ensures var t := TakeNext(r);
            && Active(t.disp) == Active(r.disp)
            && (Alive(t.disp) ==> Pending(t) == Pending(r) && Alive(r.disp))
            && |Pending(t)| <= |Pending(r)|
            && (t.disp == Gone <==> r.disp == Gone)
  {
  }

  /** Handling DATA moves the head of the pipeline into the reorder state. */
  lemma HandleFrameFrame(cfg: Config, r: Receiver)
    requires r.disp.Took? && r.disp.frame.Data?
    ensures var t := Dispatch(cfg, r, r.disp.frame);
            && Pending(r) == [r.disp.frame.seqNo] + Pending(t)
            && Active(r.disp) == {} && Active(t.disp) == {r.disp.frame.seqNo} && Alive(t.disp)
            && t.gate == r.gate && t.out == r.out && t.acks == r.acks && t.reader == r.reader && t.waiter == r.waiter
            && t.closed == r.closed && t.remoteClosed == r.remoteClosed
            && t.log == r.log.(dispatched := r.log.dispatched + [r.disp.frame.seqNo])
            && match HandleData(cfg, r.order, r.disp.frame.seqNo, r.disp.frame.payload)
               case Dropped => t.order == r.order
               case Handled(o, ready, ackSeq) => t.order == o && t.disp == Publishing(r.disp.frame.seqNo, ready, ackSeq)
  {
  }

  /** Handling a frame of another kind leaves the pipeline and the receive order alone. */
  lemma ControlFrameFrame(cfg: Config, r: Receiver)
    requires r.disp.Took? && !r.disp.frame.Data?
    ensures var t := Dispatch(cfg, r, r.disp.frame);
            && Pending(t) == Pending(r) && Active(t.disp) == Active(r.disp) == {} && Batch(t.disp) == []
            && (t.disp == Choosing || t.disp == AwaitingIdle(r.disp.frame, r.acks.idle))
            && t.gate == r.gate && t.order == r.order && t.out == r.out && t.acks == r.acks
            && t.reader == r.reader && t.waiter == r.waiter && t.closed == r.closed && t.remoteClosed == r.remoteClosed
  {
  }

  // Admission bookkeeping

  lemma ReaderKeepsGate(cfg: Config, r: Receiver, e: ReaderEvent)
    requires GateInv(r)
    ensures GateInv(StepReader(cfg, r, e))
  {
    if e != Push {
      ReaderFrame(cfg, r, e);
      if r.disp == Gone { assert StepReader(cfg, r, e).reader == Vacant; }
    } else if r.reader.Pushing? {
      PushFrameFrame(cfg, r);
    }
  }

  lemma DispatcherKeepsGate(cfg: Config, r: Receiver, e: DispatchEvent)
    requires GateInv(r) && OrderInv(cfg, r)
    ensures GateInv(StepDispatcher(cfg, r, e))
  {
    if Quiet(e) {
      QuietFrame(cfg, r, e);
    } else if e == TakeFrame {
      TakeFrameFrame(r);
    } else if e == HandleFrame {
      HandleKeepsGate(cfg, r);
    } else if e == Release {
      ReleaseKeepsGate(cfg, r);
    } else if e == CleanUp || e == Leave {
      LeavingKeepsGate(cfg, r, e);
    }
  }

  lemma LeavingKeepsGate(cfg: Config, r: Receiver, e: DispatchEvent)
    requires GateInv(r) && (e == CleanUp || e == Leave)
    ensures GateInv(StepDispatcher(cfg, r, e))
  {
    var t := StepDispatcher(cfg, r, e);
    assert t == r || Pending(t) == SeqsOf(t.gate.inbox);
  }

  lemma ReleaseKeepsGate(cfg: Config, r: Receiver)
    requires GateInv(r) && OrderInv(cfg, r)
    ensures GateInv(StepDispatcher(cfg, r, Release))
  {
    var t := StepDispatcher(cfg, r, Release);
    assert Pending(t) == Pending(r);
  }

  lemma HandleKeepsGate(cfg: Config, r: Receiver)
    requires GateInv(r)
    ensures GateInv(StepDispatcher(cfg, r, HandleFrame))
  {
    if r.disp.Took? && r.disp.frame.Data? {
      HandleFrameFrame(cfg, r);
    }
  }

  lemma AppKeepsGate(r: Receiver, e: AppEvent)
    requires GateInv(r)
    ensures GateInv(StepApp(r, e))
  {
  }

  // The pipeline and the reorder buffer

  /** A frame at the head of the pipeline is awaited, new, and inside the window. */
  lemma HeadIsAdmissible(cfg: Config, o: Reorder, pipe: seq<nat>, active: set<nat>)
    requires PipeInv(cfg, o, pipe, active) && pipe != []
    ensures o.expectedSeq <= pipe[0] < o.expectedSeq + GateWindow(cfg)
    ensures pipe[0] !in o.recvBuf
    ensures pipe[0] > o.expectedSeq ==> pipe[0] - o.expectedSeq < AsUint64(cfg.windowSize)
  {
    assert !Ahead(o.expectedSeq, pipe, 0, o.recvBuf);
  }

  lemma HandleKeepsPipe(cfg: Config, o: Reorder, pipe: seq<nat>, payload: Payload)
    requires PipeInv(cfg, o, pipe, {}) && pipe != []
    ensures var h := HandleData(cfg, o, pipe[0], payload);
            h.Handled? && PipeInv(cfg, h.order, pipe[1..], {pipe[0]})
  {
    HeadIsAdmissible(cfg, o, pipe, {});
    var h := HandleData(cfg, o, pipe[0], payload);
    forall i, q | 0 <= i < |pipe[1..]| && h.order.expectedSeq <= q && q + GateWindow(cfg) <= pipe[1..][i]
      ensures Ahead(q, pipe[1..], i, h.order.recvBuf)
    {
      assert pipe[1..][i] == pipe[i + 1];
      assert Ahead(q, pipe, i + 1, o.recvBuf);
      assert pipe[..i + 1] == [pipe[0]] + pipe[1..][..i];
    }
  }

  lemma PushKeepsPipe(cfg: Config, o: Reorder, pipe: seq<nat>, active: set<nat>, s: nat)
    requires PipeInv(cfg, o, pipe, active)
    requires s !in pipe && s !in active && s !in o.recvBuf && s >= o.expectedSeq
    requires forall q :: o.expectedSeq <= q && q + GateWindow(cfg) <= s ==> q in pipe || q in active || q in o.recvBuf
    ensures PipeInv(cfg, o, pipe + [s], active)
  {
    var longer := pipe + [s];
    forall i, q | 0 <= i < |longer| && o.expectedSeq <= q && q + GateWindow(cfg) <= longer[i]
      ensures Ahead(q, longer, i, o.recvBuf)
    {
      if i < |pipe| {
        assert Ahead(q, pipe, i, o.recvBuf);
        assert longer[..i] == pipe[..i];
      } else {
        assert longer[..i] == pipe;
      }
    }
  }

  lemma ReaderKeepsOrder(cfg: Config, r: Receiver, e: ReaderEvent)
    requires GateInv(r) && OrderInv(cfg, r) && ReaderInv(cfg, r)
    ensures OrderInv(cfg, StepReader(cfg, r, e))
  {
    if e != Push {
      ReaderFrame(cfg, r, e);
    } else if r.reader.Pushing? {
      PushFrameFrame(cfg, r);
      if Alive(r.disp) && r.reader.frame.Data? {
        PushKeepsPipe(cfg, r.order, Pending(r), Active(r.disp), r.reader.frame.seqNo);
      }
    }
  }

  lemma DispatcherKeepsOrder(cfg: Config, r: Receiver, e: DispatchEvent)
    requires OrderInv(cfg, r)
    ensures OrderInv(cfg, StepDispatcher(cfg, r, e))
  {
    if Quiet(e) {
      QuietFrame(cfg, r, e);
    } else if e == TakeFrame {
      TakeFrameFrame(r);
    } else if e == HandleFrame {
      HandleKeepsOrder(cfg, r);
    }
  }

  lemma HandleKeepsOrder(cfg: Config, r: Receiver)
    requires OrderInv(cfg, r)
    ensures OrderInv(cfg, StepDispatcher(cfg, r, HandleFrame))
  {
    if r.disp.Took? {
      if r.disp.frame.Data? {
        HandleDataKeepsOrder(cfg, r);
      } else {
        ControlFrameFrame(cfg, r);
      }
    }
  }

  lemma HandleDataKeepsOrder(cfg: Config, r: Receiver)
    requires r.disp.Took? && r.disp.frame.Data?
    requires PipeInv(cfg, r.order, Pending(r), {})
    ensures var t := Dispatch(cfg, r, r.disp.frame); PipeInv(cfg, t.order, Pending(t), Active(t.disp))
  {
    HandleFrameFrame(cfg, r);
    HandleKeepsPipe(cfg, r.order, Pending(r), r.disp.frame.payload);
    assert Pending(r)[1..] == Pending(Dispatch(cfg, r, r.disp.frame));
  }

  // The reader's verdict

  lemma ReaderKeepsReader(cfg: Config, r: Receiver, e: ReaderEvent)
    requires GateInv(r) && OrderInv(cfg, r) && ReaderInv(cfg, r)
    ensures ReaderInv(cfg, StepReader(cfg, r, e))
  {
    if e != Push { ReaderFrame(cfg, r, e); }
    if e.Arrive? { ArriveKeepsReader(cfg, r, e.frame); }
  }

  lemma ArriveKeepsReader(cfg: Config, r: Receiver, f: Frame)
    requires ReaderInv(cfg, r)
    ensures ReaderInv(cfg, ArriveFrame(cfg, r, f))
  {
    var frontier := Frontier(r.order.expectedSeq, r.gate.inboxSeq);
    assert forall q :: r.order.expectedSeq <= q < frontier ==> q in r.gate.inboxSeq;
  }

  lemma DispatcherKeepsReader(cfg: Config, r: Receiver, e: DispatchEvent)
    requires GateInv(r) && OrderInv(cfg, r) && ReaderInv(cfg, r)
    ensures ReaderInv(cfg, StepDispatcher(cfg, r, e))
  {
    if Quiet(e) {
      QuietFrame(cfg, r, e);
    } else if e == HandleFrame {
      HandleKeepsReader(cfg, r);
    }
  }

  /** The frame the reader holds is not the one being handled, so handling cannot pass or buffer it. */
  lemma HandleKeepsReader(cfg: Config, r: Receiver)
    requires GateInv(r) && OrderInv(cfg, r) && ReaderInv(cfg, r)
    ensures ReaderInv(cfg, StepDispatcher(cfg, r, HandleFrame))
  {
    if r.disp.Took? && r.disp.frame.Data? {
      HandleFrameFrame(cfg, r);
      HeadIsAdmissible(cfg, r.order, Pending(r), {});
      assert Pending(r)[0] == r.disp.frame.seqNo;
      assert r.disp.frame.seqNo in r.gate.inboxSeq;
      if Judged(r.reader) {
        HandlePassesBy(cfg, r.order, r.disp.frame.seqNo, r.disp.frame.payload, r.gate.inboxSeq, r.reader.frame.seqNo);
      }
    }
  }

  lemma HandlePassesBy(cfg: Config, o: Reorder, handled: nat, payload: Payload, inboxSeq: set<nat>, s: nat)
    requires handled >= o.expectedSeq && handled in inboxSeq && HandleData(cfg, o, handled, payload).Handled?
    requires s !in inboxSeq && s !in o.recvBuf && s >= o.expectedSeq
    requires forall q :: o.expectedSeq <= q && q + GateWindow(cfg) <= s ==> q in inboxSeq || q in o.recvBuf
    ensures var t := HandleData(cfg, o, handled, payload).order;
            && s !in t.recvBuf && s >= t.expectedSeq
            && forall q :: t.expectedSeq <= q && q + GateWindow(cfg) <= s ==> q in inboxSeq || q in t.recvBuf
  {
    if handled == o.expectedSeq {
      var d := Drain(o.expectedSeq + 1, o.recvBuf);
      assert forall q :: o.expectedSeq < q < d.next ==> q in o.recvBuf;
    }
  }

  // Storage

  lemma HandleConserves(cfg: Config, o: Reorder, s: nat, payload: Payload)
    requires s !in o.recvBuf && o.expectedSeq !in o.recvBuf
    ensures var h := HandleData(cfg, o, s, payload);
            h.Handled? && s >= o.expectedSeq ==>
              && |h.order.recvBuf| + |h.ready| == |o.recvBuf| + 1
              && h.order.recvReady == o.recvReady + |h.ready|
  {
    if s == o.expectedSeq {
      DrainConserves(o.expectedSeq + 1, o.recvBuf);
    } else {
      assert o.recvBuf[s := payload].Keys == o.recvBuf.Keys + {s};
    }
  }

  lemma ReaderKeepsStore(cfg: Config, r: Receiver, e: ReaderEvent)
    requires GateInv(r) && StoreInv(cfg, r)
    ensures StoreInv(cfg, StepReader(cfg, r, e))
  {
    if e != Push {
      ReaderFrame(cfg, r, e);
    } else if r.reader.Pushing? {
      PushFrameFrame(cfg, r);
    }
  }

  lemma DispatcherKeepsStore(cfg: Config, r: Receiver, e: DispatchEvent)
    requires GateInv(r) && OrderInv(cfg, r) && StoreInv(cfg, r)
    ensures StoreInv(cfg, StepDispatcher(cfg, r, e))
  {
    if Quiet(e) {
      QuietKeepsStore(cfg, r, e);
    } else if e == HandleFrame {
      HandleKeepsStore(cfg, r);
    } else {
      GateStepKeepsStore(cfg, r, e);
    }
  }

  lemma GateStepKeepsStore(cfg: Config, r: Receiver, e: DispatchEvent)
    requires GateInv(r) && StoreInv(cfg, r) && !Quiet(e) && e != HandleFrame
    ensures StoreInv(cfg, StepDispatcher(cfg, r, e))
  {
    if e == TakeFrame { TakeFrameFrame(r); }
  }

  lemma QuietKeepsStore(cfg: Config, r: Receiver, e: DispatchEvent)
    requires StoreInv(cfg, r) && Quiet(e)
    ensures StoreInv(cfg, StepDispatcher(cfg, r, e))
  {
    QuietFrame(cfg, r, e);
  }

  lemma HandleKeepsStore(cfg: Config, r: Receiver)
    requires OrderInv(cfg, r) && StoreInv(cfg, r)
    ensures StoreInv(cfg, StepDispatcher(cfg, r, HandleFrame))
  {
    if r.disp.Took? {
      if r.disp.frame.Data? {
        HandleDataKeepsStore(cfg, r);
      } else {
        ControlFrameFrame(cfg, r);
      }
    }
  }

  lemma HandleDataKeepsStore(cfg: Config, r: Receiver)
    requires r.disp.Took? && r.disp.frame.Data?
    requires PipeInv(cfg, r.order, Pending(r), {}) && StoreInv(cfg, r)
    ensures StoreInv(cfg, Dispatch(cfg, r, r.disp.frame))
  {
    HandleFrameFrame(cfg, r);
    HandleKeepsPipe(cfg, r.order, Pending(r), r.disp.frame.payload);
    HandleConserves(cfg, r.order, r.disp.frame.seqNo, r.disp.frame.payload);
    assert |Pending(r)| == 1 + |Pending(Dispatch(cfg, r, r.disp.frame))|;
  }

  lemma AppKeepsStore(cfg: Config, r: Receiver, e: AppEvent)
    requires StoreInv(cfg, r)
    ensures StoreInv(cfg, StepApp(r, e))
  {
  }
}
