/** That the Relay moves: what the gate admits, and that an idle receiver takes what it waits for. */
module RelayProgress {
  import opened RelayTypes
  import opened ReorderBuffer
  import opened AckWorker
  import S = RelaySender
  import R = RelayReceiver
  import RI = RelayReceiverInvariant
  import opened RelayLink

  /** A DATA frame passes the gate's filter exactly when the connection is open for data, the frame is
      new, it is not older than expected, and everything awaited a whole window below it is pending. */
  lemma GateAdmitsIff(cfg: Config, closed: bool, o: Reorder, g: R.Gate, frame: Frame)
    requires frame.Data?
    ensures R.Judge(cfg, closed, o, g, frame).Consider? <==>
              && !closed && !g.failed && !g.terminal
              && frame.seqNo !in g.inboxSeq && frame.seqNo !in o.recvBuf && frame.seqNo >= o.expectedSeq
              && forall q :: o.expectedSeq <= q && q + GateWindow(cfg) <= frame.seqNo ==> q in g.inboxSeq
  {
    var f := Frontier(o.expectedSeq, g.inboxSeq);
    if f + GateWindow(cfg) <= frame.seqNo { assert f !in g.inboxSeq; }
  }

  /** A frame that was delivered before, and only such a frame, makes the gate replay an ACK, and the
      ACK it replays is the delivered watermark. */
  lemma GateReplaysIff(cfg: Config, closed: bool, o: Reorder, g: R.Gate, frame: Frame, ack: nat)
    requires frame.Data?
    ensures R.Judge(cfg, closed, o, g, frame) == R.ReplayAck(ack) <==>
              && !closed && !g.failed && !g.terminal
              && frame.seqNo !in g.inboxSeq && frame.seqNo !in o.recvBuf && frame.seqNo < o.expectedSeq
              && ack == o.recvDelivered > 0
  {
  }

  /** The gate hands an ACK to handleAck if and only if the connection is open and no terminal frame has
      been admitted, and it is the ACK that arrived. */
  lemma GateAppliesAckIff(cfg: Config, closed: bool, o: Reorder, g: R.Gate, n: nat, m: nat)
    ensures R.Judge(cfg, closed, o, g, Ack(n)) == R.ApplyAck(m) <==> n == m && !closed && !g.failed && !g.terminal
  {
  }

  /** Every other frame than DATA passes if and only if the connection is open, ACKs only behind a terminal
      frame. */
  lemma GatePassesIff(cfg: Config, closed: bool, o: Reorder, g: R.Gate, frame: Frame)
    requires !frame.Data?
    ensures R.Judge(cfg, closed, o, g, frame) == R.Admit <==> !closed && !g.failed && (frame.Ack? ==> g.terminal)
    ensures closed || g.failed ==> R.Judge(cfg, closed, o, g, frame) == R.Drop
  {
  }

  /** In every run: an ACK that reaches the free reader is applied to the sending half of this endpoint,
      once and at once, if and only if the connection is open and no terminal frame has been admitted;
      and no other arrival applies one. */
  lemma ArrivingAckIsApplied(c: Configs, run: seq<Event>, frame: Frame)
    requires Exec(c, run).rcv.reader == R.Vacant
    ensures var r := Exec(c, run).rcv; var t := R.StepReader(c.receiver, r, R.Arrive(frame));
            var applied := frame.Ack? && !r.closed && !r.gate.failed && !r.gate.terminal;
            && t.log.ackApplied == r.log.ackApplied + (if applied then [frame.ackSeq] else [])
            && t.log.admitted == r.log.admitted && t.order == r.order && t.out == r.out && t.acks == r.acks
  {
  }

  /** In every run: a DATA frame that passed the filter goes on if and only if the frames counted, those
      admitted and not released, on the channel, buffered and ready, are below the capacity of the
      channel plus two windows; otherwise it is dropped and nothing changes. */
  lemma WeighedIsAdmittedIff(c: Configs, run: seq<Event>)
    requires Exec(c, run).rcv.reader.Weighing?
    ensures var r := Exec(c, run).rcv; var t := R.StepReader(c.receiver, r, R.Weigh);
            var window := if c.receiver.windowSize < 1 then 1 else c.receiver.windowSize;
            && (t.reader == R.Beginning(r.reader.frame) <==>
                  r.gate.inboxData + |r.out.recvCh| + r.reader.buffered < c.receiver.recvCap + 2 * window)
            && (t.reader != R.Beginning(r.reader.frame) ==> t == r.(reader := R.Vacant))
  {
  }

  // Extending a run

  lemma RcvStep(c: Configs, run: seq<Event>, e: R.ReceiverEvent) returns (next: seq<Event>)
    requires Possible(Exec(c, run), ReceiverStep(e)) && e != R.OfWorker(R.SendAck)
    ensures run <= next
    ensures Exec(c, next) == Exec(c, run).(rcv := R.Step(c.receiver, Exec(c, run).rcv, e))
  {
    next := run + [ReceiverStep(e)];
    assert next[..|run|] == run;
    assert Exec(c, run).acks + {} == Exec(c, run).acks;
  }

  lemma SndStep(c: Configs, run: seq<Event>, e: S.SenderEvent) returns (next: seq<Event>)
    ensures run <= next
    ensures var l := Exec(c, run);
            Exec(c, next) == l.(snd := S.Step(c.sender, l.snd, e), data := l.data + S.Emit(l.snd, e))
  {
    next := run + [SenderStep(e)];
    assert next[..|run|] == run;
  }

  // The receiving half takes the frame it waits for

  /** The receiving half between frames, on a connection open for data. */
  ghost predicate Quiet(r: R.Receiver) {
    && !r.closed && !r.gate.failed && !r.gate.terminal
    && r.reader == R.Vacant && r.disp == R.Choosing && r.gate.inbox == []
  }

  /** A quiet receiver has budget left for the frame it expects. */
  lemma QuietHasBudget(cfg: Config, r: R.Receiver)
    requires RI.ReceiverInv(cfg, r) && Quiet(r)
    ensures r.gate.inboxSeq == {} && r.gate.inboxData == 0 && r.order.recvReady == 0
    ensures r.order.expectedSeq !in r.order.recvBuf && |r.out.recvCh| <= cfg.recvCap
    ensures |r.out.recvCh| + |r.order.recvBuf| < Budget(cfg)
  {
    assert RI.Pending(r) == [];
    BufferIsSmall(r.order.recvBuf.Keys, r.order.expectedSeq + 1, GateWindow(cfg) - 1);
  }

  lemma {:induction false} BufferIsSmall(keys: set<nat>, lo: nat, size: nat)
    requires forall k :: k in keys ==> lo <= k < lo + size
    ensures |keys| <= size
    decreases size
  {
    if size == 0 {
      assert keys == {};
    } else {
      var top := lo + size - 1;
      BufferIsSmall(keys - {top}, lo, size - 1);
      assert keys <= (keys - {top}) + {top};
      if top !in keys { assert keys - {top} == keys; }
    }
  }

  /** The expected frame passes the gate. */
  lemma Admission(c: Configs, run: seq<Event>, f: Frame) returns (next: seq<Event>)
    requires f.Data? && f in Exec(c, run).data
    requires var r := Exec(c, run).rcv;
             && Quiet(r) && r.gate.inboxSeq == {} && r.gate.inboxData == 0 && r.order.recvReady == 0
             && f.seqNo == r.order.expectedSeq && f.seqNo !in r.order.recvBuf
             && |r.out.recvCh| + |r.order.recvBuf| < Budget(c.receiver)
    ensures run <= next
    ensures var l := Exec(c, run); var r := l.rcv;
            Exec(c, next) == l.(rcv := r.(gate := R.Enter(r.gate, f), acks := Begin(r.acks),
                                          log := r.log.(admitted := r.log.admitted + [f.seqNo])))
  {
    var r := Exec(c, run).rcv;
    GateAdmitsIff(c.receiver, r.closed, r.order, r.gate, f);
    next := RcvStep(c, run, R.OfReader(R.Arrive(f)));
    assert Exec(c, next).rcv == r.(reader := R.Weighing(f, |r.order.recvBuf|));
    next := RcvStep(c, next, R.OfReader(R.Weigh));
    assert Exec(c, next).rcv == r.(reader := R.Beginning(f));
    next := RcvStep(c, next, R.OfReader(R.Register));
    assert Exec(c, next).rcv == r.(reader := R.Pushing(f), acks := Begin(r.acks));
    next := RcvStep(c, next, R.OfReader(R.Push));
  }

  /** It is handled, with the run of buffered frames it completes. */
  lemma Handling(c: Configs, run: seq<Event>, f: Frame) returns (next: seq<Event>)
    requires var r := Exec(c, run).rcv;
             f.Data? && f.seqNo == r.order.expectedSeq && r.gate.inbox == [f] && r.disp == R.Choosing && !r.closed
    ensures run <= next
    ensures var l := Exec(c, run); var r := l.rcv; var h := HandleData(c.receiver, r.order, f.seqNo, f.payload);
            && h.Handled? && h.ready != []
            && Exec(c, next) == l.(rcv := r.(gate := r.gate.(inbox := []), order := h.order,
                                             disp := R.Publishing(f.seqNo, h.ready, h.ackSeq),
                                             log := r.log.(dispatched := r.log.dispatched + [f.seqNo])))
  {
    var r := Exec(c, run).rcv;
    next := RcvStep(c, run, R.OfDispatcher(R.TakeFrame));
    assert Exec(c, next).rcv == r.(gate := r.gate.(inbox := []), disp := R.Took(f));
    next := RcvStep(c, next, R.OfDispatcher(R.HandleFrame));
  }

  /** What publishing a batch leaves alone. */
  ghost predicate Aside(l: Link, t: Link) {
    && t.snd == l.snd && t.data == l.data && t.acks == l.acks
    && t.rcv.closed == l.rcv.closed && t.rcv.gate == l.rcv.gate && t.rcv.acks == l.rcv.acks
    && t.rcv.reader == l.rcv.reader && t.rcv.order.expectedSeq == l.rcv.order.expectedSeq
  }

  /** The batch is published, the application taking a payload whenever the channel is full. */
  lemma {:induction false} Publishing(c: Configs, run: seq<Event>) returns (next: seq<Event>)
    requires var r := Exec(c, run).rcv;
             && c.receiver.recvCap >= 1 && |r.out.recvCh| <= c.receiver.recvCap
             && r.disp.Publishing? && r.order.recvReady >= |r.disp.batch|
    ensures run <= next && Aside(Exec(c, run), Exec(c, next))
    ensures var d := Exec(c, run).rcv.disp; Exec(c, next).rcv.disp == R.Publishing(d.seqNo, [], d.ackSeq)
    decreases |Exec(c, run).rcv.disp.batch|
  {
    var r := Exec(c, run).rcv;
    if r.disp.batch == [] {
      next := run;
    } else {
      next := PublishOne(c, run);
      next := Publishing(c, next);
    }
  }

  lemma PublishOne(c: Configs, run: seq<Event>) returns (next: seq<Event>)
    requires var r := Exec(c, run).rcv;
             && c.receiver.recvCap >= 1 && |r.out.recvCh| <= c.receiver.recvCap
             && r.disp.Publishing? && r.disp.batch != [] && r.order.recvReady >= |r.disp.batch|
    ensures run <= next && Aside(Exec(c, run), Exec(c, next))
    ensures var r := Exec(c, run).rcv; var t := Exec(c, next).rcv;
            && t.disp == R.Publishing(r.disp.seqNo, r.disp.batch[1..], r.disp.ackSeq)
            && |t.out.recvCh| <= c.receiver.recvCap && t.order.recvReady == r.order.recvReady - 1
  {
    var r := Exec(c, run).rcv;
    next := RcvStep(c, run, R.OfApp(R.Receive));
    assert |Exec(c, next).rcv.out.recvCh| < c.receiver.recvCap;
    next := RcvStep(c, next, R.OfDispatcher(R.Publish));
    assert Exec(c, next).rcv.disp == R.Counting(r.disp.seqNo, r.disp.batch[1..], r.disp.ackSeq);
    next := RcvStep(c, next, R.OfDispatcher(R.CountOne));
  }

  /** The dispatcher records the watermark and queues the ACK. */
  lemma Acknowledging(c: Configs, run: seq<Event>) returns (next: seq<Event>)
    requires var r := Exec(c, run).rcv; r.disp.Publishing? && r.disp.batch == [] && r.disp.ackSeq > 0 && !r.closed
    ensures run <= next
    ensures var l := Exec(c, run); var r := l.rcv;
            Exec(c, next) == l.(rcv := r.(order := r.order.(recvDelivered := r.disp.ackSeq),
                                          acks := Queue(r.acks, r.disp.ackSeq), disp := R.Finishing(r.disp.seqNo)))
  {
    var d := Exec(c, run).rcv.disp;
    next := RcvStep(c, run, R.OfDispatcher(R.Publish));
    assert Exec(c, next).rcv == Exec(c, run).rcv.(disp := R.Marking(d.seqNo, d.ackSeq));
    next := RcvStep(c, next, R.OfDispatcher(R.MarkDelivered));
    assert Exec(c, next).rcv.disp == R.Acking(d.seqNo, d.ackSeq);
    next := RcvStep(c, next, R.OfDispatcher(R.QueueBatchAck));
  }

  /** It unregisters the ACK and releases the frame. */
  lemma Releasing(c: Configs, run: seq<Event>) returns (next: seq<Event>)
    requires var r := Exec(c, run).rcv; r.disp.Finishing? && r.reader == R.Vacant && r.gate.inboxData > 0
    ensures run <= next
    ensures var l := Exec(c, run); var r := l.rcv; var g := r.gate;
            Exec(c, next) == l.(rcv := r.(
              gate := g.(inboxData := g.inboxData - 1, inboxSeq := g.inboxSeq - {r.disp.seqNo}),
              acks := Finish(r.acks), disp := R.Choosing))
  {
    var r := Exec(c, run).rcv;
    next := RcvStep(c, run, R.OfDispatcher(R.Unregister));
    assert Exec(c, next).rcv == r.(acks := Finish(r.acks), disp := R.Releasing(r.disp.seqNo));
    next := RcvStep(c, next, R.OfDispatcher(R.Release));
  }

  /** The five stages in a row. */
  lemma Taking(c: Configs, run: seq<Event>, f: Frame) returns (next: seq<Event>)
    requires c.receiver.recvCap >= 1 && f.Data? && f in Exec(c, run).data
    requires var r := Exec(c, run).rcv;
             && Quiet(r) && r.gate.inboxSeq == {} && r.gate.inboxData == 0 && r.order.recvReady == 0
             && f.seqNo == r.order.expectedSeq && f.seqNo !in r.order.recvBuf
             && |r.out.recvCh| <= c.receiver.recvCap && |r.out.recvCh| + |r.order.recvBuf| < Budget(c.receiver)
    ensures run <= next
    ensures var l := Exec(c, run); var t := Exec(c, next);
            && Quiet(t.rcv) && t.rcv.order.expectedSeq > l.rcv.order.expectedSeq
            && t.snd == l.snd && t.data == l.data && t.rcv.acks.worker == l.rcv.acks.worker
  {
    next := Admission(c, run, f);
    next := Handling(c, next, f);
    next := Publishing(c, next);
    next := Acknowledging(c, next);
    next := Releasing(c, next);
  }

  /** From every reachable state with a quiet receiver, the frame it expects, once on the wire, can be
      admitted, handled, published and released, which leaves the receiver quiet and further on. */
  lemma ExpectedFrameIsTaken(c: Configs, run: seq<Event>, payload: Payload) returns (next: seq<Event>)
    requires var l := Exec(c, run);
             c.receiver.recvCap >= 1 && Quiet(l.rcv) && Data(l.rcv.order.expectedSeq, payload) in l.data
    ensures run <= next
    ensures var l := Exec(c, run); var t := Exec(c, next);
            && Quiet(t.rcv) && t.rcv.order.expectedSeq > l.rcv.order.expectedSeq
            && t.snd == l.snd && t.data == l.data && t.rcv.acks.worker == l.rcv.acks.worker
  {
    var l := Exec(c, run);
    assert RI.ReceiverInv(c.receiver, l.rcv) by { RunKeeps(c, run); }
    QuietHasBudget(c.receiver, l.rcv);
    next := Taking(c, run, Data(l.rcv.order.expectedSeq, payload));
  }
}
