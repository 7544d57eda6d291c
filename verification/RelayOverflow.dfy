/** Where a graceful close ends: frames that arrive behind an admitted CLOSE can still overflow the
    inbox, and the connection is then closed as failed before the CLOSE takes effect. */
module RelayOverflow {
  import opened RelayTypes
  import opened SendWindow
  import opened AckWorker
  import S = RelaySender
  import R = RelayReceiver
  import RI = RelayReceiverInvariant
  import opened RelayLink
  import opened RelayProgress
  import L = RelayLimits

  // What may arrive behind a terminal frame

  /** In every reachable open state with an admitted terminal frame, a step of the reader closes the
      connection if and only if it pushes a frame and finds the inbox full, and that frame is not DATA;
      the close is then not a remote one. No step of the reader changes the receive order, the channel,
      the ACK state or the logs, and DATA changes nothing at all. */
  lemma BehindTerminal(c: Configs, run: seq<Event>, e: R.ReaderEvent)
    requires Exec(c, run).rcv.gate.terminal && !Exec(c, run).rcv.closed
    ensures var r := Exec(c, run).rcv; var t := R.StepReader(c.receiver, r, e);
            && (t.closed <==> e == R.Push && r.reader.Pushing? && |r.gate.inbox| == Budget(c.receiver) + 8)
            && (t.closed ==> !r.reader.frame.Data? && !t.remoteClosed)
            && t.order == r.order && t.out == r.out && t.acks == r.acks && t.log == r.log && t.disp == r.disp
            && (e.Arrive? && e.frame.Data? ==> t == r)
  {
    RunKeeps(c, run);
    ReaderBehindTerminal(c.receiver, Exec(c, run).rcv, e);
  }

  lemma ReaderBehindTerminal(cfg: Config, r: R.Receiver, e: R.ReaderEvent)
    requires r.gate.terminal && !r.closed && RI.ReaderInv(cfg, r) && |r.gate.inbox| <= Budget(cfg) + 8
    requires r.remoteClosed ==> r.closed
    ensures var t := R.StepReader(cfg, r, e);
            && (t.closed <==> e == R.Push && r.reader.Pushing? && |r.gate.inbox| == Budget(cfg) + 8)
            && (t.closed ==> !r.reader.frame.Data? && !t.remoteClosed)
            && t.order == r.order && t.out == r.out && t.acks == r.acks && t.log == r.log && t.disp == r.disp
            && (e.Arrive? && e.frame.Data? ==> t == r)
  {
  }

  // The overflow

  /** A CLOSE that is on the wire is admitted by a quiet receiver. */
  lemma AdmitClose(c: Configs, run: seq<Event>) returns (next: seq<Event>)
    requires Quiet(Exec(c, run).rcv) && Close in Exec(c, run).data
    ensures run <= next
    ensures var l := Exec(c, run); Exec(c, next) == l.(rcv := l.rcv.(gate := R.Enter(l.rcv.gate, Close)))
  {
    var r := Exec(c, run).rcv;
    next := RcvStep(c, run, R.OfReader(R.Arrive(Close)));
    assert Exec(c, next).rcv == r.(reader := R.Pushing(Close));
    next := RcvStep(c, next, R.OfReader(R.Push));
  }

  /** The dispatcher has not taken the admitted terminal frame yet. */
  ghost predicate Behind(r: R.Receiver) {
    r.gate.terminal && !r.gate.failed && !r.closed && r.reader == R.Vacant
  }

  /** An ACK that arrives now stands in the inbox like any other frame. */
  lemma PushAck(c: Configs, run: seq<Event>, ack: nat) returns (next: seq<Event>)
    requires Behind(Exec(c, run).rcv)
    ensures run <= next
    ensures var l := Exec(c, run); var r := l.rcv;
            Exec(c, next) ==
              if |r.gate.inbox| < Budget(c.receiver) + 8
              then l.(rcv := r.(gate := r.gate.(inbox := r.gate.inbox + [Ack(ack)])))
              else l.(rcv := r.(gate := r.gate.(failed := true), closed := true, remoteClosed := false))
  {
    var r := Exec(c, run).rcv;
    next := RcvStep(c, run, R.OfReader(R.Arrive(Ack(ack))));
    assert Exec(c, next).rcv == r.(reader := R.Pushing(Ack(ack)));
    next := RcvStep(c, next, R.OfReader(R.Push));
  }

  lemma {:induction false} FillUp(c: Configs, run: seq<Event>, ack: nat) returns (next: seq<Event>)
    requires Behind(Exec(c, run).rcv)
    ensures run <= next
    ensures var l := Exec(c, run); var t := Exec(c, next);
            && t.rcv.closed && !t.rcv.remoteClosed
            && t.rcv.out == l.rcv.out && t.snd == l.snd && t.data == l.data
    decreases Budget(c.receiver) + 8 - |Exec(c, run).rcv.gate.inbox|
  {
    next := PushAck(c, run, ack);
    if |Exec(c, run).rcv.gate.inbox| < Budget(c.receiver) + 8 { next := FillUp(c, next, ack); }
  }

  /** From every reachable state with the CLOSE on the wire and the receiver between frames, some
      continuation ends the connection as failed: a receive returns the error while everything that is
      on the channel is still there, although the CLOSE was admitted. */
  lemma OverflowEndsEarly(c: Configs, run: seq<Event>, ack: nat) returns (next: seq<Event>)
    requires Quiet(Exec(c, run).rcv) && Close in Exec(c, run).data
    ensures run <= next
    ensures var r := Exec(c, run).rcv; var t := Exec(c, next).rcv;
            t.closed && !t.remoteClosed && t.out == r.out.(ended := true)
  {
    next := AdmitClose(c, run);
    next := FillUp(c, next, ack);
    next := RcvStep(c, next, R.OfApp(R.ReceiveError));
  }

  // A run that gets there

  /** The one payload is acknowledged, and the ACK is delivered. */
  lemma OneAcknowledged() returns (run: seq<Event>)
    ensures var l := Exec(L.Both, run);
            && l.snd == L.AfterSend.(win := Window(2, 2, map[], 0))
            && Quiet(l.rcv) && l.rcv.out == L.AfterQueue.out
  {
    run := L.OneQueued();
    run := Releasing(L.Both, run);
    run := RcvStep(L.Both, run, R.OfWorker(R.WakeUp));
    run := RcvStep(L.Both, run, R.OfWorker(R.PickUp));
    assert Exec(L.Both, run).rcv.acks.worker == Sending(1);
    var sent := run + [ReceiverStep(R.OfWorker(R.SendAck))];
    assert sent[..|run|] == run;
    run := sent + [AckDelivery(1)];
    assert run[..|sent|] == sent;
    assert Retire(map[1 := [7]], 1) == map[];
  }

  /** Its acceptance RPC returns, and Close queues its marker. */
  lemma OneMarked() returns (run: seq<Event>)
    ensures var l := Exec(L.Both, run);
            && l.snd == L.AfterSend.(win := Window(2, 2, map[], 0), outstanding := map[], inflight := 0,
                                     state := Closing, sendCh := [CloseMark], closer := S.CloseQueued)
            && Quiet(l.rcv) && l.rcv.out == L.AfterQueue.out
  {
    run := OneAcknowledged();
    var s := Exec(L.Both, run).snd.(outstanding := map[], inflight := 0);
    run := SndStep(L.Both, run, S.OfLoop(S.Accepted(1)));
    assert Exec(L.Both, run).snd == s by { assert map[1 := [7]] - {1} == map[]; }
    run := SndStep(L.Both, run, S.OfCaller(S.LockForClose));
    run := SndStep(L.Both, run, S.OfCaller(S.CheckState));
    assert Exec(L.Both, run).snd == s.(state := Closing, holder := S.CloseReady);
    run := SndStep(L.Both, run, S.OfCaller(S.Enqueue));
  }

  /** The marker passes sendLoop, and the CLOSE is emitted. */
  lemma OneClosed() returns (run: seq<Event>)
    ensures var l := Exec(L.Both, run); Close in l.data && Quiet(l.rcv) && l.rcv.out == L.AfterQueue.out
  {
    run := OneMarked();
    var s := Exec(L.Both, run).snd;
    run := SndStep(L.Both, run, S.OfLoop(S.Take));
    assert Exec(L.Both, run).snd == s.(loop := S.AtClose, sendCh := []);
    run := SndStep(L.Both, run, S.OfLoop(S.Pass));
    assert Exec(L.Both, run).snd == s.(sendCh := [], flushed := true);
    run := SndStep(L.Both, run, S.OfBarrier(S.PollUnacked));
    run := SndStep(L.Both, run, S.OfBarrier(S.EmitClose));
  }

  /** The sender has closed gracefully, its CLOSE was admitted, and yet the receive fails with the payload
      still on the channel. */
  lemma GracefulCloseOverflows() returns (run: seq<Event>)
    ensures var l := Exec(L.Both, run);
            && Close in l.data && l.rcv.closed && !l.rcv.remoteClosed
            && l.rcv.out.ended && l.rcv.out.recvCh == [[7]]
  {
    run := OneClosed();
    run := AdmitClose(L.Both, run);
    run := FillUp(L.Both, run, 1);
    run := RcvStep(L.Both, run, R.OfApp(R.ReceiveError));
  }
}
