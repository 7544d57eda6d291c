/** Where the promises of the ACK worker end: an ACK send that fails. */
module RelayLimits {
  import opened RelayTypes
  import opened SendWindow
  import opened ReorderBuffer
  import opened AckWorker
  import S = RelaySender
  import R = RelayReceiver
  import opened RelayLink
  import opened RelayProgress

  const OneFrame := Config(1, 0, 1)
  const Both := Configs(OneFrame, OneFrame)

  /** The sending half after one Send: numbered, launched and put on the wire. */
  const AfterSend := S.Sender(
    Open, Window(1, 2, map[1 := [7]], 0), [], S.Free, S.Selecting, map[1 := [7]], 1, S.NoRound,
    false, S.NotClosing, {}, [[7]], [[7]], {}, 0)

  /** The receiving half when that payload is published and its ACK queued but not yet unregistered. */
  const AfterQueue := R.Receiver(
    false, false, Reorder(2, map[], 0, 1), R.Gate([], {1}, 1, false, false), Queue(Begin(InitialAcks), 1),
    R.Outlet([[7]], [[7]], [], false), R.Vacant, R.Finishing(1), R.NoWait, R.Log([1], [1], []))

  lemma OneNumbered() returns (run: seq<Event>)
    ensures Exec(Both, run) ==
              InitialLink.(snd := AfterSend.(loop := S.Slotting(1, [7]), outstanding := map[], inflight := 0))
  {
    run := SndStep(Both, [], S.OpenAcked);
    run := SndStep(Both, run, S.OfCaller(S.LockForSend([7])));
    run := SndStep(Both, run, S.OfCaller(S.CheckState));
    assert Exec(Both, run).snd == S.InitialSender.(state := Open, holder := S.SendReady([7]));
    run := SndStep(Both, run, S.OfCaller(S.Enqueue));
    run := SndStep(Both, run, S.OfLoop(S.Take));
    assert Exec(Both, run).snd == S.InitialSender.(state := Open, loop := S.Windowing([7]), queued := [[7]]);
    run := SndStep(Both, run, S.OfLoop(S.NumberNext));
  }

  lemma OneSent() returns (run: seq<Event>)
    ensures Exec(Both, run) == InitialLink.(snd := AfterSend, data := {Data(1, [7])})
  {
    run := OneNumbered();
    run := SndStep(Both, run, S.OfLoop(S.Launch));
    assert Exec(Both, run).snd == AfterSend;
    run := SndStep(Both, run, S.OfLoop(S.Transmit(1)));
  }

  lemma OneHandled()
    ensures HandleData(OneFrame, InitialReorder, 1, [7]) == Handled(Reorder(2, map[], 1, 0), [[7]], 1)
  {
    var empty: map<nat, Payload> := map[];
    assert Frontier(2, empty.Keys) == 2;
    assert Drain(2, empty) == Drained(2, map[], []);
  }

  /** It arrives and is admitted. */
  lemma OneAdmitted() returns (run: seq<Event>)
    ensures Exec(Both, run) == InitialLink.(
              snd := AfterSend, data := {Data(1, [7])},
              rcv := R.InitialReceiver.(gate := R.Gate([Data(1, [7])], {1}, 1, false, false),
                                        acks := Begin(InitialAcks), log := R.Log([1], [], [])))
  {
    run := OneSent();
    var r := Exec(Both, run).rcv;
    assert r == R.InitialReceiver && Quiet(r);
    run := Admission(Both, run, Data(1, [7]));
    assert R.Enter(r.gate, Data(1, [7])) == R.Gate([Data(1, [7])], {1}, 1, false, false);
  }

  /** It is taken and handled. */
  lemma OneReady() returns (run: seq<Event>)
    ensures Exec(Both, run) == InitialLink.(
              snd := AfterSend, data := {Data(1, [7])},
              rcv := AfterQueue.(order := Reorder(2, map[], 1, 0), acks := Begin(InitialAcks),
                                 out := R.InitialReceiver.out, disp := R.Publishing(1, [[7]], 1)))
  {
    OneHandled();
    run := OneAdmitted();
    run := Handling(Both, run, Data(1, [7]));
  }

  /** It is published and counted, and its ACK queued. */
  lemma OneQueued() returns (run: seq<Event>)
    ensures Exec(Both, run) == InitialLink.(snd := AfterSend, data := {Data(1, [7])}, rcv := AfterQueue)
  {
    run := OneReady();
    var batch: seq<Payload> := [[7]];
    assert batch[1..] == [] && [] + [batch[0]] == batch;
    run := RcvStep(Both, run, R.OfDispatcher(R.Publish));
    assert Exec(Both, run).rcv ==
           AfterQueue.(order := Reorder(2, map[], 1, 0), acks := Begin(InitialAcks), disp := R.Counting(1, [], 1));
    run := RcvStep(Both, run, R.OfDispatcher(R.CountOne));
    assert Exec(Both, run).rcv ==
           AfterQueue.(order := Reorder(2, map[], 0, 0), acks := Begin(InitialAcks), disp := R.Publishing(1, [], 1));
    run := Acknowledging(Both, run);
  }

  /** The worker's send fails, and unregistering then reports idle although the ACK of a published
      payload was never accepted and the connection is not closed yet. */
  lemma FailedAckIsOvertaken() returns (run: seq<Event>)
    ensures var r := Exec(Both, run).rcv;
            && r.acks.idle.None? && !r.closed && r.waiter == R.NoWait && r.out.published == [[7]]
            && r.acks.failed && r.acks.acceptedMax == 0 && r.acks.lost == r.acks.queuedMax == 1
  {
    run := OneQueued();
    run := RcvStep(Both, run, R.OfWorker(R.WakeUp));
    run := RcvStep(Both, run, R.OfWorker(R.PickUp));
    assert Exec(Both, run).rcv.acks.worker == Sending(1);
    run := RcvStep(Both, run, R.OfWorker(R.SendReturns(false)));
    run := RcvStep(Both, run, R.OfWorker(R.SettleUp));
    run := RcvStep(Both, run, R.OfDispatcher(R.Unregister));
  }

  /** A Close that begins then gets past its wait at once, with a published payload not acknowledged. */
  lemma CloseOvertakesFailedAck() returns (run: seq<Event>)
    ensures var r := Exec(Both, run).rcv;
            !r.closed && r.waiter == R.IdleSeen(1) && r.acks.acceptedMax == 0 && r.acks.lost == 1
  {
    run := FailedAckIsOvertaken();
    run := RcvStep(Both, run, R.OfApp(R.StartWait));
    run := RcvStep(Both, run, R.OfApp(R.EndWait));
  }
}
