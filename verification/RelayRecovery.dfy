/** Recovery from loss: whatever the network did, one retransmission round can deliver and
    acknowledge everything that was numbered. */
module RelayRecovery {
  import opened RelayTypes
  import opened SendWindow
  import opened AckWorker
  import S = RelaySender
  import R = RelayReceiver
  import opened RelayLink
  import opened RelayProgress
  import opened RelaySettle
  import opened RelayTheorems

  // The sender puts every unacknowledged frame on the wire again

  /** One frame of the round: slot, launch, transmission, acceptance. */
  lemma ResendOne(c: Configs, run: seq<Event>) returns (next: seq<Event>)
    requires var s := Exec(c, run).snd;
             && s.round.Round? && s.round.todo != [] && !s.round.slot && s.round.sending == map[]
             && s.inflight == 0 && S.StillPending(s, s.round.todo[0].0)
    ensures run <= next
    ensures var l := Exec(c, run); var todo := l.snd.round.todo;
            Exec(c, next) == l.(snd := l.snd.(round := S.Round(todo[1..], false, map[])),
                                data := l.data + {Data(todo[0].0, todo[0].1)})
  {
    var l := Exec(c, run);
    var todo := l.snd.round.todo;
    next := SndStep(c, run, S.OfRetry(S.Slot));
    assert Exec(c, next) == l.(snd := l.snd.(round := S.Round(todo, true, map[]), inflight := 1));
    next := SndStep(c, next, S.OfRetry(S.Relaunch));
    var sent := l.snd.(round := S.Round(todo[1..], false, map[todo[0].0 := todo[0].1]), inflight := 1);
    assert Exec(c, next) == l.(snd := sent);
    next := SndStep(c, next, S.OfRetry(S.Retransmit(todo[0].0)));
    assert Exec(c, next) == l.(snd := sent, data := l.data + {Data(todo[0].0, todo[0].1)});
    next := SndStep(c, next, S.OfRetry(S.Reaccepted(todo[0].0)));
    assert map[todo[0].0 := todo[0].1] - {todo[0].0} == map[];
  }

  ghost predicate OnWire(todo: seq<(nat, Payload)>, data: set<Frame>) {
    forall i :: 0 <= i < |todo| ==> Data(todo[i].0, todo[i].1) in data
  }

  lemma {:induction false} ResendRest(c: Configs, run: seq<Event>) returns (next: seq<Event>)
    requires var s := Exec(c, run).snd;
             && s.round.Round? && !s.round.slot && s.round.sending == map[] && s.inflight == 0
             && forall i :: 0 <= i < |s.round.todo| ==> S.StillPending(s, s.round.todo[i].0)
    ensures run <= next
    ensures var l := Exec(c, run); var t := Exec(c, next);
            && t.snd == l.snd.(round := S.NoRound) && t.rcv == l.rcv && l.data <= t.data
            && OnWire(l.snd.round.todo, t.data)
    decreases |Exec(c, run).snd.round.todo|
  {
    var l := Exec(c, run);
    if l.snd.round.todo == [] {
      next := SndStep(c, run, S.OfRetry(S.End));
    } else {
      var first := ResendOne(c, run);
      next := ResendRest(c, first);
      var todo, data := l.snd.round.todo, Exec(c, next).data;
      assert Data(todo[0].0, todo[0].1) in data;
      assert forall i :: 1 <= i < |todo| ==> todo[i] == todo[1..][i - 1];
    }
  }

  ghost predicate Sent(n: nat, numbered: seq<Payload>, data: set<Frame>) {
    1 <= n <= |numbered| && Data(n, numbered[n - 1]) in data
  }

  /** Every frame the sender still keeps is on the wire. */
  ghost predicate KeptOnWire(l: Link) {
    forall n :: l.snd.win.sendBase <= n < l.snd.win.nextSeq ==> Sent(n, l.snd.numbered, l.data)
  }

  /** What a round changes in the sending half: the retry count, and that it is over. */
  ghost predicate RoundOver(s: S.Sender, t: S.Sender) {
    t == s.(round := S.NoRound, win := s.win.(retransCnt := t.win.retransCnt), rounds := t.rounds)
  }

  /** The round begins, after the ACK timer if nobody has asked for it. */
  lemma StartResend(c: Configs, run: seq<Event>) returns (next: seq<Event>)
    requires var s := Exec(c, run).snd;
             Resting(s) && WindowInv(c.sender, s.win, s.numbered) && s.win.retransCnt < c.sender.maxRetransmits
    ensures run <= next
    ensures var l := Exec(c, run); var w := l.snd.win;
            Exec(c, next) ==
              if w.sendBase == w.nextSeq then l.(snd := l.snd.(round := S.NoRound))
              else l.(snd := l.snd.(win := w.(retransCnt := w.retransCnt + 1), rounds := l.snd.rounds + 1,
                                    round := S.Round(Snapshot(w.unacked, w.sendBase, w.nextSeq), false, map[])))
  {
    var l := Exec(c, run);
    RoundResendsAll(c.sender, l.snd.win, l.snd.numbered);
    next := run;
    if l.snd.round == S.NoRound { next := SndStep(c, run, S.OfRetry(S.Timer)); }
    assert Exec(c, next) == l.(snd := l.snd.(round := S.Armed));
    next := SndStep(c, next, S.OfRetry(S.BeginResend));
    if l.snd.win.sendBase == l.snd.win.nextSeq { assert l.snd.win.unacked.Keys == {}; }
    assert l.data + {} == l.data;
  }

  lemma ResendAll(c: Configs, run: seq<Event>) returns (next: seq<Event>)
    requires var s := Exec(c, run).snd;
             Resting(s) && WindowInv(c.sender, s.win, s.numbered) && s.win.retransCnt < c.sender.maxRetransmits
    ensures run <= next && KeptOnWire(Exec(c, next))
    ensures var l := Exec(c, run); var t := Exec(c, next);
            && t.rcv == l.rcv && RoundOver(l.snd, t.snd)
            && (l.snd.win.sendBase == l.snd.win.nextSeq ==> t.snd.win == l.snd.win)
  {
    var s := Exec(c, run).snd;
    next := StartResend(c, run);
    if s.win.sendBase < s.win.nextSeq {
      RoundResendsAll(c.sender, s.win, s.numbered);
      var todo := Exec(c, next).snd.round.todo;
      next := ResendRest(c, next);
      forall n | s.win.sendBase <= n < s.win.nextSeq
        ensures Sent(n, s.numbered, Exec(c, next).data)
      {
        assert todo[n - s.win.sendBase] == (n, s.numbered[n - 1]);
      }
    }
  }

  // The receiver takes them all

  lemma {:induction false} TakeAll(c: Configs, run: seq<Event>) returns (next: seq<Event>)
    requires var l := Exec(c, run); c.receiver.recvCap >= 1 && Quiet(l.rcv) && KeptOnWire(l)
    ensures run <= next
    ensures var l := Exec(c, run); var t := Exec(c, next);
            && Quiet(t.rcv) && t.snd == l.snd && t.data == l.data && t.rcv.acks.worker == l.rcv.acks.worker
            && t.rcv.order.expectedSeq == l.snd.win.nextSeq
    decreases Exec(c, run).snd.win.nextSeq - Exec(c, run).rcv.order.expectedSeq
  {
    var l := Exec(c, run);
    QuietBounds(c, run);
    if l.rcv.order.expectedSeq == l.snd.win.nextSeq {
      next := run;
    } else {
      assert Sent(l.rcv.order.expectedSeq, l.snd.numbered, l.data);
      next := ExpectedFrameIsTaken(c, run, l.snd.numbered[l.rcv.order.expectedSeq - 1]);
      QuietBounds(c, next);
      next := TakeAll(c, next);
    }
  }

  /** A quiet receiver has published, delivered and counted everything below the frame it expects. */
  lemma QuietBounds(c: Configs, run: seq<Event>)
    requires Quiet(Exec(c, run).rcv)
    ensures var l := Exec(c, run); var k := l.rcv.order.expectedSeq - 1;
            && l.snd.win.sendBase - 1 <= k <= |l.snd.numbered| == l.snd.win.nextSeq - 1
            && l.rcv.out.published == l.snd.numbered[..k] && l.rcv.order.recvDelivered == k
            && PendingAck(l.rcv.acks) <= k
  {
    RunKeeps(c, run);
    EndToEnd(c, run);
    WithinQueued(Exec(c, run).rcv.acks);
  }

  lemma WithinQueued(a: Acks)
    requires AcksInv(a)
    ensures PendingAck(a) <= a.queuedMax
  {
  }

  // A repeated frame brings the ACK back

  /** A frame delivered before makes the gate replay the watermark, and the worker send it. */
  lemma ReplayWatermark(c: Configs, run: seq<Event>, f: Frame) returns (next: seq<Event>)
    requires f.Data? && f in Exec(c, run).data
    requires var r := Exec(c, run).rcv;
             && Quiet(r) && f.seqNo !in r.gate.inboxSeq && f.seqNo !in r.order.recvBuf
             && f.seqNo < r.order.expectedSeq && r.order.recvDelivered > 0
             && r.acks.worker == Asleep && PendingAck(r.acks) <= r.order.recvDelivered
    ensures run <= next
    ensures var l := Exec(c, run); var t := Exec(c, next);
            && t.snd == l.snd && t.data == l.data && t.rcv.out == l.rcv.out
            && l.rcv.order.recvDelivered in t.acks
            && Quiet(t.rcv) && t.rcv.acks.worker.Sending?
  {
    var r := Exec(c, run).rcv;
    var n := r.order.recvDelivered;
    GateReplaysIff(c.receiver, r.closed, r.order, r.gate, f, n);
    next := RcvStep(c, run, R.OfReader(R.Arrive(f)));
    assert Exec(c, next).rcv == r.(reader := R.Replaying(n));
    next := RcvStep(c, next, R.OfReader(R.Replay));
    assert Exec(c, next).rcv == r.(acks := Queue(r.acks, n));
    next := RcvStep(c, next, R.OfWorker(R.WakeUp));
    next := RcvStep(c, next, R.OfWorker(R.PickUp));
    assert Exec(c, next).rcv.acks.worker == Sending(n);
    var sent := next + [ReceiverStep(R.OfWorker(R.SendAck))];
    assert sent[..|next|] == next;
    next := sent;
  }

  /** The delivered ACK empties the window. */
  lemma DeliverAck(c: Configs, run: seq<Event>, n: nat) returns (next: seq<Event>)
    requires var l := Exec(c, run);
             && n in l.acks && WindowInv(c.sender, l.snd.win, l.snd.numbered)
             && l.snd.win.sendBase <= n == |l.snd.numbered|
    ensures run <= next
    ensures var l := Exec(c, run); var t := Exec(c, next);
            && t.rcv == l.rcv && t.snd == l.snd.(win := t.snd.win)
            && t.snd.win.unacked == map[] && t.snd.win.retransCnt == 0
  {
    next := run + [AckDelivery(n)];
    assert next[..|run|] == run;
    AckRetiresExactly(c.sender, Exec(c, run).snd.win, Exec(c, run).snd.numbered, n);
    HandleAckKeepsWindow(c.sender, Exec(c, run).snd.win, Exec(c, run).snd.numbered, n);
  }

  // Recovery

  /** The link can still carry data: neither half is closed or about to close, the ACK worker is at
      work, and the retry budget is not spent. */
  ghost predicate Live(c: Configs, l: Link) {
    && c.receiver.recvCap >= 1 && l.snd.state != Closed && l.snd.win.retransCnt < c.sender.maxRetransmits
    && Receiving(c.receiver, l.rcv) && Working(l.rcv.acks.worker)
  }

  /** Everything numbered is published and acknowledged. */
  ghost predicate Delivered(l: Link) {
    l.rcv.out.published == l.snd.numbered && l.snd.win.unacked == map[]
  }

  /** From rest: the round, the frames it resends, one repeated frame, and the ACK it calls for. */
  lemma RecoverFromRest(c: Configs, run: seq<Event>) returns (next: seq<Event>)
    requires var l := Exec(c, run);
             && Live(c, l) && Resting(l.snd) && Quiet(l.rcv) && l.rcv.acks.worker == Asleep
    ensures run <= next
    ensures var l := Exec(c, run); var t := Exec(c, next);
            && Live(c, t) && Delivered(t)
            && t.snd == l.snd.(round := S.NoRound, win := t.snd.win, rounds := t.snd.rounds)
  {
    WindowKept(c, run);
    next := ResendAll(c, run);
    next := TakeAll(c, next);
    QuietBounds(c, next);
    WindowKept(c, next);
    var m := Exec(c, next);
    if m.snd.win.sendBase < m.snd.win.nextSeq {
      assert Sent(m.snd.win.sendBase, m.snd.numbered, m.data);
      var f := Data(m.snd.win.sendBase, m.snd.numbered[m.snd.win.sendBase - 1]);
      OldFrameIsNew(c, next, m.snd.win.sendBase);
      next := ReplayWatermark(c, next, f);
      next := DeliverAck(c, next, m.rcv.order.recvDelivered);
    } else {
      assert m.snd.win.unacked.Keys == {};
    }
  }

  /** From every reachable live state, whatever was lost on the way there and whatever the goroutines
      have in hand, some continuation publishes every numbered payload and acknowledges it, and
      leaves the link live and sendLoop ready for the next item. */
  lemma OneRoundRecovers(c: Configs, run: seq<Event>) returns (next: seq<Event>)
    requires Live(c, Exec(c, run))
    ensures run <= next
    ensures var l := Exec(c, run); var t := Exec(c, next);
            && Live(c, t) && Delivered(t) && Resting(t.snd) && t.snd.round == S.NoRound
            && t.snd.numbered == l.snd.numbered && t.snd.queued == l.snd.queued && t.snd.sendCh == l.snd.sendCh
            && t.snd.closer == l.snd.closer && l.snd.waiting <= t.snd.waiting
            && (t.snd.loop.Windowing? <==> l.snd.loop.Windowing?)
  {
    next := SettleSender(c, run);
    next := SettleReceiver(c, next);
    next := SettleWorker(c, next);
    next := RecoverFromRest(c, next);
    next := SettleSender(c, next);
  }

  /** Items sendLoop has yet to number or pass, counting the payload that waits for the window. */
  function ItemsLeft(s: S.Sender): nat {
    2 * |s.sendCh| + if s.loop.Windowing? then 1 else 0
  }

  /** From every reachable live state some continuation delivers everything: all payloads whose Send
      returned nil are published in order, and nothing is left unacknowledged. */
  lemma {:induction false} EverythingQueuedArrives(c: Configs, run: seq<Event>) returns (next: seq<Event>)
    requires Live(c, Exec(c, run)) && c.sender.windowSize != 0
    ensures run <= next && Live(c, Exec(c, next))
    ensures var t := Exec(c, next);
            && t.rcv.out.published == t.snd.queued == Exec(c, run).snd.queued
            && t.snd.sendCh == [] && t.snd.win.unacked == map[] && t.snd.loop == S.Selecting
            && t.snd.closer == Exec(c, run).snd.closer && Exec(c, run).snd.waiting <= t.snd.waiting
    decreases ItemsLeft(Exec(c, run).snd)
  {
    next := OneRoundRecovers(c, run);
    var s := Exec(c, next).snd;
    if s.loop.Windowing? {
      RoomWhenEmpty(c, next);
      next := SndStep(c, next, S.OfLoop(S.NumberNext));
      next := EverythingQueuedArrives(c, next);
    } else if s.sendCh != [] {
      next := SndStep(c, next, S.OfLoop(S.Take));
      next := EverythingQueuedArrives(c, next);
    } else {
      AllNumbered(c, next);
    }
  }

  lemma RoomWhenEmpty(c: Configs, run: seq<Event>)
    requires Exec(c, run).snd.win.unacked == map[] && c.sender.windowSize != 0
    ensures HasRoom(c.sender, Exec(c, run).snd.win)
  {
    WindowKept(c, run);
    var w := Exec(c, run).snd.win;
    assert w.sendBase !in w.unacked;
  }

  lemma AllNumbered(c: Configs, run: seq<Event>)
    requires Exec(c, run).snd.sendCh == [] && Exec(c, run).snd.loop == S.Selecting
    ensures Exec(c, run).snd.queued == Exec(c, run).snd.numbered
  {
    RunKeeps(c, run);
  }

  lemma WindowKept(c: Configs, run: seq<Event>)
    ensures WindowInv(c.sender, Exec(c, run).snd.win, Exec(c, run).snd.numbered)
  {
    RunKeeps(c, run);
  }

  /** A quiet receiver holds no frame below the one it expects. */
  lemma OldFrameIsNew(c: Configs, run: seq<Event>, n: nat)
    requires Quiet(Exec(c, run).rcv) && n < Exec(c, run).rcv.order.expectedSeq
    ensures n !in Exec(c, run).rcv.gate.inboxSeq && n !in Exec(c, run).rcv.order.recvBuf
  {
    RunKeeps(c, run);
    QuietHasBudget(c.receiver, Exec(c, run).rcv);
  }
}
