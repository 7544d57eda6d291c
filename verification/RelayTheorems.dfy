/** What the Relay promises in reliable-ordered mode, for every run of a link: any interleaving of
    callers, sendLoop, workers, retransmission, reader, dispatcher, ACK worker and application, and
    any loss, repetition and reordering of DATA and ACK frames. */
module RelayTheorems {
  import opened RelayTypes
  import opened SendWindow
  import opened ReorderBuffer
  import opened AckWorker
  import S = RelaySender
  import SP = RelaySenderProofs
  import R = RelayReceiver
  import RI = RelayReceiverInvariant
  import RP = RelayReceiverProofs
  import RE = RelayReceiverEndings
  import opened RelayLink

  /** The payloads on the receiver's channel are the first k the sender numbered, in order and once
      each, with k between the retired and the numbered frames; the sender numbers payloads in the
      order Send accepted them; and every frame not yet published is still kept for resending. */
  lemma EndToEnd(c: Configs, run: seq<Event>)
    ensures var l := Exec(c, run); var k := |l.rcv.out.published|;
            && l.snd.win.sendBase - 1 <= k <= |l.snd.numbered| == l.snd.win.nextSeq - 1
            && l.rcv.out.published == l.snd.numbered[..k]
            && l.snd.numbered <= l.snd.queued
            && l.rcv.out.consumed <= l.rcv.out.published
            && forall s :: k < s < l.snd.win.nextSeq ==>
                 s in l.snd.win.unacked && l.snd.win.unacked[s] == l.snd.numbered[s - 1]
  {
    RunKeeps(c, run);
  }

  /** unacked is exactly the interval [sendBase, nextSeq), no larger than the window; every
      transmission of a number carries one payload; acceptance RPCs stay within their limit. */
  lemma SenderWindow(c: Configs, run: seq<Event>)
    ensures var l := Exec(c, run);
            && (forall s :: s in l.snd.win.unacked <==> l.snd.win.sendBase <= s < l.snd.win.nextSeq)
            && |l.snd.win.unacked| <= AsUint64(c.sender.windowSize)
            && (forall f, g :: f in l.data && g in l.data && f.Data? && g.Data? && f.seqNo == g.seqNo ==> f == g)
            && |l.snd.outstanding| <= l.snd.inflight <= InflightLimit(c.sender)
  {
    RunKeeps(c, run);
    var l := Exec(c, run);
    WindowSizeBound(c.sender, l.snd.win, l.snd.numbered);
    OnePayload(l.data, l.snd.numbered);
  }

  lemma OnePayload(data: set<Frame>, numbered: seq<Payload>)
    requires forall f :: f in data ==> Fits(f, numbered)
    ensures forall f, g :: f in data && g in data && f.Data? && g.Data? && f.seqNo == g.seqNo ==> f == g
  {
  }

  /** Retransmission rounds are paid for by acknowledged frames. */
  lemma RetryBound(c: Configs, run: seq<Event>)
    ensures Exec(c, run).snd.rounds <= c.sender.maxRetransmits * Exec(c, run).snd.win.sendBase
  {
    RunKeeps(c, run);
    PaidBound(c.sender, Exec(c, run).snd);
  }

  lemma PaidBound(cfg: Config, s: S.Sender)
    requires SP.RetryInv(cfg, s)
    ensures s.rounds <= cfg.maxRetransmits * s.win.sendBase
  {
    SP.PaidIsProduct(cfg.maxRetransmits, s.win.sendBase);
  }

  /** Behind the admission gate handleData never sees a duplicate, an old frame or one outside the
      window: its frame is expected or goes into the reorder buffer as a new entry. */
  lemma AdmissionIsExact(c: Configs, run: seq<Event>)
    requires Exec(c, run).rcv.disp.Took? && Exec(c, run).rcv.disp.frame.Data?
    ensures var r := Exec(c, run).rcv; var f := r.disp.frame;
            && f.seqNo >= r.order.expectedSeq && f.seqNo !in r.order.recvBuf
            && f.seqNo - r.order.expectedSeq < GateWindow(c.receiver)
            && HandleData(c.receiver, r.order, f.seqNo, f.payload).Handled?
  {
    RunKeeps(c, run);
    var r := Exec(c, run).rcv;
    RP.HandleFrameFrame(c.receiver, r);
    RP.HeadIsAdmissible(c.receiver, r.order, RI.Pending(r), {});
    RP.HandleKeepsPipe(c.receiver, r.order, RI.Pending(r), r.disp.frame.payload);
  }

  /** The frames held by one connection never exceed the receive budget. */
  lemma StorageBound(c: Configs, run: seq<Event>)
    ensures RI.Stored(Exec(c, run).rcv) <= c.receiver.recvCap + 2 * GateWindow(c.receiver)
  {
    RunKeeps(c, run);
  }

  /** When a CLOSE frame exists, nothing is queued or unacknowledged, no first transmission is
      outstanding, and the peer's channel has received every payload whose Send returned nil. */
  lemma CloseBarrier(c: Configs, run: seq<Event>)
    requires Close in Exec(c, run).data
    ensures var l := Exec(c, run);
            && l.snd.sendCh == [] && l.snd.win.unacked == map[] && l.snd.outstanding == map[]
            && l.rcv.out.published == l.snd.queued
  {
    RunKeeps(c, run);
    AllAcknowledged(c, Exec(c, run));
  }

  lemma AllAcknowledged(c: Configs, l: Link)
    requires LinkInv(c, l) && l.snd.flushed && l.snd.win.unacked == map[]
    ensures l.rcv.out.published == l.snd.queued
  {
    assert l.snd.win.sendBase !in l.snd.win.unacked;
    assert |l.rcv.out.published| == |l.snd.numbered|;
  }

  /** The same holds at the moment the CLOSE frame is emitted. */
  lemma CloseBarrierAtEmission(c: Configs, run: seq<Event>)
    requires S.CanEmitClose(Exec(c, run).snd)
    ensures var l := Exec(c, run);
            && l.snd.sendCh == [] && l.snd.win.unacked == map[] && l.snd.outstanding == map[]
            && l.rcv.out.published == l.snd.queued
  {
    RunKeeps(c, run);
    AllAcknowledged(c, Exec(c, run));
  }

  /** In every reachable open state, a step of the dispatcher closes the connection if and only if it holds
      a terminal frame and the idle channel it waits for is gone; and the close counts as remote exactly
      when that frame is a CLOSE. */
  lemma DispatcherClosesIff(c: Configs, run: seq<Event>, e: R.DispatchEvent)
    requires !Exec(c, run).rcv.closed
    ensures var r := Exec(c, run).rcv; var t := R.StepDispatcher(c.receiver, r, e);
            && (t.closed <==>
                  && e == R.PassTerminal && r.disp.AwaitingIdle?
                  && (r.disp.channel.None? || r.acks.idle != r.disp.channel))
            && (t.closed ==> r.disp.frame.Terminal() && (t.remoteClosed <==> r.disp.frame == Close))
  {
    assert RI.TerminalInv(Exec(c, run).rcv) by { RunKeeps(c, run); }
    DispatchClosesIff(c.receiver, Exec(c, run).rcv, e);
  }

  lemma DispatchClosesIff(cfg: Config, r: R.Receiver, e: R.DispatchEvent)
    requires !r.closed && (r.disp.AwaitingIdle? ==> r.disp.frame.Terminal())
    ensures var t := R.StepDispatcher(cfg, r, e);
            && (t.closed <==>
                  && e == R.PassTerminal && r.disp.AwaitingIdle?
                  && (r.disp.channel.None? || r.acks.idle != r.disp.channel))
            && (t.closed ==> r.disp.frame.Terminal() && (t.remoteClosed <==> r.disp.frame == Close))
  {
  }

  /** The first close decides: neither it nor its source is ever taken back. */
  lemma {:induction false} CloseStays(c: Configs, run: seq<Event>, more: seq<Event>)
    requires Exec(c, run).rcv.closed
    ensures Exec(c, run + more).rcv.closed && Exec(c, run + more).rcv.remoteClosed == Exec(c, run).rcv.remoteClosed
  {
    if more == [] {
      assert run + more == run;
    } else {
      CloseStays(c, run, more[..|more| - 1]);
      assert (run + more)[..|run + more| - 1] == run + more[..|more| - 1];
    }
  }

  /** When the dispatcher closes an open connection on the peer's CLOSE, then from there on, whatever
      follows, the channel has carried exactly what was sent, and a receive returns an error only when
      the application has taken all of it, in order. */
  lemma GracefulClose(c: Configs, run: seq<Event>, more: seq<Event>)
    requires var r := Exec(c, run).rcv; !r.closed && r.disp.AwaitingIdle? && r.disp.frame == Close
    requires Exec(c, run + [ReceiverStep(R.OfDispatcher(R.PassTerminal))]).rcv.closed
    ensures var l := Exec(c, run + [ReceiverStep(R.OfDispatcher(R.PassTerminal))] + more);
            && l.rcv.remoteClosed && l.rcv.out.published == l.snd.queued
            && (l.rcv.out.ended ==> l.rcv.out.consumed == l.snd.queued)
  {
    var closing := run + [ReceiverStep(R.OfDispatcher(R.PassTerminal))];
    assert closing[..|run|] == run;
    CloseStays(c, closing, more);
    RemoteCloseIsComplete(c, closing + more);
  }

  lemma RemoteCloseIsComplete(c: Configs, run: seq<Event>)
    requires Exec(c, run).rcv.remoteClosed
    ensures var l := Exec(c, run);
            && l.rcv.out.published == l.snd.queued
            && (l.rcv.out.ended ==> l.rcv.out.consumed == l.snd.queued)
  {
    RunKeeps(c, run);
    CloseBarrier(c, run);
  }

  /** In every reachable open state, a step of a retransmission round closes the connection if and only if
      it begins a round with frames unacknowledged and the retry budget spent. */
  lemma RoundClosesIff(c: Configs, run: seq<Event>, e: S.RetryEvent)
    requires Exec(c, run).snd.state != Closed
    ensures var s := Exec(c, run).snd;
            S.StepRetry(c.sender, s, e).state == Closed <==>
              && e == S.BeginResend && s.round == S.Armed
              && s.win.sendBase < s.win.nextSeq && s.win.retransCnt >= c.sender.maxRetransmits
  {
    var s := Exec(c, run).snd;
    assert WindowInv(c.sender, s.win, s.numbered) by { RunKeeps(c, run); }
    RoundStepClosesIff(c.sender, s, e);
  }

  lemma RoundStepClosesIff(cfg: Config, s: S.Sender, e: S.RetryEvent)
    requires s.state != Closed && WindowInv(cfg, s.win, s.numbered)
    ensures S.StepRetry(cfg, s, e).state == Closed <==>
              && e == S.BeginResend && s.round == S.Armed
              && s.win.sendBase < s.win.nextSeq && s.win.retransCnt >= cfg.maxRetransmits
  {
    RoundResendsAll(cfg, s.win, s.numbered);
  }

  /** A Flush that returned nil: the payloads queued before it took the lock are on the peer's
      channel, whatever was queued since. */
  lemma FlushBarrier(c: Configs, run: seq<Event>, before: nat)
    requires before in Exec(c, run).snd.flushedBefore
    ensures var l := Exec(c, run);
            && before <= |l.rcv.out.published| && before <= |l.snd.queued|
            && l.rcv.out.published[..before] == l.snd.queued[..before]
  {
    RunKeeps(c, run);
    EndToEnd(c, run);
  }

  /** The coalescing worker forgets nothing: outstanding work keeps an idle channel open, and until a send
      fails nothing else does; on an open connection with no failed send a pending ACK has a live worker
      that will pick it up; and with no channel open the ACK of everything published has been accepted
      or has failed, so the highest ACK accepted is the highest queued exactly when no higher ACK has
      failed. */
  lemma AckCoalescing(c: Configs, run: seq<Event>)
    ensures var r := Exec(c, run).rcv;
            && (r.acks.generating > 0 || r.acks.sending || r.acks.pending.Some? ==> r.acks.idle.Some?)
            && (!r.acks.failed ==>
                  (r.acks.idle.Some? <==> r.acks.generating > 0 || r.acks.sending || r.acks.pending.Some?))
            && (r.acks.pending.Some? && !r.acks.failed && !r.closed ==>
                  r.acks.worker != Stopped && (r.acks.token || r.acks.worker != Asleep))
            && (r.acks.idle.None? ==>
                  (r.acks.acceptedMax == r.acks.queuedMax <==> r.acks.lost <= r.acks.acceptedMax))
            && (!r.acks.failed ==> r.acks.lost == 0)
            && (r.acks.idle.None? && !r.closed ==> Max(r.acks.acceptedMax, r.acks.lost) == |r.out.published|)
  {
    RunKeeps(c, run);
    var r := Exec(c, run).rcv;
    if r.acks.idle.None? {
      IdleMeansAccepted(r.acks);
      if !r.closed { RE.IdleMeansSettled(r); }
    }
  }

  /** A local Close that got past waitReceiveACK, in any run: everything published before it began to wait
      is covered by an ACK that was accepted or by one that failed; by an accepted one if no higher ACK
      has failed. */
  lemma CloseWaitsForAcks(c: Configs, run: seq<Event>)
    requires Exec(c, run).rcv.waiter.IdleSeen?
    ensures var r := Exec(c, run).rcv;
            && r.waiter.need <= Max(r.acks.acceptedMax, r.acks.lost) <= |r.out.published|
            && (r.acks.lost <= r.acks.acceptedMax ==> r.waiter.need <= r.acks.acceptedMax)
  {
    RunKeeps(c, run);
  }

  /** A remote CLOSE that has taken effect, in any run: the ACK of everything published was accepted or
      failed, and it was accepted if and only if no higher ACK than the highest accepted one has failed. */
  lemma RemoteCloseWaitsForAcks(c: Configs, run: seq<Event>)
    requires Exec(c, run).rcv.remoteClosed
    ensures var r := Exec(c, run).rcv;
            && Max(r.acks.acceptedMax, r.acks.lost) == |r.out.published|
            && (r.acks.acceptedMax == |r.out.published| <==> r.acks.lost <= r.acks.acceptedMax)
  {
    RunKeeps(c, run);
  }

  // Terminal frames

  /** DATA is dispatched in admission order, and all of it before a terminal frame. */
  lemma TerminalOrder(c: Configs, run: seq<Event>)
    ensures var r := Exec(c, run).rcv;
            && r.log.dispatched <= r.log.admitted
            && (RI.AtTerminal(r.disp) || r.remoteClosed ==> r.log.dispatched == r.log.admitted)
  {
    RunKeeps(c, run);
    var r := Exec(c, run).rcv;
    if RI.AtTerminal(r.disp) { RE.NoDataNoSeqs(r.gate.inbox); }
  }

  /** Once a terminal frame is admitted, no DATA is admitted and no ACK applied, in any continuation of
      the run. What else may arrive, and that it can overflow the inbox, is in `RelayOverflow`. */
  lemma {:induction false} TerminalFreezes(c: Configs, run: seq<Event>, more: seq<Event>)
    requires Exec(c, run).rcv.gate.terminal
    ensures var r := Exec(c, run).rcv; var t := Exec(c, run + more).rcv;
            t.gate.terminal && t.log.admitted == r.log.admitted && t.log.ackApplied == r.log.ackApplied
  {
    if more == [] {
      assert run + more == run;
    } else {
      var shorter := run + more[..|more| - 1];
      TerminalFreezes(c, run, more[..|more| - 1]);
      assert run + more == shorter + [more[|more| - 1]];
      assert (run + more)[..|run + more| - 1] == shorter;
      RunKeeps(c, shorter);
      StepFreezes(c, Exec(c, shorter), more[|more| - 1]);
    }
  }

  lemma StepFreezes(c: Configs, l: Link, e: Event)
    requires RI.ReaderInv(c.receiver, l.rcv) && RI.TerminalInv(l.rcv) && l.rcv.gate.terminal
    ensures Frozen(l.rcv, Step(c, l, e).rcv)
  {
    if e.ReceiverStep? && Possible(l, e) {
      match e.recv
      case OfReader(x) => ReaderFreezes(c.receiver, l.rcv, x);
      case OfDispatcher(x) => DispatcherFreezes(c.receiver, l.rcv, x);
      case OfWorker(x) => OthersFreeze(l.rcv, x, R.Abort);
      case OfApp(x) => OthersFreeze(l.rcv, R.SendAck, x);
    }
  }

  ghost predicate Frozen(r: R.Receiver, t: R.Receiver) {
    t.gate.terminal && t.log.admitted == r.log.admitted && t.log.ackApplied == r.log.ackApplied
  }

  lemma OthersFreeze(r: R.Receiver, w: R.WorkerEvent, a: R.AppEvent)
    requires r.gate.terminal
    ensures Frozen(r, R.StepWorker(r, w)) && Frozen(r, R.StepApp(r, a))
  {
  }

  lemma ReaderFreezes(cfg: Config, r: R.Receiver, e: R.ReaderEvent)
    requires RI.ReaderInv(cfg, r) && r.gate.terminal
    ensures Frozen(r, R.StepReader(cfg, r, e))
  {
  }

  lemma DispatcherFreezes(cfg: Config, r: R.Receiver, e: R.DispatchEvent)
    requires RI.TerminalInv(r) && r.gate.terminal
    ensures Frozen(r, R.StepDispatcher(cfg, r, e))
  {
  }

  /** Runs only extend what was published. */
  lemma {:induction false} PublishedIsStable(c: Configs, run: seq<Event>, more: seq<Event>)
    ensures Exec(c, run).rcv.out.published <= Exec(c, run + more).rcv.out.published
  {
    if more == [] {
      assert run + more == run;
    } else {
      var shorter := run + more[..|more| - 1];
      PublishedIsStable(c, run, more[..|more| - 1]);
      assert run + more == shorter + [more[|more| - 1]];
      assert (run + more)[..|run + more| - 1] == shorter;
      var l := Exec(c, shorter);
      if more[|more| - 1].ReceiverStep? { PublishedGrows(c.receiver, l.rcv, more[|more| - 1].recv); }
    }
  }
}
