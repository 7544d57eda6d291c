/** One direction of a Relay connection: the sending half of one endpoint, the receiving half of
    its peer, and a network that may lose, repeat and reorder whatever was ever sent. */
module RelayLink {
  import opened RelayTypes
  import opened SendWindow
  import opened ReorderBuffer
  import opened AckWorker
  import S = RelaySender
  import SP = RelaySenderProofs
  import R = RelayReceiver
  import RI = RelayReceiverInvariant
  import RP = RelayReceiverProofs
  import RE = RelayReceiverEndings

  /** `data` and `acks` are the frames and ACKs ever put on the wire. */
  datatype Link = Link(snd: S.Sender, rcv: R.Receiver, data: set<Frame>, acks: set<nat>)

  const InitialLink := Link(S.InitialSender, R.InitialReceiver, {}, {})

  /** The two configurations are not negotiated and may differ. */
  datatype Configs = Configs(sender: Config, receiver: Config)

  datatype Event =
    | SenderStep(send: S.SenderEvent)
    | ReceiverStep(recv: R.ReceiverEvent)
    | AckDelivery(ackSeq: nat)

  /** DATA and CLOSE must have been sent; frames of other kinds may turn up at any time. */
  predicate Deliverable(l: Link, f: Frame) {
    f.Data? || f.Close? ==> f in l.data
  }

  predicate Possible(l: Link, e: Event) {
    match e
    case SenderStep(_) => true
    case ReceiverStep(OfReader(Arrive(f))) => Deliverable(l, f)
    case ReceiverStep(_) => true
    case AckDelivery(ackSeq) => ackSeq in l.acks
  }

  function Step(c: Configs, l: Link, e: Event): Link {
    if !Possible(l, e) then l
    else match e
      case SenderStep(x) => l.(snd := S.Step(c.sender, l.snd, x), data := l.data + S.Emit(l.snd, x))
      case ReceiverStep(x) => l.(rcv := R.Step(c.receiver, l.rcv, x), acks := l.acks + R.Emit(l.rcv, x))
      case AckDelivery(ackSeq) => l.(snd := S.ReceiveAck(l.snd, ackSeq))
  }

  /** The state after a run. Events that are not enabled do nothing, so every list is a run. */
  function Exec(c: Configs, run: seq<Event>): Link {
    if run == [] then InitialLink else Step(c, Exec(c, run[..|run| - 1]), run[|run| - 1])
  }

  // Payload agreement

  /** A DATA frame carries the payload its number was given to. */
  ghost predicate Fits(f: Frame, numbered: seq<Payload>) {
    f.Data? ==> 1 <= f.seqNo <= |numbered| && f.payload == numbered[f.seqNo - 1]
  }

  ghost predicate AllFit(frames: seq<Frame>, numbered: seq<Payload>) {
    forall i :: 0 <= i < |frames| ==> Fits(frames[i], numbered)
  }

  ghost predicate HasFrame(r: R.Reader) {
    r.Weighing? || r.Beginning? || r.Pushing?
  }

  /** Everything on the receiving side agrees with the numbering, and what is published together
      with the batch in hand is a prefix of it. */
  ghost predicate MatchInv(r: R.Receiver, numbered: seq<Payload>) {
    && AllFit(r.gate.inbox, numbered)
    && (HasFrame(r.reader) ==> Fits(r.reader.frame, numbered))
    && (r.disp.Took? ==> Fits(r.disp.frame, numbered))
    && SP.Faithful(r.order.recvBuf, numbered)
    && r.out.published + RI.Batch(r.disp) <= numbered
  }

  /** CLOSE frames on the receiving side were sent. */
  ghost predicate CloseTrace(r: R.Receiver, data: set<Frame>) {
    && (Close in r.gate.inbox ==> Close in data)
    && (HasFrame(r.reader) && r.reader.frame == Close ==> Close in data)
    && ((r.disp.Took? || r.disp.AwaitingIdle?) && r.disp.frame == Close ==> Close in data)
    && (r.remoteClosed ==> Close in data)
  }

  ghost predicate LinkInv(c: Configs, l: Link) {
    && SP.SenderInv(c.sender, l.snd)
    && RI.ReceiverInv(c.receiver, l.rcv)
    && MatchInv(l.rcv, l.snd.numbered)
    && CloseTrace(l.rcv, l.data)
    && (forall f :: f in l.data ==> Fits(f, l.snd.numbered))
    && (Close in l.data ==> l.snd.closer == S.CloseSent)
    && (forall a :: a in l.acks ==> a <= |l.rcv.out.published|)
    && l.snd.win.sendBase - 1 <= |l.rcv.out.published|
  }

  // Sender steps

  lemma NumberedGrows(c: Config, s: S.Sender, e: S.SenderEvent)
    requires SP.CloseInv(s) && s.win.sendBase > 0
    ensures var t := S.Step(c, s, e);
            && s.numbered <= t.numbered && t.win.sendBase == s.win.sendBase
            && (s.closer == S.CloseSent ==> t.closer == S.CloseSent)
  {
    match e
    case OfCaller(x) => SP.CallerFrame(s, x);
    case OfLoop(x) => LoopNumbers(c, s, x);
    case OfRetry(x) => SP.RetryFrame(c, s, x);
    case _ =>
  }

  lemma LoopNumbers(c: Config, s: S.Sender, e: S.LoopEvent)
    requires s.win.sendBase > 0
    ensures var t := S.StepLoop(c, s, e);
            s.numbered <= t.numbered && t.win.sendBase == s.win.sendBase && t.closer == s.closer
  {
  }

  lemma MatchGrows(r: R.Receiver, a: seq<Payload>, b: seq<Payload>)
    requires MatchInv(r, a) && a <= b
    ensures MatchInv(r, b)
  {
    assert forall k :: 0 <= k < |a| ==> a[k] == b[k];
  }

  lemma EmittedFit(c: Config, s: S.Sender, e: S.SenderEvent)
    requires SP.CarryInv(s)
    ensures forall f :: f in S.Emit(s, e) ==> Fits(f, s.numbered)
    ensures Close in S.Emit(s, e) ==> S.Step(c, s, e).closer == S.CloseSent
  {
  }

  lemma SenderStepKeeps(c: Configs, l: Link, e: S.SenderEvent)
    requires LinkInv(c, l)
    ensures LinkInv(c, Step(c, l, SenderStep(e)))
  {
    SP.StepKeeps(c.sender, l.snd, e);
    NumberedGrows(c.sender, l.snd, e);
    EmittedFit(c.sender, l.snd, e);
    var t := Step(c, l, SenderStep(e));
    MatchGrows(l.rcv, l.snd.numbered, t.snd.numbered);
    forall f | f in t.data ensures Fits(f, t.snd.numbered) { FitGrows(f, l.snd.numbered, t.snd.numbered); }
  }

  lemma FitGrows(f: Frame, a: seq<Payload>, b: seq<Payload>)
    requires a <= b
    ensures Fits(f, a) ==> Fits(f, b)
  {
    assert forall k :: 0 <= k < |a| ==> a[k] == b[k];
  }

  lemma AckDeliveryKeeps(c: Configs, l: Link, ackSeq: nat)
    requires LinkInv(c, l)
    ensures LinkInv(c, Step(c, l, AckDelivery(ackSeq)))
  {
    if ackSeq in l.acks {
      SP.AckKeeps(c.sender, l.snd, ackSeq);
      HandleAckKeepsWindow(c.sender, l.snd.win, l.snd.numbered, ackSeq);
    }
  }

  // Receiver steps

  lemma ReaderKeepsMatch(c: Config, r: R.Receiver, e: R.ReaderEvent, numbered: seq<Payload>)
    requires MatchInv(r, numbered) && (e.Arrive? ==> Fits(e.frame, numbered))
    ensures MatchInv(R.StepReader(c, r, e), numbered)
  {
  }

  lemma DispatcherKeepsMatch(c: Config, r: R.Receiver, e: R.DispatchEvent, numbered: seq<Payload>)
    requires MatchInv(r, numbered) && RI.ReceiverInv(c, r)
    ensures MatchInv(R.StepDispatcher(c, r, e), numbered)
  {
    match e
    case HandleFrame => HandleKeepsMatch(c, r, numbered);
    case Publish => PublishKeepsMatch(c, r, numbered);
    case _ => RestKeepsMatch(c, r, e, numbered);
  }

  lemma RestKeepsMatch(c: Config, r: R.Receiver, e: R.DispatchEvent, numbered: seq<Payload>)
    requires MatchInv(r, numbered) && e != R.HandleFrame && e != R.Publish
    ensures MatchInv(R.StepDispatcher(c, r, e), numbered)
  {
    var t := R.StepDispatcher(c, r, e);
    assert t.out == r.out && t.order.recvBuf == r.order.recvBuf && t.reader == r.reader;
    assert e != R.DropBatch ==> RI.Batch(t.disp) == RI.Batch(r.disp);
  }

  lemma PublishKeepsMatch(c: Config, r: R.Receiver, numbered: seq<Payload>)
    requires MatchInv(r, numbered)
    ensures MatchInv(R.PublishNext(c, r), numbered)
  {
    var t := R.PublishNext(c, r);
    assert t.out.published + RI.Batch(t.disp) == r.out.published + RI.Batch(r.disp);
  }

  lemma HandleKeepsMatch(c: Config, r: R.Receiver, numbered: seq<Payload>)
    requires MatchInv(r, numbered) && RI.PublishInv(r) && RI.OrderInv(c, r)
    ensures MatchInv(R.StepDispatcher(c, r, R.HandleFrame), numbered)
  {
    if r.disp.Took? {
      if r.disp.frame.Data? {
        HandleDataKeepsMatch(c, r, numbered);
      } else {
        var t := R.Dispatch(c, r, r.disp.frame);
        assert t.gate == r.gate && t.order == r.order && t.out == r.out && t.reader == r.reader;
        assert RI.Batch(t.disp) == RI.Batch(r.disp) == [];
      }
    }
  }

  lemma HandleDataKeepsMatch(c: Config, r: R.Receiver, numbered: seq<Payload>)
    requires r.disp.Took? && r.disp.frame.Data?
    requires MatchInv(r, numbered) && RI.PublishInv(r) && RI.PipeInv(c, r.order, RI.Pending(r), {})
    ensures MatchInv(R.Dispatch(c, r, r.disp.frame), numbered)
  {
    assert HandleData(c, r.order, r.disp.frame.seqNo, r.disp.frame.payload).Handled? by {
      RP.HandleFrameFrame(c, r);
      RP.HandleKeepsPipe(c, r.order, RI.Pending(r), r.disp.frame.payload);
    }
    HandledMatches(c, r, numbered);
  }

  lemma HandledMatches(c: Config, r: R.Receiver, numbered: seq<Payload>)
    requires r.disp.Took? && r.disp.frame.Data? && MatchInv(r, numbered)
    requires |r.out.published| == r.order.expectedSeq - 1
    requires HandleData(c, r.order, r.disp.frame.seqNo, r.disp.frame.payload).Handled?
    ensures MatchInv(R.Dispatch(c, r, r.disp.frame), numbered)
  {
    ReadyMatches(c, r.order, r.disp.frame, numbered);
    var h := HandleData(c, r.order, r.disp.frame.seqNo, r.disp.frame.payload);
    var n := |r.out.published|;
    assert r.out.published == numbered[..n];
    if h.ready != [] { assert r.out.published + h.ready == numbered[..n + |h.ready|]; }
  }

  /** The batch that handling releases continues the numbering where expectedSeq stood. */
  lemma ReadyMatches(c: Config, o: Reorder, f: Frame, numbered: seq<Payload>)
    requires f.Data? && Fits(f, numbered) && SP.Faithful(o.recvBuf, numbered)
    ensures var h := HandleData(c, o, f.seqNo, f.payload);
            h.Handled? ==>
              && SP.Faithful(h.order.recvBuf, numbered)
              && (h.ready != [] ==>
                    o.expectedSeq - 1 + |h.ready| <= |numbered|
                    && h.ready == numbered[o.expectedSeq - 1..o.expectedSeq - 1 + |h.ready|])
  {
    var h := HandleData(c, o, f.seqNo, f.payload);
    if f.seqNo == o.expectedSeq {
      var d := Drain(o.expectedSeq + 1, o.recvBuf);
      if d.ready != [] { assert d.next - 1 in o.recvBuf; }
      forall i | 0 <= i < |h.ready|
        ensures o.expectedSeq + i <= |numbered| && h.ready[i] == numbered[o.expectedSeq - 1 + i]
      {
        if i > 0 { assert o.expectedSeq + i in o.recvBuf; }
      }
    }
  }

  lemma ReceiverStepKeeps(c: Configs, l: Link, e: R.ReceiverEvent)
    requires LinkInv(c, l)
    ensures LinkInv(c, Step(c, l, ReceiverStep(e)))
  {
    if Possible(l, ReceiverStep(e)) {
      RE.StepKeeps(c.receiver, l.rcv, e);
      ReceiverKeepsMatch(c, l, e);
      ReceiverKeepsTrace(c, l, e);
      AcksStayBehind(c, l, e);
    }
  }

  /** ACKs on the wire and retired frames stay behind what is published. */
  lemma AcksStayBehind(c: Configs, l: Link, e: R.ReceiverEvent)
    requires RI.PublishInv(l.rcv) && AcksInv(l.rcv.acks)
    requires forall a :: a in l.acks ==> a <= |l.rcv.out.published|
    ensures var t := R.Step(c.receiver, l.rcv, e);
            && |l.rcv.out.published| <= |t.out.published|
            && forall a :: a in l.acks + R.Emit(l.rcv, e) ==> a <= |t.out.published|
  {
    PublishedGrows(c.receiver, l.rcv, e);
  }

  lemma ReceiverKeepsMatch(c: Configs, l: Link, e: R.ReceiverEvent)
    requires MatchInv(l.rcv, l.snd.numbered) && RI.ReceiverInv(c.receiver, l.rcv)
    requires forall f :: f in l.data ==> Fits(f, l.snd.numbered)
    requires Possible(l, ReceiverStep(e))
    ensures MatchInv(R.Step(c.receiver, l.rcv, e), l.snd.numbered)
  {
    match e
    case OfReader(x) => ReaderKeepsMatch(c.receiver, l.rcv, x, l.snd.numbered);
    case OfDispatcher(x) => DispatcherKeepsMatch(c.receiver, l.rcv, x, l.snd.numbered);
    case OfWorker(x) => OthersKeepMatch(l.rcv, x, R.Abort, l.snd.numbered);
    case OfApp(x) => OthersKeepMatch(l.rcv, R.SendAck, x, l.snd.numbered);
  }

  lemma OthersKeepMatch(r: R.Receiver, w: R.WorkerEvent, a: R.AppEvent, numbered: seq<Payload>)
    requires MatchInv(r, numbered)
    ensures MatchInv(R.StepWorker(r, w), numbered) && MatchInv(R.StepApp(r, a), numbered)
  {
  }

  lemma ReceiverKeepsTrace(c: Configs, l: Link, e: R.ReceiverEvent)
    requires CloseTrace(l.rcv, l.data) && Possible(l, ReceiverStep(e))
    ensures CloseTrace(R.Step(c.receiver, l.rcv, e), l.data)
  {
  }

  lemma PublishedGrows(c: Config, r: R.Receiver, e: R.ReceiverEvent)
    ensures r.out.published <= R.Step(c, r, e).out.published
  {
  }

  // Every run

  lemma StepKeeps(c: Configs, l: Link, e: Event)
    requires LinkInv(c, l)
    ensures LinkInv(c, Step(c, l, e))
  {
    match e
    case SenderStep(x) => SenderStepKeeps(c, l, x);
    case ReceiverStep(x) => ReceiverStepKeeps(c, l, x);
    case AckDelivery(a) => AckDeliveryKeeps(c, l, a);
  }

  lemma {:induction false} RunKeeps(c: Configs, run: seq<Event>)
    ensures LinkInv(c, Exec(c, run))
  {
    if run == [] {
      SP.InitialInv(c.sender);
      RI.InitialInv(c.receiver);
    } else {
      RunKeeps(c, run[..|run| - 1]);
      StepKeeps(c, Exec(c, run[..|run| - 1]), run[|run| - 1]);
    }
  }
}
