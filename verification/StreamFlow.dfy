/** Flow control of a StreamConn: a bounded read buffer and advertised credit on the receiving end;
    on the sending end a writer that reads its credit in two steps while an arriving ACK is applied
    in two steps, first to the sender state and then to `sendWin`. */
module StreamFlow {
  import opened RelayTypes
  import opened StreamCodec
  import opened StreamProtocol
  import opened StreamSession

  /** waitSendCredit: nothing yet; the offsets have been read; credit was granted. */
  datatype Writer = NoWrite | Offsets(next: nat, acked: nat) | Granted(available: nat)

  /** An ACK that has reached the sender state but not `sendWin`: what was acknowledged before it, and
      the window it carries. */
  datatype Half = Whole | Half(oldAcked: nat, window: nat)

  /** `base` is the session of the two states; `emitted` the ACKs of the receiving end in order;
      `closes` the epochs of the CLOSE frames sent; `known` the furthest limit of any ACK that reached
      the sender state. */
  datatype Flow = Flow(
    base: Session, sendWin: nat, half: Half, writer: Writer, known: nat,
    window: nat, readBuf: seq<Byte>, consumed: seq<Byte>, closed: bool,
    closes: set<nat>, emitted: seq<StreamFrame>)

  /** Both ends of an opened stream; the OPEN_ACK counts as the first ACK. */
  function Opened(id: StreamID, epoch: nat, window: nat): Flow {
    var w := OrDefault(window);
    var openAck := AckFrame(id, epoch, 0, w);
    Flow(Start(id, epoch, w).(acks := {openAck}), w, Whole, NoWrite, w, w, [], [], false, {}, [openAck])
  }

  datatype FlowEvent =
    | ReadOffsets | ReadCredit | SendChunk(payload: seq<Byte>)
    | AckStates(ack: StreamFrame) | AckWindow
    | BeginResume | EmitClose
    | DataArrives(frame: StreamFrame) | ResumeArrives(frame: StreamFrame) | CloseArrives(epoch: nat)
    | ReadBytes(max: nat) | CloseLocally

  // The sending end

  /** How far an ACK allows the peer to send. */
  function Limit(a: StreamFrame): nat {
    a.offset + a.window
  }

  function OnReadCredit(f: Flow): Flow {
    if !f.writer.Offsets? then f
    else if f.writer.next >= f.writer.acked && f.sendWin > f.writer.next - f.writer.acked then
      f.(writer := Granted(f.sendWin - (f.writer.next - f.writer.acked)))
    else f.(writer := NoWrite)
  }

  function OnSendChunk(f: Flow, payload: seq<Byte>): Flow {
    if f.writer.Granted? && |payload| <= f.writer.available then
      f.(base := OnWrite(f.base, payload), writer := NoWrite)
    else f
  }

  /** handleFrame(ACK), first half: the sender state. */
  function OnAckStates(f: Flow, a: StreamFrame): Flow {
    if f.half == Whole && a in f.base.acks && Acknowledge(f.base.snd, a.epoch, a.offset, a.window).Ok? then
      f.(base := OnAck(f.base, a), half := Half(f.base.snd.acked, a.window),
         known := if Limit(a) > f.known then Limit(a) else f.known)
    else f
  }

  /** handleFrame(ACK), second half: the credit. */
  function OnAckWindow(f: Flow): Flow {
    if f.half.Half? then f.(sendWin := f.half.window, half := Whole) else f
  }

  // The receiving end

  function Free(f: Flow): nat {
    if f.window < |f.readBuf| then 0 else f.window - |f.readBuf|
  }

  /** The bytes of a frame past an offset. */
  function Unique(f: StreamFrame, offset: nat): nat {
    if End(f) > offset && f.offset <= offset then End(f) - offset else 0
  }

  /** StreamConn.handleData on an open stream: the error it returns, if any. */
  function Refused(r: Receiver, buffered: nat, window: nat, frame: StreamFrame): Option<StreamError> {
    if frame.offset > r.offset then Some(Gap)
    else if buffered + Unique(frame, r.offset) > window then Some(Credit)
    else match Accept(r, frame)
      case Err(e) => Some(e)
      case Ok(_) => None
  }

  function DataError(f: Flow, frame: StreamFrame): Option<StreamError> {
    Refused(f.base.rcv, |f.readBuf|, f.window, frame)
  }

  function OnDataArrives(f: Flow, frame: StreamFrame): Flow {
    if frame !in f.base.data || f.closed || DataError(f, frame).Some? then f
    else
      var x := Accept(f.base.rcv, frame).value;
      var g := f.(readBuf := f.readBuf + x.payload);
      g.(base := OnData(f.base, frame, Free(g)), emitted := f.emitted + [Advertise(x.state, Free(g))])
  }

  function OnResumeArrives(f: Flow, frame: StreamFrame): Flow {
    if frame in f.base.resumes && ResumeReceiver(f.base.rcv, frame.epoch, frame.offset).Ok? then
      var base := OnResume(f.base, frame, Free(f));
      f.(base := base, emitted := f.emitted + [Advertise(base.rcv, Free(f))])
    else f
  }

  /** Read: consumes, and advertises the freed credit unless the stream is closed. */
  function OnReadBytes(f: Flow, max: nat): Flow {
    if max == 0 || f.readBuf == [] then f
    else
      var n := if max < |f.readBuf| then max else |f.readBuf|;
      var g := f.(consumed := f.consumed + f.readBuf[..n], readBuf := f.readBuf[n..]);
      if f.closed then g
      else g.(base := OnRead(f.base, Free(g)), emitted := f.emitted + [Advertise(f.base.rcv, Free(g))])
  }

  function FlowStep(f: Flow, e: FlowEvent): Flow {
    match e
    case ReadOffsets => if f.writer == NoWrite then f.(writer := Offsets(f.base.snd.next, f.base.snd.acked)) else f
    case ReadCredit => OnReadCredit(f)
    case SendChunk(payload) => OnSendChunk(f, payload)
    case AckStates(a) => OnAckStates(f, a)
    case AckWindow => OnAckWindow(f)
    case BeginResume =>
      if f.writer == NoWrite then f.(base := OnStartResume(f.base, f.base.snd.epoch + 1, f.base.snd.acked)) else f
    case EmitClose => f.(closes := f.closes + {f.base.snd.epoch})
    case DataArrives(frame) => OnDataArrives(f, frame)
    case ResumeArrives(frame) => OnResumeArrives(f, frame)
    case CloseArrives(epoch) => if epoch in f.closes && epoch == f.base.rcv.epoch then f.(closed := true) else f
    case ReadBytes(max) => OnReadBytes(f, max)
    case CloseLocally => f.(closed := true)
  }

  function FlowExec(start: Flow, run: seq<FlowEvent>): Flow {
    if run == [] then start else FlowStep(FlowExec(start, run[..|run| - 1]), run[|run| - 1])
  }

  /** Runs are written down one event at a time. */
  lemma Extend(start: Flow, run: seq<FlowEvent>, e: FlowEvent) returns (longer: seq<FlowEvent>)
    ensures longer == run + [e] && FlowExec(start, longer) == FlowStep(FlowExec(start, run), e)
  {
    longer := run + [e];
    assert longer[..|longer| - 1] == run;
  }

  /** An identifier for runs that are written down. */
  const ZERO_ID: StreamID := seq(16, _ => 0)

  // The receiving end, in every run

  ghost predicate Rising(acks: seq<StreamFrame>, top: nat) {
    && (forall i, j :: 0 <= i < j < |acks| ==> Limit(acks[i]) <= Limit(acks[j]))
    && (forall i :: 0 <= i < |acks| ==> Limit(acks[i]) <= top)
  }

  ghost predicate Advancing(acks: seq<StreamFrame>, offset: nat) {
    && (forall i, j :: 0 <= i < j < |acks| ==> acks[i].offset <= acks[j].offset)
    && (forall i :: 0 <= i < |acks| ==> acks[i].offset <= offset)
  }

  /** The read buffer holds what was accepted and not consumed, within the window; ACKs advertise
      limits that rise to the consumed bytes plus the window, at offsets that never go back. */
  ghost predicate Buffered(f: Flow) {
    && f.base.rcv.window == f.window
    && f.base.got == f.consumed + f.readBuf && |f.base.got| == f.base.rcv.offset
    && |f.readBuf| <= f.window
    && Rising(f.emitted, |f.consumed| + f.window) && Advancing(f.emitted, f.base.rcv.offset)
    && (forall a :: a in f.base.acks ==> a in f.emitted)
  }

  ghost predicate BufferInv(f: Flow) {
    SessionInv(f.base) && Buffered(f)
  }

  lemma OpenedBuffer(id: StreamID, epoch: nat, window: nat)
    ensures BufferInv(Opened(id, epoch, window))
  {
    var f := Opened(id, epoch, window);
    StartInv(id, epoch, f.window);
    assert f.base == Start(id, epoch, f.window).(acks := f.base.acks);
    assert SessionInv(f.base);
  }

  lemma EmitKeepsRising(acks: seq<StreamFrame>, a: StreamFrame, top: nat)
    requires Rising(acks, top) && Limit(a) == top
    ensures Rising(acks + [a], top)
  {
  }

  /** What handleData accepts fits the buffer, and the ACK for it is exact. */
  lemma DataBuffered(f: Flow, frame: StreamFrame)
    requires Buffered(f)
    requires frame in f.base.data && !f.closed && DataError(f, frame).None?
    ensures Buffered(OnDataArrives(f, frame))
  {
    var x := Accept(f.base.rcv, frame).value;
    var g := OnDataArrives(f, frame);
    assert |x.payload| == Unique(frame, f.base.rcv.offset);
    assert f.base.got + x.payload == f.consumed + (f.readBuf + x.payload);
    EmitKeepsRising(f.emitted, Advertise(x.state, Free(g)), |f.consumed| + f.window);
  }

  lemma ResumeBuffered(f: Flow, frame: StreamFrame)
    requires Buffered(f)
    ensures Buffered(OnResumeArrives(f, frame))
  {
    if frame in f.base.resumes && ResumeReceiver(f.base.rcv, frame.epoch, frame.offset).Ok? {
      var g := OnResumeArrives(f, frame);
      EmitKeepsRising(f.emitted, Advertise(g.base.rcv, Free(f)), |f.consumed| + f.window);
    }
  }

  lemma ReadBuffered(f: Flow, max: nat)
    requires Buffered(f)
    ensures Buffered(OnReadBytes(f, max))
  {
    if max > 0 && f.readBuf != [] {
      var g := OnReadBytes(f, max);
      var n := if max < |f.readBuf| then max else |f.readBuf|;
      assert f.consumed + f.readBuf == (f.consumed + f.readBuf[..n]) + f.readBuf[n..];
      assert Rising(f.emitted, |g.consumed| + f.window);
      if !f.closed {
        EmitKeepsRising(f.emitted, Advertise(f.base.rcv, Free(g)), |g.consumed| + f.window);
      }
    }
  }

  /** The sending end does not touch what the receiving end promises. */
  lemma SenderBuffered(f: Flow, g: Flow)
    requires Buffered(f)
    requires g.base.got == f.base.got && g.base.rcv == f.base.rcv && g.base.acks == f.base.acks
    requires g.window == f.window && g.readBuf == f.readBuf && g.consumed == f.consumed && g.emitted == f.emitted
    ensures Buffered(g)
  {
  }

  lemma StepKeepsBuffered(f: Flow, e: FlowEvent)
    requires Buffered(f)
    ensures Buffered(FlowStep(f, e))
  {
    match e
    case DataArrives(frame) =>
      if frame in f.base.data && !f.closed && DataError(f, frame).None? { DataBuffered(f, frame); }
    case ResumeArrives(frame) => ResumeBuffered(f, frame);
    case ReadBytes(max) => ReadBuffered(f, max);
    case _ => SenderBuffered(f, FlowStep(f, e));
  }

  /** Every flow step is at most one step of the session underneath. */
  ghost predicate IsSessionStep(s: Session, t: Session) {
    t == s || exists e :: t == Step(s, e)
  }

  lemma FlowStepIsSessionStep(f: Flow, e: FlowEvent)
    ensures IsSessionStep(f.base, FlowStep(f, e).base)
  {
    var t := FlowStep(f, e).base;
    match e
    case SendChunk(payload) => assert t == f.base || t == Step(f.base, Write(payload));
    case AckStates(a) => assert t == f.base || t == Step(f.base, DeliverAck(a));
    case BeginResume => assert t == f.base || t == Step(f.base, StartResume(f.base.snd.epoch + 1, f.base.snd.acked));
    case DataArrives(frame) =>
      if frame in f.base.data && !f.closed && DataError(f, frame).None? {
        var g := f.(readBuf := f.readBuf + Accept(f.base.rcv, frame).value.payload);
        assert t == Step(f.base, DeliverData(frame, Free(g)));
      }
    case ResumeArrives(frame) => assert t == f.base || t == Step(f.base, DeliverResume(frame, Free(f)));
    case ReadBytes(max) =>
      if t != f.base {
        var n := if max < |f.readBuf| then max else |f.readBuf|;
        var g := f.(consumed := f.consumed + f.readBuf[..n], readBuf := f.readBuf[n..]);
        assert t == Step(f.base, Readvertise(Free(g)));
      }
    case _ =>
  }

  lemma SessionStepKeeps(s: Session, t: Session)
    requires SessionInv(s) && IsSessionStep(s, t)
    ensures SessionInv(t)
  {
    if t != s {
      var e :| t == Step(s, e);
      StepKeeps(s, e);
    }
  }

  lemma {:induction false} RunKeepsBuffer(start: Flow, run: seq<FlowEvent>)
    requires BufferInv(start)
    ensures BufferInv(FlowExec(start, run))
  {
    if run != [] {
      RunKeepsBuffer(start, run[..|run| - 1]);
      var f := FlowExec(start, run[..|run| - 1]);
      FlowStepIsSessionStep(f, run[|run| - 1]);
      SessionStepKeeps(f.base, FlowStep(f, run[|run| - 1]).base);
      StepKeepsBuffered(f, run[|run| - 1]);
    }
  }
}
