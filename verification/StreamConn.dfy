/** The mutable StreamConn: reading with compaction of the buffer, accepting DATA within the buffer's
    bound, applying an ACK, and writing in chunks. */
module StreamConns {
  import opened RelayTypes
  import opened StreamCodec
  import opened StreamProtocol
  import opened StreamSession
  import F = StreamFlow

  datatype ConnError = Stream(error: StreamError) | Closed

  /** How a round of Read ends: it returns, with the ACK to send; it fails with the reason of the close;
      or it waits for the next change of state. */
  datatype Reading = Returned(ack: Option<StreamFrame>) | Failed | Waits

  class StreamConn {
    const sender: StreamSenderState
    const receiver: StreamReceiverState
    const window: nat
    const maxFrame: nat
    var readBuf: seq<Byte>
    var sendWin: nat
    var closed: bool

    constructor (id: StreamID, epoch: nat, window: nat, maxFrame: nat)
      ensures sender.State() == NewSender(id, epoch, window) && receiver.State() == NewReceiver(id, epoch, window)
      ensures this.window == window && sendWin == window && readBuf == [] && !closed
      ensures this.maxFrame == maxFrame && fresh(sender) && fresh(receiver)
    {
      var s := new StreamSenderState(id, epoch, window);
      var r := new StreamReceiverState(id, epoch, window);
      sender, receiver, this.window, this.maxFrame := s, r, window, maxFrame;
      readBuf, sendWin, closed := [], window, false;
    }

    /** One round of Read into p: hands over the front of the buffer, moves the rest down, and returns the
        ACK that releases the credit unless the stream is closed; with an empty buffer it reports the
        close or has to wait. */
    method Read(p: array<Byte>) returns (n: nat, r: Reading)
      requires |readBuf| <= window
      modifies p, this`readBuf
      ensures n == if p.Length < |old(readBuf)| then p.Length else |old(readBuf)|
      ensures p[..n] == old(readBuf)[..n] && p[n..] == old(p[n..])
      ensures readBuf == old(readBuf)[n..]
      ensures r == if p.Length == 0 then Returned(None)
                   else if n == 0 then (if closed then Failed else Waits)
                   else if closed then Returned(None)
                   else Returned(Some(AckFrame(receiver.id, receiver.epoch, receiver.offset, window - |readBuf|)))
    {
      n := 0;
      if p.Length == 0 {
        return n, Returned(None);
      }
      if |readBuf| == 0 {
        return n, if closed then Failed else Waits;
      }
      while n < p.Length && n < |readBuf|
        invariant 0 <= n <= p.Length && n <= |readBuf|
        invariant p[..n] == readBuf[..n] && p[n..] == old(p[n..]) && readBuf == old(readBuf)
      {
        p[n] := readBuf[n];
        n := n + 1;
      }
      readBuf := readBuf[n..];
      if closed {
        return n, Returned(None);
      }
      r := Returned(Some(AckFrame(receiver.id, receiver.epoch, receiver.offset, window - |readBuf|)));
    }

    /** handleData: refuses what is past a gap or past the buffer's bound; what it takes is appended
        and acknowledged with the free space that is left. */
    method HandleData(frame: StreamFrame) returns (r: Result<StreamFrame, ConnError>)
      requires |readBuf| <= window
      modifies this`readBuf, receiver
      ensures |readBuf| <= window
      ensures match Refusal(old(receiver.State()), frame, closed, |old(readBuf)|, window)
              case Some(e) => r == Err(e) && readBuf == old(readBuf) && receiver.State() == old(receiver.State())
              case None =>
                var x := Accept(old(receiver.State()), frame).value;
                && receiver.State() == x.state && readBuf == old(readBuf) + x.payload
                && r == Ok(AckFrame(receiver.id, receiver.epoch, receiver.offset, window - |readBuf|))
    {
      var offset := receiver.offset;
      if frame.offset > offset {
        return Err(Stream(Gap));
      }
      var start := offset - frame.offset;
      if start > |frame.payload| {
        start := |frame.payload|;
      }
      var unique := |frame.payload| - start;
      if closed {
        return Err(ConnError.Closed);
      }
      if |readBuf| + unique > window {
        return Err(Stream(Credit));
      }
      var accepted := receiver.AcceptFrame(frame);
      if accepted.Err? {
        return Err(Stream(accepted.error));
      }
      readBuf := readBuf + accepted.value.0;
      r := Ok(accepted.value.1.(window := window - |readBuf|));
    }

    /** handleFrame for an ACK: the sender state first, then the credit. */
    method HandleAck(ack: StreamFrame) returns (r: Result<(), StreamError>)
      modifies this`sendWin, sender
      ensures match Acknowledge(old(sender.State()), ack.epoch, ack.offset, ack.window)
              case Err(e) => r == Err(e) && sender.State() == old(sender.State()) && sendWin == old(sendWin)
              case Ok(s) => r.Ok? && sender.State() == s && sendWin == ack.window
    {
      r := sender.Acknowledged(ack.epoch, ack.offset, ack.window);
      if r.Ok? {
        sendWin := ack.window;
      }
    }

    /** ACKs handled one after the other; those the sender state refuses change nothing. */
    method HandleAcks(acks: seq<StreamFrame>, ghost sent: seq<Byte>)
      requires Holds(sender.State(), sent)
      modifies this`sendWin, sender
      ensures Holds(sender.State(), sent)
    {
      for i := 0 to |acks|
        invariant Holds(sender.State(), sent)
      {
        ghost var before := sender.State();
        var _ := HandleAck(acks[i]);
        AckKeepsHold(before, sent, acks[i]);
      }
    }

    /** One round of waitSendCredit. */
    method WaitSendCredit() returns (r: SendCredit)
      requires sender.acked <= sender.next
      ensures r == CreditOf(sender.State(), sendWin, closed)
    {
      var outstanding := sender.next - sender.acked;
      if closed {
        return Ended;
      }
      if sendWin > outstanding {
        return Available(sendWin - outstanding);
      }
      r := Blocked;
    }

    /** The ACKs that have arrived, then the credit. */
    method NextCredit(acks: seq<StreamFrame>, ghost sent: seq<Byte>) returns (r: SendCredit)
      requires Holds(sender.State(), sent)
      modifies this`sendWin, sender
      ensures Holds(sender.State(), sent) && r == CreditOf(sender.State(), sendWin, closed)
    {
      HandleAcks(acks, sent);
      r := WaitSendCredit();
    }

    /** Write: waits for credit, cuts the next chunk to the frame size and the credit, and sends it. The
        environment decides which ACKs arrive before each round and whether each send succeeds.
        Whatever the outcome, the frames carry exactly the first `written` bytes of p, in order from the
        old end of the stream, and every byte not yet acknowledged stays pending for Resume; and it
        stops short only where the stream is closed, no credit is left, the sender state refuses the
        next chunk, or the last send failed. */
    method Write(p: seq<Byte>, acks: nat -> seq<StreamFrame>, sendOk: nat -> bool, ghost sent: seq<Byte>)
      returns (written: nat, frames: seq<StreamFrame>)
      requires maxFrame >= 1 && Holds(sender.State(), sent)
      modifies this`sendWin, sender
      ensures written <= |p| && Written(sender.State(), sent, p[..written], frames, maxFrame)
      ensures written < |p| ==>
                || (frames != [] && !sendOk(|frames| - 1))
                || Stuck(sender.State(), sendWin, closed, |p| - written, maxFrame)
    {
      written, frames := 0, [];
      NothingWritten(sender.State(), sent, p[..0], maxFrame);
      while written < |p|
        invariant written <= |p| && Written(sender.State(), sent, p[..written], frames, maxFrame)
        decreases |p| - written
      {
        var frame := WriteNext(p, written, acks(|frames|), sent, frames);
        if frame.None? {
          return;
        }
        frames := frames + [frame.value];
        written := written + |frame.value.payload|;
        if !sendOk(|frames| - 1) {
          return;
        }
      }
    }

    /** A round of Write in terms of the whole write. */
    method WriteNext(p: seq<Byte>, written: nat, acks: seq<StreamFrame>, ghost sent: seq<Byte>,
                     ghost frames: seq<StreamFrame>)
      returns (frame: Option<StreamFrame>)
      requires written < |p| && maxFrame >= 1 && Written(sender.State(), sent, p[..written], frames, maxFrame)
      modifies this`sendWin, sender
      ensures frame.None? ==>
                && Written(sender.State(), sent, p[..written], frames, maxFrame)
                && Stuck(sender.State(), sendWin, closed, |p| - written, maxFrame)
      ensures frame.Some? ==>
                && |frame.value.payload| >= 1 && written + |frame.value.payload| <= |p|
                && Written(sender.State(), sent, p[..written + |frame.value.payload|], frames + [frame.value], maxFrame)
    {
      frame := WriteRound(p, written, acks, sent + p[..written]);
      if frame.Some? {
        WrittenOneMore(sender.State(), sent, p, written, frames, frame.value, maxFrame);
      }
    }

    /** One round of Write: the ACKs that have arrived, the credit, and the next chunk. */
    method WriteRound(p: seq<Byte>, written: nat, acks: seq<StreamFrame>, ghost soFar: seq<Byte>)
      returns (frame: Option<StreamFrame>)
      requires written < |p| && maxFrame >= 1 && Holds(sender.State(), soFar)
      modifies this`sendWin, sender
      ensures frame.None? ==>
                && Holds(sender.State(), soFar)
                && Stuck(sender.State(), sendWin, closed, |p| - written, maxFrame)
      ensures frame.Some? ==>
                && NextFrame(p, written, frame.value, |soFar|, maxFrame)
                && Holds(sender.State(), soFar + frame.value.payload) && sender.next - sender.acked <= sendWin
    {
      var credit := NextCredit(acks, soFar);
      if !credit.Available? {
        return None;
      }
      var payload := Chunk(p, written, maxFrame, credit.bytes);
      var r := SendChunk(soFar, payload);
      if r.Err? {
        return None;
      }
      frame := Some(r.value);
    }

    /** One chunk within the credit: it continues what was written, and what is in flight stays within the
        credit; or the sender state refuses it and is untouched. */
    method SendChunk(ghost sent: seq<Byte>, payload: seq<Byte>) returns (r: Result<StreamFrame, StreamError>)
      requires Holds(sender.State(), sent)
      requires sender.next - sender.acked + |payload| <= sendWin
      modifies sender
      ensures r.Ok? ==>
                && r.value.kind == DATA && r.value.payload == payload && r.value.offset == |sent|
                && Holds(sender.State(), sent + payload) && sender.next - sender.acked <= sendWin
      ensures r.Err? ==> sender.State() == old(sender.State()) && PrepareData(sender.State(), payload) == Err(r.error)
    {
      ghost var before := sender.State();
      r := sender.SendData(payload);
      if r.Ok? {
        WriteKeepsCover(before, sent, payload);
      }
    }
  }

  /** Why a DATA frame is refused, if it is; a closed stream is noticed after a gap. */
  function Refusal(r: Receiver, f: StreamFrame, closed: bool, buffered: nat, window: nat): (e: Option<ConnError>)
    ensures e.None? ==> Accept(r, f).Ok?
    ensures e == Some(ConnError.Closed) <==> closed && f.offset <= r.offset
    ensures e.None? <==> !closed && F.Refused(r, buffered, window, f).None?
  {
    if closed && f.offset <= r.offset then Some(ConnError.Closed)
    else match F.Refused(r, buffered, window, f)
      case Some(e) => Some(Stream(e))
      case None => None
  }

  /** The next chunk of a write: the rest of p, within the frame size and the credit. */
  function Chunk(p: seq<Byte>, written: nat, maxFrame: nat, available: nat): (c: seq<Byte>)
    requires written < |p| && maxFrame >= 1 && available >= 1
    ensures |c| == Least(Least(|p| - written, maxFrame), available) && written + |c| <= |p|
    ensures c == p[written..written + |c|]
  {
    var rest := |p| - written;
    var framed := if rest > maxFrame then maxFrame else rest;
    var size := if framed > available then available else framed;
    p[written..written + size]
  }

  /** What waitSendCredit finds: the stream closed, credit, or none. */
  datatype SendCredit = Ended | Available(bytes: nat) | Blocked

  function CreditOf(s: Sender, sendWin: nat, closed: bool): (c: SendCredit)
    requires s.acked <= s.next
    ensures c.Ended? <==> closed
    ensures c.Available? <==> !closed && s.next < s.acked + sendWin
    ensures c.Available? ==> s.next - s.acked + c.bytes == sendWin
  {
    if closed then Ended
    else if sendWin > s.next - s.acked then Available(sendWin - (s.next - s.acked))
    else Blocked
  }

  /** No further chunk can go: the stream is closed, everything the credit allows is in flight, or the next
      chunk is longer than a frame or goes past the window of the sender state. */
  ghost predicate Stuck(s: Sender, sendWin: nat, closed: bool, rest: int, maxFrame: nat) {
    || closed || s.next - s.acked >= sendWin
    || var n := Least(Least(rest, maxFrame), sendWin - (s.next - s.acked));
       n > 131072 || s.next - s.acked + n > s.window
  }

  function Least(a: int, b: int): int {
    if a < b then a else b
  }

  /** The sender state holds every byte of `sent` that is not acknowledged. */
  ghost predicate Holds(s: Sender, sent: seq<Byte>) {
    Covers(s, sent) && s.acked <= s.next == |sent|
  }

  lemma AckKeepsHold(s: Sender, sent: seq<Byte>, ack: StreamFrame)
    requires Holds(s, sent)
    ensures var r := Acknowledge(s, ack.epoch, ack.offset, ack.window); r.Ok? ==> Holds(r.value, sent)
  {
    if s.acked <= ack.offset <= s.next { AcknowledgeKeepsCover(s, sent, ack.offset); }
  }

  /** Frames that carry some bytes from an offset on, without gap or overlap, each within the frame size. */
  ghost predicate Carries(frames: seq<StreamFrame>, offset: nat, bytes: seq<Byte>, maxFrame: nat) {
    Joined(frames) == bytes && ChainFrom(frames, offset, maxFrame)
  }

  /** What a write has done so far: its frames carry its bytes, which continue the stream, and every byte
      of the stream that is not acknowledged is held. */
  ghost predicate Written(s: Sender, sent: seq<Byte>, bytes: seq<Byte>, frames: seq<StreamFrame>, maxFrame: nat) {
    Holds(s, sent + bytes) && Carries(frames, |sent|, bytes, maxFrame)
  }

  lemma NothingWritten(s: Sender, sent: seq<Byte>, bytes: seq<Byte>, maxFrame: nat)
    requires Holds(s, sent) && bytes == []
    ensures Written(s, sent, bytes, [], maxFrame)
  {
    assert sent + bytes == sent;
  }

  /** A DATA frame at an offset with the bytes of p from `written` on, within the frame size. */
  ghost predicate NextFrame(p: seq<Byte>, written: nat, f: StreamFrame, offset: nat, maxFrame: nat) {
    && f.kind == DATA && f.offset == offset && 1 <= |f.payload| <= maxFrame
    && written + |f.payload| <= |p| && f.payload == p[written..written + |f.payload|]
  }

  lemma WrittenOneMore(s: Sender, sent: seq<Byte>, p: seq<Byte>, written: nat, frames: seq<StreamFrame>,
                       f: StreamFrame, maxFrame: nat)
    requires written <= |p| && Carries(frames, |sent|, p[..written], maxFrame)
    requires NextFrame(p, written, f, |sent + p[..written]|, maxFrame) && Holds(s, sent + p[..written] + f.payload)
    ensures Written(s, sent, p[..written + |f.payload|], frames + [f], maxFrame)
  {
    assert (frames + [f])[..|frames|] == frames;
    assert p[..written] + f.payload == p[..written + |f.payload|];
    assert sent + p[..written] + f.payload == sent + p[..written + |f.payload|];
  }

  /** The bytes of frames, one after the other. */
  ghost function Joined(frames: seq<StreamFrame>): seq<Byte> {
    if frames == [] then [] else Joined(frames[..|frames| - 1]) + frames[|frames| - 1].payload
  }

  /** DATA frames without a gap or overlap from an offset on, each non-empty and within the frame size. */
  ghost predicate ChainFrom(frames: seq<StreamFrame>, offset: nat, maxFrame: nat) {
    frames != [] ==>
      var init := frames[..|frames| - 1]; var last := frames[|frames| - 1];
      && ChainFrom(init, offset, maxFrame)
      && last.kind == DATA && last.offset == offset + |Joined(init)| && 1 <= |last.payload| <= maxFrame
  }
}
