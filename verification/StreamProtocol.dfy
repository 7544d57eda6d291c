/** The recoverable byte stream: sender and receiver state with byte offsets and path epochs. The
    functions give each operation on values; the classes carry it out on fields, and every method
    is proved to compute its function. */
module StreamProtocol {
  import opened RelayTypes
  import opened StreamCodec

  datatype StreamError = InvalidPayload | WindowFull | Epoch | InvalidAck | InvalidResume | NotMine | Gap | Credit

  /** The offset just past a DATA frame. */
  function End(f: StreamFrame): nat {
    f.offset + |f.payload|
  }

  function DataFrame(id: StreamID, epoch: nat, offset: nat, payload: seq<Byte>): StreamFrame {
    StreamFrame(DATA, id, epoch, offset, 0, payload)
  }

  function AckFrame(id: StreamID, epoch: nat, offset: nat, window: nat): StreamFrame {
    StreamFrame(ACK, id, epoch, offset, window, [])
  }

  function OrDefault(window: nat): (w: nat)
    ensures w >= 1 && (window > 0 ==> w == window) && (window == 0 ==> w == 2 * 1024 * 1024)
  {
    if window == 0 then 2097152 else window
  }

  // The sender

  datatype Sender = Sender(id: StreamID, epoch: nat, next: nat, acked: nat, window: nat, pending: seq<StreamFrame>)

  function NewSender(id: StreamID, epoch: nat, window: nat): Sender {
    Sender(id, epoch, 0, 0, OrDefault(window), [])
  }

  datatype Sent = Sent(state: Sender, frame: StreamFrame)

  function PrepareData(s: Sender, payload: seq<Byte>): Result<Sent, StreamError> {
    if |payload| == 0 || |payload| > MAX_FRAME then Err(InvalidPayload)
    else if s.next - s.acked + |payload| > s.window then Err(WindowFull)
    else
      var frame := DataFrame(s.id, s.epoch, s.next, payload);
      Ok(Sent(s.(next := s.next + |payload|, pending := s.pending + [frame]), frame))
  }

  /** The frames that reach past an offset. */
  function Unacknowledged(pending: seq<StreamFrame>, offset: nat): seq<StreamFrame> {
    if pending == [] then []
    else
      var kept := Unacknowledged(pending[..|pending| - 1], offset);
      var last := pending[|pending| - 1];
      if End(last) > offset then kept + [last] else kept
  }

  function Acknowledge(s: Sender, epoch: nat, offset: nat, window: nat): Result<Sender, StreamError> {
    if epoch != s.epoch then Err(Epoch)
    else if offset < s.acked || offset > s.next then Err(InvalidAck)
    else Ok(s.(acked := offset, window := if window > 0 then window else s.window,
               pending := Unacknowledged(s.pending, offset)))
  }

  /** A frame cut to what lies past an offset, on a new epoch. */
  function Cut(id: StreamID, f: StreamFrame, epoch: nat, offset: nat): StreamFrame
    requires End(f) > offset
  {
    var start := if offset < f.offset then f.offset else offset;
    DataFrame(id, epoch, start, f.payload[start - f.offset..])
  }

  /** The suffix to retransmit after a resume. */
  function Resent(id: StreamID, pending: seq<StreamFrame>, epoch: nat, offset: nat): seq<StreamFrame> {
    if pending == [] then []
    else
      var kept := Resent(id, pending[..|pending| - 1], epoch, offset);
      var last := pending[|pending| - 1];
      if End(last) > offset then kept + [Cut(id, last, epoch, offset)] else kept
  }

  datatype Resumed = Resumed(state: Sender, frames: seq<StreamFrame>)

  function ResumeSender(s: Sender, epoch: nat, offset: nat): Result<Resumed, StreamError> {
    if epoch <= s.epoch || offset < s.acked || offset > s.next then Err(InvalidResume)
    else
      var frames := Resent(s.id, s.pending, epoch, offset);
      Ok(Resumed(s.(epoch := epoch, acked := offset, pending := frames), frames))
  }

  class StreamSenderState {
    const id: StreamID
    var epoch: nat
    var next: nat
    var acked: nat
    var window: nat
    var pending: seq<StreamFrame>

    constructor (id: StreamID, epoch: nat, window: nat)
      ensures State() == NewSender(id, epoch, window)
    {
      this.id := id;
      this.epoch, this.next, this.acked, this.pending := epoch, 0, 0, [];
      this.window := OrDefault(window);
    }

    function State(): Sender
      reads this
    {
      Sender(id, epoch, next, acked, window, pending)
    }

    method SendData(payload: seq<Byte>) returns (r: Result<StreamFrame, StreamError>)
      modifies this
      ensures match PrepareData(old(State()), payload)
              case Err(e) => r == Err(e) && State() == old(State())
              case Ok(sent) => r == Ok(sent.frame) && State() == sent.state
    {
      if |payload| == 0 || |payload| > MAX_FRAME {
        return Err(InvalidPayload);
      }
      if next - acked + |payload| > window {
        return Err(WindowFull);
      }
      var frame := DataFrame(id, epoch, next, payload);
      next := next + |payload|;
      pending := pending + [frame];
      r := Ok(frame);
    }

    method Acknowledged(ackEpoch: nat, offset: nat, ackWindow: nat) returns (r: Result<(), StreamError>)
      modifies this
      ensures match Acknowledge(old(State()), ackEpoch, offset, ackWindow)
              case Err(e) => r == Err(e) && State() == old(State())
              case Ok(s) => r.Ok? && State() == s
    {
      if ackEpoch != epoch {
        return Err(Epoch);
      }
      if offset < acked || offset > next {
        return Err(InvalidAck);
      }
      epoch, acked := ackEpoch, offset;
      if ackWindow > 0 {
        window := ackWindow;
      }
      var kept := [];
      var i := 0;
      while i < |pending|
        invariant 0 <= i <= |pending| && kept == Unacknowledged(pending[..i], offset)
      {
        assert pending[..i + 1][..i] == pending[..i];
        if End(pending[i]) > offset {
          kept := kept + [pending[i]];
        }
        i := i + 1;
      }
      assert pending[..i] == pending;
      pending := kept;
      r := Ok(());
    }

    method Resume(newEpoch: nat, offset: nat) returns (r: Result<seq<StreamFrame>, StreamError>)
      modifies this
      ensures match ResumeSender(old(State()), newEpoch, offset)
              case Err(e) => r == Err(e) && State() == old(State())
              case Ok(x) => r == Ok(x.frames) && State() == x.state
    {
      if newEpoch <= epoch || offset < acked || offset > next {
        return Err(InvalidResume);
      }
      epoch, acked := newEpoch, offset;
      var frames := [];
      var i := 0;
      while i < |pending|
        invariant 0 <= i <= |pending| && frames == Resent(id, pending[..i], newEpoch, offset)
      {
        assert pending[..i + 1][..i] == pending[..i];
        var frame := pending[i];
        if End(frame) > offset {
          var start := offset;
          if start < frame.offset {
            start := frame.offset;
          }
          frames := frames + [DataFrame(id, newEpoch, start, frame.payload[start - frame.offset..])];
        }
        i := i + 1;
      }
      assert pending[..i] == pending;
      pending := frames;
      r := Ok(frames);
    }
  }

  // The receiver

  datatype Receiver = Receiver(id: StreamID, epoch: nat, offset: nat, window: nat)

  function NewReceiver(id: StreamID, epoch: nat, window: nat): Receiver {
    Receiver(id, epoch, 0, OrDefault(window))
  }

  function ResumeReceiver(r: Receiver, epoch: nat, offset: nat): Result<Receiver, StreamError> {
    if epoch <= r.epoch || offset > r.offset then Err(InvalidResume) else Ok(r.(epoch := epoch))
  }

  datatype Accepted = Accepted(state: Receiver, payload: seq<Byte>)

  function Accept(r: Receiver, f: StreamFrame): Result<Accepted, StreamError> {
    if f.id != r.id || f.kind != DATA then Err(NotMine)
    else if f.epoch != r.epoch then Err(Epoch)
    else if f.offset > r.offset then Err(Gap)
    else if End(f) > r.offset + r.window then Err(Credit)
    else
      var start := if r.offset - f.offset > |f.payload| then |f.payload| else r.offset - f.offset;
      var payload := f.payload[start..];
      Ok(Accepted(r.(offset := r.offset + |payload|), payload))
  }

  /** Which frames a receiver takes, and why it refuses the others: DATA of its stream and exactly its epoch
      that starts no later than what it has and ends within its window. */
  lemma AcceptsIff(r: Receiver, f: StreamFrame)
    ensures var mine := f.id == r.id && f.kind == 4; var end := f.offset + |f.payload|;
            && (Accept(r, f).Ok? <==>
                  mine && f.epoch == r.epoch && f.offset <= r.offset && end <= r.offset + r.window)
            && (Accept(r, f) == Err(NotMine) <==> !mine)
            && (Accept(r, f) == Err(Epoch) <==> mine && f.epoch != r.epoch)
            && (Accept(r, f) == Err(Gap) <==> mine && f.epoch == r.epoch && f.offset > r.offset)
            && (Accept(r, f) == Err(Credit) <==>
                  mine && f.epoch == r.epoch && f.offset <= r.offset && end > r.offset + r.window)
  {
  }

  /** Which ACKs a sender applies: those of its epoch between what is acknowledged and what was sent. */
  lemma AcknowledgesIff(s: Sender, epoch: nat, offset: nat, window: nat)
    ensures var r := Acknowledge(s, epoch, offset, window);
            && (r.Ok? <==> epoch == s.epoch && s.acked <= offset <= s.next)
            && (r == Err(Epoch) <==> epoch != s.epoch)
            && (r.Ok? ==>
                  && r.value.acked == offset && r.value.next == s.next && r.value.epoch == s.epoch
                  && r.value.window == (if window > 0 then window else s.window))
  {
  }

  /** Which payloads a sender takes: between one byte and a frame's worth, with the bytes in flight within
      the window; and the frame continues the stream in the current epoch. */
  lemma SendsIff(s: Sender, payload: seq<Byte>)
    requires s.acked <= s.next
    ensures var r := PrepareData(s, payload);
            && (r.Ok? <==> 1 <= |payload| <= 131072 && s.next - s.acked + |payload| <= s.window)
            && (r == Err(InvalidPayload) <==> !(1 <= |payload| <= 131072))
            && (r.Ok? ==>
                  && r.value.frame.offset == s.next && r.value.frame.epoch == s.epoch && r.value.frame.id == s.id
                  && r.value.state.next == s.next + |payload| && r.value.state.acked == s.acked
                  && r.value.state.epoch == s.epoch && r.value.state.window == s.window)
  {
  }

  /** When a resume is taken: at a later epoch, by a sender at an offset between acknowledged and sent, by a
      receiver at an offset it has reached; a receiver keeps its own. */
  lemma ResumesIff(s: Sender, r: Receiver, epoch: nat, offset: nat)
    ensures ResumeSender(s, epoch, offset).Ok? <==> epoch > s.epoch && s.acked <= offset <= s.next
    ensures ResumeReceiver(r, epoch, offset).Ok? <==> epoch > r.epoch && offset <= r.offset
    ensures ResumeReceiver(r, epoch, offset).Ok? ==>
              ResumeReceiver(r, epoch, offset).value == Receiver(r.id, epoch, r.offset, r.window)
    ensures ResumeSender(s, epoch, offset).Ok? ==>
              var t := ResumeSender(s, epoch, offset).value.state;
              t.epoch == epoch && t.acked == offset && t.next == s.next && t.window == s.window
  {
  }

  /** The cumulative ACK of a receiver's state. */
  function CurrentAck(r: Receiver): StreamFrame {
    AckFrame(r.id, r.epoch, r.offset, r.window)
  }

  class StreamReceiverState {
    const id: StreamID
    var epoch: nat
    var offset: nat
    var window: nat

    constructor (id: StreamID, epoch: nat, window: nat)
      ensures State() == NewReceiver(id, epoch, window)
    {
      this.id := id;
      this.epoch, this.offset := epoch, 0;
      this.window := OrDefault(window);
    }

    function State(): Receiver
      reads this
    {
      Receiver(id, epoch, offset, window)
    }

    method Resume(newEpoch: nat, from: nat) returns (r: Result<StreamFrame, StreamError>)
      modifies this
      ensures match ResumeReceiver(old(State()), newEpoch, from)
              case Err(e) => r == Err(e) && State() == old(State())
              case Ok(s) => r == Ok(CurrentAck(s)) && State() == s
    {
      if newEpoch <= epoch || from > offset {
        return Err(InvalidResume);
      }
      epoch := newEpoch;
      r := Ok(AckFrame(id, epoch, offset, window));
    }

    method AcceptFrame(f: StreamFrame) returns (r: Result<(seq<Byte>, StreamFrame), StreamError>)
      modifies this
      ensures match Accept(old(State()), f)
              case Err(e) => r == Err(e) && State() == old(State())
              case Ok(x) => r == Ok((x.payload, CurrentAck(x.state))) && State() == x.state
    {
      if f.id != id || f.kind != DATA {
        return Err(NotMine);
      }
      if f.epoch != epoch {
        return Err(Epoch);
      }
      if f.offset > offset {
        return Err(Gap);
      }
      if End(f) > offset + window {
        return Err(Credit);
      }
      var start := offset - f.offset;
      if start > |f.payload| {
        start := |f.payload|;
      }
      var payload := f.payload[start..];
      offset := offset + |payload|;
      r := Ok((payload, AckFrame(id, epoch, offset, window)));
    }
  }
}
