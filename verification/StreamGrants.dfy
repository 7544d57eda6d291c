/** Whether a chunk that waitSendCredit has granted can still be refused by the sender state. The two
    windows, `sendWin` and the sender state's own, are set from the same ACKs but not at the same time. */
module StreamGrants {
  import opened RelayTypes
  import opened StreamCodec
  import opened StreamProtocol
  import opened StreamFlow

  /** The grant in hand reaches past what the sender state admits. */
  predicate Overdrawn(f: Flow) {
    f.writer.Granted? && f.base.snd.next + f.writer.available > f.base.snd.acked + f.base.snd.window
  }

  /** The step takes window away from under a grant: an ACK with credit that reaches less far than the
      grant in hand, or a grant read from `sendWin` after such an ACK has reached the sender state. */
  predicate Undercuts(f: Flow, e: FlowEvent) {
    match e
    case AckStates(a) =>
      && f.writer.Granted? && OnAckStates(f, a) != f && a.window > 0
      && Limit(a) < f.base.snd.next + f.writer.available
    case ReadCredit =>
      && f.writer.Offsets? && f.half.Half? && f.half.window > 0
      && f.sendWin > f.writer.next - f.writer.acked
      && f.writer.acked + f.sendWin > f.base.snd.acked + f.half.window
    case _ => false
  }

  /** The two windows agree, except that one ACK may be half applied and an ACK without credit sets
      only `sendWin`. */
  ghost predicate Agree(f: Flow) {
    && f.base.snd.acked <= f.base.snd.next
    && (match f.half
        case Whole => f.sendWin == 0 || f.sendWin == f.base.snd.window
        case Half(_, window) =>
          if window > 0 then f.base.snd.window == window else f.sendWin == 0 || f.sendWin == f.base.snd.window)
    && (f.writer.Offsets? ==> f.writer.next == f.base.snd.next && f.writer.acked <= f.base.snd.acked)
    && (f.writer.Granted? ==> f.writer.available > 0)
  }

  lemma StepKeepsAgreement(f: Flow, e: FlowEvent)
    requires Agree(f)
    ensures Agree(FlowStep(f, e))
  {
  }

  /** Exactly such a step overdraws the grant. */
  lemma StepOverdraws(f: Flow, e: FlowEvent)
    requires Agree(f) && !Overdrawn(f)
    ensures Overdrawn(FlowStep(f, e)) <==> Undercuts(f, e)
  {
    match e
    case AckStates(a) => AckOverdraws(f, a);
    case ReadCredit =>
    case _ =>
  }

  lemma AckOverdraws(f: Flow, a: StreamFrame)
    requires Agree(f) && !Overdrawn(f)
    ensures Overdrawn(OnAckStates(f, a)) <==> Undercuts(f, AckStates(a))
  {
  }

  /** The two windows agree after every run. */
  lemma {:induction false} RunAgrees(id: StreamID, epoch: nat, window: nat, run: seq<FlowEvent>)
    ensures Agree(FlowExec(Opened(id, epoch, window), run))
  {
    if run != [] {
      RunAgrees(id, epoch, window, run[..|run| - 1]);
      StepKeepsAgreement(FlowExec(Opened(id, epoch, window), run[..|run| - 1]), run[|run| - 1]);
    }
  }

  /** The sender state refuses some chunk within the grant and the frame size because its window is full. */
  ghost predicate CanBeFull(f: Flow) {
    exists payload: seq<Byte> ::
      f.writer.Granted? && |payload| <= f.writer.available && PrepareData(f.base.snd, payload) == Err(WindowFull)
  }

  /** In every run: the sender state can refuse a granted chunk because its window is full if and only if
      the grant reaches past that window and the window ends before the next whole frame. */
  lemma WindowFullIff(id: StreamID, epoch: nat, window: nat, run: seq<FlowEvent>)
    ensures var f := FlowExec(Opened(id, epoch, window), run);
            CanBeFull(f) <==>
              Overdrawn(f) && f.base.snd.acked + f.base.snd.window < f.base.snd.next + MAX_FRAME
  {
    RunAgrees(id, epoch, window, run);
    FullWhenOverdrawn(FlowExec(Opened(id, epoch, window), run));
  }

  /** In every run: a grant within the window comes to reach past it by exactly the steps that undercut
      it, and one that reaches past it is gone with the chunk that uses it. */
  lemma OverdrawnIff(id: StreamID, epoch: nat, window: nat, run: seq<FlowEvent>, e: FlowEvent)
    ensures var f := FlowExec(Opened(id, epoch, window), run); var g := FlowStep(f, e);
            && (!Overdrawn(f) ==> (Overdrawn(g) <==> Undercuts(f, e)))
            && (Overdrawn(f) && e.SendChunk? && |e.payload| <= f.writer.available ==> !Overdrawn(g))
  {
    var f := FlowExec(Opened(id, epoch, window), run);
    RunAgrees(id, epoch, window, run);
    if !Overdrawn(f) { StepOverdraws(f, e); }
  }

  lemma FullWhenOverdrawn(f: Flow)
    requires Agree(f)
    ensures CanBeFull(f) <==> Overdrawn(f) && f.base.snd.acked + f.base.snd.window < f.base.snd.next + MAX_FRAME
  {
    if Overdrawn(f) && f.base.snd.acked + f.base.snd.window < f.base.snd.next + MAX_FRAME {
      var n := if f.writer.available < MAX_FRAME then f.writer.available else MAX_FRAME;
      var payload: seq<Byte> := seq(n, _ => 0);
      assert PrepareData(f.base.snd, payload) == Err(WindowFull);
    }
  }

  // A run that refuses a granted chunk

  /** One byte of a window of two is sent. */
  lemma OneByteSent() returns (run: seq<FlowEvent>)
    ensures var start := Opened(ZERO_ID, 1, 2); var frame := DataFrame(ZERO_ID, 1, 0, [7]);
            FlowExec(start, run) ==
              start.(base := start.base.(snd := Sender(ZERO_ID, 1, 1, 0, 2, [frame]), data := {frame}, sent := [7]))
  {
    var start := Opened(ZERO_ID, 1, 2);
    run := [];
    run := Extend(start, run, ReadOffsets);
    run := Extend(start, run, ReadCredit);
    assert FlowExec(start, run) == start.(writer := Granted(2));
    run := Extend(start, run, SendChunk([7]));
  }

  /** It is accepted: an ACK with the rest of the window is on the way. */
  lemma OneByteTaken() returns (run: seq<FlowEvent>)
    ensures var f := FlowExec(Opened(ZERO_ID, 1, 2), run);
            && f.base.snd == Sender(ZERO_ID, 1, 1, 0, 2, [DataFrame(ZERO_ID, 1, 0, [7])]) && f.sendWin == 2
            && f.half == Whole && f.writer == NoWrite && !f.closed
            && f.readBuf == [7] && f.window == 2 && f.base.rcv == Receiver(ZERO_ID, 1, 1, 2)
            && AckFrame(ZERO_ID, 1, 1, 1) in f.base.acks
  {
    var start := Opened(ZERO_ID, 1, 2);
    var frame := DataFrame(ZERO_ID, 1, 0, [7]);
    run := OneByteSent();
    assert Accept(start.base.rcv, frame) == Ok(Accepted(Receiver(ZERO_ID, 1, 1, 2), [7]));
    run := Extend(start, run, DataArrives(frame));
  }

  /** It is read: a second ACK of the same offset is on the way. */
  lemma OneByteRead() returns (run: seq<FlowEvent>)
    ensures var f := FlowExec(Opened(ZERO_ID, 1, 2), run);
            && f.base.snd == Sender(ZERO_ID, 1, 1, 0, 2, [DataFrame(ZERO_ID, 1, 0, [7])]) && f.sendWin == 2
            && f.half == Whole && f.writer == NoWrite
            && AckFrame(ZERO_ID, 1, 1, 1) in f.base.acks && AckFrame(ZERO_ID, 1, 1, 2) in f.base.acks
  {
    run := OneByteTaken();
    run := Extend(Opened(ZERO_ID, 1, 2), run, ReadBytes(1));
  }

  /** The later ACK arrives first and its credit is granted; then the earlier one shrinks the window of
      the sender state, and the granted two bytes are refused although the peer has room for them. */
  lemma ReorderedAckRefusesGrant() returns (run: seq<FlowEvent>)
    ensures var f := FlowExec(Opened(ZERO_ID, 1, 2), run);
            f.writer == Granted(2) && f.half == Whole && PrepareData(f.base.snd, [8, 9]) == Err(WindowFull)
  {
    var start := Opened(ZERO_ID, 1, 2);
    run := OneByteRead();
    var p := [DataFrame(ZERO_ID, 1, 0, [7])];
    assert Unacknowledged(p[..0], 1) == [];
    assert Unacknowledged(p, 1) == [];
    run := Extend(start, run, AckStates(AckFrame(ZERO_ID, 1, 1, 2)));
    assert FlowExec(start, run).base.snd == Sender(ZERO_ID, 1, 1, 1, 2, []);
    run := Extend(start, run, AckWindow);
    run := Extend(start, run, ReadOffsets);
    run := Extend(start, run, ReadCredit);
    assert FlowExec(start, run).writer == Granted(2);
    run := Extend(start, run, AckStates(AckFrame(ZERO_ID, 1, 1, 1)));
    assert FlowExec(start, run).base.snd == Sender(ZERO_ID, 1, 1, 1, 1, []);
    run := Extend(start, run, AckWindow);
  }
}
