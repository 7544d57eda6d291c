/** That a StreamConn moves: what its steps do, and that credit always comes back. */
module StreamDelivery {
  import opened RelayTypes
  import opened StreamCodec
  import opened StreamProtocol
  import opened StreamSession
  import opened StreamTheorems
  import F = StreamFlow
  import opened StreamFlow
  import G = StreamGrants

  // Single steps

  /** handleData on an open stream by cases: the first applicable reason to refuse, or none. */
  lemma RefusedIff(r: Receiver, buffered: nat, window: nat, f: StreamFrame)
    ensures var e := Refused(r, buffered, window, f); var end := f.offset + |f.payload|;
            var fits := buffered + (if end > r.offset then end - r.offset else 0) <= window;
            && (e == Some(Gap) <==> f.offset > r.offset)
            && (e.None? <==> f.offset <= r.offset && fits && Accept(r, f).Ok?)
            && (f.offset <= r.offset && !fits ==> e == Some(Credit))
            && (f.offset <= r.offset && fits && Accept(r, f).Err? ==> e == Some(Accept(r, f).error))
  {
  }

  /** The writer is granted exactly the credit beyond what it saw in flight, and nothing when there is none. */
  lemma GrantIs(f: Flow)
    requires f.writer.Offsets? && f.writer.acked <= f.writer.next
    ensures var w := FlowStep(f, ReadCredit).writer; var inFlight := f.writer.next - f.writer.acked;
            w == if f.sendWin > inFlight then Granted(f.sendWin - inFlight) else NoWrite
  {
  }

  /** The writer reads its offsets when it is free and sends a chunk if and only if it holds credit for it;
      either way it is free again. An ACK reaches the sender state if and only if none is half applied, it
      was sent, and the state takes it; then its window reaches `sendWin`. A resume begins only between
      writes, and reaches the receiver if it was sent and is taken. */
  lemma SendingSteps(f: Flow, payload: seq<Byte>, a: StreamFrame)
    ensures f.writer == NoWrite ==> FlowStep(f, ReadOffsets).writer == Offsets(f.base.snd.next, f.base.snd.acked)
    ensures f.writer.Granted? ==>
              var g := FlowStep(f, SendChunk(payload));
              && (g.writer == NoWrite <==> |payload| <= f.writer.available)
              && (g.base.snd != f.base.snd <==> |payload| <= f.writer.available && PrepareData(f.base.snd, payload).Ok?)
    ensures var g := FlowStep(f, AckStates(a));
            g.half != f.half <==>
              f.half == Whole && a in f.base.acks && a.epoch == f.base.snd.epoch
              && f.base.snd.acked <= a.offset <= f.base.snd.next
    ensures f.half.Half? ==>
              FlowStep(f, AckWindow).sendWin == f.half.window && FlowStep(f, AckWindow).half == Whole
    ensures f.base.snd.acked <= f.base.snd.next ==>
              (FlowStep(f, BeginResume).base.snd.epoch == f.base.snd.epoch + 1 <==> f.writer == NoWrite)
    ensures FlowStep(f, ResumeArrives(a)).base.rcv.epoch != f.base.rcv.epoch <==>
              a in f.base.resumes && a.epoch > f.base.rcv.epoch && a.offset <= f.base.rcv.offset
  {
  }

  /** DATA is taken if and only if it was sent, the stream is open and it is not refused; a CLOSE ends the
      stream if and only if it was sent in the receiver's epoch; Read hands over as much as asked and there. */
  lemma ReceivingSteps(f: Flow, frame: StreamFrame, epoch: nat, max: nat)
    ensures var g := FlowStep(f, DataArrives(frame));
            (g.emitted != f.emitted <==> frame in f.base.data && !f.closed && DataError(f, frame).None?)
    ensures !f.closed ==>
              (FlowStep(f, CloseArrives(epoch)).closed <==> epoch in f.closes && epoch == f.base.rcv.epoch)
    ensures FlowStep(f, CloseLocally).closed
    ensures FlowStep(f, EmitClose).closes == f.closes + {f.base.snd.epoch}
    ensures var g := FlowStep(f, ReadBytes(max)); var n := if max < |f.readBuf| then max else |f.readBuf|;
            && g.consumed == f.consumed + f.readBuf[..n] && g.readBuf == f.readBuf[n..]
            && (g.emitted != f.emitted <==> n > 0 && !f.closed)
  {
    var g := FlowStep(f, DataArrives(frame));
    assert |g.emitted| != |f.emitted| || g.emitted == f.emitted;
  }

  // Credit comes back

  lemma Kept(id: StreamID, epoch: nat, window: nat, run: seq<FlowEvent>)
    ensures BufferInv(FlowExec(Opened(id, epoch, window), run)) && G.Agree(FlowExec(Opened(id, epoch, window), run))
  {
    OpenedBuffer(id, epoch, window);
    RunKeepsBuffer(Opened(id, epoch, window), run);
    G.RunAgrees(id, epoch, window, run);
  }

  /** No ACK is half applied and no write is under way. */
  ghost predicate Settled(f: Flow) {
    f.half == Whole && f.writer == NoWrite && !f.closed
  }

  /** The writer finishes what it was granted, with one byte. */
  lemma Settle(id: StreamID, epoch: nat, window: nat, run: seq<FlowEvent>) returns (next: seq<FlowEvent>)
    requires !FlowExec(Opened(id, epoch, window), run).closed
    ensures run <= next && Settled(FlowExec(Opened(id, epoch, window), next))
  {
    var start := Opened(id, epoch, window);
    next := F.Extend(start, run, AckWindow);
    if FlowExec(start, next).writer.Offsets? { next := F.Extend(start, next, ReadCredit); }
    if FlowExec(start, next).writer.Granted? {
      Kept(id, epoch, window, next);
      next := F.Extend(start, next, SendChunk([0]));
    }
  }

  /** Everything accepted has been read, and an ACK that gives back the whole window is on the way. */
  ghost predicate Emptied(f: Flow) {
    && f.readBuf == [] && f.base.rcv.window == f.window
    && AckFrame(f.base.rcv.id, f.base.rcv.epoch, f.base.rcv.offset, f.window) in f.base.acks
  }

  /** The application reads all there is. */
  lemma ReadAll(start: Flow, run: seq<FlowEvent>) returns (next: seq<FlowEvent>)
    requires var f := FlowExec(start, run);
             && Settled(f) && Buffered(f)
             && (f.readBuf == [] ==> Emptied(f))
    ensures run <= next
    ensures var f := FlowExec(start, run); var g := FlowExec(start, next);
            && Settled(g) && Emptied(g) && g.base.(acks := f.base.acks) == f.base && g.window == f.window
            && f.base.acks <= g.base.acks
  {
    var f := FlowExec(start, run);
    if f.readBuf == [] {
      next := run;
    } else {
      next := F.Extend(start, run, ReadBytes(|f.readBuf|));
      assert FlowExec(start, next).readBuf == [];
    }
  }

  lemma TakeFrame(id: StreamID, epoch: nat, window: nat, run: seq<FlowEvent>, frames: seq<StreamFrame>)
    returns (next: seq<FlowEvent>)
    requires var f := FlowExec(Opened(id, epoch, window), run);
             && Settled(f) && Emptied(f) && InOrder(f.base.rcv, frames, f.base.sent) && frames != []
             && frames[0] in f.base.data
    ensures run <= next
    ensures var f := FlowExec(Opened(id, epoch, window), run); var g := FlowExec(Opened(id, epoch, window), next);
            && Settled(g) && Emptied(g) && InOrder(g.base.rcv, frames[1..], g.base.sent)
            && g.base.snd == f.base.snd && g.base.sent == f.base.sent && g.base.data == f.base.data
            && g.base.rcv.offset >= End(frames[0]) && g.base.rcv.epoch == f.base.rcv.epoch
            && g.base.rcv.offset >= f.base.rcv.offset
  {
    var start := Opened(id, epoch, window);
    var f := FlowExec(start, run);
    FirstIsAccepted(f.base.rcv, frames, f.base.sent);
    assert DataError(f, frames[0]).None?;
    next := F.Extend(start, run, DataArrives(frames[0]));
    Kept(id, epoch, window, next);
    next := ReadAll(start, next);
  }

  lemma RestSent(frames: seq<StreamFrame>, data: set<StreamFrame>)
    requires frames != [] && forall i :: 0 <= i < |frames| ==> frames[i] in data
    ensures forall i :: 0 <= i < |frames[1..]| ==> frames[1..][i] in data
    ensures |frames| > 1 ==> frames[1..] != [] && frames[1..][|frames| - 2] == frames[|frames| - 1]
  {
  }

  lemma {:induction false} TakeFrames(
    id: StreamID, epoch: nat, window: nat, run: seq<FlowEvent>, frames: seq<StreamFrame>)
    returns (next: seq<FlowEvent>)
    requires var f := FlowExec(Opened(id, epoch, window), run);
             && Settled(f) && Emptied(f) && InOrder(f.base.rcv, frames, f.base.sent)
             && forall i :: 0 <= i < |frames| ==> frames[i] in f.base.data
    ensures run <= next
    ensures var f := FlowExec(Opened(id, epoch, window), run); var g := FlowExec(Opened(id, epoch, window), next);
            && Settled(g) && Emptied(g) && g.base.snd == f.base.snd && g.base.sent == f.base.sent
            && g.base.rcv.epoch == f.base.rcv.epoch && g.base.rcv.offset >= f.base.rcv.offset
            && (frames != [] ==> g.base.rcv.offset >= End(frames[|frames| - 1]))
    decreases frames
  {
    if frames == [] {
      next := run;
    } else {
      next := TakeFrame(id, epoch, window, run, frames);
      RestSent(frames, FlowExec(Opened(id, epoch, window), run).base.data);
      next := TakeFrames(id, epoch, window, next, frames[1..]);
    }
  }

  /** t is s after its sender has resumed. */
  ghost predicate HalfResumed(s: Session, t: Session) {
    var e := s.snd.epoch + 1;
    && t.sent == s.sent && t.rcv == s.rcv && t.snd.id == s.snd.id && t.snd.epoch == e
    && t.snd.pending == Resent(s.snd.id, s.snd.pending, e, s.snd.acked)
    && ResumeFrame(s.snd.id, e, s.snd.acked) in t.resumes
    && forall i :: 0 <= i < |t.snd.pending| ==> t.snd.pending[i] in t.data
  }

  /** The sender resumes at the next epoch with its own acknowledged offset. */
  lemma ResumeSending(start: Flow, run: seq<FlowEvent>) returns (next: seq<FlowEvent>)
    requires var f := FlowExec(start, run); Settled(f) && f.base.snd.acked <= f.base.snd.next
    ensures run <= next
    ensures var f := FlowExec(start, run); var g := FlowExec(start, next);
            Settled(g) && g.readBuf == f.readBuf && g.window == f.window && HalfResumed(f.base, g.base)
  {
    next := F.Extend(start, run, BeginResume);
  }

  /** The receiver follows, and answers with what it has. */
  lemma ResumeReceiving(start: Flow, run: seq<FlowEvent>, e: nat, offset: nat) returns (next: seq<FlowEvent>)
    requires var f := FlowExec(start, run);
             && Settled(f) && f.base.rcv.window == f.window && |f.readBuf| <= f.window
             && e > f.base.rcv.epoch && offset <= f.base.rcv.offset
             && ResumeFrame(f.base.snd.id, e, offset) in f.base.resumes
    ensures run <= next
    ensures var f := FlowExec(start, run); var g := FlowExec(start, next);
            && Settled(g) && g.base == f.base.(rcv := f.base.rcv.(epoch := e), acks := g.base.acks)
            && AckedNow(g.base) && g.readBuf == f.readBuf && (g.readBuf == [] ==> Emptied(g))
  {
    var f := FlowExec(start, run);
    next := F.Extend(start, run, ResumeArrives(ResumeFrame(f.base.snd.id, e, offset)));
    var g := FlowExec(start, next);
    assert Advertise(g.base.rcv, Free(f)) in g.base.acks;
  }

  /** t is s after both ends have resumed. */
  ghost predicate ResumedFrom(s: Session, t: Session) {
    && t.sent == s.sent && t.rcv == s.rcv.(epoch := s.snd.epoch + 1) && AckedNow(t) && t.snd.epoch == s.snd.epoch + 1
    && t.snd.pending == Resent(s.snd.id, s.snd.pending, s.snd.epoch + 1, s.snd.acked)
    && forall i :: 0 <= i < |t.snd.pending| ==> t.snd.pending[i] in t.data
  }

  lemma ResumeEnds(start: Flow, run: seq<FlowEvent>) returns (next: seq<FlowEvent>)
    requires var f := FlowExec(start, run);
             && Settled(f) && f.base.rcv.window == f.window && |f.readBuf| <= f.window
             && f.base.snd.acked <= f.base.snd.next && f.base.snd.acked <= f.base.rcv.offset
             && f.base.rcv.epoch <= f.base.snd.epoch
    ensures run <= next
    ensures var f := FlowExec(start, run); var g := FlowExec(start, next);
            Settled(g) && ResumedFrom(f.base, g.base) && (g.readBuf == [] ==> Emptied(g))
  {
    var s := FlowExec(start, run).base;
    var half := ResumeSending(start, run);
    next := ResumeReceiving(start, half, s.snd.epoch + 1, s.snd.acked);
    WholeResumed(s, FlowExec(start, half).base, FlowExec(start, next).base);
  }

  lemma WholeResumed(s: Session, m: Session, t: Session)
    requires HalfResumed(s, m) && t == m.(rcv := m.rcv.(epoch := s.snd.epoch + 1), acks := t.acks) && AckedNow(t)
    ensures ResumedFrom(s, t)
  {
  }

  lemma ReadyIsOnTheWay(s: Session, t: Session)
    requires Ready(s) && ResumedFrom(s, t)
    ensures OnTheWay(t)
  {
  }

  lemma MoreAcks(s: Session, t: Session)
    requires OnTheWay(s) && t.(acks := s.acks) == s && s.acks <= t.acks
    ensures OnTheWay(t)
  {
    var a :| a in s.acks && a.epoch == s.rcv.epoch && a.offset == s.rcv.offset;
    assert a in t.acks;
  }

  /** Then the application reads what it has. */
  lemma ResumeAndRead(id: StreamID, epoch: nat, window: nat, run: seq<FlowEvent>) returns (next: seq<FlowEvent>)
    requires Settled(FlowExec(Opened(id, epoch, window), run))
    ensures run <= next
    ensures var g := FlowExec(Opened(id, epoch, window), next); Settled(g) && Emptied(g) && OnTheWay(g.base)
  {
    var start := Opened(id, epoch, window);
    CanStart(id, epoch, window, run);
    var resumed := ResumeEnds(start, run);
    ResumedIsOnTheWay(id, epoch, window, run, FlowExec(start, resumed).base);
    assert Buffered(FlowExec(start, resumed)) by { Kept(id, epoch, window, resumed); }
    next := ReadAll(start, resumed);
    MoreAcks(FlowExec(start, resumed).base, FlowExec(start, next).base);
  }

  lemma CanStart(id: StreamID, epoch: nat, window: nat, run: seq<FlowEvent>)
    ensures var f := FlowExec(Opened(id, epoch, window), run);
            && f.base.rcv.window == f.window && |f.readBuf| <= f.window
            && f.base.snd.acked <= f.base.snd.next && f.base.snd.acked <= f.base.rcv.offset
            && f.base.rcv.epoch <= f.base.snd.epoch
  {
    Kept(id, epoch, window, run);
  }

  lemma ResumedIsOnTheWay(id: StreamID, epoch: nat, window: nat, run: seq<FlowEvent>, t: Session)
    requires ResumedFrom(FlowExec(Opened(id, epoch, window), run).base, t)
    ensures OnTheWay(t)
  {
    var s := FlowExec(Opened(id, epoch, window), run).base;
    assert SessionInv(s) by { Kept(id, epoch, window, run); }
    CanResume(s);
    ReadyIsOnTheWay(s, t);
  }

  /** And the pending frames are taken and read. */
  lemma TakePending(id: StreamID, epoch: nat, window: nat, run: seq<FlowEvent>) returns (next: seq<FlowEvent>)
    requires var f := FlowExec(Opened(id, epoch, window), run); Settled(f) && Emptied(f) && OnTheWay(f.base)
    ensures run <= next
    ensures var g := FlowExec(Opened(id, epoch, window), next);
            && Settled(g) && Emptied(g) && g.base.rcv.epoch == g.base.snd.epoch && g.base.rcv.offset == g.base.snd.next
  {
    next := TakeFrames(id, epoch, window, run, FlowExec(Opened(id, epoch, window), run).base.snd.pending);
    AllTaken(id, epoch, window, next);
  }

  /** The ACK of everything arrives, and the writer asks for credit. */
  lemma GrantWindow(start: Flow, run: seq<FlowEvent>) returns (next: seq<FlowEvent>)
    requires var f := FlowExec(start, run);
             && Settled(f) && Emptied(f) && f.window >= 1 && f.base.rcv.epoch == f.base.snd.epoch
             && f.base.snd.acked <= f.base.rcv.offset == f.base.snd.next
    ensures run <= next
    ensures var f := FlowExec(start, run); var g := FlowExec(start, next);
            && g.writer == Granted(f.window) && g.base.snd.acked == g.base.snd.next == f.base.snd.next
            && g.consumed == f.consumed && g.base.sent == f.base.sent && !g.closed
  {
    var f := FlowExec(start, run);
    next := F.Extend(start, run, AckStates(AckFrame(f.base.rcv.id, f.base.rcv.epoch, f.base.rcv.offset, f.window)));
    next := F.Extend(start, next, AckWindow);
    next := F.Extend(start, next, ReadOffsets);
    next := F.Extend(start, next, ReadCredit);
  }

  /** From every reachable state of an open stream, guarded or not and whatever was lost, some continuation
      brings every byte written to the peer's application, has it acknowledged, and grants the writer the
      whole window again: credit is never lost for good. */
  lemma CreditComesBack(id: StreamID, epoch: nat, window: nat, run: seq<FlowEvent>) returns (next: seq<FlowEvent>)
    requires !FlowExec(Opened(id, epoch, window), run).closed
    ensures run <= next
    ensures var g := FlowExec(Opened(id, epoch, window), next);
            && g.consumed == g.base.sent && g.base.snd.acked == g.base.snd.next
            && g.writer == Granted(OrDefault(window))
  {
    next := Settle(id, epoch, window, run);
    next := ResumeAndRead(id, epoch, window, next);
    next := TakePending(id, epoch, window, next);
    next := GrantAgain(id, epoch, window, next);
  }

  lemma GrantAgain(id: StreamID, epoch: nat, window: nat, run: seq<FlowEvent>) returns (next: seq<FlowEvent>)
    requires var f := FlowExec(Opened(id, epoch, window), run);
             && Settled(f) && Emptied(f) && f.base.rcv.epoch == f.base.snd.epoch && f.base.rcv.offset == f.base.snd.next
    ensures run <= next
    ensures var g := FlowExec(Opened(id, epoch, window), next);
            && g.consumed == g.base.sent && g.base.snd.acked == g.base.snd.next
            && g.writer == Granted(OrDefault(window))
  {
    AllTaken(id, epoch, window, run);
    var f := FlowExec(Opened(id, epoch, window), run);
    assert f.consumed + [] == f.consumed && f.base.sent[..|f.base.sent|] == f.base.sent;
    next := GrantWindow(Opened(id, epoch, window), run);
  }

  lemma AllTaken(id: StreamID, epoch: nat, window: nat, run: seq<FlowEvent>)
    ensures var f := FlowExec(Opened(id, epoch, window), run);
            && f.base.snd.acked <= f.base.rcv.offset <= f.base.snd.next == |f.base.sent|
            && f.window == OrDefault(window)
            && f.consumed + f.readBuf == f.base.sent[..f.base.rcv.offset]
  {
    Kept(id, epoch, window, run);
    WindowIs(id, epoch, window, run);
  }

  lemma {:induction false} WindowIs(id: StreamID, epoch: nat, window: nat, run: seq<FlowEvent>)
    ensures FlowExec(Opened(id, epoch, window), run).window == OrDefault(window)
  {
    if run != [] { WindowIs(id, epoch, window, run[..|run| - 1]); }
  }
}
