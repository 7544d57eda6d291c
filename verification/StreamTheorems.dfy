/** What the recoverable stream promises, for every run of a session under loss, repetition,
    reordering and any number of resumes. */
module StreamTheorems {
  import opened RelayTypes
  import opened StreamCodec
  import opened StreamProtocol
  import opened StreamSession

  ghost predicate Holds(s: Session, byteAt: nat)
    requires byteAt < |s.sent|
  {
    exists i :: 0 <= i < |s.snd.pending| && s.snd.pending[i].offset <= byteAt < End(s.snd.pending[i])
                && s.snd.pending[i].payload[byteAt - s.snd.pending[i].offset] == s.sent[byteAt]
  }

  /** The bytes accepted are a prefix of the bytes written, at least as long as what is acknowledged;
      and every byte not yet acknowledged is still held, unchanged, in some pending frame. */
  lemma EndToEnd(id: StreamID, epoch: nat, window: nat, run: seq<Event>)
    ensures var s := Exec(Start(id, epoch, window), run);
            && s.snd.acked <= s.rcv.offset <= s.snd.next == |s.sent|
            && s.got == s.sent[..s.rcv.offset]
            && Contiguous(s.snd.pending)
            && forall k :: s.snd.acked <= k < s.snd.next ==> Holds(s, k)
  {
    StartInv(id, epoch, window);
    RunKeeps(Start(id, epoch, window), run);
    var s := Exec(Start(id, epoch, window), run);
    forall k | s.snd.acked <= k < s.snd.next ensures Holds(s, k) {
      var i := FindPending(s.snd, s.sent, k, |s.snd.pending| - 1);
    }
  }

  lemma {:induction false} FindPending(s: Sender, sent: seq<Byte>, k: nat, last: int) returns (i: nat)
    requires Covers(s, sent) && s.acked <= k && -1 <= last < |s.pending|
    requires if last == -1 then s.pending == [] && k < s.next else k < End(s.pending[last])
    requires s.next == |sent|
    ensures i < |s.pending| && s.pending[i].offset <= k < End(s.pending[i])
    ensures s.pending[i].payload[k - s.pending[i].offset] == sent[k]
    decreases last
  {
    if last > 0 && k < s.pending[last].offset {
      assert End(s.pending[last - 1]) == s.pending[last].offset;
      i := FindPending(s, sent, k, last - 1);
    } else {
      i := last;
    }
  }

  // Resuming

  /** Delivering frames one after the other; the first error stops it. */
  function AcceptAll(r: Receiver, frames: seq<StreamFrame>): Result<Accepted, StreamError>
    decreases frames
  {
    if frames == [] then Ok(Accepted(r, []))
    else match Accept(r, frames[0])
      case Err(e) => Err(e)
      case Ok(x) =>
        match AcceptAll(x.state, frames[1..])
        case Err(e) => Err(e)
        case Ok(y) => Ok(Accepted(y.state, x.payload + y.payload))
  }

  /** Frames a receiver can take one after the other: slices in its epoch, each within its window,
      contiguous, and starting no later than what it has. */
  ghost predicate InOrder(r: Receiver, frames: seq<StreamFrame>, sent: seq<Byte>) {
    && r.offset <= |sent| && Contiguous(frames)
    && (forall i :: 0 <= i < |frames| ==>
          Slice(frames[i], r.id, sent) && frames[i].epoch == r.epoch && |frames[i].payload| <= r.window)
    && (frames != [] ==> frames[0].offset <= r.offset)
  }

  lemma FirstIsAccepted(r: Receiver, frames: seq<StreamFrame>, sent: seq<Byte>)
    requires InOrder(r, frames, sent) && frames != []
    ensures Accept(r, frames[0]).Ok?
    ensures var x := Accept(r, frames[0]).value;
            && InOrder(x.state, frames[1..], sent) && x.state.epoch == r.epoch
            && End(frames[0]) <= x.state.offset && r.offset <= x.state.offset
            && sent[..r.offset] + x.payload == sent[..x.state.offset]
  {
    AcceptExtends(r, frames[0], sent);
    var rest := frames[1..];
    assert forall i :: 0 <= i < |rest| ==> rest[i] == frames[i + 1];
    assert rest != [] ==> End(frames[0]) == rest[0].offset;
  }

  lemma {:induction false} InOrderIsAccepted(r: Receiver, frames: seq<StreamFrame>, sent: seq<Byte>)
    requires InOrder(r, frames, sent)
    ensures AcceptAll(r, frames).Ok?
    ensures var x := AcceptAll(r, frames).value;
            && x.state.epoch == r.epoch && r.offset <= x.state.offset <= |sent|
            && (frames != [] ==> x.state.offset >= End(frames[|frames| - 1]))
            && sent[..r.offset] + x.payload == sent[..x.state.offset]
    decreases frames
  {
    if frames == [] {
      assert sent[..r.offset] + [] == sent[..r.offset];
    } else {
      FirstIsAccepted(r, frames, sent);
      var x := Accept(r, frames[0]).value;
      InOrderIsAccepted(x.state, frames[1..], sent);
      var y := AcceptAll(x.state, frames[1..]).value;
      assert sent[..r.offset] + (x.payload + y.payload) == (sent[..r.offset] + x.payload) + y.payload;
    }
  }

  /** A resume of a session at the next epoch with the sender's own acknowledged offset, and the
      delivery of the returned frames in order. */
  ghost predicate ResumeSucceeds(s: Session) {
    var resumed := ResumeSender(s.snd, s.snd.epoch + 1, s.snd.acked);
    var reset := ResumeReceiver(s.rcv, s.snd.epoch + 1, s.snd.acked);
    && resumed.Ok? && reset.Ok?
    && var all := AcceptAll(reset.value, resumed.value.frames);
       && all.Ok? && all.value.state.offset == s.snd.next
       && s.got + all.value.payload == s.sent
  }

  /** From every reachable state the resume is accepted at both ends, and the frames it returns bring
      the receiver to the end of what was written, with no gap, epoch or credit error. */
  lemma ResumeCompletes(id: StreamID, epoch: nat, window: nat, run: seq<Event>)
    ensures ResumeSucceeds(Exec(Start(id, epoch, window), run))
  {
    StartInv(id, epoch, window);
    RunKeeps(Start(id, epoch, window), run);
    CanResume(Exec(Start(id, epoch, window), run));
    ReadyCompletes(Exec(Start(id, epoch, window), run));
  }

  /** What a resume relies on: the ends agree on offsets and epochs, and the frames it would return
      can be taken in order and reach the end. */
  ghost predicate Ready(s: Session) {
    var frames := Resent(s.snd.id, s.snd.pending, s.snd.epoch + 1, s.snd.acked);
    && s.snd.acked <= s.snd.next == |s.sent| && s.snd.acked <= s.rcv.offset <= |s.sent|
    && s.rcv.epoch <= s.snd.epoch && s.got == s.sent[..s.rcv.offset]
    && InOrder(s.rcv.(epoch := s.snd.epoch + 1), frames, s.sent)
    && (if frames == [] then s.rcv.offset == |s.sent| else End(frames[|frames| - 1]) == |s.sent|)
  }

  lemma ReadyCompletes(s: Session)
    requires Ready(s)
    ensures ResumeSucceeds(s)
  {
    InOrderCompletes(s.rcv.(epoch := s.snd.epoch + 1),
                     Resent(s.snd.id, s.snd.pending, s.snd.epoch + 1, s.snd.acked), s.sent);
  }

  lemma InOrderCompletes(r: Receiver, frames: seq<StreamFrame>, sent: seq<Byte>)
    requires InOrder(r, frames, sent)
    requires if frames == [] then r.offset == |sent| else End(frames[|frames| - 1]) == |sent|
    ensures AcceptAll(r, frames).Ok? && AcceptAll(r, frames).value.state.offset == |sent|
    ensures sent[..r.offset] + AcceptAll(r, frames).value.payload == sent
  {
    InOrderIsAccepted(r, frames, sent);
    assert sent[..|sent|] == sent;
  }

  lemma CanResume(s: Session)
    requires SessionInv(s)
    ensures Ready(s)
  {
    var e := s.snd.epoch + 1;
    ResumeKeepsCover(s.snd, s.sent, e, s.snd.acked);
    ResentShorter(s.snd, e, s.snd.acked, s.rcv.window);
  }

  // Everything can be delivered and acknowledged

  lemma Extend(start: Session, run: seq<Event>, e: Event) returns (next: seq<Event>)
    ensures run <= next && Exec(start, next) == Step(Exec(start, run), e)
  {
    next := run + [e];
    assert next[..|run|] == run;
  }

  /** Some ACK that was sent reports exactly what the receiver has now. */
  ghost predicate AckedNow(s: Session) {
    exists a :: a in s.acks && a.epoch == s.rcv.epoch && a.offset == s.rcv.offset
  }

  /** Frames that were sent and can be taken in order are taken, one delivery each. */
  lemma {:induction false} DeliverAll(start: Session, run: seq<Event>, frames: seq<StreamFrame>)
    returns (next: seq<Event>)
    requires var s := Exec(start, run);
             && InOrder(s.rcv, frames, s.sent) && AckedNow(s) && forall i :: 0 <= i < |frames| ==> frames[i] in s.data
    ensures run <= next
    ensures var s := Exec(start, run); var t := Exec(start, next);
            && t.snd == s.snd && t.sent == s.sent && t.rcv.epoch == s.rcv.epoch && AckedNow(t)
            && (frames != [] ==> t.rcv.offset >= End(frames[|frames| - 1])) && t.rcv.offset >= s.rcv.offset
    decreases frames
  {
    if frames == [] {
      next := run;
    } else {
      var s := Exec(start, run);
      FirstIsAccepted(s.rcv, frames, s.sent);
      next := Extend(start, run, DeliverData(frames[0], s.rcv.window));
      var m := Exec(start, next);
      assert Advertise(m.rcv, s.rcv.window) in m.acks;
      assert forall i :: 0 <= i < |frames[1..]| ==> frames[1..][i] == frames[i + 1];
      next := DeliverAll(start, next, frames[1..]);
    }
  }

  /** The pending frames are on the way, can be taken in order, and reach the end of what was written. */
  ghost predicate OnTheWay(s: Session) {
    && InOrder(s.rcv, s.snd.pending, s.sent) && AckedNow(s) && s.rcv.epoch == s.snd.epoch
    && (forall i :: 0 <= i < |s.snd.pending| ==> s.snd.pending[i] in s.data)
    && (if s.snd.pending == [] then s.rcv.offset == |s.sent|
        else End(s.snd.pending[|s.snd.pending| - 1]) == |s.sent|)
  }

  /** The sender resumes at the next epoch with its own acknowledged offset, and the receiver follows. */
  lemma ResumeBoth(start: Session, run: seq<Event>) returns (next: seq<Event>)
    requires Ready(Exec(start, run))
    ensures run <= next && OnTheWay(Exec(start, next)) && Exec(start, next).sent == Exec(start, run).sent
  {
    var s := Exec(start, run);
    var e := s.snd.epoch + 1;
    next := Extend(start, run, StartResume(e, s.snd.acked));
    var resume := ResumeFrame(s.snd.id, e, s.snd.acked);
    assert resume in Exec(start, next).resumes;
    next := Extend(start, next, DeliverResume(resume, s.rcv.window));
    assert Advertise(s.rcv.(epoch := e), s.rcv.window) in Exec(start, next).acks;
  }

  /** Every byte written can be brought to the receiver. */
  lemma EverythingIsAccepted(id: StreamID, epoch: nat, window: nat, run: seq<Event>) returns (next: seq<Event>)
    ensures run <= next
    ensures var start := Start(id, epoch, window); var t := Exec(start, next);
            && t.sent == Exec(start, run).sent && t.rcv.offset == t.snd.next && AckedNow(t)
            && t.rcv.epoch == t.snd.epoch
  {
    var start := Start(id, epoch, window);
    var s := Exec(start, run);
    assert Ready(s) by {
      StartInv(id, epoch, window);
      RunKeeps(start, run);
      CanResume(s);
    }
    next := ResumeBoth(start, run);
    next := DeliverAll(start, next, Exec(start, next).snd.pending);
    NotPast(id, epoch, window, next);
  }

  lemma NotPast(id: StreamID, epoch: nat, window: nat, run: seq<Event>)
    ensures var s := Exec(Start(id, epoch, window), run); s.rcv.offset <= s.snd.next == |s.sent|
  {
    StartInv(id, epoch, window);
    RunKeeps(Start(id, epoch, window), run);
  }

  /** From every reachable state, whatever was lost, some continuation without a further write ends with
      every byte written accepted and acknowledged, and nothing pending. */
  lemma EverythingIsAcknowledged(id: StreamID, epoch: nat, window: nat, run: seq<Event>) returns (next: seq<Event>)
    ensures run <= next
    ensures var start := Start(id, epoch, window); var t := Exec(start, next);
            && t.sent == Exec(start, run).sent && t.got == t.sent
            && t.snd.acked == t.snd.next && t.snd.pending == []
  {
    var start := Start(id, epoch, window);
    next := EverythingIsAccepted(id, epoch, window, run);
    var m := Exec(start, next);
    var a :| a in m.acks && a.epoch == m.rcv.epoch && a.offset == m.rcv.offset;
    assert m.snd.acked <= m.snd.next by { EndToEnd(id, epoch, window, next); }
    next := Extend(start, next, DeliverAck(a));
    NothingPending(id, epoch, window, next);
  }

  lemma NothingPending(id: StreamID, epoch: nat, window: nat, run: seq<Event>)
    requires var s := Exec(Start(id, epoch, window), run); s.snd.acked == s.snd.next
    ensures var s := Exec(Start(id, epoch, window), run); s.got == s.sent && s.snd.pending == []
  {
    StartInv(id, epoch, window);
    RunKeeps(Start(id, epoch, window), run);
    var s := Exec(Start(id, epoch, window), run);
    CoverIsEmpty(s.snd, s.sent);
    assert s.sent[..|s.sent|] == s.sent;
  }

  lemma CoverIsEmpty(s: Sender, sent: seq<Byte>)
    requires Covers(s, sent)
    ensures s.pending != [] ==> s.acked < s.next
  {
    if |s.pending| > 1 { EndsGrow(s.pending, 0, |s.pending| - 1); }
  }

  // Epochs

  /** A frame of an earlier epoch changes neither end: DATA and RESUME not a receiver that has moved
      on, an ACK not a sender that has. */
  lemma StaleFramesAreIgnored(s: Session, e: Event)
    requires match e
             case DeliverData(f, _) => f.epoch < s.rcv.epoch
             case DeliverResume(f, _) => f.epoch < s.rcv.epoch
             case DeliverAck(a) => a.epoch < s.snd.epoch
             case _ => false
    ensures Step(s, e) == s
  {
  }

  lemma StepRaisesEpochs(s: Session, e: Event)
    ensures s.rcv.epoch <= Step(s, e).rcv.epoch && s.snd.epoch <= Step(s, e).snd.epoch
    ensures s.rcv.offset <= Step(s, e).rcv.offset && s.snd.acked <= Step(s, e).snd.acked
  {
  }

  /** Epochs and offsets only grow, so once the receiver has resumed to an epoch no DATA of an earlier
      one is ever accepted again, in any continuation; and the receiver never runs ahead. */
  lemma {:induction false} EpochIsolation(
    id: StreamID, epoch: nat, window: nat, run: seq<Event>, more: seq<Event>, f: StreamFrame)
    ensures var s := Exec(Start(id, epoch, window), run); var t := Exec(Start(id, epoch, window), run + more);
            && s.rcv.epoch <= t.rcv.epoch <= t.snd.epoch && s.snd.epoch <= t.snd.epoch
            && s.rcv.offset <= t.rcv.offset && s.snd.acked <= t.snd.acked
            && (f.epoch < s.rcv.epoch ==> Accept(t.rcv, f).Err?)
    decreases |more|
  {
    var start := Start(id, epoch, window);
    StartInv(id, epoch, window);
    RunKeeps(start, run + more);
    if more == [] {
      assert run + more == run;
    } else {
      EpochIsolation(id, epoch, window, run, more[..|more| - 1], f);
      assert (run + more)[..|run + more| - 1] == run + more[..|more| - 1];
      StepRaisesEpochs(Exec(start, run + more[..|more| - 1]), more[|more| - 1]);
    }
  }
}
