/** A sender and a receiver state joined by a network that may lose, repeat and reorder frames, with
    any number of resumes: what is accepted is what was sent, and nothing unaccepted is discarded. */
module StreamSession {
  import opened RelayTypes
  import opened StreamCodec
  import opened StreamProtocol

  /** `data`, `acks` and `resumes` are the frames ever sent; `sent` and `got` the bytes written and
      the bytes accepted. */
  datatype Session = Session(
    snd: Sender, rcv: Receiver,
    data: set<StreamFrame>, acks: set<StreamFrame>, resumes: set<StreamFrame>,
    sent: seq<Byte>, got: seq<Byte>)

  /** Both ends are created with the same identifier, epoch and window. */
  function Start(id: StreamID, epoch: nat, window: nat): Session {
    Session(NewSender(id, epoch, window), NewReceiver(id, epoch, window), {}, {}, {}, [], [])
  }

  /** An ACK may advertise any part of the window as free; a resume names a later epoch and an
      offset that is the sender's own acknowledged one or comes from an ACK. */
  datatype Event =
    | Write(payload: seq<Byte>)
    | DeliverData(frame: StreamFrame, free: nat)
    | DeliverAck(ack: StreamFrame)
    | StartResume(epoch: nat, offset: nat)
    | DeliverResume(resume: StreamFrame, free: nat)
    | Readvertise(free: nat)

  predicate Reported(s: Session, offset: nat) {
    offset == s.snd.acked || exists a :: a in s.acks && a.offset == offset
  }

  function ResumeFrame(id: StreamID, epoch: nat, offset: nat): StreamFrame {
    StreamFrame(RESUME, id, epoch, offset, 0, [])
  }

  function Advertise(r: Receiver, free: nat): StreamFrame {
    CurrentAck(r).(window := if free < r.window then free else r.window)
  }

  function OnWrite(s: Session, payload: seq<Byte>): Session {
    match PrepareData(s.snd, payload)
    case Err(_) => s
    case Ok(x) => s.(snd := x.state, data := s.data + {x.frame}, sent := s.sent + payload)
  }

  function OnData(s: Session, f: StreamFrame, free: nat): Session {
    if f !in s.data then s
    else match Accept(s.rcv, f)
      case Err(_) => s
      case Ok(x) => s.(rcv := x.state, got := s.got + x.payload, acks := s.acks + {Advertise(x.state, free)})
  }

  function OnAck(s: Session, a: StreamFrame): Session {
    if a !in s.acks then s
    else match Acknowledge(s.snd, a.epoch, a.offset, a.window)
      case Err(_) => s
      case Ok(snd) => s.(snd := snd)
  }

  function OnStartResume(s: Session, epoch: nat, offset: nat): Session {
    if !Reported(s, offset) then s
    else match ResumeSender(s.snd, epoch, offset)
      case Err(_) => s
      case Ok(x) => s.(snd := x.state, data := s.data + (set f | f in x.frames),
                       resumes := s.resumes + {ResumeFrame(s.snd.id, epoch, offset)})
  }

  function OnResume(s: Session, f: StreamFrame, free: nat): Session {
    if f !in s.resumes then s
    else match ResumeReceiver(s.rcv, f.epoch, f.offset)
      case Err(_) => s
      case Ok(r) => s.(rcv := r, acks := s.acks + {Advertise(r, free)})
  }

  /** Reading frees credit, which a new ACK of the same offset advertises. */
  function OnRead(s: Session, free: nat): Session {
    s.(acks := s.acks + {Advertise(s.rcv, free)})
  }

  function Step(s: Session, e: Event): Session {
    match e
    case Write(payload) => OnWrite(s, payload)
    case DeliverData(f, free) => OnData(s, f, free)
    case DeliverAck(a) => OnAck(s, a)
    case StartResume(epoch, offset) => OnStartResume(s, epoch, offset)
    case DeliverResume(f, free) => OnResume(s, f, free)
    case Readvertise(free) => OnRead(s, free)
  }

  function Exec(start: Session, run: seq<Event>): Session {
    if run == [] then start else Step(Exec(start, run[..|run| - 1]), run[|run| - 1])
  }

  // Pending frames

  /** A DATA frame that carries the bytes at its offset. */
  ghost predicate Slice(f: StreamFrame, id: StreamID, sent: seq<Byte>) {
    && f.kind == DATA && f.id == id && f.payload != []
    && End(f) <= |sent| && f.payload == sent[f.offset..End(f)]
  }

  ghost predicate Contiguous(p: seq<StreamFrame>) {
    forall i :: 0 <= i < |p| - 1 ==> End(p[i]) == p[i + 1].offset
  }

  /** The pending frames are slices of what was sent, one after the other, and cover all of
      [acked, next). */
  ghost predicate Covers(s: Sender, sent: seq<Byte>) {
    && (forall i :: 0 <= i < |s.pending| ==> Slice(s.pending[i], s.id, sent) && |s.pending[i].payload| <= MAX_FRAME)
    && Contiguous(s.pending)
    && (if s.pending == [] then s.acked == s.next
        else s.pending[0].offset <= s.acked < End(s.pending[0]) && End(s.pending[|s.pending| - 1]) == s.next)
  }

  /** Ends grow along contiguous non-empty frames. */
  lemma {:induction false} EndsGrow(p: seq<StreamFrame>, i: nat, j: nat)
    requires Contiguous(p) && (forall k :: 0 <= k < |p| ==> p[k].payload != []) && i < j < |p|
    ensures End(p[i]) <= p[j].offset < End(p[j])
    decreases j
  {
    if i + 1 < j { EndsGrow(p, i, j - 1); }
    assert End(p[j - 1]) == p[j].offset;
  }

  /** Acknowledging drops whole frames from the front. */
  lemma {:induction false} KeptIsSuffix(p: seq<StreamFrame>, offset: nat) returns (k: nat)
    requires Contiguous(p) && forall i :: 0 <= i < |p| ==> p[i].payload != []
    ensures k <= |p| && Unacknowledged(p, offset) == p[k..]
    ensures forall i :: 0 <= i < k ==> End(p[i]) <= offset
    ensures forall i :: k <= i < |p| ==> End(p[i]) > offset
  {
    if p == [] {
      k := 0;
    } else {
      var n := |p| - 1;
      var j := KeptIsSuffix(p[..n], offset);
      if End(p[n]) > offset {
        k := j;
        assert p[k..] == p[..n][k..] + [p[n]];
      } else {
        forall i | 0 <= i < n ensures End(p[i]) <= offset { EndsGrow(p, i, n); }
        k := |p|;
        assert p[..n][j..] == [];
      }
    }
  }

  /** A resume keeps the same frames, cut at the offset and moved to the new epoch. */
  lemma {:induction false} ResentCuts(id: StreamID, p: seq<StreamFrame>, epoch: nat, offset: nat)
    ensures var kept := Unacknowledged(p, offset); var r := Resent(id, p, epoch, offset);
            && |r| == |kept|
            && forall i :: 0 <= i < |r| ==> End(kept[i]) > offset && r[i] == Cut(id, kept[i], epoch, offset)
  {
    if p != [] { ResentCuts(id, p[..|p| - 1], epoch, offset); }
  }

  lemma AcknowledgeKeepsCover(s: Sender, sent: seq<Byte>, offset: nat)
    requires Covers(s, sent) && s.acked <= offset <= s.next
    ensures Covers(s.(acked := offset, pending := Unacknowledged(s.pending, offset)), sent)
  {
    var k := KeptIsSuffix(s.pending, offset);
    var kept := s.pending[k..];
    if kept == [] {
      assert s.pending != [] ==> End(s.pending[|s.pending| - 1]) <= offset;
    } else {
      assert kept[0] == s.pending[k] && kept[|kept| - 1] == s.pending[|s.pending| - 1];
      if k > 0 { assert End(s.pending[k - 1]) == s.pending[k].offset; }
    }
  }

  lemma ResumeKeepsCover(s: Sender, sent: seq<Byte>, epoch: nat, offset: nat)
    requires Covers(s, sent) && s.acked <= offset <= s.next
    ensures var frames := Resent(s.id, s.pending, epoch, offset);
            && Covers(s.(epoch := epoch, acked := offset, pending := frames), sent)
            && (frames != [] ==> frames[0].offset == offset)
            && forall i :: 0 <= i < |frames| ==> frames[i].epoch == epoch
  {
    AcknowledgeKeepsCover(s, sent, offset);
    ResentCuts(s.id, s.pending, epoch, offset);
    CutKeepsCover(s.(acked := offset, pending := Unacknowledged(s.pending, offset)), sent, epoch,
                  Resent(s.id, s.pending, epoch, offset));
  }

  /** Cutting every frame at the acknowledged offset only shortens the first. */
  lemma CutKeepsCover(s: Sender, sent: seq<Byte>, epoch: nat, frames: seq<StreamFrame>)
    requires Covers(s, sent) && |frames| == |s.pending|
    requires forall i :: 0 <= i < |frames| ==>
               End(s.pending[i]) > s.acked && frames[i] == Cut(s.id, s.pending[i], epoch, s.acked)
    ensures Covers(s.(epoch := epoch, pending := frames), sent)
    ensures frames != [] ==> frames[0].offset == s.acked
    ensures forall i :: 0 <= i < |frames| ==> frames[i].epoch == epoch
  {
    forall i | 0 <= i < |frames|
      ensures End(frames[i]) == End(s.pending[i]) && Slice(frames[i], s.id, sent)
      ensures |frames[i].payload| <= |s.pending[i].payload|
    {
      CutIsSlice(s.id, s.pending[i], epoch, s.acked, sent);
    }
    forall i | 0 <= i < |frames| - 1 ensures End(frames[i]) == frames[i + 1].offset {
      EndsGrow(s.pending, 0, i + 1);
    }
  }

  lemma CutIsSlice(id: StreamID, f: StreamFrame, epoch: nat, offset: nat, sent: seq<Byte>)
    requires Slice(f, id, sent) && End(f) > offset
    ensures Slice(Cut(id, f, epoch, offset), id, sent) && End(Cut(id, f, epoch, offset)) == End(f)
    ensures |Cut(id, f, epoch, offset).payload| <= |f.payload|
  {
    var start := if offset < f.offset then f.offset else offset;
    assert f.payload[start - f.offset..] == sent[start..End(f)];
  }

  // The session invariant

  ghost predicate SessionInv(s: Session) {
    && s.snd.id == s.rcv.id
    && s.snd.next == |s.sent| && Covers(s.snd, s.sent)
    && s.snd.acked <= s.rcv.offset <= s.snd.next
    && s.got == s.sent[..s.rcv.offset]
    && s.rcv.epoch <= s.snd.epoch
    && 1 <= s.snd.window <= s.rcv.window
    && (forall i :: 0 <= i < |s.snd.pending| ==> |s.snd.pending[i].payload| <= s.rcv.window)
    && (forall f :: f in s.data ==> Slice(f, s.rcv.id, s.sent) && f.epoch <= s.snd.epoch)
    && (forall a :: a in s.acks ==> a.offset <= s.rcv.offset && a.epoch <= s.rcv.epoch && a.window <= s.rcv.window)
    && (forall f :: f in s.resumes ==> f.offset <= s.rcv.offset && f.epoch <= s.snd.epoch)
  }

  lemma StartInv(id: StreamID, epoch: nat, window: nat)
    ensures SessionInv(Start(id, epoch, window))
  {
  }

  lemma SliceGrows(f: StreamFrame, id: StreamID, sent: seq<Byte>, more: seq<Byte>)
    ensures Slice(f, id, sent) ==> Slice(f, id, sent + more)
  {
    if Slice(f, id, sent) { assert (sent + more)[f.offset..End(f)] == sent[f.offset..End(f)]; }
  }

  /** A new frame continues the cover. */
  lemma WriteKeepsCover(s: Sender, sent: seq<Byte>, payload: seq<Byte>)
    requires Covers(s, sent) && s.next == |sent| && PrepareData(s, payload).Ok?
    ensures var x := PrepareData(s, payload).value;
            Covers(x.state, sent + payload) && x.state.next == |sent + payload| && Slice(x.frame, s.id, sent + payload)
  {
    var x := PrepareData(s, payload).value;
    assert x.frame.payload == (sent + payload)[|sent|..];
    forall i | 0 <= i < |s.pending| ensures Slice(s.pending[i], s.id, sent + payload) {
      SliceGrows(s.pending[i], s.id, sent, payload);
    }
    assert forall i :: 0 <= i < |s.pending| ==> x.state.pending[i] == s.pending[i];
  }

  lemma WriteKeeps(s: Session, payload: seq<Byte>)
    requires SessionInv(s)
    ensures SessionInv(OnWrite(s, payload))
  {
    if PrepareData(s.snd, payload).Ok? {
      WriteKeepsCover(s.snd, s.sent, payload);
      var t := OnWrite(s, payload);
      forall f | f in s.data ensures Slice(f, s.rcv.id, t.sent) { SliceGrows(f, s.rcv.id, s.sent, payload); }
      assert t.sent[..s.rcv.offset] == s.sent[..s.rcv.offset];
      assert forall i :: 0 <= i < |s.snd.pending| ==> t.snd.pending[i] == s.snd.pending[i];
    }
  }

  /** Accepting a slice extends what was accepted by exactly the bytes that follow. */
  lemma AcceptExtends(r: Receiver, f: StreamFrame, sent: seq<Byte>)
    requires Slice(f, r.id, sent) && r.offset <= |sent| && Accept(r, f).Ok?
    ensures var x := Accept(r, f).value;
            && r.offset <= x.state.offset <= |sent|
            && sent[..r.offset] + x.payload == sent[..x.state.offset]
            && x.state.offset == (if End(f) > r.offset then End(f) else r.offset)
  {
    var x := Accept(r, f).value;
    if End(f) > r.offset {
      assert f.payload[r.offset - f.offset..] == sent[r.offset..End(f)];
    } else {
      assert x.payload == [];
    }
  }

  lemma DataKeeps(s: Session, f: StreamFrame, free: nat)
    requires SessionInv(s)
    ensures SessionInv(OnData(s, f, free))
  {
    if f in s.data && Accept(s.rcv, f).Ok? { AcceptExtends(s.rcv, f, s.sent); }
  }

  lemma AckKeeps(s: Session, a: StreamFrame)
    requires SessionInv(s)
    ensures SessionInv(OnAck(s, a))
  {
    if a in s.acks && Acknowledge(s.snd, a.epoch, a.offset, a.window).Ok? {
      AcknowledgeKeepsCover(s.snd, s.sent, a.offset);
      var k := KeptIsSuffix(s.snd.pending, a.offset);
    }
  }

  lemma StartResumeKeeps(s: Session, epoch: nat, offset: nat)
    requires SessionInv(s)
    ensures SessionInv(OnStartResume(s, epoch, offset))
  {
    if Reported(s, offset) && ResumeSender(s.snd, epoch, offset).Ok? {
      ResumeKeepsCover(s.snd, s.sent, epoch, offset);
      ResentShorter(s.snd, epoch, offset, s.rcv.window);
    }
  }

  lemma ResentShorter(s: Sender, epoch: nat, offset: nat, limit: nat)
    requires Contiguous(s.pending)
    requires forall i :: 0 <= i < |s.pending| ==> s.pending[i].payload != [] && |s.pending[i].payload| <= limit
    ensures forall i :: 0 <= i < |Resent(s.id, s.pending, epoch, offset)| ==>
              |Resent(s.id, s.pending, epoch, offset)[i].payload| <= limit
  {
    ResentCuts(s.id, s.pending, epoch, offset);
    var k := KeptIsSuffix(s.pending, offset);
  }

  lemma StepKeeps(s: Session, e: Event)
    requires SessionInv(s)
    ensures SessionInv(Step(s, e))
  {
    match e
    case Write(payload) => WriteKeeps(s, payload);
    case DeliverData(f, free) => DataKeeps(s, f, free);
    case DeliverAck(a) => AckKeeps(s, a);
    case StartResume(epoch, offset) => StartResumeKeeps(s, epoch, offset);
    case DeliverResume(f, free) =>
    case Readvertise(free) =>
  }

  lemma {:induction false} RunKeeps(start: Session, run: seq<Event>)
    requires SessionInv(start)
    ensures SessionInv(Exec(start, run))
  {
    if run != [] {
      RunKeeps(start, run[..|run| - 1]);
      StepKeeps(Exec(start, run[..|run| - 1]), run[|run| - 1]);
    }
  }
}
