/** Credit on a StreamConn, for every run. The receiving end keeps its promises always. The sending end
    applies an ACK in two steps and may read its credit in between; it keeps within the peer's room
    until it sends a chunk on a stale grant, and a stale grant is exactly what some peer refuses. */
module StreamCredit {
  import opened RelayTypes
  import opened StreamCodec
  import opened StreamProtocol
  import opened StreamSession
  import opened StreamFlow
  import T = StreamTheorems

  /** How far the peer may send: what its application consumed, plus the window. */
  function Room(f: Flow): nat {
    |f.consumed| + f.window
  }

  /** The receiving end: the bytes read and buffered are a prefix of those written, the buffer stays
      within the window, and the advertised limits never decrease in the order of emission. */
  lemma ReceiverCredit(id: StreamID, epoch: nat, window: nat, run: seq<FlowEvent>)
    ensures var f := FlowExec(Opened(id, epoch, window), run);
            && f.base.rcv.offset <= |f.base.sent|
            && f.consumed + f.readBuf == f.base.sent[..f.base.rcv.offset]
            && |f.readBuf| <= f.window
            && Rising(f.emitted, Room(f))
  {
    OpenedBuffer(id, epoch, window);
    RunKeepsBuffer(Opened(id, epoch, window), run);
  }

  /** Every ACK that DATA, RESUME or Read emits, in any run, advertises exactly the consumed bytes plus
      the window. */
  lemma EmittedAckIsExact(id: StreamID, epoch: nat, window: nat, run: seq<FlowEvent>, e: FlowEvent)
    ensures var f := FlowExec(Opened(id, epoch, window), run); var g := FlowStep(f, e);
            g.emitted == f.emitted || exists a :: g.emitted == f.emitted + [a] && Limit(a) == Room(g)
  {
    OpenedBuffer(id, epoch, window);
    RunKeepsBuffer(Opened(id, epoch, window), run);
    NewAckIsExact(FlowExec(Opened(id, epoch, window), run), e);
  }

  lemma NewAckIsExact(f: Flow, e: FlowEvent)
    requires Buffered(f)
    ensures var g := FlowStep(f, e);
            && Room(f) <= Room(g)
            && (g.emitted == f.emitted || exists a :: g.emitted == f.emitted + [a] && Limit(a) == Room(g))
            && (forall a :: a in g.base.acks ==> a in f.base.acks || Limit(a) == Room(g))
  {
    match e
    case DataArrives(frame) =>
      if frame in f.base.data && !f.closed && DataError(f, frame).None? {
        assert |Accept(f.base.rcv, frame).value.payload| == Unique(frame, f.base.rcv.offset);
      }
    case _ =>
  }

  // The sending end

  /** Granted credit that reaches past every ACK seen, while the window in the sender state does too. */
  predicate StaleGrant(f: Flow) {
    && f.writer.Granted? && f.base.snd.next + f.writer.available > f.known
    && f.base.snd.acked + f.base.snd.window > f.known
  }

  /** No chunk is sent on a stale grant. */
  predicate Guarded(f: Flow, e: FlowEvent) {
    e.SendChunk? ==> !StaleGrant(f)
  }

  ghost predicate GuardedRun(start: Flow, run: seq<FlowEvent>) {
    forall i :: 0 <= i < |run| ==> Guarded(FlowExec(start, run[..i]), run[i])
  }

  lemma GuardedPrefix(start: Flow, run: seq<FlowEvent>, n: nat)
    requires GuardedRun(start, run) && n <= |run|
    ensures GuardedRun(start, run[..n])
    ensures n < |run| ==> Guarded(FlowExec(start, run[..n]), run[n])
  {
    forall i | 0 <= i < n ensures Guarded(FlowExec(start, run[..n][..i]), run[..n][i]) {
      assert run[..n][..i] == run[..i];
    }
  }

  lemma GuardedBy(start: Flow, run: seq<FlowEvent>, e: FlowEvent)
    requires GuardedRun(start, run) && Guarded(FlowExec(start, run), e)
    ensures GuardedRun(start, run + [e]) && FlowExec(start, run + [e]) == FlowStep(FlowExec(start, run), e)
  {
    var longer := run + [e];
    assert longer[..|run|] == run;
    forall i | 0 <= i < |longer| ensures Guarded(FlowExec(start, longer[..i]), longer[i]) {
      assert longer[..i] == if i < |run| then run[..i] else run;
    }
  }

  /** Some ACK that was applied reaches as far as is known. */
  ghost predicate Witnessed(f: Flow) {
    exists a :: a in f.base.acks && Limit(a) == f.known && a.offset <= f.base.snd.acked
  }

  /** What was sent stays within what is known. The state's window does too, unless an ACK without credit
      has acknowledged everything and left that window as it was. */
  ghost predicate CreditInv(f: Flow) {
    && f.base.snd.acked <= f.base.snd.next <= f.known
    && Witnessed(f)
    && (f.base.snd.acked + f.base.snd.window <= f.known || f.base.snd.acked == f.base.snd.next == f.known)
    && (match f.half
        case Whole => f.base.snd.acked + f.sendWin <= f.known
        case Half(oldAcked, window) =>
          oldAcked <= f.base.snd.acked && oldAcked + f.sendWin <= f.known && f.base.snd.acked + window <= f.known)
    && (f.writer.Offsets? ==> f.writer.next == f.base.snd.next && f.writer.acked <= f.base.snd.acked)
  }

  /** An ACK of a later offset was emitted later, so it reaches at least as far. */
  lemma LaterReachesFurther(f: Flow, a: StreamFrame, b: StreamFrame)
    requires Buffered(f) && a in f.base.acks && b in f.base.acks && a.offset < b.offset
    ensures Limit(a) <= Limit(b)
  {
    var i :| 0 <= i < |f.emitted| && f.emitted[i] == a;
    var j :| 0 <= j < |f.emitted| && f.emitted[j] == b;
    assert i < j;
  }

  lemma AckKeepsCredit(f: Flow, a: StreamFrame)
    requires CreditInv(f) && Buffered(f)
    ensures CreditInv(OnAckStates(f, a))
  {
    var g := OnAckStates(f, a);
    if g != f {
      var w :| w in f.base.acks && Limit(w) == f.known && w.offset <= f.base.snd.acked;
      if a.offset > f.base.snd.acked { LaterReachesFurther(f, w, a); }
      assert w in g.base.acks && a in g.base.acks;
    }
  }

  lemma ChunkKeepsCredit(f: Flow, payload: seq<Byte>)
    requires CreditInv(f) && !StaleGrant(f)
    ensures CreditInv(OnSendChunk(f, payload))
  {
    var g := OnSendChunk(f, payload);
    assert g.base.acks == f.base.acks && g.base.snd.acked == f.base.snd.acked;
  }

  lemma WitnessStays(f: Flow, g: Flow)
    requires Witnessed(f) && f.base.acks <= g.base.acks && g.known == f.known && g.base.snd.acked == f.base.snd.acked
    ensures Witnessed(g)
  {
    var w :| w in f.base.acks && Limit(w) == f.known && w.offset <= f.base.snd.acked;
    assert w in g.base.acks;
  }

  lemma StepKeepsCredit(f: Flow, e: FlowEvent)
    requires CreditInv(f) && Buffered(f) && Guarded(f, e)
    ensures CreditInv(FlowStep(f, e))
  {
    match e
    case AckStates(a) => AckKeepsCredit(f, a);
    case SendChunk(payload) => ChunkKeepsCredit(f, payload);
    case _ => OtherKeepsCredit(f, e);
  }

  lemma OtherKeepsCredit(f: Flow, e: FlowEvent)
    requires CreditInv(f) && !e.AckStates? && !e.SendChunk?
    ensures CreditInv(FlowStep(f, e))
  {
    WitnessStays(f, FlowStep(f, e));
  }

  lemma OpenedCredit(id: StreamID, epoch: nat, window: nat)
    ensures CreditInv(Opened(id, epoch, window))
  {
    var f := Opened(id, epoch, window);
    assert AckFrame(id, epoch, 0, f.window) in f.base.acks;
  }

  lemma {:induction false} RunKeepsCredit(id: StreamID, epoch: nat, window: nat, run: seq<FlowEvent>)
    requires GuardedRun(Opened(id, epoch, window), run)
    ensures CreditInv(FlowExec(Opened(id, epoch, window), run)) && BufferInv(FlowExec(Opened(id, epoch, window), run))
  {
    var start := Opened(id, epoch, window);
    OpenedBuffer(id, epoch, window);
    RunKeepsBuffer(start, run);
    if run == [] {
      OpenedCredit(id, epoch, window);
    } else {
      var last := |run| - 1;
      GuardedPrefix(start, run, last);
      RunKeepsCredit(id, epoch, window, run[..last]);
      StepKeepsCredit(FlowExec(start, run[..last]), run[last]);
    }
  }

  /** In every guarded run the sender never passes what the peer has room for, whatever ACKs are lost,
      stale, reordered or half applied; so no frame it ever sent, for the first time or again, is
      refused for credit. */
  lemma SenderCredit(id: StreamID, epoch: nat, window: nat, run: seq<FlowEvent>)
    requires GuardedRun(Opened(id, epoch, window), run)
    ensures var f := FlowExec(Opened(id, epoch, window), run);
            f.base.snd.next <= f.known <= Room(f) && !Refuses(f)
  {
    RunKeepsCredit(id, epoch, window, run);
    var f := FlowExec(Opened(id, epoch, window), run);
    KnownIsRoom(f);
    forall frame | frame in f.base.data ensures DataError(f, frame) != Some(Credit) {
      FitsRoom(f, frame);
    }
  }

  /** The peer refuses some frame for credit. */
  ghost predicate Refuses(f: Flow) {
    exists frame :: frame in f.base.data && DataError(f, frame) == Some(Credit)
  }

  lemma KnownIsRoom(f: Flow)
    requires Buffered(f) && Witnessed(f)
    ensures f.known <= Room(f)
  {
    var w :| w in f.base.acks && Limit(w) == f.known && w.offset <= f.base.snd.acked;
    assert w in f.emitted;
  }

  lemma FitsRoom(f: Flow, frame: StreamFrame)
    requires Buffered(f) && End(frame) <= Room(f)
    ensures DataError(f, frame) != Some(Credit)
  {
  }

  // The guard is exact

  /** Two runs that look the same from the sending end. */
  ghost predicate SameSender(f: Flow, g: Flow) {
    && g.base.snd == f.base.snd && g.base.data == f.base.data && g.base.resumes == f.base.resumes
    && g.base.sent == f.base.sent && g.known == f.known
    && g.sendWin == f.sendWin && g.half == f.half && g.writer == f.writer
  }

  predicate PeerEvent(e: FlowEvent) {
    e.DataArrives? || e.ResumeArrives? || e.CloseArrives? || e.ReadBytes? || e.CloseLocally?
  }

  /** g is f with a peer that gives no credit past `limit`: they are the same, or f's peer has gone past
      it and the ACKs that g lacks say so. */
  ghost predicate Stingy(f: Flow, g: Flow, limit: nat) {
    && SameSender(f, g) && Room(g) <= limit && g.base.acks <= f.base.acks
    && (f == g || (Room(f) > limit && forall a :: a in f.base.acks ==> a in g.base.acks || Limit(a) > limit))
  }

  lemma SenderStepStaysStingy(f: Flow, g: Flow, e: FlowEvent, limit: nat)
    requires Stingy(f, g, limit) && !PeerEvent(e) && FlowStep(f, e).known <= limit
    ensures Stingy(FlowStep(f, e), FlowStep(g, e), limit)
  {
    if e.AckStates? {
      AckStaysStingy(f, g, e.ack, limit);
    } else {
      SenderStepAgrees(f, g, e);
      SenderStepKeepsPeer(f, e);
      SenderStepKeepsPeer(g, e);
    }
  }

  /** The sending end does the same in both. */
  lemma SenderStepAgrees(f: Flow, g: Flow, e: FlowEvent)
    requires SameSender(f, g) && !PeerEvent(e) && !e.AckStates?
    ensures SameSender(FlowStep(f, e), FlowStep(g, e))
  {
  }

  /** It leaves the peer's room and ACKs alone. */
  lemma SenderStepKeepsPeer(f: Flow, e: FlowEvent)
    requires !PeerEvent(e)
    ensures Room(FlowStep(f, e)) == Room(f) && FlowStep(f, e).base.acks == f.base.acks
  {
  }

  lemma AckStaysStingy(f: Flow, g: Flow, a: StreamFrame, limit: nat)
    requires Stingy(f, g, limit) && OnAckStates(f, a).known <= limit
    ensures Stingy(OnAckStates(f, a), OnAckStates(g, a), limit)
  {
    if f != g { assert Limit(a) <= limit || OnAckStates(f, a) == f; }
  }

  lemma PeerStepStaysStingy(f: Flow, g: Flow, e: FlowEvent, limit: nat)
    requires Stingy(f, g, limit) && PeerEvent(e) && Buffered(f)
    ensures Stingy(FlowStep(f, e), if f == g && Room(FlowStep(f, e)) <= limit then FlowStep(f, e) else g, limit)
  {
    NewAckIsExact(f, e);
    var t := FlowStep(f, e);
    assert SameSender(t, f) && f.base.acks <= t.base.acks;
  }

  lemma KeepStep(start: Flow, run: seq<FlowEvent>, e: FlowEvent) returns (longer: seq<FlowEvent>)
    ensures FlowExec(start, longer) == FlowStep(FlowExec(start, run), e)
    ensures GuardedRun(start, run) && Guarded(FlowExec(start, run), e) ==> GuardedRun(start, longer)
  {
    longer := Extend(start, run, e);
    if GuardedRun(start, run) && Guarded(FlowExec(start, run), e) { GuardedBy(start, run, e); }
  }

  /** Every run has a sibling that looks the same from the sending end and whose peer gives no credit
      beyond the ACKs that were applied. */
  lemma {:induction false} StingySibling(id: StreamID, epoch: nat, window: nat, run: seq<FlowEvent>, limit: nat)
    returns (kept: seq<FlowEvent>)
    requires FlowExec(Opened(id, epoch, window), run).known <= limit
    ensures var start := Opened(id, epoch, window);
            && Stingy(FlowExec(start, run), FlowExec(start, kept), limit)
            && (GuardedRun(start, run) ==> GuardedRun(start, kept))
  {
    var start := Opened(id, epoch, window);
    if run == [] {
      kept := [];
    } else {
      var last := |run| - 1;
      var f := FlowExec(start, run[..last]);
      if GuardedRun(start, run) { GuardedPrefix(start, run, last); }
      kept := StingySibling(id, epoch, window, run[..last], limit);
      var g := FlowExec(start, kept);
      if !PeerEvent(run[last]) {
        SenderStepStaysStingy(f, g, run[last], limit);
        kept := KeepStep(start, kept, run[last]);
      } else {
        OpenedBuffer(id, epoch, window);
        RunKeepsBuffer(start, run[..last]);
        PeerStepStaysStingy(f, g, run[last], limit);
        if f == g && Room(FlowStep(f, run[last])) <= limit { kept := KeepStep(start, kept, run[last]); }
      }
    }
  }

  /** With no more room than is known, a byte on a stale grant is refused. */
  lemma StaleByteIsRefused(g: Flow)
    requires CreditInv(g) && BufferInv(g) && StaleGrant(g) && Room(g) == g.known
    ensures Refuses(FlowStep(g, SendChunk([0])))
  {
    var t := FlowStep(g, SendChunk([0]));
    var frame := DataFrame(g.base.snd.id, g.base.snd.epoch, g.base.snd.next, [0]);
    assert PrepareData(g.base.snd, [0]).Ok?;
    assert frame in t.base.data;
    assert DataError(t, frame) == Some(Credit);
  }

  /** Some peer that the sender cannot tell from its own, in a run that was guarded so far, refuses the
      chunk that the writer may send next. */
  ghost predicate MayBeRefused(start: Flow, f: Flow) {
    exists run: seq<FlowEvent>, payload: seq<Byte> ::
      GuardedRun(start, run) && SameSender(f, FlowExec(start, run))
      && Refuses(FlowStep(FlowExec(start, run), SendChunk(payload)))
  }

  /** The guard is exact: in every state of every guarded run, the next chunk is within the room of every
      peer that could have sent the ACKs seen so far if and only if the grant is not stale. */
  lemma ChunkIsSafeIff(id: StreamID, epoch: nat, window: nat, run: seq<FlowEvent>)
    requires GuardedRun(Opened(id, epoch, window), run)
    ensures var start := Opened(id, epoch, window);
            MayBeRefused(start, FlowExec(start, run)) <==> StaleGrant(FlowExec(start, run))
  {
    var start := Opened(id, epoch, window);
    var f := FlowExec(start, run);
    if StaleGrant(f) {
      var kept := StingySibling(id, epoch, window, run, f.known);
      var g := FlowExec(start, kept);
      RunKeepsCredit(id, epoch, window, kept);
      KnownIsRoom(g);
      StaleByteIsRefused(g);
      assert Refuses(FlowStep(FlowExec(start, kept), SendChunk([0])));
    } else {
      forall other: seq<FlowEvent>, payload: seq<Byte>
        | GuardedRun(start, other) && SameSender(f, FlowExec(start, other))
        ensures !Refuses(FlowStep(FlowExec(start, other), SendChunk(payload)))
      {
        GuardedBy(start, other, SendChunk(payload));
        SenderCredit(id, epoch, window, other + [SendChunk(payload)]);
      }
    }
  }

  // Where stale grants come from

  /** A stale grant means that everything is acknowledged and the peer, as far as is known, is full: the
      last ACK to advance carried no credit and left the window of the sender state as it was. */
  lemma StaleMeansFull(id: StreamID, epoch: nat, window: nat, run: seq<FlowEvent>)
    requires GuardedRun(Opened(id, epoch, window), run) && StaleGrant(FlowExec(Opened(id, epoch, window), run))
    ensures var f := FlowExec(Opened(id, epoch, window), run);
            f.base.snd.acked == f.base.snd.next == f.known && f.base.snd.pending == []
  {
    RunKeepsCredit(id, epoch, window, run);
  }

  /** A run whose applied ACKs all carry credit is guarded, however they are torn or reordered. */
  lemma {:induction false} AcksWithCreditAreGuarded(id: StreamID, epoch: nat, window: nat, run: seq<FlowEvent>)
    requires forall i :: 0 <= i < |run| && run[i].AckStates? ==> run[i].ack.window > 0
    ensures GuardedRun(Opened(id, epoch, window), run)
    ensures var f := FlowExec(Opened(id, epoch, window), run); f.base.snd.acked + f.base.snd.window <= f.known
  {
    var start := Opened(id, epoch, window);
    if run != [] {
      var last := |run| - 1;
      AcksWithCreditAreGuarded(id, epoch, window, run[..last]);
      GuardedBy(start, run[..last], run[last]);
      assert run[..last] + [run[last]] == run;
      CreditStaysFresh(FlowExec(start, run[..last]), run[last]);
    }
  }

  lemma CreditStaysFresh(f: Flow, e: FlowEvent)
    requires f.base.snd.acked + f.base.snd.window <= f.known && (e.AckStates? ==> e.ack.window > 0)
    ensures var g := FlowStep(f, e); g.base.snd.acked + g.base.snd.window <= g.known
  {
  }

  /** The writer does not read `sendWin` between the two halves of an ACK whose offset it has read. */
  predicate Untorn(f: Flow, e: FlowEvent) {
    e == ReadCredit && f.writer.Offsets? && f.half.Half? ==> f.writer.acked <= f.half.oldAcked
  }

  ghost predicate UntornRun(start: Flow, run: seq<FlowEvent>) {
    forall i :: 0 <= i < |run| ==> Untorn(FlowExec(start, run[..i]), run[i])
  }

  /** So is a run in which no ACK is torn by the writer, in particular one that applies ACKs in one step. */
  lemma {:induction false} UntornIsGuarded(id: StreamID, epoch: nat, window: nat, run: seq<FlowEvent>)
    requires UntornRun(Opened(id, epoch, window), run)
    ensures GuardedRun(Opened(id, epoch, window), run)
    ensures var f := FlowExec(Opened(id, epoch, window), run);
            f.writer.Granted? ==> f.base.snd.next + f.writer.available <= f.known
  {
    var start := Opened(id, epoch, window);
    if run != [] {
      var last := |run| - 1;
      forall i | 0 <= i < last ensures Untorn(FlowExec(start, run[..last][..i]), run[..last][i]) {
        assert run[..last][..i] == run[..i];
      }
      UntornIsGuarded(id, epoch, window, run[..last]);
      RunKeepsCredit(id, epoch, window, run[..last]);
      GuardedBy(start, run[..last], run[last]);
      assert run[..last] + [run[last]] == run;
      UntornGrants(FlowExec(start, run[..last]), run[last]);
    }
  }

  lemma UntornGrants(f: Flow, e: FlowEvent)
    requires CreditInv(f) && Untorn(f, e)
    requires f.writer.Granted? ==> f.base.snd.next + f.writer.available <= f.known
    ensures var g := FlowStep(f, e); g.writer.Granted? ==> g.base.snd.next + g.writer.available <= g.known
  {
  }

  // A run that is not guarded

  /** A window of two bytes is filled and acknowledged with no credit left. */
  lemma FilledWindow() returns (run: seq<FlowEvent>)
    ensures var f := FlowExec(Opened(ZERO_ID, 1, 2), run);
            && f.base.snd == Sender(ZERO_ID, 1, 2, 0, 2, [DataFrame(ZERO_ID, 1, 0, [1, 2])])
            && f.sendWin == 2 && f.half == Whole && f.writer == NoWrite
            && f.base.rcv == Receiver(ZERO_ID, 1, 2, 2) && f.readBuf == [1, 2] && f.window == 2 && !f.closed
            && AckFrame(ZERO_ID, 1, 2, 0) in f.base.acks
  {
    var start := Opened(ZERO_ID, 1, 2);
    run := [];
    run := Extend(start, run, ReadOffsets);
    run := Extend(start, run, ReadCredit);
    assert FlowExec(start, run).writer == Granted(2);
    run := Extend(start, run, SendChunk([1, 2]));
    assert PrepareData(start.base.snd, [1, 2]).Ok?;
    assert FlowExec(start, run).base.data == {DataFrame(ZERO_ID, 1, 0, [1, 2])};
    run := Extend(start, run, DataArrives(DataFrame(ZERO_ID, 1, 0, [1, 2])));
    assert Accept(start.base.rcv, DataFrame(ZERO_ID, 1, 0, [1, 2])) == Ok(Accepted(Receiver(ZERO_ID, 1, 2, 2), [1, 2]));
  }

  /** Between the two halves of that ACK the writer pairs the new offset with the old window and sends
      a byte that the peer refuses for credit. */
  lemma TornAckOverrunsCredit() returns (run: seq<FlowEvent>)
    ensures var f := FlowExec(Opened(ZERO_ID, 1, 2), run);
            Refuses(f)
  {
    var start := Opened(ZERO_ID, 1, 2);
    var ack := AckFrame(ZERO_ID, 1, 2, 0);
    run := FilledWindow();
    run := Extend(start, run, AckStates(ack));
    var p := [DataFrame(ZERO_ID, 1, 0, [1, 2])];
    assert Unacknowledged(p[..0], 2) == [];
    assert Unacknowledged(p, 2) == [];
    assert FlowExec(start, run).base.snd == Sender(ZERO_ID, 1, 2, 2, 2, []);
    run := Extend(start, run, ReadOffsets);
    run := Extend(start, run, ReadCredit);
    assert FlowExec(start, run).writer == Granted(2);
    run := Extend(start, run, SendChunk([3]));
    var frame := DataFrame(ZERO_ID, 1, 2, [3]);
    assert frame in FlowExec(start, run).base.data;
    assert DataError(FlowExec(start, run), frame) == Some(Credit);
  }

  // Epochs of a connection

  lemma SessionStepRaises(s: Session, t: Session)
    requires IsSessionStep(s, t)
    ensures s.rcv.epoch <= t.rcv.epoch && s.snd.epoch <= t.snd.epoch
  {
    if t != s {
      var e :| t == Step(s, e);
      T.StepRaisesEpochs(s, e);
    }
  }

  /** Once the receiving end has resumed, a CLOSE of an earlier epoch never closes it, in any
      continuation of the run. */
  lemma {:induction false} StaleCloseIsIgnored(start: Flow, run: seq<FlowEvent>, more: seq<FlowEvent>, epoch: nat)
    requires epoch < FlowExec(start, run).base.rcv.epoch
    ensures var g := FlowExec(start, run + more);
            epoch < g.base.rcv.epoch && FlowStep(g, CloseArrives(epoch)) == g
  {
    if more == [] {
      assert run + more == run;
    } else {
      StaleCloseIsIgnored(start, run, more[..|more| - 1], epoch);
      assert (run + more)[..|run + more| - 1] == run + more[..|more| - 1];
      var f := FlowExec(start, run + more[..|more| - 1]);
      FlowStepIsSessionStep(f, more[|more| - 1]);
      SessionStepRaises(f.base, FlowStep(f, more[|more| - 1]).base);
    }
  }
}
