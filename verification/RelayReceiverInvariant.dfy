/** What holds of the receiving half in every reachable state. */
module RelayReceiverInvariant {
  import opened RelayTypes
  import opened ReorderBuffer
  import opened AckWorker
  import opened RelayReceiver

  /** The sequence numbers of the DATA frames in a queue, in order. */
  ghost function SeqsOf(frames: seq<Frame>): seq<nat> {
    if frames == [] then []
    else (if frames[0].Data? then [frames[0].seqNo] else []) + SeqsOf(frames[1..])
  }

  /** DATA admitted and not yet handled: the dispatcher's frame, then the queue. */
  ghost function Pending(r: Receiver): seq<nat> {
    (if r.disp.Took? && r.disp.frame.Data? then [r.disp.frame.seqNo] else []) + SeqsOf(r.gate.inbox)
  }

  /** The number of the frame that is handled but not yet released. */
  ghost function Active(d: Dispatcher): set<nat> {
    if d.Publishing? || d.Counting? || d.Marking? || d.Acking? || d.Finishing? || d.Releasing? then {d.seqNo} else {}
  }

  /** The batch taken from the reorder buffer and not yet published. */
  ghost function Batch(d: Dispatcher): seq<Payload> {
    if d.Publishing? || d.Counting? then d.batch else []
  }

  ghost predicate Alive(d: Dispatcher) {
    d != Leaving && d != Gone
  }

  // Admission

  /** The numbers in a set are those pending and those being worked on. */
  ghost predicate Accounted(numbers: set<nat>, pipe: seq<nat>, active: set<nat>) {
    forall q :: q in numbers <==> q in pipe || q in active
  }

  /** inboxSeq and inboxData account for every frame in the pipeline. */
  ghost predicate GateInv(r: Receiver) {
    && (Alive(r.disp) ==> Accounted(r.gate.inboxSeq, Pending(r), Active(r.disp)))
    && r.gate.inboxData >= |Pending(r)| + |Active(r.disp)|
    && (Alive(r.disp) ==> r.gate.inboxData == |Pending(r)| + |Active(r.disp)|)
    && (!Alive(r.disp) ==> r.closed)
    && (r.disp == Gone ==> r.gate.failed && r.gate.inbox == [] && r.reader == Vacant)
  }

  /** Number q has been handled into the buffer or stands before position i of the pipeline. */
  ghost predicate Ahead(q: nat, pipe: seq<nat>, i: nat, buf: map<nat, Payload>)
    requires i <= |pipe|
  {
    q in pipe[..i] || q in buf
  }

  /** The pipeline holds no duplicate, nothing handled and nothing too far ahead: whatever lies a
      whole window below a pending frame, and is still awaited, will be handled before it. */
  ghost predicate PipeInv(cfg: Config, o: Reorder, pipe: seq<nat>, active: set<nat>) {
    && (forall i, j :: 0 <= i < j < |pipe| ==> pipe[i] != pipe[j])
    && (forall i :: 0 <= i < |pipe| ==> pipe[i] >= o.expectedSeq && pipe[i] !in o.recvBuf && pipe[i] !in active)
    && (forall q :: q in active ==> q < o.expectedSeq || q in o.recvBuf)
    && (forall k :: k in o.recvBuf ==> o.expectedSeq < k < o.expectedSeq + GateWindow(cfg))
    && (forall i, q :: 0 <= i < |pipe| && o.expectedSeq <= q && q + GateWindow(cfg) <= pipe[i] ==>
          Ahead(q, pipe, i, o.recvBuf))
  }

  ghost predicate OrderInv(cfg: Config, r: Receiver) {
    Alive(r.disp) ==> PipeInv(cfg, r.order, Pending(r), Active(r.disp))
  }

  /** The DATA frame the reader has judged and not yet pushed. */
  ghost predicate Judged(rd: Reader) {
    rd.Weighing? || rd.Beginning? || (rd.Pushing? && rd.frame.Data?)
  }

  /** The reader's verdict stays true although the dispatcher moves on. */
  ghost predicate ReaderInv(cfg: Config, r: Receiver) {
    && (r.reader.Weighing? || r.reader.Beginning? ==> r.reader.frame.Data?)
    && (Judged(r.reader) ==> !r.gate.terminal && !r.gate.failed)
    && (r.reader.Replaying? ==> !r.gate.terminal)
    && (Judged(r.reader) && Alive(r.disp) ==>
          var s := r.reader.frame.seqNo;
          && s !in r.gate.inboxSeq && s !in r.order.recvBuf && s >= r.order.expectedSeq
          && forall q :: r.order.expectedSeq <= q && q + GateWindow(cfg) <= s ==>
               q in r.gate.inboxSeq || q in r.order.recvBuf)
  }

  // Storage

  /** DATA frames held by the connection, each counted once. */
  ghost function Stored(r: Receiver): nat {
    |Pending(r)| + |r.order.recvBuf| + |Batch(r.disp)| + |r.out.recvCh|
  }

  ghost predicate StoreInv(cfg: Config, r: Receiver) {
    && Stored(r) <= Budget(cfg)
    && |r.out.recvCh| <= cfg.recvCap && |r.gate.inbox| <= Budget(cfg) + 8
    && r.order.recvReady >= |Batch(r.disp)| + (if r.disp.Counting? then 1 else 0)
    && (!r.closed ==> r.order.recvReady == |Batch(r.disp)| + (if r.disp.Counting? then 1 else 0))
    && (r.reader.Weighing? ==>
          |Pending(r)| + |r.order.recvBuf| + |Batch(r.disp)| <= r.reader.buffered + r.gate.inboxData)
    && (r.reader.Beginning? || (r.reader.Pushing? && r.reader.frame.Data?) ==> Stored(r) < Budget(cfg))
  }

  // Publication

  /** The dispatcher is handling DATA and has not yet had to give up its batch. */
  ghost predicate Handling(d: Dispatcher) {
    d.Took? || d.Publishing? || d.Counting? || d.Marking? || d.Acking?
  }

  /** Payloads are published up to expectedSeq, except for the batch in hand; ACKs lag behind. */
  ghost predicate PublishInv(r: Receiver) {
    && |r.out.published| + |Batch(r.disp)| <= r.order.expectedSeq - 1
    && (Handling(r.disp) || !r.closed ==> |r.out.published| + |Batch(r.disp)| == r.order.expectedSeq - 1)
    && (r.disp.Publishing? || r.disp.Counting? || r.disp.Marking? || r.disp.Acking? ==>
          r.disp.ackSeq == r.order.expectedSeq - 1)
    && r.order.recvDelivered <= |r.out.published|
    && (!r.closed && !(r.disp.Publishing? || r.disp.Counting? || r.disp.Marking?) ==>
          r.order.recvDelivered == |r.out.published|)
    && (r.reader.Replaying? ==> r.reader.ack <= |r.out.published|)
    && r.acks.queuedMax <= |r.out.published|
    && r.out.published == r.out.consumed + r.out.recvCh
  }

  // Terminal frames

  ghost predicate AtTerminal(d: Dispatcher) {
    d.AwaitingIdle? || (d.Took? && d.frame.Terminal())
  }

  ghost predicate TerminalBefore(inbox: seq<Frame>, j: nat)
    requires j <= |inbox|
  {
    exists i :: 0 <= i < j && inbox[i].Terminal()
  }

  /** No DATA stands behind a terminal frame and no ACK before one. */
  ghost predicate TerminalInv(r: Receiver) {
    && (forall i, j :: 0 <= i < j < |r.gate.inbox| && r.gate.inbox[i].Terminal() ==> !r.gate.inbox[j].Data?)
    && (AtTerminal(r.disp) ==> forall j :: 0 <= j < |r.gate.inbox| ==> !r.gate.inbox[j].Data?)
    && (AtTerminal(r.disp) || TerminalBefore(r.gate.inbox, |r.gate.inbox|) ==> r.gate.terminal)
    && (r.gate.terminal ==> AtTerminal(r.disp) || TerminalBefore(r.gate.inbox, |r.gate.inbox|) || r.closed)
    && (forall j :: 0 <= j < |r.gate.inbox| && r.gate.inbox[j].Ack? ==>
          AtTerminal(r.disp) || TerminalBefore(r.gate.inbox, j) || r.closed)
    && (r.reader.Pushing? && r.reader.frame.Ack? ==> r.gate.terminal)
    && (r.disp.Took? ==> !r.disp.frame.Ack?)
    && (r.disp.AwaitingIdle? ==> r.disp.frame.Terminal())
    && (Alive(r.disp) ==> r.log.admitted == r.log.dispatched + Pending(r))
    && r.log.dispatched <= r.log.admitted
    && (r.remoteClosed ==>
          && r.closed && r.gate.terminal && r.log.admitted == r.log.dispatched
          && (r.disp == Choosing || !Alive(r.disp)))
    && (r.out.ended ==> r.closed)
    && (r.out.ended && r.remoteClosed ==> r.out.recvCh == [])
  }

  // Acknowledgement

  /** Frames whose ACK is registered and not yet unregistered. */
  ghost function Work(r: Receiver): nat {
    |SeqsOf(r.gate.inbox)|
    + (if (r.disp.Took? && r.disp.frame.Data?) || (Active(r.disp) != {} && !r.disp.Releasing?) then 1 else 0)
    + (if r.reader.Pushing? && r.reader.frame.Data? then 1 else 0)
  }

  /** The dispatcher has published payloads whose ACK is not queued yet. */
  ghost predicate BeforeQueue(d: Dispatcher) {
    d.Publishing? || d.Counting? || d.Marking? || d.Acking?
  }

  /** The highest ACK whose send has returned, accepted or failed. */
  ghost function Settled(a: Acks): nat {
    Max(a.acceptedMax, a.lost)
  }

  /** A waiter on an idle channel: while the channel is open it waits, and once the channel has
      been closed the ACK of every payload it waits for has been settled. */
  ghost predicate Watching(a: Acks, closed: bool, channel: Option<nat>, need: nat) {
    && (channel.Some? ==> channel.value < a.idles)
    && ((channel.Some? && a.idle == channel) || closed || Settled(a) >= need)
  }

  /** Every frame in the pipeline keeps its ACK registered, and what is published and not being
      acknowledged has been queued. */
  ghost predicate AckInv(r: Receiver) {
    && AcksInv(r.acks)
    && (Alive(r.disp) ==> Work(r) == r.acks.generating)
    && (!Alive(r.disp) ==> r.closed)
    && (r.acks.worker == Stopped ==> r.acks.failed || r.closed)
    && (BeforeQueue(r.disp) || r.closed || |r.out.published| <= r.acks.queuedMax)
  }

  ghost predicate WatchInv(r: Receiver) {
    && (r.disp.AwaitingIdle? ==> Watching(r.acks, r.closed, r.disp.channel, |r.out.published|))
    && (r.waiter.AwaitIdle? ==> Watching(r.acks, r.closed, r.waiter.channel, r.waiter.need))
    && (r.waiter.IdleSeen? ==> Settled(r.acks) >= r.waiter.need)
    && (r.waiter != NoWait ==> r.waiter.need <= |r.out.published|)
    && (r.remoteClosed ==> Settled(r.acks) >= |r.out.published|)
  }

  ghost predicate ReceiverInv(cfg: Config, r: Receiver) {
    && GateInv(r)
    && OrderInv(cfg, r)
    && ReaderInv(cfg, r)
    && StoreInv(cfg, r)
    && PublishInv(r)
    && TerminalInv(r)
    && AckInv(r)
    && WatchInv(r)
  }

  lemma InitialInv(cfg: Config)
    ensures ReceiverInv(cfg, InitialReceiver)
  {
    var r := InitialReceiver;
    assert Pending(r) == [] && Active(r.disp) == {} && Batch(r.disp) == [] && Work(r) == 0;
    assert GateInv(r) && OrderInv(cfg, r) && ReaderInv(cfg, r);
    assert StoreInv(cfg, r) && PublishInv(r);
    assert TerminalInv(r);
  }

  lemma {:induction false} SeqsOfAppend(frames: seq<Frame>, f: Frame)
    ensures SeqsOf(frames + [f]) == SeqsOf(frames) + if f.Data? then [f.seqNo] else []
  {
    var longer := frames + [f];
    if frames == [] {
      assert longer[1..] == [];
    } else {
      SeqsOfAppend(frames[1..], f);
      assert longer[0] == frames[0] && longer[1..] == frames[1..] + [f];
    }
  }
}
