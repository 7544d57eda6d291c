/** The receiving half of a Relay connection as a state machine: one event per critical section or
    channel operation of enqueueEnvelope, dispatchLoop, the ACK worker, the application and Close. */
module RelayReceiver {
  import opened RelayTypes
  import opened ReorderBuffer
  import opened AckWorker

  /** The shared reader inside enqueueEnvelope. Every point but `Vacant` holds `inboxMu`: about to
      replay an ACK, to weigh a DATA frame against the budget with the reorder storage it saw
      earlier, to register the frame's ACK, to push the frame. */
  datatype Reader =
    | Vacant
    | Replaying(ack: nat)
    | Weighing(frame: Frame, buffered: nat)
    | Beginning(frame: Frame)
    | Pushing(frame: Frame)

  /** The dispatcher: selecting; holding a frame; publishing the rest of a batch; about to count a
      published payload, to record the delivered watermark, to queue the ACK, to unregister it, to
      release the frame; waiting for the idle channel it saw before a terminal frame; leaving. */
  datatype Dispatcher =
    | Choosing
    | Took(frame: Frame)
    | Publishing(seqNo: nat, batch: seq<Payload>, ackSeq: nat)
    | Counting(seqNo: nat, batch: seq<Payload>, ackSeq: nat)
    | Marking(seqNo: nat, ackSeq: nat)
    | Acking(seqNo: nat, ackSeq: nat)
    | Finishing(seqNo: nat)
    | Releasing(seqNo: nat)
    | AwaitingIdle(frame: Frame, channel: Option<nat>)
    | Leaving
    | Gone

  /** waitReceiveACK inside a local Close: `need` payloads had been published when it began. */
  datatype Waiter = NoWait | AwaitIdle(channel: Option<nat>, need: nat) | IdleSeen(need: nat)

  /** The admission gate: the inbox channel and the fields under `inboxMu`. */
  datatype Gate = Gate(inbox: seq<Frame>, inboxSeq: set<nat>, inboxData: nat, failed: bool, terminal: bool)

  /** The receive channel and its history: the payloads ever put on it, those the application took,
      and whether a receive has returned a terminal error. */
  datatype Outlet = Outlet(recvCh: seq<Payload>, published: seq<Payload>, consumed: seq<Payload>, ended: bool)

  /** Histories: DATA numbers in admission and in dispatch order, and the ACKs handed to this
      endpoint's own handleAck. */
  datatype Log = Log(admitted: seq<nat>, dispatched: seq<nat>, ackApplied: seq<nat>)

  datatype Receiver = Receiver(
    closed: bool, remoteClosed: bool, order: Reorder, gate: Gate, acks: Acks, out: Outlet,
    reader: Reader, disp: Dispatcher, waiter: Waiter, log: Log)

  const InitialReceiver := Receiver(
    false, false, InitialReorder, Gate([], {}, 0, false, false), InitialAcks, Outlet([], [], [], false),
    Vacant, Choosing, NoWait, Log([], [], []))

  datatype ReaderEvent = Arrive(frame: Frame) | Replay | Weigh | Register | Push

  datatype DispatchEvent =
    | TakeFrame | HandleFrame | Publish | DropBatch | CountOne | MarkDelivered | QueueBatchAck
    | Unregister | Release | PassTerminal | Leave | CleanUp

  datatype WorkerEvent = WakeUp | PickUp | SendAck | SendReturns(ok: bool) | SettleUp | Stop

  datatype AppEvent = Receive | ReceiveError | StartWait | EndWait | Abort

  datatype ReceiverEvent =
    | OfReader(read: ReaderEvent)
    | OfDispatcher(dispatch: DispatchEvent)
    | OfWorker(work: WorkerEvent)
    | OfApp(app: AppEvent)

  /** closeWithSource as far as the receiving half sees it: the first close decides. */
  function CloseWith(r: Receiver, remote: bool): Receiver {
    if r.closed then r else r.(closed := true, remoteClosed := remote)
  }

  // enqueueEnvelope

  /** The gate's verdict on a frame, from one snapshot of the receive state. */
  datatype Verdict = Drop | ReplayAck(ack: nat) | ApplyAck(ack: nat) | Consider(buffered: nat) | Admit

  function Judge(cfg: Config, closed: bool, o: Reorder, g: Gate, frame: Frame): Verdict {
    if closed || g.failed then Drop
    else if frame.Ack? && !g.terminal then ApplyAck(frame.ackSeq)
    else if !frame.Data? then Admit
    else if g.terminal then Drop
    else if frame.seqNo in g.inboxSeq || frame.seqNo in o.recvBuf then Drop
    else if frame.seqNo < o.expectedSeq then
      if o.recvDelivered > 0 then ReplayAck(o.recvDelivered) else Drop
    else
      var frontier := Frontier(o.expectedSeq, g.inboxSeq);
      if frame.seqNo >= frontier && frame.seqNo - frontier >= GateWindow(cfg) then Drop
      else Consider(|o.recvBuf| + o.recvReady)
  }

  function ArriveFrame(cfg: Config, r: Receiver, frame: Frame): Receiver {
    if r.reader != Vacant then r
    else match Judge(cfg, r.closed, r.order, r.gate, frame)
      case Drop => r
      case ReplayAck(ack) => r.(reader := Replaying(ack))
      case ApplyAck(ack) => r.(log := r.log.(ackApplied := r.log.ackApplied + [ack]))
      case Consider(buffered) => r.(reader := Weighing(frame, buffered))
      case Admit => r.(reader := Pushing(frame))
  }

  /** queueACK */
  function QueueUnlessClosed(r: Receiver, ack: nat): Acks {
    if r.closed then r.acks else Queue(r.acks, ack)
  }

  /** The frame enters the inbox and the books. */
  function Enter(g: Gate, f: Frame): Gate {
    Gate(g.inbox + [f],
         if f.Data? then g.inboxSeq + {f.seqNo} else g.inboxSeq,
         if f.Data? then g.inboxData + 1 else g.inboxData,
         g.failed, g.terminal || f.Terminal())
  }

  function PushFrame(cfg: Config, r: Receiver): Receiver {
    if !r.reader.Pushing? then r
    else
      var f := r.reader.frame;
      if |r.gate.inbox| < Budget(cfg) + 8 then
        r.(reader := Vacant, gate := Enter(r.gate, f),
           log := if f.Data? then r.log.(admitted := r.log.admitted + [f.seqNo]) else r.log)
      else if f.Data? then r.(reader := Vacant, acks := Finish(r.acks))
      else CloseWith(r.(reader := Vacant, gate := r.gate.(failed := true)), false)
  }

  function StepReader(cfg: Config, r: Receiver, e: ReaderEvent): Receiver {
    match e
    case Arrive(frame) => ArriveFrame(cfg, r, frame)
    case Replay =>
      if r.reader.Replaying? then r.(reader := Vacant, acks := QueueUnlessClosed(r, r.reader.ack)) else r
    case Weigh =>
      if !r.reader.Weighing? then r
      else if r.gate.inboxData + |r.out.recvCh| + r.reader.buffered >= Budget(cfg) then r.(reader := Vacant)
      else r.(reader := Beginning(r.reader.frame))
    case Register =>
      if !r.reader.Beginning? then r
      else if r.closed then r.(reader := Vacant)
      else r.(reader := Pushing(r.reader.frame), acks := Begin(r.acks))
    case Push => PushFrame(cfg, r)
  }

  // dispatchLoop and handleData

  function Dispatch(cfg: Config, r: Receiver, f: Frame): Receiver {
    match f
    case Data(seqNo, payload) =>
      var s := r.(log := r.log.(dispatched := r.log.dispatched + [seqNo]));
      (match HandleData(cfg, r.order, seqNo, payload)
       case Dropped => s.(disp := Finishing(seqNo))
       case Handled(order, ready, ackSeq) => s.(order := order, disp := Publishing(seqNo, ready, ackSeq)))
    case Ack(ack) => r.(log := r.log.(ackApplied := r.log.ackApplied + [ack]), disp := Choosing)
    case Other => r.(disp := Choosing)
    case _ => r.(disp := AwaitingIdle(f, r.acks.idle))
  }

  function TakeNext(r: Receiver): Receiver {
    if r.disp != Choosing || r.gate.inbox == [] then r
    else r.(gate := r.gate.(inbox := r.gate.inbox[1..]),
            disp := if r.closed then Leaving else Took(r.gate.inbox[0]))
  }

  function PublishNext(cfg: Config, r: Receiver): Receiver {
    if !r.disp.Publishing? then r
    else if r.disp.batch == [] then r.(disp := Marking(r.disp.seqNo, r.disp.ackSeq))
    else if |r.out.recvCh| < cfg.recvCap then
      r.(out := r.out.(recvCh := r.out.recvCh + [r.disp.batch[0]], published := r.out.published + [r.disp.batch[0]]),
         disp := Counting(r.disp.seqNo, r.disp.batch[1..], r.disp.ackSeq))
    else r
  }

  function StepDispatcher(cfg: Config, r: Receiver, e: DispatchEvent): Receiver {
    match e
    case TakeFrame => TakeNext(r)
    case HandleFrame => if r.disp.Took? then Dispatch(cfg, r, r.disp.frame) else r
    case Publish => PublishNext(cfg, r)
    case DropBatch =>
      if r.disp.Publishing? && r.disp.batch != [] && r.closed then r.(disp := Finishing(r.disp.seqNo)) else r
    case CountOne =>
      if r.disp.Counting? && r.order.recvReady > 0 then
        r.(order := r.order.(recvReady := r.order.recvReady - 1),
           disp := Publishing(r.disp.seqNo, r.disp.batch, r.disp.ackSeq))
      else r
    case MarkDelivered =>
      if !r.disp.Marking? then r
      else r.(order := r.order.(recvDelivered := r.disp.ackSeq),
              disp := if r.disp.ackSeq == 0 then Finishing(r.disp.seqNo) else Acking(r.disp.seqNo, r.disp.ackSeq))
    case QueueBatchAck =>
      if r.disp.Acking? then r.(acks := QueueUnlessClosed(r, r.disp.ackSeq), disp := Finishing(r.disp.seqNo)) else r
    case Unregister =>
      if r.disp.Finishing? then r.(acks := Finish(r.acks), disp := Releasing(r.disp.seqNo)) else r
    case Release =>
      if r.disp.Releasing? && r.reader == Vacant && r.gate.inboxData > 0 then
        r.(gate := r.gate.(inboxData := r.gate.inboxData - 1, inboxSeq := r.gate.inboxSeq - {r.disp.seqNo}),
           disp := Choosing)
      else r
    case PassTerminal =>
      if r.disp.AwaitingIdle? && (r.closed || r.disp.channel.None? || r.acks.idle != r.disp.channel) then
        CloseWith(r.(disp := Choosing), r.disp.frame.Close?)
      else r
    case Leave => if r.disp == Choosing && r.closed then r.(disp := Leaving) else r
    case CleanUp =>
      if r.disp == Leaving && r.reader == Vacant then
        r.(gate := Gate([], {}, 0, true, r.gate.terminal), disp := Gone)
      else r
  }

  // The ACK worker

  function StepWorker(r: Receiver, e: WorkerEvent): Receiver {
    match e
    case WakeUp => r.(acks := Wake(r.acks))
    case PickUp => r.(acks := Pick(r.acks))
    case SendAck => r
    case SendReturns(ok) => r.(acks := Reply(r.acks, ok))
    case SettleUp => r.(acks := Settle(r.acks))
    case Stop => if r.closed && r.acks.worker == Asleep then r.(acks := r.acks.(worker := Stopped)) else r
  }

  // The application

  function StepApp(r: Receiver, e: AppEvent): Receiver {
    match e
    case Receive =>
      if r.out.recvCh != [] then
        r.(out := r.out.(recvCh := r.out.recvCh[1..], consumed := r.out.consumed + [r.out.recvCh[0]]))
      else r
    case ReceiveError =>
      // receiveTerminal drains what is left only after a remote CLOSE
      if r.closed && (r.remoteClosed ==> r.out.recvCh == []) then r.(out := r.out.(ended := true)) else r
    case StartWait =>
      if r.waiter == NoWait then r.(waiter := AwaitIdle(r.acks.idle, |r.out.published|)) else r
    case EndWait =>
      if r.waiter.AwaitIdle? && !r.closed && (r.waiter.channel.None? || r.acks.idle != r.waiter.channel) then
        r.(waiter := IdleSeen(r.waiter.need))
      else r
    case Abort => CloseWith(r, false)
  }

  /** One step of the receiving half; an event that is not enabled leaves it as it is. */
  function Step(cfg: Config, r: Receiver, e: ReceiverEvent): Receiver {
    match e
    case OfReader(x) => StepReader(cfg, r, x)
    case OfDispatcher(x) => StepDispatcher(cfg, r, x)
    case OfWorker(x) => StepWorker(r, x)
    case OfApp(x) => StepApp(r, x)
  }

  /** The ACK an event puts on the wire. */
  function Emit(r: Receiver, e: ReceiverEvent): set<nat> {
    if e == OfWorker(SendAck) && r.acks.worker.Sending? then {r.acks.worker.ack} else {}
  }
}
