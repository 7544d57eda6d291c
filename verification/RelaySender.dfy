/** The sending half of a Relay connection as a state machine: one event per critical section or
    channel operation of Send, Flush, Close, sendLoop, its RPC workers and retransmit. */
module RelaySender {
  import opened RelayTypes
  import opened SendWindow

  /** Who holds `enqueueMu`, and whether it has passed its check that the connection is open. */
  datatype Holder =
    | Free
    | SendHeld(data: Payload) | SendReady(data: Payload)
    | FlushHeld(before: nat) | FlushReady(before: nat)
    | CloseHeld | CloseReady

  /** Where sendLoop is: selecting, waiting for window room, waiting for an RPC slot, waiting at a
      Flush barrier or at the Close marker for every acceptance RPC, or gone. */
  datatype Loop =
    | Selecting
    | Windowing(data: Payload)
    | Slotting(seqNo: nat, data: Payload)
    | AtBarrier(before: nat)
    | AtClose
    | LoopDone

  /** The one retransmission round there may be: asked for by sendLoop but not begun in its own
      goroutine; or running, with the frames still to try, whether the coordinator holds an RPC slot
      for the first of them, and the frames being sent. */
  datatype Round = NoRound | Armed | Round(todo: seq<(nat, Payload)>, slot: bool, sending: map<nat, Payload>)

  datatype Closer = NotClosing | CloseQueued | CloseDrained | CloseSent

  /** A Flush past its barrier: `before` payloads were queued when it began, and it polls for
      every sequence number below `target`. */
  datatype Waiting = Waiting(before: nat, target: nat)

  /** `queued` (payloads whose Send returned nil), `numbered` (payloads in sequence-number order),
      `flushedBefore` (the `before` of every Flush that returned nil) and `rounds` (retransmission
      rounds that resent frames) are histories. */
  datatype Sender = Sender(
    state: ConnState, win: Window, sendCh: seq<Item>, holder: Holder, loop: Loop,
    outstanding: map<nat, Payload>, inflight: nat, round: Round,
    flushed: bool, closer: Closer, waiting: set<Waiting>,
    queued: seq<Payload>, numbered: seq<Payload>, flushedBefore: set<nat>, rounds: nat)

  const InitialSender := Sender(
    Opening, InitialWindow, [], Free, Selecting, map[], 0, NoRound,
    false, NotClosing, {}, [], [], {}, 0)

  /** Steps of the goroutines that call Send, Flush and Close. */
  datatype CallerEvent =
    LockForSend(data: Payload) | LockForFlush | LockForClose | CheckState | Enqueue | GiveUp

  /** Steps of sendLoop and of the workers it starts for first transmissions. */
  datatype LoopEvent = Take | NumberNext | Launch | Pass | Exit | Transmit(seqNo: nat) | Accepted(seqNo: nat)

  /** Steps of a retransmission round and of its workers. */
  datatype RetryEvent =
    Timer | BeginResend | Skip | Slot | Relaunch | Retransmit(seqNo: nat) | Reaccepted(seqNo: nat) | Abandon | End

  /** Steps of Flush and Close past their barriers. */
  datatype BarrierEvent = PollFlush(flush: Waiting) | PollUnacked | EmitClose

  /** `Fail` is any cause that closes the connection: a failed send, a timeout, an abort, a
      terminal frame from the peer. */
  datatype SenderEvent =
    | OpenAcked
    | OfCaller(caller: CallerEvent)
    | OfLoop(step: LoopEvent)
    | OfRetry(retry: RetryEvent)
    | OfBarrier(poll: BarrierEvent)
    | Fail

  // Send, Flush and Close under the enqueue lock

  function Lock(s: Sender, holder: Holder): Sender {
    if s.holder == Free then s.(holder := holder) else s
  }

  /** The open check of the lock holder; Close turns Open into Closing in the same section. */
  function CheckOpen(s: Sender): Sender {
    match s.holder
    case SendHeld(data) => s.(holder := if s.state == Open then SendReady(data) else Free)
    case FlushHeld(before) => s.(holder := if s.state == Open then FlushReady(before) else Free)
    case CloseHeld => if s.state == Open then s.(state := Closing, holder := CloseReady) else s.(holder := Free)
    case _ => s
  }

  /** The holder's item goes on `sendCh` and the lock is released; Send returns nil here. */
  function PutItem(s: Sender): Sender {
    match s.holder
    case SendReady(data) => s.(sendCh := s.sendCh + [Payloads(data)], queued := s.queued + [data], holder := Free)
    case FlushReady(before) => s.(sendCh := s.sendCh + [Barrier(before)], holder := Free)
    case CloseReady => s.(sendCh := s.sendCh + [CloseMark], closer := CloseQueued, holder := Free)
    case _ => s
  }

  /** The holder leaves without queueing: a timeout, a cancellation or a closed connection. */
  function Leave(s: Sender): Sender {
    if s.holder.SendReady? || s.holder.FlushReady? || s.holder.CloseReady? then s.(holder := Free) else s
  }

  // sendLoop and its first transmissions

  function TakeItem(s: Sender): Sender {
    if s.loop != Selecting || s.sendCh == [] then s
    else
      var next := match s.sendCh[0]
        case Payloads(data) => Windowing(data)
        case Barrier(before) => AtBarrier(before)
        case CloseMark => AtClose;
      s.(loop := next, sendCh := s.sendCh[1..])
  }

  function NumberItem(cfg: Config, s: Sender): Sender {
    if s.loop.Windowing? && HasRoom(cfg, s.win) then
      s.(loop := Slotting(s.win.nextSeq, s.loop.data), win := Number(s.win, s.loop.data),
         numbered := s.numbered + [s.loop.data])
    else s
  }

  function LaunchFirst(cfg: Config, s: Sender): Sender {
    if s.loop.Slotting? && s.inflight < InflightLimit(cfg) then
      s.(loop := Selecting, inflight := s.inflight + 1,
         outstanding := s.outstanding[s.loop.seqNo := s.loop.data])
    else s
  }

  /** Past `sends.Wait()`: no first transmission is running and there is no retransmission round. */
  function PassBarrier(s: Sender): Sender {
    if s.outstanding != map[] || s.round != NoRound then s
    else match s.loop
      case AtBarrier(before) => s.(loop := Selecting, waiting := s.waiting + {Waiting(before, s.win.nextSeq)})
      case AtClose => s.(loop := Selecting, flushed := true)
      case _ => s
  }

  function AcceptedRPC(s: Sender, seqNo: nat): Sender {
    if seqNo in s.outstanding && s.inflight > 0 then
      s.(outstanding := s.outstanding - {seqNo}, inflight := s.inflight - 1)
    else s
  }

  // Retransmission

  /** The ACK timer fires while sendLoop can hear it and there is no round. */
  function ArmRound(s: Sender): Sender {
    if (s.loop == Selecting || s.loop.Windowing?) && s.round == NoRound then s.(round := Armed) else s
  }

  /** The goroutine of the round takes the mutex, wherever sendLoop is by then. */
  function StartRound(cfg: Config, s: Sender): Sender {
    if s.round != Armed then s
    else match BeginRound(cfg, s.win)
      case Nothing => s.(round := NoRound)
      case Exhausted(win) => s.(win := win, state := Closed, round := NoRound)
      case Resend(win, frames) => s.(win := win, round := Round(frames, false, map[]), rounds := s.rounds + 1)
  }

  /** retryStillPending */
  predicate StillPending(s: Sender, seqNo: nat) {
    seqNo in s.win.unacked && s.state != Closed
  }

  function SkipRetired(s: Sender): Sender {
    if s.round.Round? && s.round.todo != [] && !s.round.slot && !StillPending(s, s.round.todo[0].0) then
      s.(round := s.round.(todo := s.round.todo[1..]))
    else s
  }

  function TakeSlot(cfg: Config, s: Sender): Sender {
    if s.round.Round? && s.round.todo != [] && !s.round.slot && s.inflight < InflightLimit(cfg) then
      s.(round := s.round.(slot := true), inflight := s.inflight + 1)
    else s
  }

  /** With the slot in hand the frame is checked again; a retired one gives the slot back. */
  function LaunchRetry(s: Sender): Sender {
    if !(s.round.Round? && s.round.todo != [] && s.round.slot && s.inflight > 0) then s
    else
      var frame := s.round.todo[0];
      if StillPending(s, frame.0) then
        s.(round := Round(s.round.todo[1..], false, s.round.sending[frame.0 := frame.1]))
      else
        s.(round := s.round.(todo := s.round.todo[1..], slot := false), inflight := s.inflight - 1)
  }

  function AcceptedRetry(s: Sender, seqNo: nat): Sender {
    if s.round.Round? && seqNo in s.round.sending && s.inflight > 0 then
      s.(round := s.round.(sending := s.round.sending - {seqNo}), inflight := s.inflight - 1)
    else s
  }

  function AbandonRound(s: Sender): Sender {
    if s.round.Round? && s.state == Closed && !s.round.slot then s.(round := s.round.(todo := [])) else s
  }

  function EndRound(s: Sender): Sender {
    if s.round == Round([], false, map[]) then s.(round := NoRound) else s
  }

  // Flush and Close past the barrier

  predicate BelowTargetRetired(s: Sender, target: nat) {
    forall n :: n in s.win.unacked ==> n >= target
  }

  function FinishFlush(s: Sender, w: Waiting): Sender {
    if w in s.waiting && BelowTargetRetired(s, w.target) then
      s.(waiting := s.waiting - {w}, flushedBefore := s.flushedBefore + {w.before})
    else s
  }

  function DrainForClose(s: Sender): Sender {
    if s.closer == CloseQueued && s.flushed && s.win.unacked == map[] then s.(closer := CloseDrained) else s
  }

  predicate CanEmitClose(s: Sender) {
    s.closer == CloseDrained && s.state != Closed
  }

  function StepCaller(s: Sender, e: CallerEvent): Sender {
    match e
    case LockForSend(data) => if data != [] then Lock(s, SendHeld(data)) else s
    case LockForFlush => Lock(s, FlushHeld(|s.queued|))
    case LockForClose => Lock(s, CloseHeld)
    case CheckState => CheckOpen(s)
    case Enqueue => PutItem(s)
    case GiveUp => Leave(s)
  }

  function StepLoop(cfg: Config, s: Sender, e: LoopEvent): Sender {
    match e
    case Take => TakeItem(s)
    case NumberNext => NumberItem(cfg, s)
    case Launch => LaunchFirst(cfg, s)
    case Pass => PassBarrier(s)
    case Exit => if s.state == Closed then s.(loop := LoopDone) else s
    case Transmit(_) => s
    case Accepted(seqNo) => AcceptedRPC(s, seqNo)
  }

  function StepRetry(cfg: Config, s: Sender, e: RetryEvent): Sender {
    match e
    case Timer => ArmRound(s)
    case BeginResend => StartRound(cfg, s)
    case Skip => SkipRetired(s)
    case Slot => TakeSlot(cfg, s)
    case Relaunch => LaunchRetry(s)
    case Retransmit(_) => s
    case Reaccepted(seqNo) => AcceptedRetry(s, seqNo)
    case Abandon => AbandonRound(s)
    case End => EndRound(s)
  }

  function StepBarrier(s: Sender, e: BarrierEvent): Sender {
    match e
    case PollFlush(w) => FinishFlush(s, w)
    case PollUnacked => DrainForClose(s)
    case EmitClose => if CanEmitClose(s) then s.(closer := CloseSent) else s
  }

  /** One step of the sending half; an event that is not enabled leaves it as it is. */
  function Step(cfg: Config, s: Sender, e: SenderEvent): Sender {
    match e
    case OpenAcked => if s.state == Opening then s.(state := Open) else s
    case OfCaller(c) => StepCaller(s, c)
    case OfLoop(l) => StepLoop(cfg, s, l)
    case OfRetry(r) => StepRetry(cfg, s, r)
    case OfBarrier(b) => StepBarrier(s, b)
    case Fail => s.(state := Closed)
  }

  /** The frames an event puts on the wire. */
  function Emit(s: Sender, e: SenderEvent): set<Frame> {
    match e
    case OfLoop(Transmit(seqNo)) => if seqNo in s.outstanding then {Data(seqNo, s.outstanding[seqNo])} else {}
    case OfRetry(Retransmit(seqNo)) =>
      if s.round.Round? && seqNo in s.round.sending then {Data(seqNo, s.round.sending[seqNo])} else {}
    case OfBarrier(EmitClose) => if CanEmitClose(s) then {Close} else {}
    case _ => {}
  }

  /** An ACK from the peer reaches handleAck. */
  function ReceiveAck(s: Sender, ackSeq: nat): Sender {
    s.(win := HandleAck(s.win, ackSeq))
  }
}
