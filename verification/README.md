# turntf-go: the Relay transport and the recoverable stream, verified

A Dafny model of the two transports of the turntf Go client, with proofs about every run of them.

**The Relay** (`relay.go`, `relay_dispatch.go`, `relay_flush.go`, `relay_retry.go`) carries
payloads between two sessions. In reliable-ordered mode the sender numbers payloads, keeps them
until a cumulative ACK, and retransmits them in rounds. The receiver filters frames at an admission
gate, queues them, reorders them, publishes them to a bounded channel, and acknowledges through one
coalescing worker. `Flush` and `Close` are barriers over all of it.

**The stream** (`stream_protocol.go`, `stream_conn.go`) carries bytes with offsets and path epochs.
A connection that moves to a new path resumes at a higher epoch and resends what was not
acknowledged. A credit window bounds the read buffer.

## How it is built

Each critical section of the Go code is a function on values: `SendWindow`, `ReorderBuffer` and
`AckWorker` for the Relay, `StreamProtocol` for the stream. Two kinds of module use them.

- *State machines.* `RelaySender` and `RelayReceiver` have one event per critical section or
  channel operation of every goroutine involved: the callers of Send, Flush and Close, sendLoop, its
  RPC workers, the retransmission round, the shared reader, the dispatcher, the ACK worker and the
  application. `RelayLink` joins them by a network that remembers everything ever sent and may lose,
  repeat and reorder it. `StreamSession` and `StreamFlow` do the same for the stream. An event that is
  not enabled leaves the state as it is, so every list of events is a run, and the theorems quantify
  over all of them.
- *Classes.* `RelayConnection`, `CloseState`, `Registry`, `StreamSenderState`,
  `StreamReceiverState` and `StreamConn` hold the mutable fields. Their methods are written with the
  loops and updates of the Go code and are proved to compute the functions above.

The two halves of a Relay link keep separate configurations, because the windows are not negotiated.
The window is Go's signed `int` and is converted to `uint64` where the code converts it, so a
configuration outside the documented range is covered too.

`RelayTheorems` is about what never happens. `RelayProgress`, `RelaySettle`, `RelayRecovery`,
`RelayEnding` and `RelayShutdown` are about what can always still happen. From every reachable state of
a link that is open and has retry budget left, whatever was lost and whatever each goroutine has in
hand, the goroutines can finish their work, one retransmission round can repair the loss, everything
whose Send returned nil can be published and acknowledged, a Flush can return, and a Close can end
gracefully at both ends; and from every closed state every goroutine can leave. `StreamTheorems` and
`StreamDelivery` do the same for the stream. `RelayLaws` and the `...Iff` lemmas of the other modules say
when each step does what it does.

## Where the code and its promises differ

- *At-least-once.* The documentation of the mode (`types.go`, line 336) promises ACK and
  retransmission. The receiver acknowledges each frame by its own number and the sender retires
  cumulatively, so an ACK that overtakes an older frame makes the sender give that frame up.
  `AtLeastOnce.OvertakingAckLosesFrame` is such a run. `AckIsSafeIff` says, in every state of every run
  that has lost nothing so far, which ACKs can lose a frame in some run the sender cannot tell from its
  own; `OrderedAcksLoseNothing` that runs without such ACKs lose nothing.
- *A failed ACK send.* The worker clears `ackSending` before it closes the connection. In between,
  the idle channel can be closed although a queued ACK was never accepted
  (`RelayLimits.FailedAckIsOvertaken`), and a Close gets past its wait (`CloseOvertakesFailedAck`).
  `RelayTheorems.AckCoalescing`, `CloseWaitsForAcks` and `RemoteCloseWaitsForAcks` hold in every run: what
  they wait for is covered by an ACK that was accepted or by one that failed, and by an accepted one
  when no higher ACK has failed.
- *A graceful close.* After an admitted CLOSE, DATA is dropped, but ACKs and control frames go through
  the inbox, and one that finds it full fails the connection before the CLOSE takes effect. A receive
  then returns the error with payloads still on the channel
  (`RelayOverflow.GracefulCloseOverflows`, and `OverflowEndsEarly` from every reachable quiet state).
  `BehindTerminal` says exactly which arrivals do this and that no other changes anything.
- *An ACK applied in two steps.* `StreamConn` gives an ACK first to the sender state and then to
  `sendWin`, and a writer may read between them. The chunk it then sends still has to pass the window
  of the sender state, but an ACK without credit leaves that window as it was.
  `StreamCredit.TornAckOverrunsCredit` is a run in which an honest peer refuses a byte for credit.
  The exact condition is `StaleGrant`, a comparison of the sender's own numbers with the furthest ACK it
  has applied. A run that sends nothing on a stale grant never overruns (`SenderCredit`); and on a
  stale grant some peer that the sender cannot tell from its own refuses a byte (`ChunkIsSafeIff`). A
  stale grant takes both an ACK without credit (`AcksWithCreditAreGuarded`) and a torn read
  (`UntornIsGuarded`).
- *A granted chunk.* `Write` waits for credit, yet the sender state can refuse what was granted, and
  `Write` then fails instead of waiting. `StreamGrants.ReorderedAckRefusesGrant` is a run with two ACKs
  of one offset in the wrong order. `WindowFullIff` says in which states of any run this can happen, and
  `OverdrawnIff` which steps lead there.

## Model

| member | source | states |
|---|---|---|
| `RelayTheorems.EndToEnd` | relay.go:721-773 | In every run the published payloads are the first k numbered ones, in order and once each, with k between the retired and the numbered frames; numbering follows the order of Send; every unpublished frame is still kept with its payload |
| `RelayTheorems.SenderWindow` | relay.go:925-1000 | `unacked` is exactly the interval from sendBase to nextSeq and fits the window; all transmissions of one number carry the same payload; acceptance RPCs stay within their limit |
| `RelayTheorems.RetryBound` | relay.go:1001-1013 | Retransmission rounds that resend anything never exceed MaxRetransmits times sendBase |
| `RelayTheorems.AdmissionIsExact` | relay_dispatch.go:34-57 | Whatever the dispatcher takes is not old, not buffered and inside the window at that moment, so the drop branches of handleData are dead behind the gate |
| `RelayTheorems.StorageBound` | relay_dispatch.go:21-25 | DATA frames held in inbox, reorder buffer, ready batch and channel, each counted once, never exceed the channel capacity plus two windows |
| `RelayTheorems.CloseBarrier` | relay.go:486-580 | Once a CLOSE frame exists, nothing is queued or unacknowledged, no first transmission is outstanding (an RPC that resends an acknowledged frame may be), and the peer's channel has received every payload whose Send returned nil |
| `RelayTheorems.CloseBarrierAtEmission` | relay.go:902-906 | The same in any state in which the CLOSE frame can be emitted |
| `RelayTheorems.GracefulClose` | relay.go:417-467 | When the dispatcher closes an open connection on the peer's CLOSE, then in every continuation the channel has carried exactly what was sent, and a receive errors only when all of it has been taken |
| `RelayTheorems.DispatcherClosesIff` | relay_dispatch.go:129-132 | In every reachable open state a dispatcher step closes the connection if and only if it holds a terminal frame and the idle channel it waits for is gone, and the close is remote exactly for a CLOSE |
| `RelayTheorems.CloseStays` | relay.go:607-616 | The first close and its source are never taken back |
| `RelayTheorems.RoundClosesIff` | relay.go:1008-1012 | In every reachable open state a step of a round closes the connection if and only if it begins with frames unacknowledged and the budget spent |
| `RelayTheorems.FlushBarrier` | relay_flush.go:48-107 | A Flush that returned nil: all payloads queued before it took the lock are on the peer's channel |
| `RelayTheorems.AckCoalescing` | relay_dispatch.go:148-232 | Until a send fails an idle channel is open if and only if there is ACK work; a pending ACK has a live worker that will pick it up unless a send failed or the connection is closed; without an idle channel everything published was accepted or failed, and the highest accepted ACK is the highest queued if and only if no higher one failed |
| `RelayTheorems.CloseWaitsForAcks` | relay_dispatch.go:234-244 | A Close past its wait, in any run: everything published before the wait is covered by an ACK that was accepted or failed, and by an accepted one if no higher ACK failed |
| `RelayTheorems.RemoteCloseWaitsForAcks` | relay_dispatch.go:129-131 | A remote CLOSE that took effect, in any run: the ACK of everything published was accepted or failed, and was accepted if and only if no higher ACK failed |
| `RelayTheorems.TerminalOrder` | relay_dispatch.go:109-144 | DATA is dispatched in admission order, and all admitted DATA before a terminal frame |
| `RelayTheorems.TerminalFreezes` | relay_dispatch.go:26-33 | After an admitted terminal frame no DATA is admitted and no ACK applied in any continuation |
| `RelayOverflow.BehindTerminal` | relay_dispatch.go:81-99 | In every reachable open state with an admitted terminal frame, a reader step closes the connection if and only if it pushes a frame, never DATA, into a full inbox; no reader step changes receive order, channel, ACK state or logs, and DATA changes nothing |
| `RelayOverflow.OverflowEndsEarly` | relay_dispatch.go:92-107 | From every reachable state with the CLOSE on the wire and the receiver between frames, some continuation fails the connection and ends the receives with the channel as it was |
| `RelayOverflow.GracefulCloseOverflows` | relay.go:447-467 | A run in which the sender closed gracefully, the CLOSE was admitted, and the receive fails with the payload still on the channel |
| `RelayTheorems.PublishedIsStable` | relay.go:776-785 | Continuing a run only extends what was published |
| `RelayRecovery.OneRoundRecovers` | relay.go:1001-1068 | From every reachable state of a live link (open, ACK worker at work, retry budget left) there is a continuation that publishes every numbered payload and empties `unacked`, with no assumption about what the network delivered or what any goroutine has in hand |
| `RelayRecovery.EverythingQueuedArrives` | relay.go:371-410 | From every such state there is a continuation that publishes every payload whose Send returned nil, in order, and leaves nothing queued or unacknowledged |
| `RelayRecovery.RecoverFromRest` | relay.go:1001-1068 | The same for numbered payloads from rest, by one round, the frames it resends, one repeated frame and its ACK |
| `RelayEnding.CloseCompletes` | relay.go:486-580 | From every reachable live state in which Close has queued its marker, some continuation closes both ends gracefully, with everything sent handed to the peer's application before its receives end |
| `RelayEnding.CloseIsEmitted` | relay.go:902-906 | From every such state some continuation emits the CLOSE |
| `RelayEnding.CloseCanBeGraceful` | relay.go:447-467 | From every reachable state with the CLOSE on the wire and the receiving half open, some continuation closes it remotely, drains the channel in order and ends the receives |
| `RelayEnding.CloseGetsPastWait` | relay_dispatch.go:234-244 | From every reachable state of an open receiving half a local Close gets past its wait for ACKs |
| `RelayEnding.FlushReturns` | relay_flush.go:48-107 | From every reachable live state with a Flush under way, some continuation lets it return nil |
| `RelayEnding.FlushIsKept` | relay.go:894-901 | No step of any run forgets a Flush while sendLoop is there |
| `RelayShutdown.ShutdownCompletes` | relay.go:822-999 | From every reachable state with both ends closed, some continuation ends sendLoop, its RPCs and its round, reader, dispatcher and ACK worker |
| `RelayShutdown.DispatcherLeaves` | relay_dispatch.go:109-144 | The dispatcher of a closed connection can drop what it has in hand, clear the inbox and leave |
| `RelaySettle.ReachIdle` | relay_dispatch.go:161-173 | From every reachable state of an open receiving half all ACK work can be finished, and then no idle channel is left |
| `RelaySettle.SettleReceiver` | relay_dispatch.go:9-144 | On a receiving half open for data, reader and dispatcher can finish everything in hand and in the inbox, and end between frames |
| `RelaySettle.SettleWorker` | relay_dispatch.go:201-232 | The ACK worker can finish what it has and go back to sleep |
| `RelaySettle.SettleSender` | relay.go:822-1068 | Acceptance RPCs, a running round, a frame waiting for a slot and a barrier can all be finished without touching window or queue |
| `RelayRecovery.ResendAll` | relay.go:1014-1068 | One round puts every unacknowledged frame on the wire with its own payload and changes nothing else but the retry count |
| `RelayRecovery.TakeAll` | relay.go:699-774 | With those frames on the wire the receiver can take all of them and ends up expecting nextSeq |
| `RelayRecovery.ReplayWatermark` | relay_dispatch.go:39-47 | A repeated frame makes the gate replay exactly the delivered watermark and the worker put that ACK on the wire, also when an earlier ACK was lost |
| `RelayRecovery.QuietBounds` | relay.go:750-768 | Between frames, the payloads below expectedSeq are exactly the published ones and the delivered watermark equals their number |
| `RelayProgress.GateAdmitsIff` | relay_dispatch.go:18-57 | A DATA frame passes the filter if and only if the connection is open for data, the frame is new and not old, and every awaited number a whole window below it is already pending |
| `RelayProgress.GateReplaysIff` | relay_dispatch.go:39-47 | The gate replays an ACK exactly for a frame below expectedSeq, and the ACK is the delivered watermark |
| `RelayProgress.GateAppliesAckIff` | relay_dispatch.go:26-29 | An ACK goes to handleAck if and only if the connection is open and no terminal frame was admitted |
| `RelayProgress.GatePassesIff` | relay_dispatch.go:18-33 | Any other frame but DATA passes if and only if the connection is open, an ACK only behind a terminal frame |
| `RelayProgress.ArrivingAckIsApplied` | relay_dispatch.go:26-29 | In every run an arriving ACK is applied once and at once if and only if the gate is open and not terminal, and no other arrival applies one |
| `RelayProgress.WeighedIsAdmittedIff` | relay_dispatch.go:70-76 | In every run a DATA frame past the filter goes on if and only if the frames counted are below the channel capacity plus two windows |
| `RelayLaws.CheckPassesIff` | relay.go:371-410 | Send, Flush and Close get on if and only if the connection is open when they look, and only Close changes its state |
| `RelayLaws.HolderFinishes` | relay_flush.go:59-69 | Who got on queues exactly its own item at the end, or nothing, and frees the lock |
| `RelayLaws.LockIsTakenIff` | relay_flush.go:48-51 | One caller holds the lock at a time; an empty Send does not take it |
| `RelayLaws.TakesIff` | relay.go:886-910 | sendLoop takes the next item whenever it is selecting and there is one, and goes where its kind says |
| `RelayLaws.NumbersIff` | relay.go:925-947 | A waiting payload is numbered if and only if fewer than the window are unacknowledged |
| `RelayLaws.LaunchesIff` | relay.go:970-985 | A numbered payload is launched if and only if fewer RPCs than the clamped window are in flight |
| `RelayLaws.TransmitsAndReturns` | relay.go:976-998 | A running RPC puts its own frame on the wire and frees its slot when it returns |
| `RelayLaws.PollsIff` | relay_flush.go:87-98 | A Flush returns if and only if every number below its target is acknowledged; Close goes on if and only if its marker has passed and nothing is unacknowledged |
| `RelayLaws.BarrierPassesIff` | relay.go:894-906 | A barrier passes if and only if no first transmission is running and there is no round |
| `RelayLaws.TimerArmsIff` | relay.go:861-881 | The timer asks for a round if and only if sendLoop hears it and there is none |
| `RelayLaws.ResendsIff` | relay.go:1036-1075 | A round resends a frame if and only if it is still unacknowledged on a connection that is not closed, and gives back the slot otherwise |
| `RelayLaws.CloseGoesOutIff` | relay.go:540-580 | The CLOSE goes out if and only if everything was seen acknowledged and the connection is not closed |
| `RelayLaws.HandlesIff` | relay.go:721-747 | handleData by cases: what is released, kept, dropped and acknowledged |
| `RelayLaws.PushEntersIff` | relay_dispatch.go:81-99 | A pushed frame enters if and only if there is room; DATA is dropped and unregistered otherwise, any other frame fails the connection |
| `RelayLaws.RegistersIff` | relay_dispatch.go:77-80 | An ACK is registered if and only if the connection is not closed |
| `RelayLaws.ClosedQueuesNothing` | relay_dispatch.go:178-183 | On a closed connection no step queues or registers an ACK, and the dispatcher takes no frame |
| `RelayLaws.DispatchesIff` | relay_dispatch.go:121-135 | The dispatcher takes the head whenever it is choosing, and does what the kind of the frame asks |
| `RelayLaws.PublishesIff` | relay.go:776-785 | A ready payload is published if and only if the channel has room, in order |
| `RelayLaws.FinishesFrame` | relay.go:749-772 | Counting, watermark, ACK, unregistering and release of a frame, and when the dispatcher leaves |
| `RelayLaws.WaitsIff` | relay_dispatch.go:234-244 | A Close waits for the idle channel of that moment and is through if and only if the connection is open and that channel is gone |
| `RelayLaws.QueueIs` | relay_dispatch.go:189-198 | Queueing keeps the larger ACK, leaves a wake-up and opens an idle channel |
| `RelayLaws.WorkerStepsIff` | relay_dispatch.go:201-232 | When the worker wakes, picks, sleeps, goes on and stops, and when it closes the idle channel |
| `RelayLaws.ArmedBegins` | relay.go:871-881 | A round that was asked for begins wherever sendLoop is |
| `RelayLaws.ReceivesIff` | relay.go:417-467 | Receives take in channel order, and report the end if and only if the connection is closed and, after a remote close, nothing is left |
| `RelayProgress.QuietHasBudget` | relay_dispatch.go:70-76 | Between frames the receiver always has budget for the frame it expects |
| `RelayProgress.ExpectedFrameIsTaken` | relay_dispatch.go:77-99 | From every reachable quiet state the expected frame can be admitted, handled, published and released, which leaves the receiver quiet and further on |
| `RelayLimits.FailedAckIsOvertaken` | relay_dispatch.go:218-228 | A reachable open state without idle channel in which a queued ACK was never accepted, after a failed ACK send |
| `RelayLimits.CloseOvertakesFailedAck` | relay_dispatch.go:234-244 | From there a Close gets past its wait with a published payload not acknowledged |
| `RelayLink.RunKeeps` | relay.go:699-808 | The joint invariant of sender, receiver and network holds after every run |
| `RelayLink.ReadyMatches` | relay.go:726-735 | The batch that handling releases continues the numbering where expectedSeq stood |
| `RelaySenderProofs.StepKeeps` | relay.go:822-999 | Every step of callers, sendLoop, workers and retransmission keeps order, payloads, slots, barriers and retry account |
| `RelaySenderProofs.AckKeeps` | relay.go:787-808 | So does every ACK, wherever it falls |
| `RelayReceiverEndings.StepKeeps` | relay_dispatch.go:9-144 | Every step of reader, dispatcher, ACK worker and application keeps the receiver's invariants |
| `RelayReceiverEndings.IdleMeansSettled` | relay_dispatch.go:168-173 | With no idle channel on an open connection, the ACK of everything published was accepted or failed |
| `RelayReceiverProofs.HeadIsAdmissible` | relay_dispatch.go:48-56 | The frame at the head of the pipeline is less than a window ahead of expectedSeq |
| `RelayReceiverProofs.HandleKeepsPipe` | relay.go:721-746 | Handling the head keeps the pipeline free of duplicates, old frames and frames too far ahead |
| `RelayReceiverProofs.PushKeepsPipe` | relay_dispatch.go:81-91 | So does admitting a frame that passed the gate |
| `RelayReceiverProofs.HandleConserves` | relay.go:721-745 | Handling moves frames between reorder buffer and batch and counts each of them |
| `SendWindow.NumberKeepsWindow` | relay.go:942-947 | Numbering a payload keeps the kept frames equal to the numbered and unretired ones, with their payloads |
| `SendWindow.HandleAckKeepsWindow` | relay.go:787-808 | An ACK keeps it too, never moves sendBase back, and resets the retry count exactly when it moves sendBase |
| `SendWindow.AckRetiresExactly` | relay.go:795-801 | An ACK retires the frames from sendBase up to it when it is inside the window, and none otherwise |
| `SendWindow.RoundResendsAll` | relay.go:1002-1033 | A round has nothing to do exactly when nothing is unacknowledged, gives up exactly when the budget is spent, and otherwise resends all of `unacked`, once each, in order; either of the last two costs one unit |
| `SendWindow.WindowSizeBound` | relay.go:925-926 | The number of kept frames is nextSeq minus sendBase and within the window |
| `SendWindow.Snapshot` | relay.go:1018-1033 | The frames of a round are in increasing order, each with its kept payload |
| `ReorderBuffer.Frontier` | relay_dispatch.go:50-53 | The first number from a start that is not pending, all before it being pending |
| `ReorderBuffer.Drain` | relay.go:727-735 | The released run holds the buffered payloads in order and ends at the first number that is not buffered |
| `ReorderBuffer.DrainPartitions` | relay.go:727-735 | Every buffered frame is, unchanged, at its place in the run or still in the buffer, and never both |
| `ReorderBuffer.DrainConserves` | relay.go:727-735 | No buffered frame is lost or copied |
| `AckWorker.QueueKeeps` | relay_dispatch.go:178-199 | Queueing coalesces to the larger ACK, forgets none, and leaves a wake-up |
| `AckWorker.PickKeeps` | relay_dispatch.go:208-217 | Picking moves the pending ACK into the worker's hand without losing it |
| `AckWorker.SettleKeeps` | relay_dispatch.go:219-224 | Settling reports idle only when nothing is outstanding |
| `AckWorker.BeginKeeps` | relay_dispatch.go:148-159 | Registering work opens an idle channel under a new identity when there is none |
| `AckWorker.FinishKeeps` | relay_dispatch.go:161-173 | Unregistering closes the idle channel if and only if nothing is left |
| `AckWorker.IdleMeansAccepted` | relay_dispatch.go:168-173 | Without idle channel what was queued is covered by what was accepted or failed |
| `RelayTypes.InflightLimit` | relay.go:831-838 | The RPC limit is the window inside 1 to 64 and the nearer end outside it |
| `RelayTypes.GateWindow` | relay_dispatch.go:21-24 | The gate's window is the configured one, and one where that is smaller |
| `RelayConnections.RelayConnection.constructor` | relay.go:93-112 | A new connection is the initial state of every state machine |
| `RelayConnections.RelayConnection.NumberPayload` | relay.go:942-947 | Numbers a payload as the model's window does |
| `RelayConnections.RelayConnection.HandleAck` | relay.go:795-802 | The loop over `unacked` removes exactly the frames the ACK retires |
| `RelayConnections.RelayConnection.BeginRound` | relay.go:1002-1034 | Spends one unit of budget and either gives up or copies the round |
| `RelayConnections.RelayConnection.CopyPending` | relay.go:1018-1033 | The copying loop yields the ordered snapshot |
| `RelayConnections.RelayConnection.FlushDone` | relay_flush.go:87-98 | The poll answers yes exactly when no number below the target is unacknowledged |
| `RelayConnections.RelayConnection.Judge` | relay_dispatch.go:10-57 | The verdict of the gate, with the scan loop for the frontier, is the model's |
| `RelayConnections.RelayConnection.Enter` | relay_dispatch.go:82-91 | A pushed frame enters queue and books together |
| `RelayConnections.RelayConnection.HandleData` | relay.go:721-747 | Computes the model's handling in place |
| `RelayConnections.RelayConnection.DrainRun` | relay.go:727-735 | The draining loop takes exactly the maximal run |
| `RelayConnections.RelayConnection.BeginReceiveAck` | relay_dispatch.go:148-159 | Registers unless closed |
| `RelayConnections.RelayConnection.FinishReceiveAck` | relay_dispatch.go:161-166 | Unregisters and reports idle when due |
| `RelayConnections.RelayConnection.CloseIdleLocked` | relay_dispatch.go:168-173 | Closes the idle channel only when nothing is outstanding |
| `RelayConnections.RelayConnection.QueueAck` | relay_dispatch.go:178-199 | Coalesces unless closed |
| `RelayConnections.RelayConnection.PickAck` | relay_dispatch.go:209-217 | Takes the pending ACK |
| `RelayConnections.RelayConnection.SettleAck` | relay_dispatch.go:219-228 | Clears the send and reports idle only after success |
| `RelayConnections.RelayConnection.SendAckWithRetry` | relay_retry.go:16-36 | Stops at the first outcome that is not a temporary rejection, at cancellation, or after MaxRetransmits retries, and succeeds exactly when the last attempt was accepted |
| `AtLeastOnce.OvertakingAckLosesFrame` | relay.go:707-719 | A run in at-least-once mode in which a frame is given up undelivered |
| `AtLeastOnce.AckIsSafeIff` | relay.go:795-801 | In every state of every run with ACKs in order, some run with the same view from the sender loses a frame to the ACK if and only if its frame was sent and it jumps over the oldest unacknowledged one |
| `AtLeastOnce.SparseSibling` | relay.go:707-719 | Every run with ACKs in order has one that looks the same from the sender and delivered only what was retired |
| `AtLeastOnce.OrderedAcksLoseNothing` | relay.go:707-719 | A run whose applied ACKs retire only the frame they name gives no undelivered frame up |
| `RelayClosing.EachCallbackOnce` | relay.go:607-633 | In every interleaving of registrations, closes and calls, the calls made and due are one per registration, all with the reason of the first close, and none before it |
| `RelayClosing.FirstReasonStays` | relay.go:607-616 | The first reason is never replaced |
| `RelayClosing.CloseRecordsIff` | relay.go:607-621 | A close records its reason if and only if it is the first, and makes one call due per callback |
| `RelayClosing.AllCallsCanBeMade` | relay.go:622-632 | Every call that is due can be made |
| `RelayClosing.CallsAreOneEach` | relay.go:623-627 | One notification calls every registered callback exactly once |
| `RelayClosing.CloseState.OnClose` | relay.go:470-483 | Registers, or calls at once with the recorded reason |
| `RelayClosing.CloseState.CloseWithSource` | relay.go:607-633 | The first close records reason and source and calls every callback in order; a later one changes nothing |
| `RelayClosing.OwnerStays` | relay.go:271-279 | A registered connection stays through any run without its own removal, whatever late closes and repeated OPENs occur |
| `RelayClosing.RemovalFrees` | relay.go:273-279 | The owner's removal frees its identifier and no other, anyone else's frees none, and a free identifier goes to the next OPEN |
| `RelayClosing.Registers` | relay.go:209-219 | Connect registers, and an OPEN does if and only if its identifier is free |
| `RelayClosing.Registry.Accept` | relay.go:209-219 | An incoming OPEN registers only where there is no owner |
| `RelayClosing.Registry.RemoveConnection` | relay.go:273-279 | Removes only the owner |
| `StreamCodec.DecodeEncode` | stream_protocol.go:71-110 | Decoding an encoded frame gives it back |
| `StreamCodec.EncodeDecode` | stream_protocol.go:95-110 | Every accepted byte string is the encoding of what it decodes to |
| `StreamCodec.DecodesIffEncoded` | stream_protocol.go:71-110 | Bytes decode to a frame if and only if the frame encodes to them |
| `StreamCodec.WireBytes` | stream_protocol.go:78-86 | The encoding byte by byte: magic, kind, identifier, numbers with their most significant byte first, payload |
| `StreamCodec.EncodableIff` | stream_protocol.go:72-77 | Exactly the frames of kinds 1 to 6 with at most 131072 bytes can be encoded |
| `StreamCodec.PutsBigEndian` | stream_protocol.go:82-85 | The bytes of a number are its digits to base 256, the most significant first |
| `StreamCodec.Layout` | stream_protocol.go:78-86 | Every header field stands at its documented position |
| `StreamCodec.GetPut` | stream_protocol.go:82-85 | Big-endian numbers of any width read back |
| `StreamTheorems.EndToEnd` | stream_protocol.go:129-239 | In every run with loss, repetition, reordering and resumes, the accepted bytes are a prefix of the written ones, acked ≤ offset ≤ next, and every unacknowledged byte is held in a pending frame |
| `StreamTheorems.ResumeCompletes` | stream_protocol.go:167-214 | From every reachable state a resume at the next epoch is accepted at both ends, and its frames, in order, complete the receiver without gap, epoch or credit error |
| `StreamTheorems.EverythingIsAcknowledged` | stream_protocol.go:144-239 | From every reachable state some continuation without a further write has every byte accepted and acknowledged, and nothing pending |
| `StreamDelivery.CreditComesBack` | stream_conn.go:360-412 | From every reachable state of an open stream some continuation brings every byte to the peer's application and grants the writer the whole window again |
| `StreamDelivery.RefusedIff` | stream_conn.go:556-580 | handleData refuses with the first applicable reason: a gap, the bound of the buffer, the receiver state |
| `StreamDelivery.GrantIs` | stream_conn.go:400-406 | The writer is granted exactly the credit beyond what it saw in flight |
| `StreamDelivery.SendingSteps` | stream_conn.go:360-457 | When the writer reads offsets and sends, when an ACK reaches each of its two places, and when a resume begins and is taken |
| `StreamDelivery.ReceivingSteps` | stream_conn.go:482-544 | When DATA is taken, when a CLOSE ends the stream, and what Read hands over |
| `StreamProtocol.AcceptsIff` | stream_protocol.go:216-231 | Which frames a receiver takes, and an if-and-only-if for every reason to refuse one |
| `StreamProtocol.AcknowledgesIff` | stream_protocol.go:144-156 | A sender applies exactly the ACKs of its epoch between acknowledged and sent, and keeps its window on one without credit |
| `StreamProtocol.SendsIff` | stream_protocol.go:129-141 | A sender takes exactly the payloads of one byte to a frame that fit the window, and the frame continues the stream |
| `StreamProtocol.ResumesIff` | stream_protocol.go:167-214 | When each end takes a resume, and that the receiver keeps its offset |
| `StreamTheorems.EpochIsolation` | stream_protocol.go:203-224 | Epochs and offsets only grow, the receiver's epoch never passes the sender's, and no DATA of an earlier epoch is accepted in any continuation |
| `StreamTheorems.StaleFramesAreIgnored` | stream_protocol.go:144-149 | A frame of an earlier epoch changes neither end |
| `StreamSession.RunKeeps` | stream_protocol.go:129-239 | The joint invariant of the two states and the network holds after every run |
| `StreamSession.KeptIsSuffix` | stream_protocol.go:157-163 | Acknowledging drops whole frames from the front and nothing else |
| `StreamSession.WriteKeepsCover` | stream_protocol.go:138-141 | A new frame continues the cover of the unacknowledged bytes |
| `StreamSession.AcknowledgeKeepsCover` | stream_protocol.go:144-165 | After an ACK the pending frames still cover all unacknowledged bytes |
| `StreamSession.ResumeKeepsCover` | stream_protocol.go:167-188 | So do the cut frames after a resume |
| `StreamSession.AcceptExtends` | stream_protocol.go:216-239 | Accepting a slice appends exactly the bytes after the offset |
| `StreamProtocol.StreamSenderState.SendData` | stream_protocol.go:129-142 | Computes the model's frame and state, or its error with the state unchanged |
| `StreamProtocol.StreamSenderState.Acknowledged` | stream_protocol.go:144-165 | The filtering loop keeps exactly the frames past the offset |
| `StreamProtocol.StreamSenderState.Resume` | stream_protocol.go:167-188 | The cutting loop yields exactly the suffix to resend |
| `StreamProtocol.StreamReceiverState.Resume` | stream_protocol.go:203-214 | Raises the epoch and reports the kept offset |
| `StreamProtocol.StreamReceiverState.AcceptFrame` | stream_protocol.go:216-239 | Delivers the new bytes and the cumulative ACK, or an error with the state unchanged |
| `StreamCredit.ReceiverCredit` | stream_conn.go:556-589 | Consumed plus buffered bytes are a prefix of the written ones, the buffer fits the window, and advertised limits never decrease |
| `StreamCredit.EmittedAckIsExact` | stream_conn.go:304-355 | In every run, each step emits at most one ACK, and it advertises exactly the consumed bytes plus the window |
| `StreamCredit.SenderCredit` | stream_conn.go:393-412 | In every run that sends no chunk on a stale grant, with ACKs lost, stale, reordered or torn, the sender stays within the peer's room and no frame it ever sent is refused for credit |
| `StreamCredit.ChunkIsSafeIff` | stream_protocol.go:129-142 | In every state of such a run, some run with the same view from the sending end has a peer that refuses the next chunk if and only if the grant is stale |
| `StreamCredit.StingySibling` | stream_conn.go:505-511 | Every run has one that looks the same from the sending end and whose peer has no room beyond the ACKs applied |
| `StreamCredit.StaleMeansFull` | stream_protocol.go:153-156 | A stale grant means that everything is acknowledged and the furthest ACK seen leaves no room |
| `StreamCredit.AcksWithCreditAreGuarded` | stream_protocol.go:154-156 | A run whose applied ACKs all carry credit never has a stale grant, however they are torn |
| `StreamCredit.UntornIsGuarded` | stream_conn.go:393-412 | Nor has a run in which the writer never reads between the halves of an ACK |
| `StreamCredit.TornAckOverrunsCredit` | stream_conn.go:505-511 | A run in which a torn ACK without credit leads to a credit error |
| `StreamGrants.WindowFullIff` | stream_protocol.go:135-137 | In every run, the sender state can refuse a granted chunk if and only if the grant reaches past its window and the window ends before the next whole frame |
| `StreamGrants.OverdrawnIff` | stream_conn.go:393-412 | In every run, a grant within the window comes to reach past it exactly when an ACK with credit reaches less far than the grant, in either order |
| `StreamGrants.StepOverdraws` | stream_conn.go:393-412 | The same for one step from any state in which the two windows agree |
| `StreamGrants.RunAgrees` | stream_conn.go:505-511 | After every run the two windows agree, up to one half-applied ACK and ACKs without credit |
| `StreamGrants.ReorderedAckRefusesGrant` | stream_conn.go:380-383 | A run in which two granted bytes are refused although the peer has room for them |
| `StreamCredit.StaleCloseIsIgnored` | stream_conn.go:531-539 | A CLOSE of an earlier epoch never closes a resumed stream |
| `StreamFlow.FlowStepIsSessionStep` | stream_conn.go:482-544 | Every step of the connection is a step of the session it refines, or none |
| `StreamFlow.RunKeepsBuffer` | stream_conn.go:556-589 | The buffer invariant holds after every run |
| `StreamConns.StreamConn.constructor` | stream_conn.go:282-299 | A new connection has fresh states and the full window |
| `StreamConns.StreamConn.Read` | stream_conn.go:304-355 | Copies the front of the buffer, leaves the rest of the array alone, keeps the remainder and returns the ACK that releases the credit; with an empty buffer it reports the close or has to wait |
| `StreamConns.StreamConn.HandleData` | stream_conn.go:556-589 | Refuses with the first applicable error and no change, or appends the new bytes within the window and acknowledges the space left |
| `StreamConns.StreamConn.HandleAck` | stream_conn.go:505-520 | Applies an ACK to both places, or to neither |
| `StreamConns.CreditOf` | stream_conn.go:393-412 | There is credit if and only if the stream is open and less than `sendWin` is in flight, and it is the difference |
| `StreamConns.StreamConn.WaitSendCredit` | stream_conn.go:393-412 | One round reports the close, that credit, or that there is none |
| `StreamConns.StreamConn.Write` | stream_conn.go:360-391 | With any ACKs between its rounds, the frames carry exactly the first `written` bytes, chained from the old end, and every unacknowledged byte stays pending; it stops short only after a failed send, when closed, with `sendWin` in flight, or at a chunk too long or past the state's window |
| `StreamConns.StreamConn.WriteRound` | stream_conn.go:368-390 | One round sends the chunk that frame size and credit allow, and what is in flight stays within the credit |
| `StreamConns.Chunk` | stream_conn.go:373-379 | A chunk is non-empty, continues the written prefix, and is short only at the end of the data |

## Left out

- Best-effort mode, and at-least-once mode beyond the interplay of its ACKs with the send window; the link theorems are about reliable-ordered mode.
- Termination and fairness: progress is stated as "a continuation exists", not "every fair run gets there".
- RelayRecovery.OneRoundRecovers: excludes links that are closed or about to close (a terminal frame admitted or being admitted, an inbox overflow, a failed ACK send, a spent retry budget), and asks for a channel of capacity at least one (the code makes it 64).
- RelayRecovery.EverythingQueuedArrives: asks for a window other than zero as well; with a window of zero sendLoop never numbers a payload. The same holds for RelayEnding.CloseCompletes, CloseIsEmitted and FlushReturns.
- StreamDelivery.CreditComesBack: a writer that already holds credit uses it for one byte first, because a grant cannot be handed back.
- RelayTheorems.CloseWaitsForAcks: an ACK that failed counts as settled; RelayLimits.CloseOvertakesFailedAck shows that more cannot be promised.
- StreamCredit.SenderCredit: excludes runs that send a chunk on a stale grant; StreamCredit.ChunkIsSafeIff shows that this is exactly the chunk some peer refuses.
- StreamConns.StreamConn.Write: takes the ACKs between its rounds from its environment and returns where waitSendCredit would block; ACKs that fall inside a round are in `StreamFlow`, and when a granted chunk is refused is in `StreamGrants`.
- StreamConns.StreamConn.Read: is one round of the waiting loop; which error a closed stream reports is not modelled.
- RelayLink models one direction of a connection; the other direction reaches it as frames of other kinds at any time and as a close at any time.
- Real time: timers fire whenever they are armed; timeouts, cancellation and aborts may strike at any time.
- Wrap-around of 64-bit sequence numbers, epochs and offsets, which are natural numbers here except in the codec.
- The capacity of `sendCh` and blocking on it; a Send that would block has not yet queued.
- The OPEN handshake, PING, and the lazy creation of the inbox; connections start out as created.
- Empty payloads in Send, which return without queueing anything.
- The ERROR payload and which error value a caller sees, except in the stream's own operations.
- `StreamMux`: dialing, accepting, the backlog and configuration defaults.
- Client RPCs, reconnection, websocket and HTTP code, protobuf encoding, the message store, password and metadata helpers, and the demo runner: plumbing, or easy members.
