/** The coalescing receive-ACK worker: `ackPending`, `ackGenerating`, `ackSending`, `ackIdle`, the
    wake-up token `ackOut` and the worker's own program point. */
module AckWorker {
  import opened RelayTypes

  /** Waiting for a token; about to pick the pending ACK; inside the acceptance RPC of an ACK; the
      RPC has returned; the loop has ended. */
  datatype Worker = Asleep | Picking | Sending(ack: nat) | Replied(ack: nat, ok: bool) | Stopped

  /** `idle` is the identity of the current idle channel, if one is open; `idles` numbers them. The
      last four fields are histories: the highest ACK ever queued, the highest ACK whose send
      returned without error, whether some ACK send failed, and the highest ACK that failed. */
  datatype Acks = Acks(
    pending: Option<nat>, generating: nat, sending: bool,
    idle: Option<nat>, idles: nat, token: bool, worker: Worker,
    queuedMax: nat, acceptedMax: nat, failed: bool, lost: nat)

  const InitialAcks := Acks(None, 0, false, None, 0, false, Asleep, 0, 0, false, 0)

  function Max(a: nat, b: nat): nat {
    if a < b then b else a
  }

  /** Opens an idle channel when there is none. */
  function OpenIdle(a: Acks): Acks {
    if a.idle.None? then a.(idle := Some(a.idles), idles := a.idles + 1) else a
  }

  /** closeACKIdleLocked */
  function CloseIdle(a: Acks): Acks {
    if a.generating == 0 && !a.sending && a.pending.None? then a.(idle := None) else a
  }

  /** beginReceiveACK on a connection that is not closed. */
  function Begin(a: Acks): Acks {
    OpenIdle(a.(generating := a.generating + 1))
  }

  /** finishReceiveACK */
  function Finish(a: Acks): Acks {
    CloseIdle(a.(generating := if a.generating == 0 then 0 else a.generating - 1))
  }

  /** queueACK on a connection that is not closed: keeps the larger of the pending and new ACK. */
  function Queue(a: Acks, ack: nat): Acks {
    var kept := if a.pending.None? || ack > a.pending.value then Some(ack) else a.pending;
    OpenIdle(a.(pending := kept, token := true, queuedMax := Max(a.queuedMax, ack)))
  }

  /** receiveACKLoop wakes up. */
  function Wake(a: Acks): Acks {
    if a.worker == Asleep && a.token then a.(token := false, worker := Picking) else a
  }

  /** receiveACKLoop takes the pending ACK, or goes back to sleep. */
  function Pick(a: Acks): Acks {
    if a.worker != Picking then a
    else
      CloseIdle(a.(pending := None, sending := a.pending.Some?,
                   worker := if a.pending.Some? then Sending(a.pending.value) else Asleep))
  }

  /** sendACKWithRetry returns. */
  function Reply(a: Acks, ok: bool): Acks {
    if !a.worker.Sending? then a
    else a.(worker := Replied(a.worker.ack, ok),
            acceptedMax := if ok then Max(a.acceptedMax, a.worker.ack) else a.acceptedMax,
            failed := a.failed || !ok,
            lost := if ok then a.lost else Max(a.lost, a.worker.ack))
  }

  /** The worker clears ackSending; only a successful send may report idle. */
  function Settle(a: Acks): Acks {
    if !a.worker.Replied? then a
    else if a.worker.ok then CloseIdle(a.(sending := false, worker := Picking))
    else a.(sending := false, worker := Stopped)
  }

  /** The ACK the worker has taken and not yet seen accepted. */
  function InHand(a: Acks): nat {
    if a.worker.Sending? then a.worker.ack else 0
  }

  function PendingAck(a: Acks): nat {
    if a.pending.Some? then a.pending.value else 0
  }

  /** A frame's ACK is registered, an ACK is being sent, or one is pending. */
  predicate Busy(a: Acks) {
    a.generating > 0 || a.sending || a.pending.Some?
  }

  /** What the worker keeps: an idle channel is open exactly while there is work, up to a failed send;
      every ACK queued is covered by one accepted, failed, pending or in hand; and a pending ACK has a
      wake-up on its way. */
  ghost predicate AcksInv(a: Acks) {
    && (Busy(a) ==> a.idle.Some?)
    && (a.idle.Some? ==> Busy(a) || a.failed)
    && (a.idle.Some? ==> a.idle.value < a.idles)
    && (a.sending <==> a.worker.Sending? || a.worker.Replied?)
    && a.queuedMax == Max(Max(a.acceptedMax, a.lost), Max(PendingAck(a), InHand(a)))
    && (!a.failed ==> a.lost == 0)
    && (a.worker.Replied? && !a.worker.ok ==> a.failed)
    && (a.failed ==> a.worker == Stopped || (a.worker.Replied? && !a.worker.ok))
    && (a.pending.Some? ==> a.token || a.worker != Asleep)
  }

  /** How the ACK state may move: watermarks rise, a failure is remembered, and an idle channel is
      kept, closed, or opened under a new identity. */
  ghost predicate Progress(a: Acks, b: Acks) {
    && a.idles <= b.idles && a.queuedMax <= b.queuedMax && a.acceptedMax <= b.acceptedMax
    && a.lost <= b.lost && (a.failed ==> b.failed)
    && (b.idle == a.idle || b.idle.None? || (a.idle.None? && b.idle.value >= a.idles))
  }

  lemma BeginKeeps(a: Acks)
    requires AcksInv(a)
    ensures AcksInv(Begin(a)) && Progress(a, Begin(a)) && Begin(a).generating == a.generating + 1
  {
  }

  lemma FinishKeeps(a: Acks)
    requires AcksInv(a)
    ensures AcksInv(Finish(a)) && Progress(a, Finish(a))
    ensures Finish(a).generating == (if a.generating == 0 then 0 else a.generating - 1)
    ensures Finish(a).idle.None? <==> Finish(a).generating == 0 && !a.sending && a.pending.None?
  {
  }

  lemma QueueKeeps(a: Acks, ack: nat)
    requires AcksInv(a)
    ensures AcksInv(Queue(a, ack)) && Progress(a, Queue(a, ack)) && Queue(a, ack).generating == a.generating
    ensures Queue(a, ack).queuedMax == Max(a.queuedMax, ack)
  {
  }

  lemma WakeKeeps(a: Acks)
    requires AcksInv(a)
    ensures AcksInv(Wake(a)) && Progress(a, Wake(a))
  {
  }

  lemma PickKeeps(a: Acks)
    requires AcksInv(a)
    ensures AcksInv(Pick(a)) && Progress(a, Pick(a)) && Pick(a).generating == a.generating
  {
  }

  lemma ReplyKeeps(a: Acks, ok: bool)
    requires AcksInv(a)
    ensures AcksInv(Reply(a, ok)) && Progress(a, Reply(a, ok))
  {
  }

  lemma SettleKeeps(a: Acks)
    requires AcksInv(a)
    ensures AcksInv(Settle(a)) && Progress(a, Settle(a)) && Settle(a).generating == a.generating
  {
  }

  /** No idle channel: everything queued is covered by what was accepted or what failed. */
  lemma IdleMeansAccepted(a: Acks)
    requires AcksInv(a) && a.idle.None?
    ensures a.queuedMax == Max(a.acceptedMax, a.lost) && a.generating == 0
    ensures a.acceptedMax == a.queuedMax <==> a.lost <= a.acceptedMax
  {
  }
}
