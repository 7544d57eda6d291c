/** The mutable RelayConnection and its critical sections. Each method is one section under `mu` or
    `inboxMu`, written with the loops and field updates of the Go code, and is proved to compute
    the function that the state machines of the two halves use. */
module RelayConnections {
  import opened RelayTypes
  import SW = SendWindow
  import RB = ReorderBuffer
  import AW = AckWorker
  import R = RelayReceiver

  /** What one send of an ACK reports: accepted, a temporary rejection, or another error. */
  datatype Outcome = AckAccepted | Unavailable | Rejected

  class RelayConnection {
    const config: Config

    var state: ConnState
    var sendBase: nat
    var nextSeq: nat
    var unacked: map<nat, Payload>
    var retransCnt: nat

    var expectedSeq: RB.Pos
    var recvBuf: map<nat, Payload>
    var recvReady: nat
    var recvDelivered: nat

    var inbox: seq<Frame>
    var inboxSeq: set<nat>
    var inboxData: nat
    var inboxFailed: bool
    var inboxTerminal: bool

    var ackPending: Option<nat>
    var ackGenerating: nat
    var ackSending: bool
    var ackIdle: Option<nat>
    var ackIdles: nat
    var ackToken: bool
    var ackWorker: AW.Worker
    ghost var queuedMax: nat
    ghost var acceptedMax: nat
    ghost var ackFailed: bool
    ghost var ackLost: nat

    constructor (config: Config)
      ensures this.config == config && state == Opening
      ensures Window() == SW.InitialWindow && Order() == RB.InitialReorder
      ensures Gate() == R.InitialReceiver.gate && Acks() == AW.InitialAcks
    {
      this.config := config;
      state := Opening;
      sendBase, nextSeq, unacked, retransCnt := 1, 1, map[], 0;
      expectedSeq, recvBuf, recvReady, recvDelivered := 1, map[], 0, 0;
      inbox, inboxSeq, inboxData, inboxFailed, inboxTerminal := [], {}, 0, false, false;
      ackPending, ackGenerating, ackSending, ackIdle, ackIdles := None, 0, false, None, 0;
      ackToken, ackWorker := false, AW.Asleep;
      queuedMax, acceptedMax, ackFailed, ackLost := 0, 0, false, 0;
    }

    function Window(): SW.Window
      reads this
    {
      SW.Window(sendBase, nextSeq, unacked, retransCnt)
    }

    function Order(): RB.Reorder
      reads this
    {
      RB.Reorder(expectedSeq, recvBuf, recvReady, recvDelivered)
    }

    function Gate(): R.Gate
      reads this
    {
      R.Gate(inbox, inboxSeq, inboxData, inboxFailed, inboxTerminal)
    }

    ghost function Acks(): AW.Acks
      reads this
    {
      AW.Acks(ackPending, ackGenerating, ackSending, ackIdle, ackIdles, ackToken, ackWorker,
              queuedMax, acceptedMax, ackFailed, ackLost)
    }

    // The send window

    /** sendLoop: gives a payload its number. */
    method NumberPayload(data: Payload) returns (seqNo: nat)
      modifies this`nextSeq, this`unacked, this`sendBase
      ensures seqNo == old(nextSeq) && Window() == SW.Number(old(Window()), data)
    {
      seqNo := nextSeq;
      nextSeq := nextSeq + 1;
      unacked := unacked[seqNo := data];
      if sendBase == 0 {
        sendBase := seqNo;
      }
    }

    /** handleAck: retires the acknowledged frames one by one. */
    method HandleAck(ackSeq: nat)
      modifies this`sendBase, this`unacked, this`retransCnt
      ensures Window() == SW.HandleAck(old(Window()), ackSeq)
    {
      if sendBase <= ackSeq < nextSeq {
        var todo := unacked.Keys;
        while todo != {}
          invariant todo <= old(unacked).Keys
          invariant forall s :: s in unacked <==> s in old(unacked) && (s > ackSeq || s in todo)
          invariant forall s :: s in unacked ==> unacked[s] == old(unacked)[s]
          invariant sendBase == old(sendBase)
          decreases todo
        {
          var s :| s in todo;
          todo := todo - {s};
          if s <= ackSeq {
            unacked := unacked - {s};
          }
        }
        assert unacked == SW.Retire(old(unacked), ackSeq);
        sendBase := ackSeq + 1;
        retransCnt := 0;
      }
    }

    /** The part of retransmit under the mutex: spends the retry budget and copies what is pending. */
    method BeginRound() returns (start: SW.RoundStart)
      modifies this`retransCnt
      ensures start == SW.BeginRound(config, old(Window()))
      ensures Window() == match start case Nothing => old(Window()) case Exhausted(w) => w case Resend(w, _) => w
    {
      if unacked == map[] {
        return SW.Nothing;
      }
      retransCnt := retransCnt + 1;
      if retransCnt > config.maxRetransmits {
        return SW.Exhausted(Window());
      }
      var frames := CopyPending(unacked, sendBase, nextSeq);
      start := SW.Resend(Window(), frames);
    }

    /** The loop that copies the unacknowledged frames in sending order. */
    static method CopyPending(unacked: map<nat, Payload>, lo: nat, hi: nat) returns (frames: seq<(nat, Payload)>)
      ensures frames == SW.Snapshot(unacked, lo, hi)
    {
      frames := [];
      var n := lo;
      while n < hi
        invariant lo <= n <= hi || lo == n
        invariant frames == SW.Snapshot(unacked, lo, n)
      {
        if n in unacked {
          frames := frames + [(n, unacked[n])];
        }
        n := n + 1;
      }
    }

    /** The poll of Flush: is every number below the barrier's target retired? */
    method FlushDone(target: nat) returns (done: bool)
      ensures done <==> forall n :: n in unacked ==> n >= target
    {
      done := true;
      var todo := unacked.Keys;
      while todo != {} && done
        invariant todo <= unacked.Keys
        invariant done ==> forall n :: n in unacked && n !in todo ==> n >= target
        invariant !done ==> exists n :: n in unacked && n < target
        decreases todo
      {
        var n :| n in todo;
        todo := todo - {n};
        if n < target {
          done := false;
        }
      }
    }

    // The admission gate

    /** enqueueEnvelope up to its verdict, with the scan for the frontier. */
    method Judge(frame: Frame) returns (v: R.Verdict)
      ensures v == R.Judge(config, state == Closed, Order(), Gate(), frame)
    {
      if state == Closed || inboxFailed {
        return R.Drop;
      }
      if frame.Ack? && !inboxTerminal {
        return R.ApplyAck(frame.ackSeq);
      }
      if !frame.Data? {
        return R.Admit;
      }
      if inboxTerminal || frame.seqNo in inboxSeq || frame.seqNo in recvBuf {
        return R.Drop;
      }
      if frame.seqNo < expectedSeq {
        return if recvDelivered > 0 then R.ReplayAck(recvDelivered) else R.Drop;
      }
      var frontier: nat := expectedSeq;
      while frontier in inboxSeq
        invariant frontier >= expectedSeq
        invariant RB.Frontier(expectedSeq, inboxSeq) == RB.Frontier(frontier, inboxSeq)
        decreases RB.AtLeast(frontier, inboxSeq)
      {
        assert frontier in RB.AtLeast(frontier, inboxSeq) && frontier !in RB.AtLeast(frontier + 1, inboxSeq);
        frontier := frontier + 1;
      }
      var window := if config.windowSize < 1 then 1 else config.windowSize;
      if frame.seqNo >= frontier && frame.seqNo - frontier >= window {
        return R.Drop;
      }
      v := R.Consider(|recvBuf| + recvReady);
    }

    /** The successful push and the bookkeeping with it. */
    method Enter(frame: Frame)
      modifies this`inbox, this`inboxSeq, this`inboxData, this`inboxTerminal
      ensures Gate() == R.Enter(old(Gate()), frame)
    {
      inbox := inbox + [frame];
      if frame.Close? || frame.Error? {
        inboxTerminal := true;
      }
      if frame.Data? {
        inboxData := inboxData + 1;
        inboxSeq := inboxSeq + {frame.seqNo};
      }
    }

    // The reorder buffer

    /** handleData under the mutex. */
    method HandleData(seqNo: nat, payload: Payload) returns (h: RB.Handled)
      modifies this`expectedSeq, this`recvBuf, this`recvReady
      ensures h == RB.HandleData(config, old(Order()), seqNo, payload)
      ensures Order() == if h.Handled? then h.order else old(Order())
    {
      var ready: seq<Payload> := [];
      if seqNo == expectedSeq {
        expectedSeq := expectedSeq + 1;
        var run := DrainRun();
        ready := [payload] + run;
      } else if seqNo > expectedSeq {
        if seqNo - expectedSeq >= AsUint64(config.windowSize) {
          return RB.Dropped;
        }
        recvBuf := recvBuf[seqNo := payload];
      }
      recvReady := recvReady + |ready|;
      h := RB.Handled(Order(), ready, expectedSeq - 1);
    }

    /** The loop of handleData that moves the completed run out of the reorder buffer. */
    method DrainRun() returns (ready: seq<Payload>)
      modifies this`expectedSeq, this`recvBuf
      ensures RB.Drain(old(expectedSeq), old(recvBuf)) == RB.Drained(expectedSeq, recvBuf, ready)
    {
      ready := [];
      while expectedSeq in recvBuf
        invariant expectedSeq == old(expectedSeq) + |ready|
        invariant forall k :: old(expectedSeq) <= k < expectedSeq ==>
                    k in old(recvBuf) && old(recvBuf)[k] == ready[k - old(expectedSeq)]
        invariant forall k :: k in recvBuf <==> k in old(recvBuf) && !(old(expectedSeq) <= k < expectedSeq)
        invariant forall k :: k in recvBuf ==> recvBuf[k] == old(recvBuf)[k]
        decreases recvBuf.Keys
      {
        ghost var before := recvBuf;
        ready := ready + [recvBuf[expectedSeq]];
        recvBuf := recvBuf - {expectedSeq};
        assert expectedSeq in before.Keys && expectedSeq !in recvBuf.Keys;
        expectedSeq := expectedSeq + 1;
      }
      FrontierIs(old(expectedSeq), old(recvBuf).Keys, expectedSeq);
      assert recvBuf == RB.Drain(old(expectedSeq), old(recvBuf)).rest;
      assert ready == RB.Drain(old(expectedSeq), old(recvBuf)).ready;
    }

    // The ACK worker

    method BeginReceiveAck() returns (registered: bool)
      modifies this`ackGenerating, this`ackIdle, this`ackIdles
      ensures registered == (state != Closed)
      ensures Acks() == if registered then AW.Begin(old(Acks())) else old(Acks())
    {
      if state == Closed {
        return false;
      }
      ackGenerating := ackGenerating + 1;
      OpenIdle();
      registered := true;
    }

    method OpenIdle()
      modifies this`ackIdle, this`ackIdles
      ensures Acks() == AW.OpenIdle(old(Acks()))
    {
      if ackIdle.None? {
        ackIdle := Some(ackIdles);
        ackIdles := ackIdles + 1;
      }
    }

    method CloseIdleLocked()
      modifies this`ackIdle
      ensures Acks() == AW.CloseIdle(old(Acks()))
    {
      if ackGenerating == 0 && !ackSending && ackPending.None? && ackIdle.Some? {
        ackIdle := None;
      }
    }

    method FinishReceiveAck()
      requires ackGenerating > 0
      modifies this`ackGenerating, this`ackIdle
      ensures Acks() == AW.Finish(old(Acks()))
    {
      ackGenerating := ackGenerating - 1;
      CloseIdleLocked();
    }

    method QueueAck(ack: nat)
      modifies this`ackPending, this`ackIdle, this`ackIdles, this`ackToken, this`queuedMax
      ensures Acks() == if state == Closed then old(Acks()) else AW.Queue(old(Acks()), ack)
    {
      if state == Closed {
        return;
      }
      if ackPending.None? || ack > ackPending.value {
        ackPending := Some(ack);
      }
      queuedMax := AW.Max(queuedMax, ack);
      ackToken := true;
      OpenIdle();
    }

    method PickAck() returns (env: Option<nat>)
      requires ackWorker == AW.Picking
      modifies this`ackPending, this`ackSending, this`ackWorker, this`ackIdle
      ensures env == old(ackPending) && Acks() == AW.Pick(old(Acks()))
    {
      env := ackPending;
      ackPending := None;
      ackSending := env.Some?;
      ackWorker := if env.Some? then AW.Sending(env.value) else AW.Asleep;
      CloseIdleLocked();
    }

    method SettleAck()
      requires ackWorker.Replied?
      modifies this`ackSending, this`ackWorker, this`ackIdle
      ensures Acks() == AW.Settle(old(Acks()))
    {
      ackSending := false;
      if ackWorker.ok {
        ackWorker := AW.Picking;
        CloseIdleLocked();
      } else {
        ackWorker := AW.Stopped;
      }
    }

    /** sendACKWithRetry against an environment that decides every attempt and, after a retryable
        one, whether the connection is cancelled during the delay. */
    method SendAckWithRetry(attempt: nat -> Outcome, cancelled: nat -> bool) returns (ok: bool, attempts: nat)
      ensures 1 <= attempts <= config.maxRetransmits + 1
      ensures forall i :: 0 <= i < attempts - 1 ==> attempt(i) == Unavailable && !cancelled(i)
      ensures ok <==> attempt(attempts - 1) == AckAccepted
      ensures attempt(attempts - 1) == Unavailable ==> attempts == config.maxRetransmits + 1 || cancelled(attempts - 1)
    {
      var retries := 0;
      while true
        invariant 0 <= retries <= config.maxRetransmits
        invariant forall i :: 0 <= i < retries ==> attempt(i) == Unavailable && !cancelled(i)
        decreases config.maxRetransmits - retries
      {
        var err := attempt(retries);
        if err != Unavailable || retries >= config.maxRetransmits || cancelled(retries) {
          return err == AckAccepted, retries + 1;
        }
        retries := retries + 1;
      }
    }
  }

  /** The frontier is the only number that ends an unbroken run. */
  lemma {:induction false} FrontierIs(lo: nat, numbers: set<nat>, f: nat)
    requires lo <= f && f !in numbers && forall q :: lo <= q < f ==> q in numbers
    ensures RB.Frontier(lo, numbers) == f
  {
    var g := RB.Frontier(lo, numbers);
    assert !(g < f) && !(f < g);
  }
}
