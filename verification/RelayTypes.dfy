/** Frames, configuration and channel items of the Relay transport. */
module RelayTypes {

  type Byte = b: int | 0 <= b < 256

  type Payload = seq<Byte>

  datatype Option<+T> = None | Some(value: T)

  /** A Relay envelope as the receiving side of a connection sees it. `Other` stands for the kinds
      without effect on either half (OPEN_ACK on an open connection, PING). */
  datatype Frame =
    | Data(seqNo: nat, payload: Payload)
    | Ack(ackSeq: nat)
    | Close
    | Error
    | Other
  {
    /** CLOSE and ERROR end the connection when they are dispatched. */
    predicate Terminal() {
      Close? || Error?
    }
  }

  /** What Send, Flush and Close put on `sendCh`. A barrier remembers, for the statements about it,
      how many payloads had been queued when its Flush took the enqueue lock. */
  datatype Item =
    | Payloads(data: Payload)
    | Barrier(before: nat)
    | CloseMark

  datatype ConnState = Opening | Open | Closing | Closed

  /** Go's 64-bit `int`. */
  type GoInt = n: int | -0x8000_0000_0000_0000 <= n < 0x8000_0000_0000_0000

  datatype Config = Config(windowSize: GoInt, maxRetransmits: nat, recvCap: nat)

  const TWO_TO_THE_64: nat := 0x1_0000_0000_0000_0000

  /** Go's `uint64(n)` of a signed integer. */
  function AsUint64(n: int): (u: nat)
    ensures 0 <= n < TWO_TO_THE_64 ==> u == n
    ensures n < 0 <= n + TWO_TO_THE_64 ==> u == n + TWO_TO_THE_64
  {
    n % TWO_TO_THE_64
  }

  /** The window the admission gate uses: never below one frame. */
  function GateWindow(cfg: Config): (w: nat)
    ensures w >= 1 && (cfg.windowSize >= 1 ==> w == cfg.windowSize) && (cfg.windowSize < 1 ==> w == 1)
  {
    if cfg.windowSize < 1 then 1 else cfg.windowSize
  }

  /** Frames one connection may hold on its receive side. */
  function Budget(cfg: Config): nat {
    cfg.recvCap + 2 * GateWindow(cfg)
  }

  /** Bound on concurrent acceptance RPCs: the window, clamped to 1..64. */
  function InflightLimit(cfg: Config): (n: nat)
    ensures 1 <= n <= 64 && (1 <= cfg.windowSize <= 64 ==> n == cfg.windowSize)
    ensures cfg.windowSize < 1 ==> n == 1
    ensures cfg.windowSize > 64 ==> n == 64
  {
    if cfg.windowSize < 1 then 1 else if cfg.windowSize > 64 then 64 else cfg.windowSize
  }

  /** The members of an interval are as many as the interval is long. */
  lemma {:induction false} IntervalSize(keys: set<nat>, lo: nat, hi: nat)
    requires lo <= hi && forall s :: s in keys <==> lo <= s < hi
    ensures |keys| == hi - lo
    decreases hi
  {
    if lo < hi {
      IntervalSize(keys - {hi - 1}, lo, hi - 1);
      assert keys == (keys - {hi - 1}) + {hi - 1};
    } else {
      assert keys == {};
    }
  }
}
