/** The receive order of a Relay connection: `expectedSeq`, `recvBuf`, `recvReady` and
    `recvDelivered`, and the critical section of handleData in reliable-ordered mode. */
module ReorderBuffer {
  import opened RelayTypes

  /** Sequence numbers start at one. */
  type Pos = n: nat | n >= 1 witness 1

  datatype Reorder = Reorder(expectedSeq: Pos, recvBuf: map<nat, Payload>, recvReady: nat, recvDelivered: nat)

  const InitialReorder := Reorder(1, map[], 0, 0)

  /** The first number at or after `lo` that is not in the set. */
  function Frontier(lo: nat, numbers: set<nat>): (f: nat)
    ensures f >= lo && f !in numbers
    ensures forall q :: lo <= q < f ==> q in numbers
    decreases AtLeast(lo, numbers)
  {
    if lo in numbers then
      assert lo in AtLeast(lo, numbers) && lo !in AtLeast(lo + 1, numbers);
      Frontier(lo + 1, numbers)
    else lo
  }

  ghost function AtLeast(lo: nat, numbers: set<nat>): set<nat> {
    set q | q in numbers && q >= lo
  }

  datatype Drained = Drained(next: Pos, rest: map<nat, Payload>, ready: seq<Payload>)

  /** Takes the unbroken run of buffered frames that starts at `expected`. */
  function Drain(expected: Pos, buf: map<nat, Payload>): (d: Drained)
    ensures d.next == expected + |d.ready| && d.next !in buf
    ensures forall i :: 0 <= i < |d.ready| ==> expected + i in buf && d.ready[i] == buf[expected + i]
  {
    var next := Frontier(expected, buf.Keys);
    Drained(next,
            map k | k in buf && !(expected <= k < next) :: buf[k],
            seq(next - expected, i requires 0 <= i < next - expected => buf[expected + i]))
  }

  /** Each buffered frame is at its place in the run or still in the buffer, never both. */
  lemma DrainPartitions(expected: Pos, buf: map<nat, Payload>)
    ensures var d := Drain(expected, buf);
            && (forall k :: k in d.rest ==> k in buf && d.rest[k] == buf[k] && !(expected <= k < d.next))
            && (forall k :: k in buf && k !in d.rest ==> expected <= k < d.next && d.ready[k - expected] == buf[k])
            && (forall i :: 0 <= i < |d.ready| ==> expected + i in buf && d.ready[i] == buf[expected + i])
  {
  }

  /** Draining moves frames, it neither loses nor copies one. */
  lemma DrainConserves(expected: Pos, buf: map<nat, Payload>)
    ensures |Drain(expected, buf).rest| + |Drain(expected, buf).ready| == |buf|
  {
    var d := Drain(expected, buf);
    var run := set k | k in buf && expected <= k < d.next;
    IntervalSize(run, expected, d.next);
    assert buf.Keys == d.rest.Keys + run;
  }

  datatype Handled = Dropped | Handled(order: Reorder, ready: seq<Payload>, ackSeq: nat)

  /** handleData under the mutex: an expected frame releases the run it completes, a frame ahead
      is buffered when it is inside the window, an older one is only acknowledged again. */
  function HandleData(cfg: Config, o: Reorder, seqNo: nat, payload: Payload): Handled {
    if seqNo == o.expectedSeq then
      var d := Drain(o.expectedSeq + 1, o.recvBuf);
      var ready := [payload] + d.ready;
      Handled(o.(expectedSeq := d.next, recvBuf := d.rest, recvReady := o.recvReady + |ready|),
              ready, d.next - 1)
    else if seqNo > o.expectedSeq then
      if seqNo - o.expectedSeq >= AsUint64(cfg.windowSize) then Dropped
      else Handled(o.(recvBuf := o.recvBuf[seqNo := payload]), [], o.expectedSeq - 1)
    else Handled(o, [], o.expectedSeq - 1)
  }
}
