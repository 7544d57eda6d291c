/** Stream frames and their binary form: a 49-byte header with big-endian fields, then the payload. */
module StreamCodec {
  import opened RelayTypes

  type StreamID = id: seq<Byte> | |id| == 16 witness seq(16, _ => 0)

  datatype Result<+T, +E> = Ok(value: T) | Err(error: E)

  /** The frame kinds, numbered as on the wire. */
  const OPEN: Byte := 1
  const OPEN_ACK: Byte := 2
  const RESUME: Byte := 3
  const DATA: Byte := 4
  const ACK: Byte := 5
  const CLOSE: Byte := 6

  datatype StreamFrame = StreamFrame(
    kind: Byte, id: StreamID, epoch: nat, offset: nat, window: nat, payload: seq<Byte>)

  /** A frame as Go holds it: the numeric fields are 64 bits wide. */
  type WireFrame = f: StreamFrame | f.epoch < TWO_TO_THE_64 && f.offset < TWO_TO_THE_64 && f.window < TWO_TO_THE_64
    witness StreamFrame(0, seq(16, _ => 0), 0, 0, 0, [])

  const HEADER_SIZE := 49
  const MAX_FRAME := 131072
  const MAGIC: seq<Byte> := ['T' as Byte, 'T' as Byte, 'S' as Byte, 1]

  datatype CodecError = InvalidHeader | InvalidKind | PayloadTooLong | InvalidLength

  // Big-endian numbers

  function Pow256(width: nat): (p: nat)
    ensures p >= 1
  {
    if width == 0 then 1 else 256 * Pow256(width - 1)
  }

  function PutBigEndian(n: nat, width: nat): (s: seq<Byte>)
    ensures |s| == width
  {
    if width == 0 then [] else PutBigEndian(n / 256, width - 1) + [n % 256]
  }

  function GetBigEndian(s: seq<Byte>): nat {
    if s == [] then 0 else GetBigEndian(s[..|s| - 1]) * 256 + s[|s| - 1]
  }

  lemma {:induction false} GetPut(n: nat, width: nat)
    requires n < Pow256(width)
    ensures GetBigEndian(PutBigEndian(n, width)) == n
  {
    if width > 0 {
      GetPut(n / 256, width - 1);
      var s := PutBigEndian(n, width);
      assert s[..width - 1] == PutBigEndian(n / 256, width - 1);
    }
  }

  lemma {:induction false} PutGet(s: seq<Byte>)
    ensures PutBigEndian(GetBigEndian(s), |s|) == s && GetBigEndian(s) < Pow256(|s|)
  {
    if s != [] {
      var init, last := s[..|s| - 1], s[|s| - 1];
      PutGet(init);
      assert GetBigEndian(s) / 256 == GetBigEndian(init) && GetBigEndian(s) % 256 == last;
      assert s == init + [last];
    }
  }

  /** The digit of a number to base 256 at a place, counted from the least significant. */
  function Digit(n: nat, place: nat): nat {
    n / Pow256(place) % 256
  }

  /** The bytes are the digits of the number, the most significant first. */
  ghost predicate BigEndian(s: seq<Byte>, n: nat) {
    forall i :: 0 <= i < |s| ==> s[i] == Digit(n, |s| - 1 - i)
  }

  lemma {:induction false} PutsBigEndian(n: nat, width: nat)
    ensures BigEndian(PutBigEndian(n, width), n)
  {
    if width > 0 {
      PutsBigEndian(n / 256, width - 1);
      var s := PutBigEndian(n, width);
      forall i | 0 <= i < width ensures s[i] == Digit(n, width - 1 - i) {
        if i < width - 1 {
          assert s[i] == PutBigEndian(n / 256, width - 1)[i];
          NextDigit(n, width - 2 - i);
        }
      }
    }
  }

  lemma NextDigit(n: nat, place: nat)
    ensures Digit(n / 256, place) == Digit(n, place + 1)
  {
    var p := Pow256(place);
    var q := n / 256 / p;
    var r := 256 * (n / 256 % p) + n % 256;
    assert n / 256 == p * q + n / 256 % p;
    assert (256 * p) * q == 256 * (p * q);
    Quotient(n, 256 * p, q, r);
  }

  lemma Quotient(n: int, d: int, q: int, r: int)
    requires d > 0 && n == d * q + r && 0 <= r < d
    ensures n / d == q
  {
    assert d * (n / d - q) == r - n % d;
    Sandwich(d, n / d - q);
  }

  lemma Sandwich(d: int, x: int)
    requires -d < d * x < d
    ensures x == 0
  {
    assert x >= 1 ==> d * x >= d;
    assert x <= -1 ==> d * x <= -d;
  }

  lemma Widths()
    ensures Pow256(4) == 0x1_0000_0000 && Pow256(8) == TWO_TO_THE_64
  {
    assert Pow256(2) == 65536;
    assert Pow256(4) == 256 * (256 * Pow256(2));
    assert Pow256(6) == 256 * (256 * Pow256(4));
    assert Pow256(8) == 256 * (256 * Pow256(6));
  }

  // The codec

  predicate ValidKind(kind: Byte) {
    OPEN <= kind <= CLOSE
  }

  /** MarshalBinary */
  function Marshal(f: WireFrame): Result<seq<Byte>, CodecError> {
    if !ValidKind(f.kind) then Err(InvalidKind)
    else if |f.payload| > MAX_FRAME then Err(PayloadTooLong)
    else Ok(MAGIC + [f.kind] + f.id + PutBigEndian(f.epoch, 8) + PutBigEndian(f.offset, 8)
            + PutBigEndian(f.window, 8) + PutBigEndian(|f.payload|, 4) + f.payload)
  }

  predicate IsStreamFrame(data: seq<Byte>) {
    |data| >= |MAGIC| && data[..|MAGIC|] == MAGIC
  }

  /** UnmarshalStreamFrame */
  function Unmarshal(data: seq<Byte>): Result<WireFrame, CodecError> {
    if |data| < HEADER_SIZE || !IsStreamFrame(data) then Err(InvalidHeader)
    else if !ValidKind(data[4]) then Err(InvalidKind)
    else
      var length := GetBigEndian(data[45..49]);
      if length > MAX_FRAME || |data| != HEADER_SIZE + length then Err(InvalidLength)
      else
        Widths(); PutGet(data[21..29]); PutGet(data[29..37]); PutGet(data[37..45]);
        Ok(StreamFrame(data[4], data[5..21], GetBigEndian(data[21..29]), GetBigEndian(data[29..37]),
                       GetBigEndian(data[37..45]), data[49..]))
  }

  /** Exactly the frames of a known kind with at most 128 KiB of payload can be encoded. */
  lemma EncodableIff(f: WireFrame)
    ensures Marshal(f).Ok? <==> 1 <= f.kind <= 6 && |f.payload| <= 131072
    ensures Marshal(f) == Err(InvalidKind) <==> !(1 <= f.kind <= 6)
  {
  }

  /** The encoding byte by byte: magic, kind, identifier, the three numbers and the length with their most
      significant byte first, and the payload. */
  lemma WireBytes(f: WireFrame)
    requires Marshal(f).Ok?
    ensures var d := Marshal(f).value;
            && |d| == 49 + |f.payload| && d[..4] == [84, 84, 83, 1] && d[4] == f.kind
            && d[5..21] == f.id && d[49..] == f.payload
            && BigEndian(d[21..29], f.epoch) && BigEndian(d[29..37], f.offset)
            && BigEndian(d[37..45], f.window) && BigEndian(d[45..49], |f.payload|)
  {
    Layout(f);
    PutsBigEndian(f.epoch, 8);
    PutsBigEndian(f.offset, 8);
    PutsBigEndian(f.window, 8);
    PutsBigEndian(|f.payload|, 4);
  }

  /** The fields of an encoded frame stand where decoding looks for them. */
  lemma Layout(f: WireFrame)
    requires Marshal(f).Ok?
    ensures var d := Marshal(f).value;
            && |d| == HEADER_SIZE + |f.payload| && d[..4] == MAGIC && d[4] == f.kind && d[5..21] == f.id
            && d[21..29] == PutBigEndian(f.epoch, 8) && d[29..37] == PutBigEndian(f.offset, 8)
            && d[37..45] == PutBigEndian(f.window, 8) && d[45..49] == PutBigEndian(|f.payload|, 4)
            && d[49..] == f.payload
  {
  }

  /** Decoding an encoded frame gives the frame back. */
  lemma DecodeEncode(f: WireFrame)
    requires Marshal(f).Ok?
    ensures Unmarshal(Marshal(f).value) == Ok(f)
  {
    Layout(f);
    Widths();
    GetPut(f.epoch, 8);
    GetPut(f.offset, 8);
    GetPut(f.window, 8);
    GetPut(|f.payload|, 4);
  }

  /** Every byte string that decodes is the encoding of what it decodes to. */
  lemma EncodeDecode(data: seq<Byte>)
    requires Unmarshal(data).Ok?
    ensures Marshal(Unmarshal(data).value) == Ok(data)
  {
    PutGet(data[21..29]);
    PutGet(data[29..37]);
    PutGet(data[37..45]);
    PutGet(data[45..49]);
    assert data == data[..4] + [data[4]] + data[5..21] + data[21..29] + data[29..37]
                   + data[37..45] + data[45..49] + data[49..];
  }

  /** Together: a byte string decodes exactly when some frame encodes to it, and to no other. */
  lemma DecodesIffEncoded(data: seq<Byte>, f: WireFrame)
    ensures Unmarshal(data) == Ok(f) <==> Marshal(f) == Ok(data)
  {
    if Unmarshal(data) == Ok(f) { EncodeDecode(data); }
    if Marshal(f) == Ok(data) { DecodeEncode(f); }
  }
}
