/** Variable-length integers and the two frames that carry a limit (RFC 9000, sections 16, 19.9, 19.10). */
module QuicVarint {
  import opened Basics
  import opened QuicWire

  const MAX_VARINT: nat := 0x3FFF_FFFF_FFFF_FFFF

  predicate IsSize(n: nat) {
    n == 1 || n == 2 || n == 4 || n == 8
  }

  /** The first value that does not fit in `n` bytes beside the two length bits. */
  function Capacity(n: nat): nat {
    if n <= 1 then 64 else 256 * Capacity(n - 1)
  }

  function VarintSize(value: nat): (n: nat)
    ensures IsSize(n)
  {
    if value < 0x40 then 1
    else if value < 0x4000 then 2
    else if value < 0x4000_0000 then 4
    else 8
  }

  /** The size is the shortest of the four that holds the value. */
  lemma ShortestSize(value: nat, n: nat)
    requires value <= MAX_VARINT && IsSize(n)
    ensures value < Capacity(n) <==> VarintSize(value) <= n
  {
    CapacityValues();
  }

  lemma CapacityValues()
    ensures Capacity(1) == 0x40 && Capacity(2) == 0x4000 && Capacity(4) == 0x4000_0000
    ensures Capacity(8) == MAX_VARINT + 1
  {
    assert Capacity(3) == 0x40_0000;
    assert Capacity(5) == 0x40_0000_0000;
    assert Capacity(6) == 0x4000_0000_0000;
    assert Capacity(7) == 0x40_0000_0000_0000;
  }

  function BigEndian(value: nat, n: nat): (s: seq<byte>)
    ensures |s| == n
  {
    if n == 0 then [] else BigEndian(value / 256, n - 1) + [value % 256]
  }

  function Prefix(n: nat): (p: nat)
    ensures p < 4
  {
    if n == 1 then 0 else if n == 2 then 1 else if n == 4 then 2 else 3
  }

  /** `b | (p << 6)` on a byte: the low six bits stay, the high two are combined. */
  function SetPrefix(b: byte, p: nat): byte
    requires p < 4
  {
    var high := b / 64;
    var bit1 := if high / 2 == 1 || p / 2 == 1 then 2 else 0;
    var bit0 := if high % 2 == 1 || p % 2 == 1 then 1 else 0;
    b % 64 + 64 * (bit1 + bit0)
  }

  /** The bytes written for a value in `n` bytes. */
  function Varint(value: nat, n: nat): (s: seq<byte>)
    requires IsSize(n)
    ensures |s| == n
  {
    var s := BigEndian(value, n);
    s[0 := SetPrefix(s[0], Prefix(n))]
  }

  /** The length bits are those of the standard, and the six bits beside them stay. */
  lemma PrefixSays(b: byte, n: nat)
    requires b < 64 && IsSize(n)
    ensures Pow(2, SetPrefix(b, Prefix(n)) / 64) == n && SetPrefix(b, Prefix(n)) % 64 == b
  {
    PowTwo();
  }

  lemma {:induction false} BigEndianWeighted(value: nat, n: nat)
    requires 0 < n && value < Capacity(n)
    ensures BigEndian(value, n)[0] < 64
    ensures Weighted(BigEndian(value, n), n) == value
    decreases n
  {
    if n == 1 {
      assert BigEndian(value / 256, 0) == [];
      assert BigEndian(value, 1) == [] + [value];
      WeightedLast([], value);
    } else {
      BigEndianWeighted(value / 256, n - 1);
      WeightedLast(BigEndian(value / 256, n - 1), value % 256);
    }
  }

  /** What is written for a value that fits is that value's varint as the standard has it. */
  lemma VarintWritten(value: nat, n: nat)
    requires IsSize(n) && value < Capacity(n)
    ensures IsVarint(Varint(value, n), value)
  {
    var s := BigEndian(value, n);
    BigEndianWeighted(value, n);
    PrefixSays(s[0], n);
    assert Unmarked(Varint(value, n)) == s;
  }

  lemma BigEndianNext(rest: nat, i: nat, tail: seq<byte>)
    ensures BigEndian(rest, i + 1) + tail == BigEndian(rest / 256, i) + ([rest % 256] + tail)
  {
  }

  method WriteVarint(buf: array<byte>, off: nat, value: nat, size: nat)
    requires IsSize(size) && off + size <= buf.Length
    modifies buf
    ensures buf[off..off + size] == Varint(value, size)
    ensures value < Capacity(size) ==> IsVarint(buf[off..off + size], value)
    ensures buf[..off] == old(buf[..off]) && buf[off + size..] == old(buf[off + size..])
  {
    var rest := value;
    var i := size;
    while i > 0
      invariant 0 <= i <= size
      invariant BigEndian(rest, i) + buf[off + i..off + size] == BigEndian(value, size)
      invariant buf[..off] == old(buf[..off]) && buf[off + size..] == old(buf[off + size..])
    {
      ghost var tail := buf[off + i..off + size];
      i := i - 1;
      buf[off + i] := rest % 256;
      assert buf[off + i..off + size] == [rest % 256] + tail;
      BigEndianNext(rest, i, tail);
      rest := rest / 256;
    }
    assert buf[off..off + size] == BigEndian(value, size);
    buf[off] := SetPrefix(buf[off], Prefix(size));
    assert buf[off..off + size] == Varint(value, size);
    if value < Capacity(size) { VarintWritten(value, size); }
  }

  function FromBytes(v: nat, s: seq<byte>): nat
    decreases |s|
  {
    if s == [] then v else FromBytes(256 * v + s[0], s[1..])
  }

  function Min(a: int, b: int): int {
    if a < b then a else b
  }

  /** One shifted to the left by the two length bits. */
  function EncodedSize(b: byte): (n: nat)
    ensures IsSize(n)
  {
    if b / 64 == 0 then 1 else if b / 64 == 1 then 2 else if b / 64 == 2 then 4 else 8
  }

  /** The value and the offset after it; a buffer that ends early gives fewer bytes, not an error. */
  function DecodeVarint(buf: seq<byte>, off: nat): Option<(nat, nat)> {
    if off >= |buf| then None
    else
      var n := EncodedSize(buf[off]);
      Some((FromBytes(buf[off] % 64, buf[off + 1..Min(off + n, |buf|)]), off + n))
  }

  lemma EncodedSizeSays(b: byte)
    ensures EncodedSize(b) == Pow(2, b / 64)
  {
    PowTwo();
  }

  lemma {:induction false} FromBytesSnoc(v: nat, s: seq<byte>, b: byte)
    ensures FromBytes(v, s + [b]) == 256 * FromBytes(v, s) + b
    decreases |s|
  {
    if s == [] {
      assert (s + [b])[1..] == [];
    } else {
      assert (s + [b])[1..] == s[1..] + [b];
      FromBytesSnoc(256 * v + s[0], s[1..], b);
    }
  }

  lemma {:induction false} FromBytesWeighted(s: seq<byte>)
    ensures FromBytes(0, s) == Weighted(s, |s|)
    decreases |s|
  {
    if s != [] {
      var n := |s| - 1;
      assert s == s[..n] + [s[n]];
      FromBytesWeighted(s[..n]);
      FromBytesSnoc(0, s[..n], s[n]);
      WeightedLast(s[..n], s[n]);
    }
  }

  /** The bytes there are of the varint at `off`. */
  function BytesAt(buf: seq<byte>, off: nat): (s: seq<byte>)
    requires off < |buf|
    ensures s != []
  {
    EncodedSizeSays(buf[off]);
    buf[off..Min(off + Pow(2, buf[off] / 64), |buf|)]
  }

  /** What is read: as many bytes as the first one says, or as there are, by their weights. */
  lemma DecodeSays(buf: seq<byte>, off: nat)
    requires off < |buf|
    ensures var s := BytesAt(buf, off);
            DecodeVarint(buf, off) == Some((Weighted(Unmarked(s), |s|), off + Pow(2, buf[off] / 64)))
  {
    var s := BytesAt(buf, off);
    EncodedSizeSays(buf[off]);
    FromBytesWeighted(Unmarked(s));
    assert Unmarked(s)[1..] == s[1..] == buf[off + 1..off + |s|];
    assert FromBytes(0, Unmarked(s)) == FromBytes(s[0] % 64, s[1..]);
  }

  method ParseVarint(buf: seq<byte>, off: nat) returns (r: Option<(nat, nat)>)
    ensures r == DecodeVarint(buf, off)
    ensures r.None? <==> off >= |buf|
    ensures off < |buf| ==>
              var s := BytesAt(buf, off);
              r == Some((Weighted(Unmarked(s), |s|), off + Pow(2, buf[off] / 64)))
  {
    if off >= |buf| {
      return None;
    }
    var n := EncodedSize(buf[off]);
    var v: nat := buf[off] % 64;
    var i := off + 1;
    var end := Min(off + n, |buf|);
    while i < end
      invariant off + 1 <= i <= end
      invariant FromBytes(v, buf[i..end]) == FromBytes(buf[off] % 64, buf[off + 1..end])
    {
      assert buf[i..end][1..] == buf[i + 1..end];
      v := 256 * v + buf[i];
      i := i + 1;
    }
    DecodeSays(buf, off);
    return Some((v, off + n));
  }

  /** A varint of the standard is read back wherever it stands. */
  lemma VarintRead(before: seq<byte>, s: seq<byte>, value: nat, after: seq<byte>)
    requires IsVarint(s, value)
    ensures DecodeVarint(before + s + after, |before|) == Some((value, |before| + |s|))
  {
    var buf := before + s + after;
    DecodeSays(buf, |before|);
    assert buf[|before|] == s[0];
    assert BytesAt(buf, |before|) == s;
  }

  lemma ShortestWritten(value: nat)
    requires value <= MAX_VARINT
    ensures IsVarint(Varint(value, VarintSize(value)), value)
  {
    ShortestSize(value, VarintSize(value));
    VarintWritten(value, VarintSize(value));
  }

  /** Reading a value where it was written gives it back, with the offset after it. */
  lemma VarintRoundTrip(before: seq<byte>, value: nat, after: seq<byte>)
    requires value <= MAX_VARINT
    ensures var n := VarintSize(value);
            DecodeVarint(before + Varint(value, n) + after, |before|) == Some((value, |before| + n))
  {
    ShortestWritten(value);
    VarintRead(before, Varint(value, VarintSize(value)), value, after);
  }

  const MAX_DATA: byte := 0x10
  const MAX_STREAM_DATA: byte := 0x11

  function Encode(f: Frame): seq<byte> {
    match f
    case MaxData(limit) => [MAX_DATA] + Varint(limit, VarintSize(limit))
    case MaxStreamData(id, limit) =>
      [MAX_STREAM_DATA] + Varint(id, VarintSize(id)) + Varint(limit, VarintSize(limit))
  }

  method WriteMaxData(buf: array<byte>, limit: nat) returns (written: nat)
    requires |Encode(MaxData(limit))| <= buf.Length
    modifies buf
    ensures written == |Encode(MaxData(limit))|
    ensures buf[..written] == Encode(MaxData(limit))
    ensures buf[written..] == old(buf[written..])
  {
    var size := VarintSize(limit);
    written := 1 + size;
    buf[0] := MAX_DATA;
    ghost var after := buf[written..];
    WriteVarint(buf, 1, limit, size);
    assert buf[..written] == buf[..1] + buf[1..written];
    assert buf[written..] == after == old(buf[written..]);
  }

  method WriteMaxStreamData(buf: array<byte>, id: nat, limit: nat) returns (written: nat)
    requires |Encode(MaxStreamData(id, limit))| <= buf.Length
    modifies buf
    ensures written == |Encode(MaxStreamData(id, limit))|
    ensures buf[..written] == Encode(MaxStreamData(id, limit))
    ensures buf[written..] == old(buf[written..])
  {
    var idSize := VarintSize(id);
    var valueSize := VarintSize(limit);
    written := 1 + idSize + valueSize;
    buf[0] := MAX_STREAM_DATA;
    ghost var after := buf[1 + idSize..];
    assert after[valueSize..] == old(buf[written..]);
    WriteVarint(buf, 1, id, idSize);
    assert buf[1 + idSize..] == after;
    ghost var head := buf[..1 + idSize];
    assert head == [MAX_STREAM_DATA] + Varint(id, idSize);
    WriteVarint(buf, 1 + idSize, limit, valueSize);
    assert buf[..written] == head + buf[1 + idSize..written];
    assert buf[written..] == after[valueSize..];
  }

  /** What a peer reads from the first bytes of a buffer, and where the frame ends. */
  function Decode(buf: seq<byte>): Option<(Frame, nat)> {
    if buf == [] then None
    else if buf[0] == MAX_DATA then
      match DecodeVarint(buf, 1)
      case None => None
      case Some((limit, next)) => Some((MaxData(limit), next))
    else if buf[0] == MAX_STREAM_DATA then
      match DecodeVarint(buf, 1)
      case None => None
      case Some((id, next)) =>
        match DecodeVarint(buf, next)
        case None => None
        case Some((limit, end)) => Some((MaxStreamData(id, limit), end))
    else None
  }

  predicate InRange(f: Frame) {
    f.limit <= MAX_VARINT && (f.MaxStreamData? ==> f.id <= MAX_VARINT)
  }

  /** An encoded frame is that frame as the standard has it. */
  lemma FrameWritten(f: Frame)
    requires InRange(f)
    ensures IsFrame(Encode(f), f)
  {
    var last := Varint(f.limit, VarintSize(f.limit));
    ShortestWritten(f.limit);
    if f.MaxData? {
      assert Encode(f)[1..] == last;
    } else {
      var first := Varint(f.id, VarintSize(f.id));
      ShortestWritten(f.id);
      var n := 1 + |first|;
      assert Encode(f)[1..n] == first && Encode(f)[n..] == last;
    }
  }

  lemma DecodeStream(buf: seq<byte>, id: nat, next: nat, limit: nat, end: nat)
    requires buf != [] && buf[0] == MAX_STREAM_DATA
    requires DecodeVarint(buf, 1) == Some((id, next)) && DecodeVarint(buf, next) == Some((limit, end))
    ensures Decode(buf) == Some((MaxStreamData(id, limit), end))
  {
  }

  lemma StreamFrameRead(s: seq<byte>, n: nat, id: nat, limit: nat, after: seq<byte>)
    requires s != [] && s[0] == 0x11 && 1 <= n <= |s| && IsVarint(s[1..n], id) && IsVarint(s[n..], limit)
    ensures Decode(s + after) == Some((MaxStreamData(id, limit), |s|))
  {
    var buf := s + after;
    VarintRead(s[..1], s[1..n], id, s[n..] + after);
    assert s[..1] + s[1..n] + (s[n..] + after) == buf;
    VarintRead(s[..n], s[n..], limit, after);
    assert s[..n] + s[n..] + after == buf;
    DecodeStream(buf, id, n, limit, |s|);
  }

  /** A frame of the standard is read back, whatever follows it. */
  lemma FrameRead(s: seq<byte>, f: Frame, after: seq<byte>)
    requires IsFrame(s, f)
    ensures Decode(s + after) == Some((f, |s|))
  {
    match f
    case MaxData(limit) =>
      VarintRead(s[..1], s[1..], limit, after);
      assert s[..1] + s[1..] + after == s + after;
    case MaxStreamData(id, limit) =>
      var n :| 1 <= n <= |s| && IsVarint(s[1..n], id) && IsVarint(s[n..], limit);
      StreamFrameRead(s, n, id, limit, after);
  }

  /** An encoded frame decodes to itself in exactly its own bytes, whatever follows it. */
  lemma FrameRoundTrip(f: Frame, after: seq<byte>)
    requires InRange(f)
    ensures Decode(Encode(f) + after) == Some((f, |Encode(f)|))
  {
    FrameWritten(f);
    FrameRead(Encode(f), f, after);
  }
}
