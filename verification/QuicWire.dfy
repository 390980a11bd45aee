/**
  The wire format as the standard words it: variable-length integers (section 16 of
  RFC 9000) and the two frames that carry a limit (sections 19.9 and 19.10). Nothing here
  refers to the code that writes or reads them.
 */
module QuicWire {
  import opened Basics

  function Pow(b: nat, n: nat): nat {
    if n == 0 then 1 else b * Pow(b, n - 1)
  }

  /** The first `n` bytes, each times 256 to the power of the number of bytes after it. */
  function Weighted(s: seq<byte>, n: nat): nat
    requires n <= |s|
  {
    if n == 0 then 0 else Weighted(s, n - 1) + s[n - 1] * Pow(256, |s| - n)
  }

  /** The bytes without the two bits that say their number. */
  function Unmarked(s: seq<byte>): (t: seq<byte>)
    requires s != []
    ensures |t| == |s|
  {
    [s[0] % 64] + s[1..]
  }

  /** The two high bits of the first byte are the logarithm of the length; the rest is the value, big-endian. */
  predicate IsVarint(s: seq<byte>, value: nat) {
    s != [] && |s| == Pow(2, s[0] / 64) && value == Weighted(Unmarked(s), |s|)
  }

  datatype Frame = MaxData(limit: nat) | MaxStreamData(id: nat, limit: nat)

  predicate IsFrame(s: seq<byte>, f: Frame) {
    match f
    case MaxData(limit) => s != [] && s[0] == 0x10 && IsVarint(s[1..], limit)
    case MaxStreamData(id, limit) =>
      s != [] && s[0] == 0x11 && exists n :: 1 <= n <= |s| && IsVarint(s[1..n], id) && IsVarint(s[n..], limit)
  }

  lemma PowTwo()
    ensures Pow(2, 0) == 1 && Pow(2, 1) == 2 && Pow(2, 2) == 4 && Pow(2, 3) == 8
  {
    assert Pow(2, 1) == 2 * Pow(2, 0);
    assert Pow(2, 2) == 2 * Pow(2, 1);
  }

  lemma MulShift(x: nat, p: nat)
    ensures x * (256 * p) == 256 * (x * p)
  {
  }

  /** One byte more at the end makes every earlier byte worth 256 times as much. */
  lemma {:induction false} WeightedSnoc(s: seq<byte>, b: byte, n: nat)
    requires n <= |s|
    ensures Weighted(s + [b], n) == 256 * Weighted(s, n)
  {
    if n > 0 {
      WeightedSnoc(s, b, n - 1);
      MulShift(s[n - 1], Pow(256, |s| - n));
      assert (s + [b])[n - 1] == s[n - 1];
    }
  }

  lemma WeightedLast(s: seq<byte>, b: byte)
    ensures Weighted(s + [b], |s| + 1) == 256 * Weighted(s, |s|) + b
  {
    WeightedSnoc(s, b, |s|);
    assert (s + [b])[|s|] == b && Pow(256, 0) == 1;
  }
}
