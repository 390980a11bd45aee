/**
  The search for a delimiter that restarts, without a failure table, at the byte that
  broke a match: when it finds the first occurrence.
 */
module MultipartSearch {
  import opened Basics
  import opened MultipartMachine

  ghost predicate OccursAt(d: seq<byte>, w: seq<byte>, k: nat) {
    k + |d| <= |w| && w[k..k + |d|] == d
  }

  ghost predicate IsFirst(d: seq<byte>, w: seq<byte>, k: nat) {
    OccursAt(d, w, k) && forall j: nat :: j < k ==> !OccursAt(d, w, j)
  }

  ghost predicate Absent(d: seq<byte>, w: seq<byte>) {
    forall j: nat :: !OccursAt(d, w, j)
  }

  /** How many bytes are held back after `c`, when `h` bytes of `d` were held back before. */
  function NextHeld(d: seq<byte>, h: nat, c: byte): nat
    requires h < |d|
  {
    if c == d[h] then h + 1 else if c == d[0] then 1 else 0
  }

  datatype Scanned = Found(rest: seq<byte>) | Partial(held: nat)

  function Scan(d: seq<byte>, h: nat, w: seq<byte>): Scanned
    requires h < |d|
    decreases |w|
  {
    if w == [] then Partial(h)
    else
      var h' := NextHeld(d, h, w[0]);
      if h' == |d| then Found(w[1..]) else Scan(d, h', w[1..])
  }

  /** Every later occurrence of the head byte of `d` inside `d` begins a border of `d`. */
  ghost predicate Restartable(d: seq<byte>) {
    forall m: nat :: 0 < m < |d| && d[m] == d[0] ==> d[m..] <= d
  }

  lemma Unrestartable(d: seq<byte>) returns (m: nat)
    requires !Restartable(d)
    ensures 0 < m < |d| && d[m] == d[0] && !(d[m..] <= d)
  {
    m :| 0 < m < |d| && d[m] == d[0] && !(d[m..] <= d);
  }

  /** The last `r` bytes of `u` are a proper prefix of `d`. */
  ghost predicate EndsAs(d: seq<byte>, u: seq<byte>, r: nat) {
    r < |d| && r <= |u| && u[|u| - r..] == d[..r]
  }

  /** `h` is the length of the longest suffix of `u` that is a proper prefix of `d`. */
  ghost predicate Longest(d: seq<byte>, u: seq<byte>, h: nat) {
    EndsAs(d, u, h) && forall r: nat :: EndsAs(d, u, r) ==> r <= h
  }

  lemma SuffixDrop(d: seq<byte>, u: seq<byte>, c: byte, r: nat)
    requires 0 < r <= |d| && r <= |u| + 1
    ensures (u + [c])[|u| + 1 - r..] == d[..r] <==> u[|u| + 1 - r..] == d[..r - 1] && c == d[r - 1]
  {
    var v := u + [c];
    assert v[|u| + 1 - r..] == u[|u| + 1 - r..] + [c];
    assert d[..r] == d[..r - 1] + [d[r - 1]];
    if v[|u| + 1 - r..] == d[..r] {
      assert u[|u| + 1 - r..] == v[|u| + 1 - r..][..r - 1] == d[..r][..r - 1] == d[..r - 1];
      assert c == v[|u| + 1 - r..][r - 1];
    }
  }

  /** After a false match nothing longer than the last byte can still match. */
  lemma NothingLost(d: seq<byte>, u: seq<byte>, h: nat, c: byte, r: nat)
    requires Restartable(d) && Longest(d, u, h) && c != d[h]
    requires 1 < r <= |d| && r <= |u| + 1
    ensures (u + [c])[|u| + 1 - r..] != d[..r]
  {
    SuffixDrop(d, u, c, r);
    var t := r - 1;
    if EndsAs(d, u, t) && t < h {
      var m := h - t;
      assert d[m..h] == d[..t] by {
        assert u[|u| - h..][m..] == u[|u| - t..];
        assert d[..h][m..] == d[m..h];
      }
      assert d[m] == d[m..h][0] == d[0];
      assert d[h] == d[m..][t] == d[t];
    }
  }

  lemma LongestBound(d: seq<byte>, u: seq<byte>, h: nat, c: byte, r: nat)
    requires Restartable(d) && Longest(d, u, h) && EndsAs(d, u + [c], r)
    ensures r <= NextHeld(d, h, c)
  {
    if r > 0 {
      SuffixDrop(d, u, c, r);
      assert EndsAs(d, u, r - 1);
      if c != d[h] && r > 1 { NothingLost(d, u, h, c, r); }
    }
  }

  lemma HeldEnds(d: seq<byte>, u: seq<byte>, h: nat, c: byte)
    requires EndsAs(d, u, h) && NextHeld(d, h, c) < |d|
    ensures EndsAs(d, u + [c], NextHeld(d, h, c))
  {
    var h' := NextHeld(d, h, c);
    if h' > 0 { SuffixDrop(d, u, c, h'); }
  }

  lemma LongestStep(d: seq<byte>, u: seq<byte>, h: nat, c: byte)
    requires Restartable(d) && Longest(d, u, h) && NextHeld(d, h, c) < |d|
    ensures Longest(d, u + [c], NextHeld(d, h, c))
  {
    HeldEnds(d, u, h, c);
    forall r: nat | EndsAs(d, u + [c], r)
      ensures r <= NextHeld(d, h, c)
    {
      LongestBound(d, u, h, c, r);
    }
  }

  lemma OccursShift(d: seq<byte>, u: seq<byte>, w: seq<byte>, k: nat)
    requires k + |d| <= |u|
    ensures OccursAt(d, u + w, k) <==> OccursAt(d, u, k)
  {
    assert (u + w)[k..k + |d|] == u[k..k + |d|];
  }

  /** A new occurrence ends with the new byte and completes a match of all but one byte. */
  lemma NewOccurrence(d: seq<byte>, u: seq<byte>, h: nat, c: byte, j: nat)
    requires Longest(d, u, h) && Absent(d, u) && OccursAt(d, u + [c], j)
    ensures j + |d| == |u| + 1 && NextHeld(d, h, c) == |d|
  {
    var v := u + [c];
    if j + |d| <= |u| { OccursShift(d, u, [c], j); }
    assert v[j..j + |d|] == v[|v| - |d|..] && d[..|d|] == d;
    SuffixDrop(d, u, c, |d|);
    assert EndsAs(d, u, |d| - 1);
  }

  lemma Completes(d: seq<byte>, u: seq<byte>, h: nat, c: byte)
    requires EndsAs(d, u, h) && c == d[h] && h + 1 == |d|
    ensures |d| <= |u| + 1 && OccursAt(d, u + [c], |u| + 1 - |d|)
  {
    var v := u + [c];
    SuffixDrop(d, u, c, |d|);
    assert v[|v| - |d|..] == d[..|d|] == d;
    assert v[|v| - |d|..] == v[|v| - |d|..|v| - |d| + |d|];
  }

  /** While nothing was found, the byte `c` completes `d` exactly if the search says so. */
  lemma AbsentStep(d: seq<byte>, u: seq<byte>, h: nat, c: byte)
    requires Longest(d, u, h) && Absent(d, u)
    ensures NextHeld(d, h, c) < |d| ==> Absent(d, u + [c])
    ensures NextHeld(d, h, c) == |d| ==> |d| <= |u| + 1 && IsFirst(d, u + [c], |u| + 1 - |d|)
  {
    forall j: nat | OccursAt(d, u + [c], j)
      ensures j + |d| == |u| + 1 && NextHeld(d, h, c) == |d|
    {
      NewOccurrence(d, u, h, c, j);
    }
    if c == d[h] && h + 1 == |d| { Completes(d, u, h, c); }
  }

  lemma FirstExtends(d: seq<byte>, u: seq<byte>, w: seq<byte>, k: nat)
    requires IsFirst(d, u, k)
    ensures IsFirst(d, u + w, k)
  {
    OccursShift(d, u, w, k);
    forall j: nat | j < k
      ensures !OccursAt(d, u + w, j)
    {
      OccursShift(d, u, w, j);
    }
  }

  /** `r` is what a search of `u + w` that has read `u` must say about `w`. */
  ghost predicate Located(d: seq<byte>, u: seq<byte>, w: seq<byte>, r: Scanned) {
    match r
    case Found(rest) =>
      && |rest| <= |w| && rest == w[|w| - |rest|..]
      && |rest| + |d| <= |u| + |w| && IsFirst(d, u + w, |u| + |w| - |rest| - |d|)
    case Partial(h) => Absent(d, u + w) && Longest(d, u + w, h)
  }

  lemma LocatedShift(d: seq<byte>, u: seq<byte>, w: seq<byte>, r: Scanned)
    requires w != [] && Located(d, u + [w[0]], w[1..], r)
    ensures Located(d, u, w, r)
  {
    assert u + [w[0]] + w[1..] == u + w;
    if r.Found? {
      assert w[1..][|w| - 1 - |r.rest|..] == w[|w| - |r.rest|..];
    }
  }

  lemma {:induction false} ScanFrom(d: seq<byte>, u: seq<byte>, h: nat, w: seq<byte>)
    requires Restartable(d) && Longest(d, u, h) && Absent(d, u)
    ensures Located(d, u, w, Scan(d, h, w))
    decreases |w|
  {
    if w == [] {
      assert u + w == u;
    } else {
      var v := u + [w[0]];
      AbsentStep(d, u, h, w[0]);
      if NextHeld(d, h, w[0]) == |d| {
        FirstExtends(d, v, w[1..], |v| - |d|);
        assert Located(d, v, w[1..], Found(w[1..]));
        LocatedShift(d, u, w, Found(w[1..]));
      } else {
        LongestStep(d, u, h, w[0]);
        ScanFrom(d, v, NextHeld(d, h, w[0]), w[1..]);
        LocatedShift(d, u, w, Scan(d, h, w));
      }
    }
  }

  /** The search stops at the first occurrence of `d` in `w`, and only there. */
  ghost predicate FindsFirst(d: seq<byte>, w: seq<byte>)
    requires d != []
  {
    && (forall k: nat :: IsFirst(d, w, k) ==> Scan(d, 0, w) == Found(w[k + |d|..]))
    && (Absent(d, w) ==> Scan(d, 0, w).Partial?)
  }

  lemma RestartableFinds(d: seq<byte>, w: seq<byte>)
    requires d != [] && Restartable(d)
    ensures FindsFirst(d, w)
  {
    ScanFrom(d, [], 0, w);
    assert [] + w == w;
    if Scan(d, 0, w).Found? {
      var k := |w| - |Scan(d, 0, w).rest| - |d|;
      forall j: nat | IsFirst(d, w, j)
        ensures j == k
      {
        FirstIsUnique(d, w, j, k);
      }
    }
  }

  lemma FirstIsUnique(d: seq<byte>, w: seq<byte>, j: nat, k: nat)
    requires IsFirst(d, w, j) && IsFirst(d, w, k)
    ensures j == k
  {
  }

  lemma {:induction false} ScanTooShort(d: seq<byte>, h: nat, w: seq<byte>)
    requires h + |w| < |d|
    ensures Scan(d, h, w).Partial?
    decreases |w|
  {
    if w != [] {
      ScanTooShort(d, NextHeld(d, h, w[0]), w[1..]);
    }
  }

  lemma {:induction false} ScanMatches(d: seq<byte>, h: nat, n: nat, w: seq<byte>)
    requires h + n < |d|
    ensures Scan(d, h, d[h..h + n] + w) == Scan(d, h + n, w)
    decreases n
  {
    var v := d[h..h + n] + w;
    if n == 0 {
      assert v == w;
    } else {
      assert v[0] == d[h] && v[1..] == d[h + 1..h + n] + w;
      ScanMatches(d, h + 1, n - 1, w);
    }
  }

  lemma {:induction false} FirstDifference(v: seq<byte>, w: seq<byte>) returns (j: nat)
    requires |v| <= |w| && !(v <= w)
    ensures j < |v| && v[j] != w[j] && v[..j] == w[..j]
  {
    if v[0] != w[0] {
      j := 0;
    } else {
      assert v == [v[0]] + v[1..] && w == [w[0]] + w[1..];
      j := FirstDifference(v[1..], w[1..]);
      assert v[..j + 1] == [v[0]] + v[1..][..j] == w[..j + 1];
      j := j + 1;
    }
  }

  lemma MissesFrom(d: seq<byte>, m: nat, j: nat)
    requires 0 < m && 0 < j && m + j < |d| && d[m..][..j] == d[..j] && d[m + j] != d[j]
    ensures Scan(d, 0, d[..m] + d).Partial?
  {
    Overlap(d, m, j);
    var n, rest := m + j, d[j..];
    assert d[..n] == d[0..0 + n];
    ScanMatches(d, 0, n, rest);
    MissesRest(d, n, j);
  }

  /** A head byte inside `d` that begins no border lets an occurrence go by unseen. */
  lemma MissesOne(d: seq<byte>, m: nat)
    requires 0 < m < |d| && d[m] == d[0] && !(d[m..] <= d)
    ensures OccursAt(d, d[..m] + d, m)
    ensures Scan(d, 0, d[..m] + d).Partial?
  {
    assert (d[..m] + d)[m..m + |d|] == d;
    var j := FirstDifference(d[m..], d);
    MissesFrom(d, m, j);
  }

  lemma Overlap(d: seq<byte>, m: nat, j: nat)
    requires m + j < |d| && d[m..][..j] == d[..j]
    ensures d[..m] + d == d[..m + j] + d[j..]
  {
    assert d[m..][..j] == d[m..m + j];
    assert d == d[..j] + d[j..];
    assert d[..m] + d[m..m + j] == d[..m + j];
  }

  lemma MissesRest(d: seq<byte>, h: nat, j: nat)
    requires 0 < j < h < |d| && d[h] != d[j]
    ensures Scan(d, h, d[j..]).Partial?
  {
    assert d[j..][1..] == d[j + 1..];
    ScanTooShort(d, NextHeld(d, h, d[j]), d[j + 1..]);
  }

  /**
    Restarting without a failure table finds the first delimiter in every input if and
    only if each later head byte of the delimiter begins a border of it.
   */
  lemma RestartExact(d: seq<byte>)
    requires d != []
    ensures Restartable(d) <==> forall w: seq<byte> :: FindsFirst(d, w)
  {
    if Restartable(d) {
      forall w: seq<byte>
        ensures FindsFirst(d, w)
      {
        RestartableFinds(d, w);
      }
    } else {
      var m := Unrestartable(d);
      var w := d[..m] + d;
      MissesOne(d, m);
      var k := FirstOccurrence(d, w, m);
      assert !FindsFirst(d, w);
    }
  }

  lemma {:induction false} FirstOccurrence(d: seq<byte>, w: seq<byte>, n: nat) returns (k: nat)
    requires OccursAt(d, w, n)
    ensures k <= n && IsFirst(d, w, k)
  {
    k := 0;
    while !OccursAt(d, w, k)
      invariant k <= n && forall j: nat :: j < k ==> !OccursAt(d, w, j)
      decreases n - k
    {
      k := k + 1;
    }
  }

  /** A delimiter whose head byte does not recur, as RFC 2046 demands, is restartable. */
  lemma CrFreeRestartable(boundary: seq<byte>)
    requires CR !in boundary
    ensures Restartable(CRLF + boundary)
  {
    var d := CRLF + boundary;
    forall m: nat | 0 < m < |d|
      ensures d[m] != d[0]
    {
      if m >= 2 { assert d[m] == boundary[m - 2]; }
    }
  }

  lemma {:induction false} ScanPrefix(d: seq<byte>, h: nat, v: seq<byte>, w: seq<byte>)
    requires h < |d| && Scan(d, h, v + w).Partial?
    ensures Scan(d, h, v).Partial?
    decreases |v|
  {
    if v != [] {
      assert (v + w)[1..] == v[1..] + w;
      ScanPrefix(d, NextHeld(d, h, v[0]), v[1..], w);
    }
  }

  lemma FirstCut(d: seq<byte>, w: seq<byte>, k: nat)
    requires IsFirst(d, w, k)
    ensures IsFirst(d, w[..k + |d|], k)
  {
    var v := w[..k + |d|];
    assert w == v + w[k + |d|..];
    forall j: nat | j <= k
      ensures OccursAt(d, v, j) <==> OccursAt(d, w, j)
    {
      OccursShift(d, v, w[k + |d|..], j);
    }
  }
}
