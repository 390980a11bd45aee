/** Part data: the machine delivers exactly the bytes up to the first delimiter. */
module MultipartData {
  import opened Basics
  import opened MultipartMachine
  import opened MultipartBuffered
  import opened MultipartSearch

  function Delimiter(boundary: seq<byte>): seq<byte> {
    CRLF + boundary
  }

  /** The machine is inside part data and holds back `h` bytes. */
  predicate Holds(boundary: seq<byte>, m: Machine, h: nat) {
    if h == 0 then m.state == PartData
    else if h == 1 then m.state == PartDataAlmostBoundary
    else m.state == PartDataBoundary && m.index == h - 2 < |boundary|
  }

  lemma HoldsIsHeld(boundary: seq<byte>, m: Machine, h: nat)
    requires Holds(boundary, m, h)
    ensures h < |Delimiter(boundary)| || h <= 1
    ensures h <= |Delimiter(boundary)| && Held(boundary, m.state, m.index) == Delimiter(boundary)[..h]
  {
  }

  /**
    `a` has been read since the data began: what was delivered, followed by the `h` bytes
    that are held back. `l` is the log from before the data.
   */
  ghost predicate Accounted(boundary: seq<byte>, m: Machine, l: Log, a: seq<byte>, h: nat) {
    && Holds(boundary, m, h) && h <= |a| && h < |Delimiter(boundary)|
    && a[|a| - h..] == Delimiter(boundary)[..h]
    && m.log == Feed(l, Slice(Data, a[..|a| - h]))
  }

  lemma MatchStep(boundary: seq<byte>, m: Machine, l: Log, a: seq<byte>, h: nat, c: byte)
    requires Accounted(boundary, m, l, a, h) && c == Delimiter(boundary)[h]
    requires h + 1 < |Delimiter(boundary)|
    ensures var s := Step(boundary, m, c);
            s.Next? && Accounted(boundary, s.m, l, a + [c], h + 1)
  {
    var d := Delimiter(boundary);
    var s := Step(boundary, m, c);
    assert s.Next? && Holds(boundary, s.m, h + 1);
    var b := a + [c];
    assert b[|b| - (h + 1)..] == a[|a| - h..] + [c] == d[..h + 1];
    assert b[..|b| - (h + 1)] == a[..|a| - h];
    if h == 0 {
      FeedJoins(l, Data, a[..|a| - h], []);
      assert a[..|a| - h] + [] == a[..|a| - h];
    }
  }

  lemma BreakStep(boundary: seq<byte>, m: Machine, l: Log, a: seq<byte>, h: nat, c: byte)
    requires boundary != [] && Accounted(boundary, m, l, a, h) && c != Delimiter(boundary)[h]
    ensures var s := Step(boundary, m, c);
            s.Next? && Accounted(boundary, s.m, l, a + [c], if c == CR then 1 else 0)
  {
    HoldsIsHeld(boundary, m, h);
    var held := a[|a| - h..];
    assert a == a[..|a| - h] + held;
    var b := a + [c];
    FeedJoins(l, Data, a[..|a| - h], held);
    FeedJoins(l, Data, a, if c == CR then [] else [c]);
    assert a + [] == a == b[..|b| - 1];
    assert b[..|b|] == b;
    assert b[|b| - 1..] == [c];
  }

  lemma LastStep(boundary: seq<byte>, m: Machine, l: Log, a: seq<byte>, h: nat, c: byte)
    requires Accounted(boundary, m, l, a, h) && boundary != []
    requires c == Delimiter(boundary)[h] && h + 1 == |Delimiter(boundary)|
    ensures Step(boundary, m, c) ==
              Next(Machine(PartDataAlmostEnd, |boundary|, Feed(Feed(l, Slice(Data, a[..|a| - h])), PartEnd)))
  {
  }

  /** The machine once the delimiter after the data `data` has been read. */
  function PartOver(boundary: seq<byte>, l: Log, data: seq<byte>): Machine {
    Machine(PartDataAlmostEnd, |boundary|, Feed(Feed(l, Slice(Data, data)), PartEnd))
  }

  /** What the search says about `w` is what the machine does with it. */
  ghost predicate RunsAs(boundary: seq<byte>, m: Machine, l: Log, a: seq<byte>, w: seq<byte>, r: Scanned) {
    var o := RunOn(boundary, m, w);
    match r
    case Found(rest) =>
      && |rest| + |Delimiter(boundary)| <= |a| + |w|
      && o == RunOn(boundary, PartOver(boundary, l, (a + w)[..|a| + |w| - |rest| - |Delimiter(boundary)|]), rest)
    case Partial(h) => o.left == 0 && Accounted(boundary, o.m, l, a + w, h)
  }

  lemma RunsAsShift(boundary: seq<byte>, m: Machine, l: Log, a: seq<byte>, w: seq<byte>, r: Scanned)
    requires w != [] && Step(boundary, m, w[0]).Next?
    requires RunsAs(boundary, Step(boundary, m, w[0]).m, l, a + [w[0]], w[1..], r)
    ensures RunsAs(boundary, m, l, a, w, r)
  {
    assert a + [w[0]] + w[1..] == a + w;
  }

  lemma LastRuns(boundary: seq<byte>, m: Machine, l: Log, a: seq<byte>, h: nat, w: seq<byte>)
    requires boundary != [] && Accounted(boundary, m, l, a, h) && w != []
    requires NextHeld(Delimiter(boundary), h, w[0]) == |Delimiter(boundary)|
    ensures RunsAs(boundary, m, l, a, w, Found(w[1..]))
  {
    LastStep(boundary, m, l, a, h, w[0]);
    assert (a + w)[..|a| - h] == a[..|a| - h];
  }

  lemma {:induction false} DataRun(boundary: seq<byte>, m: Machine, l: Log, a: seq<byte>, h: nat, w: seq<byte>)
    requires boundary != [] && Accounted(boundary, m, l, a, h)
    ensures RunsAs(boundary, m, l, a, w, Scan(Delimiter(boundary), h, w))
    decreases |w|
  {
    var d := Delimiter(boundary);
    if w == [] {
      assert a + w == a;
    } else {
      var c := w[0];
      var h' := NextHeld(d, h, c);
      if h' == |d| {
        LastRuns(boundary, m, l, a, h, w);
      } else {
        if c == d[h] {
          MatchStep(boundary, m, l, a, h, c);
        } else {
          BreakStep(boundary, m, l, a, h, c);
        }
        DataRun(boundary, Step(boundary, m, c).m, l, a + [c], h', w[1..]);
        RunsAsShift(boundary, m, l, a, w, Scan(d, h, w));
      }
    }
  }

  /** The machine before the first data byte; the notification is due when that byte comes. */
  function Ready(index: nat, l: Log): Machine {
    Machine(PartDataStart, index, l)
  }

  lemma FirstByte(boundary: seq<byte>, index: nat, l: Log, w: seq<byte>)
    requires w != []
    ensures RunOn(boundary, Ready(index, l), w) ==
              RunOn(boundary, Machine(PartData, index, Feed(Feed(l, HeadersComplete), Slice(Data, []))), w)
  {
    var t := Feed(l, HeadersComplete);
    var v := if w[0] == CR then [] else [w[0]];
    FeedJoins(t, Data, [], v);
    assert [] + v == v;
  }

  lemma DataFromStart(boundary: seq<byte>, index: nat, l: Log, w: seq<byte>)
    requires boundary != [] && w != []
    ensures RunsAs(boundary, Ready(index, l), Feed(l, HeadersComplete), [], w, Scan(Delimiter(boundary), 0, w))
  {
    FirstByte(boundary, index, l, w);
    var t := Feed(l, HeadersComplete);
    var m := Machine(PartData, index, Feed(t, Slice(Data, [])));
    assert Accounted(boundary, m, t, [], 0);
    DataRun(boundary, m, t, [], 0, w);
  }

  /** The part's data is the input up to the first delimiter, all of it and nothing else. */
  lemma DeliversUpToFirst(boundary: seq<byte>, index: nat, l: Log, w: seq<byte>, k: nat)
    requires boundary != [] && Restartable(Delimiter(boundary)) && IsFirst(Delimiter(boundary), w, k)
    ensures RunOn(boundary, Ready(index, l), w) ==
              RunOn(boundary, PartOver(boundary, Feed(l, HeadersComplete), w[..k]), w[k + |Delimiter(boundary)|..])
  {
    var d := Delimiter(boundary);
    RestartableFinds(d, w);
    DataFromStart(boundary, index, l, w);
    assert [] + w == w;
    assert Scan(d, 0, w) == Found(w[k + |d|..]);
  }

  /**
    Without a delimiter, everything read has been delivered except a held-back suffix, the
    longest one that can still become a delimiter.
   */
  lemma DeliversAllButHeld(boundary: seq<byte>, index: nat, l: Log, w: seq<byte>) returns (h: nat)
    requires boundary != [] && w != [] && Restartable(Delimiter(boundary)) && Absent(Delimiter(boundary), w)
    ensures Longest(Delimiter(boundary), w, h)
    ensures RunOn(boundary, Ready(index, l), w).left == 0
    ensures Accounted(boundary, RunOn(boundary, Ready(index, l), w).m, Feed(l, HeadersComplete), w, h)
  {
    var d := Delimiter(boundary);
    assert [] + w == w;
    ScanFrom(d, [], 0, w);
    assert Scan(d, 0, w).Partial?;
    h := Scan(d, 0, w).held;
    DataFromStart(boundary, index, l, w);
  }
}
