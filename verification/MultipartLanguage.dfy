/**
  Which inputs the parser accepts: exactly the bodies that the text describes. And it
  refuses a byte exactly when no body goes on with it.
 */
module MultipartLanguage {
  import opened Basics
  import opened MultipartMachine
  import opened MultipartSearch
  import opened MultipartData
  import opened MultipartText
  import opened MultipartRoundTrip

  /** Everything is consumed and the body has ended. */
  predicate Accepts(boundary: seq<byte>, m: Machine, w: seq<byte>) {
    var o := RunOn(boundary, m, w);
    o.left == 0 && o.m.state == End
  }

  /** Short of the end there is a next byte, and it is taken. */
  lemma Peel(boundary: seq<byte>, m: Machine, w: seq<byte>)
    requires Accepts(boundary, m, w) && m.state != End
    ensures w != [] && Step(boundary, m, w[0]).Next? && Accepts(boundary, Step(boundary, m, w[0]).m, w[1..])
  {
  }

  /** In a name: a letter, a hyphen, a colon or a CR, and nothing else. */
  lemma NameByteAccepted(boundary: seq<byte>, m: Machine, c: byte)
    requires m.state == HeaderFieldStart || m.state == HeaderField
    ensures Step(boundary, m, c).Next? <==> c == 13 || c == 58 || c == 45 || 65 <= c <= 90 || 97 <= c <= 122
  {
  }

  // ---------------------------------------------------------------- taking an accepted input apart

  lemma {:induction false} NameOf(boundary: seq<byte>, m: Machine, w: seq<byte>)
    returns (name: seq<byte>, c: byte, rest: seq<byte>, m': Machine)
    requires (m.state == HeaderFieldStart || m.state == HeaderField) && Accepts(boundary, m, w)
    ensures w == name + [c] + rest && IsName(name) && (c == 13 || c == 58)
    ensures m'.state == (if c == 13 then HeadersAlmostDone else HeaderValueStart) && Accepts(boundary, m', rest)
    decreases |w|
  {
    Peel(boundary, m, w);
    NameByteAccepted(boundary, m, w[0]);
    m' := Step(boundary, m, w[0]).m;
    if w[0] == 13 || w[0] == 58 {
      name, c, rest := [], w[0], w[1..];
    } else {
      name, c, rest, m' := NameOf(boundary, m', w[1..]);
      assert w == [w[0]] + w[1..];
      name := [w[0]] + name;
    }
  }

  lemma {:induction false} ValueOf(boundary: seq<byte>, m: Machine, w: seq<byte>)
    returns (value: seq<byte>, rest: seq<byte>, m': Machine)
    requires m.state == HeaderValue && Accepts(boundary, m, w)
    ensures w == value + [13] + rest && forall i :: 0 <= i < |value| ==> value[i] != 13
    ensures m'.state == HeaderValueAlmostDone && Accepts(boundary, m', rest)
    decreases |w|
  {
    Peel(boundary, m, w);
    m' := Step(boundary, m, w[0]).m;
    if w[0] == 13 {
      value, rest := [], w[1..];
    } else {
      value, rest, m' := ValueOf(boundary, m', w[1..]);
      assert w == [w[0]] + w[1..];
      value := [w[0]] + value;
    }
  }

  lemma {:induction false} SpacedValueOf(boundary: seq<byte>, m: Machine, w: seq<byte>)
    returns (n: nat, value: seq<byte>, rest: seq<byte>, m': Machine)
    requires m.state == HeaderValueStart && Accepts(boundary, m, w)
    ensures w == Spaces(n) + (value + [13]) + rest && IsValue(value)
    ensures m'.state == HeaderValueAlmostDone && Accepts(boundary, m', rest)
    decreases |w|
  {
    Peel(boundary, m, w);
    m' := Step(boundary, m, w[0]).m;
    assert w == [w[0]] + w[1..];
    if w[0] == 32 {
      n, value, rest, m' := SpacedValueOf(boundary, m', w[1..]);
      assert Spaces(n + 1) == [32] + Spaces(n);
      n := n + 1;
    } else if w[0] == 13 {
      n, value, rest := 0, [], w[1..];
    } else {
      value, rest, m' := ValueOf(boundary, m', w[1..]);
      n, value := 0, [w[0]] + value;
    }
  }

  lemma LineEndOf(boundary: seq<byte>, m: Machine, w: seq<byte>) returns (rest: seq<byte>, m': Machine)
    requires m.state == HeaderValueAlmostDone || m.state == HeadersAlmostDone || m.state == PartDataEnd
    requires Accepts(boundary, m, w)
    ensures w == [10] + rest && Accepts(boundary, m', rest)
    ensures m'.state == (if m.state == HeadersAlmostDone then PartDataStart else HeaderFieldStart)
  {
    Peel(boundary, m, w);
    rest, m' := w[1..], Step(boundary, m, w[0]).m;
    assert w == [w[0]] + w[1..];
  }

  lemma HeaderOf(boundary: seq<byte>, m: Machine, name: seq<byte>, w: seq<byte>)
    returns (h: Header, rest: seq<byte>, m': Machine)
    requires m.state == HeaderValueStart && IsName(name) && Accepts(boundary, m, w)
    ensures GoodHeader(h) && name + [58] + w == WriteHeader(h) + rest && |rest| <= |w|
    ensures m'.state == HeaderFieldStart && Accepts(boundary, m', rest)
  {
    var n, value, v, m1 := SpacedValueOf(boundary, m, w);
    rest, m' := LineEndOf(boundary, m1, v);
    h := Header(name, n, value);
    assert name + [58] + w == (name + [58]) + Spaces(n) + (value + [13]) + [10] + rest;
  }

  lemma {:induction false} HeadersOf(boundary: seq<byte>, m: Machine, w: seq<byte>)
    returns (hs: seq<Header>, stray: seq<byte>, rest: seq<byte>, m': Machine)
    requires m.state == HeaderFieldStart && Accepts(boundary, m, w)
    ensures w == WriteHeaders(hs) + (stray + [13, 10]) + rest
    ensures (forall i :: 0 <= i < |hs| ==> GoodHeader(hs[i])) && IsName(stray)
    ensures m'.state == PartDataStart && Accepts(boundary, m', rest)
    decreases |w|
  {
    var name, c, v, m1 := NameOf(boundary, m, w);
    if c == 13 {
      rest, m' := LineEndOf(boundary, m1, v);
      hs, stray := [], name;
      assert w == stray + [13, 10] + rest;
    } else {
      var h, u, m2 := HeaderOf(boundary, m1, name, v);
      hs, stray, rest, m' := HeadersOf(boundary, m2, u);
      HeaderThen(h, hs, stray + [13, 10], rest);
      hs := [h] + hs;
    }
  }

  lemma HeaderThen(h: Header, hs: seq<Header>, blank: seq<byte>, rest: seq<byte>)
    ensures WriteHeader(h) + (WriteHeaders(hs) + blank + rest) == WriteHeaders([h] + hs) + blank + rest
  {
    assert ([h] + hs)[1..] == hs;
  }

  /** The search has come to nothing: the input ends inside the data. */
  lemma PartialIsNotEnd(boundary: seq<byte>, m: Machine, w: seq<byte>)
    requires boundary != [] && m.state == PartDataStart && w != [] && Scan(Delimiter(boundary), 0, w).Partial?
    ensures RunOn(boundary, m, w).m.state != End
  {
    DataFromStart(boundary, m.index, m.log, w);
    assert m == Ready(m.index, m.log);
  }

  /** Where the search ends is the first occurrence. */
  lemma FoundFirst(d: seq<byte>, w: seq<byte>) returns (k: nat)
    requires d != [] && Restartable(d) && Scan(d, 0, w).Found?
    ensures IsFirst(d, w, k)
  {
    ScanFrom(d, [], 0, w);
    assert [] + w == w;
    k := |w| - |Scan(d, 0, w).rest| - |d|;
  }

  lemma CutAtFirst(d: seq<byte>, w: seq<byte>, k: nat)
    requires IsFirst(d, w, k)
    ensures w == (w[..k] + d) + w[k + |d|..] && IsFirst(d, w[..k] + d, k)
  {
    FirstCut(d, w, k);
    assert w[k..k + |d|] == d;
    assert w[..k + |d|] == w[..k] + w[k..k + |d|];
  }

  lemma DataOf(boundary: seq<byte>, m: Machine, w: seq<byte>) returns (data: seq<byte>, rest: seq<byte>, m': Machine)
    requires boundary != [] && Restartable(Delimiter(boundary)) && m.state == PartDataStart && Accepts(boundary, m, w)
    ensures w == (data + EndOfPart(boundary)) + rest
    ensures IsFirst(EndOfPart(boundary), data + EndOfPart(boundary), |data|)
    ensures m'.state == PartDataAlmostEnd && Accepts(boundary, m', rest)
  {
    var d := Delimiter(boundary);
    DelimiterIs(boundary);
    Peel(boundary, m, w);
    if Scan(d, 0, w).Partial? { PartialIsNotEnd(boundary, m, w); }
    var k := FoundFirst(d, w);
    CutAtFirst(d, w, k);
    DeliversUpToFirst(boundary, m.index, m.log, w, k);
    assert m == Ready(m.index, m.log);
    data, rest := w[..k], w[k + |d|..];
    m' := PartOver(boundary, Feed(m.log, HeadersComplete), data);
  }

  lemma PartOf(boundary: seq<byte>, m: Machine, w: seq<byte>) returns (p: Part, rest: seq<byte>, m': Machine)
    requires boundary != [] && Restartable(Delimiter(boundary))
    requires m.state == HeaderFieldStart && Accepts(boundary, m, w)
    ensures GoodPart(boundary, p) && w == WritePart(boundary, p) + rest && |rest| < |w|
    ensures m'.state == PartDataAlmostEnd && Accepts(boundary, m', rest)
  {
    var hs, stray, v, m1 := HeadersOf(boundary, m, w);
    var data;
    data, rest, m' := DataOf(boundary, m1, v);
    p := Part(hs, stray, data);
    assert w == WriteHeaders(hs) + (stray + [13, 10]) + (data + EndOfPart(boundary)) + rest;
  }

  /** After a delimiter: two hyphens and the end, or a line end and another part. */
  lemma AfterPart(boundary: seq<byte>, m: Machine, w: seq<byte>) returns (more: bool, rest: seq<byte>, m': Machine)
    requires m.state == PartDataAlmostEnd && Accepts(boundary, m, w)
    ensures w == (if more then [13, 10] else [45, 45]) + rest
    ensures more ==> m'.state == HeaderFieldStart && Accepts(boundary, m', rest)
  {
    Peel(boundary, m, w);
    var m1, v := Step(boundary, m, w[0]).m, w[1..];
    Peel(boundary, m1, v);
    more, rest, m' := w[0] == 13, v[1..], Step(boundary, m1, v[0]).m;
    assert w == [w[0]] + v && v == [v[0]] + rest;
  }

  lemma {:induction false} PartsOf(boundary: seq<byte>, m: Machine, w: seq<byte>)
    returns (parts: seq<Part>, epilogue: seq<byte>)
    requires boundary != [] && Restartable(Delimiter(boundary))
    requires m.state == HeaderFieldStart && Accepts(boundary, m, w)
    ensures GoodParts(boundary, parts) && w == WriteParts(boundary, parts) + epilogue
    decreases |w|
  {
    var p, v, m1 := PartOf(boundary, m, w);
    var more, rest, m2 := AfterPart(boundary, m1, v);
    if more {
      parts, epilogue := PartsOf(boundary, m2, rest);
      PartThen(boundary, p, parts, epilogue);
      parts := [p] + parts;
    } else {
      parts, epilogue := [p], rest;
      LastPart(boundary, p, rest);
    }
  }

  lemma PartThen(boundary: seq<byte>, p: Part, parts: seq<Part>, epilogue: seq<byte>)
    requires parts != []
    ensures WritePart(boundary, p) + ([13, 10] + (WriteParts(boundary, parts) + epilogue))
         == WriteParts(boundary, [p] + parts) + epilogue
  {
    assert ([p] + parts)[1..] == parts;
  }

  lemma LastPart(boundary: seq<byte>, p: Part, epilogue: seq<byte>)
    ensures WritePart(boundary, p) + ([45, 45] + epilogue) == WriteParts(boundary, [p]) + epilogue
  {
  }

  lemma {:induction false} OpeningOf(boundary: seq<byte>, m: Machine, w: seq<byte>)
    returns (rest: seq<byte>, m': Machine)
    requires m.state == StartBoundary && m.index <= |boundary| + 1 && Accepts(boundary, m, w)
    ensures w == (boundary + [13, 10])[m.index..] + rest
    ensures m'.state == HeaderFieldStart && Accepts(boundary, m', rest)
    decreases |w|
  {
    Peel(boundary, m, w);
    var opening, i := boundary + [13, 10], m.index;
    m' := Step(boundary, m, w[0]).m;
    assert w[0] == opening[i] && w == [w[0]] + w[1..];
    if i == |boundary| + 1 {
      rest := w[1..];
      assert opening[i..] == [10];
    } else {
      rest, m' := OpeningOf(boundary, m', w[1..]);
      assert opening[i..] == [opening[i]] + opening[i + 1..];
    }
  }

  /** What is accepted is a body. */
  lemma AcceptedIsBody(boundary: seq<byte>, w: seq<byte>)
    requires boundary != [] && Restartable(Delimiter(boundary)) && Accepts(boundary, INITIAL, w)
    ensures IsBody(boundary, w)
  {
    Peel(boundary, INITIAL, w);
    assert Accepts(boundary, Machine(StartBoundary, 0, EMPTY_LOG), w);
    var v, m := OpeningOf(boundary, Machine(StartBoundary, 0, EMPTY_LOG), w);
    assert (boundary + [13, 10])[0..] == boundary + [13, 10];
    var parts, epilogue := PartsOf(boundary, m, v);
    assert w == Write(boundary, parts) + epilogue;
  }

  /** The parser accepts the bodies, and nothing else. */
  lemma AcceptsIff(boundary: seq<byte>, w: seq<byte>)
    requires boundary != [] && Restartable(Delimiter(boundary))
    ensures Accepts(boundary, INITIAL, w) <==> IsBody(boundary, w)
  {
    if Accepts(boundary, INITIAL, w) { AcceptedIsBody(boundary, w); }
    if IsBody(boundary, w) {
      var parts: seq<Part>, epilogue: seq<byte> :| GoodParts(boundary, parts) && w == Write(boundary, parts) + epilogue;
      RoundTrip(boundary, parts, epilogue);
    }
  }

  // ---------------------------------------------------------------- beginnings of bodies

  /** The indices the machine can have. */
  predicate Sane(boundary: seq<byte>, m: Machine) {
    && (m.state == StartBoundary ==> m.index <= |boundary| + 1)
    && (m.state == PartDataBoundary ==> m.index < |boundary|)
  }

  lemma {:induction false} RunIsSane(boundary: seq<byte>, m: Machine, w: seq<byte>)
    requires boundary != [] && Sane(boundary, m) && RunOn(boundary, m, w).left == 0
    ensures Sane(boundary, RunOn(boundary, m, w).m)
    decreases |w|
  {
    if w != [] { RunIsSane(boundary, Step(boundary, m, w[0]).m, w[1..]); }
  }

  /** If `c` leads to a machine from which `v` is accepted, then `c` and `v` are. */
  lemma Prepend(boundary: seq<byte>, m: Machine, c: byte, v: seq<byte>)
    requires Step(boundary, m, c).Next? && Accepts(boundary, Step(boundary, m, c).m, v)
    ensures Accepts(boundary, m, [c] + v)
  {
    assert ([c] + v)[1..] == v;
  }

  lemma EndsClosed(boundary: seq<byte>, m: Machine) returns (v: seq<byte>)
    requires m.state == PartDataAlmostEnd || m.state == PartDataFinalHyphen || m.state == End
    ensures Accepts(boundary, m, v)
    decreases if m.state == PartDataAlmostEnd then 2 else if m.state == PartDataFinalHyphen then 1 else 0
  {
    if m.state == End {
      v := [];
    } else {
      v := EndsClosed(boundary, Step(boundary, m, 45).m);
      Prepend(boundary, m, 45, v);
      v := [45] + v;
    }
  }

  lemma {:induction false} EndsFromBoundary(boundary: seq<byte>, m: Machine) returns (v: seq<byte>)
    requires m.state == PartDataBoundary && m.index < |boundary|
    ensures Accepts(boundary, m, v)
    decreases |boundary| - m.index
  {
    var c := boundary[m.index];
    var m' := Step(boundary, m, c).m;
    if m.index + 1 == |boundary| { v := EndsClosed(boundary, m'); } else { v := EndsFromBoundary(boundary, m'); }
    Prepend(boundary, m, c, v);
    v := [c] + v;
  }

  lemma EndsFromData(boundary: seq<byte>, m: Machine) returns (v: seq<byte>)
    requires boundary != [] && (m.state == PartDataStart || m.state == PartData || m.state == PartDataAlmostBoundary)
    ensures Accepts(boundary, m, v)
    decreases m.state != PartDataAlmostBoundary
  {
    if m.state == PartDataAlmostBoundary {
      v := EndsFromBoundary(boundary, Step(boundary, m, 10).m);
      Prepend(boundary, m, 10, v);
      v := [10] + v;
    } else {
      v := EndsFromData(boundary, Step(boundary, m, 13).m);
      Prepend(boundary, m, 13, v);
      v := [13] + v;
    }
  }

  /** How many bytes there are until the data, at least. */
  function Before(s: State): nat {
    match s
    case HeaderValueStart | HeaderValue => 4
    case HeaderValueAlmostDone | PartDataEnd => 3
    case HeaderFieldStart | HeaderField => 2
    case HeadersAlmostDone => 1
    case _ => 0
  }

  lemma {:induction false} EndsFromHeaders(boundary: seq<byte>, m: Machine) returns (v: seq<byte>)
    requires boundary != [] && (Before(m.state) > 0 || m.state == PartDataStart)
    ensures Accepts(boundary, m, v)
    decreases Before(m.state)
  {
    if m.state == PartDataStart {
      v := EndsFromData(boundary, m);
    } else {
      var c: byte := if Before(m.state) % 2 == 0 then 13 else 10;
      v := EndsFromHeaders(boundary, Step(boundary, m, c).m);
      Prepend(boundary, m, c, v);
      v := [c] + v;
    }
  }

  lemma {:induction false} EndsFromOpening(boundary: seq<byte>, m: Machine) returns (v: seq<byte>)
    requires boundary != [] && m.state == StartBoundary && m.index <= |boundary| + 1
    ensures Accepts(boundary, m, v)
    decreases |boundary| + 1 - m.index
  {
    var c := (boundary + [13, 10])[m.index];
    var m' := Step(boundary, m, c).m;
    if m.index == |boundary| + 1 { v := EndsFromHeaders(boundary, m'); } else { v := EndsFromOpening(boundary, m'); }
    Prepend(boundary, m, c, v);
    v := [c] + v;
  }

  /** From every state there is a way to the end. */
  lemma EndsSomehow(boundary: seq<byte>, m: Machine) returns (v: seq<byte>)
    requires boundary != [] && Sane(boundary, m)
    ensures Accepts(boundary, m, v)
  {
    match m.state
    case Start =>
      v := EndsFromOpening(boundary, m.(state := StartBoundary, index := 0));
      assert v != [];
    case StartBoundary => v := EndsFromOpening(boundary, m);
    case PartDataStart | PartData | PartDataAlmostBoundary => v := EndsFromData(boundary, m);
    case PartDataBoundary => v := EndsFromBoundary(boundary, m);
    case PartDataAlmostEnd | PartDataFinalHyphen | End => v := EndsClosed(boundary, m);
    case _ => v := EndsFromHeaders(boundary, m);
  }

  /** An input is consumed whole if and only if it is the beginning of a body. */
  lemma ViableIff(boundary: seq<byte>, w: seq<byte>)
    requires boundary != [] && Restartable(Delimiter(boundary))
    ensures RunOn(boundary, INITIAL, w).left == 0 <==> Viable(boundary, w)
  {
    if RunOn(boundary, INITIAL, w).left == 0 {
      var m := RunOn(boundary, INITIAL, w).m;
      RunIsSane(boundary, INITIAL, w);
      var v := EndsSomehow(boundary, m);
      RunOnAppend(boundary, INITIAL, w, v);
      AcceptsIff(boundary, w + v);
    }
    if Viable(boundary, w) {
      var v: seq<byte> :| IsBody(boundary, w + v);
      AcceptsIff(boundary, w + v);
      RunOnAppend(boundary, INITIAL, w, v);
    }
  }

  lemma {:induction false} RejectedAt(boundary: seq<byte>, m: Machine, w: seq<byte>)
    ensures var o := RunOn(boundary, m, w);
            var k := |w| - o.left;
            && 0 <= k <= |w| && RunOn(boundary, m, w[..k]).left == 0
            && (k < |w| ==> RunOn(boundary, m, w[..k + 1]).left > 0)
    decreases |w|
  {
    if w != [] && Step(boundary, m, w[0]).Next? {
      var m', v := Step(boundary, m, w[0]).m, w[1..];
      RejectedAt(boundary, m', v);
      var k := |v| - RunOn(boundary, m', v).left;
      assert w[..k + 1][1..] == v[..k];
      if k < |v| { assert w[..k + 2][1..] == v[..k + 1]; }
    }
  }

  /** `n` bytes of `w` are the beginning of a body, and no more than that. */
  ghost predicate LongestViable(boundary: seq<byte>, w: seq<byte>, n: nat) {
    n <= |w| && Viable(boundary, w[..n]) && (n < |w| ==> !Viable(boundary, w[..n + 1]))
  }

  lemma ViableUpTo(boundary: seq<byte>, w: seq<byte>, k: nat)
    requires boundary != [] && Restartable(Delimiter(boundary))
    requires k <= |w| && RunOn(boundary, INITIAL, w[..k]).left == 0
    requires k < |w| ==> RunOn(boundary, INITIAL, w[..k + 1]).left > 0
    ensures LongestViable(boundary, w, k)
  {
    ViableIff(boundary, w[..k]);
    if k < |w| { ViableIff(boundary, w[..k + 1]); }
  }

  /** The first rejected byte is the first with which no body goes on. */
  lemma RejectsExactly(boundary: seq<byte>, w: seq<byte>)
    requires boundary != [] && Restartable(Delimiter(boundary))
    ensures RunOn(boundary, INITIAL, w).left <= |w|
    ensures LongestViable(boundary, w, |w| - RunOn(boundary, INITIAL, w).left)
  {
    RejectedAt(boundary, INITIAL, w);
    ViableUpTo(boundary, w, |w| - RunOn(boundary, INITIAL, w).left);
  }
}
