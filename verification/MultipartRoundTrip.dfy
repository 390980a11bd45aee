/** Reading a written body back. */
module MultipartRoundTrip {
  import opened Basics
  import opened MultipartMachine
  import opened MultipartBuffered
  import opened MultipartSearch
  import opened MultipartData
  import opened MultipartText

  /** The bytes of a name are letters and the hyphen, whatever their case. */
  lemma NameByteIff(c: byte)
    ensures IsNameByte(c) <==> IsLetterOrHyphen(c)
  {
  }

  lemma DelimiterIs(boundary: seq<byte>)
    ensures Delimiter(boundary) == EndOfPart(boundary)
  {
  }

  /** The callbacks that describe the parts. */
  function HeaderEvents(hs: seq<Header>): seq<Event> {
    if hs == [] then [] else [Slice(Field, hs[0].name), Slice(Value, hs[0].value)] + HeaderEvents(hs[1..])
  }

  function PartEvents(p: Part): seq<Event> {
    [PartBegin] + HeaderEvents(p.headers) + [HeadersComplete, Slice(Data, p.data), PartEnd]
  }

  function BodyEvents(parts: seq<Part>): seq<Event> {
    if parts == [] then [BodyEnd] else PartEvents(parts[0]) + BodyEvents(parts[1..])
  }

  /** Bytes that only lengthen the slice being collected. */
  predicate Plain(s: State, c: byte) {
    (s == HeaderField && IsNameByte(c)) || (s == HeaderValue && c != CR)
  }

  lemma {:induction false} CollectRun(boundary: seq<byte>, s: State, i: nat, l: Log, x: seq<byte>, v: seq<byte>)
    requires s == HeaderField || s == HeaderValue
    requires forall j :: 0 <= j < |v| ==> Plain(s, v[j])
    ensures RunOn(boundary, Machine(s, i, Feed(l, Slice(Collected(s), x))), v) ==
              Outcome(Machine(s, i, Feed(l, Slice(Collected(s), x + v))), 0)
    decreases |v|
  {
    if v == [] {
      assert x + v == x;
    } else {
      assert Plain(s, v[0]);
      FeedJoins(l, Collected(s), x, [v[0]]);
      CollectRun(boundary, s, i, l, x + [v[0]], v[1..]);
      assert x + [v[0]] + v[1..] == x + v;
    }
  }

  lemma RunOne(boundary: seq<byte>, m: Machine, c: byte)
    requires Step(boundary, m, c).Next?
    ensures RunOn(boundary, m, [c]) == Outcome(Step(boundary, m, c).m, 0)
  {
    assert [c][1..] == [];
  }

  /** Reading `v` and then `w`. */
  lemma Then(boundary: seq<byte>, m: Machine, v: seq<byte>, m': Machine, w: seq<byte>, m'': Machine)
    requires RunOn(boundary, m, v) == Outcome(m', 0) && RunOn(boundary, m', w) == Outcome(m'', 0)
    ensures RunOn(boundary, m, v + w) == Outcome(m'', 0)
  {
    RunOnAppend(boundary, m, v, w);
  }

  /** Entering a name or a value delivers nothing by itself. */
  lemma EnterField(boundary: seq<byte>, i: nat, l: Log, w: seq<byte>)
    requires w != [] && (w[0] == COLON || IsNameByte(w[0]))
    ensures RunOn(boundary, Machine(HeaderFieldStart, i, l), w) ==
              RunOn(boundary, Machine(HeaderField, i, Feed(l, Slice(Field, []))), w)
  {
    var v := if w[0] == COLON then [] else [w[0]];
    FeedJoins(l, Field, [], v);
    assert [] + v == v;
  }

  lemma EnterValue(boundary: seq<byte>, i: nat, l: Log, w: seq<byte>)
    requires w != [] && w[0] != SPACE
    ensures RunOn(boundary, Machine(HeaderValueStart, i, l), w) ==
              RunOn(boundary, Machine(HeaderValue, i, Feed(l, Slice(Value, []))), w)
  {
    var v := if w[0] == CR then [] else [w[0]];
    FeedJoins(l, Value, [], v);
    assert [] + v == v;
  }

  lemma NameIsPlain(name: seq<byte>)
    requires IsName(name)
    ensures forall j :: 0 <= j < |name| ==> IsNameByte(name[j]) && Plain(HeaderField, name[j])
  {
    forall j | 0 <= j < |name|
      ensures IsNameByte(name[j])
    {
      NameByteIff(name[j]);
    }
  }

  /** A name up to its colon. */
  lemma NameRun(boundary: seq<byte>, i: nat, l: Log, name: seq<byte>)
    requires IsName(name)
    ensures RunOn(boundary, Machine(HeaderFieldStart, i, l), name + [COLON]) ==
              Outcome(Machine(HeaderValueStart, i, Feed(l, Slice(Field, name))), 0)
  {
    var w := name + [COLON];
    NameIsPlain(name);
    assert name != [] ==> w[0] == name[0];
    EnterField(boundary, i, l, w);
    CollectRun(boundary, HeaderField, i, l, [], name);
    assert [] + name == name;
    var m := Machine(HeaderField, i, Feed(l, Slice(Field, name)));
    FeedJoins(l, Field, name, []);
    assert name + [] == name;
    RunOne(boundary, m, COLON);
    Then(boundary, Machine(HeaderField, i, Feed(l, Slice(Field, []))), name, m, [COLON], Step(boundary, m, COLON).m);
  }

  /** A value up to its CR. */
  lemma ValueRun(boundary: seq<byte>, i: nat, l: Log, value: seq<byte>)
    requires IsValue(value)
    ensures RunOn(boundary, Machine(HeaderValueStart, i, l), value + [CR]) ==
              Outcome(Machine(HeaderValueAlmostDone, i, Feed(l, Slice(Value, value))), 0)
  {
    var w := value + [CR];
    assert value != [] ==> w[0] == value[0];
    EnterValue(boundary, i, l, w);
    CollectRun(boundary, HeaderValue, i, l, [], value);
    assert [] + value == value;
    var m := Machine(HeaderValue, i, Feed(l, Slice(Value, value)));
    FeedJoins(l, Value, value, []);
    assert value + [] == value;
    RunOne(boundary, m, CR);
    Then(boundary, Machine(HeaderValue, i, Feed(l, Slice(Value, []))), value, m, [CR], Step(boundary, m, CR).m);
  }

  lemma {:induction false} SpacesRun(boundary: seq<byte>, i: nat, l: Log, n: nat)
    ensures RunOn(boundary, Machine(HeaderValueStart, i, l), Spaces(n)) == Outcome(Machine(HeaderValueStart, i, l), 0)
  {
    if n > 0 {
      assert Spaces(n)[1..] == Spaces(n - 1);
      SpacesRun(boundary, i, l, n - 1);
    }
  }

  lemma HeaderRun(boundary: seq<byte>, i: nat, l: Log, h: Header)
    requires GoodHeader(h)
    ensures RunOn(boundary, Machine(HeaderFieldStart, i, l), WriteHeader(h)) ==
              Outcome(Machine(HeaderFieldStart, i, Feed(Feed(l, Slice(Field, h.name)), Slice(Value, h.value))), 0)
  {
    var m := Machine(HeaderFieldStart, i, l);
    var n := h.name + [COLON];
    var v := h.value + [CR];
    var spaces := Spaces(h.spaces);
    var m1 := Machine(HeaderValueStart, i, Feed(l, Slice(Field, h.name)));
    var m2 := Machine(HeaderValueAlmostDone, i, Feed(m1.log, Slice(Value, h.value)));
    NameRun(boundary, i, l, h.name);
    SpacesRun(boundary, i, m1.log, h.spaces);
    Then(boundary, m, n, m1, spaces, m1);
    ValueRun(boundary, i, m1.log, h.value);
    Then(boundary, m, n + spaces, m1, v, m2);
    RunOne(boundary, m2, LF);
    Then(boundary, m, n + spaces + v, m2, [LF], m2.(state := HeaderFieldStart));
  }

  /** A log to which a header line, or the end of the headers, may be added. */
  predicate BetweenHeaders(l: Log) {
    l.open.Run? ==> l.open.kind == Value
  }

  lemma HeaderLog(l: Log, h: Header)
    requires BetweenHeaders(l)
    ensures var t := Feed(Feed(l, Slice(Field, h.name)), Slice(Value, h.value));
            BetweenHeaders(t) && Closed(t) == Closed(l) + [Slice(Field, h.name), Slice(Value, h.value)]
  {
  }

  lemma {:induction false} HeadersRun(boundary: seq<byte>, i: nat, l: Log, hs: seq<Header>) returns (t: Log)
    requires BetweenHeaders(l) && forall j :: 0 <= j < |hs| ==> GoodHeader(hs[j])
    ensures RunOn(boundary, Machine(HeaderFieldStart, i, l), WriteHeaders(hs)) ==
              Outcome(Machine(HeaderFieldStart, i, t), 0)
    ensures BetweenHeaders(t) && Closed(t) == Closed(l) + HeaderEvents(hs)
    decreases |hs|
  {
    t := l;
    if hs != [] {
      var u := Feed(Feed(l, Slice(Field, hs[0].name)), Slice(Value, hs[0].value));
      HeaderRun(boundary, i, l, hs[0]);
      HeaderLog(l, hs[0]);
      t := HeadersRun(boundary, i, u, hs[1..]);
      Then(boundary, Machine(HeaderFieldStart, i, l), WriteHeader(hs[0]), Machine(HeaderFieldStart, i, u),
           WriteHeaders(hs[1..]), Machine(HeaderFieldStart, i, t));
      assert Closed(t) == Closed(l) + HeaderEvents(hs);
    }
  }

  lemma BlankLineRun(boundary: seq<byte>, i: nat, l: Log)
    ensures RunOn(boundary, Machine(HeaderFieldStart, i, l), CRLF) == Outcome(Ready(i, l), 0)
  {
    assert CRLF[1..] == [LF];
    RunOne(boundary, Machine(HeadersAlmostDone, i, l), LF);
  }

  /** A name without a colon is forgotten at the end of its line. */
  lemma StrayRun(boundary: seq<byte>, i: nat, l: Log, stray: seq<byte>) returns (t: Log)
    requires BetweenHeaders(l) && IsName(stray)
    ensures RunOn(boundary, Machine(HeaderFieldStart, i, l), stray + CRLF) == Outcome(Ready(i, t), 0)
    ensures Settled(t) == Closed(l)
  {
    if stray == [] {
      t := l;
      BlankLineRun(boundary, i, l);
      assert stray + CRLF == CRLF;
    } else {
      var w := stray + CRLF;
      t := Feed(l, Slice(Field, stray));
      NameIsPlain(stray);
      assert w[0] == stray[0];
      EnterField(boundary, i, l, w);
      CollectRun(boundary, HeaderField, i, l, [], stray);
      assert [] + stray == stray;
      NameEnds(boundary, i, t);
      var m := Machine(HeaderField, i, Feed(l, Slice(Field, [])));
      Then(boundary, m, stray, Machine(HeaderField, i, t), CRLF, Ready(i, t));
    }
  }

  lemma NameEnds(boundary: seq<byte>, i: nat, l: Log)
    ensures RunOn(boundary, Machine(HeaderField, i, l), CRLF) == Outcome(Ready(i, l), 0)
  {
    assert CRLF[1..] == [LF];
    RunOne(boundary, Machine(HeadersAlmostDone, i, l), LF);
  }

  lemma DataPartRun(boundary: seq<byte>, i: nat, l: Log, data: seq<byte>)
    requires boundary != [] && Restartable(Delimiter(boundary))
    requires IsFirst(Delimiter(boundary), data + Delimiter(boundary), |data|)
    ensures var m := PartOver(boundary, Feed(l, HeadersComplete), data);
            && RunOn(boundary, Ready(i, l), data + Delimiter(boundary)) == Outcome(m, 0)
            && m.log.open.Nothing?
            && Closed(m.log) == Settled(l) + [HeadersComplete, Slice(Data, data), PartEnd]
  {
    var w := data + Delimiter(boundary);
    DeliversUpToFirst(boundary, i, l, w, |data|);
    assert w[..|data|] == data && w[|w|..] == [];
    assert RunOn(boundary, PartOver(boundary, Feed(l, HeadersComplete), data), []).left == 0;
  }

  lemma PartItems(items: seq<Event>, p: Part)
    ensures items + [PartBegin] + HeaderEvents(p.headers) + [HeadersComplete, Slice(Data, p.data), PartEnd] ==
              items + PartEvents(p)
  {
  }

  lemma BodyItems(items: seq<Event>, parts: seq<Part>)
    requires parts != []
    ensures items + PartEvents(parts[0]) + BodyEvents(parts[1..]) == items + BodyEvents(parts)
  {
  }

  /** A part, from its first header to the delimiter that ends it. */
  lemma PartRun(boundary: seq<byte>, i: nat, l: Log, p: Part) returns (t: Log)
    requires boundary != [] && Restartable(Delimiter(boundary)) && GoodPart(boundary, p)
    requires l.open.Nothing?
    ensures RunOn(boundary, Machine(HeaderFieldStart, i, Feed(l, PartBegin)), WritePart(boundary, p)) ==
              Outcome(Machine(PartDataAlmostEnd, |boundary|, t), 0)
    ensures t.open.Nothing? && t.items == l.items + PartEvents(p)
  {
    var l0 := Feed(l, PartBegin);
    var m := Machine(HeaderFieldStart, i, l0);
    var hs := WriteHeaders(p.headers);
    var l1 := HeadersRun(boundary, i, l0, p.headers);
    var stray := p.stray + CRLF;
    var l2 := StrayRun(boundary, i, l1, p.stray);
    Then(boundary, m, hs, Machine(HeaderFieldStart, i, l1), stray, Ready(i, l2));
    DelimiterIs(boundary);
    DataPartRun(boundary, i, l2, p.data);
    var over := PartOver(boundary, Feed(l2, HeadersComplete), p.data);
    Then(boundary, m, hs + stray, Ready(i, l2), p.data + Delimiter(boundary), over);
    t := over.log;
    PartItems(l.items, p);
  }

  lemma CloseRun(boundary: seq<byte>, i: nat, l: Log)
    ensures RunOn(boundary, Machine(PartDataAlmostEnd, i, l), [HYPHEN, HYPHEN]) ==
              Outcome(Machine(End, i, Feed(l, BodyEnd)), 0)
  {
    assert [HYPHEN, HYPHEN][1..] == [HYPHEN];
    RunOne(boundary, Machine(PartDataFinalHyphen, i, l), HYPHEN);
  }

  lemma NextPartRun(boundary: seq<byte>, i: nat, l: Log)
    ensures RunOn(boundary, Machine(PartDataAlmostEnd, i, l), CRLF) ==
              Outcome(Machine(HeaderFieldStart, i, Feed(l, PartBegin)), 0)
  {
    assert CRLF[1..] == [LF];
    RunOne(boundary, Machine(PartDataEnd, i, l), LF);
  }

  lemma {:induction false} PartsRun(boundary: seq<byte>, i: nat, l: Log, parts: seq<Part>) returns (t: Log)
    requires boundary != [] && Restartable(Delimiter(boundary)) && l.open.Nothing? && GoodParts(boundary, parts)
    ensures RunOn(boundary, Machine(HeaderFieldStart, i, Feed(l, PartBegin)), WriteParts(boundary, parts)) ==
              Outcome(Machine(End, |boundary|, t), 0)
    ensures t == Log(l.items + BodyEvents(parts), Nothing)
    decreases |parts|
  {
    var m := Machine(HeaderFieldStart, i, Feed(l, PartBegin));
    var one := WritePart(boundary, parts[0]);
    var u := PartRun(boundary, i, l, parts[0]);
    var over := Machine(PartDataAlmostEnd, |boundary|, u);
    if |parts| == 1 {
      t := Feed(u, BodyEnd);
      CloseRun(boundary, |boundary|, u);
      Then(boundary, m, one, over, [HYPHEN, HYPHEN], Machine(End, |boundary|, t));
      assert parts[1..] == [];
    } else {
      t := PartsRun(boundary, |boundary|, u, parts[1..]);
      NextPartThen(boundary, u, WriteParts(boundary, parts[1..]), Machine(End, |boundary|, t));
      Then(boundary, m, one, over, CRLF + WriteParts(boundary, parts[1..]), Machine(End, |boundary|, t));
    }
    BodyItems(l.items, parts);
  }

  lemma NextPartThen(boundary: seq<byte>, l: Log, w: seq<byte>, m: Machine)
    requires RunOn(boundary, Machine(HeaderFieldStart, |boundary|, Feed(l, PartBegin)), w) == Outcome(m, 0)
    ensures RunOn(boundary, Machine(PartDataAlmostEnd, |boundary|, l), CRLF + w) == Outcome(m, 0)
  {
    NextPartRun(boundary, |boundary|, l);
    Then(boundary, Machine(PartDataAlmostEnd, |boundary|, l), CRLF,
         Machine(HeaderFieldStart, |boundary|, Feed(l, PartBegin)), w, m);
  }

  lemma {:induction false} BoundaryRun(boundary: seq<byte>, n: nat, s: State)
    requires boundary != [] && n <= |boundary|
    requires (s == Start && n == 0) || s == StartBoundary
    ensures RunOn(boundary, Machine(s, n, EMPTY_LOG), boundary[n..]) ==
              Outcome(Machine(StartBoundary, |boundary|, EMPTY_LOG), 0)
    decreases |boundary| - n
  {
    if n < |boundary| {
      assert boundary[n..][1..] == boundary[n + 1..];
      BoundaryRun(boundary, n + 1, StartBoundary);
    }
  }

  lemma OpeningRun(boundary: seq<byte>)
    requires boundary != []
    ensures RunOn(boundary, INITIAL, boundary + CRLF) ==
              Outcome(Machine(HeaderFieldStart, 0, Feed(EMPTY_LOG, PartBegin)), 0)
  {
    BoundaryRun(boundary, 0, Start);
    assert boundary[0..] == boundary;
    RunOnAppend(boundary, INITIAL, boundary, CRLF);
    assert CRLF[1..] == [LF];
    RunOne(boundary, Machine(StartBoundary, |boundary| + 1, EMPTY_LOG), LF);
  }

  lemma {:induction false} EpilogueRun(boundary: seq<byte>, m: Machine, w: seq<byte>)
    requires m.state == End
    ensures RunOn(boundary, m, w) == Outcome(m, 0)
    decreases |w|
  {
    if w != [] { EpilogueRun(boundary, m, w[1..]); }
  }

  /**
    Reading what was written gives back the same headers and data in order, ends in the
    final state, and consumes every byte, whatever follows the closing delimiter.
   */
  lemma RoundTrip(boundary: seq<byte>, parts: seq<Part>, epilogue: seq<byte>)
    requires boundary != [] && Restartable(Delimiter(boundary)) && GoodParts(boundary, parts)
    ensures RunOn(boundary, INITIAL, Write(boundary, parts) + epilogue) ==
              Outcome(Machine(End, |boundary|, Log(BodyEvents(parts), Nothing)), 0)
  {
    OpeningRun(boundary);
    var t := PartsRun(boundary, 0, EMPTY_LOG, parts);
    var end := Machine(End, |boundary|, t);
    Then(boundary, INITIAL, boundary + CRLF, Machine(HeaderFieldStart, 0, Feed(EMPTY_LOG, PartBegin)),
         WriteParts(boundary, parts), end);
    EpilogueRun(boundary, end, epilogue);
    Then(boundary, INITIAL, Write(boundary, parts), end, epilogue, end);
    assert [] + BodyEvents(parts) == BodyEvents(parts);
  }

  /** The delimiter's CR cannot lie inside an earlier occurrence. */
  lemma NoOverlap(boundary: seq<byte>, data: seq<byte>, j: nat)
    requires CR !in boundary && j < |data| < j + |Delimiter(boundary)|
    ensures !OccursAt(Delimiter(boundary), data + Delimiter(boundary), j)
  {
    var d := Delimiter(boundary);
    var n := |data| - j;
    var w := data + d;
    assert d[n] != CR by {
      if n >= 2 { assert d[n] == boundary[n - 2]; }
    }
    if j + |d| <= |w| {
      assert w[j..j + |d|][n] == w[|data|] == CR;
    }
  }

  /** For a boundary without CR, data that does not contain the delimiter is good data. */
  lemma PlainDataIsGood(boundary: seq<byte>, data: seq<byte>)
    requires CR !in boundary && Absent(Delimiter(boundary), data)
    ensures Restartable(Delimiter(boundary))
    ensures IsFirst(Delimiter(boundary), data + Delimiter(boundary), |data|)
  {
    var d := Delimiter(boundary);
    CrFreeRestartable(boundary);
    assert (data + d)[|data|..|data| + |d|] == d;
    forall j: nat | j < |data|
      ensures !OccursAt(d, data + d, j)
    {
      if j + |d| <= |data| {
        OccursShift(d, data, d, j);
      } else {
        NoOverlap(boundary, data, j);
      }
    }
  }
}
