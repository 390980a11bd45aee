/** The parser over a whole stream, however it is cut into buffers. */
module MultipartStream {
  import opened Basics
  import opened MultipartMachine
  import opened MultipartGrammar
  import opened MultipartBuffered
  import opened MultipartParser
  import opened MultipartBuffers
  import opened MultipartCuts
  import opened MultipartSearch
  import opened MultipartData
  import opened MultipartText
  import opened MultipartRoundTrip
  import opened MultipartLanguage

  /** What the callbacks `trace` of a parser in `state` must be, next to the one-byte machine. */
  ghost predicate Heard(state: State, trace: seq<Event>, o: Outcome, undelivered: seq<byte>) {
    if o.left == 0 then Same(state, o.m.log, Merged(trace)) else Lacks(state, o.m.log, Merged(trace), undelivered)
  }

  /**
    Every way of cutting an input into buffers gives the same result: the state, the
    index and the absolute offset of the first rejected byte are those of the one-byte
    machine on the whole input, and so are the callbacks, except for the slice that a
    rejection leaves undelivered. A name that never got a colon is left out of this; with
    such names the callbacks are those of the uncut input exactly if no cut falls in one.
    The offset is where the input stops being the beginning of a body, byte for byte.
   */
  method Parse(boundary: seq<byte>, buffers: seq<seq<byte>>)
    returns (p: Parser, offset: nat, ghost undelivered: seq<byte>)
    requires |boundary| > 0
    ensures p.Valid() && p.boundary == boundary && PhaseOf(p.trace) != Broken
    ensures var o := RunOn(boundary, INITIAL, Concat(buffers));
            && offset == |Concat(buffers)| - o.left
            && p.state == o.m.state && p.index == o.m.index
            && Heard(p.state, p.trace, o, undelivered)
            && (o.left == 0 ==>
                  (RawMerged(p.trace) == RawMerged(Uncut(boundary, Concat(buffers)).trace) <==>
                     CleanCuts(boundary, buffers)))
    ensures Restartable(Delimiter(boundary)) ==>
              && LongestViable(boundary, Concat(buffers), offset)
              && (offset == |Concat(buffers)| && p.state == End <==> IsBody(boundary, Concat(buffers)))
  {
    p, offset := ReadAll(boundary, buffers);
    p.NotBroken();
    PlayAllFollows(boundary, buffers);
    undelivered := PlayAll(boundary, buffers).k.pending;
    if RunOn(boundary, INITIAL, Concat(buffers)).left == 0 {
      LagsNothing(p.state, RunOn(boundary, INITIAL, Concat(buffers)).m.log, Merged(p.trace));
      CutsShowIff(boundary, buffers);
    }
    if Restartable(Delimiter(boundary)) {
      RejectsExactly(boundary, Concat(buffers));
      AcceptsIff(boundary, Concat(buffers));
    }
  }

  /** One buffer after another, up to the first that is not consumed whole. */
  method ReadAll(boundary: seq<byte>, buffers: seq<seq<byte>>) returns (p: Parser, offset: nat)
    requires |boundary| > 0
    ensures p.Valid() && p.boundary == boundary
    ensures var r := PlayAll(boundary, buffers);
            p.View() == r.k.(pending := []) && offset == |Concat(buffers)| - r.left
  {
    p := new Parser(boundary);
    offset := 0;
    var n := 0;
    assert buffers[..0] == [];
    while n < |buffers|
      invariant 0 <= n <= |buffers|
      invariant fresh(p) && fresh(p.lookbehind) && p.boundary == boundary && p.Valid()
      invariant PlayAll(boundary, buffers[..n]).left == 0 && offset == |Concat(buffers[..n])|
      invariant p.View() == PlayAll(boundary, buffers[..n]).k.(pending := [])
    {
      ConcatTake(buffers, n);
      PlayAllTake(boundary, buffers, n);
      var consumed, _ := p.Execute(buffers[n]);
      offset := offset + consumed;
      if consumed != |buffers[n]| {
        PlayAllStops(boundary, buffers, n + 1);
        ConcatSplit(buffers, n + 1);
        return;
      }
      n := n + 1;
    }
    assert buffers[..n] == buffers;
  }

  /** A written body is read back whole from any buffers it arrives in. */
  method ParseWritten(boundary: seq<byte>, parts: seq<Part>, epilogue: seq<byte>, buffers: seq<seq<byte>>)
    returns (p: Parser, offset: nat, ghost undelivered: seq<byte>)
    requires boundary != [] && Restartable(Delimiter(boundary)) && GoodParts(boundary, parts)
    requires Concat(buffers) == Write(boundary, parts) + epilogue
    ensures offset == |Concat(buffers)| && p.state == End
    ensures Merged(p.trace) == Log(BodyEvents(parts), Nothing)
  {
    RoundTrip(boundary, parts, epilogue);
    p, offset, undelivered := Parse(boundary, buffers);
  }

  /** The opening line and one byte of a header name. */
  lemma OneNameByte(boundary: seq<byte>, name: byte)
    requires boundary != [] && IsNameByte(name)
    ensures var o := RunOn(boundary, INITIAL, boundary + CRLF + [name]);
            o.left == 0 && o.m.state == HeaderField
  {
    OpeningRun(boundary);
    RunOnAppend(boundary, INITIAL, boundary + CRLF, [name]);
    RunOne(boundary, Machine(HeaderFieldStart, 0, Feed(EMPTY_LOG, PartBegin)), name);
  }

  /**
    A cut that shows, for every boundary: the opening line and one byte of a name in the
    first buffer, the end of that line in the second, whatever follows it.
   */
  lemma CutShows(boundary: seq<byte>, name: byte, tail: seq<byte>)
    requires boundary != [] && IsNameByte(name)
    ensures var cut := [boundary + CRLF + [name], CRLF + tail];
            var w := Concat(cut);
            && w == boundary + CRLF + [name] + CRLF + tail
            && (tail == [] ==> RunOn(boundary, INITIAL, w).left == 0)
            && (RunOn(boundary, INITIAL, w).left == 0 ==>
                  RawMerged(PlayAll(boundary, cut).k.trace) != RawMerged(Uncut(boundary, w).trace))
  {
    var head := boundary + CRLF + [name];
    var cut := [head, CRLF + tail];
    assert cut[..1] == [head] && cut[1..] == [CRLF + tail];
    ConcatOne(head);
    ConcatOne(CRLF + tail);
    assert Concat(cut) == head + (CRLF + tail) == head + CRLF + tail;
    OneNameByte(boundary, name);
    assert NameEndsAtCr(CRLF + tail);
    assert ExposedAt(boundary, cut, 1);
    if RunOn(boundary, INITIAL, Concat(cut)).left == 0 { CutsShowIff(boundary, cut); }
    if tail == [] {
      var m := RunOn(boundary, INITIAL, head).m;
      RunOnAppend(boundary, INITIAL, head, CRLF);
      assert CRLF[1..] == [LF];
      RunOne(boundary, m.(state := HeadersAlmostDone), LF);
      assert CRLF + tail == CRLF;
    }
  }
}
