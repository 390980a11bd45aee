/**
  Where the buffers are cut does show in one place: a header name that is cut by a buffer
  end has been delivered in part, while the same name in one buffer is dropped if its line
  ends without a colon. Here logs keep such names.
 */
module MultipartCuts {
  import opened Basics
  import opened MultipartMachine
  import opened MultipartBuffered
  import opened MultipartBuffers

  /** As Feed, but nothing that was delivered is dropped. */
  function RawFeed(l: Log, e: Event): Log {
    if e == HeadersComplete then Log(Closed(l) + [e], Nothing) else Feed(l, e)
  }

  function RawMerged(trace: seq<Event>): Log {
    if trace == [] then EMPTY_LOG else RawFeed(RawMerged(trace[..|trace| - 1]), trace[|trace| - 1])
  }

  function Raw(k: Cursor): Log {
    RawMerged(k.trace)
  }

  lemma RawDeliver(k: Cursor, e: Event)
    ensures Raw(Deliver(k, e)) == RawFeed(Raw(k), e)
  {
    assert (k.trace + [e])[..|k.trace|] == k.trace;
  }

  /** The raw log once the pending slice is added. */
  function Gathered(k: Cursor): Log {
    if Collecting(k.state) then Feed(Raw(k), Slice(Collected(k.state), k.pending)) else Raw(k)
  }

  /** The header name that is being read ends at a CR: its line has no colon. */
  predicate NameEndsAtCr(w: seq<byte>) {
    w != [] && if IsNameByte(w[0]) then NameEndsAtCr(w[1..]) else w[0] == CR
  }

  // ---------------------------------------------------------------- the end of a buffer

  /** What the end of a buffer does. */
  function Flush(k: Cursor): Cursor {
    if Collecting(k.state) then Deliver(k, Slice(Collected(k.state), k.pending)) else k
  }

  lemma TurnLast(boundary: seq<byte>, k: Cursor, c: byte)
    ensures var t := Turn(boundary, k, c, false);
            Turn(boundary, k, c, true) == if t.Forward? then Forward(Flush(t.k)) else t
    ensures var t := Turn(boundary, k, c, false);
            t.Forward? && t.k.state == HeaderField ==> t.k.pending != []
  {
  }

  /** Reading to the end of a buffer is reading on and then delivering what is pending. */
  lemma {:induction false} PlayFlush(boundary: seq<byte>, k: Cursor, w: seq<byte>)
    requires w != []
    ensures var p := Play(boundary, k, w, false);
            && Play(boundary, k, w, true) == (if p.left == 0 then Played(Flush(p.k), 0) else p)
            && (p.left == 0 && p.k.state == HeaderField ==> p.k.pending != [])
    decreases |w|, if k.state == PartData then 0 else 1
  {
    TurnLast(boundary, k, w[0]);
    AgainOnlyOnce(boundary, k, w[0], false);
    var t := Turn(boundary, k, w[0], false);
    if t.Again? {
      PlayFlush(boundary, t.k, w);
    } else if t.Forward? && |w| > 1 {
      PlayFlush(boundary, t.k, w[1..]);
    }
  }

  lemma {:induction false} PlayAppend(boundary: seq<byte>, k: Cursor, v: seq<byte>, w: seq<byte>)
    requires Play(boundary, k, v + w, false).left == 0
    ensures var p := Play(boundary, k, v, false);
            p.left == 0 && Play(boundary, k, v + w, false) == Play(boundary, p.k, w, false)
    decreases |v|, if k.state == PartData then 0 else 1
  {
    if v == [] {
      assert v + w == w;
    } else {
      assert (v + w)[1..] == v[1..] + w;
      AgainOnlyOnce(boundary, k, v[0], false);
      var t := Turn(boundary, k, v[0], false);
      if t.Again? {
        PlayAppend(boundary, t.k, v, w);
      } else if t.Forward? {
        PlayAppend(boundary, t.k, v[1..], w);
      }
    }
  }

  // ---------------------------------------------------------------- name bytes

  function NameBytes(e: Event): nat {
    if e.Slice? && e.kind == Field then |e.bytes| else 0
  }

  /** The name bytes delivered so far. */
  function Names(trace: seq<Event>): nat {
    if trace == [] then 0 else Names(trace[..|trace| - 1]) + NameBytes(trace[|trace| - 1])
  }

  lemma NamesSnoc(trace: seq<Event>, e: Event)
    ensures Names(trace + [e]) == Names(trace) + NameBytes(e)
  {
    assert (trace + [e])[..|trace|] == trace;
  }

  lemma NamesJoined(l: Log, e: Event)
    requires e.Slice? && l.open.Run? && l.open.kind == e.kind
    ensures Names(Closed(RawFeed(l, e))) == Names(Closed(l)) + NameBytes(e)
  {
    NamesSnoc(l.items, Slice(l.open.kind, l.open.bytes));
    NamesSnoc(l.items, Slice(l.open.kind, l.open.bytes + e.bytes));
  }

  lemma NamesFed(l: Log, e: Event)
    ensures Names(Closed(RawFeed(l, e))) == Names(Closed(l)) + NameBytes(e)
  {
    if e.Slice? && l.open.Run? && l.open.kind == e.kind {
      NamesJoined(l, e);
    } else {
      assert Closed(RawFeed(l, e)) == Closed(l) + [e];
      NamesSnoc(Closed(l), e);
    }
  }

  /** Merging keeps them all. */
  lemma {:induction false} NamesMerged(trace: seq<Event>)
    ensures Names(Closed(RawMerged(trace))) == Names(trace)
  {
    if trace != [] {
      var n := |trace| - 1;
      NamesMerged(trace[..n]);
      NamesFed(RawMerged(trace[..n]), trace[n]);
    }
  }

  // ---------------------------------------------------------------- two runs side by side

  /** Both runs have gathered the same; in a name that will be dropped they have delivered the same too. */
  ghost predicate Level(k: Cursor, u: Cursor, rest: seq<byte>) {
    && Gathered(k) == Gathered(u)
    && (k.state == HeaderField && NameEndsAtCr(rest) ==> Raw(k) == Raw(u) && k.pending == u.pending)
  }

  /** The first run has delivered name bytes that the second never will. */
  ghost predicate Ahead(k: Cursor, u: Cursor, rest: seq<byte>) {
    if k.state == HeaderField && !NameEndsAtCr(rest)
    then Names(k.trace) + |k.pending| > Names(u.trace) + |u.pending|
    else Names(k.trace) > Names(u.trace)
  }

  /** A run with cuts beside one without, before `rest` is read. */
  ghost predicate Beside(k: Cursor, u: Cursor, rest: seq<byte>, ahead: bool) {
    && k.state == u.state && k.index == u.index
    && if ahead then Ahead(k, u, rest) else Level(k, u, rest)
  }

  /** A callback that both runs make. */
  lemma DeliverLevel(k: Cursor, u: Cursor, e: Event, s: State)
    requires Raw(k) == Raw(u)
    ensures Raw(Deliver(k, e).(state := s)) == Raw(Deliver(u, e).(state := s))
  {
    RawDeliver(k, e);
    RawDeliver(u, e);
  }

  lemma EnterLevel(k: Cursor, u: Cursor, w: seq<byte>)
    requires w != [] && k.state == u.state && Level(k, u, w)
    ensures Level(Enter(k, w[0]), Enter(u, w[0]), w)
  {
    if k.state == PartDataStart { DeliverLevel(k, u, HeadersComplete, PartData); }
  }

  lemma CollectLevel(k: Cursor, u: Cursor, c: byte)
    requires k.state == u.state && Collecting(k.state) && Gathered(k) == Gathered(u)
    ensures Gathered(Collect(k, c, false).k) == Gathered(Collect(u, c, false).k)
  {
    FeedJoins(Raw(k), Collected(k.state), k.pending, [c]);
    FeedJoins(Raw(u), Collected(k.state), u.pending, [c]);
  }

  lemma NameLevel(boundary: seq<byte>, k: Cursor, u: Cursor, w: seq<byte>)
    requires w != [] && k.state == u.state == HeaderField && Level(k, u, w)
    requires !Dispatch(boundary, k, w[0], false).Stop?
    ensures Level(Dispatch(boundary, k, w[0], false).k, Dispatch(boundary, u, w[0], false).k, w[1..])
  {
    if w[0] == COLON {
      RawDeliver(k, Slice(Field, k.pending));
      RawDeliver(u, Slice(Field, u.pending));
    } else if w[0] != CR {
      CollectLevel(k, u, w[0]);
    }
  }

  lemma ContentEndsLevel(boundary: seq<byte>, k: Cursor, u: Cursor, w: seq<byte>)
    requires w != [] && w[0] == CR && k.state == u.state && (k.state == HeaderValue || k.state == PartData)
    requires Level(k, u, w)
    ensures Level(Dispatch(boundary, k, CR, false).k, Dispatch(boundary, u, CR, false).k, w[1..])
  {
    RawDeliver(k, Slice(Collected(k.state), k.pending));
    RawDeliver(u, Slice(Collected(k.state), u.pending));
  }

  lemma ContentLevel(boundary: seq<byte>, k: Cursor, u: Cursor, w: seq<byte>)
    requires w != [] && k.state == u.state && (k.state == HeaderValue || k.state == PartData) && Level(k, u, w)
    ensures Level(Dispatch(boundary, k, w[0], false).k, Dispatch(boundary, u, w[0], false).k, w[1..])
  {
    if w[0] == CR {
      ContentEndsLevel(boundary, k, u, w);
    } else {
      CollectLevel(k, u, w[0]);
    }
  }

  lemma BrokenLevel(boundary: seq<byte>, k: Cursor, u: Cursor, c: byte, rest: seq<byte>)
    requires k.state == u.state && k.index == u.index && Raw(k) == Raw(u)
    requires (k.state == PartDataAlmostBoundary || k.state == PartDataBoundary) && !Matches(boundary, k, c)
    ensures Level(Dispatch(boundary, k, c, false).k, Dispatch(boundary, u, c, false).k, rest)
  {
    DeliverLevel(k, u, Slice(Data, Held(boundary, k.state, k.index)), PartData);
  }

  lemma MatchLevel(boundary: seq<byte>, k: Cursor, u: Cursor, c: byte, rest: seq<byte>)
    requires k.state == u.state && k.index == u.index && Raw(k) == Raw(u)
    requires (k.state == PartDataAlmostBoundary || k.state == PartDataBoundary) && Matches(boundary, k, c)
    ensures Level(Dispatch(boundary, k, c, false).k, Dispatch(boundary, u, c, false).k, rest)
  {
    if k.state == PartDataBoundary && k.index + 1 == |boundary| {
      DeliverLevel(k, u, PartEnd, PartDataAlmostEnd);
    } else {
      var t, v := Dispatch(boundary, k, c, false).k, Dispatch(boundary, u, c, false).k;
      assert t.trace == k.trace && v.trace == u.trace && t.state == v.state && !Collecting(t.state);
      assert Raw(t) == Raw(k) && Raw(v) == Raw(u);
    }
  }

  lemma OpeningLevel(boundary: seq<byte>, k: Cursor, u: Cursor, c: byte, rest: seq<byte>)
    requires k.state == u.state == StartBoundary && k.index == u.index && Raw(k) == Raw(u)
    ensures Level(Dispatch(boundary, k, c, false).k, Dispatch(boundary, u, c, false).k, rest)
  {
    if k.index == |boundary| + 1 && c == LF { DeliverLevel(k, u, PartBegin, HeaderFieldStart); }
  }

  /** No callback, and no slice is begun. */
  lemma SilentLevel(boundary: seq<byte>, k: Cursor, u: Cursor, c: byte, rest: seq<byte>)
    requires k.state == u.state && k.index == u.index && !Collecting(k.state) && Raw(k) == Raw(u)
    requires k.state != StartBoundary && k.state != PartDataAlmostBoundary && k.state != PartDataBoundary
    requires !(k.state == PartDataEnd && c == LF) && !(k.state == PartDataFinalHyphen && c == HYPHEN)
    ensures Level(Dispatch(boundary, k, c, false).k, Dispatch(boundary, u, c, false).k, rest)
  {
    var t, v := Dispatch(boundary, k, c, false).k, Dispatch(boundary, u, c, false).k;
    assert t.trace == k.trace && v.trace == u.trace;
    assert t.state == v.state && !Collecting(t.state);
    assert Raw(t) == Raw(k) && Raw(v) == Raw(u);
  }

  lemma NextPartLevel(boundary: seq<byte>, k: Cursor, u: Cursor, rest: seq<byte>)
    requires k.state == u.state == PartDataEnd && k.index == u.index && Raw(k) == Raw(u)
    ensures Level(Dispatch(boundary, k, LF, false).k, Dispatch(boundary, u, LF, false).k, rest)
  {
    DeliverLevel(k, u, PartBegin, HeaderFieldStart);
  }

  lemma CloseLevel(boundary: seq<byte>, k: Cursor, u: Cursor, rest: seq<byte>)
    requires k.state == u.state == PartDataFinalHyphen && k.index == u.index && Raw(k) == Raw(u)
    ensures Level(Dispatch(boundary, k, HYPHEN, false).k, Dispatch(boundary, u, HYPHEN, false).k, rest)
  {
    DeliverLevel(k, u, BodyEnd, End);
  }

  /** The states in which nothing is held and a callback can only be a notification. */
  lemma QuietLevel(boundary: seq<byte>, k: Cursor, u: Cursor, c: byte, rest: seq<byte>)
    requires k.state == u.state && k.index == u.index && !Collecting(k.state) && Raw(k) == Raw(u)
    requires k.state != StartBoundary && k.state != PartDataAlmostBoundary && k.state != PartDataBoundary
    ensures Level(Dispatch(boundary, k, c, false).k, Dispatch(boundary, u, c, false).k, rest)
  {
    if k.state == PartDataEnd && c == LF {
      NextPartLevel(boundary, k, u, rest);
    } else if k.state == PartDataFinalHyphen && c == HYPHEN {
      CloseLevel(boundary, k, u, rest);
    } else {
      SilentLevel(boundary, k, u, c, rest);
    }
  }

  lemma BetweenLevel(boundary: seq<byte>, k: Cursor, u: Cursor, c: byte, rest: seq<byte>)
    requires k.state == u.state && k.index == u.index && !Collecting(k.state) && Raw(k) == Raw(u)
    ensures Level(Dispatch(boundary, k, c, false).k, Dispatch(boundary, u, c, false).k, rest)
  {
    if k.state == StartBoundary {
      OpeningLevel(boundary, k, u, c, rest);
    } else if k.state != PartDataAlmostBoundary && k.state != PartDataBoundary {
      QuietLevel(boundary, k, u, c, rest);
    } else if Matches(boundary, k, c) {
      MatchLevel(boundary, k, u, c, rest);
    } else {
      BrokenLevel(boundary, k, u, c, rest);
    }
  }

  /** Both runs take the same kind of turn. */
  lemma SameTurn(boundary: seq<byte>, k: Cursor, u: Cursor, c: byte)
    requires k.state == u.state && k.index == u.index
    ensures var t, v := Turn(boundary, k, c, false), Turn(boundary, u, c, false);
            && (t.Stop? <==> v.Stop?) && (t.Again? <==> v.Again?)
            && t.k.state == v.k.state && t.k.index == v.k.index
  {
  }

  /** What is still to be read after a turn. */
  function Rest(t: Turned, w: seq<byte>): seq<byte>
    requires w != []
  {
    if t.Again? then w else w[1..]
  }

  lemma DispatchLevel(boundary: seq<byte>, k: Cursor, u: Cursor, w: seq<byte>)
    requires w != [] && k.state == u.state && k.index == u.index && Level(k, u, w)
    requires !Dispatch(boundary, k, w[0], false).Stop?
    ensures var t, v := Dispatch(boundary, k, w[0], false), Dispatch(boundary, u, w[0], false);
            Level(t.k, v.k, Rest(t, w))
  {
    if k.state == HeaderField {
      NameLevel(boundary, k, u, w);
    } else if Collecting(k.state) {
      ContentLevel(boundary, k, u, w);
    } else {
      BetweenLevel(boundary, k, u, w[0], Rest(Dispatch(boundary, k, w[0], false), w));
    }
  }

  lemma TurnLevel(boundary: seq<byte>, k: Cursor, u: Cursor, w: seq<byte>)
    requires w != [] && k.state == u.state && k.index == u.index && Level(k, u, w)
    requires !Turn(boundary, k, w[0], false).Stop?
    ensures var t, v := Turn(boundary, k, w[0], false), Turn(boundary, u, w[0], false);
            Level(t.k, v.k, Rest(t, w))
  {
    EnterLevel(k, u, w);
    DispatchLevel(boundary, Enter(k, w[0]), Enter(u, w[0]), w);
  }

  // A run that is ahead in name bytes stays ahead.

  lemma EnterNames(k: Cursor, c: byte)
    ensures Names(Enter(k, c).trace) == Names(k.trace)
  {
    if k.state == PartDataStart { NamesSnoc(k.trace, HeadersComplete); }
  }

  lemma DeliverNames(k: Cursor, e: Event)
    ensures Names(Deliver(k, e).trace) == Names(k.trace) + NameBytes(e)
  {
    NamesSnoc(k.trace, e);
  }

  lemma HeldNames(boundary: seq<byte>, k: Cursor, c: byte)
    requires k.state == PartDataAlmostBoundary || k.state == PartDataBoundary
    ensures Names(Dispatch(boundary, k, c, false).k.trace) == Names(k.trace)
  {
    if !Matches(boundary, k, c) {
      DeliverNames(k, Slice(Data, Held(boundary, k.state, k.index)));
    } else if k.state == PartDataBoundary {
      DeliverNames(k, PartEnd);
    }
  }

  lemma BetweenNames(boundary: seq<byte>, k: Cursor, c: byte)
    requires !Collecting(k.state)
    ensures Names(Dispatch(boundary, k, c, false).k.trace) == Names(k.trace)
  {
    if k.state == PartDataAlmostBoundary || k.state == PartDataBoundary {
      HeldNames(boundary, k, c);
    } else if k.state == PartDataFinalHyphen {
      DeliverNames(k, BodyEnd);
    } else if k.state == StartBoundary || k.state == PartDataEnd {
      DeliverNames(k, PartBegin);
    }
  }

  /** Only a colon delivers name bytes in the middle of a buffer. */
  lemma DispatchNames(boundary: seq<byte>, k: Cursor, c: byte)
    ensures Names(Dispatch(boundary, k, c, false).k.trace) ==
              Names(k.trace) + (if k.state == HeaderField && c == COLON then |k.pending| else 0)
  {
    if Collecting(k.state) {
      DeliverNames(k, Slice(Collected(k.state), k.pending));
    } else {
      BetweenNames(boundary, k, c);
    }
  }

  lemma TurnNames(boundary: seq<byte>, k: Cursor, c: byte)
    ensures var t := Turn(boundary, k, c, false);
            Names(t.k.trace) == Names(k.trace) + (if k.state == HeaderField && c == COLON then |k.pending| else 0)
  {
    var e := Enter(k, c);
    EnterNames(k, c);
    DispatchNames(boundary, e, c);
    assert e.state == HeaderField ==> e.pending == if k.state == HeaderField then k.pending else [];
  }

  /** How a turn enters a name, goes on with it, or leaves it. */
  lemma NameTurn(boundary: seq<byte>, k: Cursor, c: byte)
    requires !Turn(boundary, k, c, false).Stop?
    ensures var t := Turn(boundary, k, c, false);
            && (t.k.state == HeaderField <==> (k.state == HeaderField || k.state == HeaderFieldStart) && IsNameByte(c))
            && (t.k.state == HeaderField ==> |t.k.pending| == (if k.state == HeaderField then |k.pending| else 0) + 1)
            && (t.k.state == HeaderField || k.state == HeaderField ==> t.Forward?)
            && (k.state == HeaderField ==> IsNameByte(c) || c == CR || c == COLON)
  {
  }

  lemma TurnAhead(boundary: seq<byte>, k: Cursor, u: Cursor, w: seq<byte>)
    requires w != [] && k.state == u.state && k.index == u.index && Ahead(k, u, w)
    requires !Turn(boundary, k, w[0], false).Stop?
    ensures var t, v := Turn(boundary, k, w[0], false), Turn(boundary, u, w[0], false);
            Ahead(t.k, v.k, Rest(t, w))
  {
    SameTurn(boundary, k, u, w[0]);
    TurnNames(boundary, k, w[0]);
    TurnNames(boundary, u, w[0]);
    NameTurn(boundary, k, w[0]);
    NameTurn(boundary, u, w[0]);
  }

  /** Reading the same bytes keeps two runs beside each other. */
  lemma {:induction false} PlayBeside(boundary: seq<byte>, k: Cursor, u: Cursor,
                                      v: seq<byte>, rest: seq<byte>, ahead: bool)
    requires Beside(k, u, v + rest, ahead) && Play(boundary, u, v, false).left == 0
    ensures var p, q := Play(boundary, k, v, false), Play(boundary, u, v, false);
            p.left == 0 && Beside(p.k, q.k, rest, ahead)
    decreases |v|, if k.state == PartData then 0 else 1
  {
    if v == [] {
      assert v + rest == rest;
    } else {
      var w := v + rest;
      assert w[0] == v[0] && w[1..] == v[1..] + rest;
      SameTurn(boundary, k, u, v[0]);
      AgainOnlyOnce(boundary, k, v[0], false);
      if ahead {
        TurnAhead(boundary, k, u, w);
      } else {
        TurnLevel(boundary, k, u, w);
      }
      var t, t' := Turn(boundary, k, v[0], false).k, Turn(boundary, u, v[0], false).k;
      PlayBeside(boundary, t, t', Rest(Turn(boundary, k, v[0], false), v), rest, ahead);
    }
  }

  /** A cut is exposed if it falls in a name whose line has no colon. */
  predicate Exposed(state: State, rest: seq<byte>) {
    state == HeaderField && NameEndsAtCr(rest)
  }

  lemma FlushLevel(k: Cursor)
    ensures Raw(Flush(k)) == Gathered(k) == Gathered(Flush(k))
  {
    if Collecting(k.state) {
      RawDeliver(k, Slice(Collected(k.state), k.pending));
      FeedJoins(Raw(k), Collected(k.state), k.pending, []);
      assert k.pending + [] == k.pending;
    }
  }

  lemma FlushNames(k: Cursor)
    ensures Names(Flush(k).trace) == Names(k.trace) + (if k.state == HeaderField then |k.pending| else 0)
  {
    if Collecting(k.state) { DeliverNames(k, Slice(Collected(k.state), k.pending)); }
  }

  /** A buffer end in one of two runs. */
  lemma FlushBeside(k: Cursor, u: Cursor, rest: seq<byte>, ahead: bool)
    requires Beside(k, u, rest, ahead) && (k.state == HeaderField ==> k.pending != [])
    ensures Beside(Flush(k), u, rest, ahead || Exposed(k.state, rest))
  {
    FlushLevel(k);
    FlushNames(k);
    NamesMerged(k.trace);
    NamesMerged(u.trace);
  }

  // ---------------------------------------------------------------- the theorem

  /** The `n`-th cut is exposed. */
  predicate ExposedAt(boundary: seq<byte>, buffers: seq<seq<byte>>, n: nat)
    requires n <= |buffers|
  {
    Exposed(RunOn(boundary, INITIAL, Concat(buffers[..n])).m.state, Concat(buffers[n..]))
  }

  predicate CleanTo(boundary: seq<byte>, buffers: seq<seq<byte>>, n: nat)
    requires n <= |buffers|
  {
    forall m :: 0 <= m <= n ==> !ExposedAt(boundary, buffers, m)
  }

  /** No buffer ends inside a header name whose line has no colon. */
  predicate CleanCuts(boundary: seq<byte>, buffers: seq<seq<byte>>) {
    CleanTo(boundary, buffers, |buffers|)
  }

  /** What the parser delivers from one buffer that holds the whole input. */
  function Uncut(boundary: seq<byte>, w: seq<byte>): Cursor {
    Play(boundary, FRESH, w, true).k
  }

  /** The first `n` buffers are accepted, cut or not. */
  lemma PrefixAccepted(boundary: seq<byte>, buffers: seq<seq<byte>>, n: nat)
    requires n <= |buffers| && RunOn(boundary, INITIAL, Concat(buffers)).left == 0
    ensures RunOn(boundary, INITIAL, Concat(buffers[..n])).left == 0
    ensures Play(boundary, FRESH, Concat(buffers[..n]), false).left == 0
    ensures var p := PlayAll(boundary, buffers[..n]);
            && p.left == 0 && p.k.pending == []
            && p.k.state == RunOn(boundary, INITIAL, Concat(buffers[..n])).m.state
  {
    ConcatSplit(buffers, n);
    RunOnAppend(boundary, INITIAL, Concat(buffers[..n]), Concat(buffers[n..]));
    PlayFollows(boundary, FRESH, INITIAL, Concat(buffers[..n]), false);
    PlayAllFollows(boundary, buffers[..n]);
  }

  /** The run with cuts beside the run without, after `n` buffers. */
  ghost predicate BesideAt(boundary: seq<byte>, buffers: seq<seq<byte>>, n: nat)
    requires n <= |buffers|
  {
    var k, u := PlayAll(boundary, buffers[..n]).k, Play(boundary, FRESH, Concat(buffers[..n]), false).k;
    Beside(k, u, Concat(buffers[n..]), !CleanTo(boundary, buffers, n)) && Gathered(k) == Raw(k)
  }

  lemma CutNext(boundary: seq<byte>, buffers: seq<seq<byte>>, n: nat)
    requires n < |buffers| && RunOn(boundary, INITIAL, Concat(buffers)).left == 0
    requires BesideAt(boundary, buffers, n)
    ensures BesideAt(boundary, buffers, n + 1)
  {
    var b, v, rest := buffers[n], Concat(buffers[..n]), Concat(buffers[n + 1..]);
    var ahead := !CleanTo(boundary, buffers, n);
    PrefixAccepted(boundary, buffers, n);
    PrefixAccepted(boundary, buffers, n + 1);
    ConcatTake(buffers, n);
    ConcatDrop(buffers, n);
    PlayAllTake(boundary, buffers, n);
    PlayAppend(boundary, FRESH, v, b);
    var k, u := PlayAll(boundary, buffers[..n]).k, Play(boundary, FRESH, v, false).k;
    PlayBeside(boundary, k, u, b, rest, ahead);
    var k', u' := Play(boundary, k, b, false).k, Play(boundary, u, b, false).k;
    assert CleanTo(boundary, buffers, n + 1) <==> !ahead && !ExposedAt(boundary, buffers, n + 1);
    if b == [] {
      assert v + b == v && b + rest == rest;
      assert ExposedAt(boundary, buffers, n + 1) == ExposedAt(boundary, buffers, n);
    } else {
      PlayFlush(boundary, k, b);
      FlushBeside(k', u', rest, ahead);
      FlushLevel(k');
    }
  }

  lemma {:induction false} CutsTo(boundary: seq<byte>, buffers: seq<seq<byte>>, n: nat)
    requires n <= |buffers| && RunOn(boundary, INITIAL, Concat(buffers)).left == 0
    ensures BesideAt(boundary, buffers, n)
  {
    if n == 0 {
      assert buffers[..0] == [] && Concat(buffers[..0]) == [];
    } else {
      CutsTo(boundary, buffers, n - 1);
      CutNext(boundary, buffers, n - 1);
    }
  }

  /** At the end of the input. */
  lemma EndBeside(k: Cursor, u: Cursor, ahead: bool)
    requires Beside(k, u, [], ahead) && k.pending == [] && Gathered(k) == Raw(k)
    ensures Raw(k) == Raw(Flush(u)) <==> !ahead
  {
    FlushLevel(u);
    FlushNames(u);
    NamesMerged(k.trace);
    NamesMerged(Flush(u).trace);
  }

  /**
    The callbacks of an accepted input, joined into runs and with nothing dropped, are those
    of the uncut input if and only if no buffer ends inside a header name whose next byte
    that is no name byte is a CR.
   */
  lemma CutsShowIff(boundary: seq<byte>, buffers: seq<seq<byte>>)
    requires RunOn(boundary, INITIAL, Concat(buffers)).left == 0
    ensures RawMerged(PlayAll(boundary, buffers).k.trace) == RawMerged(Uncut(boundary, Concat(buffers)).trace)
       <==> CleanCuts(boundary, buffers)
  {
    var n, w := |buffers|, Concat(buffers);
    assert buffers[..n] == buffers && buffers[n..] == [];
    CutsTo(boundary, buffers, n);
    PrefixAccepted(boundary, buffers, n);
    EndBeside(PlayAll(boundary, buffers).k, Play(boundary, FRESH, w, false).k, !CleanCuts(boundary, buffers));
    if w != [] { PlayFlush(boundary, FRESH, w); }
  }
}
