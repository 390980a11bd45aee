/**
  The buffered form of the machine: one turn of the parse loop, with the callbacks made so
  far and the slice that has been read but not yet delivered. It lags behind the one-byte
  machine by exactly that slice.
 */
module MultipartBuffered {
  import opened Basics
  import opened MultipartMachine
  import opened MultipartGrammar

  /** The states in which a slice is being collected. */
  predicate Collecting(s: State) {
    s == HeaderField || s == HeaderValue || s == PartData
  }

  function Collected(s: State): Kind {
    if s == HeaderField then Field else if s == HeaderValue then Value else Data
  }

  /** In a collecting state with nothing pending, the log ends in a run of that kind. */
  predicate OpenFits(s: State, t: Log) {
    Collecting(s) ==> t.open.Run? && t.open.kind == Collected(s)
  }

  /** Equal logs, except that a name without a value is ignored before headers_complete. */
  predicate Same(s: State, l: Log, t: Log) {
    if s == HeadersAlmostDone || s == PartDataStart then Settled(l) == Settled(t) else l == t
  }

  /** `l` is the log of every byte read; `t` lacks the slice still pending in the buffer. */
  predicate Lags(s: State, l: Log, t: Log, pending: seq<byte>) {
    if Collecting(s) then l == Feed(t, Slice(Collected(s), pending)) else Same(s, l, t)
  }

  /** With nothing pending, lagging behind is being level. */
  lemma LagsNothing(s: State, l: Log, t: Log)
    requires OpenFits(s, t)
    ensures Lags(s, l, t, []) <==> Same(s, l, t)
  {
    if t.open.Run? { assert t.open.bytes + [] == t.open.bytes; }
  }

  lemma FeedJoins(t: Log, k: Kind, v: seq<byte>, w: seq<byte>)
    ensures Feed(Feed(t, Slice(k, v)), Slice(k, w)) == Feed(t, Slice(k, v + w))
  {
    if t.open.Run? && t.open.kind == k {
      assert t.open.bytes + v + w == t.open.bytes + (v + w);
    }
  }

  /** What the callbacks lack when a byte is rejected: the slice that was never delivered. */
  predicate Lacks(s: State, l: Log, t: Log, pending: seq<byte>) {
    if pending == [] then Same(s, l, t) else l == Feed(t, Slice(Collected(s), pending))
  }

  /**
    The parser between two turns: the callbacks made so far, in order, and the part of the
    buffer not delivered yet.
   */
  datatype Cursor = Cursor(state: State, index: nat, trace: seq<Event>, pending: seq<byte>)

  const FRESH := Cursor(Start, 0, [], [])

  function LogOf(k: Cursor): Log {
    Merged(k.trace)
  }

  /** Stop at a rejected byte, go on to the next one, or read the same byte again. */
  datatype Turned = Stop(k: Cursor) | Forward(k: Cursor) | Again(k: Cursor)

  function Deliver(k: Cursor, e: Event): Cursor {
    k.(trace := k.trace + [e], pending := [])
  }

  lemma DeliverLog(k: Cursor, e: Event)
    ensures LogOf(Deliver(k, e)) == Feed(LogOf(k), e)
  {
    MergedSnoc(k.trace, e);
  }

  /** A byte joins the pending slice, which is delivered when the buffer ends. */
  function Collect(k: Cursor, c: byte, last: bool): Turned {
    var more := k.pending + [c];
    if last then Forward(Deliver(k, Slice(Collected(k.state), more))) else Forward(k.(pending := more))
  }

  /** The cases of the switch that fall through into the next one. */
  function Enter(k: Cursor, c: byte): Cursor {
    match k.state
    case Start => k.(state := StartBoundary, index := 0)
    case HeaderFieldStart => k.(state := HeaderField, pending := [])
    case HeaderValueStart => if c == SPACE then k else k.(state := HeaderValue, pending := [])
    case PartDataStart => Deliver(k, HeadersComplete).(state := PartData)
    case _ => k
  }

  function Dispatch(boundary: seq<byte>, k: Cursor, c: byte, last: bool): Turned {
    match k.state
    case StartBoundary =>
      if k.index == |boundary| then if c != CR then Stop(k) else Forward(k.(index := k.index + 1))
      else if k.index == |boundary| + 1 then
        if c != LF then Stop(k) else Forward(Deliver(k, PartBegin).(state := HeaderFieldStart, index := 0))
      else if k.index < |boundary| && c == boundary[k.index] then Forward(k.(index := k.index + 1))
      else Stop(k)
    case HeaderField =>
      if c == CR then Forward(k.(state := HeadersAlmostDone, pending := []))
      else if c == COLON then Forward(Deliver(k, Slice(Field, k.pending)).(state := HeaderValueStart))
      else if IsNameByte(c) then Collect(k, c, last)
      else Stop(k)
    case HeadersAlmostDone => if c == LF then Forward(k.(state := PartDataStart)) else Stop(k)
    case HeaderValue =>
      if c == CR then Forward(Deliver(k, Slice(Value, k.pending)).(state := HeaderValueAlmostDone))
      else Collect(k, c, last)
    case HeaderValueAlmostDone => if c == LF then Forward(k.(state := HeaderFieldStart)) else Stop(k)
    case PartData =>
      if c == CR then Forward(Deliver(k, Slice(Data, k.pending)).(state := PartDataAlmostBoundary))
      else Collect(k, c, last)
    case PartDataAlmostBoundary =>
      if c == LF then Forward(k.(state := PartDataBoundary, index := 0))
      else Again(Deliver(k, Slice(Data, [CR])).(state := PartData))
    case PartDataBoundary =>
      if !(k.index < |boundary| && c == boundary[k.index]) then
        Again(Deliver(k, Slice(Data, Held(boundary, k.state, k.index))).(state := PartData))
      else if k.index + 1 == |boundary| then
        Forward(Deliver(k, PartEnd).(state := PartDataAlmostEnd, index := k.index + 1))
      else Forward(k.(index := k.index + 1))
    case PartDataAlmostEnd =>
      if c == HYPHEN then Forward(k.(state := PartDataFinalHyphen))
      else if c == CR then Forward(k.(state := PartDataEnd))
      else Stop(k)
    case PartDataFinalHyphen =>
      if c == HYPHEN then Forward(Deliver(k, BodyEnd).(state := End)) else Stop(k)
    case PartDataEnd =>
      if c == LF then Forward(Deliver(k, PartBegin).(state := HeaderFieldStart)) else Stop(k)
    case _ => Forward(k)
  }

  function Turn(boundary: seq<byte>, k: Cursor, c: byte, last: bool): Turned {
    Dispatch(boundary, Enter(k, c), c, last)
  }

  /** The one-byte machine `m` has read what the cursor has read. */
  predicate Follows(k: Cursor, m: Machine) {
    && k.state == m.state && k.index == m.index
    && Lags(k.state, m.log, LogOf(k), k.pending)
    && (k.pending == [] ==> OpenFits(k.state, LogOf(k)))
    && (!Collecting(k.state) ==> k.pending == [])
  }

  lemma CollectFollows(k: Cursor, m: Machine, c: byte, last: bool)
    requires k.state == m.state && k.index == m.index && Collecting(k.state)
    requires Lags(k.state, m.log, LogOf(k), k.pending)
    ensures Follows(Collect(k, c, last).k, m.(log := Feed(m.log, Slice(Collected(k.state), [c]))))
  {
    FeedJoins(LogOf(k), Collected(k.state), k.pending, [c]);
    var t := Feed(LogOf(k), Slice(Collected(k.state), k.pending + [c]));
    assert t.open.bytes + [] == t.open.bytes;
    DeliverLog(k, Slice(Collected(k.state), k.pending + [c]));
  }

  /** A slice delivered early, followed by an empty one, is the slice. */
  lemma DeliverFollows(k: Cursor, m: Machine)
    requires Collecting(k.state) && Lags(k.state, m.log, LogOf(k), k.pending)
    ensures Feed(m.log, Slice(Collected(k.state), [])) == LogOf(Deliver(k, Slice(Collected(k.state), k.pending)))
  {
    FeedJoins(LogOf(k), Collected(k.state), k.pending, []);
    assert k.pending + [] == k.pending;
    DeliverLog(k, Slice(Collected(k.state), k.pending));
  }

  /** The first byte of a slice. */
  lemma CollectFresh(k: Cursor, c: byte, last: bool)
    requires Collecting(k.state) && k.pending == []
    ensures Follows(Collect(k, c, last).k, Machine(k.state, k.index, Feed(LogOf(k), Slice(Collected(k.state), [c]))))
  {
    var t := Feed(LogOf(k), Slice(Collected(k.state), [c]));
    assert [] + [c] == [c];
    assert t.open.bytes + [] == t.open.bytes;
    DeliverLog(k, Slice(Collected(k.state), [c]));
  }

  /** One turn of the loop does what the one-byte machine does, up to the pending slice. */
  ghost predicate Agrees(boundary: seq<byte>, m: Machine, c: byte, last: bool, t: Turned) {
    var s := Step(boundary, m, c);
    match t
    case Stop(k) =>
      && s.Reject? && s.m.state == k.state && s.m.index == k.index
      && Lacks(k.state, s.m.log, LogOf(k), k.pending)
    case Forward(k) => s.Next? && Follows(k, s.m) && (last ==> k.pending == [])
    case Again(k) =>
      && s == Step(boundary, Release(boundary, m), c) && Follows(k, Release(boundary, m))
      && (m.state == PartDataAlmostBoundary || m.state == PartDataBoundary)
  }

  lemma TurnNameStart(boundary: seq<byte>, k: Cursor, m: Machine, c: byte, last: bool)
    requires Follows(k, m) && k.state == HeaderFieldStart
    ensures Agrees(boundary, m, c, last, Turn(boundary, k, c, last))
  {
    if c == COLON {
      DeliverLog(k, Slice(Field, []));
    } else if IsNameByte(c) {
      CollectFresh(Enter(k, c), c, last);
    }
  }

  lemma TurnName(boundary: seq<byte>, k: Cursor, m: Machine, c: byte, last: bool)
    requires Follows(k, m) && k.state == HeaderField
    ensures Agrees(boundary, m, c, last, Turn(boundary, k, c, last))
  {
    if c == COLON {
      DeliverFollows(k, m);
    } else if IsNameByte(c) {
      CollectFollows(k, m, c, last);
    } else if k.pending == [] {
      LagsNothing(k.state, m.log, LogOf(k));
    }
  }

  lemma TurnValueStart(boundary: seq<byte>, k: Cursor, m: Machine, c: byte, last: bool)
    requires Follows(k, m) && k.state == HeaderValueStart
    ensures Agrees(boundary, m, c, last, Turn(boundary, k, c, last))
  {
    if c == CR {
      DeliverLog(k, Slice(Value, []));
    } else if c != SPACE {
      CollectFresh(Enter(k, c), c, last);
    }
  }

  lemma TurnValue(boundary: seq<byte>, k: Cursor, m: Machine, c: byte, last: bool)
    requires Follows(k, m) && k.state == HeaderValue
    ensures Agrees(boundary, m, c, last, Turn(boundary, k, c, last))
  {
    if c == CR {
      DeliverFollows(k, m);
    } else {
      CollectFollows(k, m, c, last);
    }
  }

  /** The first byte of the data, once the notification before it has been made. */
  lemma FirstOfData(boundary: seq<byte>, k: Cursor, c: byte, last: bool)
    requires k.state == PartData && k.pending == []
    ensures var s := StepPartData(Machine(PartData, k.index, LogOf(k)), c);
            var t := Dispatch(boundary, k, c, last);
            s.Next? && t.Forward? && Follows(t.k, s.m) && (last ==> t.k.pending == [])
  {
    if c == CR {
      DeliverLog(k, Slice(Data, []));
    } else {
      CollectFresh(k, c, last);
    }
  }

  lemma TurnDataStart(boundary: seq<byte>, k: Cursor, m: Machine, c: byte, last: bool)
    requires Follows(k, m) && k.state == PartDataStart
    ensures Agrees(boundary, m, c, last, Turn(boundary, k, c, last))
  {
    DeliverLog(k, HeadersComplete);
    FirstOfData(boundary, Enter(k, c), c, last);
  }

  lemma TurnData(boundary: seq<byte>, k: Cursor, m: Machine, c: byte, last: bool)
    requires Follows(k, m) && k.state == PartData
    ensures Agrees(boundary, m, c, last, Turn(boundary, k, c, last))
  {
    if c == CR {
      DeliverFollows(k, m);
    } else {
      CollectFollows(k, m, c, last);
    }
  }

  /** A false match: the byte is to be read again, after the held bytes have been delivered. */
  lemma TurnBroken(boundary: seq<byte>, k: Cursor, m: Machine)
    requires Follows(k, m) && (k.state == PartDataAlmostBoundary || k.state == PartDataBoundary)
    ensures Follows(Deliver(k, Slice(Data, Held(boundary, k.state, k.index))).(state := PartData), Release(boundary, m))
  {
    var r := Release(boundary, m);
    DeliverLog(k, Slice(Data, Held(boundary, k.state, k.index)));
    LagsNothing(PartData, r.log, r.log);
  }

  /** The bytes that carry a match on. */
  predicate Matches(boundary: seq<byte>, k: Cursor, c: byte) {
    if k.state == PartDataBoundary then k.index < |boundary| && c == boundary[k.index] else c == LF
  }

  lemma StepBroken(boundary: seq<byte>, m: Machine, c: byte)
    requires m.state == PartDataAlmostBoundary || m.state == PartDataBoundary
    requires if m.state == PartDataBoundary then !(m.index < |boundary| && c == boundary[m.index]) else c != LF
    ensures Step(boundary, m, c) == Step(boundary, Release(boundary, m), c)
  {
  }

  lemma TurnAgain(boundary: seq<byte>, k: Cursor, c: byte, last: bool)
    requires (k.state == PartDataAlmostBoundary || k.state == PartDataBoundary) && !Matches(boundary, k, c)
    ensures Turn(boundary, k, c, last) ==
              Again(Deliver(k, Slice(Data, Held(boundary, k.state, k.index))).(state := PartData))
  {
  }

  lemma TurnMismatch(boundary: seq<byte>, k: Cursor, m: Machine, c: byte, last: bool)
    requires Follows(k, m) && (k.state == PartDataAlmostBoundary || k.state == PartDataBoundary)
    requires !Matches(boundary, k, c)
    ensures Agrees(boundary, m, c, last, Turn(boundary, k, c, last))
  {
    TurnBroken(boundary, k, m);
    StepBroken(boundary, m, c);
    TurnAgain(boundary, k, c, last);
  }

  lemma TurnMatch(boundary: seq<byte>, k: Cursor, m: Machine, c: byte, last: bool)
    requires Follows(k, m) && (k.state == PartDataAlmostBoundary || k.state == PartDataBoundary)
    requires Matches(boundary, k, c)
    ensures Agrees(boundary, m, c, last, Turn(boundary, k, c, last))
  {
    if k.state == PartDataBoundary && k.index + 1 == |boundary| {
      DeliverLog(k, PartEnd);
    }
  }

  lemma TurnOpening(boundary: seq<byte>, k: Cursor, m: Machine, c: byte, last: bool)
    requires Follows(k, m) && k.state == StartBoundary
    ensures Agrees(boundary, m, c, last, Turn(boundary, k, c, last))
  {
    if k.index == |boundary| + 1 && c == LF {
      DeliverLog(k, PartBegin);
    } else {
      assert Turn(boundary, k, c, last).k.trace == k.trace;
    }
  }

  lemma TurnStart(boundary: seq<byte>, k: Cursor, m: Machine, c: byte, last: bool)
    requires Follows(k, m) && k.state == Start
    ensures Agrees(boundary, m, c, last, Turn(boundary, k, c, last))
  {
    TurnOpening(boundary, Enter(k, c), m.(state := StartBoundary, index := 0), c, last);
  }

  lemma TurnNextPart(boundary: seq<byte>, k: Cursor, m: Machine, c: byte, last: bool)
    requires Follows(k, m) && k.state == PartDataEnd
    ensures Agrees(boundary, m, c, last, Turn(boundary, k, c, last))
  {
    if c == LF { DeliverLog(k, PartBegin); }
  }

  lemma TurnClose(boundary: seq<byte>, k: Cursor, m: Machine, c: byte, last: bool)
    requires Follows(k, m) && k.state == PartDataFinalHyphen
    ensures Agrees(boundary, m, c, last, Turn(boundary, k, c, last))
  {
    if c == HYPHEN { DeliverLog(k, BodyEnd); }
  }

  /** The states in which no callback is made. */
  lemma TurnSilent(boundary: seq<byte>, k: Cursor, m: Machine, c: byte, last: bool)
    requires Follows(k, m)
    requires k.state in {HeadersAlmostDone, HeaderValueAlmostDone, PartDataAlmostEnd, End}
    ensures Agrees(boundary, m, c, last, Turn(boundary, k, c, last))
  {
    var t := Turn(boundary, k, c, last);
    assert t.k.trace == k.trace && t.k.pending == [];
  }

  lemma TurnFollows(boundary: seq<byte>, k: Cursor, m: Machine, c: byte, last: bool)
    requires Follows(k, m)
    ensures Agrees(boundary, m, c, last, Turn(boundary, k, c, last))
  {
    match k.state
    case HeaderFieldStart => TurnNameStart(boundary, k, m, c, last);
    case HeaderField => TurnName(boundary, k, m, c, last);
    case HeaderValueStart => TurnValueStart(boundary, k, m, c, last);
    case HeaderValue => TurnValue(boundary, k, m, c, last);
    case PartDataStart => TurnDataStart(boundary, k, m, c, last);
    case PartData => TurnData(boundary, k, m, c, last);
    case PartDataAlmostBoundary | PartDataBoundary =>
      if Matches(boundary, k, c) {
        TurnMatch(boundary, k, m, c, last);
      } else {
        TurnMismatch(boundary, k, m, c, last);
      }
    case Start => TurnStart(boundary, k, m, c, last);
    case StartBoundary => TurnOpening(boundary, k, m, c, last);
    case PartDataEnd => TurnNextPart(boundary, k, m, c, last);
    case PartDataFinalHyphen => TurnClose(boundary, k, m, c, last);
    case _ => TurnSilent(boundary, k, m, c, last);
  }

  /** Only a byte that broke a match is read twice. */
  lemma AgainOnlyOnce(boundary: seq<byte>, k: Cursor, c: byte, last: bool)
    ensures var t := Turn(boundary, k, c, last);
            t.Again? ==> k.state != PartData && t.k.state == PartData
  {
  }

  // ---------------------------------------------------------------- callbacks in order

  ghost predicate InOrder(k: Cursor) {
    PhaseFits(k.state, PhaseOf(k.trace))
  }

  lemma EnterInOrder(k: Cursor, c: byte)
    requires InOrder(k)
    ensures InOrder(Enter(k, c))
  {
    PhaseSnoc(k.trace, HeadersComplete);
  }

  /** A callback that the phase allows, and the state after it. */
  lemma DeliverInOrder(k: Cursor, e: Event, s: State, p: Phase)
    requires PhaseOf(k.trace) == p && PhaseFits(s, After(p, e))
    ensures InOrder(Deliver(k, e).(state := s))
  {
    PhaseSnoc(k.trace, e);
  }

  lemma CollectingInOrder(boundary: seq<byte>, k: Cursor, c: byte, last: bool, p: Phase)
    requires PhaseOf(k.trace) == p && PhaseFits(k.state, p) && Collecting(k.state)
    ensures InOrder(Dispatch(boundary, k, c, last).k)
  {
    var e := Slice(Collected(k.state), k.pending);
    if k.state == HeaderField && c == COLON {
      DeliverInOrder(k, e, HeaderValueStart, p);
    } else if k.state == HeaderValue && c == CR {
      DeliverInOrder(k, e, HeaderValueAlmostDone, p);
    } else if k.state == PartData && c == CR {
      DeliverInOrder(k, e, PartDataAlmostBoundary, p);
    } else if last {
      DeliverInOrder(k, Slice(Collected(k.state), k.pending + [c]), k.state, p);
    }
  }

  lemma HeldInOrder(boundary: seq<byte>, k: Cursor, c: byte, last: bool, p: Phase)
    requires PhaseOf(k.trace) == p == InBody && (k.state == PartDataAlmostBoundary || k.state == PartDataBoundary)
    ensures InOrder(Dispatch(boundary, k, c, last).k)
  {
    if !Matches(boundary, k, c) {
      DeliverInOrder(k, Slice(Data, Held(boundary, k.state, k.index)), PartData, p);
    } else if k.state == PartDataBoundary && k.index + 1 == |boundary| {
      DeliverInOrder(k, PartEnd, PartDataAlmostEnd, p);
    }
  }

  lemma BetweenInOrder(boundary: seq<byte>, k: Cursor, c: byte, last: bool, p: Phase)
    requires PhaseOf(k.trace) == p && PhaseFits(k.state, p) && !Collecting(k.state)
    ensures InOrder(Dispatch(boundary, k, c, last).k)
  {
    if k.state == StartBoundary || k.state == PartDataEnd {
      DeliverInOrder(k, PartBegin, HeaderFieldStart, p);
    } else if k.state == PartDataFinalHyphen {
      DeliverInOrder(k, BodyEnd, End, p);
    } else if k.state == PartDataAlmostBoundary || k.state == PartDataBoundary {
      HeldInOrder(boundary, k, c, last, p);
    }
  }

  /** Every turn keeps the callbacks in the language of traces, at the place the state says. */
  lemma TurnInOrder(boundary: seq<byte>, k: Cursor, c: byte, last: bool)
    requires InOrder(k)
    ensures InOrder(Turn(boundary, k, c, last).k)
  {
    EnterInOrder(k, c);
    var e := Enter(k, c);
    if Collecting(e.state) {
      CollectingInOrder(boundary, e, c, last, PhaseOf(e.trace));
    } else {
      BetweenInOrder(boundary, e, c, last, PhaseOf(e.trace));
    }
  }

  // ---------------------------------------------------------------- whole buffers

  /** `left` is the number of bytes not consumed: zero unless a byte was rejected. */
  datatype Played = Played(k: Cursor, left: nat)

  /** The turns of the loop over `w`, which is the end of the buffer or more of it follows. */
  function Play(boundary: seq<byte>, k: Cursor, w: seq<byte>, ends: bool): Played
    decreases |w|, if k.state == PartData then 0 else 1
  {
    if w == [] then Played(k, 0)
    else
      var t := Turn(boundary, k, w[0], ends && |w| == 1);
      AgainOnlyOnce(boundary, k, w[0], ends && |w| == 1);
      match t
      case Stop(k') => Played(k', |w|)
      case Forward(k') => Play(boundary, k', w[1..], ends)
      case Again(k') => Play(boundary, k', w, ends)
  }

  /** The turn at `i` in a buffer. */
  lemma PlayTurn(boundary: seq<byte>, k: Cursor, buf: seq<byte>, i: nat)
    requires i < |buf|
    ensures var t := Turn(boundary, k, buf[i], i + 1 == |buf|);
            && (t.Again? ==> k.state != PartData && t.k.state == PartData)
            && Play(boundary, k, buf[i..], true) ==
                 match t
                 case Stop(k') => Played(k', |buf| - i)
                 case Forward(k') => Play(boundary, k', buf[i + 1..], true)
                 case Again(k') => Play(boundary, k', buf[i..], true)
  {
    assert buf[i..][1..] == buf[i + 1..];
  }

  /** What the loop makes of some bytes, next to what the one-byte machine makes of them. */
  ghost predicate Tracks(p: Played, o: Outcome, level: bool) {
    && p.left == o.left && p.k.state == o.m.state && p.k.index == o.m.index
    && (o.left == 0 ==> Follows(p.k, o.m) && (level ==> p.k.pending == []))
    && (o.left > 0 ==> Lacks(p.k.state, o.m.log, LogOf(p.k), p.k.pending))
  }

  /**
    The loop refines the one-byte machine: the same state, index and rejected byte; level
    with it at the end of a buffer; and short of exactly the undelivered slice when a byte
    was rejected.
   */
  lemma {:induction false} PlayFollows(boundary: seq<byte>, k: Cursor, m: Machine, w: seq<byte>, ends: bool)
    requires Follows(k, m)
    ensures Tracks(Play(boundary, k, w, ends), RunOn(boundary, m, w), ends && w != [])
    decreases |w|, if k.state == PartData then 0 else 1
  {
    if w != [] {
      var last := ends && |w| == 1;
      TurnFollows(boundary, k, m, w[0], last);
      AgainOnlyOnce(boundary, k, w[0], last);
      match Turn(boundary, k, w[0], last)
      case Stop(_) =>
      case Forward(k') => PlayFollows(boundary, k', Step(boundary, m, w[0]).m, w[1..], ends);
      case Again(k') => PlayFollows(boundary, k', Release(boundary, m), w, ends);
    }
  }

  lemma {:induction false} PlayInOrder(boundary: seq<byte>, k: Cursor, w: seq<byte>, ends: bool)
    requires InOrder(k)
    ensures InOrder(Play(boundary, k, w, ends).k)
    decreases |w|, if k.state == PartData then 0 else 1
  {
    if w != [] {
      var last := ends && |w| == 1;
      TurnInOrder(boundary, k, w[0], last);
      AgainOnlyOnce(boundary, k, w[0], last);
      match Turn(boundary, k, w[0], last)
      case Stop(_) =>
      case Forward(k') => PlayInOrder(boundary, k', w[1..], ends);
      case Again(k') => PlayInOrder(boundary, k', w, ends);
    }
  }
}
