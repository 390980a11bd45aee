/**
  The multipart parser as a machine that reads one byte at a time.

  Callbacks are recorded in a merged log: consecutive slices of the same kind are
  joined, so the log says which bytes were delivered and between which
  notifications, and not how the buffers happened to be cut.
 */
module MultipartMachine {
  import opened Basics

  const LF: byte := 10
  const CR: byte := 13
  const SPACE: byte := 32
  const HYPHEN: byte := 45
  const COLON: byte := 58
  const CRLF: seq<byte> := [CR, LF]

  datatype State =
    | Start
    | StartBoundary
    | HeaderFieldStart
    | HeaderField
    | HeadersAlmostDone
    | HeaderValueStart
    | HeaderValue
    | HeaderValueAlmostDone
    | PartDataStart
    | PartData
    | PartDataAlmostBoundary
    | PartDataBoundary
    | PartDataAlmostEnd
    | PartDataEnd
    | PartDataFinalHyphen
    | End

  datatype Kind = Field | Value | Data

  /** One callback: a notification, or a slice of bytes of one kind. */
  datatype Event =
    | PartBegin
    | HeadersComplete
    | PartEnd
    | BodyEnd
    | Slice(kind: Kind, bytes: seq<byte>)

  datatype Open = Nothing | Run(kind: Kind, bytes: seq<byte>)

  /** The events so far; `open` is the run of slices that may still grow. */
  datatype Log = Log(items: seq<Event>, open: Open)

  const EMPTY_LOG := Log([], Nothing)

  function Closed(l: Log): seq<Event> {
    if l.open.Nothing? then l.items else l.items + [Slice(l.open.kind, l.open.bytes)]
  }

  /** As Closed, but a name that never got a value is discarded. */
  function Settled(l: Log): seq<Event> {
    if l.open.Run? && l.open.kind == Field then l.items else Closed(l)
  }

  function Feed(l: Log, e: Event): Log {
    match e
    case Slice(k, bs) =>
      if l.open.Run? && l.open.kind == k then l.(open := Run(k, l.open.bytes + bs))
      else Log(Closed(l), Run(k, bs))
    case HeadersComplete => Log(Settled(l) + [e], Nothing)
    case _ => Log(Closed(l) + [e], Nothing)
  }

  /** The merged log of a sequence of callbacks. */
  function Merged(trace: seq<Event>): Log {
    if trace == [] then EMPTY_LOG else Feed(Merged(trace[..|trace| - 1]), trace[|trace| - 1])
  }

  lemma MergedSnoc(trace: seq<Event>, e: Event)
    ensures Merged(trace + [e]) == Feed(Merged(trace), e)
  {
    assert (trace + [e])[..|trace|] == trace;
  }

  function ToLower(c: byte): byte {
    if 'A' as int <= c <= 'Z' as int then c + 32 else c
  }

  predicate IsNameByte(c: byte) {
    c == HYPHEN || 'a' as int <= ToLower(c) <= 'z' as int
  }

  datatype Machine = Machine(state: State, index: nat, log: Log)

  const INITIAL := Machine(Start, 0, EMPTY_LOG)

  datatype StepResult = Next(m: Machine) | Reject(m: Machine)

  /** The bytes withheld from the data callback because they may begin a delimiter. */
  function Held(boundary: seq<byte>, state: State, index: nat): seq<byte> {
    if state == PartDataAlmostBoundary then [CR]
    else if state == PartDataBoundary && index <= |boundary| then CRLF + boundary[..index]
    else []
  }

  function StepStartBoundary(boundary: seq<byte>, m: Machine, c: byte): StepResult {
    if m.index == |boundary| then
      if c != CR then Reject(m) else Next(m.(index := m.index + 1))
    else if m.index == |boundary| + 1 then
      if c != LF then Reject(m) else Next(Machine(HeaderFieldStart, 0, Feed(m.log, PartBegin)))
    else if m.index < |boundary| && c == boundary[m.index] then Next(m.(index := m.index + 1))
    else Reject(m)
  }

  function StepHeaderField(m: Machine, c: byte): StepResult {
    if c == CR then Next(m.(state := HeadersAlmostDone))
    else if c == COLON then Next(m.(state := HeaderValueStart, log := Feed(m.log, Slice(Field, []))))
    else if IsNameByte(c) then Next(m.(log := Feed(m.log, Slice(Field, [c]))))
    else Reject(m)
  }

  function StepHeaderValue(m: Machine, c: byte): StepResult {
    if c == CR then Next(m.(state := HeaderValueAlmostDone, log := Feed(m.log, Slice(Value, []))))
    else Next(m.(log := Feed(m.log, Slice(Value, [c]))))
  }

  function StepPartData(m: Machine, c: byte): StepResult {
    if c == CR then Next(m.(state := PartDataAlmostBoundary, log := Feed(m.log, Slice(Data, []))))
    else Next(m.(log := Feed(m.log, Slice(Data, [c]))))
  }

  /** A false match: the held bytes are data after all, and `c` is read again as data. */
  function Release(boundary: seq<byte>, m: Machine): Machine {
    m.(state := PartData, log := Feed(m.log, Slice(Data, Held(boundary, m.state, m.index))))
  }

  function Step(boundary: seq<byte>, m: Machine, c: byte): StepResult {
    match m.state
    case Start => StepStartBoundary(boundary, m.(state := StartBoundary, index := 0), c)
    case StartBoundary => StepStartBoundary(boundary, m, c)
    case HeaderFieldStart => StepHeaderField(m.(state := HeaderField), c)
    case HeaderField => StepHeaderField(m, c)
    case HeadersAlmostDone => if c == LF then Next(m.(state := PartDataStart)) else Reject(m)
    case HeaderValueStart =>
      if c == SPACE then Next(m) else StepHeaderValue(m.(state := HeaderValue), c)
    case HeaderValue => StepHeaderValue(m, c)
    case HeaderValueAlmostDone => if c == LF then Next(m.(state := HeaderFieldStart)) else Reject(m)
    case PartDataStart =>
      StepPartData(m.(state := PartData, log := Feed(m.log, HeadersComplete)), c)
    case PartData => StepPartData(m, c)
    case PartDataAlmostBoundary =>
      if c == LF then Next(m.(state := PartDataBoundary, index := 0))
      else StepPartData(Release(boundary, m), c)
    case PartDataBoundary =>
      if m.index < |boundary| && c == boundary[m.index] then
        if m.index + 1 == |boundary|
        then Next(Machine(PartDataAlmostEnd, m.index + 1, Feed(m.log, PartEnd)))
        else Next(m.(index := m.index + 1))
      else StepPartData(Release(boundary, m), c)
    case PartDataAlmostEnd =>
      if c == HYPHEN then Next(m.(state := PartDataFinalHyphen))
      else if c == CR then Next(m.(state := PartDataEnd))
      else Reject(m)
    case PartDataFinalHyphen =>
      if c == HYPHEN then Next(m.(state := End, log := Feed(m.log, BodyEnd))) else Reject(m)
    case PartDataEnd =>
      if c == LF then Next(m.(state := HeaderFieldStart, log := Feed(m.log, PartBegin))) else Reject(m)
    case End => Next(m)
  }

  /** `left` is the number of bytes not consumed: zero unless a byte was rejected. */
  datatype Outcome = Outcome(m: Machine, left: nat)

  function RunOn(boundary: seq<byte>, m: Machine, w: seq<byte>): Outcome
    decreases |w|
  {
    if w == [] then Outcome(m, 0)
    else match Step(boundary, m, w[0])
      case Reject(m') => Outcome(m', |w|)
      case Next(m') => RunOn(boundary, m', w[1..])
  }

  /** Reading two inputs in turn is reading their concatenation. */
  lemma {:induction false} RunOnAppend(boundary: seq<byte>, m: Machine, v: seq<byte>, w: seq<byte>)
    ensures var o := RunOn(boundary, m, v);
            RunOn(boundary, m, v + w) ==
              if o.left == 0 then RunOn(boundary, o.m, w) else Outcome(o.m, o.left + |w|)
    ensures RunOn(boundary, m, v).left <= |v|
    decreases |v|
  {
    if v == [] {
      assert v + w == w;
    } else {
      assert (v + w)[1..] == v[1..] + w;
      var s := Step(boundary, m, v[0]);
      if s.Next? {
        RunOnAppend(boundary, s.m, v[1..], w);
      }
    }
  }
}
