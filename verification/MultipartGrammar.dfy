/**
  The language of callback traces:
    (part_data_begin, (header_field+, header_value+)*, headers_complete, part_data*, part_data_end)*
    body_end
  where a last header line without a colon may leave header_field callbacks with no
  header_value before headers_complete.
 */
module MultipartGrammar {
  import opened Basics
  import opened MultipartMachine

  datatype Phase = Outside | Begun | Naming | Valuing | InBody | PartOver | Finished | Broken

  function After(p: Phase, e: Event): Phase {
    match e
    case PartBegin => if p == Outside || p == PartOver then Begun else Broken
    case Slice(Field, _) => if p == Begun || p == Naming || p == Valuing then Naming else Broken
    case Slice(Value, _) => if p == Naming || p == Valuing then Valuing else Broken
    case HeadersComplete => if p == Begun || p == Naming || p == Valuing then InBody else Broken
    case Slice(Data, _) => if p == InBody then InBody else Broken
    case PartEnd => if p == InBody then PartOver else Broken
    case BodyEnd => if p == PartOver then Finished else Broken
  }

  function PhaseOf(trace: seq<Event>): Phase {
    if trace == [] then Outside else After(PhaseOf(trace[..|trace| - 1]), trace[|trace| - 1])
  }

  lemma PhaseSnoc(trace: seq<Event>, e: Event)
    ensures PhaseOf(trace + [e]) == After(PhaseOf(trace), e)
  {
    assert (trace + [e])[..|trace|] == trace;
  }

  /** Where the trace may stand while the parser is in each of its states. */
  predicate PhaseFits(s: State, p: Phase) {
    match s
    case Start | StartBoundary => p == Outside
    case HeaderFieldStart => p == Begun || p == Valuing
    case HeaderField | HeadersAlmostDone | PartDataStart => p == Begun || p == Naming || p == Valuing
    case HeaderValueStart => p == Naming
    case HeaderValue => p == Naming || p == Valuing
    case HeaderValueAlmostDone => p == Valuing
    case PartData | PartDataAlmostBoundary | PartDataBoundary => p == InBody
    case PartDataAlmostEnd | PartDataEnd | PartDataFinalHyphen => p == PartOver
    case End => p == Finished
  }

  /** The language is closed under prefixes, and nothing follows body_end. */
  lemma {:induction false} PrefixInLanguage(trace: seq<Event>, n: nat)
    requires n <= |trace| && PhaseOf(trace) != Broken
    ensures PhaseOf(trace[..n]) != Broken
    ensures n < |trace| ==> PhaseOf(trace[..n]) != Finished
    decreases |trace|
  {
    if n < |trace| {
      var k := |trace| - 1;
      if n < k {
        PrefixInLanguage(trace[..k], n);
        assert trace[..k][..n] == trace[..n];
      }
    } else {
      assert trace[..n] == trace;
    }
  }

  /**
    The stricter language of merged logs: exactly one name and one value per header
    line, at most one run of data per part.
   */
  datatype Strict = SOutside | SBegun | SNamed | SValued | SBody | SFilled | SOver | SFinished | SBroken

  function StrictAfter(p: Strict, e: Event): Strict {
    match e
    case PartBegin => if p == SOutside || p == SOver then SBegun else SBroken
    case Slice(Field, _) => if p == SBegun || p == SValued then SNamed else SBroken
    case Slice(Value, _) => if p == SNamed then SValued else SBroken
    case HeadersComplete => if p == SBegun || p == SValued then SBody else SBroken
    case Slice(Data, _) => if p == SBody then SFilled else SBroken
    case PartEnd => if p == SBody || p == SFilled then SOver else SBroken
    case BodyEnd => if p == SOver then SFinished else SBroken
  }

  function StrictOf(items: seq<Event>): Strict {
    if items == [] then SOutside
    else StrictAfter(StrictOf(items[..|items| - 1]), items[|items| - 1])
  }

  lemma StrictSnoc(items: seq<Event>, e: Event)
    ensures StrictOf(items + [e]) == StrictAfter(StrictOf(items), e)
  {
    assert (items + [e])[..|items|] == items;
  }

  /** What the closed items of a log look like in each phase of the raw trace. */
  predicate LogFits(p: Phase, l: Log) {
    var s := StrictOf(l.items);
    match p
    case Outside => s == SOutside && l.open.Nothing?
    case Begun => s == SBegun && l.open.Nothing?
    case Naming => (s == SBegun || s == SValued) && l.open.Run? && l.open.kind == Field
    case Valuing => s == SNamed && l.open.Run? && l.open.kind == Value
    case InBody => s == SBody && (l.open.Run? ==> l.open.kind == Data)
    case PartOver => s == SOver && l.open.Nothing?
    case Finished => s == SFinished && l.open.Nothing?
    case Broken => true
  }

  lemma LogFitsAfterSlice(p: Phase, l: Log, k: Kind, bs: seq<byte>)
    requires LogFits(p, l)
    ensures LogFits(After(p, Slice(k, bs)), Feed(l, Slice(k, bs)))
  {
    if l.open.Run? {
      StrictSnoc(l.items, Slice(l.open.kind, l.open.bytes));
    }
  }

  /** The items a notification is appended to. */
  lemma ItemsFit(p: Phase, l: Log)
    requires LogFits(p, l)
    ensures p == Outside || p == Begun || p == PartOver ==> Closed(l) == Settled(l) == l.items
    ensures p == Naming ==> Settled(l) == l.items
    ensures p == Valuing ==> Settled(l) == Closed(l) && StrictOf(Closed(l)) == SValued
    ensures p == InBody ==> StrictOf(Closed(l)) == SBody || StrictOf(Closed(l)) == SFilled
  {
    if l.open.Run? {
      StrictSnoc(l.items, Slice(l.open.kind, l.open.bytes));
    }
  }

  lemma LogFitsAfterNote(p: Phase, l: Log, e: Event)
    requires LogFits(p, l) && !e.Slice? && After(p, e) != Broken
    ensures LogFits(After(p, e), Feed(l, e))
  {
    ItemsFit(p, l);
    var items := if e == HeadersComplete then Settled(l) else Closed(l);
    StrictSnoc(items, e);
    assert Feed(l, e) == Log(items + [e], Nothing);
  }

  lemma LogFitsAfter(p: Phase, l: Log, e: Event)
    requires LogFits(p, l)
    ensures LogFits(After(p, e), Feed(l, e))
  {
    if e.Slice? {
      LogFitsAfterSlice(p, l, e.kind, e.bytes);
    } else if After(p, e) != Broken {
      LogFitsAfterNote(p, l, e);
    }
  }

  lemma ClosedIsStrict(p: Phase, l: Log)
    requires LogFits(p, l) && p != Broken
    ensures StrictOf(Closed(l)) != SBroken
  {
    if l.open.Run? {
      StrictSnoc(l.items, Slice(l.open.kind, l.open.bytes));
    }
  }

  /**
    Merging a trace of the language gives the strict language: names and values
    alternate one for one, and a name without a value is gone once the headers end.
   */
  lemma {:induction false} MergedIsStrict(trace: seq<Event>)
    requires PhaseOf(trace) != Broken
    ensures LogFits(PhaseOf(trace), Merged(trace))
    ensures StrictOf(Closed(Merged(trace))) != SBroken
  {
    if trace != [] {
      var k := |trace| - 1;
      PrefixInLanguage(trace, k);
      MergedIsStrict(trace[..k]);
      LogFitsAfter(PhaseOf(trace[..k]), Merged(trace[..k]), trace[k]);
    }
    ClosedIsStrict(PhaseOf(trace), Merged(trace));
  }
}
