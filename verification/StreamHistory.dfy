/**
  What a whole run of the adapter has done, told from its steps alone: which dispatches
  were started, which chunks arrived where, and what each call reported.
 */
module StreamHistory {
  import opened Basics
  import opened StreamAdapter

  /** A run's last step. */
  lemma {:induction false} LastStep(s: State, run: seq<Step>)
    requires run != [] && Legal(s, run)
    ensures var n := |run| - 1;
            && Legal(s, run[..n]) && Enabled(After(s, run[..n]), run[n])
            && After(s, run) == Apply(After(s, run[..n]), run[n])
    decreases |run|
  {
    var n := |run| - 1;
    if n > 0 {
      assert run[1..][..n - 1] == run[..n][1..];
      LastStep(Apply(s, run[0]), run[1..]);
    }
  }

  /** The calls whose dispatch a run starts, in the order in which it does. */
  function Starts(run: seq<Step>): seq<nat> {
    if run == [] then []
    else Starts(run[..|run| - 1]) + (if run[|run| - 1].StartRun? then [run[|run| - 1].i] else [])
  }

  /** The chunks that dispatches send in a run, each for the callback of its own call. */
  function ChunksSent(run: seq<Step>): seq<Chunk> {
    if run == [] then []
    else
      var a := run[|run| - 1];
      ChunksSent(run[..|run| - 1]) + (if a.SendChunk? then [Chunk(a.i, a.i, a.data)] else [])
  }

  /** What one step adds to the record. */
  lemma RecordStep(s: State, a: Step)
    requires Inv(s) && Enabled(s, a)
    ensures Apply(s, a).started == s.started + (if a.StartRun? then [a.i] else [])
    ensures Apply(s, a).delivered == s.delivered + (if a.SendChunk? then [Chunk(a.i, a.i, a.data)] else [])
  {
    if a.SendChunk? { SendChunkKeeps(s, a.i, a.data); }
  }

  /** Every dispatch that is started and every chunk that is sent is on record, in order, and nothing else. */
  lemma {:induction false} RecordIsRun(run: seq<Step>)
    requires Legal(INITIAL, run)
    ensures After(INITIAL, run).started == Starts(run)
    ensures After(INITIAL, run).delivered == ChunksSent(run)
    decreases |run|
  {
    if run != [] {
      var n := |run| - 1;
      LastStep(INITIAL, run);
      RecordIsRun(run[..n]);
      RunKeeps(INITIAL, run[..n]);
      RecordStep(After(INITIAL, run[..n]), run[n]);
    }
  }

  lemma StartedStep(s: State, a: Step, i: nat)
    requires Inv(s) && Enabled(s, a) && i < |Apply(s, a).calls|
    requires i < |s.calls| && s.calls[i].ran ==> i in s.started
    ensures Apply(s, a).calls[i].ran ==> i in Apply(s, a).started
  {
    if i < |s.calls| && a == StartRun(i) { assert Apply(s, a).started[|s.started|] == i; }
  }

  /** A call counts as run if and only if the run starts its dispatch. */
  lemma {:induction false} RanIffStarted(run: seq<Step>, i: nat)
    requires Legal(INITIAL, run) && i < |After(INITIAL, run).calls|
    ensures After(INITIAL, run).calls[i].ran <==> i in Starts(run)
    decreases |run|
  {
    RecordIsRun(run);
    RunKeeps(INITIAL, run);
    if run != [] {
      var n := |run| - 1;
      LastStep(INITIAL, run);
      var s := After(INITIAL, run[..n]);
      RunKeeps(INITIAL, run[..n]);
      if i < |s.calls| {
        RanIffStarted(run[..n], i);
        RecordIsRun(run[..n]);
      }
      StartedStep(s, run[n], i);
    }
  }

  /** What the callback of call `i` was given. */
  function DataTo(chunks: seq<Chunk>, i: nat): seq<nat> {
    if chunks == [] then []
    else
      var c := chunks[|chunks| - 1];
      DataTo(chunks[..|chunks| - 1], i) + (if c.to == i then [c.data] else [])
  }

  /** What the dispatch of call `i` sent. */
  function DataSent(run: seq<Step>, i: nat): seq<nat> {
    if run == [] then []
    else
      var a := run[|run| - 1];
      DataSent(run[..|run| - 1], i) + (if a.SendChunk? && a.i == i then [a.data] else [])
  }

  lemma {:induction false} DataToSent(run: seq<Step>, i: nat)
    ensures DataTo(ChunksSent(run), i) == DataSent(run, i)
    decreases |run|
  {
    if run != [] {
      var n := |run| - 1;
      DataToSent(run[..n], i);
      var before := ChunksSent(run[..n]);
      if run[n].SendChunk? {
        assert ChunksSent(run)[..|before|] == before;
      } else {
        assert ChunksSent(run) == before;
      }
    }
  }

  /** Each callback is given exactly the chunks its own dispatch sent, in order. */
  lemma {:induction false} EveryChunkArrives(run: seq<Step>, i: nat)
    requires Legal(INITIAL, run)
    ensures DataTo(After(INITIAL, run).delivered, i) == DataSent(run, i)
  {
    RecordIsRun(run);
    DataToSent(run, i);
  }

  /** The last error of call `i`'s callback. */
  function LastError(run: seq<Step>, i: nat): Option<nat> {
    if run == [] then None
    else
      var a := run[|run| - 1];
      if a.CallbackSettles? && a.i == i && a.error.Some? then a.error else LastError(run[..|run| - 1], i)
  }

  /** How the guest's dispatch for call `i` ended. */
  function Outcome(run: seq<Step>, i: nat): Option<Result> {
    if run == [] then None
    else
      var a := run[|run| - 1];
      if a.DispatchSettles? && a.i == i then Some(a.outcome) else Outcome(run[..|run| - 1], i)
  }

  /** A call's record, told from the last callback error and the outcome of its dispatch. */
  predicate Told(c: Call, error: Option<nat>, outcome: Option<Result>) {
    && c.failure == error
    && (c.phase.Returned? ==> outcome == Some(c.phase.outcome))
    && (c.phase.Settled? && c.ran ==>
          outcome.Some? && c.phase.result == if error.Some? then CallbackError(error.value) else outcome.value)
  }

  /** One step of the call itself. */
  lemma ToldStep(s: State, a: Step, error: Option<nat>, outcome: Option<Result>)
    requires Inv(s) && Enabled(s, a) && OfCall(a) && Told(s.calls[a.i], error, outcome)
    ensures var error' := if a.CallbackSettles? && a.error.Some? then a.error else error;
            var outcome' := if a.DispatchSettles? then Some(a.outcome) else outcome;
            |Apply(s, a).calls| == |s.calls| && Told(Apply(s, a).calls[a.i], error', outcome')
  {
    assert CallOk(s, s.calls[a.i]);
  }

  /** Any other step. */
  lemma OtherStep(s: State, a: Step, i: nat)
    requires Inv(s) && Enabled(s, a) && i < |s.calls| && !(OfCall(a) && a.i == i)
    ensures i < |Apply(s, a).calls| && Apply(s, a).calls[i] == s.calls[i]
  {
  }

  lemma NewCall(s: State, a: Step, i: nat)
    requires Enabled(s, a) && i >= |s.calls|
    ensures i < |Apply(s, a).calls| ==> a.Stream? && Told(Apply(s, a).calls[i], None, None)
    ensures OfCall(a) ==> a.i < i
  {
  }

  /**
    A call reports its own callback's last error, or else the very outcome of its dispatch;
    and it knows of no error that its callback did not raise.
   */
  lemma {:induction false} EveryCallIsTold(run: seq<Step>, i: nat)
    requires Legal(INITIAL, run)
    ensures var s := After(INITIAL, run);
            if i < |s.calls| then Told(s.calls[i], LastError(run, i), Outcome(run, i))
            else LastError(run, i) == None && Outcome(run, i) == None
    decreases |run|
  {
    if run != [] {
      var n := |run| - 1;
      LastStep(INITIAL, run);
      var s, a := After(INITIAL, run[..n]), run[n];
      EveryCallIsTold(run[..n], i);
      RunKeeps(INITIAL, run[..n]);
      if i >= |s.calls| {
        NewCall(s, a, i);
      } else if OfCall(a) && a.i == i {
        ToldStep(s, a, LastError(run[..n], i), Outcome(run[..n], i));
      } else {
        OtherStep(s, a, i);
      }
    }
  }
}
