/**
  The component adapter's promise chains as a transition system. Every continuation that
  is ready may fire next, in any order; the guest's dispatches, the chunk callbacks and the
  session calls settle when they please.
 */
module StreamAdapter {
  import opened Basics

  /** A useSession() in the chain: its continuation waits, runs, and settles. */
  datatype Session = Queued | Applying | Applied | Failed

  datatype Result = Done | DispatchError(error: nat) | CallbackError(error: nat) | ChainError

  /** Where a stream() call stands; `Sending` is a chunk whose callback has not settled. */
  datatype Phase = Waiting | Running | Sending | Returned(outcome: Result) | Settled(result: Result)

  /**
    `chain` is how many sessions were queued before the call, `ran` whether its dispatch was
    started, `failure` the last error of its own chunk callback, `released` whether the
    promise that the next call waits for has settled.
   */
  datatype Call = Call(chain: nat, phase: Phase, ran: bool, failure: Option<nat>, released: bool)

  /** A plain handle() call: it waits for the chain only. */
  datatype Request = Request(chain: nat, dispatched: bool, rejected: bool)

  datatype Chunk = Chunk(from: nat, to: nat, data: nat)

  datatype State = State(
    sessions: seq<Session>,
    calls: seq<Call>,
    requests: seq<Request>,
    sink: Option<nat>,
    sinkError: Option<nat>,
    started: seq<nat>,
    delivered: seq<Chunk>)

  const INITIAL := State([], [], [], None, None, [], [])

  datatype Step =
    | UseSession
    | BeginSession(i: nat)
    | EndSession(i: nat, ok: bool)
    | SkipSession(i: nat)
    | Handle
    | DispatchRequest(i: nat)
    | RejectRequest(i: nat)
    | Stream
    | StartRun(i: nat)
    | RejectCall(i: nat)
    | SendChunk(i: nat, data: nat)
    | CallbackSettles(i: nat, error: Option<nat>)
    | DispatchSettles(i: nat, outcome: Result)
    | FinishRun(i: nat)
    | Release(i: nat)

  /** The promise `chain` as it was when `n` sessions had been queued. */
  predicate ChainFulfilled(s: State, n: nat) {
    n <= |s.sessions| && (n == 0 || s.sessions[n - 1] == Applied)
  }

  predicate ChainRejected(s: State, n: nat) {
    0 < n <= |s.sessions| && s.sessions[n - 1] == Failed
  }

  predicate Enabled(s: State, a: Step) {
    match a
    case UseSession => true
    case BeginSession(i) => i < |s.sessions| && s.sessions[i] == Queued && ChainFulfilled(s, i)
    case EndSession(i, _) => i < |s.sessions| && s.sessions[i] == Applying
    case SkipSession(i) => i < |s.sessions| && s.sessions[i] == Queued && ChainRejected(s, i)
    case Handle => true
    case DispatchRequest(i) => i < |s.requests| && Open(s.requests[i]) && ChainFulfilled(s, s.requests[i].chain)
    case RejectRequest(i) => i < |s.requests| && Open(s.requests[i]) && ChainRejected(s, s.requests[i].chain)
    case Stream => true
    case StartRun(i) =>
      && i < |s.calls| && s.calls[i].phase == Waiting
      && ChainFulfilled(s, s.calls[i].chain) && (i == 0 || s.calls[i - 1].released)
    case RejectCall(i) => i < |s.calls| && s.calls[i].phase == Waiting && ChainRejected(s, s.calls[i].chain)
    case SendChunk(i, _) => i < |s.calls| && s.calls[i].phase == Running
    case CallbackSettles(i, _) => i < |s.calls| && s.calls[i].phase == Sending
    case DispatchSettles(i, outcome) =>
      i < |s.calls| && s.calls[i].phase == Running && (outcome == Done || outcome.DispatchError?)
    case FinishRun(i) => i < |s.calls| && s.calls[i].phase.Returned?
    case Release(i) => i < |s.calls| && s.calls[i].phase.Settled? && !s.calls[i].released
  }

  predicate Open(r: Request) {
    !r.dispatched && !r.rejected
  }

  function SetSession(s: State, i: nat, x: Session): State
    requires i < |s.sessions|
  {
    s.(sessions := s.sessions[i := x])
  }

  function SetPhase(s: State, i: nat, p: Phase): State
    requires i < |s.calls|
  {
    s.(calls := s.calls[i := s.calls[i].(phase := p)])
  }

  function Apply(s: State, a: Step): State
    requires Enabled(s, a)
  {
    match a
    case UseSession => s.(sessions := s.sessions + [Queued])
    case BeginSession(i) => SetSession(s, i, Applying)
    case EndSession(i, ok) => SetSession(s, i, if ok then Applied else Failed)
    case SkipSession(i) => SetSession(s, i, Failed)
    case Handle => s.(requests := s.requests + [Request(|s.sessions|, false, false)])
    case DispatchRequest(i) => s.(requests := s.requests[i := s.requests[i].(dispatched := true)])
    case RejectRequest(i) => s.(requests := s.requests[i := s.requests[i].(rejected := true)])
    case Stream => s.(calls := s.calls + [Call(|s.sessions|, Waiting, false, None, false)])
    case StartRun(i) =>
      s.(calls := s.calls[i := s.calls[i].(phase := Running, ran := true)],
         sink := Some(i), sinkError := None, started := s.started + [i])
    case RejectCall(i) => SetPhase(s, i, Settled(ChainError))
    case SendChunk(i, data) =>
      // Without a sink the chunk is refused and the guest goes on with the error.
      if s.sink == None then s
      else SetPhase(s, i, Sending).(delivered := s.delivered + [Chunk(i, s.sink.value, data)])
    case CallbackSettles(i, error) =>
      s.(calls := s.calls[i := s.calls[i].(phase := Running,
                                           failure := if error == None then s.calls[i].failure else error)],
         sinkError := if error == None then s.sinkError else error)
    case DispatchSettles(i, outcome) => SetPhase(s, i, Returned(outcome))
    case FinishRun(i) =>
      SetPhase(s, i, Settled(if s.sinkError.Some? then CallbackError(s.sinkError.value)
                             else s.calls[i].phase.outcome)).(sink := None)
    case Release(i) => s.(calls := s.calls[i := s.calls[i].(released := true)])
  }

  predicate Active(c: Call) {
    c.phase.Running? || c.phase.Sending? || c.phase.Returned?
  }

  /** A session has begun only after every session before it was applied. */
  predicate SessionsOk(s: State) {
    forall i, j :: 0 <= i < j < |s.sessions| && (s.sessions[j] == Applying || s.sessions[j] == Applied) ==>
      s.sessions[i] == Applied
  }

  /** Later calls and requests have seen at least the sessions of earlier ones. */
  predicate ChainsOk(s: State) {
    && (forall i :: 0 <= i < |s.calls| ==> s.calls[i].chain <= |s.sessions|)
    && (forall i, j :: 0 <= i < j < |s.calls| ==> s.calls[i].chain <= s.calls[j].chain)
    && (forall i :: 0 <= i < |s.requests| ==> s.requests[i].chain <= |s.sessions|)
    && (forall i :: 0 <= i < |s.requests| && s.requests[i].dispatched ==> ChainFulfilled(s, s.requests[i].chain))
    && (forall i :: 0 <= i < |s.requests| && s.requests[i].rejected ==> ChainRejected(s, s.requests[i].chain))
  }

  /** What a call's record says about itself. */
  predicate CallOk(s: State, c: Call) {
    && (Active(c) ==> c.ran)
    && (c.phase == Waiting ==> !c.ran)
    && (!c.ran ==> c.failure == None)
    && (c.ran ==> ChainFulfilled(s, c.chain))
    && (c.phase.Settled? && !c.ran ==> ChainRejected(s, c.chain) && c.phase.result == ChainError)
    && (c.released ==> c.phase.Settled?)
    && (c.phase.Returned? ==> c.phase.outcome == Done || c.phase.outcome.DispatchError?)
    && (c.phase.Settled? && c.ran ==>
          if c.failure.Some? then c.phase.result == CallbackError(c.failure.value)
          else c.phase.result == Done || c.phase.result.DispatchError?)
  }

  predicate CallsOk(s: State) {
    forall i :: 0 <= i < |s.calls| ==> CallOk(s, s.calls[i])
  }

  /** A call that ran found every earlier call run and settled. */
  predicate OneAtATime(s: State) {
    forall i, j :: 0 <= i < j < |s.calls| && s.calls[j].ran ==> s.calls[i].ran && s.calls[i].phase.Settled?
  }

  /** The shared sink belongs to the running call, and so does the recorded error. */
  predicate SinkOk(s: State) {
    && (s.sink.Some? ==> s.sink.value < |s.calls| && Active(s.calls[s.sink.value]))
    && (forall i :: 0 <= i < |s.calls| && Active(s.calls[i]) ==> s.sink == Some(i) && s.sinkError == s.calls[i].failure)
  }

  /** Dispatches start in call order, and each chunk goes to the callback of the call it came from. */
  predicate HistoryOk(s: State) {
    && (forall i :: 0 <= i < |s.started| ==> s.started[i] < |s.calls| && s.calls[s.started[i]].ran)
    && (forall i, j :: 0 <= i < j < |s.started| ==> s.started[i] < s.started[j])
    && (forall i :: 0 <= i < |s.delivered| ==> s.delivered[i].from == s.delivered[i].to)
  }

  predicate Inv(s: State) {
    SessionsOk(s) && ChainsOk(s) && CallsOk(s) && OneAtATime(s) && SinkOk(s) && HistoryOk(s)
  }

  /** A step that touches neither sessions nor calls nor what is recorded about them. */
  lemma RequestsKeep(s: State, a: Step)
    requires Inv(s) && Enabled(s, a) && (a.Handle? || a.DispatchRequest? || a.RejectRequest?)
    ensures Inv(Apply(s, a))
  {
    var s' := Apply(s, a);
    forall k | 0 <= k < |s'.calls|
      ensures CallOk(s', s'.calls[k])
    {
      assert CallOk(s, s.calls[k]);
    }
  }

  lemma UseSessionKeeps(s: State)
    requires Inv(s)
    ensures Inv(Apply(s, UseSession))
  {
    var s' := Apply(s, UseSession);
    assert forall i :: 0 <= i < |s.calls| ==> CallOk(s, s.calls[i]) ==> CallOk(s', s.calls[i]);
  }

  /** A session that settles: the chain of an earlier call is not disturbed. */
  lemma SetSessionKeeps(s: State, i: nat, x: Session)
    requires Inv(s) && i < |s.sessions| && (s.sessions[i] == Queued || s.sessions[i] == Applying)
    requires x == Failed || (x != Queued && ChainFulfilled(s, i))
    ensures Inv(SetSession(s, i, x))
  {
    var s' := SetSession(s, i, x);
    forall k | 0 <= k < |s.calls|
      ensures CallOk(s', s'.calls[k])
    {
      assert CallOk(s, s.calls[k]);
    }
    forall j, k | 0 <= j < k < |s'.sessions| && (s'.sessions[k] == Applying || s'.sessions[k] == Applied)
      ensures s'.sessions[j] == Applied
    {
      if k == i && j < i - 1 { assert s.sessions[i - 1] == Applied; }
    }
  }

  lemma StreamKeeps(s: State)
    requires Inv(s)
    ensures Inv(Apply(s, Stream))
  {
    var s' := Apply(s, Stream);
    forall k | 0 <= k < |s'.calls|
      ensures CallOk(s', s'.calls[k])
    {
      if k < |s.calls| { assert CallOk(s, s.calls[k]); }
    }
  }

  /** A fulfilled chain was never rejected earlier. */
  lemma FulfilledBefore(s: State, m: nat, n: nat)
    requires SessionsOk(s) && ChainFulfilled(s, n) && m <= n
    ensures ChainFulfilled(s, m) && !ChainRejected(s, m)
  {
  }

  /** The calls before one whose chain is fulfilled and whose predecessor is released have all run. */
  lemma ReadyMeansAlone(s: State, i: nat)
    requires Inv(s) && Enabled(s, StartRun(i))
    ensures forall j :: 0 <= j < i ==> s.calls[j].ran && s.calls[j].phase.Settled?
    ensures forall j :: 0 <= j < |s.calls| ==> !Active(s.calls[j])
    ensures forall j :: i <= j < |s.calls| ==> !s.calls[j].ran
  {
    assert CallOk(s, s.calls[i]);
    if i > 0 {
      var before := s.calls[i - 1];
      assert CallOk(s, before) && before.chain <= s.calls[i].chain;
      FulfilledBefore(s, before.chain, s.calls[i].chain);
      assert before.ran;
    }
    forall j | i < j < |s.calls|
      ensures !s.calls[j].ran
    {
    }
    forall j | 0 <= j < |s.calls|
      ensures !Active(s.calls[j])
    {
      assert CallOk(s, s.calls[j]);
    }
  }

  /** A call's record changes: what the other calls' records say is not touched. */
  lemma CallsKept(s: State, s': State, i: nat)
    requires CallsOk(s) && i < |s.calls| && s'.sessions == s.sessions
    requires |s'.calls| == |s.calls| && CallOk(s', s'.calls[i])
    requires forall k :: 0 <= k < |s.calls| && k != i ==> s'.calls[k] == s.calls[k]
    ensures CallsOk(s')
  {
    forall k | 0 <= k < |s'.calls|
      ensures CallOk(s', s'.calls[k])
    {
      if k != i { assert CallOk(s, s.calls[k]); }
    }
  }

  lemma StartRunHistory(s: State, i: nat)
    requires Inv(s) && Enabled(s, StartRun(i))
    ensures HistoryOk(Apply(s, StartRun(i)))
  {
    ReadyMeansAlone(s, i);
    forall j | 0 <= j < |s.started|
      ensures s.started[j] < i
    {
      assert s.calls[s.started[j]].ran;
    }
  }

  lemma StartRunKeeps(s: State, i: nat)
    requires Inv(s) && Enabled(s, StartRun(i))
    ensures Inv(Apply(s, StartRun(i)))
  {
    ReadyMeansAlone(s, i);
    StartRunHistory(s, i);
    assert CallOk(s, s.calls[i]);
    CallsKept(s, Apply(s, StartRun(i)), i);
  }

  lemma RejectCallKeeps(s: State, i: nat)
    requires Inv(s) && Enabled(s, RejectCall(i))
    ensures Inv(Apply(s, RejectCall(i)))
  {
    assert CallOk(s, s.calls[i]);
    CallsKept(s, Apply(s, RejectCall(i)), i);
  }

  /** No call after an active one has run. */
  lemma ActiveIsLast(s: State, i: nat)
    requires Inv(s) && i < |s.calls| && Active(s.calls[i])
    ensures forall j :: i < j < |s.calls| ==> !s.calls[j].ran
    ensures forall j :: 0 <= j < |s.calls| && Active(s.calls[j]) ==> j == i
  {
    forall j | 0 <= j < |s.calls| && Active(s.calls[j])
      ensures j == i
    {
      assert s.sink == Some(j) && s.sink == Some(i);
    }
  }

  lemma SendChunkKeeps(s: State, i: nat, data: nat)
    requires Inv(s) && Enabled(s, SendChunk(i, data))
    ensures Inv(Apply(s, SendChunk(i, data)))
    ensures s.sink == Some(i) && Apply(s, SendChunk(i, data)).delivered == s.delivered + [Chunk(i, i, data)]
  {
    ActiveIsLast(s, i);
    assert CallOk(s, s.calls[i]);
    CallsKept(s, Apply(s, SendChunk(i, data)), i);
  }

  lemma CallbackKeeps(s: State, i: nat, error: Option<nat>)
    requires Inv(s) && Enabled(s, CallbackSettles(i, error))
    ensures Inv(Apply(s, CallbackSettles(i, error)))
  {
    ActiveIsLast(s, i);
    assert CallOk(s, s.calls[i]);
    CallsKept(s, Apply(s, CallbackSettles(i, error)), i);
  }

  lemma DispatchSettlesKeeps(s: State, i: nat, outcome: Result)
    requires Inv(s) && Enabled(s, DispatchSettles(i, outcome))
    ensures Inv(Apply(s, DispatchSettles(i, outcome)))
  {
    ActiveIsLast(s, i);
    assert CallOk(s, s.calls[i]);
    CallsKept(s, Apply(s, DispatchSettles(i, outcome)), i);
  }

  lemma FinishRunKeeps(s: State, i: nat)
    requires Inv(s) && Enabled(s, FinishRun(i))
    ensures Inv(Apply(s, FinishRun(i)))
  {
    ActiveIsLast(s, i);
    assert CallOk(s, s.calls[i]);
    CallsKept(s, Apply(s, FinishRun(i)), i);
  }

  lemma ReleaseKeeps(s: State, i: nat)
    requires Inv(s) && Enabled(s, Release(i))
    ensures Inv(Apply(s, Release(i)))
  {
    assert CallOk(s, s.calls[i]);
    CallsKept(s, Apply(s, Release(i)), i);
  }

  /** Every step keeps the invariant, whichever continuation fires. */
  lemma StepKeeps(s: State, a: Step)
    requires Inv(s) && Enabled(s, a)
    ensures Inv(Apply(s, a))
  {
    match a
    case UseSession => UseSessionKeeps(s);
    case BeginSession(i) => SetSessionKeeps(s, i, Applying);
    case EndSession(i, ok) => ApplyingIsNext(s, i); SetSessionKeeps(s, i, if ok then Applied else Failed);
    case SkipSession(i) => SetSessionKeeps(s, i, Failed);
    case Handle | DispatchRequest(_) | RejectRequest(_) => RequestsKeep(s, a);
    case Stream => StreamKeeps(s);
    case StartRun(i) => StartRunKeeps(s, i);
    case RejectCall(i) => RejectCallKeeps(s, i);
    case SendChunk(i, data) => SendChunkKeeps(s, i, data);
    case CallbackSettles(i, error) => CallbackKeeps(s, i, error);
    case DispatchSettles(i, outcome) => DispatchSettlesKeeps(s, i, outcome);
    case FinishRun(i) => FinishRunKeeps(s, i);
    case Release(i) => ReleaseKeeps(s, i);
  }

  lemma ApplyingIsNext(s: State, i: nat)
    requires SessionsOk(s) && i < |s.sessions| && s.sessions[i] == Applying
    ensures ChainFulfilled(s, i)
  {
  }

  predicate Legal(s: State, run: seq<Step>)
    decreases |run|
  {
    run == [] || (Enabled(s, run[0]) && Legal(Apply(s, run[0]), run[1..]))
  }

  function After(s: State, run: seq<Step>): State
    requires Legal(s, run)
    decreases |run|
  {
    if run == [] then s else After(Apply(s, run[0]), run[1..])
  }

  lemma {:induction false} RunKeeps(s: State, run: seq<Step>)
    requires Inv(s) && Legal(s, run)
    ensures Inv(After(s, run))
    decreases |run|
  {
    if run != [] {
      StepKeeps(s, run[0]);
      RunKeeps(Apply(s, run[0]), run[1..]);
    }
  }

  /** A settled call reports its own callback's error if there was one. */
  predicate ReportsOwnError(c: Call) {
    c.phase.Settled? && c.failure.Some? ==> c.phase.result == CallbackError(c.failure.value)
  }

  lemma OneActive(s: State, i: nat, j: nat)
    requires Inv(s) && i < |s.calls| && j < |s.calls| && Active(s.calls[i]) && Active(s.calls[j])
    ensures i == j
  {
    ActiveIsLast(s, i);
  }

  lemma OwnError(s: State, i: nat)
    requires Inv(s) && i < |s.calls|
    ensures ReportsOwnError(s.calls[i])
  {
    assert CallOk(s, s.calls[i]);
  }

  /** At most one dispatch is in flight. */
  predicate OneInFlight(s: State) {
    forall i, j :: 0 <= i < |s.calls| && 0 <= j < |s.calls| && Active(s.calls[i]) && Active(s.calls[j]) ==> i == j
  }

  /** Dispatches start in call order. */
  predicate InCallOrder(s: State) {
    forall i, j :: 0 <= i < j < |s.started| ==> s.started[i] < s.started[j]
  }

  /** Every chunk reaches the callback of the call it came from. */
  predicate ChunksArrive(s: State) {
    forall i :: 0 <= i < |s.delivered| ==> s.delivered[i].from == s.delivered[i].to
  }

  lemma InvSerializes(s: State)
    requires Inv(s)
    ensures OneInFlight(s) && InCallOrder(s) && ChunksArrive(s)
    ensures forall i :: 0 <= i < |s.calls| ==> ReportsOwnError(s.calls[i])
  {
    forall i, j | 0 <= i < |s.calls| && 0 <= j < |s.calls| && Active(s.calls[i]) && Active(s.calls[j])
      ensures i == j
    {
      OneActive(s, i, j);
    }
    forall i | 0 <= i < |s.calls|
      ensures ReportsOwnError(s.calls[i])
    {
      OwnError(s, i);
    }
  }

  /**
    Whatever order the continuations fire in: at most one dispatch is in flight, dispatches
    start in call order, every chunk reaches the callback of the call it came from, and a
    settled call reports its own callback's error if there was one.
   */
  lemma {:induction false} Serialized(run: seq<Step>)
    requires Legal(INITIAL, run)
    ensures var s := After(INITIAL, run);
            && OneInFlight(s) && InCallOrder(s) && ChunksArrive(s)
            && forall i :: 0 <= i < |s.calls| ==> ReportsOwnError(s.calls[i])
  {
    RunKeeps(INITIAL, run);
    InvSerializes(After(INITIAL, run));
  }

  /** Every session queued before a dispatch has been applied. */
  predicate SecretsApplied(s: State, n: nat) {
    forall k :: 0 <= k < n ==> k < |s.sessions| && s.sessions[k] == Applied
  }

  lemma FulfilledMeansApplied(s: State, n: nat)
    requires SessionsOk(s) && ChainFulfilled(s, n)
    ensures SecretsApplied(s, n)
  {
  }

  /** Before a call or a request is dispatched, every session queued before it has been applied. */
  lemma {:induction false} SecretsFirst(run: seq<Step>)
    requires Legal(INITIAL, run)
    ensures var s := After(INITIAL, run);
            && (forall i :: 0 <= i < |s.calls| && s.calls[i].ran ==> SecretsApplied(s, s.calls[i].chain))
            && (forall i :: 0 <= i < |s.requests| && s.requests[i].dispatched ==>
                  SecretsApplied(s, s.requests[i].chain))
  {
    RunKeeps(INITIAL, run);
    var s := After(INITIAL, run);
    forall i | 0 <= i < |s.calls| && s.calls[i].ran
      ensures SecretsApplied(s, s.calls[i].chain)
    {
      assert CallOk(s, s.calls[i]);
      FulfilledMeansApplied(s, s.calls[i].chain);
    }
    forall i | 0 <= i < |s.requests| && s.requests[i].dispatched
      ensures SecretsApplied(s, s.requests[i].chain)
    {
      FulfilledMeansApplied(s, s.requests[i].chain);
    }
  }

  /**
    A rejected session settles Promise.all early, and with it the queue, while an earlier
    dispatch may still be running. No later call ever runs then, so nothing overlaps.
   */
  lemma {:induction false} RejectionIsFinal(s: State, i: nat, run: seq<Step>)
    requires Inv(s) && i < |s.calls| && s.calls[i].phase == Settled(ChainError) && Legal(s, run)
    ensures var s' := After(s, run);
            && i < |s'.calls| && !s'.calls[i].ran
            && forall j :: i <= j < |s'.calls| ==> !s'.calls[j].ran
    decreases |run|
  {
    assert CallOk(s, s.calls[i]);
    if run != [] {
      StepKeeps(s, run[0]);
      RejectionIsFinal(Apply(s, run[0]), i, run[1..]);
    } else {
      forall j | i <= j < |s.calls|
        ensures !s.calls[j].ran
      {
      }
    }
  }

  lemma {:induction false} Extend(s: State, run: seq<Step>, a: Step)
    requires Legal(s, run) && Enabled(After(s, run), a)
    ensures Legal(s, run + [a]) && After(s, run + [a]) == Apply(After(s, run), a)
    decreases |run|
  {
    if run == [] {
      assert (run + [a])[1..] == [];
    } else {
      assert (run + [a])[1..] == run[1..] + [a];
      Extend(Apply(s, run[0]), run[1..], a);
    }
  }

  lemma Extended(run: seq<Step>, s: State, a: Step) returns (run': seq<Step>, s': State)
    requires Legal(INITIAL, run) && s == After(INITIAL, run) && Enabled(s, a)
    ensures Legal(INITIAL, run') && s' == After(INITIAL, run') == Apply(s, a)
  {
    Extend(INITIAL, run, a);
    run', s' := run + [a], Apply(s, a);
  }

  /** The early settlement does happen: the second call is released while the first still runs. */
  lemma ReleasedEarly() returns (run: seq<Step>, s: State)
    ensures Legal(INITIAL, run) && s == After(INITIAL, run)
    ensures |s.calls| == 2 && s.calls[1].released && Active(s.calls[0])
  {
    run, s := [], INITIAL;
    run, s := Extended(run, s, Stream);
    run, s := Extended(run, s, StartRun(0));
    run, s := Extended(run, s, UseSession);
    run, s := Extended(run, s, Stream);
    run, s := Extended(run, s, BeginSession(0));
    run, s := Extended(run, s, EndSession(0, false));
    run, s := Extended(run, s, RejectCall(1));
    run, s := Extended(run, s, Release(1));
  }

  /**
    Sessions are not serialized against a dispatch that is already running: one queued after
    the call is applied while the call is active.
   */
  lemma AppliedBesideDispatch() returns (run: seq<Step>, s: State)
    ensures Legal(INITIAL, run) && s == After(INITIAL, run)
    ensures |s.calls| == 1 && Active(s.calls[0]) && s.sessions == [Applied]
  {
    run, s := [], INITIAL;
    run, s := Extended(run, s, Stream);
    run, s := Extended(run, s, StartRun(0));
    run, s := Extended(run, s, UseSession);
    run, s := Extended(run, s, BeginSession(0));
    run, s := Extended(run, s, EndSession(0, true));
  }

  /** Only such sessions can be: what was queued before a running call has been applied before it ran. */
  lemma {:induction false} OnlyLaterSessionsOverlap(run: seq<Step>, i: nat, k: nat)
    requires Legal(INITIAL, run)
    requires var s := After(INITIAL, run);
             i < |s.calls| && Active(s.calls[i]) && k < |s.sessions| && s.sessions[k] != Applied
    ensures After(INITIAL, run).calls[i].chain <= k
  {
    var s := After(INITIAL, run);
    RunKeeps(INITIAL, run);
    assert CallOk(s, s.calls[i]);
    FulfilledMeansApplied(s, s.calls[i].chain);
  }

  /** Steps the outside world takes; all the others are continuations and settlements. */
  predicate External(a: Step) {
    a.UseSession? || a.Handle? || a.Stream? || a.SendChunk?
  }

  /** No continuation is ready and nothing is left to settle. */
  ghost predicate Quiescent(s: State) {
    forall a: Step :: Enabled(s, a) ==> External(a)
  }

  lemma {:induction false} QuietSessions(s: State, i: nat)
    requires Quiescent(s) && i < |s.sessions|
    ensures s.sessions[i] == Applied || s.sessions[i] == Failed
    decreases i
  {
    if i > 0 { QuietSessions(s, i - 1); }
    assert !Enabled(s, BeginSession(i)) && !Enabled(s, EndSession(i, true)) && !Enabled(s, SkipSession(i));
  }

  /**
    Nothing gets stuck: when no continuation is ready, every call has settled and let the
    next one go, whether it succeeded, failed, or never ran.
   */
  lemma {:induction false} QuietCalls(s: State, i: nat)
    requires Inv(s) && Quiescent(s) && i < |s.calls|
    ensures s.calls[i].phase.Settled? && s.calls[i].released
    ensures s.calls[i].ran <==> SecretsApplied(s, s.calls[i].chain)
    decreases i
  {
    if i > 0 { QuietCalls(s, i - 1); }
    QuietWaiting(s, i);
    assert !Enabled(s, CallbackSettles(i, None)) && !Enabled(s, DispatchSettles(i, Done));
    assert !Enabled(s, FinishRun(i)) && !Enabled(s, Release(i));
    RanIffApplied(s, i);
  }

  /** A settled call has run if and only if every session queued before it was applied. */
  lemma RanIffApplied(s: State, i: nat)
    requires Inv(s) && i < |s.calls| && s.calls[i].phase.Settled?
    ensures s.calls[i].ran <==> SecretsApplied(s, s.calls[i].chain)
  {
    assert CallOk(s, s.calls[i]);
    if s.calls[i].ran { FulfilledMeansApplied(s, s.calls[i].chain); }
  }

  lemma QuietWaiting(s: State, i: nat)
    requires Inv(s) && Quiescent(s) && i < |s.calls| && (i == 0 || s.calls[i - 1].released)
    ensures s.calls[i].phase != Waiting
  {
    var n := s.calls[i].chain;
    if n > 0 { QuietSessions(s, n - 1); }
    assert ChainFulfilled(s, n) || ChainRejected(s, n);
    assert !Enabled(s, StartRun(i)) && !Enabled(s, RejectCall(i));
  }

  /** A plain request is then settled too, and was dispatched if and only if its sessions were applied. */
  lemma QuietRequests(s: State, i: nat)
    requires Inv(s) && Quiescent(s) && i < |s.requests|
    ensures !Open(s.requests[i])
    ensures s.requests[i].dispatched <==> SecretsApplied(s, s.requests[i].chain)
  {
    var n := s.requests[i].chain;
    if n > 0 { QuietSessions(s, n - 1); }
    assert ChainFulfilled(s, n) || ChainRejected(s, n);
    assert !Enabled(s, DispatchRequest(i)) && !Enabled(s, RejectRequest(i));
    if ChainFulfilled(s, n) { FulfilledMeansApplied(s, n); }
  }

  /** How many continuations and settlements are still to come. */
  function SessionWork(x: Session): nat {
    match x case Queued => 2 case Applying => 1 case _ => 0
  }

  function CallWork(c: Call): nat {
    match c.phase
    case Waiting => 5
    case Sending => 4
    case Running => 3
    case Returned(_) => 2
    case Settled(_) => if c.released then 0 else 1
  }

  function SessionsWork(xs: seq<Session>): nat {
    if xs == [] then 0 else SessionWork(xs[0]) + SessionsWork(xs[1..])
  }

  function CallsWork(cs: seq<Call>): nat {
    if cs == [] then 0 else CallWork(cs[0]) + CallsWork(cs[1..])
  }

  function RequestsWork(rs: seq<Request>): nat {
    if rs == [] then 0 else (if Open(rs[0]) then 1 else 0) + RequestsWork(rs[1..])
  }

  function Work(s: State): nat {
    SessionsWork(s.sessions) + CallsWork(s.calls) + RequestsWork(s.requests)
  }

  lemma {:induction false} SessionsWorkSet(xs: seq<Session>, i: nat, x: Session)
    requires i < |xs|
    ensures SessionsWork(xs[i := x]) == SessionsWork(xs) - SessionWork(xs[i]) + SessionWork(x)
    decreases |xs|
  {
    if i == 0 {
      assert xs[i := x][1..] == xs[1..];
    } else {
      assert xs[i := x][1..] == xs[1..][i - 1 := x];
      SessionsWorkSet(xs[1..], i - 1, x);
    }
  }

  lemma {:induction false} CallsWorkSet(cs: seq<Call>, i: nat, c: Call)
    requires i < |cs|
    ensures CallsWork(cs[i := c]) == CallsWork(cs) - CallWork(cs[i]) + CallWork(c)
    decreases |cs|
  {
    if i == 0 {
      assert cs[i := c][1..] == cs[1..];
    } else {
      assert cs[i := c][1..] == cs[1..][i - 1 := c];
      CallsWorkSet(cs[1..], i - 1, c);
    }
  }

  lemma {:induction false} RequestsWorkSet(rs: seq<Request>, i: nat, r: Request)
    requires i < |rs| && Open(rs[i]) && !Open(r)
    ensures RequestsWork(rs[i := r]) == RequestsWork(rs) - 1
    decreases |rs|
  {
    if i == 0 {
      assert rs[i := r][1..] == rs[1..];
    } else {
      assert rs[i := r][1..] == rs[1..][i - 1 := r];
      RequestsWorkSet(rs[1..], i - 1, r);
    }
  }

  lemma {:induction false} WorkAppend(xs: seq<Session>, cs: seq<Call>, rs: seq<Request>,
                                      x: Session, c: Call, r: Request)
    ensures SessionsWork(xs + [x]) == SessionsWork(xs) + SessionWork(x)
    ensures CallsWork(cs + [c]) == CallsWork(cs) + CallWork(c)
    ensures RequestsWork(rs + [r]) == RequestsWork(rs) + (if Open(r) then 1 else 0)
    decreases |xs| + |cs| + |rs|
  {
    if xs != [] {
      assert (xs + [x])[1..] == xs[1..] + [x];
      WorkAppend(xs[1..], cs, rs, x, c, r);
    } else if cs != [] {
      assert (cs + [c])[1..] == cs[1..] + [c];
      WorkAppend(xs, cs[1..], rs, x, c, r);
    } else if rs != [] {
      assert (rs + [r])[1..] == rs[1..] + [r];
      WorkAppend(xs, cs, rs[1..], x, c, r);
    }
  }

  /** A step of one call's record. */
  predicate OfCall(a: Step) {
    || a.StartRun? || a.RejectCall? || a.SendChunk? || a.CallbackSettles?
    || a.DispatchSettles? || a.FinishRun? || a.Release?
  }

  lemma OneCallWork(s: State, a: Step)
    requires Inv(s) && Enabled(s, a) && OfCall(a)
    ensures var s' := Apply(s, a);
            && |s'.calls| == |s.calls| && s'.calls == s.calls[a.i := s'.calls[a.i]]
            && s'.sessions == s.sessions && s'.requests == s.requests
            && (if a.SendChunk? then CallWork(s'.calls[a.i]) <= CallWork(s.calls[a.i]) + 1
                else CallWork(s'.calls[a.i]) < CallWork(s.calls[a.i]))
  {
    assert CallOk(s, s.calls[a.i]);
  }

  lemma CallStepWork(s: State, a: Step)
    requires Inv(s) && Enabled(s, a) && OfCall(a)
    ensures if a.SendChunk? then Work(Apply(s, a)) <= Work(s) + 1 else Work(Apply(s, a)) < Work(s)
  {
    OneCallWork(s, a);
    CallsWorkSet(s.calls, a.i, Apply(s, a).calls[a.i]);
  }

  /** Each continuation uses up work; only the outside world adds some, and never more than five. */
  lemma StepWork(s: State, a: Step)
    requires Inv(s) && Enabled(s, a)
    ensures if External(a) then Work(Apply(s, a)) <= Work(s) + 5 else Work(Apply(s, a)) < Work(s)
  {
    match a
    case UseSession | Stream | Handle =>
      WorkAppend(s.sessions, s.calls, s.requests, Queued,
                 Call(|s.sessions|, Waiting, false, None, false), Request(|s.sessions|, false, false));
    case BeginSession(i) => SessionsWorkSet(s.sessions, i, Applying);
    case EndSession(i, ok) => SessionsWorkSet(s.sessions, i, if ok then Applied else Failed);
    case SkipSession(i) => SessionsWorkSet(s.sessions, i, Failed);
    case DispatchRequest(i) => RequestsWorkSet(s.requests, i, s.requests[i].(dispatched := true));
    case RejectRequest(i) => RequestsWorkSet(s.requests, i, s.requests[i].(rejected := true));
    case _ => CallStepWork(s, a);
  }

  function Externals(run: seq<Step>): nat {
    if run == [] then 0 else (if External(run[0]) then 1 else 0) + Externals(run[1..])
  }

  /**
    Every run comes to rest: continuations are at most five for each call from outside, so
    with nothing new every stream() call settles after a bounded number of them.
   */
  lemma {:induction false} ComesToRest(s: State, run: seq<Step>)
    requires Inv(s) && Legal(s, run)
    ensures |run| + Work(After(s, run)) <= Work(s) + 6 * Externals(run)
    decreases |run|
  {
    if run != [] {
      StepKeeps(s, run[0]);
      StepWork(s, run[0]);
      ComesToRest(Apply(s, run[0]), run[1..]);
    }
  }
}
