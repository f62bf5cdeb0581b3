/** The single-shot orchestrator hook: up to three calls of the backend stub,
    exponential backoff between them, cancellation through one abort
    controller, and a history save on success.

    The hook's state is a plain record updated in program order. A run is
    driven by the stub's outcome for each attempt and by one flag per
    backoff wait saying whether `abort()` was called during it; the waits
    themselves are recorded as a trace of delays. Calling `abort()` while a
    stub call is pending is what makes that call settle as `AbortError`,
    so that outcome applies the hook's `abort()` transition first. */
module GenerationHook {
  import opened Types
  import HistoryStore
  import MockApi

  const MaxRetries: nat := 3
  const InitialRetryDelay: nat := 1000
  const UnknownError: string := "Unknown error occurred"

  /** `isGenerating`, `error`, `retryCount`, and whether the abort
      controller reference is set. */
  datatype HookState = HookState(
    isGenerating: bool,
    error: Option<string>,
    retryCount: nat,
    hasController: bool)

  /** The state a fresh hook starts in, and the one every finished run
      that did not fail for good returns to. */
  const Idle: HookState := HookState(false, None, 0, false)

  /** One call of `generate`: its return value, the state and history store
      it leaves, the state seen while each attempt is pending, and the
      backoff delays waited, in order. */
  datatype Run = Run(
    result: Option<Generation>,
    state: HookState,
    store: HistoryStore.Store,
    pending: seq<HookState>,
    delays: seq<nat>)

  function Pow2(n: nat): nat {
    if n == 0 then 1 else 2 * Pow2(n - 1)
  }

  /** The wait after failed attempt `attempt`: `INITIAL_RETRY_DELAY * 2^(attempt-1)`. */
  function Backoff(attempt: nat): nat
    requires attempt >= 1
  {
    InitialRetryDelay * Pow2(attempt - 1)
  }

  /** `err.message || 'Unknown error occurred'`. */
  function ErrorMessage(message: string): (m: string)
    ensures m != ""
    ensures message == "" ==> m == UnknownError
    ensures message != "" ==> m == message
  {
    if message == "" then UnknownError else message
  }

  /** `abort()`: only acts when a controller is set. */
  function Abort(s: HookState): (s': HookState)
    ensures s.hasController ==> s' == Idle
    ensures !s.hasController ==> s' == s
  {
    if s.hasController then HookState(false, None, 0, false) else s
  }

  /** The first four statements of `generate`. */
  function Begin(s: HookState): (s': HookState)
    ensures s'.isGenerating && s'.error.None? && s'.retryCount == 0 && s'.hasController
  {
    HookState(true, None, 0, true)
  }

  /** What holds whenever an attempt is about to start. */
  predicate InFlight(s: HookState) {
    s.isGenerating && s.error.None? && s.hasController
  }

  /** `attemptGeneration(attempt)`. */
  function Attempt(
    s: HookState,
    store: HistoryStore.Store,
    attempt: nat,
    outcomes: seq<MockApi.StubResult>,
    backoffAborts: seq<bool>,
    writeOk: bool): (run: Run)
    requires InFlight(s)
    requires 1 <= attempt <= MaxRetries
    requires |outcomes| >= MaxRetries && |backoffAborts| >= MaxRetries - 1
    ensures 1 <= |run.pending| <= MaxRetries - attempt + 1
    ensures forall i :: 0 <= i < |run.pending| ==> run.pending[i] == HookState(true, None, attempt + i, true)
    ensures var last := attempt - 2 + |run.pending|;
            && (forall i :: attempt - 1 <= i < last ==> outcomes[i].Failed? && !backoffAborts[i])
            && (run.result.Some? <==> outcomes[last].Resolved?)
            && (run.result.Some? ==> run.result.value == outcomes[last].response
                                     && run.store == HistoryStore.Save(store, outcomes[last].response, writeOk))
            && (run.result.None? ==> run.store == store)
            && (run.state.error.Some? <==> last == MaxRetries - 1 && outcomes[last].Failed?)
            && (run.state.error.Some? ==> run.state.error.value == ErrorMessage(outcomes[last].message))
            && (run.state.error.None? ==> run.state == Idle)
            && (outcomes[last].Failed? && last < MaxRetries - 1 ==> backoffAborts[last])
            && (|run.delays| == |run.pending| <==> outcomes[last].Failed? && last < MaxRetries - 1)
    ensures |run.pending| - 1 <= |run.delays| <= |run.pending|
    ensures forall i :: 0 <= i < |run.delays| ==> run.delays[i] == Backoff(attempt + i)
    ensures !run.state.isGenerating && run.state.retryCount == 0 && !run.state.hasController
    decreases MaxRetries - attempt
  {
    var current := s.(retryCount := attempt);
    match outcomes[attempt - 1]
    case Resolved(response) =>
      Run(Some(response), Idle, HistoryStore.Save(store, response, writeOk), [current], [])
    case AbortError =>
      var afterAbort := Abort(current);
      Run(None, afterAbort.(isGenerating := false, error := None, retryCount := 0), store, [current], [])
    case Failed(message) =>
      if attempt < MaxRetries then
        var delay := Backoff(attempt);
        if backoffAborts[attempt - 1] then
          var afterAbort := Abort(current);
          Run(None, afterAbort.(isGenerating := false, error := None, retryCount := 0), store, [current], [delay])
        else
          var rest := Attempt(current, store, attempt + 1, outcomes, backoffAborts, writeOk);
          rest.(pending := [current] + rest.pending, delays := [delay] + rest.delays)
      else
        Run(None, HookState(false, Some(ErrorMessage(message)), 0, false), store, [current], [])
  }

  /** `generate(request)`. The request only reaches the stub, whose outcomes
      are given; the prior state is entirely overwritten. */
  function Generate(
    s: HookState,
    store: HistoryStore.Store,
    outcomes: seq<MockApi.StubResult>,
    backoffAborts: seq<bool>,
    writeOk: bool): (run: Run)
    requires |outcomes| >= MaxRetries && |backoffAborts| >= MaxRetries - 1
    ensures 1 <= |run.pending| <= MaxRetries
    ensures forall i :: 0 <= i < |run.pending| ==> run.pending[i] == HookState(true, None, i + 1, true)
    ensures var last := |run.pending| - 1;
            && (forall i :: 0 <= i < last ==> outcomes[i].Failed? && !backoffAborts[i])
            && (run.result.Some? <==> outcomes[last].Resolved?)
            && (run.result.Some? ==> run.result.value == outcomes[last].response
                                     && run.store == HistoryStore.Save(store, outcomes[last].response, writeOk))
            && (run.result.None? ==> run.store == store)
            && (run.state.error.Some? <==> last == MaxRetries - 1 && outcomes[last].Failed?)
            && (run.state.error.Some? ==> run.state.error.value == ErrorMessage(outcomes[last].message))
            && (run.state.error.None? ==> run.state == Idle)
            && (outcomes[last].Failed? && last < MaxRetries - 1 ==> backoffAborts[last])
            && (|run.delays| == |run.pending| <==> outcomes[last].Failed? && last < MaxRetries - 1)
    ensures |run.pending| - 1 <= |run.delays| <= |run.pending|
    ensures forall i :: 0 <= i < |run.delays| ==> run.delays[i] == Backoff(i + 1)
    ensures !run.state.isGenerating && run.state.retryCount == 0 && !run.state.hasController
  {
    Attempt(Begin(s), store, 1, outcomes, backoffAborts, writeOk)
  }

  // ---------------------------------------------------------------------
  // Lemmas

  /** The only waits are 1000 ms and then 2000 ms; there is never a third. */
  lemma BackoffDelays(
    s: HookState, store: HistoryStore.Store,
    outcomes: seq<MockApi.StubResult>, backoffAborts: seq<bool>, writeOk: bool)
    requires |outcomes| >= MaxRetries && |backoffAborts| >= MaxRetries - 1
    ensures Generate(s, store, outcomes, backoffAborts, writeOk).delays <= [1000, 2000]
  {
    assert Backoff(1) == 1000 && Backoff(2) == 2000;
  }

  /** Three failures in a row surface the third one's message and save
      nothing. */
  lemma ThreeFailuresSurfaceLastMessage(
    s: HookState, store: HistoryStore.Store,
    m1: string, m2: string, m3: string, backoffAborts: seq<bool>, writeOk: bool)
    requires |backoffAborts| >= MaxRetries - 1
    requires !backoffAborts[0] && !backoffAborts[1]
    ensures var run := Generate(s, store, [MockApi.Failed(m1), MockApi.Failed(m2), MockApi.Failed(m3)], backoffAborts, writeOk);
            && run.result.None?
            && run.store == store
            && run.state == HookState(false, Some(ErrorMessage(m3)), 0, false)
            && run.delays == [1000, 2000]
            && |run.pending| == 3
  {
    var outcomes := [MockApi.Failed(m1), MockApi.Failed(m2), MockApi.Failed(m3)];
    BackoffDelays(s, store, outcomes, backoffAborts, writeOk);
  }

  /** `abort()` after a final failure does nothing: that path already
      dropped the controller, so the error stays visible. */
  lemma AbortAfterFinalFailureKeepsError(
    s: HookState, store: HistoryStore.Store,
    outcomes: seq<MockApi.StubResult>, backoffAborts: seq<bool>, writeOk: bool)
    requires |outcomes| >= MaxRetries && |backoffAborts| >= MaxRetries - 1
    requires Generate(s, store, outcomes, backoffAborts, writeOk).state.error.Some?
    ensures Abort(Generate(s, store, outcomes, backoffAborts, writeOk).state).error.Some?
  {
  }

  /** `abort()` is idempotent. */
  lemma AbortIdempotent(s: HookState)
    ensures Abort(Abort(s)) == Abort(s)
  {
  }

  /** An `AbortError` settles the call at once: no retry, no error, no save,
      whatever attempt it happened on. */
  lemma AbortedCallIsSilent(
    s: HookState, store: HistoryStore.Store,
    outcomes: seq<MockApi.StubResult>, backoffAborts: seq<bool>, writeOk: bool, k: nat)
    requires |outcomes| >= MaxRetries && |backoffAborts| >= MaxRetries - 1
    requires k < MaxRetries && outcomes[k].AbortError?
    requires forall i :: 0 <= i < k ==> outcomes[i].Failed? && !backoffAborts[i]
    ensures var run := Generate(s, store, outcomes, backoffAborts, writeOk);
            run.result.None? && run.state == Idle && run.store == store && |run.pending| == k + 1
  {
  }

  /** The stub's outcomes for a run of `generate`, one oracle per attempt. */
  function StubOutcomes(request: GenerationRequest, oracles: seq<MockApi.StubOracle>): seq<MockApi.StubResult>
    requires forall i :: 0 <= i < |oracles| ==> MockApi.ValidOracle(oracles[i])
  {
    seq(|oracles|, i requires 0 <= i < |oracles| => MockApi.GenerateImage(request, oracles[i]))
  }

  /** Against the backend stub, a returned generation echoes the request's
      prompt and style and is the one now at the head of the history. */
  lemma GenerateEchoesRequest(
    s: HookState, store: HistoryStore.Store, request: GenerationRequest,
    oracles: seq<MockApi.StubOracle>, backoffAborts: seq<bool>)
    requires |oracles| >= MaxRetries && |backoffAborts| >= MaxRetries - 1
    requires forall i :: 0 <= i < |oracles| ==> MockApi.ValidOracle(oracles[i])
    ensures var run := Generate(s, store, StubOutcomes(request, oracles), backoffAborts, true);
            run.result.Some? ==>
              && run.result.value.prompt == request.prompt
              && run.result.value.style == request.style
              && HistoryStore.Load(run.store)[0] == run.result.value
  {
  }

  /** Failing twice and then succeeding returns the third call's generation,
      after pending states with retry counts 1, 2, 3 and waits of 1000 ms
      and 2000 ms. */
  lemma SucceedOnThirdAttempt(
    s: HookState, store: HistoryStore.Store, request: GenerationRequest,
    oracles: seq<MockApi.StubOracle>, writeOk: bool)
    requires |oracles| == MaxRetries
    requires forall i :: 0 <= i < |oracles| ==> MockApi.ValidOracle(oracles[i])
    requires forall i :: 0 <= i < |oracles| ==> !oracles[i].aborted
    requires oracles[0].failRoll < MockApi.ErrorRate && oracles[1].failRoll < MockApi.ErrorRate
    requires oracles[2].failRoll >= MockApi.ErrorRate
    ensures var run := Generate(s, store, StubOutcomes(request, oracles), [false, false], writeOk);
            && run.result.Some?
            && run.result.value.style == request.style
            && run.result.value.prompt == request.prompt
            && |run.pending| == 3 && run.pending[2].retryCount == 3
            && run.delays == [1000, 2000]
            && run.state == Idle
  {
    var outcomes := StubOutcomes(request, oracles);
    BackoffDelays(s, store, outcomes, [false, false], writeOk);
    assert outcomes[0].Failed? && outcomes[1].Failed? && outcomes[2].Resolved?;
  }
}
