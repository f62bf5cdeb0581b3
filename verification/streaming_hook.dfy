/** The streaming orchestrator hook: consumes the stub's chunks in order
    into an observable `{progress, imageUrl, error, isStreaming}` record.
    It has no retry policy. */
module StreamingHook {
  import opened Types
  import opened StreamingApi

  const DefaultStreamingError: string := "Streaming error"

  /** The hook's observable state, plus whether the controller reference
      is set. */
  datatype StreamState = StreamState(
    progress: int,
    imageUrl: Option<string>,
    error: Option<string>,
    isStreaming: bool,
    hasController: bool)

  const Initial: StreamState := StreamState(0, None, None, false, false)

  /** What the `for await` loop receives: the chunks the generator yields,
      then possibly a thrown failure with its message instead of a normal
      end. */
  datatype StreamSource = StreamSource(chunks: seq<StreamChunk>, thrown: Option<string>)

  /** The first statements of `start`, before any chunk is read. */
  function Begin(s: StreamState): (s': StreamState)
    ensures s'.progress == 0 && s'.imageUrl.None? && s'.error.None?
    ensures s'.isStreaming && s'.hasController
  {
    StreamState(0, None, None, true, true)
  }

  /** The `finally` block: the same state change as `abort()`, with the
      controller dropped rather than aborted. */
  function Finish(s: StreamState): StreamState {
    Abort(s)
  }

  /** The loop body for one chunk. */
  function Apply(s: StreamState, c: StreamChunk): (s': StreamState)
    ensures s'.isStreaming == s.isStreaming && s'.hasController == s.hasController
    ensures c.kind == Progress ==> s' == s.(progress := c.progress.GetOr(0))
    ensures c.kind == Final ==> s'.progress == 100 && s'.imageUrl == c.imageUrl && s'.error == s.error
    ensures c.kind == Error ==>
              s'.error == Some(c.error.GetOr(DefaultStreamingError)) && s'.progress == s.progress && s'.imageUrl == s.imageUrl
    ensures c.kind == Intermediate ==> s' == s
  {
    match c.kind
    case Progress => s.(progress := c.progress.GetOr(0))
    case Final => s.(progress := 100, imageUrl := c.imageUrl)
    case Error => s.(error := Some(c.error.GetOr(DefaultStreamingError)))
    case Intermediate => s
  }

  predicate HasError(chunks: seq<StreamChunk>) {
    exists k :: 0 <= k < |chunks| && chunks[k].kind == Error
  }

  /** The `for await` loop: chunks in order, stopping after an error chunk. */
  function Consume(s: StreamState, chunks: seq<StreamChunk>): (s': StreamState)
    ensures s'.isStreaming == s.isStreaming && s'.hasController == s.hasController
    ensures !HasError(chunks) ==> s'.error == s.error
    ensures HasError(chunks) ==> s'.error.Some?
    ensures (forall k :: 0 <= k < |chunks| ==> chunks[k].kind != Final) ==> s'.imageUrl == s.imageUrl
    ensures (forall k :: 0 <= k < |chunks| ==> chunks[k].kind in {Error, Intermediate}) ==> s'.progress == s.progress
    decreases |chunks|
  {
    if chunks == [] then s
    else if chunks[0].kind == Error then Apply(s, chunks[0])
    else
      var rest := chunks[1..];
      assert forall k :: 0 <= k < |rest| ==> rest[k] == chunks[k + 1];
      assert HasError(chunks) <==> HasError(rest);
      Consume(Apply(s, chunks[0]), rest)
  }

  /** `start(req)` over the given source, through the `catch` and
      `finally` blocks. A thrown failure is reached only when no error chunk
      broke the loop first. */
  function Start(s: StreamState, source: StreamSource): (s': StreamState)
    ensures !s'.isStreaming && !s'.hasController
    ensures s'.error.Some? <==> HasError(source.chunks) || source.thrown.Some?
    ensures !HasError(source.chunks) && source.thrown.Some? ==> s'.error == source.thrown
    ensures (forall k :: 0 <= k < |source.chunks| ==> source.chunks[k].kind != Final) ==> s'.imageUrl.None?
  {
    var consumed := Consume(Begin(s), source.chunks);
    var caught :=
      if source.thrown.Some? && !HasError(source.chunks) then consumed.(error := source.thrown)
      else consumed;
    Finish(caught)
  }

  /** `abort()`: leaves progress, image and error as they are. */
  function Abort(s: StreamState): (s': StreamState)
    ensures !s'.isStreaming && !s'.hasController
    ensures s'.progress == s.progress && s'.imageUrl == s.imageUrl && s'.error == s.error
  {
    s.(isStreaming := false, hasController := false)
  }

  // ---------------------------------------------------------------------
  // Lemmas

  /** Consuming a concatenation without an error chunk in its first part is
      consuming one part after the other. */
  lemma {:induction false} ConsumeAppend(s: StreamState, a: seq<StreamChunk>, b: seq<StreamChunk>)
    requires !HasError(a)
    ensures Consume(s, a + b) == Consume(Consume(s, a), b)
    decreases |a|
  {
    if a != [] {
      assert a[0].kind != Error;
      assert (a + b)[1..] == a[1..] + b;
      assert !HasError(a[1..]) by {
        forall k | 0 <= k < |a[1..]| ensures a[1..][k].kind != Error {
          assert a[1..][k] == a[k + 1];
        }
      }
      ConsumeAppend(Apply(s, a[0]), a[1..], b);
    } else {
      assert a + b == b;
    }
  }

  /** Consumption stops at the first error chunk: what follows it is never
      read. */
  lemma ConsumeStopsAtError(s: StreamState, a: seq<StreamChunk>, c: StreamChunk, b: seq<StreamChunk>)
    requires !HasError(a)
    requires c.kind == Error
    ensures Consume(s, a + [c] + b) == Consume(s, a + [c])
    ensures Consume(s, a + [c]).error == Some(c.error.GetOr(DefaultStreamingError))
  {
    assert a + [c] + b == a + ([c] + b);
    ConsumeAppend(s, a, [c] + b);
    ConsumeAppend(s, a, [c]);
  }

  /** The outcome of `start` does not depend on the state it starts from. */
  lemma StartResets(s1: StreamState, s2: StreamState, source: StreamSource)
    ensures Start(s1, source) == Start(s2, source)
  {
  }

  /** Calling `abort()` between any two chunks leaves the same final state as
      not calling it: the abort only matters through the chunks the stub then
      stops yielding. */
  lemma AbortMidStreamSameOutcome(s: StreamState, chunks: seq<StreamChunk>, j: nat)
    requires j <= |chunks|
    requires !HasError(chunks[..j])
    ensures Finish(Consume(Abort(Consume(Begin(s), chunks[..j])), chunks[j..])) == Start(s, StreamSource(chunks, None))
  {
    assert chunks[..j] + chunks[j..] == chunks;
    ConsumeAppend(Begin(s), chunks[..j], chunks[j..]);
    var mid := Consume(Begin(s), chunks[..j]);
    AbortCommutesWithConsume(mid, chunks[j..]);
  }

  lemma {:induction false} AbortCommutesWithConsume(s: StreamState, chunks: seq<StreamChunk>)
    ensures Finish(Consume(Abort(s), chunks)) == Finish(Consume(s, chunks))
    decreases |chunks|
  {
    if chunks != [] {
      assert Apply(Abort(s), chunks[0]) == Abort(Apply(s, chunks[0]));
      if chunks[0].kind != Error {
        AbortCommutesWithConsume(Apply(s, chunks[0]), chunks[1..]);
      }
    }
  }

  /** Consuming one more chunk after an error-free prefix applies it. */
  lemma ConsumeSnoc(s: StreamState, a: seq<StreamChunk>, x: StreamChunk)
    requires !HasError(a)
    ensures Consume(s, a + [x]) == Apply(Consume(s, a), x)
  {
    ConsumeAppend(s, a, [x]);
  }

  /** A complete stub stream leaves progress 100, the final image and no
      error. */
  lemma CompleteStreamShowsImage(s: StreamState, request: GenerationRequest, rolls: seq<real>, abortAt: nat, seed: string)
    requires ValidRolls(rolls)
    requires !AbortSeen(abortAt, Steps + 1)
    requires forall step :: 1 <= step < Steps ==> !ErrorAt(rolls, step)
    ensures Start(s, StreamSource(StreamGenerateImage(request, rolls, abortAt, seed), None)) ==
            StreamState(100, Some(FinalUrl(seed)), None, false, false)
  {
    CompleteStream(request, rolls, abortAt, seed);
    var chunks := StreamGenerateImage(request, rolls, abortAt, seed);
    var pre := chunks[..Steps];
    assert chunks == pre + [FinalChunk(seed)];
    assert forall k :: 0 <= k < |pre| ==> pre[k].kind == Progress;
    ConsumeSnoc(Begin(s), pre, FinalChunk(seed));
  }

  /** The progress shown after the first `n` chunks of a stub stream: the
      last step reached, or one step less when the n-th chunk is the error. */
  function ProgressAfter(chunks: seq<StreamChunk>, n: nat): int
    requires n <= |chunks|
  {
    if n > 0 && chunks[n - 1].kind == Error then (n - 1) * 100 / Steps
    else Min(n, Steps) * 100 / Steps
  }

  /** What chunk `k` of a stub stream can be. */
  lemma StubChunkAt(request: GenerationRequest, rolls: seq<real>, abortAt: nat, seed: string, k: nat)
    requires ValidRolls(rolls)
    requires k < |StreamGenerateImage(request, rolls, abortAt, seed)|
    ensures var chunks := StreamGenerateImage(request, rolls, abortAt, seed);
            || (k < Steps && chunks[k] == ProgressChunk(k + 1))
            || (k + 1 < Steps && k == |chunks| - 1 && chunks[k] == ErrorChunk)
            || (k == Steps && chunks[k] == FinalChunk(seed))
  {
  }

  lemma {:induction false} ConsumePrefixProgress(s: StreamState, request: GenerationRequest, rolls: seq<real>, abortAt: nat, seed: string, n: nat)
    requires ValidRolls(rolls)
    requires n <= |StreamGenerateImage(request, rolls, abortAt, seed)|
    ensures var chunks := StreamGenerateImage(request, rolls, abortAt, seed);
            Consume(Begin(s), chunks[..n]).progress == ProgressAfter(chunks, n)
  {
    if n > 0 {
      var chunks := StreamGenerateImage(request, rolls, abortAt, seed);
      ConsumePrefixProgress(s, request, rolls, abortAt, seed, n - 1);
      StubPrefix(request, rolls, abortAt, seed, n);
      ConsumeSnoc(Begin(s), chunks[..n - 1], chunks[n - 1]);
      ApplyProgressAfter(Consume(Begin(s), chunks[..n - 1]), chunks, n, seed);
    }
  }

  /** The first `n` chunks of a stub stream split into an error-free part
      and chunk `n`, each of the shapes `ApplyProgressAfter` expects. */
  lemma StubPrefix(request: GenerationRequest, rolls: seq<real>, abortAt: nat, seed: string, n: nat)
    requires ValidRolls(rolls)
    requires 0 < n <= |StreamGenerateImage(request, rolls, abortAt, seed)|
    ensures var chunks := StreamGenerateImage(request, rolls, abortAt, seed);
            && chunks[..n] == chunks[..n - 1] + [chunks[n - 1]]
            && !HasError(chunks[..n - 1])
            && (|| (n - 1 < Steps && chunks[n - 1] == ProgressChunk(n))
                || (n < Steps && chunks[n - 1] == ErrorChunk)
                || (n - 1 == Steps && chunks[n - 1] == FinalChunk(seed)))
            && (n > 1 ==> chunks[n - 2] == ProgressChunk(n - 1))
  {
    var chunks := StreamGenerateImage(request, rolls, abortAt, seed);
    var pre := chunks[..n - 1];
    assert chunks[..n] == pre + [chunks[n - 1]];
    forall k | 0 <= k < |pre| ensures pre[k].kind != Error {
      assert pre[k] == chunks[k] == ProgressChunk(1 + k);
    }
    StubChunkAt(request, rolls, abortAt, seed, n - 1);
    if n > 1 {
      StubChunkAt(request, rolls, abortAt, seed, n - 2);
    }
  }

  /** One more chunk of a stub stream moves the shown progress from
      `ProgressAfter(n - 1)` to `ProgressAfter(n)`. */
  lemma ApplyProgressAfter(s: StreamState, chunks: seq<StreamChunk>, n: nat, seed: string)
    requires 0 < n <= |chunks|
    requires s.progress == ProgressAfter(chunks, n - 1)
    requires || (n - 1 < Steps && chunks[n - 1] == ProgressChunk(n))
             || (n < Steps && chunks[n - 1] == ErrorChunk)
             || (n - 1 == Steps && chunks[n - 1] == FinalChunk(seed))
    requires n > 1 ==> chunks[n - 2] == ProgressChunk(n - 1)
    ensures Apply(s, chunks[n - 1]).progress == ProgressAfter(chunks, n)
  {
  }

  /** The progress a user watches during a stub stream never goes down and
      stays within 0..100. */
  lemma ObservedProgressMonotone(s: StreamState, request: GenerationRequest, rolls: seq<real>, abortAt: nat, seed: string, m: nat, n: nat)
    requires ValidRolls(rolls)
    requires m <= n <= |StreamGenerateImage(request, rolls, abortAt, seed)|
    ensures var chunks := StreamGenerateImage(request, rolls, abortAt, seed);
            && 0 <= Consume(Begin(s), chunks[..m]).progress <= Consume(Begin(s), chunks[..n]).progress <= 100
  {
    var chunks := StreamGenerateImage(request, rolls, abortAt, seed);
    ConsumePrefixProgress(s, request, rolls, abortAt, seed, m);
    ConsumePrefixProgress(s, request, rolls, abortAt, seed, n);
    if m > 0 && m < n {
      assert chunks[m - 1] == ProgressChunk(m);
    }
  }

  /** The progress shown reaches 100 exactly once the chunk of the last
      step has been consumed, whether or not the final chunk follows. */
  lemma FullProgressAfterLastStep(s: StreamState, request: GenerationRequest, rolls: seq<real>, abortAt: nat, seed: string, n: nat)
    requires ValidRolls(rolls)
    requires n <= |StreamGenerateImage(request, rolls, abortAt, seed)|
    ensures var chunks := StreamGenerateImage(request, rolls, abortAt, seed);
            Consume(Begin(s), chunks[..n]).progress == 100 <==> n >= Steps
  {
    ConsumePrefixProgress(s, request, rolls, abortAt, seed, n);
    if n > 0 {
      StubChunkAt(request, rolls, abortAt, seed, n - 1);
    }
  }

  /** A stub stream ended by abort never shows an image, and shows an error
      only if the stub yielded one before the abort was seen. */
  lemma AbortedStreamShowsNoImage(s: StreamState, request: GenerationRequest, rolls: seq<real>, abortAt: nat, seed: string)
    requires ValidRolls(rolls)
    requires AbortSeen(abortAt, Steps + 1)
    ensures var chunks := StreamGenerateImage(request, rolls, abortAt, seed);
            var final := Start(s, StreamSource(chunks, None));
            && final.imageUrl.None?
            && (final.error.Some? <==> HasError(chunks))
  {
    AbortIsSilent(request, rolls, abortAt, seed);
  }

  /** A stub stream that hits an early error shows the stub's message, no
      image, and the progress of the step before. */
  lemma ErroredStreamShowsMessage(s: StreamState, request: GenerationRequest, rolls: seq<real>, abortAt: nat, seed: string)
    requires ValidRolls(rolls)
    requires HasError(StreamGenerateImage(request, rolls, abortAt, seed))
    ensures var chunks := StreamGenerateImage(request, rolls, abortAt, seed);
            var final := Start(s, StreamSource(chunks, None));
            && final.error == Some(TransientError)
            && final.imageUrl.None?
            && final.progress == (|chunks| - 1) * 100 / Steps
  {
    var chunks := StreamGenerateImage(request, rolls, abortAt, seed);
    ErrorOnlyEarlyAndLast(request, rolls, abortAt, seed);
    var n := |chunks|;
    assert chunks[n - 1] == ErrorChunk;
    assert chunks[..n] == chunks;
    ConsumePrefixProgress(s, request, rolls, abortAt, seed, n);
    ErrorChunkIsLast(Begin(s), chunks);
  }

  /** When the only error chunk is the last one, the error shown is its text. */
  lemma ErrorChunkIsLast(s: StreamState, chunks: seq<StreamChunk>)
    requires |chunks| > 0
    requires chunks[|chunks| - 1] == ErrorChunk
    requires forall k :: 0 <= k < |chunks| - 1 ==> chunks[k].kind != Error
    ensures Consume(s, chunks).error == Some(TransientError)
  {
    var n := |chunks|;
    var pre := chunks[..n - 1];
    assert chunks == pre + [chunks[n - 1]] + [];
    assert forall k :: 0 <= k < |pre| ==> pre[k] == chunks[k];
    ConsumeStopsAtError(s, pre, chunks[n - 1], []);
  }
}
