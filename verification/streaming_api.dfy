/** The streaming backend stub: an async generator turned into a function
    from its oracle inputs to the finite sequence of chunks it yields. */
module StreamingApi {
  import opened Types

  const Steps: nat := 5
  const StepDelay: nat := 400
  const StreamErrorRate: real := 0.05
  const TransientError: string := "Transient streaming error occurred"

  /** The `type` tag of a chunk. The stub never yields `Intermediate`. */
  datatype ChunkType = Progress | Intermediate | Final | Error

  /** A chunk with the source's optional fields. */
  datatype StreamChunk = StreamChunk(
    kind: ChunkType,
    progress: Option<int>,
    imageUrl: Option<string>,
    error: Option<string>)

  /** The image reference of the final chunk; `seed` is the text of `Date.now()`. */
  function FinalUrl(seed: string): string {
    "https://picsum.photos/seed/" + seed + "/800/1200"
  }

  /** The progress chunk of step `step`: `(step / steps) * 100`, exact here. */
  function ProgressChunk(step: nat): StreamChunk {
    StreamChunk(Progress, Some(step * 100 / Steps), None, None)
  }

  const ErrorChunk: StreamChunk := StreamChunk(Error, None, None, Some(TransientError))

  function FinalChunk(seed: string): StreamChunk {
    StreamChunk(Final, Some(100), Some(FinalUrl(seed)), None)
  }

  /** One Math.random draw per step, each in [0, 1). */
  predicate ValidRolls(rolls: seq<real>) {
    |rolls| == Steps && forall i :: 0 <= i < |rolls| ==> 0.0 <= rolls[i] < 1.0
  }

  /** Step `step` draws an early error: never on the last step. */
  predicate ErrorAt(rolls: seq<real>, step: nat)
    requires |rolls| == Steps
  {
    1 <= step < Steps && rolls[step - 1] < StreamErrorRate
  }

  /** The generator's abort checks are numbered 1..Steps (top of each step)
      and Steps + 1 (before the final chunk). `abortAt` is the first check
      that reads the signal as aborted; since a signal never un-aborts,
      every later check reads it too. A value above Steps + 1 means the
      signal is never seen aborted. */
  predicate AbortSeen(abortAt: nat, check: nat) {
    abortAt <= check
  }

  /** Every chunk but the last is the progress chunk of its step, counting
      steps from `first`, and that step drew no early error. */
  predicate ProgressPrefix(chunks: seq<StreamChunk>, first: nat, rolls: seq<real>)
    requires |rolls| == Steps
  {
    forall k :: 0 <= k < |chunks| - 1 ==>
      first + k <= Steps && chunks[k] == ProgressChunk(first + k) && !ErrorAt(rolls, first + k)
  }

  /** The three ways a non-empty stream whose steps count from `first` can
      end: a progress chunk after which the next abort check read aborted;
      the error chunk of a step that drew an early error; or the final
      chunk after all steps. */
  predicate ProperEnd(chunks: seq<StreamChunk>, first: nat, rolls: seq<real>, abortAt: nat, seed: string)
    requires |rolls| == Steps
  {
    |chunks| > 0 ==>
      var at := first + |chunks| - 1;
      var last := chunks[|chunks| - 1];
      || (at <= Steps && last == ProgressChunk(at) && !ErrorAt(rolls, at) && AbortSeen(abortAt, at + 1))
      || (at <= Steps && last == ErrorChunk && ErrorAt(rolls, at))
      || (at == Steps + 1 && last == FinalChunk(seed))
  }

  /** The chunks yielded from step `step` on. */
  function StepsFrom(step: nat, rolls: seq<real>, abortAt: nat, seed: string): (chunks: seq<StreamChunk>)
    requires ValidRolls(rolls)
    requires 1 <= step <= Steps + 1
    ensures |chunks| <= Steps + 2 - step
    ensures chunks == [] <==> AbortSeen(abortAt, step)
    ensures |chunks| > 0 ==> !AbortSeen(abortAt, step + |chunks| - 1)
    ensures ProgressPrefix(chunks, step, rolls)
    ensures ProperEnd(chunks, step, rolls, abortAt, seed)
    decreases Steps + 1 - step
  {
    if step <= Steps then
      if AbortSeen(abortAt, step) then []
      else if rolls[step - 1] < StreamErrorRate && step < Steps then [ErrorChunk]
      else
        var rest := StepsFrom(step + 1, rolls, abortAt, seed);
        PushProgress(step, rest, rolls, abortAt, seed);
        [ProgressChunk(step)] + rest
    else if AbortSeen(abortAt, Steps + 1) then []
    else [FinalChunk(seed)]
  }

  /** The recursive step of `StepsFrom`: a progress chunk in front keeps the
      shape. */
  lemma PushProgress(step: nat, rest: seq<StreamChunk>, rolls: seq<real>, abortAt: nat, seed: string)
    requires |rolls| == Steps
    requires 1 <= step <= Steps && !ErrorAt(rolls, step)
    requires rest == [] <==> AbortSeen(abortAt, step + 1)
    requires ProgressPrefix(rest, step + 1, rolls)
    requires ProperEnd(rest, step + 1, rolls, abortAt, seed)
    ensures ProgressPrefix([ProgressChunk(step)] + rest, step, rolls)
    ensures ProperEnd([ProgressChunk(step)] + rest, step, rolls, abortAt, seed)
  {
    var chunks := [ProgressChunk(step)] + rest;
    forall k | 0 <= k < |chunks| - 1
      ensures step + k <= Steps && chunks[k] == ProgressChunk(step + k) && !ErrorAt(rolls, step + k)
    {
      if k > 0 {
        assert chunks[k] == rest[k - 1];
        assert (step + 1) + (k - 1) == step + k;
      }
    }
    if rest != [] {
      assert chunks[|chunks| - 1] == rest[|rest| - 1];
    }
  }

  /** `streamGenerateImage(req, signal)`. The request is not consulted. */
  function StreamGenerateImage(request: GenerationRequest, rolls: seq<real>, abortAt: nat, seed: string): (chunks: seq<StreamChunk>)
    requires ValidRolls(rolls)
    ensures |chunks| <= Steps + 1
    ensures chunks == [] <==> AbortSeen(abortAt, 1)
    ensures |chunks| > 0 ==> !AbortSeen(abortAt, |chunks|)
    ensures ProgressPrefix(chunks, 1, rolls)
    ensures ProperEnd(chunks, 1, rolls, abortAt, seed)
  {
    StepsFrom(1, rolls, abortAt, seed)
  }

  // ---------------------------------------------------------------------
  // Lemmas

  /** Without abort or early error: five progress chunks 20..100, then the
      final chunk. */
  lemma CompleteStream(request: GenerationRequest, rolls: seq<real>, abortAt: nat, seed: string)
    requires ValidRolls(rolls)
    requires !AbortSeen(abortAt, Steps + 1)
    requires forall step :: 1 <= step < Steps ==> !ErrorAt(rolls, step)
    ensures StreamGenerateImage(request, rolls, abortAt, seed) ==
            [ProgressChunk(1), ProgressChunk(2), ProgressChunk(3), ProgressChunk(4), ProgressChunk(5), FinalChunk(seed)]
    ensures ProgressChunk(1).progress == Some(20) && ProgressChunk(5).progress == Some(100)
  {
    var chunks := StreamGenerateImage(request, rolls, abortAt, seed);
    assert |chunks| == Steps + 1;
  }

  /** Progress values rise strictly within a stream and lie in (0, 100]. */
  lemma ProgressStrictlyIncreasing(request: GenerationRequest, rolls: seq<real>, abortAt: nat, seed: string)
    requires ValidRolls(rolls)
    ensures var chunks := StreamGenerateImage(request, rolls, abortAt, seed);
            && (forall k :: 0 <= k < |chunks| && chunks[k].kind == Progress ==>
                  chunks[k].progress.Some? && 0 < chunks[k].progress.value <= 100)
            && (forall j, k :: 0 <= j < k < |chunks| && chunks[j].kind == Progress && chunks[k].kind == Progress ==>
                  chunks[j].progress.value < chunks[k].progress.value)
  {
    var chunks := StreamGenerateImage(request, rolls, abortAt, seed);
    forall k | 0 <= k < |chunks| && chunks[k].kind == Progress
      ensures chunks[k] == ProgressChunk(k + 1) && k < Steps
    {
    }
  }

  /** An error chunk can only come at steps 1..4, and it is the last chunk. */
  lemma ErrorOnlyEarlyAndLast(request: GenerationRequest, rolls: seq<real>, abortAt: nat, seed: string)
    requires ValidRolls(rolls)
    ensures var chunks := StreamGenerateImage(request, rolls, abortAt, seed);
            forall k :: 0 <= k < |chunks| && chunks[k].kind == Error ==> k == |chunks| - 1 && k + 1 < Steps
  {
  }

  /** Unless the signal is seen aborted, the stream ends with exactly one
      terminal chunk (error or final) and every chunk before it is a
      progress chunk. */
  lemma TerminalUnlessAborted(request: GenerationRequest, rolls: seq<real>, abortAt: nat, seed: string)
    requires ValidRolls(rolls)
    requires !AbortSeen(abortAt, Steps + 1)
    ensures var chunks := StreamGenerateImage(request, rolls, abortAt, seed);
            && |chunks| > 0
            && chunks[|chunks| - 1].kind in {Error, Final}
            && forall k :: 0 <= k < |chunks| - 1 ==> chunks[k].kind == Progress
  {
  }

  /** Once an abort check reads the signal as aborted the stream just stops:
      no chunk for that step or later, no final chunk, and in particular
      no error chunk produced by the abort. */
  lemma AbortIsSilent(request: GenerationRequest, rolls: seq<real>, abortAt: nat, seed: string)
    requires ValidRolls(rolls)
    requires AbortSeen(abortAt, Steps + 1)
    ensures var chunks := StreamGenerateImage(request, rolls, abortAt, seed);
            && |chunks| < Max(abortAt, 1)
            && (forall k :: 0 <= k < |chunks| ==> chunks[k].kind != Final)
            && ((forall k :: 0 <= k < |chunks| ==> chunks[k].kind == Progress) ==> |chunks| == Max(abortAt, 1) - 1)
  {
  }

  function Max(a: int, b: int): int {
    if a >= b then a else b
  }

  /** The chunk sequence does not depend on the request. */
  lemma StreamIgnoresRequest(r1: GenerationRequest, r2: GenerationRequest, rolls: seq<real>, abortAt: nat, seed: string)
    requires ValidRolls(rolls)
    ensures StreamGenerateImage(r1, rolls, abortAt, seed) == StreamGenerateImage(r2, rolls, abortAt, seed)
  {
  }
}
