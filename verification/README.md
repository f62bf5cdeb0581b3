# AI Studio generation pipeline, modelled in Dafny

This project models the client-side generation pipeline of the AI Studio
React app. Six pieces are modelled, one Dafny module each:

- **HistoryStore** (`src/services/localStorage.ts`) is the bounded
  generation history. It covers `saveGeneration`, `getGenerationHistory` and
  `clearGenerationHistory` over an abstract store `Option<seq<Generation>>`.
  `None` means the key is missing or its content does not parse.
- **MockApi** (`src/services/mockApi.ts`) is the backend stub
  `generateImage`. It has three outcomes: `AbortError`, `'Model overloaded'`,
  or a response drawn from the style's image pool.
- **GenerationHook** (`src/hooks/useGeneration.ts`) is the retry state
  machine behind `generate` and `abort`. A run is driven by the sequence of
  stub outcomes and the abort-during-backoff flags. It returns:
  - the result;
  - the final hook state and the final store;
  - the state seen during each attempt;
  - the trace of backoff waits.
- **StreamingApi** (`src/services/streamingMockApi.ts`) is the streaming stub
  `streamGenerateImage`. It is a function from its random draws, an abort
  schedule and the `Date.now()` seed to the finite sequence of chunks it
  yields.
- **StreamingHook** (`src/hooks/useStreamingGeneration.ts`) is the consumer
  `start`, a left fold of the chunks into
  `{progress, imageUrl, error, isStreaming}`, together with `abort`.
- **ImageUtils** (`src/utils/imageUtils.ts`) covers `validateImageFile` and
  the target-size computation inside `downscaleImage`.

The module **Types** holds the records of `src/types/index.ts` and `Option`.

Randomness, clocks and failures of the browser become parameters:
- Each `Math.random()` draw is a real in [0, 1).
- `Date.now()`, the random id suffix and the ISO timestamp are given strings.
- Whether `localStorage.setItem` or `removeItem` succeeds is a given boolean.
- When the abort signal fires is given: as the stub outcome `AbortError`, as
  a flag per backoff wait, or, for the stream, as the first abort check that
  reads the signal as aborted.

## Model

| member | source | states |
|---|---|---|
| HistoryStore.WithoutId | src/services/localStorage.ts:11 | an entry appears in the result exactly when it appears in the history with a different id; the result keeps the history's order (a subsequence) and is never longer; a history without that id is returned unchanged |
| HistoryStore.WithoutIdCounts | src/services/localStorage.ts:11 | each entry whose id differs is kept as many times as it occurs in the history, duplicates included, and no entry with the id is kept |
| HistoryStore.Insert | src/services/localStorage.ts:9-12 | the new generation is at the head; no later entry has its id; the length is min(5, 1 + the entries kept); the tail is a prefix of the old entries with that id removed, so their order survives and the oldest are the ones dropped |
| HistoryStore.InsertPreservesUniqueIds | src/services/localStorage.ts:9-12 | a history with unique ids still has unique ids after a save |
| HistoryStore.WithoutUniqueIdLength | src/services/localStorage.ts:11 | in a history with unique ids, filtering out an id that is present removes exactly one entry |
| HistoryStore.InsertExistingKeepsLength | src/services/localStorage.ts:9-12 | saving an id already present in a history of at most 5 entries leaves the length unchanged |
| HistoryStore.InsertNewIntoFullEvictsLast | src/services/localStorage.ts:4-12 | saving a new id into a full history of 5 gives the new entry followed by the first four old ones, so exactly the oldest entry is evicted |
| HistoryStore.InsertFresh | src/services/localStorage.ts:9-12 | saving an id not in the history prepends it and keeps the first min(4, length) old entries |
| HistoryStore.InsertIdempotent | src/services/localStorage.ts:9-12 | saving the same generation twice gives the same history as saving it once |
| HistoryStore.SaveAllDistinctKeepsMostRecent | src/services/localStorage.ts:9-12 | saving generations with distinct ids one after another into an empty history leaves the most recent five, newest first |
| HistoryStore.Load | src/services/localStorage.ts:20-28 | a missing or unreadable entry loads as the empty history; otherwise the stored list is returned |
| HistoryStore.Save | src/services/localStorage.ts:6-18 | a successful write stores a non-empty history of at most 5 entries headed by the new generation; a failed write is swallowed and leaves the store as it was |
| HistoryStore.Clear | src/services/localStorage.ts:30-36 | a successful removal makes the history load as empty; a failed removal is swallowed and leaves the store as it was |
| HistoryStore.SaveThenLoad | src/services/localStorage.ts:6-28 | loading after a successful save gives the bounded insertion of the generation into the previously loaded history |
| HistoryStore.ClearThenLoad | src/services/localStorage.ts:30-32 | loading after a successful clear gives the empty history |
| HistoryStore.SaveKeepsWellFormed | src/services/localStorage.ts:6-18 | a stored history of at most 5 entries with unique ids stays so after any save, whether the write succeeds or fails |
| MockApi.StylePool | src/services/mockApi.ts:7-33 | every style has a pool of three images; a style that is not a key of the image table uses the Editorial pool |
| MockApi.PoolIndex | src/services/mockApi.ts:63 | flooring a draw in [0, 1) times the pool length always gives an index inside the pool |
| MockApi.GenerateImage | src/services/mockApi.ts:42-84 | an aborted signal yields `AbortError` whatever the draws; otherwise a draw below 0.2 yields the `'Model overloaded'` failure; it resolves exactly when not aborted and the draw is at least 0.2, and the response then echoes the prompt and style, takes its image from the style's pool, has an id starting with `gen_` and carries the given timestamp |
| MockApi.UnknownStyleFallsBackToEditorial | src/services/mockApi.ts:61-63 | a request whose style is none of the five options gets an Editorial image |
| MockApi.EveryStyleHasAPool | src/services/mockApi.ts:7-33 | each of the five style options is a key of the image table |
| GenerationHook.ErrorMessage | src/hooks/useGeneration.ts:68-69 | the surfaced message is never empty: an empty failure message becomes `'Unknown error occurred'`, any other is kept |
| GenerationHook.Abort | src/hooks/useGeneration.ts:23-31 | with a controller, abort resets to the idle state; without one, it changes nothing |
| GenerationHook.Begin | src/hooks/useGeneration.ts:35-40 | a call starts generating, with no error, retry count 0 and a fresh controller |
| GenerationHook.Attempt | src/hooks/useGeneration.ts:43-95 | from attempt k: the state during attempt k+i shows retry count k+i; every attempt before the last failed and was not aborted during its wait; a result is returned exactly when the last outcome resolved, and it is then saved once; the store is untouched otherwise; an error is left exactly when attempt 3 failed, and it is that failure's message; otherwise the final state is idle; the i-th wait is 1000·2^(k+i-1) ms; the call always ends not generating, with retry count 0 and no controller |
| GenerationHook.Generate | src/hooks/useGeneration.ts:33-98 | the same characterisation from attempt 1: at most three stub calls, the attempt states show retry counts 1, 2, 3, the i-th wait is 1000·2^(i-1) ms, success saves and returns the response, abort is silent, and only a third failure leaves an error |
| GenerationHook.BackoffDelays | src/hooks/useGeneration.ts:71-75 | the waits of any call are a prefix of [1000, 2000]: there is never a 4 s wait |
| GenerationHook.ThreeFailuresSurfaceLastMessage | src/hooks/useGeneration.ts:68-92 | three failures without an abort return nothing, save nothing, wait 1000 then 2000 ms and leave the third message as the error |
| GenerationHook.AbortAfterFinalFailureKeepsError | src/hooks/useGeneration.ts:23-31 | an abort after a final failure does not clear the error, because that path already dropped the controller |
| GenerationHook.AbortIdempotent | src/hooks/useGeneration.ts:23-31 | aborting twice is the same as aborting once |
| GenerationHook.AbortedCallIsSilent | src/hooks/useGeneration.ts:60-66 | an `AbortError` on any attempt ends the call at once: no retry, no error, no save, idle state |
| GenerationHook.GenerateEchoesRequest | src/hooks/useGeneration.ts:48-58 | against the stub, a returned generation echoes the request's prompt and style and is the head of the saved history |
| GenerationHook.SucceedOnThirdAttempt | src/hooks/useGeneration.ts:43-97 | two overloads followed by a success return the third response after waits of 1000 and 2000 ms, with retry count 3 shown on the last attempt, and end idle |
| StreamingApi.StepsFrom | src/services/streamingMockApi.ts:16-33 | the chunks from a given step on: nothing exactly when that step's abort check fires; every chunk but the last is the progress chunk of its step without an early error; the last is a progress chunk followed by a firing abort check, the error chunk of an erring step, or the final chunk |
| StreamingApi.StreamGenerateImage | src/services/streamingMockApi.ts:11-34 | at most six chunks; none exactly when the signal is aborted before step 1; every chunk but the last is progress i·20 of step i; the stream ends in one of the three ways above |
| StreamingApi.CompleteStream | src/services/streamingMockApi.ts:15-33 | without abort or early error the stream is progress 20, 40, 60, 80, 100 and then the final chunk with progress 100 and the image URL |
| StreamingApi.ProgressStrictlyIncreasing | src/services/streamingMockApi.ts:24 | progress values rise strictly within a stream and lie in (0, 100] |
| StreamingApi.ErrorOnlyEarlyAndLast | src/services/streamingMockApi.ts:19-23 | an error chunk only comes at steps 1 to 4 and nothing follows it |
| StreamingApi.TerminalUnlessAborted | src/services/streamingMockApi.ts:16-33 | a stream not cut by abort ends with exactly one error or final chunk, after progress chunks only |
| StreamingApi.AbortIsSilent | src/services/streamingMockApi.ts:17-26 | once an abort check fires nothing more is yielded: no final chunk, no error chunk caused by the abort, and an error-free stream stops right before that check |
| StreamingApi.StreamIgnoresRequest | src/services/streamingMockApi.ts:11-14 | the chunks do not depend on the request |
| StreamingHook.Begin | src/hooks/useStreamingGeneration.ts:28-33 | start resets progress to 0, image and error to null, and starts streaming with a fresh controller |
| StreamingHook.Apply | src/hooks/useStreamingGeneration.ts:36-44 | a progress chunk sets progress to its value or 0; a final chunk sets progress 100 and the image; an error chunk sets the error to the chunk's message, or `'Streaming error'` when it has none, leaving progress and image; nothing else changes |
| StreamingHook.Consume | src/hooks/useStreamingGeneration.ts:35-45 | the fold leaves the error alone unless some chunk is an error, then an error is shown; without a final chunk the image is untouched; progress only moves on progress or final chunks |
| StreamingHook.Start | src/hooks/useStreamingGeneration.ts:27-52 | after start, streaming has stopped and the controller is gone; an error shows exactly when a chunk was an error or the stream threw; a throw without an error chunk shows the thrown message; without a final chunk no image shows |
| StreamingHook.Abort | src/hooks/useStreamingGeneration.ts:21-25 | abort stops streaming and drops the controller without touching progress, image or error; the `finally` block of start makes the same change |
| StreamingHook.ConsumeAppend | src/hooks/useStreamingGeneration.ts:35-45 | before any error chunk, consuming two pieces of a stream one after the other equals consuming them together |
| StreamingHook.ConsumeStopsAtError | src/hooks/useStreamingGeneration.ts:41-43 | no chunk after the first error chunk is consumed, and that chunk's message (or `'Streaming error'`) is shown |
| StreamingHook.StartResets | src/hooks/useStreamingGeneration.ts:28-31 | the outcome of start does not depend on the state before it |
| StreamingHook.AbortCommutesWithConsume | src/hooks/useStreamingGeneration.ts:21-45 | an abort that lands before chunks are consumed changes nothing once the call has finished |
| StreamingHook.AbortMidStreamSameOutcome | src/hooks/useStreamingGeneration.ts:21-52 | calling abort part-way through consumption and then consuming the remaining chunks ends in the same state as an uninterrupted start over the same chunks |
| StreamingHook.CompleteStreamShowsImage | src/hooks/useStreamingGeneration.ts:35-44 | consuming a complete stub stream shows progress 100, the final image and no error, and stops streaming |
| StreamingHook.ConsumePrefixProgress | src/hooks/useStreamingGeneration.ts:36-44 | after the first n chunks of a stub stream the shown progress is 20 per step reached, one step less when the n-th chunk is the error |
| StreamingHook.ObservedProgressMonotone | src/hooks/useStreamingGeneration.ts:36-40 | the progress a user sees during a stub stream never goes down and stays within 0 and 100 |
| StreamingHook.FullProgressAfterLastStep | src/hooks/useStreamingGeneration.ts:36-40 | the progress shown is 100 exactly once the chunk of step 5 has been consumed, even when an abort then cuts off the final chunk |
| StreamingHook.AbortedStreamShowsNoImage | src/hooks/useStreamingGeneration.ts:35-51 | a stub stream cut by abort never shows an image, and shows an error exactly when the stub yielded one before the abort |
| StreamingHook.ErroredStreamShowsMessage | src/hooks/useStreamingGeneration.ts:41-43 | a stub stream with an early error shows the transient error message, no image, and the progress of the step before |
| ImageUtils.ValidateImageFile | src/utils/imageUtils.ts:4-18 | a file is accepted exactly when its type is jpeg, jpg or png and its size is at most 10 MiB; a non-image type gets the type message whatever its size; an oversized image gets the size message before its subtype is looked at; a small image of another subtype gets the PNG/JPG message |
| ImageUtils.ExactLimitAccepted | src/utils/imageUtils.ts:9 | exactly 10485760 bytes is accepted and one byte more is refused |
| ImageUtils.CheckOrder | src/utils/imageUtils.ts:5-16 | an oversized GIF is refused for its size, a small GIF for its subtype, and a large text file for not being an image |
| ImageUtils.Ratio | src/utils/imageUtils.ts:40 | when a side exceeds 1920 the scale factor lies strictly between 0 and 1 |
| ImageUtils.RatioOverLongerSide | src/utils/imageUtils.ts:40 | the smaller of the two quotients is 1920 over the longer side |
| ImageUtils.ScaledDimensions | src/utils/imageUtils.ts:33-43 | sizes within 1920 are unchanged (no upscaling); otherwise neither side grows or exceeds 1920 and the longer side becomes exactly 1920 |
| ImageUtils.ScalingKeepsAspect | src/utils/imageUtils.ts:39-43 | the aspect ratio is kept up to the flooring of the shorter side: the cross products of old and new sizes differ by less than the longer side |

## Left out

- Storage I/O and JSON: `localStorage` and `JSON.stringify`/`JSON.parse` are not modelled. The store is the abstract `Option<seq<Generation>>`, and a read that fails or does not parse loads as empty.
- Non-array JSON: a stored value that parses to something other than an array of generations has no counterpart in the model.
- Object keys of the image table: the lookup `MOCK_IMAGES[style]` would also hit inherited JavaScript keys such as `"constructor"`. The model treats the table as a plain map of the five styles.
- Timers and real time: `setTimeout` and the 1500 ms and 400 ms delays are not modelled. The backoff waits are recorded as a trace.
- Randomness and clocks: `Math.random`, `Date.now`, `toISOString` and the base-36 id suffix are not modelled. They are parameters. The id is built as `gen_` + stamp + `_` + suffix from the given strings.
- React: `useState` batching, `useRef`, `useCallback` and re-renders are not modelled. Hook state is a record updated in program order.
- Concurrency: the model assumes one `generate` or `start` in flight at a time. Overlapping calls sharing one controller are not modelled.
- Abort timing: an abort while the generation stub is pending appears only as the stub's `AbortError` outcome. An abort during a backoff wait appears as that wait's flag.
- Floating point: progress `(i / steps) * 100` and the resize ratio use exact integers and reals. Under IEEE doubles, `Math.floor(width * ratio)` on the longer side can come out at 1919.
- ImageUtils.ScaledDimensions: the claim that the longer side lands on exactly 1920 holds for exact arithmetic only, not for the browser's doubles.
- Browser image work: canvas, `Image` loading, `toDataURL`, `URL.createObjectURL` and `createImagePreview` (`src/utils/imageUtils.ts:21-31, 45-63`) are not modelled. Only the size computation is.
- Intermediate chunks: the `'intermediate'` chunk type is part of the chunk datatype, but the stub never yields it and the consumer ignores it.
- Thrown stream failures: the streaming stub never throws. A failure thrown by some other source is modelled only as happening after all of its yielded chunks.
- Comments that disagree with the code: the code is followed in both cases.
  - The streaming stub's comment says a 10% error rate; the code uses 0.05.
  - The comment in `useGeneration.ts` lists waits of 1 s, 2 s and 4 s; with three attempts only 1 s and 2 s ever occur (`GenerationHook.BackoffDelays`).
- UI and tooling: components, routes, `App.tsx`, `main.tsx`, styling and lint configuration are not modelled.
