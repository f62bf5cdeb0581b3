/** The single-shot backend stub: after a fixed delay it either rejects as
    aborted, rejects as overloaded, or resolves with a canned image for the
    requested style. Math.random, Date.now and the clock are oracle
    parameters. */
module MockApi {
  import opened Types

  const GenerationDelay: nat := 1500
  const ErrorRate: real := 0.2
  const OverloadedMessage: string := "Model overloaded"
  const AbortMessage: string := "Generation aborted"
  const DefaultStyle: string := "Editorial"
  const IdPrefix: string := "gen_"

  const EditorialImages: seq<string> := [
    "https://images.pexels.com/photos/1851164/pexels-photo-1851164.jpeg?auto=compress&cs=tinysrgb&w=800",
    "https://images.pexels.com/photos/1805164/pexels-photo-1805164.jpeg?auto=compress&cs=tinysrgb&w=800",
    "https://images.pexels.com/photos/2625122/pexels-photo-2625122.jpeg?auto=compress&cs=tinysrgb&w=800"]
  const StreetwearImages: seq<string> := [
    "https://images.pexels.com/photos/1721558/pexels-photo-1721558.jpeg?auto=compress&cs=tinysrgb&w=800",
    "https://images.pexels.com/photos/1758144/pexels-photo-1758144.jpeg?auto=compress&cs=tinysrgb&w=800",
    "https://images.pexels.com/photos/1040945/pexels-photo-1040945.jpeg?auto=compress&cs=tinysrgb&w=800"]
  const VintageImages: seq<string> := [
    "https://images.pexels.com/photos/1105666/pexels-photo-1105666.jpeg?auto=compress&cs=tinysrgb&w=800",
    "https://images.pexels.com/photos/1438081/pexels-photo-1438081.jpeg?auto=compress&cs=tinysrgb&w=800",
    "https://images.pexels.com/photos/792381/pexels-photo-792381.jpeg?auto=compress&cs=tinysrgb&w=800"]
  const MinimalistImages: seq<string> := [
    "https://images.pexels.com/photos/1545743/pexels-photo-1545743.jpeg?auto=compress&cs=tinysrgb&w=800",
    "https://images.pexels.com/photos/1043474/pexels-photo-1043474.jpeg?auto=compress&cs=tinysrgb&w=800",
    "https://images.pexels.com/photos/1681010/pexels-photo-1681010.jpeg?auto=compress&cs=tinysrgb&w=800"]
  const CinematicImages: seq<string> := [
    "https://images.pexels.com/photos/1144176/pexels-photo-1144176.jpeg?auto=compress&cs=tinysrgb&w=800",
    "https://images.pexels.com/photos/1181675/pexels-photo-1181675.jpeg?auto=compress&cs=tinysrgb&w=800",
    "https://images.pexels.com/photos/1525041/pexels-photo-1525041.jpeg?auto=compress&cs=tinysrgb&w=800"]

  /** The image pools, keyed by style tag. */
  const MockImages: map<string, seq<string>> := map[
    "Editorial" := EditorialImages,
    "Streetwear" := StreetwearImages,
    "Vintage" := VintageImages,
    "Minimalist" := MinimalistImages,
    "Cinematic" := CinematicImages]

  /** How one call of the stub settles. `Failed` carries the rejected
      error's `message`; the stub itself only ever uses `OverloadedMessage`,
      but the orchestrator must cope with any message, the empty one
      included. `AbortError` is the distinct class the orchestrator never
      retries. */
  datatype StubResult = Resolved(response: Generation) | Failed(message: string) | AbortError

  /** The oracle values one call consumes: whether the signal reads aborted
      by the time the timer fires (or fired the abort listener before),
      the two Math.random draws, and the text of Date.now, of the random id
      suffix and of the ISO timestamp. */
  datatype StubOracle = StubOracle(
    aborted: bool,
    failRoll: real,
    poolRoll: real,
    stamp: string,
    suffix: string,
    now: string)

  predicate ValidOracle(o: StubOracle) {
    0.0 <= o.failRoll < 1.0 && 0.0 <= o.poolRoll < 1.0
  }

  /** `MOCK_IMAGES[style] || MOCK_IMAGES.Editorial`. */
  function StylePool(style: string): (pool: seq<string>)
    ensures |pool| == 3
    ensures style in MockImages ==> pool == MockImages[style]
    ensures style !in MockImages ==> pool == MockImages[DefaultStyle]
  {
    if style in MockImages then MockImages[style] else EditorialImages
  }

  /** `Math.floor(Math.random() * length)`, with the draw in [0, 1). */
  function PoolIndex(roll: real, length: nat): (i: nat)
    requires 0.0 <= roll < 1.0
    requires length > 0
    ensures i < length
  {
    var scaled := roll * length as real;
    assert 0.0 <= scaled < length as real;
    scaled.Floor
  }

  /** `generateImage(request, signal)`, settled when the timer fires. */
  function GenerateImage(request: GenerationRequest, o: StubOracle): (r: StubResult)
    requires ValidOracle(o)
    ensures o.aborted ==> r == AbortError
    ensures !o.aborted && o.failRoll < ErrorRate ==> r == Failed(OverloadedMessage)
    ensures r.Resolved? <==> !o.aborted && o.failRoll >= ErrorRate
    ensures r.Resolved? ==>
              && r.response.prompt == request.prompt
              && r.response.style == request.style
              && r.response.imageUrl in StylePool(request.style)
              && IdPrefix <= r.response.id
              && r.response.createdAt == o.now
  {
    if o.aborted then AbortError
    else if o.failRoll < ErrorRate then Failed(OverloadedMessage)
    else
      var pool := StylePool(request.style);
      var image := pool[PoolIndex(o.poolRoll, |pool|)];
      var id := IdPrefix + o.stamp + "_" + o.suffix;
      assert IdPrefix <= id;
      Resolved(Generation(id, image, request.prompt, request.style, o.now))
  }

  /** A style outside the five tags is served from the Editorial pool. */
  lemma UnknownStyleFallsBackToEditorial(request: GenerationRequest, o: StubOracle)
    requires ValidOracle(o)
    requires request.style !in StyleOptions
    requires !o.aborted && o.failRoll >= ErrorRate
    ensures GenerateImage(request, o).Resolved?
    ensures GenerateImage(request, o).response.imageUrl in EditorialImages
  {
    assert MockImages.Keys == set s | s in StyleOptions;
  }

  /** Every style the UI offers has its own pool. */
  lemma EveryStyleHasAPool(style: string)
    requires style in StyleOptions
    ensures style in MockImages
  {
  }
}
