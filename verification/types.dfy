/** Records shared by the generation pipeline, and the optional value used
    wherever the source writes `T | null` or an optional field `x?: T`. */
module Types {

  /** `None` plays the part of `null` / an absent optional field. */
  datatype Option<+T> = None | Some(value: T) {

    /** The `x ?? default` operator. */
    function GetOr(default: T): T {
      match this
      case Some(v) => v
      case None => default
    }
  }

  /** One produced image and the request it came from. The source declares
      `Generation` and `GenerationResponse` separately with the same five
      fields; they are one record here. */
  datatype Generation = Generation(
    id: string,
    imageUrl: string,
    prompt: string,
    style: string,
    createdAt: string)

  /** What the presentation layer hands to the orchestrator. */
  datatype GenerationRequest = GenerationRequest(
    imageDataUrl: string,
    prompt: string,
    style: string)

  /** The style tags the UI offers. Requests carry a plain string, so a
      style outside this list can still reach the backend stub. */
  const StyleOptions: seq<string> :=
    ["Editorial", "Streetwear", "Vintage", "Minimalist", "Cinematic"]

  function Min(a: int, b: int): int {
    if a <= b then a else b
  }
}
