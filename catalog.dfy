/**
 * The records the catalog service sends, and the three fetch functions
 * reduced to what their callers see: the decoded list (for the random
 * request, the decoded record wrapped in a one-element list), or `[]` when
 * the request or its decoding failed.
 */
module Catalog {
  import opened Wrappers

  /** One catalog entry. `mediaType` is the service's `type` field; a score
      is kept as the text JavaScript renders the number with. */
  datatype AnimeRecord = AnimeRecord(
    malId: int,
    title: string,
    mediaType: Option<string>,
    episodes: Option<int>,
    score: Option<string>,
    imageUrl: string,
    url: string)

  /** A recommendation as the service wraps it; only `entry` is shown. */
  datatype Recommendation = Recommendation(entry: AnimeRecord)

  /** What a remote call came back with: the decoded payload, or a failure
      (transport or decoding) that the fetch function catches. */
  datatype Fetched<T> = Received(body: T) | Failed

  /** `fetchAnime` and `fetchRecommendations`: the payload's list, or `[]` on failure. */
  function ListOrEmpty<T>(f: Fetched<seq<T>>): (r: seq<T>)
    ensures f.Failed? ==> r == []
    ensures f.Received? ==> r == f.body
  {
    match f
    case Received(list) => list
    case Failed => []
  }

  /** `fetchRandomAnime`: the one record wrapped in a list, or `[]` on failure. */
  function RandomList(f: Fetched<AnimeRecord>): (r: seq<AnimeRecord>)
    ensures |r| <= 1
    ensures r == [] <==> f.Failed?
    ensures forall k :: 0 <= k < |r| ==> f.Received? && r[k] == f.body
  {
    match f
    case Received(a) => [a]
    case Failed => []
  }
}
