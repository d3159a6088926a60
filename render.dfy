/**
 * What `displayAnime` and `displayRecommendations` put into their panels:
 * cards as records of the strings they show, or a single message.
 */
module Render {
  import opened Wrappers
  import opened Catalog
  import Js

  const NoResultsText := "No results found."
  const NoRecommendationsText := "No recommendations available."

  /** One child of a panel: the paragraph with a message, or a card. */
  datatype Child<C> = Message(text: string) | Card(card: C)

  /** A card of the result panel. `kind`, `episodes` and `score` are the texts
      the card shows for those fields; `animeId` is the record whose
      recommendations a click on the card asks for. */
  datatype ResultCard = ResultCard(
    animeId: int,
    imageUrl: string,
    title: string,
    kind: string,
    episodes: string,
    score: string,
    url: string)

  /** A card of the recommendation panel: no type line, and not clickable. */
  datatype RecommendationCard = RecommendationCard(
    imageUrl: string,
    title: string,
    score: string,
    url: string)

  /** The JavaScript value a record holds for its `type` field (`null` when absent). */
  function TypeValue(t: Option<string>): Js.Value {
    match t
    case None => Js.Null
    case Some(s) => Js.Str(s)
  }

  /** The JavaScript value a record holds for its `episodes` field. */
  function EpisodesValue(e: Option<int>): Js.Value {
    match e
    case None => Js.Null
    case Some(n) => Js.Num(Js.NumberText(n))
  }

  /** The JavaScript value a record holds for its `score` field. */
  function ScoreValue(s: Option<string>): Js.Value {
    match s
    case None => Js.Null
    case Some(t) => Js.Num(t)
  }

  /** `${anime.score || "N/A"}`: "N/A" when the score is absent or 0 (or
      NaN), its own text otherwise. */
  function ScoreText(s: Option<string>): (r: string)
    ensures r == if s.None? || s.value == "0" || s.value == "NaN" then "N/A" else s.value
  {
    Js.Interpolate(Js.Or(ScoreValue(s), Js.Str("N/A")))
  }

  /** The card `displayAnime` builds for one record: its identifier, image,
      title and link as they are; the type "Unknown" when absent or empty,
      the episode count "?" when absent or 0. */
  function ResultCardOf(a: AnimeRecord): (r: ResultCard)
    ensures r.animeId == a.malId && r.imageUrl == a.imageUrl
    ensures r.title == a.title && r.url == a.url
    ensures r.kind ==
      if a.mediaType.None? || a.mediaType.value == "" then "Unknown" else a.mediaType.value
    ensures r.episodes ==
      if a.episodes.None? || a.episodes.value == 0 then "?" else Js.NumberText(a.episodes.value)
    ensures r.score == ScoreText(a.score)
  {
    ResultCard(
      a.malId, a.imageUrl, a.title,
      Js.Interpolate(Js.Or(TypeValue(a.mediaType), Js.Str("Unknown"))),
      Js.Interpolate(Js.Or(EpisodesValue(a.episodes), Js.Str("?"))),
      ScoreText(a.score),
      a.url)
  }

  /** The card `displayRecommendations` builds for one recommendation: the
      image, title, score and link the result card of its entry would show. */
  function RecommendationCardOf(rec: Recommendation): (r: RecommendationCard)
    ensures r.imageUrl == ResultCardOf(rec.entry).imageUrl
    ensures r.title == ResultCardOf(rec.entry).title
    ensures r.score == ResultCardOf(rec.entry).score
    ensures r.url == ResultCardOf(rec.entry).url
  {
    RecommendationCard(rec.entry.imageUrl, rec.entry.title, ScoreText(rec.entry.score), rec.entry.url)
  }

  /** The result panel after `displayAnime(list)`; `None` is an absent list.
      It is always its message or cards only, one card per record. */
  function ResultsView(list: Option<seq<AnimeRecord>>): (r: seq<Child<ResultCard>>)
    ensures IsRendered(r, NoResultsText)
    ensures list.Some? && list.value != [] ==> |r| == |list.value|
    ensures list.Some? && list.value != [] ==> forall k :: 0 <= k < |r| ==> r[k].Card?
  {
    if list.None? || list.value == [] then [Message(NoResultsText)]
    else seq(|list.value|, k requires 0 <= k < |list.value| => Card(ResultCardOf(list.value[k])))
  }

  /** The recommendation panel after `displayRecommendations(recs)`: its
      message or cards only, one card per entry. */
  function RecommendationsView(recs: seq<Recommendation>): (r: seq<Child<RecommendationCard>>)
    ensures IsRendered(r, NoRecommendationsText)
    ensures recs != [] ==> |r| == |recs|
    ensures recs != [] ==> forall k :: 0 <= k < |r| ==> r[k].Card?
  {
    if recs == [] then [Message(NoRecommendationsText)]
    else seq(|recs|, k requires 0 <= k < |recs| => Card(RecommendationCardOf(recs[k])))
  }

  /** A panel as a render pass leaves it: exactly the given message, or
      cards only (none at all before the first pass). */
  predicate IsRendered<C>(panel: seq<Child<C>>, message: string) {
    (|panel| == 1 && panel[0].Message? && panel[0].text == message)
    || forall k :: 0 <= k < |panel| ==> panel[k].Card?
  }

  /** An empty or absent list shows exactly the "No results found." message
      and no card; a non-empty list never shows it. */
  lemma ResultsViewEmpty(list: Option<seq<AnimeRecord>>)
    ensures ResultsView(list) == [Message(NoResultsText)] <==> list.None? || list.value == []
  {
    if list.Some? && list.value != [] {
      assert ResultsView(list)[0].Card?;
    }
  }

  /** N records give exactly N cards in input order; card k carries record
      k's title, image, link and identifier. */
  lemma ResultsViewCards(list: seq<AnimeRecord>)
    requires list != []
    ensures |ResultsView(Some(list))| == |list|
    ensures forall k :: 0 <= k < |list| ==>
      ResultsView(Some(list))[k].Card? &&
      ResultsView(Some(list))[k].card == ResultCardOf(list[k]) &&
      ResultsView(Some(list))[k].card.title == list[k].title &&
      ResultsView(Some(list))[k].card.url == list[k].url &&
      ResultsView(Some(list))[k].card.imageUrl == list[k].imageUrl &&
      ResultsView(Some(list))[k].card.animeId == list[k].malId
  {
  }

  /** An empty list shows exactly "No recommendations available."; a
      non-empty one gives one card per entry, in order, built from the entry
      record. */
  lemma RecommendationsViewShape(recs: seq<Recommendation>)
    ensures RecommendationsView(recs) == [Message(NoRecommendationsText)] <==> recs == []
    ensures recs != [] ==> forall k :: 0 <= k < |recs| ==>
      RecommendationsView(recs)[k].Card? &&
      RecommendationsView(recs)[k].card == RecommendationCardOf(recs[k]) &&
      RecommendationsView(recs)[k].card.title == recs[k].entry.title &&
      RecommendationsView(recs)[k].card.url == recs[k].entry.url &&
      RecommendationsView(recs)[k].card.imageUrl == recs[k].entry.imageUrl &&
      RecommendationsView(recs)[k].card.score == ScoreText(recs[k].entry.score)
  {
    if recs != [] {
      assert RecommendationsView(recs)[0].Card?;
    }
  }
}
