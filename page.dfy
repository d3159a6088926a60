/**
 * The page's mutable state and its event handlers: the search input's value,
 * the result panel, the suggestion box and its visibility, and the
 * recommendation panel. Each remote call is a parameter holding what the call
 * came back with; each handler whose request depends on a guard or an
 * argument returns the request it issued.
 */
module Ui {
  import opened Wrappers
  import opened Catalog
  import opened JsStrings
  import opened Render
  import opened Suggest

  class Page {
    /** `searchInput.value` */
    var input: string
    /** The children of `animeList`. */
    var results: seq<Child<ResultCard>>
    /** The text of each item of `suggestionsBox`, in order. */
    var suggestions: seq<string>
    /** `suggestionsBox.style.display` is not "none". */
    var suggestionsShown: bool
    /** The children of `recommendedList`. */
    var recommendations: seq<Child<RecommendationCard>>

    /** A visible suggestion box always has an item, and each panel holds a
        message or cards only. */
    ghost predicate Valid()
      reads this
    {
      (suggestionsShown ==> suggestions != [])
      && IsRendered(results, NoResultsText)
      && IsRendered(recommendations, NoRecommendationsText)
    }

    /** The page as loaded: empty input, empty panels, no suggestions shown. */
    constructor ()
      ensures Valid()
      ensures input == "" && results == [] && suggestions == []
      ensures !suggestionsShown && recommendations == []
    {
      input := "";
      results := [];
      suggestions := [];
      suggestionsShown := false;
      recommendations := [];
    }

    /** `displayAnime(list)`: replace the result panel by the message or by
        one card per record. `None` is an absent list. */
    method DisplayAnime(list: Option<seq<AnimeRecord>>)
      requires Valid()
      modifies this
      ensures Valid()
      ensures results == ResultsView(list)
      ensures input == old(input) && suggestions == old(suggestions)
      ensures suggestionsShown == old(suggestionsShown) && recommendations == old(recommendations)
    {
      results := [];
      if list.None? || |list.value| == 0 {
        results := [Message(NoResultsText)];
        return;
      }
      var records := list.value;
      for k := 0 to |records|
        invariant |results| == k
        invariant forall j :: 0 <= j < k ==> results[j] == Card(ResultCardOf(records[j]))
        invariant input == old(input) && suggestions == old(suggestions)
        invariant suggestionsShown == old(suggestionsShown) && recommendations == old(recommendations)
      {
        results := results + [Card(ResultCardOf(records[k]))];
      }
      ResultsViewEmpty(list);
    }

    /** `showSuggestions(list)`: clear the box; hide it when the list is
        empty, otherwise show it with one item per record, its title. */
    method ShowSuggestions(list: seq<AnimeRecord>)
      requires Valid()
      modifies this
      ensures Valid()
      ensures suggestions == Titles(list)
      ensures suggestionsShown <==> list != []
      ensures input == old(input) && results == old(results) && recommendations == old(recommendations)
    {
      suggestions := [];
      if |list| == 0 {
        suggestionsShown := false;
        return;
      }
      suggestionsShown := true;
      for k := 0 to |list|
        invariant |suggestions| == k
        invariant forall j :: 0 <= j < k ==> suggestions[j] == list[j].title
        invariant suggestionsShown
        invariant input == old(input) && results == old(results) && recommendations == old(recommendations)
      {
        suggestions := suggestions + [list[k].title];
      }
    }

    /** `displayRecommendations(recs)`: replace the recommendation panel by
        the message or by one card per entry. */
    method DisplayRecommendations(recs: seq<Recommendation>)
      requires Valid()
      modifies this
      ensures Valid()
      ensures recommendations == RecommendationsView(recs)
      ensures input == old(input) && results == old(results)
      ensures suggestions == old(suggestions) && suggestionsShown == old(suggestionsShown)
    {
      recommendations := [];
      if |recs| == 0 {
        recommendations := [Message(NoRecommendationsText)];
        return;
      }
      for k := 0 to |recs|
        invariant |recommendations| == k
        invariant forall j :: 0 <= j < k ==> recommendations[j] == Card(RecommendationCardOf(recs[j]))
        invariant input == old(input) && results == old(results)
        invariant suggestions == old(suggestions) && suggestionsShown == old(suggestionsShown)
      {
        recommendations := recommendations + [Card(RecommendationCardOf(recs[k]))];
      }
      RecommendationsViewShape(recs);
    }

    /** The input changes to `typed` and the "input" listener runs.
        `fetched` is what `fetchAnime` came back with for the query returned
        in `request`; it is not looked at when no request is issued. */
    method OnInput(typed: string, fetched: Fetched<seq<AnimeRecord>>) returns (request: Option<string>)
      requires Valid()
      modifies this
      ensures Valid()
      ensures input == typed
      ensures request == InputQuery(typed)
      ensures request.Some? ==>
        suggestions == Titles(MatchingTitles(ListOrEmpty(fetched), request.value))
        && (suggestionsShown <==> suggestions != [])
      ensures request.Some? ==> forall k :: 0 <= k < |suggestions| ==>
        Includes(ToLower(suggestions[k]), request.value)
      ensures request.None? ==> !suggestionsShown && suggestions == old(suggestions)
      ensures results == old(results) && recommendations == old(recommendations)
    {
      input := typed;
      var query := ToLower(Trim(input));
      if |query| > 1 {
        request := Some(query);
        var found := ListOrEmpty(fetched);
        var filtered := MatchingTitles(found, query);
        ShowSuggestions(filtered);
        SuggestedTitlesMatch(found, query);
      } else {
        request := None;
        suggestionsShown := false;
      }
    }

    /** The search button's "click" listener. `fetched` is what `fetchAnime`
        came back with for the query returned in `request`. */
    method OnSearchClick(fetched: Fetched<seq<AnimeRecord>>) returns (request: Option<string>)
      requires Valid()
      modifies this
      ensures Valid()
      ensures request == SearchQuery(old(input))
      ensures request.None? ==>
        results == old(results) && suggestionsShown == old(suggestionsShown)
      ensures request.Some? ==> results == ResultsView(Some(ListOrEmpty(fetched))) && !suggestionsShown
      ensures input == old(input) && suggestions == old(suggestions) && recommendations == old(recommendations)
    {
      var query := Trim(input);
      if query != "" {
        request := Some(query);
        var found := ListOrEmpty(fetched);
        DisplayAnime(Some(found));
        suggestionsShown := false;
      } else {
        request := None;
      }
    }

    /** The random button's "click" listener. `fetched` is what the random
        request came back with. */
    method OnRandomClick(fetched: Fetched<AnimeRecord>)
      requires Valid()
      modifies this
      ensures Valid()
      ensures results == ResultsView(Some(RandomList(fetched)))
      ensures !suggestionsShown
      ensures input == old(input) && suggestions == old(suggestions) && recommendations == old(recommendations)
    {
      var found := RandomList(fetched);
      DisplayAnime(Some(found));
      suggestionsShown := false;
    }

    /** A click on suggestion item `i`: the input takes the item's title, the
        box is hidden, and the search button is clicked. */
    method OnSuggestionClick(i: nat, fetched: Fetched<seq<AnimeRecord>>) returns (request: Option<string>)
      requires Valid()
      requires i < |suggestions|
      modifies this
      ensures Valid()
      ensures input == old(suggestions[i])
      ensures !suggestionsShown
      ensures request == SearchQuery(old(suggestions[i]))
      ensures request.Some? ==> results == ResultsView(Some(ListOrEmpty(fetched)))
      ensures request.None? ==> results == old(results)
      ensures suggestions == old(suggestions) && recommendations == old(recommendations)
    {
      input := suggestions[i];
      suggestionsShown := false;
      request := OnSearchClick(fetched);
    }

    /** A click on result card `i`: recommendations are requested for the
        card's record and shown. `fetched` is what that request came back with. */
    method OnResultCardClick(i: nat, fetched: Fetched<seq<Recommendation>>) returns (request: int)
      requires Valid()
      requires i < |results| && results[i].Card?
      modifies this
      ensures Valid()
      ensures request == old(results[i].card.animeId)
      ensures recommendations == RecommendationsView(ListOrEmpty(fetched))
      ensures input == old(input) && results == old(results)
      ensures suggestions == old(suggestions) && suggestionsShown == old(suggestionsShown)
    {
      request := results[i].card.animeId;
      var found := ListOrEmpty(fetched);
      DisplayRecommendations(found);
    }
  }
}

/**
 * A session on a freshly loaded page: the user types a query that is not
 * blank (the suggestion search comes back with `typedFetch`), the search
 * button is clicked and its search comes back with eight records, and then
 * the third card is clicked. The third record's recommendations are
 * requested and shown.
 */
module Session {
  import opened Wrappers
  import opened Catalog
  import opened JsStrings
  import opened Render
  import opened Ui

  method SearchThenRecommend(
    typed: string,
    typedFetch: Fetched<seq<AnimeRecord>>,
    records: seq<AnimeRecord>,
    fetchedRecs: Fetched<seq<Recommendation>>)
    returns (searched: Option<string>, resultPanel: seq<Child<ResultCard>>, requested: int,
             panel: seq<Child<RecommendationCard>>)
    requires !AllWhitespace(typed)
    requires |records| == 8
    ensures searched == Some(Trim(typed))
    ensures resultPanel == ResultsView(Some(records))
    ensures |resultPanel| == 8
    ensures forall k :: 0 <= k < 8 ==> resultPanel[k] == Card(ResultCardOf(records[k]))
    ensures requested == records[2].malId
    ensures panel == RecommendationsView(ListOrEmpty(fetchedRecs))
  {
    var page := new Page();
    var suggested := page.OnInput(typed, typedFetch);
    assert page.input == typed;
    searched := page.OnSearchClick(Received(records));
    assert page.results == ResultsView(Some(records));
    ResultsViewCards(records);
    resultPanel := page.results;
    assert page.results[2].card.animeId == records[2].malId;
    requested := page.OnResultCardClick(2, fetchedRecs);
    panel := page.recommendations;
  }
}
