/**
 * The input handler's guard and title filter, and the search button's guard.
 */
module Suggest {
  import opened Wrappers
  import opened Catalog
  import opened JsStrings

  /** The query the input handler searches for: the trimmed, lower-cased
      input, when it is longer than one character; no search otherwise. */
  function InputQuery(value: string): (q: Option<string>)
    ensures q.Some? ==> |q.value| > 1 && q.value == ToLower(Trim(value))
  {
    var query := ToLower(Trim(value));
    if |query| > 1 then Some(query) else None
  }

  /** The query the search button searches for: the trimmed input, when it
      is not empty; no search otherwise. */
  function SearchQuery(value: string): (q: Option<string>)
    ensures q.Some? ==> q.value == Trim(value)
  {
    var query := Trim(value);
    if query != "" then Some(query) else None
  }

  /** The input handler issues no search exactly when the trimmed input has
      at most one character; an input of whitespace only counts as empty. */
  lemma InputQueryShort(value: string)
    ensures InputQuery(value).None? <==> |Trim(value)| <= 1
    ensures AllWhitespace(value) ==> InputQuery(value).None?
  {
  }

  /** The search button does nothing exactly when the input is all whitespace. */
  lemma SearchQueryBlank(value: string)
    ensures SearchQuery(value).None? <==> AllWhitespace(value)
  {
  }

  /** `s.filter(keep)`: the elements of `s` that `keep` accepts, in order. */
  function Filter<T(==)>(s: seq<T>, keep: T -> bool): (r: seq<T>)
    ensures |r| <= |s|
    ensures forall k :: 0 <= k < |r| ==> r[k] in s && keep(r[k])
  {
    if s == [] then [] else (if keep(s[0]) then [s[0]] else []) + Filter(s[1..], keep)
  }

  /** Every accepted element is kept. */
  lemma {:induction false} FilterComplete<T>(s: seq<T>, keep: T -> bool)
    ensures forall x :: x in s && keep(x) ==> x in Filter(s, keep)
  {
    if s != [] {
      FilterComplete(s[1..], keep);
      assert forall x :: x in s ==> x == s[0] || x in s[1..];
    }
  }

  /** Filtering distributes over concatenation. */
  lemma {:induction false} FilterAppend<T>(xs: seq<T>, ys: seq<T>, keep: T -> bool)
    ensures Filter(xs + ys, keep) == Filter(xs, keep) + Filter(ys, keep)
  {
    if xs == [] {
      assert xs + ys == ys;
    } else {
      assert (xs + ys)[0] == xs[0];
      assert (xs + ys)[1..] == xs[1..] + ys;
      FilterAppend(xs[1..], ys, keep);
    }
  }

  /** An accepted element is kept as often as it occurs, any other never. */
  lemma {:induction false} FilterCount<T>(s: seq<T>, keep: T -> bool, x: T)
    ensures multiset(Filter(s, keep))[x] == if keep(x) then multiset(s)[x] else 0
  {
    if s != [] {
      var head := if keep(s[0]) then [s[0]] else [];
      FilterCount(s[1..], keep, x);
      assert multiset(Filter(s, keep)) == multiset(head) + multiset(Filter(s[1..], keep));
      assert s == [s[0]] + s[1..];
      assert multiset(s) == multiset([s[0]]) + multiset(s[1..]);
    }
  }

  /** A record is kept as a suggestion when its lower-cased title contains the query. */
  predicate TitleMatches(a: AnimeRecord, query: string)
    ensures query == [] ==> TitleMatches(a, query)
    ensures TitleMatches(a, query) ==> |query| <= |a.title|
  {
    Includes(ToLower(a.title), query)
  }

  /** `results.filter(anime => anime.title.toLowerCase().includes(query))` */
  function MatchingTitles(results: seq<AnimeRecord>, query: string): (r: seq<AnimeRecord>)
    ensures |r| <= |results|
    ensures forall k :: 0 <= k < |r| ==> r[k] in results && TitleMatches(r[k], query)
  {
    Filter(results, a => TitleMatches(a, query))
  }

  /** Every result whose title matches is kept. */
  lemma MatchingTitlesComplete(results: seq<AnimeRecord>, query: string)
    ensures forall a :: a in results && TitleMatches(a, query) ==> a in MatchingTitles(results, query)
  {
    FilterComplete(results, a => TitleMatches(a, query));
  }

  /** Filtering keeps relative order: it distributes over concatenation. */
  lemma MatchingTitlesAppend(xs: seq<AnimeRecord>, ys: seq<AnimeRecord>, query: string)
    ensures MatchingTitles(xs + ys, query) == MatchingTitles(xs, query) + MatchingTitles(ys, query)
  {
    FilterAppend(xs, ys, a => TitleMatches(a, query));
  }

  /** Each matching record is kept as often as it occurs, and no other record is kept. */
  lemma MatchingTitlesCount(results: seq<AnimeRecord>, query: string, a: AnimeRecord)
    ensures multiset(MatchingTitles(results, query))[a] ==
      if TitleMatches(a, query) then multiset(results)[a] else 0
  {
    FilterCount(results, x => TitleMatches(x, query), a);
  }

  /** Every kept title contains the query somewhere, once lower-cased. */
  lemma MatchingTitlesOccur(results: seq<AnimeRecord>, query: string)
    ensures forall a :: a in MatchingTitles(results, query) ==> Occurs(ToLower(a.title), query)
  {
    forall a | a in MatchingTitles(results, query)
      ensures Occurs(ToLower(a.title), query)
    {
      IncludesIffOccurs(ToLower(a.title), query);
    }
  }

  /** Item texts of the suggestion box: one per record, its title. */
  function Titles(list: seq<AnimeRecord>): (r: seq<string>)
    ensures |r| == |list|
    ensures forall k :: 0 <= k < |list| ==> r[k] == list[k].title
  {
    seq(|list|, k requires 0 <= k < |list| => list[k].title)
  }

  /** Every suggested title, lower-cased, includes the query. */
  lemma SuggestedTitlesMatch(results: seq<AnimeRecord>, query: string)
    ensures forall k :: 0 <= k < |Titles(MatchingTitles(results, query))| ==>
      Includes(ToLower(Titles(MatchingTitles(results, query))[k]), query)
  {
  }

  /** Of the titles "Naruto" and "One Piece", the query "naru" keeps only "Naruto". */
  lemma NarutoExample(naruto: AnimeRecord, onePiece: AnimeRecord)
    requires naruto.title == "Naruto" && onePiece.title == "One Piece"
    ensures MatchingTitles([naruto, onePiece], "naru") == [naruto]
  {
    NarutoMatches(naruto);
    OnePieceDoesNotMatch(onePiece);
    var keep := a => TitleMatches(a, "naru");
    assert [naruto, onePiece][1..] == [onePiece];
    assert Filter([onePiece], keep) == [] by {
      assert [onePiece][1..] == [];
    }
    assert Filter([naruto, onePiece], keep) == [naruto] + Filter([onePiece], keep);
  }

  lemma NarutoMatches(naruto: AnimeRecord)
    requires naruto.title == "Naruto"
    ensures TitleMatches(naruto, "naru")
  {
  }

  lemma OnePieceDoesNotMatch(onePiece: AnimeRecord)
    requires onePiece.title == "One Piece"
    ensures !TitleMatches(onePiece, "naru")
  {
    var lowered := ToLower(onePiece.title);
    forall k | 0 <= k < |lowered|
      ensures lowered[k] != 'a'
    {
      assert onePiece.title[k] != 'a' && onePiece.title[k] != 'A';
    }
    assert "naru"[1] == 'a';
    MissingCharNotIncluded(lowered, "naru", 'a');
  }
}
