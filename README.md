# Anime search page: a Dafny model of its render and event logic

The repository is a single browser script, `script.js`, behind a page that
searches an anime catalog service, shows a random title and lists
recommendations. This project models what the script decides and renders
once the catalog has answered:

- the three fetch functions, reduced to "the decoded list (for the random
  request, the decoded record wrapped in a one-element list), or `[]` when
  the call failed" (`Catalog`);
- the JavaScript semantics the script relies on: truthiness, `a || b`,
  `${...}` interpolation and the decimal text of an integer (`Js`), and the
  string methods `trim`, `toLowerCase` (ASCII only) and `includes`
  (`JsStrings`);
- the cards `displayAnime` and `displayRecommendations` build, as records of
  the strings they show, and the panel each render pass leaves (`Render`);
- the guards of the input handler and of the search button, and the
  case-insensitive title filter behind the suggestion box (`Suggest`);
- the page itself as a class `Ui.Page` whose fields are the input's value,
  the children of the result panel, the suggestion items, the suggestion
  box's visibility and the children of the recommendation panel. The three
  render functions append one child at a time in a loop, as the script's
  `forEach` does; each event listener is a method. A remote call is a
  parameter `Fetched<T>` (`Received(body)` or `Failed`) holding what the call
  came back with. Each handler whose request depends on a guard or an
  argument (the input handler, the search button, a suggestion item and a
  result card) returns the request it issued (`None` when its guard issued
  none), so "no search happens" is part of the contract; the random button
  always issues the same request and returns nothing.
- a client, `Session.SearchThenRecommend`, that runs a search and a card
  click on a fresh page and obtains its results from the handlers'
  contracts alone.

A panel is a sequence of `Child` values, either `Message(text)` (the `<p>`
the script writes when there is nothing to show) or `Card(card)`. The
invariant `Page.Valid` says that the suggestion box is never visible while
empty and that each panel holds exactly its message or cards only. Every
handler keeps it.

A suggestion item carries only its title, which is all the script puts into
it (script.js:76-85); no identifier is kept for it.

Numbers are not computed with: an episode count is an integer rendered
with `Js.NumberText`, and a score is kept as the text JavaScript renders it
with, so that "0" (and "NaN") are its falsy values.

## Model

| member | source | states |
|---|---|---|
| Js.Truthy | script.js:57-58 | `null`, the empty string, the number 0 and NaN are falsy, and every other value is truthy: a non-empty string (the string "0" too) is truthy, `null` never is, and a falsy value's text is "null", "", "0" or "NaN". These are the tests of the `||` fallbacks; the other guards of the script are modelled directly on lists and strings |
| Js.Interpolate | script.js:55-59 | `${v}` (here and at lines 101-104) substitutes a string or a number's text as it is and `null` as "null" |
| Js.Or | script.js:57-58 | JavaScript's or-operator gives the left operand when that is truthy and the right operand otherwise, and the result is truthy exactly when either operand is |
| Js.NatText | script.js:57 | the decimal text of a natural number is all digits, denotes that number, has no leading zero, and is "0" exactly for 0 |
| Js.NumberText | script.js:57 | the text of an integer below 10^21 in magnitude is its digits denoting it, after a '-' exactly when it is negative, with no leading zero; it is "0" exactly when the integer is 0, so an episode count is falsy exactly when it is 0 |
| JsStrings.Trim | script.js:112 | `trim` gives the slice of the input with only whitespace before and after it and no whitespace at either of its ends; it is empty exactly when the whole input is whitespace |
| JsStrings.TrimStart | script.js:112 | the leading whitespace is removed and what remains is a suffix of the input that, if anything remains, starts with a non-whitespace character |
| JsStrings.TrimEnd | script.js:112 | the trailing whitespace is removed and what remains is a prefix of the input that, if anything remains, ends with a non-whitespace character |
| JsStrings.ToLower | script.js:112 | `toLowerCase` keeps the length and lowers each ASCII capital in place |
| JsStrings.ToLowerIdempotent | script.js:117 | lowering again changes nothing and no ASCII capital is left, so comparing a lowered title with the lowered query ignores case |
| JsStrings.Includes | script.js:117 | `includes` succeeds whenever the query is a prefix of the text (in particular for the empty query), and only for a query no longer than the text |
| JsStrings.IncludesIffOccurs | script.js:117 | `includes` succeeds exactly when the query occurs at some position of the text |
| JsStrings.MissingCharNotIncluded | script.js:117 | a query with a character the text lacks is not included in it |
| Catalog.ListOrEmpty | script.js:9-18 | `fetchAnime` and `fetchRecommendations` never fail: a failed call gives `[]`, a received one its list |
| Catalog.RandomList | script.js:21-30 | `fetchRandomAnime` gives at most one record: exactly the received record on success, and `[]` exactly on failure |
| Render.ScoreText | script.js:58 | the score line (here and on a recommendation card, line 103) shows "N/A" when the score is absent or 0 (or NaN), and the score's own text otherwise |
| Render.ResultCardOf | script.js:52-60 | a result card shows the record's image, title and link and keeps its identifier; its type is "Unknown" when absent or empty and the type itself otherwise; its episode count is "?" when absent or 0 and the count's decimal text otherwise; its score follows the score rule |
| Render.RecommendationCardOf | script.js:96-105 | a recommendation card shows the image, title, score and link that the result card of its entry record shows |
| Render.ResultsView | script.js:45-65 | the result panel after a render pass is exactly the "No results found." message or cards only; for a non-empty list it holds cards only, one per record |
| Render.RecommendationsView | script.js:90-107 | the recommendation panel after a render pass is exactly the "No recommendations available." message or cards only; for a non-empty list it holds cards only, one per entry |
| Render.ResultsViewEmpty | script.js:45-50 | the result panel is exactly the "No results found." message exactly when the list is empty or absent |
| Render.ResultsViewCards | script.js:51-65 | N records give exactly N cards in input order; card k is the card built from record k, so it carries that record's title, image, link and identifier |
| Render.RecommendationsViewShape | script.js:90-108 | the panel is exactly "No recommendations available." exactly when the list is empty; otherwise card k is the card built from entry k's record, in order, with that record's image, title, link and score |
| Suggest.InputQuery | script.js:112-113 | a suggestion search is issued only for a trimmed, lower-cased query of more than one character, and with that query |
| Suggest.InputQueryShort | script.js:112-122 | no suggestion search is issued exactly when the trimmed input has at most one character; whitespace-only input never searches |
| Suggest.SearchQuery | script.js:126-127 | the search button searches for the trimmed input, and only when it is not empty |
| Suggest.SearchQueryBlank | script.js:126-127 | the search button does nothing exactly when the input is all whitespace |
| Suggest.Filter | script.js:116 | `filter` keeps only elements of the list that the callback accepts, and at most as many as the list has |
| Suggest.FilterComplete | script.js:116 | every element the callback accepts is kept |
| Suggest.FilterAppend | script.js:116 | filtering distributes over concatenation, so relative order is preserved |
| Suggest.FilterCount | script.js:116 | an accepted element is kept as many times as it occurs, any other never |
| Suggest.TitleMatches | script.js:117 | the empty query matches every title, and a matching title is at least as long as the query |
| Suggest.MatchingTitles | script.js:116-118 | the filter keeps only results of the list whose lower-cased title includes the query, and at most as many as there are results |
| Suggest.MatchingTitlesComplete | script.js:116-118 | every result whose lower-cased title includes the query is kept |
| Suggest.MatchingTitlesAppend | script.js:116-118 | the filter distributes over concatenation, so relative order is preserved |
| Suggest.MatchingTitlesCount | script.js:116-118 | a matching record is kept as many times as it occurs, a non-matching one never |
| Suggest.MatchingTitlesOccur | script.js:116-118 | each kept title, lower-cased, contains the query at some position |
| Suggest.Titles | script.js:76-79 | the suggestion box gets one item per record, item k holding record k's title |
| Suggest.SuggestedTitlesMatch | script.js:116-119 | every title put into the suggestion box, lower-cased, includes the query |
| Suggest.NarutoExample | script.js:116-118 | of "Naruto" and "One Piece", the query "naru" keeps exactly "Naruto" |
| Ui.Page.constructor | script.js:1-6 | the page starts with an empty input, empty panels and no visible suggestions |
| Ui.Page.DisplayAnime | script.js:45-66 | the result panel's old children are discarded and it becomes the view of the list; nothing else changes |
| Ui.Page.ShowSuggestions | script.js:69-87 | the box holds one item per record, its title, and is visible exactly when the list is not empty; nothing else changes |
| Ui.Page.DisplayRecommendations | script.js:90-108 | the recommendation panel's old children are discarded and it becomes the view of the entries; nothing else changes |
| Ui.Page.OnInput | script.js:111-123 | the input takes the typed value; a search is issued exactly for a trimmed query longer than one character, and then the box shows every fetched title that includes the lower-cased query; otherwise the box is only hidden, its items kept; the panels do not change |
| Ui.Page.OnSearchClick | script.js:125-132 | for a blank input nothing changes and nothing is requested; otherwise the trimmed input is searched, the result panel shows what came back (`[]` on failure) and the box is hidden |
| Ui.Page.OnRandomClick | script.js:134-138 | the result panel shows the one random record, or the "No results found." message when the call failed, and the box is hidden |
| Ui.Page.OnSuggestionClick | script.js:80-84 | the input takes the item's title, the box is hidden and the search button's action runs with that title |
| Ui.Page.OnResultCardClick | script.js:61-63 | recommendations are requested for the clicked card's record and the recommendation panel shows what came back; nothing else changes |
| Session.SearchThenRecommend | script.js:111-138 | on a fresh page, typing a non-blank query and searching with eight records searches for the trimmed query and shows exactly the eight records' cards, in order; clicking the third requests that record's recommendations and shows what came back |

## Left out

- The network: `fetch`, the catalog's endpoint addresses, building the
  request URLs (including the page size of 8 in the search request and the
  query not being URL-encoded), decoding JSON and `console.error`. Each call
  is a `Fetched<T>` parameter; the model does not bound the length of a
  received list.
- Overlapping requests: the handlers are async and a stale response can
  overwrite a newer one. Each handler is modelled as one atomic step that
  completes with the response it is given.
- A missing `data` field in a response. `fetchAnime` would then return
  `undefined`: the input handler would throw in `.filter`, while the search
  button would call `displayAnime(undefined)`, which takes its "absent list"
  branch and shows "No results found." (script.js:47-48) without throwing.
  `fetchRecommendations` would return `undefined` and `displayRecommendations`
  would throw on `.length`. `fetchRandomAnime` would return `[undefined]`:
  `displayAnime` clears the panel, passes its guard and throws on reading
  `anime.images`, leaving the panel empty; the random listener then never
  hides the suggestion box (script.js:137). The model assumes the field is
  present.
- DOM mechanics: element creation, CSS classes, listener registration, the
  HTML markup of a card (its image alt text, heading, "More Info" link with
  `target="_blank"`) and the absence of HTML escaping. Cards are records of
  the strings they show.
- The document-wide "click outside" listener (script.js:141-145): it depends
  on DOM tree containment. The click on a suggestion item is inside the box,
  so that listener does nothing for it; but a click on the search button,
  the random button or a result card is outside the box, and that listener
  then hides the box as well. The contracts of `Ui.Page.OnSearchClick` (the
  box unchanged on a blank query) and `Ui.Page.OnResultCardClick` (the box
  unchanged) describe those buttons' and cards' own listeners only.
- Js.NumberText: an episode count is an integer below 10^21 in magnitude.
  JavaScript numbers are doubles: from 10^21 on `String(n)` switches to
  exponent form ("1e+21"), and a fractional or non-finite count is not
  represented.
- JsStrings.ToLower: lowers ASCII capitals only; JavaScript also lowers the
  rest of Unicode.
- Strings are sequences of Unicode scalar values rather than UTF-16 code
  units. This changes what a string's length counts.
- Suggest.InputQuery: the guard `query.length > 1` (script.js:113) counts
  UTF-16 code units in JavaScript but characters here. A trimmed input of one
  character outside the Basic Multilingual Plane, such as an emoji, has
  length 2 in JavaScript and issues a search; `Suggest.InputQuery` and
  `Ui.Page.OnInput` issue none for it.
- Catalog.AnimeRecord: a score is its rendered text, with no decimal
  arithmetic; a field of an unexpected JSON type is not represented.
- Ui.Page.constructor: the page's initial markup and stylesheet are not part
  of the model; the page is taken to start with empty panels and a hidden
  suggestion box.
