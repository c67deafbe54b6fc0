/**
  The search sheet's state and the steps that change it: submitting a search,
  the search's completion, the clear-text and "Clear" buttons, which screen
  the sheet shows, and the place handed on when a result is picked. The map
  search itself and its suggestion provider are outside the model: their
  answers enter as parameters.
 */
module SearchSheet {
  import opened Wrappers
  import opened AddressFormat
  import RecentSearches
  import MapPreview
  import Numeric

  /** A search hit: its optional name, its placemark and its position. */
  datatype MapItem = MapItem(name: Option<string>, placemark: Placemark, coordinate: MapPreview.Coordinate)

  datatype SheetState = SheetState(
    searchText: string,
    results: seq<MapItem>,
    isSearching: bool,
    recent: seq<string>)

  /**
    Submitting `query`: ignored when empty; otherwise the text field shows the
    query, the query is recorded among the recent searches, the old results
    are dropped and the sheet waits for the search to finish.
   */
  function PerformFullSearch(s: SheetState, query: string): (r: SheetState)
    ensures query == "" ==> r == s
    ensures query != "" ==>
              && r.searchText == query
              && r.isSearching
              && r.results == []
              && query in r.recent
    ensures query != "" ==> r.recent == RecentSearches.Record(s.recent, query)
    ensures query != "" && query !in s.recent ==>
              r.recent == [query] + s.recent[..Numeric.MinInt(|s.recent|, RecentSearches.Capacity - 1)]
    ensures query in s.recent ==> r.recent == s.recent
    ensures RecentSearches.Valid(s.recent) ==> RecentSearches.Valid(r.recent)
  {
    if query == "" then s
    else SheetState(query, [], true, RecentSearches.Record(s.recent, query))
  }

  /**
    The search finished: the sheet stops waiting; a successful answer replaces
    the results, a failed one (an error, or no response) leaves them as they
    were. Nothing else changes.
   */
  function SearchCompleted(s: SheetState, response: Option<seq<MapItem>>): (r: SheetState)
    ensures !r.isSearching
    ensures r.searchText == s.searchText && r.recent == s.recent
    ensures response.Some? ==> r.results == response.value
    ensures response.None? ==> r.results == s.results
  {
    match response
    case None => s.(isSearching := false)
    case Some(items) => s.(isSearching := false, results := items)
  }

  /** A failed search leaves an empty result list: submitting already cleared it. */
  lemma FailedSearchShowsNoResults(s: SheetState, query: string)
    requires query != ""
    ensures SearchCompleted(PerformFullSearch(s, query), None).results == []
    ensures !SearchCompleted(PerformFullSearch(s, query), None).isSearching
  {
  }

  /** The clear button in the search field: empties the text and the results. */
  function ClearSearchText(s: SheetState): (r: SheetState)
    ensures r.searchText == "" && r.results == []
    ensures r.isSearching == s.isSearching && r.recent == s.recent
  {
    s.(searchText := "", results := [])
  }

  /** The "Clear" button under "Recent Searches": forgets them all, nothing else. */
  function ClearRecent(s: SheetState): (r: SheetState)
    ensures r.recent == [] && RecentSearches.Displayed(r.recent) == []
    ensures r.searchText == s.searchText && r.results == s.results && r.isSearching == s.isSearching
  {
    s.(recent := RecentSearches.Clear(s.recent))
  }

  /** What the lower part of the sheet shows. */
  datatype Screen =
    | Searching
    | Results(items: seq<MapItem>)
    | Suggestions
    | NoResults
    | Home(shownRecent: seq<string>)

  /**
    The first matching case wins: a running search, then results, then
    live suggestions for typed text, then "No results found" for typed text,
    and otherwise the home list with up to five recent searches.
   */
  function CurrentScreen(s: SheetState, suggestionCount: nat): (v: Screen)
    ensures v.Searching? <==> s.isSearching
    ensures v.Results? <==> !s.isSearching && s.results != []
    ensures v.Results? ==> v.items == s.results
    ensures v.Suggestions? <==> !s.isSearching && s.results == [] && s.searchText != "" && suggestionCount > 0
    ensures v.NoResults? <==> !s.isSearching && s.results == [] && s.searchText != "" && suggestionCount == 0
    ensures v.Home? <==> !s.isSearching && s.results == [] && s.searchText == ""
    ensures v.Home? ==> v.shownRecent == RecentSearches.Displayed(s.recent)
    ensures v.Home? ==> |v.shownRecent| <= RecentSearches.DisplayLimit && v.shownRecent <= s.recent
  {
    if s.isSearching then Searching
    else if s.results != [] then Results(s.results)
    else if s.searchText != "" && suggestionCount > 0 then Suggestions
    else if s.searchText != "" then NoResults
    else Home(RecentSearches.Displayed(s.recent))
  }

  /**
    Clearing the text while no search is running brings back the home list,
    whatever was on screen before.
   */
  lemma ClearTextShowsHome(s: SheetState, suggestionCount: nat)
    requires !s.isSearching
    ensures CurrentScreen(ClearSearchText(s), suggestionCount) == Home(RecentSearches.Displayed(s.recent))
  {
  }

  /** A successful search that found something shows exactly its hits. */
  lemma SearchShowsHits(s: SheetState, query: string, items: seq<MapItem>, suggestionCount: nat)
    requires query != "" && items != []
    ensures CurrentScreen(SearchCompleted(PerformFullSearch(s, query), Some(items)), suggestionCount) == Results(items)
  {
  }

  /** The place handed on when a result is picked (the type is declared by the caller). */
  datatype PlaceInfo = PlaceInfo(name: string, coordinate: MapPreview.Coordinate, address: string)

  /** A picked result: its name or "Selected Location", its position, its formatted address. */
  function SelectSearchResult(item: MapItem): (p: PlaceInfo)
    ensures item.name.Some? ==> p.name == item.name.value
    ensures item.name.None? ==> p.name == "Selected Location"
    ensures p.coordinate == item.coordinate
    ensures p.address != ""
    ensures p.address == FormatAddress(item.placemark)
    ensures Joined(item.placemark) != "" ==> p.address == Joined(item.placemark)
    ensures Joined(item.placemark) == "" ==> p.address == NoAddress
  {
    PlaceInfo(item.name.GetOr("Selected Location"), item.coordinate, FormatAddress(item.placemark))
  }
}
