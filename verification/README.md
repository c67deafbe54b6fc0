# CloseBy: verified model of the tracking and search logic

CloseBy is an iOS map app: the user picks a place by long-press or search,
and a tracking sheet shows the straight-line distance to it with a progress
bar. Almost all of it is SwiftUI layout and MapKit/CoreLocation wrappers. This
project models, in Dafny, the few pieces of plain logic inside the two sheets:

- **DistanceTracker** (`distance_tracker.dfy`): the tracking sheet's remembered
  baseline (`initialDistance`), the progress fraction computed from it, the
  appear hook that seeds it, the status message and red→yellow→green colour
  bound to the fraction, the metres/kilometres and percent labels, and one
  evaluation of the panel as a whole. A run of distance samples is the
  per-render progress computation applied in order.
- **MapPreview** (`map_preview.dfy`): the preview map's region, centred on the
  midpoint of the two pins with a padded span.
- **AddressFormat** (`address_format.dfy`): the result address line, built by
  dropping absent placemark fields, joining the rest with ", " and falling
  back to "No address available".
- **RecentSearches** (`recent_searches.dfy`): the recent-searches list
  (newest first, no move-to-front, capped at 10, five shown, "Clear").
- **SearchSheet** (`search_sheet.dfy`): the search sheet's state through
  submitting a search, its completion, the two clear buttons, the screen
  selection and the place built from a picked result.
- **Wrappers** (`wrappers.dfy`): `Option`, standing in for Swift optionals.

All `Double` arithmetic is modelled over Dafny's exact `real`; Swift's `Int(x)`
is truncation toward zero.

## Model

| member | source | states |
|---|---|---|
| DistanceTracker.Progress | CloseBy/CloseBy/DistanceTrackerSheet.swift:144-157 | without a positive baseline the call stores the current distance as baseline and returns 0; with one, the baseline is untouched, the result lies in [0, 1], equals the closed fraction (baseline − current)/baseline inside [0, baseline], is 0 at or beyond the baseline and 1 at or below 0 |
| DistanceTracker.ProgressNonIncreasing | CloseBy/CloseBy/DistanceTrackerSheet.swift:151-156 | for a fixed positive baseline, a larger current distance never gives more progress |
| DistanceTracker.ProgressRegresses | CloseBy/CloseBy/DistanceTrackerSheet.swift:151-156 | within [0, baseline] moving away strictly lowers progress: no high-water mark is kept |
| DistanceTracker.HalfwayIsHalf | CloseBy/CloseBy/DistanceTrackerSheet.swift:151-156 | at half the baseline distance the progress is exactly 0.5 and the baseline is kept |
| DistanceTracker.Appear | CloseBy/CloseBy/DistanceTrackerSheet.swift:136-141 | the appear hook never overwrites a stored baseline, does nothing without a distance, and stores the distance when no baseline exists |
| DistanceTracker.AppearIdempotent | CloseBy/CloseBy/DistanceTrackerSheet.swift:138-140 | appearing again changes nothing; after a baseline was taken no later appear changes it |
| DistanceTracker.AppearThenProgress | CloseBy/CloseBy/DistanceTrackerSheet.swift:138-148 | should the hook run before any progress computation, a positive baseline it takes survives the first computation, which shows 0 for the same distance |
| DistanceTracker.FirstRenderThenAppear | CloseBy/CloseBy/DistanceTrackerSheet.swift:136-148 | in the actual first-display order (body, then hook) the first computation captures the distance and shows 0, and the hook then leaves that baseline unchanged |
| DistanceTracker.Track | CloseBy/CloseBy/DistanceTrackerSheet.swift:144-157 | over any run of samples, one progress value per sample, each in [0, 1], and an existing positive baseline is the final one |
| DistanceTracker.BaselineSetOnce | CloseBy/CloseBy/DistanceTrackerSheet.swift:145-148 | from a fresh sheet, the first positive sample becomes the baseline, shows 0, and stays the baseline for the whole run |
| DistanceTracker.ConstantDistanceConstantProgress | CloseBy/CloseBy/DistanceTrackerSheet.swift:151-156 | with a positive baseline, a run at any constant distance shows on every sample the progress that distance gives against that one baseline; 0 when it equals the baseline |
| DistanceTracker.StraightWalk | CloseBy/CloseBy/DistanceTrackerSheet.swift:144-157 | from a fresh sheet the samples d, d/2, 0 show progress 0, 0.5, 1 |
| DistanceTracker.StatusMessage | CloseBy/CloseBy/DistanceTrackerSheet.swift:168-180 | the result is one of the five messages, and each message is returned exactly on its progress interval: ≥ 0.95, [0.85, 0.95), [0.6, 0.85), [0.3, 0.6), < 0.3 |
| DistanceTracker.StatusIsHighestThresholdMet | CloseBy/CloseBy/DistanceTrackerSheet.swift:168-180 | the message equals the table entry indexed by how many of the thresholds 0.3, 0.6, 0.85, 0.95 are met, i.e. the highest threshold met wins |
| DistanceTracker.CountMetMonotone | CloseBy/CloseBy/DistanceTrackerSheet.swift:168-180 | more progress never meets fewer thresholds, so the message tier never drops as progress grows |
| DistanceTracker.ProgressColor | CloseBy/CloseBy/DistanceTrackerSheet.swift:159-166 | blue is 0 and red or green is saturated; on [0, 1] red and green lie in [0, 1]; red at 0, yellow at 0.5 (both branches meet there), green at 1 |
| DistanceTracker.ColorLipschitz | CloseBy/CloseBy/DistanceTrackerSheet.swift:159-166 | each channel changes by at most twice the change in progress, for all pairs of inputs, so the two-segment ramp is continuous at the split |
| DistanceTracker.ColorMonotone | CloseBy/CloseBy/DistanceTrackerSheet.swift:159-166 | as progress grows red never increases and green never decreases |
| DistanceTracker.DistanceText | CloseBy/CloseBy/DistanceTrackerSheet.swift:54-58 | metres are shown exactly below 1000, as `Int(distance)`: the whole number in 0..999 with meters ≤ distance < meters + 1; otherwise kilometres, at least 1, scaling back to the distance |
| DistanceTracker.PercentText | CloseBy/CloseBy/DistanceTrackerSheet.swift:70 | for a progress in [0, 1] the percent figure is in 0..100 and is the largest whole number not above progress × 100 |
| DistanceTracker.Render | CloseBy/CloseBy/DistanceTrackerSheet.swift:48-98 | without a distance the spinner is shown and the baseline is untouched; with one, the panel's progress is the progress computation's, and the distance label, percent, message and colour are exactly what the distance-label, percent, status and colour functions give for that distance and progress, so the percent is in 0..100, the message is one of the five, and the colour channels lie in [0, 1] with blue 0 |
| DistanceTracker.PanelConsistent | CloseBy/CloseBy/DistanceTrackerSheet.swift:66-96 | within one panel the arrival message appears exactly when the percent reads 95 or more, and the bar is pure green exactly when it reads 100 |
| MapPreview.Midpoint | CloseBy/CloseBy/DistanceTrackerSheet.swift:250-255 | the centre is equidistant from both points on each axis and lies between them |
| MapPreview.SpanToShowBoth | CloseBy/CloseBy/DistanceTrackerSheet.swift:257-266 | each delta is at least 0.005 and at least 1.5 × the coordinate difference, and equals one of the two |
| MapPreview.PreviewSymmetric | CloseBy/CloseBy/DistanceTrackerSheet.swift:250-266 | midpoint, span and region do not depend on the order of the two points |
| MapPreview.PreviewShowsBoth | CloseBy/CloseBy/DistanceTrackerSheet.swift:220-223 | both pins lie strictly inside the region, each at most a third of the span from the centre |
| AddressFormat.CompactMap | CloseBy/CloseBy/SearchBottomSheetView.swift:385 | the result has one entry per present field |
| AddressFormat.CompactMapMembers | CloseBy/CloseBy/SearchBottomSheetView.swift:385 | a string survives compaction exactly when it was present; empty strings are kept |
| AddressFormat.CompactMapAppend | CloseBy/CloseBy/SearchBottomSheetView.swift:378-385 | compaction preserves order: compacting a concatenation is concatenating the compactions |
| AddressFormat.Join | CloseBy/CloseBy/SearchBottomSheetView.swift:386 | the join of no items is empty; of n > 0 items its length is their total length plus n − 1 separators |
| AddressFormat.JoinAppend | CloseBy/CloseBy/SearchBottomSheetView.swift:386 | joining two non-empty lists puts exactly one separator between their joins |
| AddressFormat.JoinEmptyIff | CloseBy/CloseBy/SearchBottomSheetView.swift:386-388 | with a non-empty separator the join is empty exactly for no items or one empty item |
| AddressFormat.FormatAddress | CloseBy/CloseBy/SearchBottomSheetView.swift:377-389 | the result is never empty; it is the join of the present fields when that is non-empty and "No address available" when it is empty |
| AddressFormat.FallbackIff | CloseBy/CloseBy/SearchBottomSheetView.swift:385-388 | the join is empty exactly when no field is present, or one is and it is the empty string |
| AddressFormat.AllAbsentShowsFallback | CloseBy/CloseBy/SearchBottomSheetView.swift:378-388 | a placemark with all five fields absent shows "No address available" |
| AddressFormat.AllPresentInOrder | CloseBy/CloseBy/SearchBottomSheetView.swift:378-386 | with all five fields present the address is thoroughfare, subThoroughfare, locality, administrativeArea, postalCode joined by ", " |
| RecentSearches.Record | CloseBy/CloseBy/SearchBottomSheetView.swift:320-330 | an empty or already listed query leaves the list unchanged; a new one gives the query followed by the first nine old entries in order; a non-empty query is listed afterwards; a list of at most 10 stays at most 10; no duplicates before means none after |
| RecentSearches.RecordMembers | CloseBy/CloseBy/SearchBottomSheetView.swift:326-330 | after a new query the listed entries are exactly the query and the nine newest old entries; on a full duplicate-free list the oldest entry is gone |
| RecentSearches.Displayed | CloseBy/CloseBy/SearchBottomSheetView.swift:203 | the shown entries are a prefix of the list of length min(list length, 5) |
| RecentSearches.Clear | CloseBy/CloseBy/SearchBottomSheetView.swift:193-196 | after "Clear" the list is empty and nothing is shown |
| RecentSearches.NewQueryShownFirst | CloseBy/CloseBy/SearchBottomSheetView.swift:326-327 | a new query is the first entry shown |
| RecentSearches.HiddenEntryStaysHidden | CloseBy/CloseBy/SearchBottomSheetView.swift:326 | re-searching an entry listed below the shown five leaves the list unchanged and the entry hidden |
| RecentSearches.TapShownEntryKeepsList | CloseBy/CloseBy/SearchBottomSheetView.swift:203-205 | tapping a shown entry searches it again without changing the list |
| RecentSearches.RecordAllValid | CloseBy/CloseBy/SearchBottomSheetView.swift:326-330 | from a valid list, any sequence of searches keeps the list at most 10 long and duplicate-free, and every entry was listed before or is a non-empty searched query |
| SearchSheet.PerformFullSearch | CloseBy/CloseBy/SearchBottomSheetView.swift:319-335 | an empty query changes nothing; otherwise the text is the query, a search is running, old results are gone, and the list is the recent-list update for the query: a new query gives the query followed by the first nine old entries, an already listed one keeps the list; the list's bound and uniqueness are preserved |
| SearchSheet.SearchCompleted | CloseBy/CloseBy/SearchBottomSheetView.swift:345-355 | the search stops running; a successful answer replaces the results, a failed one keeps them; text and recent list are unchanged |
| SearchSheet.FailedSearchShowsNoResults | CloseBy/CloseBy/SearchBottomSheetView.swift:334-352 | a submitted search that fails ends with no results and no running search |
| SearchSheet.ClearSearchText | CloseBy/CloseBy/SearchBottomSheetView.swift:85-88 | the clear-text button empties the text and results and changes nothing else |
| SearchSheet.ClearRecent | CloseBy/CloseBy/SearchBottomSheetView.swift:193-196 | "Clear" empties the recent list and changes nothing else |
| SearchSheet.CurrentScreen | CloseBy/CloseBy/SearchBottomSheetView.swift:100-182 | each screen is shown exactly under its condition (running search; results; typed text with or without suggestions; otherwise home), and home shows exactly the first min(n, 5) recent searches |
| SearchSheet.ClearTextShowsHome | CloseBy/CloseBy/SearchBottomSheetView.swift:84-88 | clearing the text while no search runs returns to the home screen with the shown recent searches |
| SearchSheet.SearchShowsHits | CloseBy/CloseBy/SearchBottomSheetView.swift:345-355 | a submitted search that succeeds with hits shows exactly those hits |
| SearchSheet.SelectSearchResult | CloseBy/CloseBy/SearchBottomSheetView.swift:359-368 | the picked place has the item's name or "Selected Location", its coordinate, and and the formatted address: the joined fields when that join is non-empty, "No address available" when it is empty |

## Left out

- IEEE-754 behaviour: all `Double` arithmetic is exact `real`; rounding, NaN and infinities are not modelled, nor the trap `Int(x)` raises on them.
- The great-circle distance: the tracked distance comes from the location service and enters the model as a parameter.
- The location service's tracking members (`startDistanceTracking`, `stopDistanceTracking`, `trackedDestination`, `distanceToDestination`, `setSelectedPlace`) are called by the sheets but are not part of this model; `setSelectedPlace` is represented only by the value handed to it.
- `PlaceInfo` is declared outside the sheets; the model uses a record with the three fields the call passes.
- The map search (`MKLocalSearch`) and the suggestion completer (`SearchCompleter`): asynchronous platform calls. A search's answer enters `SearchCompleted` as an optional list, and the number of suggestions enters `CurrentScreen` as a count.
- Persistence of the recent searches in user defaults: I/O; the list is a plain value.
- `DistanceTracker.DistanceText`: the kilometre text's one-decimal `String(format:)` rendering is platform formatting; only the unit choice and value are modelled.
- `MapPreview.Midpoint`: longitude wrap-around at the antimeridian is not handled, as in the app, so points on either side of it get a centre on the far side of the globe.
- RecentSearches.Record: strings are compared by code points, not by Swift's canonical equivalence, so two differently composed spellings of one text (a precomposed "é" and "e" plus a combining accent) count as different queries; this applies to `RecentSearches.NoDuplicates` and `SearchSheet.PerformFullSearch` as well. Unicode normalisation is outside the model.
- DistanceTracker.Render: the map preview shown under the panel is not part of `Panel`; its region is modelled separately in `MapPreview`.
- Map rendering, annotations, the polyline overlay, gestures, focus handling and layout: UI only.
