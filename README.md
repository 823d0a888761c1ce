# Videos screen: search filter, snapshot construction and selection

A Dafny model of the logic in `VideosViewController`, a screen that shows a
catalogue of videos in a grid. The screen lets the user search by title,
rebuilds the listed videos on every search, hands the data source a fresh
one-section snapshot of them, and opens a tapped video's link.

- `Search` is the filter `filteredVideos(for:)`. A missing or empty query keeps
  the whole catalogue. Any other query keeps, in catalogue order, the videos
  whose lower-cased title contains the lower-cased query. The filter is
  proved to give a sub-sequence of its input. It is proved sound and
  complete, with exact multiplicities. It is also proved case-insensitive and
  idempotent, and a longer query is proved to only narrow the result.
- `Snapshots` models the part of a diffable-data-source snapshot the screen
  uses: sections holding item identifiers, `appendSections`,
  `appendItems(_:toSection: nil)` and `itemIdentifier(for:)`. An append that
  would repeat a section or an item identifier, or that adds items while
  there is no section, is an error result.
- `VideosController.VideosViewController` is the controller, written as a
  class. It holds the catalogue (`allVideos`, fixed), the listed videos
  (`videoList`) and the snapshot the data source last applied. Its invariant
  says that the catalogue has no duplicates and that the list is a
  sub-sequence of it, so building a snapshot never fails.
  `UpdateSearchResults` always filters from the catalogue, never from the
  current list. `ApplySnapshot` builds the snapshot step by step from empty.
  `DidSelectItemAt` returns the link to open, or nothing.
- `Layout` is the per-device choice in `configureLayout`. A phone gets one
  item per row, 280 points high. Any other device gets three per row, 250
  points high.
- `Scenarios` walks two concrete videos through the screen in verified
  lemmas and a scenario method: a search for "swift", then one for "uikit",
  then taps.

`Text` (ASCII lower-casing and substring containment), `Sequences`
(sub-sequences, duplicate-free sequences) and `Wrappers` (`Option`,
`Result`) are supporting modules.

`FilteredVideos` takes the list it filters as a parameter so that
idempotence can be stated; the controller always passes its catalogue,
`Video.allVideos`.

## Model

| member | source | states |
|---|---|---|
| Search.FilterByTitle | starter/DiffableDataSources/VideosViewController.swift:133-135 | the filtered list is no longer than its input, and every video in it matches the query |
| Search.FilteredVideos | starter/DiffableDataSources/VideosViewController.swift:128-136 | a nil or empty query returns the list unchanged; any query returns a sub-sequence of the list |
| Search.FilterIsSubsequence | starter/DiffableDataSources/VideosViewController.swift:133-135 | filtering keeps the original relative order: the result is a sub-sequence of the input |
| Sequences.SubsequenceLength | starter/DiffableDataSources/VideosViewController.swift:133-135 | a sub-sequence, and so a search result, is at most as long as the catalogue |
| Search.FilterCount | starter/DiffableDataSources/VideosViewController.swift:133-135 | each video occurs in the result as often as in the input if it matches, otherwise not at all |
| Search.FilterMembership | starter/DiffableDataSources/VideosViewController.swift:134 | a video is in the result if and only if it is in the input and its lower-cased title contains the lower-cased query |
| Search.VerbatimMatchFound | starter/DiffableDataSources/VideosViewController.swift:134 | a video whose title contains the query exactly as typed is always in the result |
| Search.FilterCaseInsensitive | starter/DiffableDataSources/VideosViewController.swift:134 | two queries with the same lower-case form select the same videos |
| Search.FilteredVideosCaseInsensitive | starter/DiffableDataSources/VideosViewController.swift:130-135 | the same for the screen's filter, empty query included |
| Search.FilterIdempotent | starter/DiffableDataSources/VideosViewController.swift:133-135 | filtering an already filtered list by the same query changes nothing |
| Search.FilteredVideosIdempotent | starter/DiffableDataSources/VideosViewController.swift:128-136 | the screen's filter is idempotent for every query, nil and empty included |
| Search.LowercasedQuerySameResult | starter/DiffableDataSources/VideosViewController.swift:134 | a query and its lower-cased form select the same videos |
| Search.FilterNarrowing | starter/DiffableDataSources/VideosViewController.swift:133-135 | when the longer query contains the shorter one, filtering the shorter query's result by the longer one equals filtering the whole list by the longer one |
| Sequences.SubsequenceNoDuplicates | starter/DiffableDataSources/VideosViewController.swift:79 | a list drawn in order from a duplicate-free catalogue is duplicate-free, so its items can be appended to a snapshot |
| Snapshots.Empty | starter/DiffableDataSources/VideosViewController.swift:77 | a new snapshot has no sections and no items |
| Snapshots.AppendSections | starter/DiffableDataSources/VideosViewController.swift:78 | succeeds exactly when the section identifiers stay unique; then the sections are added at the end, earlier sections are unchanged and no item is added |
| Snapshots.AppendItems | starter/DiffableDataSources/VideosViewController.swift:79 | fails with NoSection when there is no section and with DuplicateItem when an identifier would repeat; otherwise the items follow the existing ones in order, in the last section |
| Snapshots.AppendsPreserveValid | starter/DiffableDataSources/VideosViewController.swift:77-79 | an accepted append keeps section and item identifiers unique |
| Snapshots.SingleSectionBuild | starter/DiffableDataSources/VideosViewController.swift:77-79 | empty, then `.main`, then the items gives exactly one section holding the items in order, and succeeds exactly when the items are unique |
| Snapshots.ItemIdentifier | starter/DiffableDataSources/VideosViewController.swift:110 | a position yields an item exactly when its section and row are in range, and then the item stored there |
| VideosController.SelectInMainSnapshot | starter/DiffableDataSources/VideosViewController.swift:110 | in the screen's snapshot, row i of section 0 is the i-th listed video; every other position holds nothing |
| VideosController.VideosViewController.constructor | starter/DiffableDataSources/VideosViewController.swift:40 | a new screen lists the whole catalogue and its data source has applied nothing |
| VideosController.VideosViewController.ViewDidLoad | starter/DiffableDataSources/VideosViewController.swift:52-60 | after loading, the applied snapshot is the one-section snapshot of the listed videos |
| VideosController.VideosViewController.ApplySnapshot | starter/DiffableDataSources/VideosViewController.swift:74-84 | the applied snapshot becomes exactly one section `.main` whose items are the listed videos in order |
| VideosController.VideosViewController.UpdateSearchResults | starter/DiffableDataSources/VideosViewController.swift:122-126 | the list becomes the catalogue filtered by the search text, whatever it was before; the invariant is kept and the new list is applied |
| VideosController.VideosViewController.DidSelectItemAt | starter/DiffableDataSources/VideosViewController.swift:108-117 | a link is opened if and only if the tapped position holds a video that has a link, and then it is that video's link |
| Layout.ConfigureLayout | starter/DiffableDataSources/VideosViewController.swift:151-156 | a phone gets one item per row, 280 points high; every other device gets three per row, 250 points high |
| Scenarios.SwiftQueryScenario | starter/DiffableDataSources/VideosViewController.swift:128-136 | of "Swift Basics" and "UIKit Intro", the query "swift" keeps only "Swift Basics" |
| Scenarios.SearchesDoNotNarrowCumulatively | starter/DiffableDataSources/VideosViewController.swift:123-129 | searching "uikit" after "swift" lists "UIKit Intro", although filtering the "swift" result again would leave nothing |

## Left out

- The diffing engine and the animated apply (`dataSource.apply`) belong to UIKit, whose code is not part of this model. Applying a snapshot is modelled as it becoming the data source's applied snapshot.
- `animatingDifferences` only chooses whether UIKit animates the change, so the model has no such parameter.
- The `DispatchQueue.main.async` hop in `applySnapshot` is left out, because it is main-thread scheduling. The model applies synchronously.
- `String.lowercased()` is Unicode-aware. The model lower-cases ASCII `A`-`Z` only, and every filter property is stated relative to that function.
- Swift's `String.contains` compares Characters (grapheme clusters, under canonical equivalence). The model's `Contains` compares single Unicode scalars, so a title ending in "e" followed by a combining accent contains "cafe" in the model but not in Swift. Every filter property is stated relative to this scalar containment as well.
- `Video.allVideos` and the `Video` type are defined in `Video.swift`, which is not part of this model. The catalogue is a constructor argument kept in a constant field. A video is its title and optional link, and its identity in a snapshot is the value itself.
- VideosController.VideosViewController.constructor: requires a duplicate-free catalogue. UIKit rejects repeated item identifiers when a snapshot is built, and `Video`'s identity is not visible here.
- Snapshots.AppendItems: only the `toSection: nil` form the screen uses is modelled. UIKit reports a refused append by failing at run time; the model returns an error value instead.
- Cell dequeue and configuration are platform glue. The same goes for search-controller wiring, compositional-layout insets and spacing, layout invalidation on rotation, and Safari presentation and dismissal. `DidSelectItemAt` returns the link that would be presented.
- The `print("Invalid link")` on a tap without a link is console output. The tap simply opens nothing.
- The commented-out `UICollectionViewDataSource` extension is dead code.
