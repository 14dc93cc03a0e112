# Cache list adapter — list-management model

This project models the list-management core of c:geo's cache list adapter
(`CacheListAdapter`), the component that backs the scrollable list of
geocaches. The adapter owns an ordered list of cache records, each with a
mutable "checked" flag for multi-select. It also keeps a backup snapshot of
the list taken by the first filter call, the active filter, the select-mode
flag, the inverse-sort flag, the active comparator (none means "sort by
distance"), the time of the last distance sort, the device coordinates and
the list type.

Files and modules:

- `optional.dfy` (`Optional`): `Option`, standing for Java's `null`.
- `geocache.dfy` (`Geocaches`): the cache record as a class with a mutable
  `checked` flag, and the case-insensitive geocode comparison.
- `ordering.dfy` (`Ordering`): the library sort. It is modelled as stable
  insertion sort and proved to permute, to sort under a total preorder and to
  leave a sorted list unchanged.
- `checked.dfy` (`CheckedQueries`): the checked-flag queries (count and
  collected records) and their lemmas.
- `adapter_model.dfy` (`AdapterModel`): the adapter's fields as a value
  (`Snapshot`). It has one step function per state-changing operation and the
  properties of filtering, sorting and initial-comparator choice.
- `adapter.dfy` (`ListAdapter`): the adapter class itself. Each mutating
  method is proved to take `State()` to its step function's result and to do
  what it says to the checked flags. The file also holds the row touch
  listener and the checkbox listener.

Filters and comparators are classes outside this component. A filter is an
arbitrary function on lists. A comparator is a kind plus a relation "may come
before". The orderings of the comparators the adapter creates itself
(distance, event date, visit) are a constructor parameter. The clock is a
`now` parameter. The device position that the constructor reads from the
application is a constructor parameter.

Two properties one might expect hold only in part:

- One might expect that setting the same filter twice equals setting it
  once. The code guarantees this only while the snapshot is not stale
  (`SetFilterIdempotent`, `SetFilterStaleSnapshot`).
- One might expect distance re-sorting to be throttled to once per 1000 ms.
  Under position updates alone, two updates that reorder the list are more
  than 1000 ms apart (`Throttled`). The sort itself runs on every update once
  1000 ms have passed since the last reordering, because an update that leaves
  the order unchanged does not move the last-sort time. A forced sort by
  distance sets the last-sort time to 0 or to `now` (`ForceSortEffect`), so it
  is not held back by the pause either.

## Model

| member | source | states |
|---|---|---|
| `Ordering.SortPermutes` | main/src/cgeo/geocaching/ui/CacheListAdapter.java:311 | the sort only reorders: the result is a permutation of the input |
| `Ordering.SortSorted` | main/src/cgeo/geocaching/ui/CacheListAdapter.java:276 | under a total preorder, the sorted list is in comparator order |
| `Ordering.SortOfSorted` | main/src/cgeo/geocaching/ui/CacheListAdapter.java:311-316 | a list already in order is returned unchanged (stability), which is why an unchanged order can happen |
| `Ordering.SortIdempotent` | main/src/cgeo/geocaching/ui/CacheListAdapter.java:311 | sorting twice with a total preorder is the same as sorting once |
| `Ordering.InversePreorder` | main/src/cgeo/geocaching/ui/CacheListAdapter.java:321-326 | the inverse comparator of a total preorder is a total preorder |
| `CheckedQueries.CheckedCount` | main/src/cgeo/geocaching/ui/CacheListAdapter.java:230-238 | the checked count never exceeds the list size |
| `CheckedQueries.CheckedCachesLength` | main/src/cgeo/geocaching/ui/CacheListAdapter.java:631-639 | the number of collected checked records equals the checked count |
| `CheckedQueries.CheckedCachesMembers` | main/src/cgeo/geocaching/ui/CacheListAdapter.java:631-639 | a record is collected iff it is in the list and checked |
| `CheckedQueries.CheckedCachesInOrder` | main/src/cgeo/geocaching/ui/CacheListAdapter.java:631-639 | the collected records are a subsequence of the list (list order kept) |
| `CheckedQueries.NoneChecked` | main/src/cgeo/geocaching/ui/CacheListAdapter.java:641-655 | count zero iff nothing collected iff no record checked, so both "checked or all" queries fall back together |
| `CheckedQueries.DistinctOccursOnce` | main/src/cgeo/geocaching/ui/CacheListAdapter.java:259-264 | in a list without repeated records each record occurs once, so inversion flips it once |
| `CheckedQueries.FlippedCount` | main/src/cgeo/geocaching/ui/CacheListAdapter.java:259-264 | after every flag of the list is flipped, the count is the list size minus the old count |
| `AdapterModel.SetFilterKeepsSnapshot` | main/src/cgeo/geocaching/ui/CacheListAdapter.java:200-217 | setting a filter records it, keeps "filtered implies snapshot", takes the snapshot only if none exists and never replaces it |
| `AdapterModel.SetFiltersKeepSnapshot` | main/src/cgeo/geocaching/ui/CacheListAdapter.java:201-204 | after any non-empty run of filter settings the snapshot is the one the first call backed up |
| `AdapterModel.FiltersDoNotCompose` | main/src/cgeo/geocaching/ui/CacheListAdapter.java:206-216 | once a filter is active, setting a filter gives that filter applied to the snapshot (clearing gives the snapshot), whatever came before |
| `AdapterModel.ClearFilterRestores` | main/src/cgeo/geocaching/ui/CacheListAdapter.java:208-224 | clearing an active filter restores the snapshot in order and membership, and the list is no longer filtered |
| `AdapterModel.SetFilterIdempotent` | main/src/cgeo/geocaching/ui/CacheListAdapter.java:200-217 | setting the same filter twice equals setting it once when the snapshot is not stale |
| `AdapterModel.SetFilterLosesAppended` | main/src/cgeo/geocaching/ui/CacheListAdapter.java:202-216 | a record added to the list while no filter is active is gone after setting a filter and clearing it, because the clear restores the stale snapshot |
| `AdapterModel.SetFilterStaleSnapshot` | main/src/cgeo/geocaching/ui/CacheListAdapter.java:202-216 | with a stale snapshot and no active filter, the second call filters the old snapshot order, so idempotence fails |
| `AdapterModel.ReFilterEffect` | main/src/cgeo/geocaching/ui/CacheListAdapter.java:188-195 | re-filtering changes nothing without a filter; otherwise it backs up the current list and filters it |
| `AdapterModel.PotentialInversionPreorder` | main/src/cgeo/geocaching/ui/CacheListAdapter.java:321-326 | the possibly inverted comparator is a total preorder when the comparator is |
| `AdapterModel.UpdateSortByDistanceGates` | main/src/cgeo/geocaching/ui/CacheListAdapter.java:294-309 | the distance re-sort changes nothing on an empty list, in select mode, within 1000 ms of the last sort, for a non-distance comparator or without coordinates |
| `AdapterModel.UpdateSortByDistanceEffect` | main/src/cgeo/geocaching/ui/CacheListAdapter.java:310-319 | the distance re-sort only permutes the list, keeps all other fields, and moves the last-sort time to `now` only when the order changed and the pause had passed |
| `AdapterModel.UpdateSortByDistanceSorts` | main/src/cgeo/geocaching/ui/CacheListAdapter.java:294-311 | once all five gates pass, the distance re-sort leaves the list in (possibly inverted) distance order, whether or not the order changed |
| `AdapterModel.ForceSortEffect` | main/src/cgeo/geocaching/ui/CacheListAdapter.java:266-280 | a forced sort does nothing on an empty list or in select mode, and otherwise only permutes the list; a distance sort leaves the last-sort time at 0 or `now`, a comparator sort leaves it unchanged |
| `AdapterModel.ForceSortByComparator` | main/src/cgeo/geocaching/ui/CacheListAdapter.java:275-277 | with a non-distance comparator, a forced sort leaves the list in the (possibly inverted) comparator order |
| `AdapterModel.LastSortNeverDecreases` | main/src/cgeo/geocaching/ui/CacheListAdapter.java:301-318 | position updates never move the last-sort time backwards |
| `AdapterModel.Throttled` | main/src/cgeo/geocaching/ui/CacheListAdapter.java:282-319 | under position updates alone, two updates that both reorder the list are more than 1000 ms apart |
| `AdapterModel.InitialChoiceOfPermutation` | main/src/cgeo/geocaching/ui/CacheListAdapter.java:666-677 | the events-only test does not depend on list order |
| `AdapterModel.SetInitialComparatorChoice` | main/src/cgeo/geocaching/ui/CacheListAdapter.java:657-680 | no-op once a comparator is set; otherwise visit for a history list, event date for a non-empty all-event list, else distance |
| `AdapterModel.SetInitialComparatorTwice` | main/src/cgeo/geocaching/ui/CacheListAdapter.java:657-680 | choosing the initial comparator twice leaves the same comparator and list as choosing it once |
| `ListAdapter.CacheListAdapter.constructor` | main/src/cgeo/geocaching/ui/CacheListAdapter.java:115-126 | initial state: no filter, no snapshot, select mode off, no inversion, last sort 0, visit comparator only for the history list |
| `ListAdapter.CacheListAdapter.SetComparator` | main/src/cgeo/geocaching/ui/CacheListAdapter.java:159-162 | sets the comparator, then force-sorts |
| `ListAdapter.CacheListAdapter.ResetInverseSort` | main/src/cgeo/geocaching/ui/CacheListAdapter.java:164-166 | clears the inverse flag, nothing else changes |
| `ListAdapter.CacheListAdapter.ToggleInverseSort` | main/src/cgeo/geocaching/ui/CacheListAdapter.java:168-170 | negates the inverse flag, nothing else changes |
| `ListAdapter.CacheListAdapter.IsSortedByDistance` | main/src/cgeo/geocaching/ui/CacheListAdapter.java:328-330 | when not sorting by distance there is a comparator, and it is not a distance comparator (so a missing comparator means sorting by distance) |
| `ListAdapter.CacheListAdapter.GetPotentialInversion` | main/src/cgeo/geocaching/ui/CacheListAdapter.java:321-326 | with inverse sorting on, the comparator compares its arguments swapped; otherwise it is the comparator itself |
| `ListAdapter.CacheListAdapter.IsFiltered` | main/src/cgeo/geocaching/ui/CacheListAdapter.java:222-224 | a filtered adapter always has a snapshot to restore |
| `ListAdapter.CacheListAdapter.ForceSort` | main/src/cgeo/geocaching/ui/CacheListAdapter.java:266-280 | the new state is the forced-sort step (see `ForceSortEffect`) and the invariant is kept |
| `ListAdapter.CacheListAdapter.SetActualCoordinates` | main/src/cgeo/geocaching/ui/CacheListAdapter.java:282-284 | records the coordinates, then runs the throttled distance re-sort |
| `ListAdapter.CacheListAdapter.UpdateSortByDistance` | main/src/cgeo/geocaching/ui/CacheListAdapter.java:294-319 | the new state is the gated distance re-sort step |
| `ListAdapter.CacheListAdapter.SetInitialComparator` | main/src/cgeo/geocaching/ui/CacheListAdapter.java:657-680 | its events-only loop and choice give the initial-comparator step |
| `ListAdapter.CacheListAdapter.FindCacheByGeocode` | main/src/cgeo/geocaching/ui/CacheListAdapter.java:176-184 | returns the first record whose geocode equals the argument ignoring case, and none iff no record matches |
| `ListAdapter.CacheListAdapter.ReFilter` | main/src/cgeo/geocaching/ui/CacheListAdapter.java:188-195 | the new state is the re-filter step |
| `ListAdapter.CacheListAdapter.SetFilter` | main/src/cgeo/geocaching/ui/CacheListAdapter.java:200-220 | the new state is the set-filter step; afterwards the adapter is filtered iff a filter was given, and clearing an active filter restores the snapshot; the checked flags are untouched |
| `ListAdapter.CacheListAdapter.GetCheckedCount` | main/src/cgeo/geocaching/ui/CacheListAdapter.java:230-238 | returns the number of checked records of the list |
| `ListAdapter.CacheListAdapter.SetSelectMode` | main/src/cgeo/geocaching/ui/CacheListAdapter.java:240-249 | sets the mode; leaving select mode clears every flag of the list, entering it keeps every flag |
| `ListAdapter.CacheListAdapter.SwitchSelectMode` | main/src/cgeo/geocaching/ui/CacheListAdapter.java:255-257 | negates the mode, with the flag effects of setting the new mode |
| `ListAdapter.CacheListAdapter.InvertSelection` | main/src/cgeo/geocaching/ui/CacheListAdapter.java:259-264 | flips each record once per occurrence; in a list without repeats every flag flips and the count becomes size minus old count; nothing else changes |
| `ListAdapter.CacheListAdapter.GetCheckedCaches` | main/src/cgeo/geocaching/ui/CacheListAdapter.java:631-639 | returns the checked records in list order |
| `ListAdapter.CacheListAdapter.GetCheckedOrAllCaches` | main/src/cgeo/geocaching/ui/CacheListAdapter.java:641-647 | returns the checked records, or the whole list when none is checked; its length is what the "checked or all" count returns |
| `ListAdapter.CacheListAdapter.GetCheckedOrAllCount` | main/src/cgeo/geocaching/ui/CacheListAdapter.java:649-655 | returns the checked count, or the list size when none is checked |
| `ListAdapter.InvertSelectionTwice` | main/src/cgeo/geocaching/ui/CacheListAdapter.java:259-264 | inverting the selection twice restores every flag |
| `ListAdapter.TouchListener.constructor` | main/src/cgeo/geocaching/ui/CacheListAdapter.java:537-545 | a new row listener is bound to its adapter and cache and accepts taps |
| `ListAdapter.TouchListener.OnClick` | main/src/cgeo/geocaching/ui/CacheListAdapter.java:549-563 | a tap right after a swipe is swallowed; in select mode it toggles exactly this row's flag; otherwise it opens the detail view for the geocode |
| `ListAdapter.TouchListener.OnLongClick` | main/src/cgeo/geocaching/ui/CacheListAdapter.java:567-574 | a long tap right after a swipe is swallowed; otherwise the context menu opens |
| `ListAdapter.TouchListener.OnFling` | main/src/cgeo/geocaching/ui/CacheListAdapter.java:597-624 | left-to-right enters select mode and checks the row; right-to-left leaves select mode and clears all flags; otherwise nothing changes |
| `ListAdapter.TouchListener.OnTouch` | main/src/cgeo/geocaching/ui/CacheListAdapter.java:578-585 | a handled swipe makes the next tap or long tap a swallowed one, and has the swipe's effect on select mode, the list and the flags |
| `ListAdapter.SelectionCheckBoxListener.constructor` | main/src/cgeo/geocaching/ui/CacheListAdapter.java:523-525 | the listener is bound to its cache |
| `ListAdapter.SelectionCheckBoxListener.OnClick` | main/src/cgeo/geocaching/ui/CacheListAdapter.java:528-532 | the record's flag takes the checkbox's new state |

## Left out

- Row rendering in `getView` is not modelled: view inflation, the view holder, spans, icons, the icon table and visibility toggles are Android UI.
- The favourite-rating background tiers and the 5° threshold of `setActualHeading` are not modelled: both are floating-point comparisons on display state.
- `notifyDataSetChanged`, the distance and compass view update loops, the detail activity start and the context menu are framework side effects. `OnClick` returns `OpenDetail` and `OnLongClick` returns `ShowContextMenu` in their place.
- The swipe thresholds of `FlingGesture.onFling` use float displacement and velocity, and its catch-all exception handler is not modelled. The gesture outcome is the abstract `Fling` value.
- The filter and comparator classes are not modelled. A filter is any list function, and a comparator is a kind plus a relation. `Ordering.Sort` stands for the library's stable sort; the library's exception for comparators that break their contract is not modelled.
- `Geocache.equals` is not part of this model. The "order unchanged" test compares records by reference.
- The Java `long` clock arithmetic is unbounded here. Overflow of `now - lastSort` is not modelled.
- `updateSortByDistance` reads the clock twice; both readings are the single `now` parameter.
- `getFilterName`, `getCacheComparator`, `isSelectMode` and `getFilteredList` are plain getters. The model reads the fields directly. `getFilterName` without a filter would throw a null-pointer exception, and that is not modelled.
- Callers can change the list they share with the adapter between calls. That is not modelled, except through `ReFilter`, the operation called after such a change.
- `FindCacheByGeocode` folds case only for the ASCII letters. The Unicode case mapping of `equalsIgnoreCase` and a null argument are not modelled.
- `SetInitialComparatorTwice` does not state that `lastSort` is the same after two calls, because it can differ. With no comparator set, each call force-sorts by distance. A forced sort resets `lastSort` to 0 and leaves it at 0 when the order does not change, so a second call can undo the first call's update of `lastSort`.
- `SetFilterIdempotent` requires a snapshot that is not stale, which is weaker than unconditional idempotence. The code filters the current list when no filter is active but restores the old snapshot on the next call (`SetFilterStaleSnapshot`). A stale snapshot also drops records added while no filter was active once a filter is set and cleared (`SetFilterLosesAppended`).
