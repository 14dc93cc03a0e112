/**
  The cache list adapter: an ordered list of cache records shown in a list
  view, with a backup snapshot for filtering, a select mode with per-record
  check marks, and a sort order that follows the device position. Every
  state-changing method is proved against the step function of
  AdapterModel that describes it; the flags it touches are stated directly.
*/
module ListAdapter {
  import opened Optional
  import opened Geocaches
  import opened Ordering
  import opened CheckedQueries
  import opened AdapterModel

  class CacheListAdapter {
    /** The shown list, rebuilt by filtering and reordered by sorting. */
    var list: seq<Cache>
    /** Backup of the list taken by the first filter call. */
    var originalList: Option<seq<Cache>>
    var currentFilter: Option<Filter>
    var selectMode: bool
    var inverseSort: bool
    /** `None` means: sort by distance. */
    var cacheComparator: Option<Comparator>
    /** Clock reading (milliseconds) of the last distance sort that changed the order. */
    var lastSort: int
    /** Device coordinates, when known. */
    var coords: Option<Coords>
    const cacheListType: CacheListType
    /** Orderings of the comparators this adapter creates itself. */
    const orderings: Orderings

    ghost function State(): Snapshot
      reads this
    {
      Snapshot(list, originalList, currentFilter, selectMode, inverseSort, cacheComparator, lastSort, coords)
    }

    ghost predicate Valid()
      reads this
    {
      Inv(State())
    }

    /** `coords` is the position known when the adapter is created; a history list starts sorted by visit. */
    constructor (list: seq<Cache>, cacheListType: CacheListType, coords: Option<Coords>, orderings: Orderings)
      ensures Valid()
      ensures this.cacheListType == cacheListType && this.orderings == orderings
      ensures State() == Snapshot(list, None, None, false, false,
        if cacheListType == History then Some(Comparator(VisitKind, orderings.visit)) else None, 0, coords)
    {
      this.list := list;
      originalList := None;
      currentFilter := None;
      selectMode := false;
      inverseSort := false;
      lastSort := 0;
      this.coords := coords;
      this.cacheListType := cacheListType;
      this.orderings := orderings;
      cacheComparator := if cacheListType == History then Some(Comparator(VisitKind, orderings.visit)) else None;
    }

    // ------------------------------------------------------------ sorting

    method SetComparator(comparator: Option<Comparator>, now: int)
      requires Valid()
      modifies this
      ensures Valid()
      ensures State() == SetComparatorStep(old(State()), comparator, orderings, now)
    {
      cacheComparator := comparator;
      ForceSort(now);
    }

    method ResetInverseSort()
      modifies this
      ensures State() == old(State()).(inverseSort := false)
    {
      inverseSort := false;
    }

    method ToggleInverseSort()
      modifies this
      ensures State() == old(State()).(inverseSort := !old(inverseSort))
    {
      inverseSort := !inverseSort;
    }

    /** A missing comparator means distance; any other comparator than a distance one does not. */
    predicate IsSortedByDistance(): (r: bool)
      reads this
      ensures !r ==> cacheComparator.Some? && cacheComparator.value.kind != DistanceKind
    {
      SortedByDistance(cacheComparator)
    }

    /** The comparator with its arguments swapped when inverse sorting is on, unchanged otherwise (stated on the records it sorts). */
    function GetPotentialInversion(le: (Cache, Cache) -> bool): (r: (Cache, Cache) -> bool)
      reads this
      ensures inverseSort ==> forall a, b | a in list && b in list :: r(a, b) == le(b, a)
      ensures !inverseSort ==> forall a, b | a in list && b in list :: r(a, b) == le(a, b)
    {
      PotentialInversion(inverseSort, le)
    }

    method ForceSort(now: int)
      requires Valid()
      modifies this
      ensures Valid()
      ensures State() == ForceSortStep(old(State()), orderings, now)
    {
      if |list| == 0 || selectMode {
        return;
      }
      if IsSortedByDistance() {
        lastSort := 0;
        UpdateSortByDistance(now);
      } else {
        list := Sort(list, GetPotentialInversion(cacheComparator.value.le));
      }
    }

    method SetActualCoordinates(coords: Option<Coords>, now: int)
      requires Valid()
      modifies this
      ensures Valid()
      ensures State() == SetCoordinatesStep(old(State()), LocationUpdate(coords, now), orderings)
    {
      this.coords := coords;
      UpdateSortByDistance(now);
    }

    method UpdateSortByDistance(now: int)
      requires Valid()
      modifies this
      ensures Valid()
      ensures State() == UpdateSortByDistanceStep(old(State()), orderings, now)
    {
      if |list| == 0 {
        return;
      }
      if selectMode {
        return;
      }
      if now - lastSort <= PauseBetweenListSort {
        return;
      }
      if !IsSortedByDistance() {
        return;
      }
      if coords.None? {
        return;
      }
      var oldList := list;
      list := Sort(list, GetPotentialInversion(orderings.distance(coords.value)));
      if list == oldList {
        return;
      }
      lastSort := now;
    }

    method SetInitialComparator(now: int)
      requires Valid()
      modifies this
      ensures Valid()
      ensures State() == SetInitialComparatorStep(old(State()), cacheListType, orderings, now)
    {
      if cacheComparator.Some? {
        return;
      }
      var comparator: Option<Comparator> := None;
      if cacheListType == History {
        comparator := Some(Comparator(VisitKind, orderings.visit));
      } else if |list| > 0 {
        var eventsOnly := true;
        var i := 0;
        while i < |list|
          invariant 0 <= i <= |list|
          invariant eventsOnly == forall k | 0 <= k < i :: list[k].isEvent
          invariant !eventsOnly ==> !AllEvents(list)
        {
          if !list[i].isEvent {
            eventsOnly := false;
            break;
          }
          i := i + 1;
        }
        if eventsOnly {
          comparator := Some(Comparator(EventDateKind, orderings.eventDate));
        }
      }
      SetComparator(comparator, now);
    }

    // ------------------------------------------------------------ lookup

    /** The first record whose geocode equals `geocode` ignoring case, if any. */
    method FindCacheByGeocode(geocode: string) returns (r: Option<Cache>)
      ensures r.None? <==> forall c | c in list :: !EqualsIgnoreCase(c.geocode, geocode)
      ensures r.Some? ==> exists i | 0 <= i < |list| ::
        && list[i] == r.value
        && EqualsIgnoreCase(r.value.geocode, geocode)
        && forall k | 0 <= k < i :: !EqualsIgnoreCase(list[k].geocode, geocode)
    {
      for i := 0 to |list|
        invariant forall k | 0 <= k < i :: !EqualsIgnoreCase(list[k].geocode, geocode)
      {
        if EqualsIgnoreCase(list[i].geocode, geocode) {
          return Some(list[i]);
        }
      }
      return None;
    }

    // ------------------------------------------------------------ filtering

    /** Called when a new page of caches was loaded into the list. */
    method ReFilter()
      requires Valid()
      modifies this
      ensures Valid()
      ensures State() == ReFilterStep(old(State()))
    {
      if currentFilter.Some? {
        originalList := Some(list);
        list := currentFilter.value.apply(list);
      }
    }

    /** Sets, changes (`Some`) or clears (`None`) the filter. */
    method SetFilter(filter: Option<Filter>)
      requires Valid()
      modifies this
      ensures Valid()
      ensures State() == SetFilterStep(old(State()), filter)
      ensures IsFiltered() <==> filter.Some?
      ensures filter.None? && old(IsFiltered()) ==> list == old(originalList.value)
    {
      if originalList.None? {
        originalList := Some(list);
      }
      if currentFilter.Some? {
        list := originalList.value;
      }
      if filter.Some? {
        list := filter.value.apply(list);
      }
      currentFilter := filter;
    }

    /** A filtered adapter always has a snapshot to restore. */
    predicate IsFiltered(): (r: bool)
      reads this
      ensures r && Valid() ==> originalList.Some?
    {
      currentFilter.Some?
    }

    // ------------------------------------------------------------ selection

    method GetCheckedCount() returns (n: nat)
      ensures n == CheckedCount(list)
    {
      n := 0;
      for i := 0 to |list|
        invariant n == CheckedCount(list[..i])
      {
        assert list[..i + 1][..i] == list[..i];
        if list[i].checked {
          n := n + 1;
        }
      }
      assert list[..|list|] == list;
    }

    /** Leaving select mode clears every check; entering it keeps them. */
    method SetSelectMode(mode: bool)
      requires Valid()
      modifies this, list
      ensures Valid()
      ensures State() == old(State()).(selectMode := mode)
      ensures !mode ==> forall c | c in list :: !c.checked
      ensures mode ==> forall c | c in list :: c.checked == old(c.checked)
    {
      selectMode := mode;
      if !mode {
        for i := 0 to |list|
          modifies list
          invariant forall k | 0 <= k < i :: !list[k].checked
        {
          list[i].checked := false;
        }
      }
    }

    method SwitchSelectMode()
      requires Valid()
      modifies this, list
      ensures Valid()
      ensures State() == old(State()).(selectMode := !old(selectMode))
      ensures old(selectMode) ==> forall c | c in list :: !c.checked
      ensures !old(selectMode) ==> forall c | c in list :: c.checked == old(c.checked)
    {
      SetSelectMode(!selectMode);
    }

    /**
      Flips the flag of every record of the list. A record listed more than
      once is flipped once per occurrence, so it ends flipped exactly when it
      occurs an odd number of times.
    */
    method InvertSelection()
      modifies list
      ensures forall c | c in list :: c.checked == (old(c.checked) != Odd(multiset(list)[c]))
      ensures Distinct(list) ==> forall c | c in list :: c.checked == !old(c.checked)
      ensures Distinct(list) ==> CheckedCount(list) == |list| - old(CheckedCount(list))
    {
      for i := 0 to |list|
        invariant forall c | c in list :: c.checked == (old(c.checked) != Odd(multiset(list[..i])[c]))
      {
        assert list[..i + 1] == list[..i] + [list[i]];
        list[i].checked := !list[i].checked;
      }
      assert list[..|list|] == list;
      if Distinct(list) {
        forall c | c in list ensures c.checked == !old(c.checked) {
          DistinctOccursOnce(list, c);
        }
        FlippedCount(list);
      }
    }

    method GetCheckedCaches() returns (r: seq<Cache>)
      ensures r == CheckedCaches(list)
    {
      r := [];
      for i := 0 to |list|
        invariant r == CheckedCaches(list[..i])
      {
        assert list[..i + 1][..i] == list[..i];
        if list[i].checked {
          r := r + [list[i]];
        }
      }
      assert list[..|list|] == list;
    }

    /** The checked records, or the whole list when none is checked; its length is what GetCheckedOrAllCount returns. */
    method GetCheckedOrAllCaches() returns (r: seq<Cache>)
      ensures CheckedCount(list) > 0 ==> r == CheckedCaches(list)
      ensures CheckedCount(list) == 0 ==> r == list
      ensures |r| == if CheckedCount(list) > 0 then CheckedCount(list) else |list|
    {
      r := GetCheckedCaches();
      NoneChecked(list);
      CheckedCachesLength(list);
      if r != [] {
        return;
      }
      r := list;
    }

    method GetCheckedOrAllCount() returns (n: nat)
      ensures CheckedCount(list) > 0 ==> n == CheckedCount(list)
      ensures CheckedCount(list) == 0 ==> n == |list|
    {
      var checked := GetCheckedCount();
      if checked > 0 {
        return checked;
      }
      n := |list|;
    }
  }

  /** A swipe on a row, as the gesture detector reports it. */
  datatype Fling = LeftToRight | RightToLeft | NoSwipe

  datatype ClickOutcome = ClickAfterFling | SelectionToggled | OpenDetail(geocode: string)

  datatype LongClickOutcome = LongClickAfterFling | ShowContextMenu

  /** The touch listener of one row: tap, long tap and swipe on the row's cache. */
  class TouchListener {
    const adapter: CacheListAdapter
    const cache: Cache
    /** False right after a swipe was handled, so that the tap that follows is swallowed. */
    var touch: bool

    constructor (adapter: CacheListAdapter, cache: Cache)
      ensures this.adapter == adapter && this.cache == cache && touch
    {
      this.adapter := adapter;
      this.cache := cache;
      touch := true;
    }

    /** A tap: swallowed after a swipe; in select mode it toggles this row's check; otherwise it opens the detail view. */
    method OnClick() returns (outcome: ClickOutcome)
      modifies this, cache
      ensures touch
      ensures !old(touch) ==> outcome == ClickAfterFling && cache.checked == old(cache.checked)
      ensures old(touch) && adapter.selectMode ==> outcome == SelectionToggled && cache.checked == !old(cache.checked)
      ensures old(touch) && !adapter.selectMode ==>
        outcome == OpenDetail(cache.geocode) && cache.checked == old(cache.checked)
    {
      if !touch {
        touch := true;
        return ClickAfterFling;
      }
      if adapter.selectMode {
        cache.checked := !cache.checked;
        return SelectionToggled;
      }
      return OpenDetail(cache.geocode);
    }

    method OnLongClick() returns (outcome: LongClickOutcome)
      modifies this
      ensures touch
      ensures outcome == if old(touch) then ShowContextMenu else LongClickAfterFling
    {
      if !touch {
        touch := true;
        return LongClickAfterFling;
      }
      return ShowContextMenu;
    }

    /**
      A swipe from left to right enters select mode and checks this row; from
      right to left it leaves select mode (clearing every check).
    */
    method OnFling(fling: Fling) returns (handled: bool)
      requires adapter.Valid()
      modifies adapter, adapter.list, cache
      ensures adapter.Valid()
      ensures handled == !fling.NoSwipe?
      ensures fling == LeftToRight && !old(adapter.selectMode) ==>
        && adapter.State() == old(adapter.State()).(selectMode := true)
        && cache.checked
        && forall c | c in adapter.list && c != cache :: c.checked == old(c.checked)
      ensures fling == RightToLeft && old(adapter.selectMode) ==>
        && adapter.State() == old(adapter.State()).(selectMode := false)
        && forall c | c in adapter.list :: !c.checked
      ensures (|| (fling == LeftToRight && old(adapter.selectMode))
               || (fling == RightToLeft && !old(adapter.selectMode))
               || fling == NoSwipe) ==>
        && adapter.State() == old(adapter.State())
        && cache.checked == old(cache.checked)
        && forall c | c in adapter.list :: c.checked == old(c.checked)
    {
      match fling
      case LeftToRight =>
        if !adapter.selectMode {
          adapter.SwitchSelectMode();
          cache.checked := true;
        }
        handled := true;
      case RightToLeft =>
        if adapter.selectMode {
          adapter.SwitchSelectMode();
        }
        handled := true;
      case NoSwipe =>
        handled := false;
    }

    /** A handled swipe marks the next tap or long tap as part of the swipe. */
    method OnTouch(fling: Fling) returns (handled: bool)
      requires adapter.Valid()
      modifies this, adapter, adapter.list, cache
      ensures adapter.Valid()
      ensures handled == !fling.NoSwipe?
      ensures touch == (old(touch) && !handled)
      ensures fling == LeftToRight && !old(adapter.selectMode) ==>
        && adapter.State() == old(adapter.State()).(selectMode := true)
        && cache.checked
        && forall c | c in adapter.list && c != cache :: c.checked == old(c.checked)
      ensures fling == RightToLeft && old(adapter.selectMode) ==>
        && adapter.State() == old(adapter.State()).(selectMode := false)
        && forall c | c in adapter.list :: !c.checked
      ensures (|| (fling == LeftToRight && old(adapter.selectMode))
               || (fling == RightToLeft && !old(adapter.selectMode))
               || fling == NoSwipe) ==>
        && adapter.State() == old(adapter.State())
        && cache.checked == old(cache.checked)
        && forall c | c in adapter.list :: c.checked == old(c.checked)
    {
      handled := OnFling(fling);
      if handled {
        touch := false;
      }
    }
  }

  /** The listener on a row's checkbox: the record takes the checkbox's new state. */
  class SelectionCheckBoxListener {
    const cache: Cache

    constructor (cache: Cache)
      ensures this.cache == cache
    {
      this.cache := cache;
    }

    method OnClick(checkNow: bool)
      modifies cache
      ensures cache.checked == checkNow
    {
      cache.checked := checkNow;
    }
  }

  /** Inverting the selection twice gives back every flag. */
  method InvertSelectionTwice(a: CacheListAdapter)
    modifies a.list
    ensures forall c | c in a.list :: c.checked == old(c.checked)
  {
    a.InvertSelection();
    a.InvertSelection();
  }
}
