/**
  The list-management state of the cache list adapter as a value, and one
  step function per state-changing operation. The adapter class proves each
  of its methods against the matching step function; the properties of the
  adapter are proved here, about the step functions.

  The checked flags are not part of this value: they live in the cache
  records themselves (see CheckedQueries and the adapter class).
*/
module AdapterModel {
  import opened Optional
  import opened Geocaches
  import opened Ordering

  /** A filter rewrites the list; the filter classes themselves are not part of this model. */
  datatype Filter = Filter(apply: seq<Cache> -> seq<Cache>)

  datatype ComparatorKind = DistanceKind | EventDateKind | VisitKind | OtherKind

  /** A comparator: its class and the relation "a may come before b" it sorts by. */
  datatype Comparator = Comparator(kind: ComparatorKind, le: (Cache, Cache) -> bool)

  /**
    The orderings of the comparator classes the adapter creates itself: the
    distance comparator for given device coordinates, the event-date
    comparator and the visit comparator.
  */
  datatype Orderings = Orderings(
    distance: Coords -> ((Cache, Cache) -> bool),
    eventDate: (Cache, Cache) -> bool,
    visit: (Cache, Cache) -> bool)

  /** Only the history list is treated differently by the adapter. */
  datatype CacheListType = History | OtherListType

  /** A position update: the new device coordinates (possibly unknown) and the clock reading. */
  datatype LocationUpdate = LocationUpdate(coords: Option<Coords>, time: int)

  /** The adapter's fields other than the checked flags; `None` stands for Java's `null`. */
  datatype Snapshot = Snapshot(
    list: seq<Cache>,
    original: Option<seq<Cache>>,
    filter: Option<Filter>,
    selectMode: bool,
    inverseSort: bool,
    comparator: Option<Comparator>,
    lastSort: int,
    coords: Option<Coords>)

  /** Milliseconds after which the list may be re-sorted because of a position update. */
  const PauseBetweenListSort: int := 1000

  /** An active filter always has a backup snapshot to restore. */
  predicate Inv(s: Snapshot)
  {
    s.filter.Some? ==> s.original.Some?
  }

  // ---------------------------------------------------------------- filtering

  /** The list the first filter call backs up: the existing snapshot, or the list itself. */
  function SnapshotOf(s: Snapshot): seq<Cache>
  {
    if s.original.Some? then s.original.value else s.list
  }

  function SetFilterStep(s: Snapshot, f: Option<Filter>): Snapshot
  {
    var original := SnapshotOf(s);
    var base := if s.filter.Some? then original else s.list;
    s.(list := if f.Some? then f.value.apply(base) else base,
       original := Some(original),
       filter := f)
  }

  function ReFilterStep(s: Snapshot): Snapshot
  {
    if s.filter.None? then s
    else s.(original := Some(s.list), list := s.filter.value.apply(s.list))
  }

  /** A run of filter settings, applied from the first to the last. */
  function SetFilters(s: Snapshot, fs: seq<Option<Filter>>): Snapshot
  {
    if fs == [] then s else SetFilterStep(SetFilters(s, fs[..|fs| - 1]), fs[|fs| - 1])
  }

  /** Setting a filter keeps the invariant and records the filter; the snapshot, once taken, is never replaced. */
  lemma SetFilterKeepsSnapshot(s: Snapshot, f: Option<Filter>)
    ensures Inv(SetFilterStep(s, f))
    ensures SetFilterStep(s, f).filter == f
    ensures SetFilterStep(s, f).original == Some(SnapshotOf(s))
    ensures s.original.Some? ==> SetFilterStep(s, f).original == s.original
  {
  }

  /** However many filters are set in a row, the snapshot stays what the first call backed up. */
  lemma {:induction false} SetFiltersKeepSnapshot(s: Snapshot, fs: seq<Option<Filter>>)
    requires fs != []
    ensures SetFilters(s, fs).original == Some(SnapshotOf(s))
  {
    if |fs| > 1 {
      SetFiltersKeepSnapshot(s, fs[..|fs| - 1]);
    }
  }

  /**
    Filters do not compose: once a filter is active, setting a filter (or
    clearing it) starts again from the snapshot, whatever was set before.
  */
  lemma FiltersDoNotCompose(s: Snapshot, fs: seq<Option<Filter>>, g: Option<Filter>)
    requires fs != [] && fs[|fs| - 1].Some?
    ensures SetFilterStep(SetFilters(s, fs), g).list
      == if g.Some? then g.value.apply(SnapshotOf(s)) else SnapshotOf(s)
  {
    SetFiltersKeepSnapshot(s, fs);
  }

  /** Clearing an active filter gives back the snapshot, in its order, and leaves the list unfiltered. */
  lemma ClearFilterRestores(s: Snapshot)
    requires Inv(s) && s.filter.Some?
    ensures SetFilterStep(s, None).list == s.original.value
    ensures SetFilterStep(s, None).filter.None?
  {
  }

  /**
    Setting the same filter twice is the same as setting it once, provided
    the snapshot is not stale: a filter is active, or no snapshot was taken
    yet, or the snapshot equals the list.
  */
  lemma SetFilterIdempotent(s: Snapshot, f: Filter)
    requires s.filter.Some? || s.original.None? || s.original == Some(s.list)
    ensures SetFilterStep(SetFilterStep(s, Some(f)), Some(f)) == SetFilterStep(s, Some(f))
  {
  }

  /**
    Without that proviso idempotence fails: after a filter was cleared and
    the list re-sorted, the snapshot keeps the old order, and the second call
    filters the snapshot instead of the list.
  */
  lemma SetFilterStaleSnapshot(s: Snapshot, a: Cache, b: Cache)
    requires a != b
    requires s.list == [a, b] && s.original == Some([b, a]) && s.filter.None?
    ensures var keepAll := Filter(l => l);
      SetFilterStep(SetFilterStep(s, Some(keepAll)), Some(keepAll)).list == [b, a]
      && SetFilterStep(s, Some(keepAll)).list == [a, b]
  {
  }

  /** A record added while no filter is active is lost once a filter is set and cleared again: the clear restores the stale snapshot. */
  lemma SetFilterLosesAppended(s: Snapshot, a: Cache, b: Cache, f: Filter)
    requires a != b
    requires s.list == [a, b] && s.original == Some([a]) && s.filter.None?
    ensures b in s.list
    ensures b !in SetFilterStep(SetFilterStep(s, Some(f)), None).list
  {
  }

  /** Re-filtering without a filter changes nothing; with one it backs up the current list and filters it. */
  lemma ReFilterEffect(s: Snapshot)
    ensures s.filter.None? ==> ReFilterStep(s) == s
    ensures s.filter.Some? ==>
      && ReFilterStep(s).original == Some(s.list)
      && ReFilterStep(s).list == s.filter.value.apply(s.list)
      && Inv(ReFilterStep(s))
  {
  }

  // ---------------------------------------------------------------- sorting

  /** A missing comparator, or a distance comparator, means the list is sorted by distance. */
  predicate SortedByDistance(c: Option<Comparator>)
  {
    c.None? || c.value.kind == DistanceKind
  }

  /** The comparator, inverted when the inverse-sort flag is set. */
  function PotentialInversion(inverse: bool, le: (Cache, Cache) -> bool): (Cache, Cache) -> bool
  {
    if inverse then Inverse<Cache>(le) else le
  }

  lemma PotentialInversionPreorder(inverse: bool, le: (Cache, Cache) -> bool, s: seq<Cache>)
    requires TotalPreorderOn(le, s)
    ensures TotalPreorderOn(PotentialInversion(inverse, le), s)
  {
    InversePreorder(le, s);
  }

  /** The order the distance sort uses in state `s` (meaningful when coordinates are known). */
  function DistanceOrder(s: Snapshot, orders: Orderings): (Cache, Cache) -> bool
    requires s.coords.Some?
  {
    PotentialInversion(s.inverseSort, orders.distance(s.coords.value))
  }

  function UpdateSortByDistanceStep(s: Snapshot, orders: Orderings, now: int): Snapshot
  {
    if |s.list| == 0 || s.selectMode || now - s.lastSort <= PauseBetweenListSort
      || !SortedByDistance(s.comparator) || s.coords.None?
    then s
    else
      var sorted := Sort(s.list, DistanceOrder(s, orders));
      s.(list := sorted, lastSort := if sorted == s.list then s.lastSort else now)
  }

  function ForceSortStep(s: Snapshot, orders: Orderings, now: int): Snapshot
  {
    if |s.list| == 0 || s.selectMode then s
    else if SortedByDistance(s.comparator) then UpdateSortByDistanceStep(s.(lastSort := 0), orders, now)
    else s.(list := Sort(s.list, PotentialInversion(s.inverseSort, s.comparator.value.le)))
  }

  function SetComparatorStep(s: Snapshot, c: Option<Comparator>, orders: Orderings, now: int): Snapshot
  {
    ForceSortStep(s.(comparator := c), orders, now)
  }

  function SetCoordinatesStep(s: Snapshot, u: LocationUpdate, orders: Orderings): Snapshot
  {
    UpdateSortByDistanceStep(s.(coords := u.coords), orders, u.time)
  }

  /** Position updates applied from the first to the last. */
  function SetCoordinatesRun(s: Snapshot, us: seq<LocationUpdate>, orders: Orderings): Snapshot
  {
    if us == [] then s else SetCoordinatesStep(SetCoordinatesRun(s, us[..|us| - 1], orders), us[|us| - 1], orders)
  }

  /** Every cache of the list is an event. */
  predicate AllEvents(list: seq<Cache>)
  {
    forall c | c in list :: c.isEvent
  }

  /** The comparator chosen when none is set yet; `None` means sorting by distance. */
  function InitialChoice(listType: CacheListType, list: seq<Cache>, orders: Orderings): Option<Comparator>
  {
    if listType == History then Some(Comparator(VisitKind, orders.visit))
    else if |list| > 0 && AllEvents(list) then Some(Comparator(EventDateKind, orders.eventDate))
    else None
  }

  function SetInitialComparatorStep(s: Snapshot, listType: CacheListType, orders: Orderings, now: int): Snapshot
  {
    if s.comparator.Some? then s
    else SetComparatorStep(s, InitialChoice(listType, s.list, orders), orders, now)
  }

  /** The distance re-sort does nothing on an empty list, in select mode, within the pause, for another comparator, or without coordinates. */
  lemma UpdateSortByDistanceGates(s: Snapshot, orders: Orderings, now: int)
    requires || |s.list| == 0 || s.selectMode || now - s.lastSort <= PauseBetweenListSort
             || !SortedByDistance(s.comparator) || s.coords.None?
    ensures UpdateSortByDistanceStep(s, orders, now) == s
  {
  }

  /**
    A distance re-sort only reorders the list, leaves every other field
    alone, and moves the last-sort time (to `now`) only when the order
    actually changed.
  */
  lemma {:induction false} UpdateSortByDistanceEffect(s: Snapshot, orders: Orderings, now: int)
    ensures multiset(UpdateSortByDistanceStep(s, orders, now).list) == multiset(s.list)
    ensures UpdateSortByDistanceStep(s, orders, now).(list := s.list, lastSort := s.lastSort) == s
    ensures UpdateSortByDistanceStep(s, orders, now).lastSort != s.lastSort ==>
      && UpdateSortByDistanceStep(s, orders, now).list != s.list
      && UpdateSortByDistanceStep(s, orders, now).lastSort == now
      && now - s.lastSort > PauseBetweenListSort
  {
    SortPermutes(s.list, if s.coords.Some? then DistanceOrder(s, orders) else orders.eventDate);
  }

  /** When a distance sort runs with a total preorder, the list comes out in (possibly inverted) distance order. */
  lemma UpdateSortByDistanceSorts(s: Snapshot, orders: Orderings, now: int)
    requires s.coords.Some? && TotalPreorderOn(orders.distance(s.coords.value), s.list)
    requires |s.list| > 0 && !s.selectMode && now - s.lastSort > PauseBetweenListSort
    requires SortedByDistance(s.comparator)
    ensures SortedBy(UpdateSortByDistanceStep(s, orders, now).list, DistanceOrder(s, orders))
  {
    PotentialInversionPreorder(s.inverseSort, orders.distance(s.coords.value), s.list);
    SortSorted(s.list, DistanceOrder(s, orders));
  }

  /** A forced sort does nothing on an empty list or in select mode, and otherwise only reorders the list. */
  lemma ForceSortEffect(s: Snapshot, orders: Orderings, now: int)
    ensures |s.list| == 0 || s.selectMode ==> ForceSortStep(s, orders, now) == s
    ensures multiset(ForceSortStep(s, orders, now).list) == multiset(s.list)
    ensures ForceSortStep(s, orders, now).(list := s.list, lastSort := s.lastSort) == s
    ensures |s.list| > 0 && !s.selectMode && SortedByDistance(s.comparator) ==>
      ForceSortStep(s, orders, now).lastSort == 0 || ForceSortStep(s, orders, now).lastSort == now
    ensures !SortedByDistance(s.comparator) ==> ForceSortStep(s, orders, now).lastSort == s.lastSort
  {
    if |s.list| > 0 && !s.selectMode {
      if SortedByDistance(s.comparator) {
        UpdateSortByDistanceEffect(s.(lastSort := 0), orders, now);
      } else {
        SortPermutes(s.list, PotentialInversion(s.inverseSort, s.comparator.value.le));
      }
    }
  }

  /** With a comparator other than distance, a forced sort puts the list in that comparator's (possibly inverted) order. */
  lemma ForceSortByComparator(s: Snapshot, orders: Orderings, now: int)
    requires |s.list| > 0 && !s.selectMode && !SortedByDistance(s.comparator)
    requires TotalPreorderOn(s.comparator.value.le, s.list)
    ensures SortedBy(ForceSortStep(s, orders, now).list, PotentialInversion(s.inverseSort, s.comparator.value.le))
  {
    PotentialInversionPreorder(s.inverseSort, s.comparator.value.le, s.list);
    SortSorted(s.list, PotentialInversion(s.inverseSort, s.comparator.value.le));
  }

  /** Position updates never move the last-sort time backwards. */
  lemma {:induction false} LastSortNeverDecreases(s: Snapshot, us: seq<LocationUpdate>, orders: Orderings, k: nat)
    requires k <= |us|
    ensures SetCoordinatesRun(s, us[..k], orders).lastSort <= SetCoordinatesRun(s, us, orders).lastSort
  {
    if k < |us| {
      var init := us[..|us| - 1];
      assert us[..k] == init[..k];
      LastSortNeverDecreases(s, init, orders, k);
      assert us[..|us| - 1] == init;
    } else {
      assert us[..k] == us;
    }
  }

  /**
    Under position updates alone, two updates that both reorder the list
    are more than the pause apart, however fast the updates come.
  */
  lemma Throttled(s: Snapshot, us: seq<LocationUpdate>, orders: Orderings, i: nat, j: nat)
    requires i < j < |us|
    requires SetCoordinatesRun(s, us[..i + 1], orders).list != SetCoordinatesRun(s, us[..i], orders).list
    requires SetCoordinatesRun(s, us[..j + 1], orders).list != SetCoordinatesRun(s, us[..j], orders).list
    ensures us[j].time - us[i].time > PauseBetweenListSort
  {
    var prefixI := us[..i + 1];
    var prefixJ := us[..j + 1];
    assert prefixI[..|prefixI| - 1] == us[..i];
    assert prefixJ[..|prefixJ| - 1] == us[..j];
    var before := SetCoordinatesRun(s, us[..i], orders);
    UpdateSortByDistanceEffect(before.(coords := us[i].coords), orders, us[i].time);
    var before2 := SetCoordinatesRun(s, us[..j], orders);
    UpdateSortByDistanceEffect(before2.(coords := us[j].coords), orders, us[j].time);
    assert SetCoordinatesRun(s, prefixI, orders).lastSort == us[i].time;
    assert us[..j][..i + 1] == prefixI;
    LastSortNeverDecreases(s, us[..j], orders, i + 1);
  }

  /** Permuting the list does not change which comparator is chosen initially. */
  lemma InitialChoiceOfPermutation(listType: CacheListType, a: seq<Cache>, b: seq<Cache>, orders: Orderings)
    requires multiset(a) == multiset(b)
    ensures InitialChoice(listType, a, orders) == InitialChoice(listType, b, orders)
  {
    assert |a| == |multiset(a)| == |b|;
    forall c ensures c in a <==> c in b {
      assert c in a <==> c in multiset(a);
      assert c in b <==> c in multiset(b);
    }
  }

  /** Once a comparator is set, choosing the initial comparator does nothing; otherwise it picks visit, event date or distance. */
  lemma SetInitialComparatorChoice(s: Snapshot, listType: CacheListType, orders: Orderings, now: int)
    ensures s.comparator.Some? ==> SetInitialComparatorStep(s, listType, orders, now) == s
    ensures s.comparator.None? ==>
      SetInitialComparatorStep(s, listType, orders, now).comparator
        == (if listType == History then Some(Comparator(VisitKind, orders.visit))
            else if |s.list| > 0 && forall c | c in s.list :: c.isEvent then Some(Comparator(EventDateKind, orders.eventDate))
            else None)
  {
  }

  /**
    Choosing the initial comparator twice leaves the same comparator and the
    same list as choosing it once (the distance order being a total preorder
    on the list). The last-sort time is not covered: see the README.
  */
  lemma SetInitialComparatorTwice(s: Snapshot, listType: CacheListType, orders: Orderings, now: int)
    requires s.coords.Some? ==> TotalPreorderOn(orders.distance(s.coords.value), s.list)
    ensures SetInitialComparatorStep(SetInitialComparatorStep(s, listType, orders, now), listType, orders, now).comparator
      == SetInitialComparatorStep(s, listType, orders, now).comparator
    ensures SetInitialComparatorStep(SetInitialComparatorStep(s, listType, orders, now), listType, orders, now).list
      == SetInitialComparatorStep(s, listType, orders, now).list
  {
    var once := SetInitialComparatorStep(s, listType, orders, now);
    if s.comparator.None? && once.comparator.None? {
      ForceSortEffect(s.(comparator := None), orders, now);
      InitialChoiceOfPermutation(listType, s.list, once.list, orders);
      var twice := SetInitialComparatorStep(once, listType, orders, now);
      if |once.list| > 0 && !once.selectMode && now - 0 > PauseBetweenListSort && once.coords.Some? {
        var le := DistanceOrder(s, orders);
        PotentialInversionPreorder(s.inverseSort, orders.distance(s.coords.value), s.list);
        SortIdempotent(s.list, le);
        assert once.list == Sort(s.list, le);
        assert twice.list == Sort(once.list, le);
      }
    }
  }
}
