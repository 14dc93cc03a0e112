/**
  Sorting with a caller-supplied comparator, the model of the library sort
  that the adapter calls on its list. A comparator is represented by the
  relation "a may come before b" (`compare(a, b) <= 0`). The library sort is
  stable; `Sort` is the stable insertion sort, which for a total preorder
  yields the same sequence as any stable sort.
*/
module Ordering {

  /** `le` is total and transitive on the elements of `s`. */
  ghost predicate TotalPreorderOn<T>(le: (T, T) -> bool, s: seq<T>)
  {
    && (forall a, b | a in s && b in s :: le(a, b) || le(b, a))
    && (forall a, b, c | a in s && b in s && c in s :: le(a, b) && le(b, c) ==> le(a, c))
  }

  predicate SortedBy<T>(s: seq<T>, le: (T, T) -> bool)
  {
    forall i, j | 0 <= i < j < |s| :: le(s[i], s[j])
  }

  /** The comparator with its arguments swapped, as the `InverseComparator` class does. */
  function Inverse<T>(le: (T, T) -> bool): (T, T) -> bool
  {
    (a, b) => le(b, a)
  }

  /** Inserts `x` before the first element it may precede. */
  function Insert<T>(x: T, s: seq<T>, le: (T, T) -> bool): seq<T>
  {
    if s == [] || le(x, s[0]) then [x] + s else [s[0]] + Insert(x, s[1..], le)
  }

  function Sort<T>(s: seq<T>, le: (T, T) -> bool): seq<T>
  {
    if s == [] then [] else Insert(s[0], Sort(s[1..], le), le)
  }

  lemma {:induction false} InsertPermutes<T>(x: T, s: seq<T>, le: (T, T) -> bool)
    ensures multiset(Insert(x, s, le)) == multiset(s) + multiset{x}
  {
    if s != [] && !le(x, s[0]) {
      InsertPermutes(x, s[1..], le);
      assert s == [s[0]] + s[1..];
    }
  }

  /** Sorting only reorders: the result is a permutation of the input. */
  lemma {:induction false} SortPermutes<T>(s: seq<T>, le: (T, T) -> bool)
    ensures multiset(Sort(s, le)) == multiset(s)
  {
    if s != [] {
      SortPermutes(s[1..], le);
      InsertPermutes(s[0], Sort(s[1..], le), le);
      assert s == [s[0]] + s[1..];
    }
  }

  lemma PermutationKeepsPreorder<T>(le: (T, T) -> bool, s: seq<T>, t: seq<T>)
    requires multiset(s) == multiset(t)
    requires TotalPreorderOn(le, s)
    ensures TotalPreorderOn(le, t)
  {
    forall a | a in t ensures a in s {
      assert a in multiset(t);
    }
  }

  lemma {:induction false} InsertSorted<T>(x: T, s: seq<T>, le: (T, T) -> bool)
    requires SortedBy(s, le)
    requires TotalPreorderOn(le, [x] + s)
    ensures SortedBy(Insert(x, s, le), le)
  {
    if s != [] && !le(x, s[0]) {
      var t := s[1..];
      assert SortedBy(t, le);
      assert TotalPreorderOn(le, [x] + t) by {
        forall a | a in [x] + t ensures a in [x] + s {
          if a != x { assert a in t; }
        }
      }
      InsertSorted(x, t, le);
      var r := Insert(x, t, le);
      InsertPermutes(x, t, le);
      assert le(s[0], x);
      forall k | 0 <= k < |r| ensures le(s[0], r[k]) {
        assert r[k] in multiset(r);
        assert r[k] == x || r[k] in t;
        if r[k] != x {
          assert r[k] in s;
        }
      }
    }
  }

  /** Under a total preorder, the sorted list is in order. */
  lemma {:induction false} SortSorted<T>(s: seq<T>, le: (T, T) -> bool)
    requires TotalPreorderOn(le, s)
    ensures SortedBy(Sort(s, le), le)
  {
    if s != [] {
      assert TotalPreorderOn(le, s[1..]) by {
        forall a | a in s[1..] ensures a in s { }
      }
      SortSorted(s[1..], le);
      SortPermutes(s[1..], le);
      assert s == [s[0]] + s[1..];
      PermutationKeepsPreorder(le, s, [s[0]] + Sort(s[1..], le));
      InsertSorted(s[0], Sort(s[1..], le), le);
    }
  }

  /** A list already in order is left as it is (the sort is stable). */
  lemma {:induction false} SortOfSorted<T>(s: seq<T>, le: (T, T) -> bool)
    requires SortedBy(s, le)
    ensures Sort(s, le) == s
  {
    if s != [] {
      assert SortedBy(s[1..], le);
      SortOfSorted(s[1..], le);
      if |s| > 1 {
        assert le(s[0], s[1]);
      }
      assert s == [s[0]] + s[1..];
    }
  }

  /** Sorting a second time with the same total preorder changes nothing. */
  lemma SortIdempotent<T>(s: seq<T>, le: (T, T) -> bool)
    requires TotalPreorderOn(le, s)
    ensures Sort(Sort(s, le), le) == Sort(s, le)
  {
    SortSorted(s, le);
    SortOfSorted(Sort(s, le), le);
  }

  lemma InversePreorder<T>(le: (T, T) -> bool, s: seq<T>)
    requires TotalPreorderOn(le, s)
    ensures TotalPreorderOn(Inverse(le), s)
  {
  }
}
