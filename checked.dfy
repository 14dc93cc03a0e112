/**
  Queries over the "checked" flags of a list of cache records. Both
  functions walk the list from the front to the back, as the adapter's
  loops do, and are defined by their last element so that a loop over a
  growing prefix matches them step by step.
*/
module CheckedQueries {
  import opened Geocaches

  /** Number of checked records in `s` (a record listed twice counts twice). */
  function CheckedCount(s: seq<Cache>): (n: nat)
    reads s
    ensures n <= |s|
  {
    if s == [] then 0
    else CheckedCount(s[..|s| - 1]) + (if s[|s| - 1].checked then 1 else 0)
  }

  /** The checked records of `s`, in list order. */
  function CheckedCaches(s: seq<Cache>): seq<Cache>
    reads s
  {
    if s == [] then []
    else CheckedCaches(s[..|s| - 1]) + (if s[|s| - 1].checked then [s[|s| - 1]] else [])
  }

  predicate Distinct(s: seq<Cache>)
  {
    forall i, j | 0 <= i < j < |s| :: s[i] != s[j]
  }

  predicate Odd(n: nat)
  {
    n % 2 == 1
  }

  /** The collected records and the count agree. */
  lemma {:induction false} CheckedCachesLength(s: seq<Cache>)
    ensures |CheckedCaches(s)| == CheckedCount(s)
  {
    if s != [] {
      CheckedCachesLength(s[..|s| - 1]);
    }
  }

  /** Exactly the checked records of the list are collected. */
  lemma {:induction false} CheckedCachesMembers(s: seq<Cache>, c: Cache)
    ensures c in CheckedCaches(s) <==> c in s && c.checked
  {
    if s != [] {
      var init := s[..|s| - 1];
      CheckedCachesMembers(init, c);
      assert s == init + [s[|s| - 1]];
    }
  }

  /** `a` is `s` with some elements left out, the rest kept in order (matched from the back). */
  predicate SubsequenceOf(a: seq<Cache>, s: seq<Cache>)
  {
    if a == [] then true
    else if s == [] then false
    else if a[|a| - 1] == s[|s| - 1] then SubsequenceOf(a[..|a| - 1], s[..|s| - 1])
    else SubsequenceOf(a, s[..|s| - 1])
  }

  /** Collection keeps list order: the checked records form a subsequence of the list. */
  lemma {:induction false} CheckedCachesInOrder(s: seq<Cache>)
    ensures SubsequenceOf(CheckedCaches(s), s)
  {
    if s != [] {
      var init := s[..|s| - 1];
      var last := s[|s| - 1];
      CheckedCachesInOrder(init);
      if last.checked {
        assert CheckedCaches(s)[..|CheckedCaches(s)| - 1] == CheckedCaches(init);
      } else if CheckedCaches(init) != [] {
        var a := CheckedCaches(init);
        CheckedCachesMembers(init, a[|a| - 1]);
        assert a[|a| - 1] != last;
        assert CheckedCaches(s) == a + [];
        assert CheckedCaches(s) == a;
        assert SubsequenceOf(a, s);
      } else {
        assert CheckedCaches(s) == [] + [];
      }
    }
  }

  /** Nothing checked: the count is zero exactly when no record is checked and nothing is collected. */
  lemma {:induction false} NoneChecked(s: seq<Cache>)
    ensures CheckedCount(s) == 0 <==> CheckedCaches(s) == []
    ensures CheckedCaches(s) == [] <==> forall c | c in s :: !c.checked
  {
    CheckedCachesLength(s);
    forall c | c in s ensures c.checked ==> c in CheckedCaches(s) {
      CheckedCachesMembers(s, c);
    }
    if CheckedCaches(s) != [] {
      CheckedCachesMembers(s, CheckedCaches(s)[0]);
    }
  }

  /** In a list without repeated records, every record occurs once. */
  lemma {:induction false} DistinctOccursOnce(s: seq<Cache>, c: Cache)
    requires Distinct(s) && c in s
    ensures multiset(s)[c] == 1
  {
    var init := s[..|s| - 1];
    var last := s[|s| - 1];
    assert s == init + [last];
    if c == last {
      assert c !in init;
    } else {
      DistinctOccursOnce(init, c);
    }
  }

  /** After every flag of `s` has been flipped, the count is the complement of the old count. */
  twostate lemma {:induction false} FlippedCount(s: seq<Cache>)
    requires forall c | c in s :: c.checked == !old(c.checked)
    ensures CheckedCount(s) == |s| - old(CheckedCount(s))
  {
    if s != [] {
      FlippedCount(s[..|s| - 1]);
    }
  }
}
