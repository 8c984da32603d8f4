/**
 * A stable sort by a real-valued key. It stands for Python's `sorted(...)` (ascending, and with
 * `reverse=True` a key of minus the value) and for pandas' `sort_values` on one column.
 */
module Sorting {

  predicate SortedBy<T>(s: seq<T>, key: T -> real) {
    forall i, j :: 0 <= i < j < |s| ==> key(s[i]) <= key(s[j])
  }

  /** Insert `x` after every element whose key is at most its own. */
  function InsertBy<T>(x: T, s: seq<T>, key: T -> real): (r: seq<T>)
    requires SortedBy(s, key)
    ensures SortedBy(r, key)
    ensures multiset(r) == multiset(s) + multiset{x}
    decreases |s|
  {
    if s == [] then [x]
    else if key(x) < key(s[0]) then [x] + s
    else
      var rest := InsertBy(x, s[1..], key);
      assert s == [s[0]] + s[1..];
      HeadBelowRest(s, x, rest, key);
      [s[0]] + rest
  }

  /** The head of a sorted sequence stays in front of its tail with `x` inserted, when `x` does not go before it. */
  lemma HeadBelowRest<T>(s: seq<T>, x: T, rest: seq<T>, key: T -> real)
    requires s != [] && SortedBy(s, key) && key(s[0]) <= key(x)
    requires multiset(rest) == multiset(s[1..]) + multiset{x} && SortedBy(rest, key)
    ensures SortedBy([s[0]] + rest, key)
  {
    forall j | 0 <= j < |rest|
      ensures key(s[0]) <= key(rest[j])
    {
      var y := rest[j];
      assert y in multiset(rest);
      if y != x {
        assert y in multiset(s[1..]);
        var k :| 0 <= k < |s[1..]| && s[1..][k] == y;
        assert s[k + 1] == y;
      }
    }
  }

  /** Stable insertion sort: equal keys keep their input order. */
  function SortBy<T>(s: seq<T>, key: T -> real): (r: seq<T>)
    ensures SortedBy(r, key)
    ensures multiset(r) == multiset(s)
    decreases |s|
  {
    if s == [] then []
    else
      assert s == s[..|s| - 1] + [s[|s| - 1]];
      InsertBy(s[|s| - 1], SortBy(s[..|s| - 1], key), key)
  }

  ghost predicate Injective<T(!new)>(key: T -> real) {
    forall x, y :: key(x) == key(y) ==> x == y
  }

  /**
   * With an injective key there is only one sorted arrangement of a multiset, so any
   * correct sort (Python's `sorted` included) gives the same sequence as `SortBy`.
   */
  lemma {:induction false} SortedUnique<T(!new)>(a: seq<T>, b: seq<T>, key: T -> real)
    requires Injective(key)
    requires SortedBy(a, key) && SortedBy(b, key)
    requires multiset(a) == multiset(b)
    ensures a == b
    decreases |a|
  {
    if a == [] {
      assert |multiset(b)| == 0;
    } else {
      assert b != [] by {
        assert a[0] in multiset(a);
      }
      SortedHeads(a, b, key);
      assert a[0] == b[0];
      assert a == [a[0]] + a[1..];
      assert b == [b[0]] + b[1..];
      assert multiset(a) == multiset{a[0]} + multiset(a[1..]);
      assert multiset(b) == multiset{b[0]} + multiset(b[1..]);
      assert multiset(a[1..]) == multiset(a) - multiset{a[0]};
      assert multiset(b[1..]) == multiset(b) - multiset{b[0]};
      SortedUnique(a[1..], b[1..], key);
    }
  }

  /** Two sorted arrangements of one multiset begin with elements of equal key. */
  lemma SortedHeads<T>(a: seq<T>, b: seq<T>, key: T -> real)
    requires SortedBy(a, key) && SortedBy(b, key)
    requires multiset(a) == multiset(b) && a != [] && b != []
    ensures key(a[0]) == key(b[0])
  {
    assert a[0] in multiset(b);
    var j :| 0 <= j < |b| && b[j] == a[0];
    assert b[0] in multiset(a);
    var i :| 0 <= i < |a| && a[i] == b[0];
    assert key(a[0]) <= key(a[i]);
    assert key(b[0]) <= key(b[j]);
  }

  predicate StrictlySortedBy<T>(s: seq<T>, key: T -> real) {
    forall i, j :: 0 <= i < j < |s| ==> key(s[i]) < key(s[j])
  }

  predicate DistinctKeys<T>(s: seq<T>, key: T -> real) {
    forall i, j :: 0 <= i < j < |s| ==> key(s[i]) != key(s[j])
  }

  /** Inserting a new key into a strictly sorted sequence keeps it strictly sorted. */
  lemma {:induction false} InsertStrict<T>(x: T, s: seq<T>, key: T -> real)
    requires StrictlySortedBy(s, key)
    requires forall j :: 0 <= j < |s| ==> key(s[j]) != key(x)
    ensures StrictlySortedBy(InsertBy(x, s, key), key)
    decreases |s|
  {
    if s != [] && key(s[0]) <= key(x) {
      InsertStrict(x, s[1..], key);
      var rest := InsertBy(x, s[1..], key);
      forall j | 0 <= j < |rest|
        ensures key(s[0]) < key(rest[j])
      {
        assert rest[j] in multiset(rest);
        if rest[j] != x {
          assert rest[j] in multiset(s[1..]);
          var k :| 0 <= k < |s[1..]| && s[1..][k] == rest[j];
          assert s[k + 1] == rest[j];
        }
      }
    }
  }

  /** Sorting a sequence whose keys are pairwise different yields strictly increasing keys. */
  lemma {:induction false} SortDistinctStrict<T>(s: seq<T>, key: T -> real)
    requires DistinctKeys(s, key)
    ensures StrictlySortedBy(SortBy(s, key), key)
    decreases |s|
  {
    if s != [] {
      var init, last := s[..|s| - 1], s[|s| - 1];
      SortDistinctStrict(init, key);
      var sorted := SortBy(init, key);
      forall j | 0 <= j < |sorted|
        ensures key(sorted[j]) != key(last)
      {
        assert sorted[j] in multiset(init);
        var k :| 0 <= k < |init| && init[k] == sorted[j];
        assert s[k] == sorted[j];
      }
      InsertStrict(last, sorted, key);
    }
  }
}
