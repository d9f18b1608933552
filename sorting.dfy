/**
 * `sorted(list(s), cmp)` as the report uses it: a set listed in some order,
 * then sorted stably by a three-way comparison.
 */
module Sorting {
  import opened Compare

  /** `list(s)`: the elements of a set, each once, in an order the set chooses. */
  method ListOf<T>(s: set<T>) returns (xs: seq<T>)
    ensures Lists(xs, s)
  {
    xs := [];
    var rest := s;
    while rest != {}
      invariant rest <= s
      invariant multiset(xs) + multiset(rest) == multiset(s)
      decreases rest
    {
      var x :| x in rest;
      xs := xs + [x];
      rest := rest - {x};
    }
  }

  /**
   * Inserts `x` after every element that does not compare greater than it,
   * which keeps the insertion stable.
   */
  method Insert<T(!new)>(sorted: seq<T>, x: T, cmp: (T, T) -> int) returns (r: seq<T>)
    requires IsTotalPreorder(cmp)
    requires SortedBy(sorted, cmp)
    ensures SortedBy(r, cmp)
    ensures multiset(r) == multiset(sorted) + multiset{x}
  {
    var k := 0;
    while k < |sorted| && cmp(sorted[k], x) <= 0
      invariant 0 <= k <= |sorted|
      invariant forall i :: 0 <= i < k ==> cmp(sorted[i], x) <= 0
    {
      k := k + 1;
    }
    r := sorted[..k] + [x] + sorted[k..];
    InsertAtBoundary(sorted, k, x, cmp);
    InsertPermutes(sorted, k, x);
  }

  lemma InsertPermutes<T>(s: seq<T>, k: nat, x: T)
    requires k <= |s|
    ensures multiset(s[..k] + [x] + s[k..]) == multiset(s) + multiset{x}
  {
    assert s == s[..k] + s[k..];
  }

  /** Placing `x` between the elements that do not exceed it and the rest keeps the order. */
  lemma InsertAtBoundary<T(!new)>(sorted: seq<T>, k: nat, x: T, cmp: (T, T) -> int)
    requires IsTotalPreorder(cmp)
    requires SortedBy(sorted, cmp)
    requires k <= |sorted|
    requires forall i :: 0 <= i < k ==> cmp(sorted[i], x) <= 0
    requires k < |sorted| ==> cmp(sorted[k], x) > 0
    ensures SortedBy(sorted[..k] + [x] + sorted[k..], cmp)
  {
    var r := sorted[..k] + [x] + sorted[k..];
    forall i, j | 0 <= i < j < |r| ensures cmp(r[i], r[j]) <= 0 {
      if j < k {
        assert r[i] == sorted[i] && r[j] == sorted[j];
      } else if j == k {
        assert r[i] == sorted[i] && r[j] == x;
      } else if i < k {
        assert r[i] == sorted[i] && r[j] == sorted[j - 1];
        assert cmp(sorted[i], x) <= 0 && cmp(x, sorted[j - 1]) <= 0 by {
          assert cmp(sorted[k], x) <= 0 || cmp(x, sorted[k]) <= 0;
        }
      } else if i == k {
        assert r[i] == x && r[j] == sorted[j - 1];
        assert cmp(x, sorted[k]) <= 0 by {
          assert cmp(sorted[k], x) <= 0 || cmp(x, sorted[k]) <= 0;
        }
      } else {
        assert r[i] == sorted[i - 1] && r[j] == sorted[j - 1];
      }
    }
  }

  /** `sorted(xs, cmp)`: an ascending permutation of `xs` (insertion sort, stable). */
  method Sorted<T(!new)>(xs: seq<T>, cmp: (T, T) -> int) returns (r: seq<T>)
    requires IsTotalPreorder(cmp)
    ensures SortedBy(r, cmp)
    ensures multiset(r) == multiset(xs)
  {
    r := [];
    var i := 0;
    while i < |xs|
      invariant 0 <= i <= |xs|
      invariant SortedBy(r, cmp)
      invariant multiset(r) == multiset(xs[..i])
    {
      r := Insert(r, xs[i], cmp);
      assert xs[..i + 1] == xs[..i] + [xs[i]];
      i := i + 1;
    }
    assert xs[..i] == xs;
  }

  /** `sorted(list(s), cmp)`: the elements of `s`, each once, in ascending order. */
  method SortedList<T(!new)>(s: set<T>, cmp: (T, T) -> int) returns (r: seq<T>)
    requires IsTotalPreorder(cmp)
    ensures SortedBy(r, cmp)
    ensures Lists(r, s)
  {
    var xs := ListOf(s);
    r := Sorted(xs, cmp);
  }
}
