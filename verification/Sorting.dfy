/** Python's `sorted(xs, key=...)`: the stable ordering by an integer key. */
module Sorting {

  ghost predicate SortedBy<T>(key: T -> int, s: seq<T>) {
    forall i, j :: 0 <= i < j < |s| ==> key(s[i]) <= key(s[j])
  }

  ghost predicate StrictlySortedBy<T>(key: T -> int, s: seq<T>) {
    forall i, j :: 0 <= i < j < |s| ==> key(s[i]) < key(s[j])
  }

  /** Insert after every element whose key is not greater: equal keys keep their order. */
  function InsertBy<T>(key: T -> int, x: T, s: seq<T>): (r: seq<T>)
    ensures |r| == |s| + 1
    ensures multiset(r) == multiset(s) + multiset{x}
  {
    if s == [] || key(s[|s| - 1]) <= key(x) then
      s + [x]
    else
      assert s == s[..|s| - 1] + [s[|s| - 1]];
      InsertBy(key, x, s[..|s| - 1]) + [s[|s| - 1]]
  }

  lemma {:induction false} InsertSorted<T>(key: T -> int, x: T, s: seq<T>)
    requires SortedBy(key, s)
    ensures SortedBy(key, InsertBy(key, x, s))
  {
    if s == [] || key(s[|s| - 1]) <= key(x) {
    } else {
      var front, last := s[..|s| - 1], s[|s| - 1];
      var r := InsertBy(key, x, front);
      InsertSorted(key, x, front);
      forall i | 0 <= i < |r| ensures key(r[i]) <= key(last) {
        assert r[i] in multiset(r);
        assert r[i] in multiset(front) || r[i] == x;
      }
    }
  }

  function SortBy<T>(key: T -> int, s: seq<T>): (r: seq<T>)
    ensures SortedBy(key, r) && |r| == |s|
    ensures multiset(r) == multiset(s)
  {
    if s == [] then
      []
    else
      assert s == s[..|s| - 1] + [s[|s| - 1]];
      var front := SortBy(key, s[..|s| - 1]);
      InsertSorted(key, s[|s| - 1], front);
      InsertBy(key, s[|s| - 1], front)
  }

  /** The subsequence of elements whose key is k. */
  function WithKey<T>(key: T -> int, k: int, s: seq<T>): seq<T> {
    if s == [] then
      []
    else
      WithKey(key, k, s[..|s| - 1]) + (if key(s[|s| - 1]) == k then [s[|s| - 1]] else [])
  }

  lemma {:induction false} InsertStable<T>(key: T -> int, x: T, s: seq<T>, k: int)
    requires SortedBy(key, s)
    ensures WithKey(key, k, InsertBy(key, x, s)) == WithKey(key, k, s + [x])
  {
    assert (s + [x])[..|s|] == s;
    if s == [] || key(s[|s| - 1]) <= key(x) {
    } else {
      var r, l := InsertBy(key, x, s[..|s| - 1]), s[|s| - 1];
      InsertStable(key, x, s[..|s| - 1], k);
      assert (s[..|s| - 1] + [x])[..|s| - 1] == s[..|s| - 1];
      assert (r + [l])[..|r|] == r;
    }
  }

  /** Stability: elements with equal keys keep their relative order. */
  lemma {:induction false} SortStable<T>(key: T -> int, s: seq<T>, k: int)
    ensures WithKey(key, k, SortBy(key, s)) == WithKey(key, k, s)
  {
    if s == [] {
    } else {
      var front, last := s[..|s| - 1], s[|s| - 1];
      SortStable(key, front, k);
      InsertStable(key, last, SortBy(key, front), k);
      assert (SortBy(key, front) + [last])[..|s| - 1] == SortBy(key, front);
    }
  }

  lemma DropLast<T>(s: seq<T>)
    requires s != []
    ensures s == s[..|s| - 1] + [s[|s| - 1]]
    ensures multiset(s[..|s| - 1]) == multiset(s) - multiset{s[|s| - 1]}
  {
    assert s == s[..|s| - 1] + [s[|s| - 1]];
  }

  lemma LastHasGreatestKey<T>(key: T -> int, s: seq<T>, x: T)
    requires StrictlySortedBy(key, s) && x in multiset(s)
    ensures s != [] && key(x) <= key(s[|s| - 1])
    ensures key(x) == key(s[|s| - 1]) ==> x == s[|s| - 1]
  {
    assert x in s;
  }

  lemma FrontStrict<T>(key: T -> int, s: seq<T>)
    requires StrictlySortedBy(key, s) && s != []
    ensures StrictlySortedBy(key, s[..|s| - 1])
  {
  }

  lemma SameLast<T>(key: T -> int, a: seq<T>, b: seq<T>)
    requires StrictlySortedBy(key, a) && StrictlySortedBy(key, b) && multiset(a) == multiset(b) && a != []
    ensures b != [] && a[|a| - 1] == b[|b| - 1]
  {
    assert a[|a| - 1] in multiset(a);
    LastHasGreatestKey(key, b, a[|a| - 1]);
    assert b[|b| - 1] in multiset(b);
    LastHasGreatestKey(key, a, b[|b| - 1]);
  }

  /** Distinct keys leave only one sorted arrangement of a multiset. */
  lemma {:induction false} StrictlySortedUnique<T>(key: T -> int, a: seq<T>, b: seq<T>)
    requires StrictlySortedBy(key, a) && StrictlySortedBy(key, b)
    requires multiset(a) == multiset(b)
    ensures a == b
  {
    hide StrictlySortedBy;
    if a == [] {
      assert |multiset(b)| == 0;
    } else {
      SameLast(key, a, b);
      DropLast(a);
      DropLast(b);
      FrontStrict(key, a);
      FrontStrict(key, b);
      StrictlySortedUnique(key, a[..|a| - 1], b[..|b| - 1]);
    }
  }

  ghost predicate DistinctKeys<T>(key: T -> int, s: seq<T>) {
    forall i, j :: 0 <= i < j < |s| ==> key(s[i]) != key(s[j])
  }

  lemma {:induction false} OccursOnce<T>(key: T -> int, s: seq<T>, x: T)
    requires DistinctKeys(key, s)
    ensures multiset(s)[x] <= 1
  {
    if s != [] {
      OccursOnce(key, s[..|s| - 1], x);
      DropLast(s);
      assert x == s[|s| - 1] ==> x !in s[..|s| - 1];
    }
  }

  lemma Twice<T>(s: seq<T>, i: nat, j: nat)
    requires i < j < |s| && s[i] == s[j]
    ensures multiset(s)[s[i]] >= 2
  {
    assert s == s[..j] + s[j..];
    assert s[..j][i] in multiset(s[..j]) && s[j..][0] in multiset(s[j..]);
  }

  /** A sorted arrangement of elements with distinct keys is strictly sorted. */
  lemma ArrangementStrict<T>(key: T -> int, s: seq<T>, r: seq<T>)
    requires DistinctKeys(key, s) && SortedBy(key, r) && multiset(r) == multiset(s)
    ensures StrictlySortedBy(key, r)
  {
    forall i, j | 0 <= i < j < |r| ensures key(r[i]) < key(r[j]) {
      if key(r[i]) == key(r[j]) {
        assert r[i] in multiset(s) && r[j] in multiset(s);
        var k :| 0 <= k < |s| && s[k] == r[i];
        var l :| 0 <= l < |s| && s[l] == r[j];
        Twice(r, i, j);
        OccursOnce(key, s, r[i]);
      }
    }
  }

  /** With distinct keys, sorting forgets the order its input came in. */
  lemma SortForgetsOrder<T>(key: T -> int, a: seq<T>, b: seq<T>)
    requires DistinctKeys(key, a) && multiset(a) == multiset(b)
    ensures SortBy(key, a) == SortBy(key, b)
  {
    ArrangementStrict(key, a, SortBy(key, a));
    ArrangementStrict(key, a, SortBy(key, b));
    StrictlySortedUnique(key, SortBy(key, a), SortBy(key, b));
  }
}
