/** A stable sort by an integer key. */
module Sorting {

  predicate SortedBy<T>(xs: seq<T>, key: T -> int) {
    forall i, j :: 0 <= i < j < |xs| ==> key(xs[i]) <= key(xs[j])
  }

  /** Inserts x after the last element whose key does not exceed its own. */
  function Insert<T>(x: T, xs: seq<T>, key: T -> int): seq<T> {
    if xs == [] || key(xs[|xs| - 1]) <= key(x) then xs + [x]
    else Insert(x, xs[..|xs| - 1], key) + [xs[|xs| - 1]]
  }

  function SortBy<T>(xs: seq<T>, key: T -> int): seq<T> {
    if xs == [] then [] else Insert(xs[|xs| - 1], SortBy(xs[..|xs| - 1], key), key)
  }

  lemma {:induction false} InsertPermutes<T>(x: T, xs: seq<T>, key: T -> int)
    ensures multiset(Insert(x, xs, key)) == multiset(xs) + multiset{x}
    decreases |xs|
  {
    if xs != [] && key(x) < key(xs[|xs| - 1]) {
      InsertPermutes(x, xs[..|xs| - 1], key);
      assert xs == xs[..|xs| - 1] + [xs[|xs| - 1]];
    }
  }

  lemma {:induction false} InsertSorts<T>(x: T, xs: seq<T>, key: T -> int, bound: int)
    requires SortedBy(xs, key) && key(x) <= bound && forall y :: y in xs ==> key(y) <= bound
    ensures SortedBy(Insert(x, xs, key), key)
    ensures forall y :: y in Insert(x, xs, key) ==> key(y) <= bound
    decreases |xs|
  {
    if xs != [] && key(x) < key(xs[|xs| - 1]) {
      InsertSorts(x, xs[..|xs| - 1], key, key(xs[|xs| - 1]));
    }
  }

  lemma InsertKeepsSorted<T>(x: T, xs: seq<T>, key: T -> int)
    requires SortedBy(xs, key)
    ensures SortedBy(Insert(x, xs, key), key)
  {
    var bound := if xs == [] || key(xs[|xs| - 1]) < key(x) then key(x) else key(xs[|xs| - 1]);
    hide Insert;
    InsertSorts(x, xs, key, bound);
  }

  /** The result is sorted and a permutation of the input. */
  lemma {:induction false} SortBySorts<T>(xs: seq<T>, key: T -> int)
    ensures SortedBy(SortBy(xs, key), key)
    ensures multiset(SortBy(xs, key)) == multiset(xs)
    decreases |xs|
  {
    hide SortedBy, Insert;
    if xs != [] {
      var front, x := xs[..|xs| - 1], xs[|xs| - 1];
      SortBySorts(front, key);
      InsertPermutes(x, SortBy(front, key), key);
      InsertKeepsSorted(x, SortBy(front, key), key);
      assert xs == front + [x];
    } else {
      NothingIsSorted(key);
    }
  }

  lemma NothingIsSorted<T>(key: T -> int)
    ensures SortedBy([], key)
  {
  }

  predicate StrictlySortedBy<T>(xs: seq<T>, key: T -> int) {
    forall i, j :: 0 <= i < j < |xs| ==> key(xs[i]) < key(xs[j])
  }

  predicate DistinctBy<T>(xs: seq<T>, key: T -> int) {
    forall i, j :: 0 <= i < j < |xs| ==> key(xs[i]) != key(xs[j])
  }

  lemma {:induction false} InsertMembers<T(!new)>(x: T, xs: seq<T>, key: T -> int)
    ensures forall y :: y in Insert(x, xs, key) <==> y == x || y in xs
    decreases |xs|
  {
    if xs != [] && key(x) < key(xs[|xs| - 1]) {
      InsertMembers(x, xs[..|xs| - 1], key);
      assert xs == xs[..|xs| - 1] + [xs[|xs| - 1]];
    }
  }

  lemma {:induction false} InsertStrictly<T(!new)>(x: T, xs: seq<T>, key: T -> int)
    requires StrictlySortedBy(xs, key) && forall y :: y in xs ==> key(y) != key(x)
    ensures StrictlySortedBy(Insert(x, xs, key), key)
    decreases |xs|
  {
    if xs != [] && key(x) < key(xs[|xs| - 1]) {
      var front, last := xs[..|xs| - 1], xs[|xs| - 1];
      InsertStrictly(x, front, key);
      InsertMembers(x, front, key);
      var r := Insert(x, front, key);
      forall k | 0 <= k < |r|
        ensures key(r[k]) < key(last)
      {
        assert r[k] in r;
        if r[k] != x {
          var i :| 0 <= i < |front| && front[i] == r[k];
          assert xs[i] == r[k];
        }
      }
    }
  }

  /** With distinct keys the sorted list is strictly sorted and has the same members. */
  lemma {:induction false} SortDistinct<T(!new)>(xs: seq<T>, key: T -> int)
    requires DistinctBy(xs, key)
    ensures StrictlySortedBy(SortBy(xs, key), key)
    ensures forall y :: y in SortBy(xs, key) <==> y in xs
    decreases |xs|
  {
    if xs != [] {
      var x, front := xs[|xs| - 1], xs[..|xs| - 1];
      SortDistinct(front, key);
      var sorted := SortBy(front, key);
      forall y | y in sorted
        ensures key(y) != key(x)
      {
        var i :| 0 <= i < |front| && front[i] == y;
        assert xs[i] == y;
      }
      InsertStrictly(x, sorted, key);
      InsertMembers(x, sorted, key);
      assert xs == front + [x];
    }
  }

  /** The elements with key v, in order. */
  function WithKey<T>(xs: seq<T>, key: T -> int, v: int): seq<T> {
    if xs == [] then []
    else WithKey(xs[..|xs| - 1], key, v) + if key(xs[|xs| - 1]) == v then [xs[|xs| - 1]] else []
  }

  lemma WithKeyLast<T>(xs: seq<T>, y: T, key: T -> int, v: int)
    ensures WithKey(xs + [y], key, v) == WithKey(xs, key, v) + if key(y) == v then [y] else []
  {
    assert (xs + [y])[..|xs|] == xs;
  }

  lemma {:induction false} InsertKeepsOrder<T>(x: T, xs: seq<T>, key: T -> int, v: int)
    ensures WithKey(Insert(x, xs, key), key, v) == WithKey(xs, key, v) + if key(x) == v then [x] else []
    decreases |xs|
  {
    if xs == [] || key(xs[|xs| - 1]) <= key(x) {
      WithKeyLast(xs, x, key, v);
    } else {
      var front, last := xs[..|xs| - 1], xs[|xs| - 1];
      InsertKeepsOrder(x, front, key, v);
      WithKeyLast(Insert(x, front, key), last, key, v);
    }
  }

  /** Elements with equal keys keep their order. */
  lemma {:induction false} SortByIsStable<T>(xs: seq<T>, key: T -> int, v: int)
    ensures WithKey(SortBy(xs, key), key, v) == WithKey(xs, key, v)
    decreases |xs|
  {
    if xs != [] {
      SortByIsStable(xs[..|xs| - 1], key, v);
      InsertKeepsOrder(xs[|xs| - 1], SortBy(xs[..|xs| - 1], key), key, v);
    }
  }
}
