/** Facts about finite sets. */
module Sets {
  import opened Counting

  /** The numbers 1 to n. */
  function UpTo(n: nat): (s: set<int>)
    ensures forall k :: k in s <==> 1 <= k <= n
  {
    if n == 0 then {} else UpTo(n - 1) + {n}
  }

  lemma Pick<T>(s: set<T>) returns (x: T)
    requires s != {}
    ensures x in s
  {
    x :| x in s;
  }

  lemma NoneInEmpty<T(!new)>(s: set<T>)
    ensures s == {} <==> forall x :: x !in s
  {
  }

  lemma {:induction false} HasLeast(s: set<int>)
    requires s != {}
    ensures exists m :: m in s && forall k :: k in s ==> m <= k
    decreases |s|
  {
    var x := Pick(s);
    var rest := s - {x};
    if rest != {} {
      HasLeast(rest);
      var m :| m in rest && forall k :: k in rest ==> m <= k;
      var least := if m < x then m else x;
      assert least in s && forall k :: k in s ==> least <= k by {
        assert forall k :: k in s ==> k == x || k in rest;
      }
    } else {
      NoneInEmpty(rest);
      assert forall k :: k in s ==> k == x || k in rest;
    }
  }

  /** The least element of a set. */
  function Least(s: set<int>): (m: int)
    requires s != {}
    ensures m in s && forall k :: k in s ==> m <= k
  {
    HasLeast(s);
    var m :| m in s && forall k :: k in s ==> m <= k;
    m
  }

  lemma AtMostOne<T>(ids: set<T>)
    requires forall i, j :: i in ids && j in ids ==> i == j
    ensures |ids| <= 1
  {
    if i :| i in ids {
      assert ids == {i};
    } else {
      assert ids == {};
    }
  }

  lemma TwoOf<T>(ids: set<T>) returns (i: T, j: T)
    requires |ids| >= 2
    ensures i in ids && j in ids && i != j
  {
    if forall i, j :: i in ids && j in ids ==> i == j {
      AtMostOne(ids);
    }
    i, j :| i in ids && j in ids && i != j;
  }

  lemma FewerThanTwo<T>(ids: set<T>, other: T) returns (only: T)
    requires |ids| < 2
    ensures forall i :: i in ids ==> i == only
  {
    only := other;
    if i, j :| i in ids && j in ids && i != j {
      SubsetSize({i, j}, ids);
    } else if i :| i in ids {
      only := i;
    }
  }

  lemma ThreeOf<T>(ids: set<T>) returns (i: T, j: T, k: T)
    requires |ids| >= 3
    ensures i in ids && j in ids && k in ids && i != j && j != k && i != k
  {
    i :| i in ids;
    j, k := TwoOf(ids - {i});
  }

  lemma ThreeIn<T>(ids: set<T>, i: T, j: T, k: T)
    requires i in ids && j in ids && k in ids && i != j && j != k && i != k
    ensures |ids| >= 3
  {
    SubsetSize({i, j, k}, ids);
  }
}
