/** Counting and summing over the state of a finite family of processes. */
module Counting {

  function Bit(b: bool): nat { if b then 1 else 0 }

  /** How many keys of m have a value satisfying p. */
  function CountIf<K, V>(m: map<K, V>, p: V -> bool): nat {
    |set k | k in m && p(m[k])|
  }

  /** Key k apart from the others. */
  lemma CountSplit<K, V>(m: map<K, V>, k: K, p: V -> bool)
    requires k in m
    ensures CountIf(m, p) == CountIf(m - {k}, p) + Bit(p(m[k]))
  {
    var all := set x | x in m && p(m[x]);
    var others := set x | x in m - {k} && p((m - {k})[x]);
    assert all == if p(m[k]) then others + {k} else others;
  }

  lemma CountUpdate<K, V>(m: map<K, V>, k: K, v: V, p: V -> bool)
    requires k in m
    ensures CountIf(m[k := v], p) + Bit(p(m[k])) == CountIf(m, p) + Bit(p(v))
  {
    hide CountIf;
    CountSplit(m, k, p);
    CountSplit(m[k := v], k, p);
    assert m[k := v] - {k} == m - {k};
  }

  lemma CountZero<K, V>(m: map<K, V>, p: V -> bool)
    requires forall k :: k in m ==> !p(m[k])
    ensures CountIf(m, p) == 0
  {
    assert (set k | k in m && p(m[k])) == {};
  }

  lemma CountPositive<K, V>(m: map<K, V>, k: K, p: V -> bool)
    requires k in m && p(m[k])
    ensures CountIf(m, p) >= 1
  {
    var all := set x | x in m && p(m[x]);
    SubsetSize({k}, all);
  }

  lemma CountTwo<K, V>(m: map<K, V>, k1: K, k2: K, p: V -> bool)
    requires k1 in m && k2 in m && k1 != k2 && p(m[k1]) && p(m[k2])
    ensures CountIf(m, p) >= 2
  {
    var all := set x | x in m && p(m[x]);
    SubsetSize({k1, k2}, all);
  }

  lemma CountOnly<K, V>(m: map<K, V>, k: K, p: V -> bool)
    requires k in m && forall x :: x in m && x != k ==> !p(m[x])
    ensures CountIf(m, p) == Bit(p(m[k]))
  {
    assert (set x | x in m && p(m[x])) == if p(m[k]) then {k} else {};
  }

  lemma CountWitness<K, V>(m: map<K, V>, p: V -> bool) returns (k: K)
    requires CountIf(m, p) >= 1
    ensures k in m && p(m[k])
  {
    k :| k in set x | x in m && p(m[x]);
  }

  lemma SubsetSize<T>(a: set<T>, b: set<T>)
    requires a <= b
    ensures |a| <= |b|
  {
    if a != {} {
      var x :| x in a;
      SubsetSize(a - {x}, b - {x});
    }
  }

  /** The sum of f over a sequence. */
  function Sum<V>(s: seq<V>, f: V -> int): int {
    if s == [] then 0 else f(s[0]) + Sum(s[1..], f)
  }

  lemma {:induction false} SumUpdate<V>(s: seq<V>, i: nat, v: V, f: V -> int)
    requires i < |s|
    ensures Sum(s[i := v], f) == Sum(s, f) - f(s[i]) + f(v)
    decreases |s|
  {
    if i == 0 {
      assert s[i := v][1..] == s[1..];
    } else {
      SumUpdate(s[1..], i - 1, v, f);
      assert s[i := v][1..] == s[1..][i - 1 := v];
    }
  }

  lemma {:induction false} SumLeast<V>(s: seq<V>, f: V -> int)
    requires forall k :: 0 <= k < |s| ==> f(s[k]) >= 0
    ensures Sum(s, f) >= 0
    ensures forall k :: 0 <= k < |s| ==> f(s[k]) <= Sum(s, f)
    decreases |s|
  {
    if s != [] {
      SumLeast(s[1..], f);
      forall k | 0 <= k < |s| ensures f(s[k]) <= Sum(s, f) {
        if k > 0 {
          assert s[k] == s[1..][k - 1];
        }
      }
    }
  }

  lemma {:induction false} SumZero<V>(s: seq<V>, f: V -> int)
    requires forall k :: 0 <= k < |s| ==> f(s[k]) == 0
    ensures Sum(s, f) == 0
    decreases |s|
  {
    if s != [] {
      SumZero(s[1..], f);
    }
  }
}
