/** The search for overlapping pairs of spans: sorted candidates and an early break
    against the plain all-pairs definition. */
module OverlapScan {
  import opened Sorting
  import opened WindowScan

  predicate Overlaps(a0: int, a1: int, b0: int, b1: int) { a0 < b1 && b0 < a1 }

  /** Two stretches of time overlap when they share an instant. */
  lemma OverlapIsSharedInstant(a0: int, a1: int, b0: int, b1: int)
    requires a0 < a1 && b0 < b1
    ensures Overlaps(a0, a1, b0, b1) <==> exists t: real :: Within(t, a0, a1) && Within(t, b0, b1)
  {
    if Overlaps(a0, a1, b0, b1) {
      var lo := if a0 > b0 then a0 else b0;
      var hi := if a1 < b1 then a1 else b1;
      var t := (lo as real + hi as real) / 2.0;
      assert Within(t, a0, a1) && Within(t, b0, b1);
    }
  }

  predicate Within(t: real, lo: int, hi: int) { lo as real < t < hi as real }

  /** A reported pair: other task, same filesystem, overlapping in time. */
  predicate Hit(a: Span, b: Span, crossTask: bool) {
    !(crossTask && b.tid == a.tid) && a.fs == b.fs && Overlaps(a.a, a.b, b.a, b.b)
  }

  /** All hits of one span, in the order of the candidates. */
  function HitsOf(a: Span, bs: seq<Span>, crossTask: bool): seq<(Span, Span)> {
    if bs == [] then []
    else HitsOf(a, bs[..|bs| - 1], crossTask) + if Hit(a, bs[|bs| - 1], crossTask) then [(a, bs[|bs| - 1])] else []
  }

  /** The definition: every pair that is a hit, each once. */
  function AllHits(xs: seq<Span>, bs: seq<Span>, crossTask: bool): seq<(Span, Span)> {
    if xs == [] then [] else AllHits(xs[..|xs| - 1], bs, crossTask) + HitsOf(xs[|xs| - 1], bs, crossTask)
  }

  function StartTime(x: Span): int { x.a }

  /** From a candidate that starts too late on, no candidate hits. */
  lemma {:induction false} LateOnesMiss(a: Span, bs: seq<Span>, k: nat, crossTask: bool)
    requires SortedBy(bs, StartTime) && k < |bs| && bs[k].a >= a.b
    ensures HitsOf(a, bs, crossTask) == HitsOf(a, bs[..k], crossTask)
    decreases |bs|
  {
    var front := bs[..|bs| - 1];
    assert StartTime(bs[k]) <= StartTime(bs[|bs| - 1]);
    if k < |front| {
      LateOnesMiss(a, front, k, crossTask);
      assert front[..k] == bs[..k];
    }
  }

  /** Sorting the candidates permutes the hits of a span. */
  lemma {:induction false} HitsPermute(a: Span, bs: seq<Span>, cs: seq<Span>, crossTask: bool)
    requires multiset(bs) == multiset(cs)
    ensures multiset(HitsOf(a, bs, crossTask)) == multiset(HitsOf(a, cs, crossTask))
  {
    forall p
      ensures multiset(HitsOf(a, bs, crossTask))[p] == multiset(HitsOf(a, cs, crossTask))[p]
    {
      HitCount(a, bs, crossTask, p);
      HitCount(a, cs, crossTask, p);
    }
  }

  /** How often a pair is reported: as often as its candidate occurs. */
  lemma {:induction false} HitCount(a: Span, bs: seq<Span>, crossTask: bool, p: (Span, Span))
    ensures multiset(HitsOf(a, bs, crossTask))[p]
              == if p.0 == a && Hit(a, p.1, crossTask) then multiset(bs)[p.1] else 0
    decreases |bs|
  {
    if bs != [] {
      var front, b := bs[..|bs| - 1], bs[|bs| - 1];
      HitCount(a, front, crossTask, p);
      assert bs == front + [b];
      assert multiset(bs) == multiset(front) + multiset{b};
    }
  }

  lemma {:induction false} AllHitsPermute(xs: seq<Span>, bs: seq<Span>, cs: seq<Span>, crossTask: bool)
    requires multiset(bs) == multiset(cs)
    ensures multiset(AllHits(xs, bs, crossTask)) == multiset(AllHits(xs, cs, crossTask))
    decreases |xs|
  {
    if xs != [] {
      AllHitsPermute(xs[..|xs| - 1], bs, cs, crossTask);
      HitsPermute(xs[|xs| - 1], bs, cs, crossTask);
    }
  }

  /** A pair is in the result exactly when it is a hit of the two lists. */
  lemma {:induction false} AllHitsMembers(xs: seq<Span>, bs: seq<Span>, crossTask: bool, a: Span, b: Span)
    ensures (a, b) in AllHits(xs, bs, crossTask) <==> a in xs && b in bs && Hit(a, b, crossTask)
    decreases |xs|
  {
    if xs != [] {
      var front, x := xs[..|xs| - 1], xs[|xs| - 1];
      AllHitsMembers(front, bs, crossTask, a, b);
      HitCount(x, bs, crossTask, (a, b));
      assert xs == front + [x];
      assert (a, b) in HitsOf(x, bs, crossTask) <==> (a, b) in multiset(HitsOf(x, bs, crossTask));
    }
  }

  lemma HitsOfNext(a: Span, bs: seq<Span>, k: nat, crossTask: bool)
    requires k < |bs|
    ensures HitsOf(a, bs[..k + 1], crossTask) ==
            HitsOf(a, bs[..k], crossTask) + if Hit(a, bs[k], crossTask) then [(a, bs[k])] else []
  {
    assert bs[..k + 1][..k] == bs[..k];
  }

  lemma NoneOfNone(a: Span, bs: seq<Span>, crossTask: bool)
    ensures HitsOf(a, bs[..0], crossTask) == []
    ensures bs[..|bs|] == bs
  {
  }

  lemma AllHitsNext(xs: seq<Span>, i: nat, bs: seq<Span>, crossTask: bool)
    requires i < |xs|
    ensures AllHits(xs[..i + 1], bs, crossTask) == AllHits(xs[..i], bs, crossTask) + HitsOf(xs[i], bs, crossTask)
  {
    assert xs[..i + 1][..i] == xs[..i];
  }

  lemma ScanMembers(xs: seq<Span>, bs: seq<Span>, sorted: seq<Span>, crossTask: bool)
    requires multiset(bs) == multiset(sorted)
    ensures forall a, b :: (a, b) in AllHits(xs, sorted, crossTask) <==> a in xs && b in bs && Hit(a, b, crossTask)
  {
    forall a, b
      ensures (a, b) in AllHits(xs, sorted, crossTask) <==> a in xs && b in bs && Hit(a, b, crossTask)
    {
      AllHitsMembers(xs, sorted, crossTask, a, b);
      assert b in bs <==> b in multiset(bs);
    }
  }

  /** The search of one span: until a candidate starts too late. */
  method ScanOne(a: Span, sorted: seq<Span>, crossTask: bool) returns (hits: seq<(Span, Span)>)
    requires SortedBy(sorted, StartTime)
    ensures hits == HitsOf(a, sorted, crossTask)
  {
    hits := [];
    NoneOfNone(a, sorted, crossTask);
    hide HitsOf, SortedBy;
    for k := 0 to |sorted|
      invariant hits == HitsOf(a, sorted[..k], crossTask)
    {
      var b := sorted[k];
      HitsOfNext(a, sorted, k, crossTask);
      if b.a >= a.b {
        LateOnesMiss(a, sorted, k, crossTask);
        break;
      }
      if !(crossTask && b.tid == a.tid) && a.fs == b.fs && Overlaps(a.a, a.b, b.a, b.b) {
        hits := hits + [(a, b)];
      }
    }
  }

  /** The search: for each span the candidates in the order of their start. It reports
      every hit, and each as often as the all-pairs definition does. */
  method Scan(xs: seq<Span>, bs: seq<Span>, crossTask: bool) returns (hits: seq<(Span, Span)>)
    ensures hits == AllHits(xs, SortBy(bs, StartTime), crossTask)
    ensures multiset(hits) == multiset(AllHits(xs, bs, crossTask))
    ensures forall a, b :: (a, b) in hits <==> a in xs && b in bs && Hit(a, b, crossTask)
  {
    var sorted := SortBy(bs, StartTime);
    SortBySorts(bs, StartTime);
    hits := [];
    for i := 0 to |xs|
      invariant hits == AllHits(xs[..i], sorted, crossTask)
    {
      AllHitsNext(xs, i, sorted, crossTask);
      var found := ScanOne(xs[i], sorted, crossTask);
      hits := hits + found;
    }
    assert xs[..|xs|] == xs;
    AllHitsPermute(xs, bs, sorted, crossTask);
    ScanMembers(xs, bs, sorted, crossTask);
  }
}
