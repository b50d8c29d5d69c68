/** early_worker: the k-th worker start moves to before the k-th zero tracking. */
module EarlyWorkerMutants {
  import opened Options
  import opened Counting
  import opened QgroupLifecycle
  import opened QgroupCausality
  import opened MutantLaws
  import opened TraceEvents

  /** w is the k-th worker start and dest the k-th start of zero tracking, which comes first. */
  ghost predicate IsEarly(events: seq<RawEvent>, k: int, w: int, dest: int) {
    && 0 <= dest < w < |events|
    && events[w].action == RescanWorker_Enter && events[dest].action == RescanZeroTracking_Enter
    && k == Occurrences(AsTrace(events)[..w], RescanWorker_Enter)
    && k == Occurrences(AsTrace(events)[..dest], RescanZeroTracking_Enter)
  }

  ghost predicate AreEarly(events: seq<RawEvent>, cands: seq<(int, int, int)>) {
    && (forall c :: c in cands ==> IsEarly(events, c.0, c.1, c.2))
    && (forall k, w, dest :: IsEarly(events, k, w, dest) ==> (k, w, dest) in cands)
    && (forall i, j :: 0 <= i < j < |cands| ==> cands[i].0 < cands[j].0)
  }

  function EarlyMutant(events: seq<RawEvent>, w: int, dest: int): Mutant
    requires 0 <= dest < w < |events|
  {
    Mutant(Moved(events, w, dest), w + 1)
  }

  /** ps lists, in order, the positions before n of action a. */
  ghost predicate ArePositions(events: seq<RawEvent>, a: Action, n: nat, ps: seq<int>)
    requires n <= |events|
  {
    && |ps| == Occurrences(AsTrace(events)[..n], a)
    && (forall k :: 0 <= k < |ps| ==> IsPosition(events, a, n, ps, k))
    && (forall i :: 0 <= i < n && events[i].action == a ==> i in ps)
  }

  ghost predicate IsPosition(events: seq<RawEvent>, a: Action, n: nat, ps: seq<int>, k: int)
    requires n <= |events| && 0 <= k < |ps|
  {
    0 <= ps[k] < n && events[ps[k]].action == a && Occurrences(AsTrace(events)[..ps[k]], a) == k
  }

  lemma OneMore(trace: seq<Event>, a: Action, i: nat)
    requires i < |trace|
    ensures Occurrences(trace[..i + 1], a) == Occurrences(trace[..i], a) + Bit(trace[i].action == a)
  {
    assert trace[..i + 1][..i] == trace[..i];
  }

  method Positions(events: seq<RawEvent>, a: Action) returns (ps: seq<int>)
    ensures ArePositions(events, a, |events|, ps)
  {
    ps := [];
    for i := 0 to |events|
      invariant ArePositions(events, a, i, ps)
    {
      PositionsExtend(events, a, i, ps);
      if events[i].action == a {
        ps := ps + [i];
      }
    }
  }

  lemma PositionsExtend(events: seq<RawEvent>, a: Action, i: nat, ps: seq<int>)
    requires i < |events| && ArePositions(events, a, i, ps)
    ensures ArePositions(events, a, i + 1, if events[i].action == a then ps + [i] else ps)
  {
    OneMore(AsTrace(events), a, i);
    var longer, n := if events[i].action == a then ps + [i] else ps, i + 1;
    forall k | 0 <= k < |longer|
      ensures IsPosition(events, a, n, longer, k)
    {
      if k < |ps| {
        assert IsPosition(events, a, i, ps, k);
      }
    }
    hide IsPosition;
    if events[i].action == a {
      assert longer[|ps|] == i;
    }
  }

  /** An occurrence stands in the list at the place its count says. */
  lemma PositionAt(events: seq<RawEvent>, a: Action, ps: seq<int>, i: int)
    requires ArePositions(events, a, |events|, ps) && 0 <= i < |events| && events[i].action == a
    ensures var k := Occurrences(AsTrace(events)[..i], a); k < |ps| && ps[k] == i
  {
    var k :| 0 <= k < |ps| && ps[k] == i;
    assert IsPosition(events, a, |events|, ps, k);
  }

  method EarlyCandidates(events: seq<RawEvent>) returns (cands: seq<(int, int, int)>)
    ensures AreEarly(events, cands)
  {
    var wEnters := Positions(events, RescanWorker_Enter);
    var ztEnters := Positions(events, RescanZeroTracking_Enter);
    cands := [];
    for k := 0 to |wEnters|
      invariant forall c :: c in cands ==> IsEarly(events, c.0, c.1, c.2) && c.0 < k
      invariant forall l :: 0 <= l < |cands| ==> cands[l].0 < k
      invariant forall l, w, dest :: l < k && IsEarly(events, l, w, dest) ==> (l, w, dest) in cands
      invariant forall i, j :: 0 <= i < j < |cands| ==> cands[i].0 < cands[j].0
    {
      hide ArePositions, IsEarly;
      EarlyAt(events, wEnters, ztEnters, k);
      if k < |ztEnters| && ztEnters[k] < wEnters[k] {
        cands := cands + [(k, wEnters[k], ztEnters[k])];
      }
    }
    EarlyIsListed(events, wEnters);
  }

  lemma EarlyAt(events: seq<RawEvent>, wEnters: seq<int>, ztEnters: seq<int>, k: int)
    requires ArePositions(events, RescanWorker_Enter, |events|, wEnters)
    requires ArePositions(events, RescanZeroTracking_Enter, |events|, ztEnters)
    ensures forall w, dest :: IsEarly(events, k, w, dest) ==>
              0 <= k < |wEnters| && k < |ztEnters| && w == wEnters[k] && dest == ztEnters[k] && dest < w
    ensures 0 <= k < |wEnters| && k < |ztEnters| && ztEnters[k] < wEnters[k] ==>
              IsEarly(events, k, wEnters[k], ztEnters[k])
  {
    if 0 <= k < |wEnters| && k < |ztEnters| {
      assert IsPosition(events, RescanWorker_Enter, |events|, wEnters, k);
      assert IsPosition(events, RescanZeroTracking_Enter, |events|, ztEnters, k);
    }
    forall w, dest | IsEarly(events, k, w, dest)
      ensures 0 <= k < |wEnters| && k < |ztEnters| && w == wEnters[k] && dest == ztEnters[k]
    {
      PositionAt(events, RescanWorker_Enter, wEnters, w);
      PositionAt(events, RescanZeroTracking_Enter, ztEnters, dest);
    }
  }

  lemma EarlyIsListed(events: seq<RawEvent>, wEnters: seq<int>)
    requires ArePositions(events, RescanWorker_Enter, |events|, wEnters)
    ensures forall k, w, dest :: IsEarly(events, k, w, dest) ==> k < |wEnters|
  {
    forall k, w, dest | IsEarly(events, k, w, dest)
      ensures k < |wEnters|
    {
      PositionAt(events, RescanWorker_Enter, wEnters, w);
    }
  }

  ghost predicate AllEarly(events: seq<RawEvent>, picked: seq<(int, int, int)>) {
    forall k :: 0 <= k < |picked| ==> IsEarly(events, picked[k].0, picked[k].1, picked[k].2)
  }

  ghost predicate AreEarlyMutants(events: seq<RawEvent>, picked: seq<(int, int, int)>, out: seq<Mutant>) {
    && AllEarly(events, picked) && |out| == |picked|
    && forall k :: 0 <= k < |picked| ==> out[k] == EarlyMutant(events, picked[k].1, picked[k].2)
  }

  method MoveEach(events: seq<RawEvent>, picked: seq<(int, int, int)>) returns (out: seq<Mutant>)
    requires AllEarly(events, picked)
    ensures AreEarlyMutants(events, picked, out)
  {
    out := [];
    for k := 0 to |picked|
      invariant |out| == k
      invariant forall l :: 0 <= l < k ==> out[l] == EarlyMutant(events, picked[l].1, picked[l].2)
    {
      var (_, w, dest) := picked[k];
      out := out + [Mutant(events[..dest] + [events[w]] + events[dest..w] + events[w + 1..], w + 1)];
    }
  }

  method GenEarlyWorker(events: seq<RawEvent>, n: int)
    returns (mutants: Option<seq<Mutant>>, ghost cands: seq<(int, int, int)>)
    ensures AreEarly(events, cands)
    ensures mutants.None? <==> Spread(cands, n).None?
    ensures mutants.Some? ==> AreEarlyMutants(events, Spread(cands, n).value, mutants.value)
    ensures mutants.Some? && Legal(events) ==> forall m :: m in mutants.value ==> Illegal(m.events)
  {
    var early := EarlyCandidates(events);
    cands := early;
    var sample := Spread(early, n);
    if sample.None? {
      return None, cands;
    }
    var out := MoveEach(events, sample.value);
    if Legal(events) {
      EarliesAreIllegal(events, sample.value, out);
    }
    mutants := Some(out);
  }

  lemma EarliesAreIllegal(events: seq<RawEvent>, picked: seq<(int, int, int)>, out: seq<Mutant>)
    requires Legal(events) && AreEarlyMutants(events, picked, out)
    ensures forall m :: m in out ==> Illegal(m.events)
  {
    hide Illegal, Legal;
    forall k | 0 <= k < |out|
      ensures Illegal(out[k].events)
    {
      EarlyIsIllegal(events, picked[k].0, picked[k].1, picked[k].2);
    }
  }

  lemma EarlyIsIllegal(events: seq<RawEvent>, i: int, w: int, dest: int)
    requires Legal(events) && IsEarly(events, i, w, dest)
    ensures Illegal(EarlyMutant(events, w, dest).events)
  {
    CutEarlyIsIllegal(events, i, w, dest, |events|);
    var m := EarlyMutant(events, w, dest).events;
    assert m[..|events|] == m;
  }

  /** The moved start shows in every cut that reaches past its old place. */
  lemma CutEarlyIsIllegal(events: seq<RawEvent>, i: int, w: int, dest: int, k: int)
    requires Legal(events) && IsEarly(events, i, w, dest) && w < k <= |events|
    ensures Illegal(EarlyMutant(events, w, dest).events[..k])
  {
    var trace := AsTrace(events);
    var c :| Accepted(c, trace);
    MovedWorkerRejected(c, trace, w, dest);
    var m := Moved(trace, w, dest);
    RejectedShorter(m, w + 1, k);
    MovedAsTrace(events, w, dest);
    AsTracePrefix(Moved(events, w, dest), k);
  }

  lemma MovedAsTrace(events: seq<RawEvent>, w: int, dest: int)
    requires 0 <= dest < w < |events|
    ensures AsTrace(Moved(events, w, dest)) == Moved(AsTrace(events), w, dest)
  {
  }

  lemma ShorterAccepted(c: Config, trace: seq<Event>, j: nat, k: nat)
    requires j <= k <= |trace| && Accepted(c, trace[..k])
    ensures Accepted(c, trace[..j])
  {
    var steps :| RunProjectsTo(c, steps, trace[..k]);
    AcceptedPrefix(c, steps, trace[..k], j);
    assert trace[..k][..j] == trace[..j];
  }

  /** What has a rejected prefix is rejected. */
  lemma RejectedShorter(trace: seq<Event>, j: nat, k: nat)
    requires j <= k <= |trace| && Rejected(trace[..j])
    ensures Rejected(trace[..k])
  {
    forall c
      ensures Accepted(c, trace[..k]) ==> Accepted(c, trace[..j])
    {
      if Accepted(c, trace[..k]) {
        ShorterAccepted(c, trace, j, k);
      }
    }
  }
}
