/** dup_done: a Done event is repeated right after itself. */
module DupMutants {
  import opened Options
  import opened MutantLaws
  import opened TraceEvents

  function DupMutant(events: seq<RawEvent>, i: int): Mutant
    requires 0 <= i < |events|
  {
    Mutant(Duplicated(events, i), i + 1)
  }

  ghost predicate AreDones(events: seq<RawEvent>, n: nat, cands: seq<int>)
    requires n <= |events|
  {
    && (forall k :: 0 <= k < |cands| ==> 0 <= cands[k] < n)
    && (forall i :: 0 <= i < n ==> (i in cands <==> IsDone(events[i].action)))
    && (forall k, l :: 0 <= k < l < |cands| ==> cands[k] < cands[l])
  }

  method DonePositions(events: seq<RawEvent>) returns (cands: seq<int>)
    ensures AreDones(events, |events|, cands)
  {
    cands := [];
    for i := 0 to |events|
      invariant AreDones(events, i, cands)
    {
      if IsDone(events[i].action) {
        cands := cands + [i];
      }
    }
  }

  ghost predicate AllDone(events: seq<RawEvent>, picked: seq<int>) {
    forall k :: 0 <= k < |picked| ==> 0 <= picked[k] < |events| && IsDone(events[picked[k]].action)
  }

  ghost predicate AreDupMutants(events: seq<RawEvent>, picked: seq<int>, out: seq<Mutant>) {
    && AllDone(events, picked) && |out| == |picked|
    && forall k :: 0 <= k < |picked| ==> out[k] == DupMutant(events, picked[k])
  }

  method DoubleEach(events: seq<RawEvent>, picked: seq<int>) returns (out: seq<Mutant>)
    requires AllDone(events, picked)
    ensures AreDupMutants(events, picked, out)
  {
    out := [];
    for k := 0 to |picked|
      invariant |out| == k
      invariant forall l :: 0 <= l < k ==> out[l] == DupMutant(events, picked[l])
    {
      var i := picked[k];
      out := out + [Mutant(events[..i + 1] + [events[i]] + events[i + 1..], i + 1)];
    }
  }

  method GenDupDone(events: seq<RawEvent>, n: int)
    returns (mutants: Option<seq<Mutant>>, ghost cands: seq<int>)
    ensures AreDones(events, |events|, cands)
    ensures mutants.None? <==> Spread(cands, n).None?
    ensures mutants.Some? ==> AreDupMutants(events, Spread(cands, n).value, mutants.value)
    ensures mutants.Some? ==> forall m :: m in mutants.value ==> Illegal(m.events)
  {
    var dones := DonePositions(events);
    cands := dones;
    var sample := Spread(dones, n);
    if sample.None? {
      return None, cands;
    }
    assert forall k :: 0 <= k < |sample.value| ==> sample.value[k] in dones;
    var out := DoubleEach(events, sample.value);
    DupsAreIllegal(events, sample.value, out);
    mutants := Some(out);
  }

  lemma DupsAreIllegal(events: seq<RawEvent>, picked: seq<int>, out: seq<Mutant>)
    requires AreDupMutants(events, picked, out)
    ensures forall m :: m in out ==> Illegal(m.events)
  {
    hide Illegal;
    forall k | 0 <= k < |out|
      ensures Illegal(out[k].events)
    {
      DupIsIllegal(events, picked[k]);
    }
  }

  lemma DupIsIllegal(events: seq<RawEvent>, i: int)
    requires 0 <= i < |events| && IsDone(events[i].action)
    ensures Illegal(DupMutant(events, i).events)
  {
    var m := DupMutant(events, i);
    CutDupIsIllegal(events, i, |m.events|);
    assert m.events[..|m.events|] == m.events;
  }

  /** A doubled Done is illegal whatever the trace, and so is every cut that keeps it. */
  lemma CutDupIsIllegal(events: seq<RawEvent>, i: int, k: int)
    requires 0 <= i < |events| && IsDone(events[i].action)
    requires DupMutant(events, i).divergeBy < k <= |events| + 1
    ensures Illegal(DupMutant(events, i).events[..k])
  {
    var trace := AsTrace(events);
    DuplicatedPhases(trace, i);
    CutIsDead(Duplicated(trace, i), i + 2, k, trace[i].task);
    assert AsTrace(Duplicated(events, i)[..k]) == Duplicated(trace, i)[..k];
  }
}
