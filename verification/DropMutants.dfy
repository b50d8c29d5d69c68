/** drop_enter: an Enter event disappears although its task goes on. */
module DropMutants {
  import opened Options
  import opened QgroupLifecycle
  import opened QgroupLanguage
  import opened MutantLaws
  import opened TraceEvents
  import opened UnmountMutants

  /** i begins an operation, or a part of one, and its task has a later event. */
  ghost predicate Orphans(events: seq<RawEvent>, i: int) {
    0 <= i < |events| && IsEnter(events[i].action) && exists j :: NextOfTask(events, i, j)
  }

  ghost predicate IsDropMutant(events: seq<RawEvent>, i: int, m: Mutant) {
    && Orphans(events, i) && m.events == Dropped(events, i)
    && exists j :: NextOfTask(events, i, j) && m.divergeBy == j - 1
  }

  ghost predicate AreOrphaning(events: seq<RawEvent>, cands: seq<int>) {
    && (forall i :: i in cands <==> Orphans(events, i))
    && (forall k, l :: 0 <= k < l < |cands| ==> cands[k] < cands[l])
  }

  /** The position of each task's last event. */
  ghost predicate AreLast(events: seq<RawEvent>, n: nat, lastPos: map<Task, int>)
    requires n <= |events|
  {
    && (forall i :: 0 <= i < n ==> TaskOf(events[i]) in lastPos && i <= lastPos[TaskOf(events[i])])
    && (forall t :: t in lastPos ==> 0 <= lastPos[t] < n && TaskOf(events[lastPos[t]]) == t)
  }

  method LastPositions(events: seq<RawEvent>) returns (lastPos: map<Task, int>)
    ensures AreLast(events, |events|, lastPos)
  {
    lastPos := map[];
    for i := 0 to |events|
      invariant AreLast(events, i, lastPos)
    {
      lastPos := lastPos[TaskOf(events[i]) := i];
    }
  }

  lemma LaterThanLast(events: seq<RawEvent>, lastPos: map<Task, int>, i: int)
    requires AreLast(events, |events|, lastPos) && 0 <= i < |events|
    ensures forall j :: NextOfTask(events, i, j) ==> lastPos[TaskOf(events[i])] > i
  {
    forall j | NextOfTask(events, i, j)
      ensures lastPos[TaskOf(events[i])] > i
    {
      assert TaskOf(events[j]) == TaskOf(events[i]);
    }
  }

  lemma {:induction false} SomeNext(events: seq<RawEvent>, i: int, j: int)
    requires 0 <= i < j < |events| && TaskOf(events[j]) == TaskOf(events[i])
    ensures exists n :: NextOfTask(events, i, n)
    decreases j
  {
    if l :| i < l < j && TaskOf(events[l]) == TaskOf(events[i]) {
      SomeNext(events, i, l);
    } else {
      assert NextOfTask(events, i, j);
    }
  }

  /** The first event of i's task after i. */
  method NextPosition(events: seq<RawEvent>, i: int) returns (nxt: int)
    requires 0 <= i < |events| && exists j :: i < j < |events| && TaskOf(events[j]) == TaskOf(events[i])
    ensures NextOfTask(events, i, nxt)
  {
    nxt := i + 1;
    while TaskOf(events[nxt]) != TaskOf(events[i])
      invariant i < nxt < |events|
      invariant forall k :: i < k < nxt ==> AsTrace(events)[k].task != AsTrace(events)[i].task
      invariant exists j :: nxt <= j < |events| && TaskOf(events[j]) == TaskOf(events[i])
      decreases |events| - nxt
    {
      nxt := nxt + 1;
    }
  }

  method OrphaningEnters(events: seq<RawEvent>) returns (cands: seq<int>)
    ensures AreOrphaning(events, cands)
  {
    var lastPos := LastPositions(events);
    cands := [];
    for i := 0 to |events|
      invariant forall x :: x in cands <==> 0 <= x < i && Orphans(events, x)
      invariant forall k :: 0 <= k < |cands| ==> cands[k] < i
      invariant forall k, l :: 0 <= k < l < |cands| ==> cands[k] < cands[l]
    {
      LaterThanLast(events, lastPos, i);
      if IsEnter(events[i].action) && lastPos[TaskOf(events[i])] > i {
        SomeNext(events, i, lastPos[TaskOf(events[i])]);
        cands := cands + [i];
      }
    }
  }

  ghost predicate AllOrphan(events: seq<RawEvent>, picked: seq<int>) {
    forall k :: 0 <= k < |picked| ==> Orphans(events, picked[k])
  }

  ghost predicate AreDropMutants(events: seq<RawEvent>, picked: seq<int>, out: seq<Mutant>) {
    |out| == |picked| && forall k :: 0 <= k < |picked| ==> IsDropMutant(events, picked[k], out[k])
  }

  method DropEach(events: seq<RawEvent>, picked: seq<int>) returns (out: seq<Mutant>)
    requires AllOrphan(events, picked)
    ensures AreDropMutants(events, picked, out)
  {
    out := [];
    for k := 0 to |picked|
      invariant |out| == k
      invariant forall l :: 0 <= l < k ==> IsDropMutant(events, picked[l], out[l])
    {
      var i := picked[k];
      var nxt := NextPosition(events, i);
      out := out + [Mutant(events[..i] + events[i + 1..], nxt - 1)];
    }
  }

  /** A mutant is legal exactly where the event it lost can pass for the start of an unmount. */
  ghost predicate LegalWherePassing(events: seq<RawEvent>, picked: seq<int>, out: seq<Mutant>) {
    && |out| == |picked| && AllOrphan(events, picked)
    && forall k :: 0 <= k < |picked| ==> (Legal(out[k].events) <==> PassesForUnmount(AsTrace(events), picked[k]))
  }

  /** Drops Enter events whose task goes on, n of them spread over the trace. */
  method GenDropEnter(events: seq<RawEvent>, n: int)
    returns (mutants: Option<seq<Mutant>>, ghost cands: seq<int>)
    ensures AreOrphaning(events, cands)
    ensures mutants.None? <==> Spread(cands, n).None?
    ensures mutants.Some? ==> AreDropMutants(events, Spread(cands, n).value, mutants.value)
    ensures mutants.Some? && Finished(events) ==> forall m :: m in mutants.value ==> Illegal(m.events)
    ensures mutants.Some? && Legal(events) ==> LegalWherePassing(events, Spread(cands, n).value, mutants.value)
  {
    var enters := OrphaningEnters(events);
    cands := enters;
    var sample := Spread(enters, n);
    if sample.None? {
      return None, cands;
    }
    assert forall k :: 0 <= k < |sample.value| ==> sample.value[k] in enters;
    var out := DropEach(events, sample.value);
    if Finished(events) {
      DropsAreIllegal(events, sample.value, out);
    }
    if Legal(events) {
      DropsAreLegalIff(events, sample.value, out);
    }
    mutants := Some(out);
  }

  lemma DropsAreIllegal(events: seq<RawEvent>, picked: seq<int>, out: seq<Mutant>)
    requires Finished(events) && AreDropMutants(events, picked, out)
    ensures forall m :: m in out ==> Illegal(m.events)
  {
    hide Illegal, Finished;
    forall k | 0 <= k < |out|
      ensures Illegal(out[k].events)
    {
      FinishedDropIsIllegal(events, picked[k]);
    }
  }

  lemma DropsAreLegalIff(events: seq<RawEvent>, picked: seq<int>, out: seq<Mutant>)
    requires Legal(events) && AreDropMutants(events, picked, out)
    ensures LegalWherePassing(events, picked, out)
  {
    hide Legal, PassesForUnmount;
    forall k | 0 <= k < |out|
      ensures Legal(out[k].events) <==> PassesForUnmount(AsTrace(events), picked[k])
    {
      DropIsLegalIff(events, picked[k]);
    }
  }

  // ----- When a dropped Enter shows -----

  lemma DroppedAsTrace(events: seq<RawEvent>, i: int)
    requires 0 <= i < |events|
    ensures AsTrace(Dropped(events, i)) == Dropped(AsTrace(events), i)
  {
  }

  /** For a legal trace: without i it stays legal if and only if i starts a disable that
      can pass for an unmount. */
  lemma DropIsLegalIff(events: seq<RawEvent>, i: int)
    requires Legal(events) && Orphans(events, i)
    ensures Legal(Dropped(events, i)) <==> PassesForUnmount(AsTrace(events), i)
  {
    var c :| Accepted(c, AsTrace(events));
    var j :| NextOfTask(events, i, j);
    DroppedAsTrace(events, i);
    hide PassesForUnmount, Accepted;
    DroppedIsAcceptedIff(c, AsTrace(events), i, j);
  }

  lemma DroppedIsRejected(events: seq<RawEvent>, i: int, t: Task)
    requires 0 <= i < |events| && PhaseOf(Dropped(AsTrace(events), i), t) == Dead
    ensures Illegal(Dropped(events, i))
  {
    DeadIsRejected(Dropped(AsTrace(events), i), t);
    DroppedAsTrace(events, i);
  }

  lemma LegalPrefix(events: seq<RawEvent>, k: nat)
    requires Legal(events) && k <= |events|
    ensures Legal(events[..k])
  {
    var c :| Accepted(c, AsTrace(events));
    var steps :| RunProjectsTo(c, steps, AsTrace(events));
    AcceptedPrefix(c, steps, AsTrace(events), k);
    AsTracePrefix(events, k);
  }

  lemma SamePairs(events: seq<RawEvent>, k: nat, i: int, j: int)
    requires j < k <= |events|
    ensures NextOfTask(events[..k], i, j) <==> NextOfTask(events, i, j)
  {
    AsTracePrefix(events, k);
  }

  lemma DropThenCut<T>(s: seq<T>, i: int, k: int)
    requires 0 <= i <= k < |s|
    ensures Dropped(s[..k + 1], i) == Dropped(s, i)[..k]
  {
  }

  /** The cut mutant, with the orphaned event still in it: what counts is how far the
      trace is shown. */
  lemma CutDropIsLegalIff(events: seq<RawEvent>, i: int, j: int, k: int)
    requires Legal(events) && NextOfTask(events, i, j) && IsEnter(events[i].action) && j <= k < |events|
    ensures Legal(Dropped(events, i)[..k]) <==> PassesForUnmount(AsTrace(events)[..k + 1], i)
  {
    ShownOrphan(events, i, j, k);
    hide Legal, PassesForUnmount, NextOfTask, IsEnter, Orphans, Dropped, AsTrace;
    LegalPrefix(events, k + 1);
    DropIsLegalIff(events[..k + 1], i);
    assert AsTrace(events[..k + 1]) == AsTrace(events)[..k + 1] by {
      AsTracePrefix(events, k + 1);
    }
    assert Dropped(events[..k + 1], i) == Dropped(events, i)[..k] by {
      DropThenCut(events, i, k);
    }
  }

  lemma ShownOrphan(events: seq<RawEvent>, i: int, j: int, k: int)
    requires NextOfTask(events, i, j) && IsEnter(events[i].action) && j <= k < |events|
    ensures 0 <= i < j && Orphans(events[..k + 1], i)
  {
    SamePairs(events, k + 1, i, j);
  }

  /** In a trace whose operations all finish, every dropped Enter shows. */
  lemma FinishedDropIsIllegal(events: seq<RawEvent>, i: int)
    requires Finished(events) && Orphans(events, i)
    ensures Illegal(Dropped(events, i))
  {
    var trace := AsTrace(events);
    var j :| NextOfTask(events, i, j);
    FinishedRests(events, trace[i].task);
    DroppedPhases(trace, i, j);
    RestIsNoSurvivor(trace, i);
    DroppedIsRejected(events, i, trace[i].task);
  }

  lemma FinishedRests(events: seq<RawEvent>, t: Task)
    requires Finished(events)
    ensures AtRest(PhaseOf(AsTrace(events), t))
  {
    var c, steps :| RunProjectsTo(c, steps, AsTrace(events)) && AllIdle(After(c, Init(c), steps).value);
    IdleRunRests(c, steps, t);
  }

  /** A surviving word ends inside the disable. */
  lemma RestIsNoSurvivor(trace: seq<Event>, i: nat)
    requires i < |trace| && AtRest(PhaseOf(trace, trace[i].task))
    ensures var t := trace[i].task;
            !SurvivesDrop(PhaseOf(trace[..i], t), trace[i].action, Word(trace[i + 1..], t))
  {
    var t, e := trace[i].task, trace[i];
    assert trace == trace[..i] + [e] + trace[i + 1..];
    PhaseConcat(trace[..i] + [e], trace[i + 1..], t);
    PhaseStep(trace[..i], e, t);
    SurvivorIsBusy(PhaseOf(trace[..i], t), e.action, Word(trace[i + 1..], t));
  }

  lemma WalkTwo(q: Phase, a: Action, b: Action)
    ensures Walk(q, [a]) == Delta(q, a) && Walk(q, [a, b]) == Delta(Delta(q, a), b)
  {
    assert [a][1..] == [] && [a, b][1..] == [b] && [b][1..] == [];
    assert Walk(q, [a]) == Walk(Delta(q, a), []);
    assert Walk(q, [a, b]) == Walk(Delta(q, a), [b]) == Walk(Delta(Delta(q, a), b), []);
  }

  lemma SurvivorIsBusy(q: Phase, a: Action, rest: seq<Action>)
    ensures SurvivesDrop(q, a, rest) ==> !AtRest(Walk(Delta(q, a), rest))
  {
    WalkTwo(Disabling, FreeQgroupConfig_Enter, FreeQgroupConfig_Done);
  }
}
