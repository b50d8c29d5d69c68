/** swap_same_task: two consecutive events of one task change places. */
module SwapMutants {
  import opened Options
  import opened Sorting
  import opened QgroupLifecycle
  import opened MutantLaws
  import opened TraceEvents
  import opened UnmountMutants

  function SwapMutant(events: seq<RawEvent>, i: int, j: int): Mutant
    requires 0 <= i < j < |events|
  {
    Mutant(Swapped(events, i, j), i)
  }

  /** The pairs of consecutive events of one task, in trace order. */
  ghost predicate AreTaskPairs(events: seq<RawEvent>, pairs: seq<(int, int)>) {
    && (forall k :: 0 <= k < |pairs| ==> NextOfTask(events, pairs[k].0, pairs[k].1))
    && (forall i, j :: NextOfTask(events, i, j) ==> (i, j) in pairs)
    && (forall k, l :: 0 <= k < l < |pairs| ==> pairs[k].0 < pairs[l].0)
  }

  /** The positions of each task's events, grouped in a dictionary. */
  ghost predicate Grouped(events: seq<RawEvent>, n: nat, byTask: map<Task, seq<int>>)
    requires n <= |events|
  {
    && (forall i :: 0 <= i < n ==> TaskOf(events[i]) in byTask && i in byTask[TaskOf(events[i])])
    && (forall t :: t in byTask ==> GroupOk(events, n, t, byTask[t]))
  }

  ghost predicate GroupOk(events: seq<RawEvent>, n: nat, t: Task, idxs: seq<int>)
    requires n <= |events|
  {
    && (forall k :: 0 <= k < |idxs| ==> 0 <= idxs[k] < n && TaskOf(events[idxs[k]]) == t)
    && (forall k, l :: 0 <= k < l < |idxs| ==> idxs[k] < idxs[l])
  }

  /** Entry n appended to the list of key t, which is created if need be. */
  function Appended<K>(m: map<K, seq<int>>, t: K, n: int): map<K, seq<int>> {
    m[t := (if t in m then m[t] else []) + [n]]
  }

  lemma AppendedHas<K>(m: map<K, seq<int>>, t: K, n: int, u: K, i: int)
    requires (u == t && i == n) || (u in m && i in m[u])
    ensures u in Appended(m, t, n) && i in Appended(m, t, n)[u]
  {
    if u == t && i == n {
      assert Appended(m, t, n)[t][if t in m then |m[t]| else 0] == n;
    } else {
      var k :| 0 <= k < |m[u]| && m[u][k] == i;
      assert Appended(m, t, n)[u][k] == i;
    }
  }

  method GroupByTask(events: seq<RawEvent>) returns (byTask: map<Task, seq<int>>)
    ensures Grouped(events, |events|, byTask)
  {
    byTask := map[];
    for i := 0 to |events|
      invariant Grouped(events, i, byTask)
    {
      GroupStep(events, i, byTask);
      byTask := Appended(byTask, TaskOf(events[i]), i);
    }
  }

  lemma GroupGrows(events: seq<RawEvent>, n: nat, t: Task, idxs: seq<int>)
    requires n < |events| && GroupOk(events, n, t, idxs)
    ensures GroupOk(events, n + 1, t, idxs)
    ensures TaskOf(events[n]) == t ==> GroupOk(events, n + 1, t, idxs + [n])
  {
  }

  lemma GroupStep(events: seq<RawEvent>, n: nat, byTask: map<Task, seq<int>>)
    requires n < |events| && Grouped(events, n, byTask)
    ensures Grouped(events, n + 1, Appended(byTask, TaskOf(events[n]), n))
  {
    var t := TaskOf(events[n]);
    var after := Appended(byTask, t, n);
    hide TaskOf;
    forall u | u in after
      ensures GroupOk(events, n + 1, u, after[u])
    {
      GroupGrows(events, n, u, if u in byTask then byTask[u] else []);
    }
    hide GroupOk, Appended;
    forall i | 0 <= i < n + 1
      ensures TaskOf(events[i]) in after && i in after[TaskOf(events[i])]
    {
      AppendedHas(byTask, t, n, TaskOf(events[i]), i);
    }
  }

  /** Consecutive entries of a task's list are consecutive events of the task. */
  lemma GroupPairs(events: seq<RawEvent>, byTask: map<Task, seq<int>>, t: Task, k: int)
    requires Grouped(events, |events|, byTask) && t in byTask && 0 <= k < |byTask[t]| - 1
    ensures NextOfTask(events, byTask[t][k], byTask[t][k + 1])
  {
    var idxs, trace := byTask[t], AsTrace(events);
    forall m | idxs[k] < m < idxs[k + 1]
      ensures trace[m].task != trace[idxs[k]].task
    {
      if TaskOf(events[m]) == t {
        var l :| 0 <= l < |idxs| && idxs[l] == m;
      }
    }
  }

  lemma PairsInGroup(events: seq<RawEvent>, byTask: map<Task, seq<int>>, i: int, j: int) returns (k: int)
    requires Grouped(events, |events|, byTask) && NextOfTask(events, i, j)
    ensures TaskOf(events[i]) in byTask
    ensures var idxs := byTask[TaskOf(events[i])];
            0 <= k < |idxs| - 1 && idxs[k] == i && idxs[k + 1] == j
  {
    var idxs := byTask[TaskOf(events[i])];
    k :| 0 <= k < |idxs| && idxs[k] == i;
    var l :| 0 <= l < |idxs| && idxs[l] == j;
    assert AsTrace(events)[idxs[k + 1]].task == AsTrace(events)[i].task;
  }

  function Adjacent(idxs: seq<int>): seq<(int, int)> {
    seq(if idxs == [] then 0 else |idxs| - 1, k requires 0 <= k < |idxs| - 1 => (idxs[k], idxs[k + 1]))
  }

  /** Every entry of the list pairs consecutive events of the task t. */
  ghost predicate PairsOf(events: seq<RawEvent>, t: Task, pairs: seq<(int, int)>) {
    && (forall p :: p in pairs ==> NextOfTask(events, p.0, p.1) && TaskOf(events[p.0]) == t)
    && (forall i, j :: NextOfTask(events, i, j) && TaskOf(events[i]) == t ==> (i, j) in pairs)
  }

  lemma AdjacentAt(events: seq<RawEvent>, byTask: map<Task, seq<int>>, t: Task, p: (int, int))
    requires Grouped(events, |events|, byTask) && t in byTask && p in Adjacent(byTask[t])
    ensures NextOfTask(events, p.0, p.1) && TaskOf(events[p.0]) == t
  {
    var k :| 0 <= k < |Adjacent(byTask[t])| && Adjacent(byTask[t])[k] == p;
    assert GroupOk(events, |events|, t, byTask[t]);
    GroupPairs(events, byTask, t, k);
  }

  lemma AdjacentDistinct(events: seq<RawEvent>, t: Task, idxs: seq<int>)
    requires GroupOk(events, |events|, t, idxs)
    ensures DistinctBy(Adjacent(idxs), First)
  {
    hide TaskOf;
  }

  /** The adjacent entries of one task's list: its consecutive events, each once. */
  lemma AdjacentOfTask(events: seq<RawEvent>, byTask: map<Task, seq<int>>, t: Task)
    requires Grouped(events, |events|, byTask) && t in byTask
    ensures PairsOf(events, t, Adjacent(byTask[t])) && DistinctBy(Adjacent(byTask[t]), First)
  {
    assert GroupOk(events, |events|, t, byTask[t]);
    hide Grouped, NextOfTask, GroupOk, Adjacent, DistinctBy, TaskOf;
    AdjacentDistinct(events, t, byTask[t]);
    forall p | p in Adjacent(byTask[t])
      ensures NextOfTask(events, p.0, p.1) && TaskOf(events[p.0]) == t
    {
      AdjacentAt(events, byTask, t, p);
    }
    forall i, j | NextOfTask(events, i, j) && TaskOf(events[i]) == t
      ensures (i, j) in Adjacent(byTask[t])
    {
      PairInAdjacent(events, byTask, i, j);
    }
  }

  lemma PairInAdjacent(events: seq<RawEvent>, byTask: map<Task, seq<int>>, i: int, j: int)
    requires Grouped(events, |events|, byTask) && NextOfTask(events, i, j)
    ensures TaskOf(events[i]) in byTask && (i, j) in Adjacent(byTask[TaskOf(events[i])])
  {
    var k := PairsInGroup(events, byTask, i, j);
    assert Adjacent(byTask[TaskOf(events[i])])[k] == (i, j);
  }

  function First(p: (int, int)): int { p.0 }

  /** What the pairs collected so far are: those of the tasks already visited. */
  ghost predicate CollectedPairs(events: seq<RawEvent>, tasks: set<Task>, pairs: seq<(int, int)>) {
    && (forall p :: p in pairs ==> NextOfTask(events, p.0, p.1) && TaskOf(events[p.0]) !in tasks)
    && (forall i, j :: NextOfTask(events, i, j) && TaskOf(events[i]) !in tasks ==> (i, j) in pairs)
    && DistinctBy(pairs, First)
  }

  lemma Collect(events: seq<RawEvent>, tasks: set<Task>, pairs: seq<(int, int)>, t: Task, more: seq<(int, int)>)
    requires CollectedPairs(events, tasks, pairs) && t in tasks
    requires PairsOf(events, t, more) && DistinctBy(more, First)
    ensures CollectedPairs(events, tasks - {t}, pairs + more)
  {
    hide NextOfTask, TaskOf;
    forall k, l | 0 <= k < |pairs| && 0 <= l < |more|
      ensures First(pairs[k]) != First(more[l])
    {
      assert pairs[k] in pairs && more[l] in more;
    }
  }

  method TaskPairs(events: seq<RawEvent>) returns (pairs: seq<(int, int)>)
    ensures AreTaskPairs(events, pairs)
  {
    var byTask := GroupByTask(events);
    pairs := [];
    var tasks := byTask.Keys;
    forall i, j | NextOfTask(events, i, j)
      ensures TaskOf(events[i]) in byTask
    {
      PairInAdjacent(events, byTask, i, j);
    }
    hide Grouped, NextOfTask, TaskOf;
    while tasks != {}
      invariant tasks <= byTask.Keys && CollectedPairs(events, tasks, pairs)
      decreases |tasks|
    {
      var t :| t in tasks;
      AdjacentOfTask(events, byTask, t);
      Collect(events, tasks, pairs, t, Adjacent(byTask[t]));
      pairs := pairs + Adjacent(byTask[t]);
      tasks := tasks - {t};
    }
    SortedPairs(events, pairs);
    pairs := SortBy(pairs, First);
  }

  lemma SortedPairs(events: seq<RawEvent>, pairs: seq<(int, int)>)
    requires CollectedPairs(events, {}, pairs)
    ensures AreTaskPairs(events, SortBy(pairs, First))
  {
    SortDistinct(pairs, First);
    hide NextOfTask, TaskOf, SortBy;
    var sorted := SortBy(pairs, First);
    forall k | 0 <= k < |sorted|
      ensures NextOfTask(events, sorted[k].0, sorted[k].1)
    {
      assert sorted[k] in sorted;
    }
  }

  ghost predicate AllPairs(events: seq<RawEvent>, picked: seq<(int, int)>) {
    forall k :: 0 <= k < |picked| ==> NextOfTask(events, picked[k].0, picked[k].1)
  }

  ghost predicate AreSwapMutants(events: seq<RawEvent>, picked: seq<(int, int)>, out: seq<Mutant>) {
    && AllPairs(events, picked) && |out| == |picked|
    && forall k :: 0 <= k < |picked| ==> out[k] == SwapMutant(events, picked[k].0, picked[k].1)
  }

  method SwapEach(events: seq<RawEvent>, picked: seq<(int, int)>) returns (out: seq<Mutant>)
    requires AllPairs(events, picked)
    ensures AreSwapMutants(events, picked, out)
  {
    out := [];
    for k := 0 to |picked|
      invariant |out| == k
      invariant forall l :: 0 <= l < k ==> out[l] == SwapMutant(events, picked[l].0, picked[l].1)
    {
      var (i, j) := picked[k];
      var mutated := events;
      mutated := mutated[i := events[j]][j := events[i]];
      out := out + [Mutant(mutated, i)];
    }
  }

  /** Every mutant is illegal as it is written, four or more events being kept. */
  ghost predicate PaddedCutsIllegal(mutants: seq<Mutant>) {
    forall m :: m in mutants ==> 0 <= m.divergeBy && PaddedCutIllegal(m)
  }

  ghost predicate PaddedCutIllegal(m: Mutant)
    requires 0 <= m.divergeBy
  {
    forall pad: nat :: pad >= 4 ==> Illegal(Cut(m, pad))
  }

  /** Swaps pairs of consecutive events of one task, n of them spread over the trace. */
  method GenSwapSameTask(events: seq<RawEvent>, n: int)
    returns (mutants: Option<seq<Mutant>>, ghost pairs: seq<(int, int)>)
    ensures AreTaskPairs(events, pairs)
    ensures mutants.None? <==> Spread(pairs, n).None?
    ensures mutants.Some? ==> AreSwapMutants(events, Spread(pairs, n).value, mutants.value)
    ensures mutants.Some? && Legal(events) ==> forall m :: m in mutants.value ==> Illegal(m.events)
    ensures mutants.Some? && Legal(events) ==> PaddedCutsIllegal(mutants.value)
  {
    var ps := TaskPairs(events);
    pairs := ps;
    var sample := Spread(ps, n);
    if sample.None? {
      return None, pairs;
    }
    assert forall k :: 0 <= k < |sample.value| ==> sample.value[k] in ps;
    var out := SwapEach(events, sample.value);
    if Legal(events) {
      SwapsAreIllegal(events, sample.value, out);
    }
    mutants := Some(out);
  }

  lemma SwapsAreIllegal(events: seq<RawEvent>, picked: seq<(int, int)>, out: seq<Mutant>)
    requires Legal(events) && AreSwapMutants(events, picked, out)
    ensures (forall m :: m in out ==> Illegal(m.events)) && PaddedCutsIllegal(out)
  {
    hide Illegal, Legal, NextOfTask, Cut, Swapped;
    forall k | 0 <= k < |out|
      ensures Illegal(out[k].events)
    {
      SwapIsIllegal(events, picked[k].0, picked[k].1);
    }
    forall m | m in out
      ensures 0 <= m.divergeBy && PaddedCutIllegal(m)
    {
      var k :| 0 <= k < |out| && out[k] == m;
      PairInRange(events, picked[k].0, picked[k].1);
      forall pad: nat | pad >= 4
        ensures Illegal(Cut(m, pad))
      {
        PaddedSwapIsIllegal(events, picked[k].0, picked[k].1, pad);
      }
    }
  }

  lemma PairInRange(events: seq<RawEvent>, i: int, j: int)
    requires NextOfTask(events, i, j)
    ensures 0 <= i < j < |events|
  {
  }

  lemma SwapIsIllegal(events: seq<RawEvent>, i: int, j: int)
    requires Legal(events) && NextOfTask(events, i, j)
    ensures Illegal(SwapMutant(events, i, j).events)
  {
    var m := SwapMutant(events, i, j).events;
    CutSwapIsLegalIff(events, i, j, |events|);
    assert m[..|events|] == m;
  }

  lemma SwappedAsTrace(events: seq<RawEvent>, i: int, j: int)
    requires 0 <= i < j < |events|
    ensures AsTrace(Swapped(events, i, j)) == Swapped(AsTrace(events), i, j)
  {
  }

  /** For a legal trace: the mutant cut after its first swapped event stays legal if and
      only if the cut keeps no more than that event of a disable's free, and the disable
      can pass for an unmount up to there. */
  lemma CutSwapIsLegalIff(events: seq<RawEvent>, i: int, j: int, k: int)
    requires Legal(events) && NextOfTask(events, i, j)
    requires SwapMutant(events, i, j).divergeBy < k <= |events|
    ensures Legal(SwapMutant(events, i, j).events[..k]) <==> CutPassesForUnmount(AsTrace(events), i, j, k)
    ensures k > i + 4 ==> Illegal(SwapMutant(events, i, j).events[..k])
  {
    var c :| Accepted(c, AsTrace(events));
    SwappedAsTrace(events, i, j);
    AsTracePrefix(Swapped(events, i, j), k);
    hide CutPassesForUnmount, Accepted;
    CutSwappedIsAcceptedIff(c, AsTrace(events), i, j, k);
  }

  /** With four or more events kept after the promised position, as by default, every
      written mutant of a legal trace is illegal. */
  lemma PaddedSwapIsIllegal(events: seq<RawEvent>, i: int, j: int, pad: nat)
    requires Legal(events) && NextOfTask(events, i, j) && pad >= 4
    ensures Illegal(Cut(SwapMutant(events, i, j), pad))
  {
    var m := SwapMutant(events, i, j);
    if i + 1 + pad < |events| {
      CutSwapIsLegalIff(events, i, j, i + 1 + pad);
    } else {
      assert Cut(m, pad) == m.events;
      SwapIsIllegal(events, i, j);
    }
  }
}
