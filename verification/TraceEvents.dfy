/** Recorded events, the mutants derived from them, and what it means for a recorded
    trace to be legal. */
module TraceEvents {
  import opened Options
  import opened QgroupLifecycle
  import opened QgroupLanguage
  import opened MutantLaws
  import opened QgroupTrace

  /** An event as recorded: the thread that ran the probe, and the action. */
  datatype RawEvent = RawEvent(tid: int, action: Action)

  /** The worker's events belong to the worker whichever thread executed it. */
  function TaskOf(e: RawEvent): Task { if IsWorkerAction(e.action) then Worker else User(e.tid) }

  function AsTrace(events: seq<RawEvent>): (trace: seq<Event>)
    ensures |trace| == |events|
    ensures forall i :: 0 <= i < |events| ==> trace[i] == Event(TaskOf(events[i]), events[i].action)
  {
    seq(|events|, i requires 0 <= i < |events| => Event(TaskOf(events[i]), events[i].action))
  }

  lemma AsTracePrefix(events: seq<RawEvent>, k: nat)
    requires k <= |events|
    ensures AsTrace(events[..k]) == AsTrace(events)[..k]
  {
  }

  lemma AsTraceWellAttributed(events: seq<RawEvent>)
    ensures WellAttributed(AsTrace(events))
  {
    var trace := AsTrace(events);
    forall i | 0 <= i < |trace|
      ensures trace[i].task == Worker <==> IsWorkerAction(trace[i].action)
    {
      assert trace[i] == Event(TaskOf(events[i]), events[i].action);
    }
  }

  /** Replaying a converted trace to its end shows that it is legal. */
  lemma ConvertedReplayIsSound(c: Config, events: seq<RawEvent>)
    requires Consumed(c, AsTrace(events))
    ensures Legal(events)
  {
    AsTraceWellAttributed(events);
    ConsumedIsAccepted(c, AsTrace(events));
  }

  /** A mutant and the position by which its rejection is promised. */
  datatype Mutant = Mutant(events: seq<RawEvent>, divergeBy: int)

  /** The trace is what the probes see of some run. */
  ghost predicate Legal(events: seq<RawEvent>) { exists c :: Accepted(c, AsTrace(events)) }

  /** It is so of a run that ends with every task idle. */
  ghost predicate Finished(events: seq<RawEvent>) {
    exists c, steps :: RunProjectsTo(c, steps, AsTrace(events)) && AllIdle(After(c, Init(c), steps).value)
  }

  ghost predicate AllIdle(s: State) {
    forall u :: u in s.pc ==> s.pc[u] == if u == Worker then Wk(WkIdle) else Idle
  }

  ghost predicate Illegal(events: seq<RawEvent>) { Rejected(AsTrace(events)) }

  lemma LegalIsAlive(events: seq<RawEvent>, t: Task)
    requires Legal(events)
    ensures PhaseOf(AsTrace(events), t) != Dead
  {
    var c :| Accepted(c, AsTrace(events));
    AcceptedIsAlive(c, AsTrace(events), t);
  }

  /** The same for recorded events. */
  ghost predicate NextOfTask(events: seq<RawEvent>, i: int, j: int) { NextSame(AsTrace(events), i, j) }

  /** What is written of a mutant: some more events after the promised position. */
  function Cut(m: Mutant, pad: nat): seq<RawEvent>
    requires 0 <= m.divergeBy
  {
    m.events[..if m.divergeBy + 1 + pad < |m.events| then m.divergeBy + 1 + pad else |m.events|]
  }

  // ----- Sampling -----

  /** n samples spread evenly over the candidates; None is a division by zero. */
  function Spread<T>(candidates: seq<T>, n: int): (r: Option<seq<T>>)
    ensures r.None? <==> n == 0 && candidates != []
    ensures r.Some? ==> forall x :: x in r.value ==> x in candidates
    ensures |candidates| <= n ==> r == Some(candidates)
    ensures 0 < n < |candidates| ==> |r.value| == n && r.value[0] == candidates[0]
  {
    if |candidates| <= n then Some(candidates)
    else if n == 0 then None
    else if n < 0 then Some([])
    else
      SampleInRange(|candidates|, n);
      Some(seq(n, i requires 0 <= i < n => candidates[Sample(|candidates|, n, i)]))
  }

  function Sample(len: nat, n: nat, i: nat): int
    requires 0 < n
  {
    (i as real * (len as real / n as real)).Floor
  }

  /** The samples are positions of the list, and no position is taken twice. */
  lemma SampleInRange(len: nat, n: nat)
    requires 0 < n < len
    ensures forall i :: 0 <= i < n ==> 0 <= Sample(len, n, i) < len
    ensures forall i :: 0 <= i < n - 1 ==> Sample(len, n, i) < Sample(len, n, i + 1)
    ensures Sample(len, n, 0) == 0
  {
    var step := len as real / n as real;
    StepOverOne(len, n);
    forall i | 0 <= i < n
      ensures 0 <= Sample(len, n, i) < len
    {
      Below(i as real, n as real, step, len as real);
    }
    forall i | 0 <= i < n - 1
      ensures Sample(len, n, i) < Sample(len, n, i + 1)
    {
      assert (i + 1) as real * step == i as real * step + step;
    }
  }

  lemma StepOverOne(len: nat, n: nat)
    requires 0 < n < len
    ensures len as real / n as real >= 1.0
    ensures n as real * (len as real / n as real) == len as real
  {
  }

  lemma Below(i: real, n: real, step: real, len: real)
    requires 0.0 <= i < n && step >= 1.0 && n * step == len
    ensures 0.0 <= i * step < len
  {
    assert (n - i) * step > 0.0;
  }
}
