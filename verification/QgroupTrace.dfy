/** Replaying a trace against the life cycle. Each step either matches the next
    event or is an internal step of the next event's task, of the worker, or one
    that queues the worker. */
module QgroupTrace {
  import opened Options
  import opened QgroupLifecycle

  datatype Replay = Replay(s: State, idx: nat)

  predicate IsWorkerAction(a: Action) { a == RescanWorker_Enter || a == RescanWorker_Done }

  /** The converter attributes the worker's events, and no others, to the worker. */
  ghost predicate WellAttributed(trace: seq<Event>) {
    forall i :: 0 <= i < |trace| ==> (trace[i].task == Worker <==> IsWorkerAction(trace[i].action))
  }

  /** Step a emits this event; the worker's steps ignore the task named by the event. */
  predicate Matches(e: Event, a: Step) {
    Label(a) == Some(e.action) && (a.Work? || a.t == e.task)
  }

  predicate Enqueues(a: Step) {
    (a.Enable? && a.enable == E_Queue) || (a.Rescan? && a.rescan == R_Queue)
  }

  /** The internal steps replay tries while e is the next event. */
  predicate MayRunSilently(e: Event, a: Step) {
    !Observable(a) && (Owner(a) == e.task || Enqueues(a) || a.Work?)
  }

  function ReplayStep(c: Config, trace: seq<Event>, r: Replay, a: Step): Option<Replay> {
    if r.idx >= |trace| then None
    else match Fire(c, r.s, a)
      case None => None
      case Some(s') =>
        if Matches(trace[r.idx], a) then Some(Replay(s', r.idx + 1))
        else if MayRunSilently(trace[r.idx], a) then Some(Replay(s', r.idx))
        else None
  }

  function ReplayAfter(c: Config, trace: seq<Event>, steps: seq<Step>): Option<Replay>
    decreases |steps|
  {
    if steps == [] then Some(Replay(Init(c), 0))
    else match ReplayAfter(c, trace, steps[..|steps| - 1])
      case None => None
      case Some(r) => ReplayStep(c, trace, r, steps[|steps| - 1])
  }

  /** Replay gets through the whole trace. */
  ghost predicate Consumed(c: Config, trace: seq<Event>) {
    exists steps :: ReplayAfter(c, trace, steps).Some? && ReplayAfter(c, trace, steps).value.idx == |trace|
  }

  /** A step of the replay is a step of the life cycle; if it emits anything, it is the
      next event of the trace. */
  lemma ReplayStepIsStep(c: Config, trace: seq<Event>, r: Replay, a: Step)
    requires WellAttributed(trace) && ReplayStep(c, trace, r, a).Some?
    ensures var r' := ReplayStep(c, trace, r, a).value;
            && r.idx < |trace| && Fire(c, r.s, a) == Some(r'.s) && r'.idx == r.idx + |Events(a)|
            && (Events(a) == [] || Events(a) == [trace[r.idx]])
  {
    hide Fire;
  }

  /** A replay is a run of the life cycle that shows exactly the events consumed so far. */
  lemma {:induction false} ReplayIsRun(c: Config, trace: seq<Event>, steps: seq<Step>)
    requires WellAttributed(trace) && ReplayAfter(c, trace, steps).Some?
    ensures var r := ReplayAfter(c, trace, steps).value;
            r.idx <= |trace| && After(c, Init(c), steps) == Some(r.s) && Projection(steps) == trace[..r.idx]
    decreases |steps|
  {
    if steps != [] {
      var shorter, a := steps[..|steps| - 1], steps[|steps| - 1];
      ReplayIsRun(c, trace, shorter);
      hide WellAttributed, ReplayStep, Fire, Label;
      var r := ReplayAfter(c, trace, shorter).value;
      ReplayStepIsStep(c, trace, r, a);
      ShownSoFar(trace, r.idx, Events(a));
    }
  }

  lemma ShownSoFar<T>(trace: seq<T>, n: nat, shown: seq<T>)
    requires n < |trace| && (shown == [] || shown == [trace[n]])
    ensures trace[..n] + shown == trace[..n + |shown|]
  {
  }

  /** Soundness: a consumed trace is what the probes see of some run. */
  lemma ConsumedIsAccepted(c: Config, trace: seq<Event>)
    requires WellAttributed(trace) && Consumed(c, trace)
    ensures Accepted(c, trace)
  {
    var steps :| ReplayAfter(c, trace, steps).Some? && ReplayAfter(c, trace, steps).value.idx == |trace|;
    ReplayIsRun(c, trace, steps);
    assert trace[..|trace|] == trace;
    assert RunProjectsTo(c, steps, trace);
  }

  // ----- What the restriction on internal steps loses -----

  /** t's enable has begun; u's rescan then finds accounting already on. */
  function EarlyAccounting(t: Task, u: Task): seq<Event> {
    [Event(t, QuotaEnable_Enter), Event(u, QgroupRescan_Enter), Event(u, RescanZeroTracking_Enter)]
  }

  /** A run shows this trace: E_Create sets FLAG_ON before any further event of t. */
  lemma EarlyAccountingAccepted(c: Config, t: Task, u: Task)
    requires IsUser(c, t) && IsUser(c, u) && t != u
    ensures Accepted(c, EarlyAccounting(t, u))
  {
    ReachesInit(c);
    hide Reaches;
    var trace, s := Visibly(c, [], Init(c), Enable(t, QuotaEnableEnter));
    trace, s := Silently(c, trace, s, Enable(t, E_Check));
    trace, s := Silently(c, trace, s, Enable(t, E_Create));
    trace, s := Visibly(c, trace, s, Rescan(u, QgroupRescanEnter));
    trace, s := Silently(c, trace, s, Rescan(u, R_Init));
    trace, s := Silently(c, trace, s, Rescan(u, R_Commit));
    trace, s := Visibly(c, trace, s, Rescan(u, R_ZTEnter));
    assert trace == EarlyAccounting(t, u);
    ReachedIsAccepted(c, trace, s);
  }

  /** All the replay can make of it: t stays before its quota-root check, so accounting
      stays off and u's rescan turns back. */
  ghost predicate Stuck(c: Config, r: Replay, t: Task, u: Task) {
    && r.idx <= 2 && !r.s.flagOn && !r.s.workerQueued && At(r.s, Worker, Wk(WkIdle))
    && (t in r.s.pc && r.s.pc[t] == if r.idx == 0 then Idle else En(EnCheck))
    && (u in r.s.pc && (r.s.pc[u] == Idle || (r.idx == 2 && (r.s.pc[u] == Res(ResInit) || r.s.pc[u] == Res(ResDone)))))
    && (forall x :: x in r.s.pc && x != Worker && x != t && x != u ==> r.s.pc[x] == Idle)
  }

  predicate Replayable(c: Config, r: Replay, t: Task, u: Task, a: Step) {
    ReplayStep(c, EarlyAccounting(t, u), r, a).Some?
  }

  lemma StuckEnable(c: Config, r: Replay, t: Task, u: Task, x: Task, a: EnableAction)
    requires t.User? && u.User? && t != u && Stuck(c, r, t, u) && Replayable(c, r, t, u, Enable(x, a))
    ensures a == QuotaEnableEnter && x == t && r.idx == 0
  {
  }

  lemma StuckDisable(c: Config, r: Replay, t: Task, u: Task, x: Task, a: DisableAction)
    requires t.User? && u.User? && t != u && Stuck(c, r, t, u)
    ensures !Replayable(c, r, t, u, Disable(x, a))
  {
  }

  lemma StuckRescan(c: Config, r: Replay, t: Task, u: Task, x: Task, a: RescanAction)
    requires t.User? && u.User? && t != u && Stuck(c, r, t, u) && Replayable(c, r, t, u, Rescan(x, a))
    ensures x == u && ((a == QgroupRescanEnter && r.idx == 1) || (a == R_Init && r.idx == 2))
  {
  }

  lemma StuckWait(c: Config, r: Replay, t: Task, u: Task, x: Task, a: WaitAction)
    requires t.User? && u.User? && t != u && Stuck(c, r, t, u)
    ensures !Replayable(c, r, t, u, Wait(x, a))
  {
  }

  lemma StuckUnmount(c: Config, r: Replay, t: Task, u: Task, x: Task, a: UnmountAction)
    requires t.User? && u.User? && t != u && Stuck(c, r, t, u)
    ensures !Replayable(c, r, t, u, Unmount(x, a))
  {
  }

  lemma StuckWorker(c: Config, r: Replay, t: Task, u: Task, a: WorkerAction)
    requires t.User? && u.User? && t != u && Stuck(c, r, t, u)
    ensures !Replayable(c, r, t, u, Work(a))
  {
  }

  lemma StuckStays(c: Config, r: Replay, t: Task, u: Task, a: Step)
    requires t.User? && u.User? && t != u && Stuck(c, r, t, u) && Replayable(c, r, t, u, a)
    ensures Stuck(c, ReplayStep(c, EarlyAccounting(t, u), r, a).value, t, u)
  {
    match a
    case Enable(x, e) => StuckEnable(c, r, t, u, x, e);
    case Disable(x, d) => StuckDisable(c, r, t, u, x, d);
    case Rescan(x, e) => StuckRescan(c, r, t, u, x, e);
    case Wait(x, w) => StuckWait(c, r, t, u, x, w);
    case Unmount(x, m) => StuckUnmount(c, r, t, u, x, m);
    case Work(w) => StuckWorker(c, r, t, u, w);
  }

  lemma {:induction false} ReplayStaysStuck(c: Config, t: Task, u: Task, steps: seq<Step>)
    requires IsUser(c, t) && IsUser(c, u) && t != u
    requires ReplayAfter(c, EarlyAccounting(t, u), steps).Some?
    ensures Stuck(c, ReplayAfter(c, EarlyAccounting(t, u), steps).value, t, u)
    decreases |steps|
  {
    if steps != [] {
      var shorter := steps[..|steps| - 1];
      ReplayStaysStuck(c, t, u, shorter);
      StuckStays(c, ReplayAfter(c, EarlyAccounting(t, u), shorter).value, t, u, steps[|steps| - 1]);
    }
  }

  /** Replay is not complete: with two user tasks it rejects a trace that a run shows. */
  lemma ReplayIncomplete(c: Config, t: Task, u: Task)
    requires IsUser(c, t) && IsUser(c, u) && t != u
    ensures WellAttributed(EarlyAccounting(t, u)) && Accepted(c, EarlyAccounting(t, u))
    ensures !Consumed(c, EarlyAccounting(t, u))
  {
    EarlyAccountingAccepted(c, t, u);
    forall steps | ReplayAfter(c, EarlyAccounting(t, u), steps).Some?
      ensures ReplayAfter(c, EarlyAccounting(t, u), steps).value.idx != |EarlyAccounting(t, u)|
    {
      ReplayStaysStuck(c, t, u, steps);
    }
  }
}
