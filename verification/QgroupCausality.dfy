/** Queue before worker: in every run prefix the worker has started no more often
    than zero tracking has finished. */
module QgroupCausality {
  import opened Options
  import opened Counting
  import opened QgroupLifecycle
  import opened QgroupMoves
  import opened QgroupSafety

  /** How often action a occurs in the trace. */
  function Occurrences(trace: seq<Event>, a: Action): nat {
    if trace == [] then 0 else Occurrences(trace[..|trace| - 1], a) + Bit(trace[|trace| - 1].action == a)
  }

  lemma {:induction false} OccurrencesConcat(x: seq<Event>, y: seq<Event>, a: Action)
    ensures Occurrences(x + y, a) == Occurrences(x, a) + Occurrences(y, a)
    decreases |y|
  {
    if y == [] {
      assert x + y == x;
    } else {
      OccurrencesConcat(x, y[..|y| - 1], a);
      assert (x + y)[..|x + y| - 1] == x + y[..|y| - 1];
    }
  }

  /** Zero tracking is done and the worker not yet queued. */
  predicate Tracked(p: PC) { p == En(EnQueue) || p == Res(ResQueue) }

  /** Zero tracking has begun and the worker is not yet queued. */
  predicate Tracking(p: PC) {
    || p == En(EnZtIter) || p == En(EnZtDone) || p == En(EnQueue)
    || p == Res(ResZtIter) || p == Res(ResZtDone) || p == Res(ResQueue)
  }

  /** Worker starts that past zero trackings still allow. */
  function Credit(s: State, p: PC -> bool): nat { Bit(s.workerQueued) + CountIf(s.pc, p) }

  predicate Balanced(s: State, s': State, t: Task, emitted: Option<Action>) {
    && t in s.pc && t in s'.pc
    && Bit(emitted == Some(RescanWorker_Enter)) + Bit(s'.workerQueued) + Bit(Tracked(s'.pc[t]))
         <= Bit(s.workerQueued) + Bit(Tracked(s.pc[t])) + Bit(emitted == Some(RescanZeroTracking_Done))
    && Bit(emitted == Some(RescanWorker_Enter)) + Bit(s'.workerQueued) + Bit(Tracking(s'.pc[t]))
         <= Bit(s.workerQueued) + Bit(Tracking(s.pc[t])) + Bit(emitted == Some(RescanZeroTracking_Enter))
  }

  lemma EnableQueues(c: Config, s: State, t: Task, a: EnableAction, s': State)
    requires FireEnable(c, s, t, a) == Some(s')
    ensures s'.workerQueued ==> s.workerQueued || a == E_Queue
  {
    match a
    case QuotaEnableEnter =>
    case E_Check =>
    case E_Create =>
    case E_SetRoot =>
    case E_SimpleSkip =>
    case E_RescanInit =>
    case E_ZTEnter =>
    case E_ZTLock =>
    case E_ZTUnlock =>
    case E_ZTDone =>
    case E_Queue =>
    case QuotaEnableDone =>
  }

  lemma EnableBalanced(c: Config, s: State, t: Task, a: EnableAction, s': State)
    requires FireEnable(c, s, t, a) == Some(s')
    ensures Balanced(s, s', t, Label(Enable(t, a)))
  {
    hide FireEnable;
    EnableQueues(c, s, t, a, s');
    EnableMoves(c, s, t, a, s');
  }

  lemma DisableQueuesNothing(c: Config, s: State, t: Task, a: DisableAction, s': State)
    requires FireDisable(c, s, t, a) == Some(s')
    ensures s'.workerQueued == s.workerQueued
  {
    match a
    case QuotaDisableEnter =>
    case D_Check =>
    case D_ClearEnabled =>
    case D_WaitEnter =>
    case D_WaitRead =>
    case D_WaitBlocked =>
    case D_WaitDone =>
    case D_Trans =>
    case D_ClearRoot =>
    case D_FreeEnter =>
    case D_FreeLock =>
    case D_FreeDo =>
    case D_FreeDone =>
    case D_Clean =>
    case QuotaDisableDone =>
  }

  lemma DisableBalanced(c: Config, s: State, t: Task, a: DisableAction, s': State)
    requires FireDisable(c, s, t, a) == Some(s')
    ensures Balanced(s, s', t, Label(Disable(t, a)))
  {
    DisableQueuesNothing(c, s, t, a, s');
    DisableMoves(c, s, t, a, s');
    hide FireDisable;
  }

  lemma RescanQueues(c: Config, s: State, t: Task, a: RescanAction, s': State)
    requires FireRescan(c, s, t, a) == Some(s')
    ensures s'.workerQueued ==> s.workerQueued || a == R_Queue
  {
    match a
    case QgroupRescanEnter =>
    case R_Init =>
    case R_Commit =>
    case R_ZTEnter =>
    case R_ZTLock =>
    case R_ZTUnlock =>
    case R_ZTDone =>
    case R_Queue =>
    case QgroupRescanDone =>
  }

  lemma RescanBalanced(c: Config, s: State, t: Task, a: RescanAction, s': State)
    requires FireRescan(c, s, t, a) == Some(s')
    ensures Balanced(s, s', t, Label(Rescan(t, a)))
  {
    hide FireRescan;
    RescanQueues(c, s, t, a, s');
    RescanMoves(c, s, t, a, s');
  }

  lemma WaitBalanced(c: Config, s: State, t: Task, a: WaitAction, s': State)
    requires FireWait(c, s, t, a) == Some(s')
    ensures Balanced(s, s', t, Label(Wait(t, a)))
  {
  }

  lemma UnmountQueuesNothing(c: Config, s: State, t: Task, a: UnmountAction, s': State)
    requires FireUnmount(c, s, t, a) == Some(s')
    ensures s'.workerQueued ==> s.workerQueued
  {
    match a
    case UmountBegin =>
    case M_WaitRead =>
    case M_WaitBlocked =>
    case M_WaitDone =>
    case M_FreeEnter =>
    case M_FreeLock =>
    case M_FreeDo =>
    case M_FreeDone =>
  }

  lemma UnmountBalanced(c: Config, s: State, t: Task, a: UnmountAction, s': State)
    requires FireUnmount(c, s, t, a) == Some(s')
    ensures Balanced(s, s', t, Label(Unmount(t, a)))
  {
    hide FireUnmount;
    UnmountQueuesNothing(c, s, t, a, s');
    UnmountMoves(c, s, t, a, s');
  }

  lemma WorkerBalanced(s: State, a: WorkerAction, s': State)
    requires FireWorker(s, a) == Some(s')
    ensures Balanced(s, s', Worker, Label(Work(a)))
  {
  }

  lemma StepBalanced(c: Config, s: State, a: Step, s': State)
    requires Fire(c, s, a) == Some(s')
    ensures Balanced(s, s', Owner(a), Label(a))
  {
    match a
    case Enable(t, e) => EnableBalanced(c, s, t, e, s');
    case Disable(t, d) => DisableBalanced(c, s, t, d, s');
    case Rescan(t, r) => RescanBalanced(c, s, t, r, s');
    case Wait(t, w) => WaitBalanced(c, s, t, w, s');
    case Unmount(t, u) => UnmountBalanced(c, s, t, u, s');
    case Work(w) => WorkerBalanced(s, w, s');
  }

  lemma EventsOccurrences(a: Step, x: Action)
    ensures Occurrences(Events(a), x) == Bit(Label(a) == Some(x))
  {
    if Observable(a) {
      var e := Event(Owner(a), Label(a).value);
      assert Events(a) == [e] && [e][..0] == [];
    }
  }

  /** Starts, plus what is queued or about to be, never exceed what zero tracking paid for. */
  lemma {:induction false} RunPaysForWorker(c: Config, steps: seq<Step>)
    requires After(c, Init(c), steps).Some?
    ensures var s, trace := After(c, Init(c), steps).value, Projection(steps);
            && Occurrences(trace, RescanWorker_Enter) + Credit(s, Tracked)
                 <= Occurrences(trace, RescanZeroTracking_Done)
            && Occurrences(trace, RescanWorker_Enter) + Credit(s, Tracking)
                 <= Occurrences(trace, RescanZeroTracking_Enter)
    decreases |steps|
  {
    if steps == [] {
      CountZero(Init(c).pc, Tracked);
      CountZero(Init(c).pc, Tracking);
    } else {
      var shorter, a := steps[..|steps| - 1], steps[|steps| - 1];
      RunPaysForWorker(c, shorter);
      var s := After(c, Init(c), shorter).value;
      var s' := Fire(c, s, a).value;
      RunKeepsInv(c, shorter);
      StepEffect(c, s, a, s');
      StepBalanced(c, s, a, s');
      var t := Owner(a);
      CountUpdate(s.pc, t, s'.pc[t], Tracked);
      CountUpdate(s.pc, t, s'.pc[t], Tracking);
      CountEvents(Projection(shorter), a);
    }
  }

  lemma CountEvents(trace: seq<Event>, a: Step)
    ensures forall x {:trigger Occurrences(trace + Events(a), x)} ::
              Occurrences(trace + Events(a), x) == Occurrences(trace, x) + Bit(Label(a) == Some(x))
  {
    forall x
      ensures Occurrences(trace + Events(a), x) == Occurrences(trace, x) + Bit(Label(a) == Some(x))
    {
      OccurrencesConcat(trace, Events(a), x);
      EventsOccurrences(a, x);
    }
  }

  /** In every prefix of an accepted trace, worker starts are outnumbered by finished
      (hence by begun) zero trackings. */
  lemma WorkerStartsArePaidFor(c: Config, trace: seq<Event>, k: nat)
    requires Accepted(c, trace) && k <= |trace|
    ensures Occurrences(trace[..k], RescanWorker_Enter) <= Occurrences(trace[..k], RescanZeroTracking_Done)
    ensures Occurrences(trace[..k], RescanWorker_Enter) <= Occurrences(trace[..k], RescanZeroTracking_Enter)
  {
    var steps :| RunProjectsTo(c, steps, trace);
    AcceptedPrefix(c, steps, trace, k);
    var fewer :| RunProjectsTo(c, fewer, trace[..k]);
    RunPaysForWorker(c, fewer);
  }
}
