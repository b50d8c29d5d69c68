/** The qgroup enable / disable / rescan / wait / unmount life cycle of a btrfs
    filesystem, as a step relation over program counters and three locks.
    Every step is one locked region or one event of the kernel code; the set of
    user tasks is any finite set. */
module QgroupLifecycle {
  import opened Options
  import Runs

  /** `NoTask` is the value of a lock nobody holds. */
  datatype Task = NoTask | Worker | User(tid: int)

  /** `fix` says whether the free loop holds the qgroup lock. */
  datatype Config = Config(users: set<int>, fix: bool)

  // Places inside btrfs_quota_enable
  datatype EnPC =
    | EnCheck | EnCreate | EnSetRoot | EnRescanInit
    | EnZtEnter | EnZtIter | EnZtDone | EnQueue | EnDone

  // Places inside btrfs_quota_disable
  datatype DisPC =
    | DisCheck | DisClearEnabled | DisWaitEnter | DisWaitRead | DisWaitBlock | DisWaitDone
    | DisTrans | DisClearRoot | DisFreeEnter | DisFreeLock | DisFreeDo | DisFreeDone
    | DisClean | DisDone

  // Places inside btrfs_qgroup_rescan
  datatype ResPC = ResInit | ResCommit | ResZtEnter | ResZtIter | ResZtDone | ResQueue | ResDone

  // Places inside a standalone btrfs_qgroup_wait_for_completion
  datatype WaitPC = WaitRead | WaitBlock | WaitDone

  // Places inside close_ctree
  datatype UmPC =
    | UmWaitRead | UmWaitBlock | UmWaitDone
    | UmFreeEnter | UmFreeLock | UmFreeDo | UmFreeDone

  // Places inside btrfs_qgroup_rescan_worker
  datatype WkPC = WkIdle | WkRun | WkScan | WkFinish | WkExit

  datatype PC = Idle | En(en: EnPC) | Dis(dis: DisPC) | Res(res: ResPC) | Wt(wt: WaitPC) | Um(um: UmPC) | Wk(wk: WkPC)

  datatype State = State(
    quotaRoot: bool, quotaEnabled: bool, flagOn: bool, flagRescan: bool,
    rescanRunning: bool, completionDone: bool, workerQueued: bool, workerStopped: bool,
    qgroupLock: Task, rescanLock: Task, subvolSem: Task,
    iterating: set<Task>, uafOccurred: bool,
    pc: map<Task, PC>)

  predicate IsUser(c: Config, t: Task) { t.User? && t.tid in c.users }

  function Tasks(c: Config): set<Task> { {Worker} + set i | i in c.users :: User(i) }

  predicate At(s: State, t: Task, p: PC) { t in s.pc && s.pc[t] == p }

  predicate Closing(s: State) { exists t :: t in s.pc && s.pc[t].Um? }

  function Init(c: Config): State {
    State(false, false, false, false, false, false, false, false,
          NoTask, NoTask, NoTask, {}, false,
          map t | t in Tasks(c) :: if t == Worker then Wk(WkIdle) else Idle)
  }

  // ----- Steps -----

  datatype EnableAction =
    | QuotaEnableEnter | E_Check | E_Create | E_SetRoot | E_SimpleSkip | E_RescanInit
    | E_ZTEnter | E_ZTLock | E_ZTUnlock | E_ZTDone | E_Queue | QuotaEnableDone

  datatype DisableAction =
    | QuotaDisableEnter | D_Check | D_ClearEnabled | D_WaitEnter | D_WaitRead | D_WaitBlocked
    | D_WaitDone | D_Trans | D_ClearRoot | D_FreeEnter | D_FreeLock | D_FreeDo | D_FreeDone
    | D_Clean | QuotaDisableDone

  datatype RescanAction =
    | QgroupRescanEnter | R_Init | R_Commit | R_ZTEnter | R_ZTLock | R_ZTUnlock | R_ZTDone
    | R_Queue | QgroupRescanDone

  datatype WaitAction = UserWaitEnter | U_WaitRead | U_WaitBlocked | UserWaitDone

  datatype UnmountAction =
    | UmountBegin | M_WaitRead | M_WaitBlocked | M_WaitDone
    | M_FreeEnter | M_FreeLock | M_FreeDo | M_FreeDone

  datatype WorkerAction =
    | WorkerStart | W_ScanLock | W_ScanUnlock | W_ExitLoop | W_Finish | WorkerDone

  datatype Step =
    | Enable(t: Task, enable: EnableAction)
    | Disable(t: Task, disable: DisableAction)
    | Rescan(t: Task, rescan: RescanAction)
    | Wait(t: Task, wait: WaitAction)
    | Unmount(t: Task, unmount: UnmountAction)
    | Work(work: WorkerAction)

  function Owner(a: Step): Task { if a.Work? then Worker else a.t }

  function When(guard: bool, s': State): Option<State> { if guard then Some(s') else None }

  /** Task t moves from one program counter to another and changes nothing else. */
  function Move(s: State, t: Task, from: PC, to: PC): Option<State> {
    When(At(s, t, from), s.(pc := s.pc[t := to]))
  }

  /** spin_lock(qgroup_lock), and from here on t holds pointers into the qgroup tree. */
  function LockAndIterate(s: State, t: Task, from: PC, to: PC): Option<State> {
    When(At(s, t, from) && s.qgroupLock == NoTask && t !in s.iterating,
         s.(qgroupLock := t, iterating := s.iterating + {t}, pc := s.pc[t := to]))
  }

  function UnlockAfterIterating(s: State, t: Task, from: PC, to: PC): Option<State> {
    When(At(s, t, from) && s.qgroupLock == t && t in s.iterating,
         s.(qgroupLock := NoTask, iterating := s.iterating - {t}, pc := s.pc[t := to]))
  }

  function FireEnable(c: Config, s: State, t: Task, a: EnableAction): Option<State> {
    match a
    case QuotaEnableEnter =>
      When(IsUser(c, t) && At(s, t, Idle) && s.subvolSem == NoTask && !Closing(s),
           s.(subvolSem := t, pc := s.pc[t := En(EnCheck)]))
    case E_Check => Move(s, t, En(EnCheck), if s.quotaRoot then En(EnDone) else En(EnCreate))
    case E_Create =>
      When(At(s, t, En(EnCreate)), s.(flagOn := true, flagRescan := false, pc := s.pc[t := En(EnSetRoot)]))
    case E_SetRoot =>
      When(At(s, t, En(EnSetRoot)) && s.qgroupLock == NoTask,
           s.(quotaRoot := true, quotaEnabled := true, pc := s.pc[t := En(EnRescanInit)]))
    case E_SimpleSkip => Move(s, t, En(EnRescanInit), En(EnDone))
    case E_RescanInit =>
      When(At(s, t, En(EnRescanInit)) && s.rescanLock == NoTask,
           if s.flagRescan then s.(pc := s.pc[t := En(EnDone)])
           else s.(flagRescan := true, completionDone := false, pc := s.pc[t := En(EnZtEnter)]))
    case E_ZTEnter => Move(s, t, En(EnZtEnter), En(EnZtIter))
    case E_ZTLock => LockAndIterate(s, t, En(EnZtIter), En(EnZtIter))
    case E_ZTUnlock => UnlockAfterIterating(s, t, En(EnZtIter), En(EnZtDone))
    case E_ZTDone => Move(s, t, En(EnZtDone), En(EnQueue))
    case E_Queue =>
      When(At(s, t, En(EnQueue)), s.(rescanRunning := true, workerQueued := true, pc := s.pc[t := En(EnDone)]))
    case QuotaEnableDone =>
      When(At(s, t, En(EnDone)) && s.subvolSem == t, s.(subvolSem := NoTask, pc := s.pc[t := Idle]))
  }

  function FireDisable(c: Config, s: State, t: Task, a: DisableAction): Option<State> {
    match a
    case QuotaDisableEnter =>
      When(IsUser(c, t) && At(s, t, Idle) && s.subvolSem == NoTask && !Closing(s),
           s.(subvolSem := t, pc := s.pc[t := Dis(DisCheck)]))
    case D_Check => Move(s, t, Dis(DisCheck), if s.quotaRoot then Dis(DisClearEnabled) else Dis(DisDone))
    case D_ClearEnabled =>
      When(At(s, t, Dis(DisClearEnabled)), s.(quotaEnabled := false, pc := s.pc[t := Dis(DisWaitEnter)]))
    case D_WaitEnter => Move(s, t, Dis(DisWaitEnter), Dis(DisWaitRead))
    case D_WaitRead =>
      When(At(s, t, Dis(DisWaitRead)) && s.rescanLock == NoTask,
           s.(pc := s.pc[t := if s.rescanRunning then Dis(DisWaitBlock) else Dis(DisWaitDone)]))
    case D_WaitBlocked =>
      When(At(s, t, Dis(DisWaitBlock)) && s.completionDone, s.(pc := s.pc[t := Dis(DisWaitDone)]))
    case D_WaitDone => Move(s, t, Dis(DisWaitDone), Dis(DisTrans))
    case D_Trans => Move(s, t, Dis(DisTrans), Dis(DisClearRoot))
    case D_ClearRoot =>
      When(At(s, t, Dis(DisClearRoot)) && s.qgroupLock == NoTask,
           s.(quotaRoot := false, flagOn := false, pc := s.pc[t := Dis(DisFreeEnter)]))
    case D_FreeEnter => Move(s, t, Dis(DisFreeEnter), if c.fix then Dis(DisFreeLock) else Dis(DisFreeDo))
    case D_FreeLock =>
      When(At(s, t, Dis(DisFreeLock)) && s.qgroupLock == NoTask,
           s.(qgroupLock := t, pc := s.pc[t := Dis(DisFreeDo)]))
    case D_FreeDo =>
      When(At(s, t, Dis(DisFreeDo)) && (c.fix ==> s.qgroupLock == t), Freed(c, s, t, Dis(DisFreeDone)))
    case D_FreeDone => Move(s, t, Dis(DisFreeDone), Dis(DisClean))
    case D_Clean => Move(s, t, Dis(DisClean), Dis(DisDone))
    case QuotaDisableDone =>
      When(At(s, t, Dis(DisDone)) && s.subvolSem == t, s.(subvolSem := NoTask, pc := s.pc[t := Idle]))
  }

  /** The free loop: every qgroup record goes, under whoever else still iterates. */
  function Freed(c: Config, s: State, t: Task, to: PC): State {
    s.(uafOccurred := s.uafOccurred || exists t2 :: t2 in s.iterating && t2 != t,
       qgroupLock := if c.fix then NoTask else s.qgroupLock,
       pc := s.pc[t := to])
  }

  function FireRescan(c: Config, s: State, t: Task, a: RescanAction): Option<State> {
    match a
    case QgroupRescanEnter =>
      When(IsUser(c, t) && At(s, t, Idle) && !Closing(s), s.(pc := s.pc[t := Res(ResInit)]))
    case R_Init =>
      When(At(s, t, Res(ResInit)) && s.rescanLock == NoTask,
           if s.flagRescan || !s.flagOn then s.(pc := s.pc[t := Res(ResDone)])
           else s.(flagRescan := true, completionDone := false, pc := s.pc[t := Res(ResCommit)]))
    case R_Commit => Move(s, t, Res(ResCommit), Res(ResZtEnter))
    case R_ZTEnter => Move(s, t, Res(ResZtEnter), Res(ResZtIter))
    case R_ZTLock => LockAndIterate(s, t, Res(ResZtIter), Res(ResZtIter))
    case R_ZTUnlock => UnlockAfterIterating(s, t, Res(ResZtIter), Res(ResZtDone))
    case R_ZTDone => Move(s, t, Res(ResZtDone), Res(ResQueue))
    case R_Queue =>
      When(At(s, t, Res(ResQueue)) && s.rescanLock == NoTask,
           s.(rescanRunning := s.rescanRunning || s.flagOn,
              workerQueued := s.workerQueued || s.flagOn,
              pc := s.pc[t := Res(ResDone)]))
    case QgroupRescanDone => Move(s, t, Res(ResDone), Idle)
  }

  function FireWait(c: Config, s: State, t: Task, a: WaitAction): Option<State> {
    match a
    case UserWaitEnter =>
      When(IsUser(c, t) && At(s, t, Idle) && !Closing(s), s.(pc := s.pc[t := Wt(WaitRead)]))
    case U_WaitRead =>
      When(At(s, t, Wt(WaitRead)) && s.rescanLock == NoTask,
           s.(pc := s.pc[t := if s.rescanRunning then Wt(WaitBlock) else Wt(WaitDone)]))
    case U_WaitBlocked =>
      When(At(s, t, Wt(WaitBlock)) && s.completionDone, s.(pc := s.pc[t := Wt(WaitDone)]))
    case UserWaitDone => Move(s, t, Wt(WaitDone), Idle)
  }

  function FireUnmount(c: Config, s: State, t: Task, a: UnmountAction): Option<State> {
    match a
    case UmountBegin =>
      When(IsUser(c, t) && At(s, t, Idle) && (forall t2 :: t2 in s.pc && IsUser(c, t2) && t2 != t ==> s.pc[t2] == Idle),
           s.(pc := s.pc[t := Um(UmWaitRead)]))
    case M_WaitRead =>
      When(At(s, t, Um(UmWaitRead)) && s.rescanLock == NoTask,
           s.(pc := s.pc[t := if s.rescanRunning then Um(UmWaitBlock) else Um(UmWaitDone)]))
    case M_WaitBlocked =>
      When(At(s, t, Um(UmWaitBlock)) && s.completionDone, s.(pc := s.pc[t := Um(UmWaitDone)]))
    case M_WaitDone => Move(s, t, Um(UmWaitDone), Um(UmFreeEnter))
    case M_FreeEnter => Move(s, t, Um(UmFreeEnter), if c.fix then Um(UmFreeLock) else Um(UmFreeDo))
    case M_FreeLock =>
      When(At(s, t, Um(UmFreeLock)) && s.qgroupLock == NoTask,
           s.(qgroupLock := t, pc := s.pc[t := Um(UmFreeDo)]))
    case M_FreeDo =>
      When(At(s, t, Um(UmFreeDo)) && (c.fix ==> s.qgroupLock == t), Freed(c, s, t, Um(UmFreeDone)))
    case M_FreeDone =>
      When(At(s, t, Um(UmFreeDone)),
           s.(quotaRoot := false, quotaEnabled := false, flagOn := false, flagRescan := false,
              rescanRunning := false, completionDone := false, workerQueued := false,
              pc := s.pc[t := Idle]))
  }

  function FireWorker(s: State, a: WorkerAction): Option<State> {
    match a
    case WorkerStart =>
      When(At(s, Worker, Wk(WkIdle)) && s.workerQueued,
           s.(workerQueued := false, pc := s.pc[Worker := Wk(WkRun)]))
    case W_ScanLock => LockAndIterate(s, Worker, Wk(WkRun), Wk(WkScan))
    case W_ScanUnlock => UnlockAfterIterating(s, Worker, Wk(WkScan), Wk(WkRun))
    case W_ExitLoop =>
      When(At(s, Worker, Wk(WkRun)),
           s.(workerStopped := !s.quotaEnabled || Closing(s), pc := s.pc[Worker := Wk(WkFinish)]))
    case W_Finish =>
      When(At(s, Worker, Wk(WkFinish)) && s.rescanLock == NoTask,
           s.(flagRescan := s.flagRescan && s.workerStopped, rescanRunning := false,
              completionDone := true, pc := s.pc[Worker := Wk(WkExit)]))
    case WorkerDone => Move(s, Worker, Wk(WkExit), Wk(WkIdle))
  }

  /** The successor of s under step a, or None when a is not enabled. */
  function Fire(c: Config, s: State, a: Step): Option<State> {
    match a
    case Enable(t, e) => FireEnable(c, s, t, e)
    case Disable(t, d) => FireDisable(c, s, t, d)
    case Rescan(t, r) => FireRescan(c, s, t, r)
    case Wait(t, w) => FireWait(c, s, t, w)
    case Unmount(t, u) => FireUnmount(c, s, t, u)
    case Work(w) => FireWorker(s, w)
  }

  // ----- Runs -----

  /** The state after a sequence of steps, or None when some step is not enabled. */
  function After(c: Config, s: State, steps: seq<Step>): Option<State> { Runs.After(Fire, c, s, steps) }

  lemma AfterExtend(c: Config, s: State, steps: seq<Step>, a: Step)
    requires After(c, s, steps).Some?
    ensures After(c, s, steps + [a]) == Fire(c, After(c, s, steps).value, a)
  {
    assert (steps + [a])[..|steps + [a]| - 1] == steps;
  }

  // ----- Events -----

  /** The events the tracing probes emit. */
  datatype Action =
    | QuotaEnable_Enter | QuotaEnable_Done
    | QuotaDisable_Enter | QuotaDisable_Done
    | QgroupRescan_Enter | QgroupRescan_Done
    | RescanZeroTracking_Enter | RescanZeroTracking_Done
    | WaitRescanCompletion_Enter | WaitRescanCompletion_Done
    | FreeQgroupConfig_Enter | FreeQgroupConfig_Done
    | RescanWorker_Enter | RescanWorker_Done

  datatype Event = Event(task: Task, action: Action)

  /** The event a step emits; None for an internal step. */
  function Label(a: Step): Option<Action> {
    match a
    case Enable(_, QuotaEnableEnter) => Some(QuotaEnable_Enter)
    case Enable(_, QuotaEnableDone) => Some(QuotaEnable_Done)
    case Enable(_, E_ZTEnter) => Some(RescanZeroTracking_Enter)
    case Enable(_, E_ZTDone) => Some(RescanZeroTracking_Done)
    case Disable(_, QuotaDisableEnter) => Some(QuotaDisable_Enter)
    case Disable(_, QuotaDisableDone) => Some(QuotaDisable_Done)
    case Disable(_, D_FreeEnter) => Some(FreeQgroupConfig_Enter)
    case Disable(_, D_FreeDone) => Some(FreeQgroupConfig_Done)
    case Rescan(_, QgroupRescanEnter) => Some(QgroupRescan_Enter)
    case Rescan(_, QgroupRescanDone) => Some(QgroupRescan_Done)
    case Rescan(_, R_ZTEnter) => Some(RescanZeroTracking_Enter)
    case Rescan(_, R_ZTDone) => Some(RescanZeroTracking_Done)
    case Wait(_, UserWaitEnter) => Some(WaitRescanCompletion_Enter)
    case Wait(_, UserWaitDone) => Some(WaitRescanCompletion_Done)
    case Unmount(_, UmountBegin) => Some(WaitRescanCompletion_Enter)
    case Unmount(_, M_WaitDone) => Some(WaitRescanCompletion_Done)
    case Unmount(_, M_FreeEnter) => Some(FreeQgroupConfig_Enter)
    case Unmount(_, M_FreeDone) => Some(FreeQgroupConfig_Done)
    case Work(WorkerStart) => Some(RescanWorker_Enter)
    case Work(WorkerDone) => Some(RescanWorker_Done)
    case _ => None
  }

  predicate Observable(a: Step) { Label(a).Some? }

  function Events(a: Step): seq<Event> {
    if Observable(a) then [Event(Owner(a), Label(a).value)] else []
  }

  /** What the probes see of a run. */
  function Projection(steps: seq<Step>): seq<Event> {
    if steps == [] then []
    else Projection(steps[..|steps| - 1]) + Events(steps[|steps| - 1])
  }

  lemma ProjectionExtend(steps: seq<Step>, a: Step)
    ensures Projection(steps + [a]) == Projection(steps) + Events(a)
  {
    assert (steps + [a])[..|steps + [a]| - 1] == steps;
  }

  ghost predicate RunProjectsTo(c: Config, steps: seq<Step>, trace: seq<Event>) {
    After(c, Init(c), steps).Some? && Projection(steps) == trace
  }

  /** The trace is what the probes see of some run. */
  ghost predicate Accepted(c: Config, trace: seq<Event>) {
    exists steps :: RunProjectsTo(c, steps, trace)
  }

  /** Some run shows this trace and ends in state s. */
  ghost predicate Reaches(c: Config, trace: seq<Event>, s: State) {
    exists steps :: RunProjectsTo(c, steps, trace) && After(c, Init(c), steps) == Some(s)
  }

  lemma ReachesInit(c: Config)
    ensures Reaches(c, [], Init(c))
  {
    assert RunProjectsTo(c, [], []);
  }

  lemma ReachesStep(c: Config, trace: seq<Event>, s: State, a: Step)
    requires Reaches(c, trace, s) && Fire(c, s, a).Some?
    ensures Reaches(c, trace + Events(a), Fire(c, s, a).value)
  {
    var steps :| RunProjectsTo(c, steps, trace) && After(c, Init(c), steps) == Some(s);
    AfterExtend(c, Init(c), steps, a);
    ProjectionExtend(steps, a);
    assert RunProjectsTo(c, steps + [a], trace + Events(a));
  }

  /** One more step of a run whose events do not matter. */
  lemma Go(c: Config, trace: seq<Event>, s: State, a: Step) returns (trace': seq<Event>, s': State)
    requires Reaches(c, trace, s) && Fire(c, s, a).Some?
    ensures Reaches(c, trace', s') && Fire(c, s, a) == Some(s')
  {
    ReachesStep(c, trace, s, a);
    trace', s' := trace + Events(a), Fire(c, s, a).value;
  }

  lemma ReachedIsAccepted(c: Config, trace: seq<Event>, s: State)
    requires Reaches(c, trace, s)
    ensures Accepted(c, trace)
  {
  }

  lemma Silently(c: Config, trace: seq<Event>, s: State, a: Step) returns (trace': seq<Event>, s': State)
    requires Reaches(c, trace, s) && Fire(c, s, a).Some? && !Observable(a)
    ensures trace' == trace && Reaches(c, trace', s') && Fire(c, s, a) == Some(s')
  {
    ReachesStep(c, trace, s, a);
    assert trace + [] == trace;
    trace', s' := trace, Fire(c, s, a).value;
  }

  lemma Visibly(c: Config, trace: seq<Event>, s: State, a: Step) returns (trace': seq<Event>, s': State)
    requires Reaches(c, trace, s) && Fire(c, s, a).Some? && Observable(a)
    ensures trace' == trace + [Event(Owner(a), Label(a).value)] && Reaches(c, trace', s') && Fire(c, s, a) == Some(s')
  {
    ReachesStep(c, trace, s, a);
    trace', s' := trace + Events(a), Fire(c, s, a).value;
  }

  /** A prefix of an accepted trace is accepted. */
  lemma {:induction false} AcceptedPrefix(c: Config, steps: seq<Step>, trace: seq<Event>, k: nat)
    requires RunProjectsTo(c, steps, trace) && k <= |trace|
    ensures Accepted(c, trace[..k])
    decreases |steps|
  {
    if k == |trace| {
      assert trace[..k] == trace;
      assert RunProjectsTo(c, steps, trace[..k]);
    } else {
      var shorter := steps[..|steps| - 1];
      AcceptedPrefix(c, shorter, Projection(shorter), k);
      assert Projection(shorter)[..k] == trace[..k];
    }
  }
}
