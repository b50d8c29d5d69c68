/** The standalone waiter (rescan -w) has no such guarantee: a disable racing a new
    rescan leaves it asleep with nothing in flight, and then only a new enable helps. */
module QgroupStranded {
  import opened Options
  import opened QgroupLifecycle
  import opened QgroupMoves
  import opened QgroupSafety
  import opened QgroupScenarios
  import opened Sets

  /** u sleeps, the completion is reset, and no worker is queued or running. */
  ghost predicate Stranded(s: State, u: Task) {
    && At(s, u, Wt(WaitBlock)) && !s.completionDone
    && !s.flagOn && !s.workerQueued && At(s, Worker, Wk(WkIdle))
    && forall t :: t in s.pc ==> !s.pc[t].En? && s.pc[t] != Res(ResCommit)
  }

  /** u sleeps while a's worker runs; b's rescan resets the completion before u wakes. */
  lemma CompletionReset(c: Config, a: Task, b: Task, u: Task) returns (trace: seq<Event>, s: State)
    requires IsUser(c, a) && IsUser(c, b) && IsUser(c, u) && b != u
    ensures Reaches(c, trace, s)
    ensures s == Init(c).(quotaRoot := true, quotaEnabled := true, flagOn := true, flagRescan := true,
                          pc := s.pc)
    ensures s.pc == Init(c).pc[u := Wt(WaitBlock)][b := Res(ResCommit)]
  {
    ReachesInit(c);
    hide Reaches;
    trace, s := EnableToRescanInit(c, [], Init(c), a);
    trace, s := EnableZeroTracking(c, trace, s, a);
    trace, s := EnableQueuesWorker(c, trace, s, a);
    trace, s := Go(c, trace, s, Wait(u, UserWaitEnter));
    trace, s := Go(c, trace, s, Wait(u, U_WaitRead));
    trace, s := WorkerRuns(c, trace, s);
    trace, s := RescanToCommit(c, trace, s, b);
  }

  /** With three tasks a standalone waiter can be stranded, with or without the fix:
      a's disable switches accounting off under b's rescan, which then queues nothing. */
  lemma WaiterCanBeStranded(c: Config, a: Task, b: Task, u: Task) returns (trace: seq<Event>, s: State)
    requires IsUser(c, a) && IsUser(c, b) && IsUser(c, u) && b != u && a != b && a != u
    ensures Reaches(c, trace, s) && Stranded(s, u)
  {
    trace, s := CompletionReset(c, a, b, u);
    hide Reaches;
    trace, s := DisableToFree(c, trace, s, a);
    trace, s := Go(c, trace, s, Rescan(b, R_Commit));
  }

  lemma OnlyEntryEnabled(c: Config, s: State, u: Task, t: Task, a: EnableAction)
    requires Stranded(s, u) && a != QuotaEnableEnter
    ensures FireEnable(c, s, t, a).None?
  {
  }

  lemma WorkerCannotStep(s: State, u: Task, a: WorkerAction)
    requires Stranded(s, u)
    ensures FireWorker(s, a).None?
  {
  }

  /** Moving a task that is no waiter leaves u stranded, if the flags stay as they are. */
  lemma MoveKeepsStranded(s: State, u: Task, t: Task, s': State)
    requires Stranded(s, u) && t in s.pc && t in s'.pc && s'.pc == s.pc[t := s'.pc[t]] && t != u && t != Worker
    requires !s'.pc[t].En? && s'.pc[t] != Res(ResCommit)
    requires !s'.completionDone && !s'.flagOn && !s'.workerQueued
    ensures Stranded(s', u)
  {
  }

  lemma DisableStaysOff(c: Config, s: State, t: Task, a: DisableAction, s': State)
    requires FireDisable(c, s, t, a) == Some(s') && !s.completionDone && !s.flagOn && !s.workerQueued
    ensures t in s.pc && t in s'.pc && s'.pc == s.pc[t := s'.pc[t]]
    ensures !s'.completionDone && !s'.flagOn && !s'.workerQueued
  {
    if a == D_ClearRoot || a == D_FreeDo || a == D_FreeLock {
    } else {
      hide Freed;
      match a
      case QuotaDisableEnter =>
      case D_Check =>
      case D_ClearEnabled =>
      case D_WaitEnter =>
      case D_WaitRead =>
      case D_WaitBlocked =>
      case D_WaitDone =>
      case D_Trans =>
      case D_ClearRoot =>
      case D_FreeEnter =>
      case D_FreeLock =>
      case D_FreeDo =>
      case D_FreeDone =>
      case D_Clean =>
      case QuotaDisableDone =>
    }
  }

  lemma DisableKeepsStranded(c: Config, s: State, u: Task, t: Task, a: DisableAction, s': State)
    requires Stranded(s, u) && FireDisable(c, s, t, a) == Some(s')
    ensures Stranded(s', u)
  {
    DisableMoves(c, s, t, a, s');
    DisableStaysOff(c, s, t, a, s');
    DisableMoveKinds(a, s.pc[t], s'.pc[t]);
    assert t != u && t != Worker;
    hide FireDisable, Stranded, DisableMove;
    MoveKeepsStranded(s, u, t, s');
  }

  lemma DisableMoveKinds(a: DisableAction, p: PC, q: PC)
    requires DisableMove(a, p, q)
    ensures (p == Idle || p.Dis?) && (q == Idle || q.Dis?)
  {
  }

  lemma RescanKeepsStranded(c: Config, s: State, u: Task, t: Task, a: RescanAction, s': State)
    requires Stranded(s, u) && FireRescan(c, s, t, a) == Some(s')
    ensures Stranded(s', u)
  {
    match a
    case QgroupRescanEnter =>
    case R_Init =>
    case R_Commit =>
    case R_ZTEnter =>
    case R_ZTLock =>
    case R_ZTUnlock =>
    case R_ZTDone =>
    case R_Queue =>
    case QgroupRescanDone =>
  }

  lemma WaitKeepsStranded(c: Config, s: State, u: Task, t: Task, a: WaitAction, s': State)
    requires Stranded(s, u) && FireWait(c, s, t, a) == Some(s')
    ensures Stranded(s', u)
  {
    match a
    case UserWaitEnter =>
    case U_WaitRead =>
    case U_WaitBlocked =>
    case UserWaitDone =>
  }

  lemma UnmountKeepsStranded(c: Config, s: State, u: Task, t: Task, a: UnmountAction, s': State)
    requires Stranded(s, u) && FireUnmount(c, s, t, a) == Some(s')
    ensures Stranded(s', u)
  {
    match a
    case UmountBegin =>
    case M_WaitRead =>
    case M_WaitBlocked =>
    case M_WaitDone =>
    case M_FreeEnter =>
    case M_FreeLock =>
    case M_FreeDo =>
    case M_FreeDone =>
  }

  /** Once stranded, no step but an enable changes that. */
  lemma StrandedUntilEnable(c: Config, s: State, u: Task, a: Step)
    requires Stranded(s, u) && Fire(c, s, a).Some?
    requires !(a.Enable? && a.enable == QuotaEnableEnter)
    ensures Stranded(Fire(c, s, a).value, u)
  {
    var s' := Fire(c, s, a).value;
    match a
    case Enable(t, e) => OnlyEntryEnabled(c, s, u, t, e);
    case Disable(t, d) => DisableKeepsStranded(c, s, u, t, d, s');
    case Rescan(t, r) => RescanKeepsStranded(c, s, u, t, r, s');
    case Wait(t, w) => WaitKeepsStranded(c, s, u, t, w, s');
    case Unmount(t, m) => UnmountKeepsStranded(c, s, u, t, m, s');
    case Work(w) => WorkerCannotStep(s, u, w);
  }

  lemma {:induction false} StrandedForGood(c: Config, s: State, u: Task, steps: seq<Step>)
    requires Stranded(s, u) && After(c, s, steps).Some?
    requires forall a :: a in steps ==> !(a.Enable? && a.enable == QuotaEnableEnter)
    ensures Stranded(After(c, s, steps).value, u)
    decreases |steps|
  {
    if steps != [] {
      var shorter, a := steps[..|steps| - 1], steps[|steps| - 1];
      StrandedForGood(c, s, u, shorter);
      StrandedUntilEnable(c, After(c, s, shorter).value, u, a);
    }
  }

  // ----- Exactly when it can happen -----

  predicate IsEnableTracking(p: PC) {
    p == En(EnZtEnter) || p == En(EnZtIter) || p == En(EnZtDone) || p == En(EnQueue)
  }

  /** Task r is on its way to queue the worker. */
  predicate WillQueue(s: State, r: Task) {
    r in s.pc && (IsEnableTracking(s.pc[r]) || (s.flagOn && IsPendingRescanPC(s.pc[r])))
  }

  ghost predicate HelpComes(s: State) { s.completionDone || WorkerComing(s) || exists r :: WillQueue(s, r) }

  /** A sleeping waiter has help on the way. */
  ghost predicate WaitersHelped(s: State) {
    (exists u :: u in s.pc && s.pc[u] == Wt(WaitBlock)) ==> HelpComes(s)
  }

  /** What one step of task t does for the waiters. */
  ghost predicate Helps(s: State, t: Task, s': State, clears: bool) {
    && t in s.pc && (s.workerQueued ==> s'.workerQueued) && (s.flagOn ==> s'.flagOn || clears)
    && (s.completionDone ==> s'.completionDone || WillQueue(s', t))
    && (WillQueue(s, t) ==> WillQueue(s', t) || s'.workerQueued)
  }

  lemma SameWorkHelps(s: State, t: Task, s': State)
    requires t in s.pc && t in s'.pc && SameWork(s, s')
    requires IsEnableTracking(s.pc[t]) ==> IsEnableTracking(s'.pc[t])
    requires IsPendingRescanPC(s.pc[t]) ==> IsPendingRescanPC(s'.pc[t])
    ensures Helps(s, t, s', false)
    ensures Helps(s, t, s', true)
  {
  }

  lemma ECreateHelps(c: Config, s: State, t: Task, s': State)
    requires FireEnable(c, s, t, E_Create) == Some(s')
    ensures Helps(s, t, s', false)
  {
  }

  lemma ERescanInitHelps(c: Config, s: State, t: Task, s': State)
    requires FireEnable(c, s, t, E_RescanInit) == Some(s')
    ensures Helps(s, t, s', false)
  {
  }

  lemma EQueueHelps(c: Config, s: State, t: Task, s': State)
    requires FireEnable(c, s, t, E_Queue) == Some(s')
    ensures Helps(s, t, s', false)
  {
  }

  lemma EnableKeepsQueuer(a: EnableAction, p: PC, q: PC)
    requires EnableMove(a, p, q) && a != E_Create && a != E_RescanInit && a != E_Queue
    ensures IsEnableTracking(p) ==> IsEnableTracking(q)
    ensures IsPendingRescanPC(p) ==> IsPendingRescanPC(q)
  {
  }

  lemma EnableHelps(c: Config, s: State, t: Task, a: EnableAction, s': State)
    requires FireEnable(c, s, t, a) == Some(s')
    ensures Helps(s, t, s', false)
  {
    hide FireEnable, EnableMove, IsEnableTracking, IsPendingRescanPC, Helps;
    if a == E_Create {
      ECreateHelps(c, s, t, s');
    } else if a == E_RescanInit {
      ERescanInitHelps(c, s, t, s');
    } else if a == E_Queue {
      EQueueHelps(c, s, t, s');
    } else {
      EnableMoves(c, s, t, a, s');
      EnableSame(c, s, t, a, s');
      EnableKeepsQueuer(a, s.pc[t], s'.pc[t]);
      SameWorkHelps(s, t, s');
    }
  }

  lemma RInitHelps(c: Config, s: State, t: Task, s': State)
    requires FireRescan(c, s, t, R_Init) == Some(s')
    ensures Helps(s, t, s', false)
  {
  }

  lemma RQueueHelps(c: Config, s: State, t: Task, s': State)
    requires FireRescan(c, s, t, R_Queue) == Some(s')
    ensures Helps(s, t, s', false)
  {
  }

  lemma RescanKeepsQueuer(a: RescanAction, p: PC, q: PC)
    requires RescanMove(a, p, q) && a != R_Init && a != R_Queue
    ensures IsEnableTracking(p) ==> IsEnableTracking(q)
    ensures IsPendingRescanPC(p) ==> IsPendingRescanPC(q)
  {
  }

  lemma RescanHelps(c: Config, s: State, t: Task, a: RescanAction, s': State)
    requires FireRescan(c, s, t, a) == Some(s')
    ensures Helps(s, t, s', false)
  {
    hide FireRescan, RescanMove, IsEnableTracking, IsPendingRescanPC, Helps;
    if a == R_Init {
      RInitHelps(c, s, t, s');
    } else if a == R_Queue {
      RQueueHelps(c, s, t, s');
    } else {
      RescanMoves(c, s, t, a, s');
      RescanSame(c, s, t, a, s');
      RescanKeepsQueuer(a, s.pc[t], s'.pc[t]);
      SameWorkHelps(s, t, s');
    }
  }

  lemma DClearRootHelps(c: Config, s: State, t: Task, s': State)
    requires FireDisable(c, s, t, D_ClearRoot) == Some(s')
    ensures Helps(s, t, s', true) && s.pc[t] == Dis(DisClearRoot)
  {
  }

  lemma DisableKeepsQueuer(a: DisableAction, p: PC, q: PC)
    requires DisableMove(a, p, q) && a != D_ClearRoot
    ensures IsEnableTracking(p) ==> IsEnableTracking(q)
    ensures IsPendingRescanPC(p) ==> IsPendingRescanPC(q)
  {
  }

  lemma DisableHelps(c: Config, s: State, t: Task, a: DisableAction, s': State)
    requires FireDisable(c, s, t, a) == Some(s')
    ensures Helps(s, t, s', a == D_ClearRoot) && (a == D_ClearRoot ==> s.pc[t] == Dis(DisClearRoot))
  {
    hide FireDisable, DisableMove, IsEnableTracking, IsPendingRescanPC, Helps;
    if a == D_ClearRoot {
      DClearRootHelps(c, s, t, s');
    } else {
      DisableMoves(c, s, t, a, s');
      DisableSame(c, s, t, a, s');
      DisableKeepsQueuer(a, s.pc[t], s'.pc[t]);
      SameWorkHelps(s, t, s');
    }
  }

  lemma WaitHelps(c: Config, s: State, t: Task, a: WaitAction, s': State)
    requires FireWait(c, s, t, a) == Some(s')
    ensures Helps(s, t, s', false)
    ensures t in s'.pc && (s'.pc[t] == Wt(WaitBlock) ==> s.rescanRunning)
  {
    match a
    case UserWaitEnter =>
    case U_WaitRead =>
    case U_WaitBlocked =>
    case UserWaitDone =>
  }

  lemma UnmountHelps(c: Config, s: State, t: Task, a: UnmountAction, s': State)
    requires FireUnmount(c, s, t, a) == Some(s') && a != M_FreeDone
    ensures Helps(s, t, s', false)
  {
    UnmountMoves(c, s, t, a, s');
    UnmountSame(c, s, t, a, s');
    hide FireUnmount;
  }

  lemma WorkerHelps(s: State, a: WorkerAction, s': State)
    requires FireWorker(s, a) == Some(s')
    ensures WorkerComing(s) ==> WorkerComing(s') || s'.completionDone
    ensures s'.flagOn == s.flagOn && (s.completionDone ==> s'.completionDone)
    ensures Worker in s.pc && !WillQueue(s, Worker)
  {
    match a
    case WorkerStart =>
    case W_ScanLock =>
    case W_ScanUnlock =>
    case W_ExitLoop =>
    case W_Finish =>
    case WorkerDone =>
  }

  // ----- One step -----

  lemma QueuerSurvives(s: State, t: Task, s': State, r: Task)
    requires WillQueue(s, r) && r != t && t in s'.pc && s'.pc == s.pc[t := s'.pc[t]]
    requires IsEnableTracking(s.pc[r]) || s'.flagOn
    ensures WillQueue(s', r)
  {
  }

  /** Help that is on its way arrives or stays on its way, unless accounting is cleared
      under a rescan. */
  lemma HelpSurvives(s: State, t: Task, s': State, clears: bool)
    requires t != Worker && Helps(s, t, s', clears) && t in s'.pc && s'.pc == s.pc[t := s'.pc[t]] && HelpComes(s)
    requires clears ==> s.completionDone || WorkerComing(s)
    ensures HelpComes(s')
  {
    hide IsEnableTracking;
    if !s.completionDone && !WorkerComing(s) {
      var r :| WillQueue(s, r);
      if r != t {
        QueuerSurvives(s, t, s', r);
      }
    }
  }

  lemma HelpSurvivesWork(s: State, a: WorkerAction, s': State)
    requires FireWorker(s, a) == Some(s') && HelpComes(s) && Worker in s'.pc && s'.pc == s.pc[Worker := s'.pc[Worker]]
    ensures HelpComes(s')
  {
    WorkerHelps(s, a, s');
    hide FireWorker, IsEnableTracking;
    if !s.completionDone && !WorkerComing(s) {
      var r :| WillQueue(s, r);
      QueuerSurvives(s, Worker, s', r);
    }
  }

  /** With two tasks nobody else is left to queue while one waits and one clears. */
  lemma ClearsAfterHelp(c: Config, s: State, t: Task, u: Task)
    requires Locks(c, s) && |c.users| < 3 && HelpComes(s) && u in s.pc && t in s.pc
    requires s.pc[t] == Dis(DisClearRoot) && s.pc[u] == Wt(WaitBlock)
    ensures s.completionDone || WorkerComing(s)
  {
    if r :| WillQueue(s, r) {
      assert r.User? && t.User? && u.User? && r != t && r != u && t != u;
      ThreeUsers(c, s, r, t, u);
    }
  }

  lemma ThreeUsers(c: Config, s: State, r: Task, t: Task, u: Task)
    requires s.pc.Keys == Tasks(c) && r in s.pc && t in s.pc && u in s.pc && r.User? && t.User? && u.User?
    requires r != t && r != u && t != u
    ensures |c.users| >= 3
  {
    ThreeIn(c.users, r.tid, t.tid, u.tid);
  }

  lemma NobodyWaitsBesideUnmount(c: Config, s: State, t: Task, u: Task)
    requires Locks(c, s) && t in s.pc && s.pc[t].Um? && u in s.pc
    ensures !s.pc[u].Wt?
  {
  }

  lemma StepHelps(c: Config, s: State, a: Step, s': State, u: Task)
    requires Locks(c, s) && |c.users| < 3 && Fire(c, s, a) == Some(s') && HelpComes(s)
    requires u in s.pc && (s.pc[u] == Wt(WaitBlock) || (u == Owner(a) && a.Wait?))
    ensures HelpComes(s')
  {
    var t := Owner(a);
    StepEffect(c, s, a, s');
    StepMoves(c, s, a, s');
    assert s'.pc == s.pc[t := s'.pc[t]];
    if t == Worker && !a.Work? {
      WorkerMovesOnly(a, s.pc[t], s'.pc[t]);
    }
    if a.Unmount? && a.unmount == M_FreeDone {
      NobodyWaitsBesideUnmount(c, s, t, u);
    }
    hide FireEnable, FireDisable, FireRescan, FireWait, FireUnmount, FireWorker, Locks, Effect, HelpComes, Helps,
         StepMove;
    match a
    case Enable(_, e) => EnableHelps(c, s, t, e, s'); HelpSurvives(s, t, s', false);
    case Disable(_, d) =>
      DisableHelps(c, s, t, d, s');
      if d == D_ClearRoot {
        ClearsAfterHelp(c, s, t, u);
      }
      HelpSurvives(s, t, s', d == D_ClearRoot);
    case Rescan(_, r) => RescanHelps(c, s, t, r, s'); HelpSurvives(s, t, s', false);
    case Wait(_, w) => WaitHelps(c, s, t, w, s'); HelpSurvives(s, t, s', false);
    case Unmount(_, m) => UnmountHelps(c, s, t, m, s'); HelpSurvives(s, t, s', false);
    case Work(w) => HelpSurvivesWork(s, w, s');
  }

  lemma StepKeepsHelped(c: Config, s: State, a: Step, s': State)
    requires Locks(c, s) && NoneAbandoned(s) && |c.users| < 3 && Fire(c, s, a) == Some(s') && WaitersHelped(s)
    ensures WaitersHelped(s')
  {
    var t := Owner(a);
    StepEffect(c, s, a, s');
    assert s'.pc == s.pc[t := s'.pc[t]] && (s.rescanRunning ==> WorkerComing(s));
    hide FireEnable, FireDisable, FireRescan, FireWait, FireUnmount, FireWorker, Locks, NoneAbandoned, Effect;
    if u :| u in s'.pc && s'.pc[u] == Wt(WaitBlock) {
      if s.pc[u] != Wt(WaitBlock) {
        FallsAsleep(c, s, a, s');
      }
      StepHelps(c, s, a, s', u);
    }
  }

  /** Only a standalone wait that finds the worker running puts its task to sleep. */
  lemma FallsAsleep(c: Config, s: State, a: Step, s': State)
    requires Fire(c, s, a) == Some(s') && Owner(a) in s.pc && Owner(a) in s'.pc
    requires s'.pc[Owner(a)] == Wt(WaitBlock)
    ensures a.Wait? && s.rescanRunning
  {
    StepMoves(c, s, a, s');
    hide FireEnable, FireDisable, FireRescan, FireUnmount, FireWorker;
    SleepMoves(a, s.pc[Owner(a)], s'.pc[Owner(a)]);
    WaitHelps(c, s, a.t, a.wait, s');
  }

  lemma SleepMoves(a: Step, p: PC, q: PC)
    requires StepMove(a, p, q) && q == Wt(WaitBlock)
    ensures a.Wait?
  {
  }

  lemma {:induction false} RunKeepsHelped(c: Config, steps: seq<Step>)
    requires After(c, Init(c), steps).Some? && |c.users| < 3
    ensures WaitersHelped(After(c, Init(c), steps).value)
    decreases |steps|
  {
    if steps != [] {
      var shorter := steps[..|steps| - 1];
      RunKeepsHelped(c, shorter);
      RunKeepsInv(c, shorter);
      hide Fire, WaitersHelped;
      StepKeepsHelped(c, After(c, Init(c), shorter).value, steps[|steps| - 1], After(c, Init(c), steps).value);
    }
  }

  lemma StrandedIsHelpless(s: State, u: Task)
    requires Stranded(s, u)
    ensures !WaitersHelped(s)
  {
    forall r
      ensures !WillQueue(s, r)
    {
    }
  }

  ghost predicate CanStrand(c: Config) { exists trace, s, u :: Reaches(c, trace, s) && Stranded(s, u) }

  /** A standalone waiter can be stranded exactly when there are three tasks, in either
      kernel: one to wait, one to rescan and one to disable. */
  lemma StrandedIffThreeTasks(c: Config)
    ensures CanStrand(c) <==> |c.users| >= 3
  {
    if |c.users| >= 3 {
      var i, j, k := ThreeOf(c.users);
      var trace, s := WaiterCanBeStranded(c, User(i), User(j), User(k));
    } else if CanStrand(c) {
      var trace, s, u :| Reaches(c, trace, s) && Stranded(s, u);
      var steps :| RunProjectsTo(c, steps, trace) && After(c, Init(c), steps) == Some(s);
      RunKeepsHelped(c, steps);
      StrandedIsHelpless(s, u);
    }
  }
}
