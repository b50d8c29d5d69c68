/** A single task cannot race with itself: its own wait keeps the worker out of its free
    loop, in either kernel. */
module QgroupLone {
  import opened Options
  import opened QgroupLifecycle
  import opened QgroupMoves
  import opened QgroupSafety

  /** Between resetting the completion and queueing the worker. */
  predicate IsTracking(p: PC) {
    || p == En(EnZtEnter) || p == En(EnZtIter) || p == En(EnZtDone) || p == En(EnQueue) || IsPendingRescanPC(p)
  }

  /** Past the wait of a disable or an unmount. */
  predicate HasWaited(p: PC) {
    match p
    case Dis(d) =>
      || d == DisWaitDone || d == DisTrans || d == DisClearRoot || d == DisFreeEnter || d == DisFreeLock
      || d == DisFreeDo || d == DisFreeDone || d == DisClean
    case Um(u) =>
      u == UmWaitDone || u == UmFreeEnter || u == UmFreeLock || u == UmFreeDo || u == UmFreeDone
    case _ => false
  }

  /** The running flag tells the truth about the worker, and guards it. */
  predicate FlagsMatch(s: State) {
    && Worker in s.pc && IsWorkerPlace(s.pc[Worker]) && (WorkerComing(s) <==> s.rescanRunning)
    && (s.rescanRunning ==> s.flagRescan && !s.completionDone && s.quotaRoot)
    && (s.workerQueued ==> At(s, Worker, Wk(WkIdle)) || At(s, Worker, Wk(WkExit)))
  }

  predicate LoneAt(s: State, p: PC) {
    && (IsTracking(p) ==> s.flagRescan && !s.rescanRunning && !s.completionDone && s.quotaRoot)
    && (HasWaited(p) ==> !s.rescanRunning)
    && (p == En(EnCreate) || p == En(EnSetRoot) ==> !s.quotaRoot)
    && (p == En(EnRescanInit) ==> s.quotaRoot)
    && (!s.quotaRoot && p != En(EnSetRoot) ==> !s.flagOn)
  }

  lemma EnableBegins(c: Config, s: State, t: Task, a: EnableAction, s': State)
    requires FireEnable(c, s, t, a) == Some(s') && t in s.pc && t != Worker && FlagsMatch(s) && LoneAt(s, s.pc[t])
    requires a == QuotaEnableEnter || a == E_Check || a == E_Create || a == E_SetRoot || a == E_SimpleSkip
             || a == E_RescanInit
    ensures FlagsMatch(s') && t in s'.pc && LoneAt(s', s'.pc[t])
  {
    if a == QuotaEnableEnter {
    } else if a == E_Check {
    } else if a == E_Create {
    } else if a == E_SetRoot {
    } else if a == E_SimpleSkip {
    } else if a == E_RescanInit {
    }
  }

  lemma EnableTracks(c: Config, s: State, t: Task, a: EnableAction, s': State)
    requires FireEnable(c, s, t, a) == Some(s') && t in s.pc && t != Worker && FlagsMatch(s) && LoneAt(s, s.pc[t])
    requires a == E_ZTEnter || a == E_ZTLock || a == E_ZTUnlock || a == E_ZTDone || a == E_Queue || a == QuotaEnableDone
    ensures FlagsMatch(s') && t in s'.pc && LoneAt(s', s'.pc[t])
  {
    if a == E_ZTEnter {
    } else if a == E_ZTLock {
    } else if a == E_ZTUnlock {
    } else if a == E_ZTDone {
    } else if a == E_Queue {
    } else if a == QuotaEnableDone {
    }
  }

  lemma EnableLone(c: Config, s: State, t: Task, a: EnableAction, s': State)
    requires FireEnable(c, s, t, a) == Some(s') && t in s.pc && t != Worker && FlagsMatch(s) && LoneAt(s, s.pc[t])
    ensures FlagsMatch(s') && t in s'.pc && LoneAt(s', s'.pc[t])
  {
    hide FireEnable, FlagsMatch, LoneAt;
    match a
    case QuotaEnableEnter => EnableBegins(c, s, t, a, s');
    case E_Check => EnableBegins(c, s, t, a, s');
    case E_Create => EnableBegins(c, s, t, a, s');
    case E_SetRoot => EnableBegins(c, s, t, a, s');
    case E_SimpleSkip => EnableBegins(c, s, t, a, s');
    case E_RescanInit => EnableBegins(c, s, t, a, s');
    case E_ZTEnter => EnableTracks(c, s, t, a, s');
    case E_ZTLock => EnableTracks(c, s, t, a, s');
    case E_ZTUnlock => EnableTracks(c, s, t, a, s');
    case E_ZTDone => EnableTracks(c, s, t, a, s');
    case E_Queue => EnableTracks(c, s, t, a, s');
    case QuotaEnableDone => EnableTracks(c, s, t, a, s');
  }

  lemma RescanLone(c: Config, s: State, t: Task, a: RescanAction, s': State)
    requires FireRescan(c, s, t, a) == Some(s') && t in s.pc && t != Worker && FlagsMatch(s) && LoneAt(s, s.pc[t])
    ensures FlagsMatch(s') && t in s'.pc && LoneAt(s', s'.pc[t])
  {
    match a
    case QgroupRescanEnter =>
    case R_Init =>
    case R_Commit =>
    case R_ZTEnter =>
    case R_ZTLock =>
    case R_ZTUnlock =>
    case R_ZTDone =>
    case R_Queue =>
    case QgroupRescanDone =>
  }

  /** Nothing that FlagsMatch and LoneAt speak of changes but t's place. */
  predicate QuietStep(s: State, t: Task, s': State) {
    && t in s.pc && s'.pc == s.pc[t := if t in s'.pc then s'.pc[t] else Idle]
    && s'.quotaRoot == s.quotaRoot && s'.flagOn == s.flagOn && s'.flagRescan == s.flagRescan
    && s'.rescanRunning == s.rescanRunning && s'.completionDone == s.completionDone
    && s'.workerQueued == s.workerQueued
  }

  lemma QuietKeeps(s: State, t: Task, s': State)
    requires FlagsMatch(s) && t != Worker && QuietStep(s, t, s') && LoneAt(s, s.pc[t])
    requires !s'.pc[t].En? && !s.pc[t].En? && !IsTracking(s'.pc[t]) && (HasWaited(s'.pc[t]) ==> HasWaited(s.pc[t]))
    ensures FlagsMatch(s') && LoneAt(s', s'.pc[t])
  {
  }

  lemma QuietMove(s: State, t: Task, s': State)
    requires JustMoves(s, t, s')
    ensures QuietStep(s, t, s')
  {
  }

  lemma DisableQuietWorks(c: Config, s: State, t: Task, a: DisableAction, s': State)
    requires FireDisable(c, s, t, a) == Some(s')
    requires a == QuotaDisableEnter || a == D_ClearEnabled || a == D_FreeLock || a == D_FreeDo || a == QuotaDisableDone
    ensures QuietStep(s, t, s')
  {
    if a == QuotaDisableEnter {
    } else if a == D_ClearEnabled {
    } else if a == D_FreeLock {
    } else if a == D_FreeDo {
    }
  }

  lemma DisableQuiet(c: Config, s: State, t: Task, a: DisableAction, s': State)
    requires FireDisable(c, s, t, a) == Some(s') && a != D_ClearRoot
    ensures QuietStep(s, t, s')
  {
    hide FireDisable, QuietStep;
    if a == QuotaDisableEnter || a == D_ClearEnabled || a == D_FreeLock || a == D_FreeDo || a == QuotaDisableDone {
      DisableQuietWorks(c, s, t, a, s');
    } else {
      DisableJustMoves(c, s, t, a, s');
      QuietMove(s, t, s');
    }
  }

  lemma DisableWaits(a: DisableAction, p: PC, q: PC)
    requires DisableMove(a, p, q) && a != D_WaitRead && a != D_WaitBlocked
    ensures !q.En? && !p.En? && !IsTracking(q) && (HasWaited(q) ==> HasWaited(p))
  {
  }

  lemma DisablePasses(c: Config, s: State, t: Task, a: DisableAction, s': State)
    requires FireDisable(c, s, t, a) == Some(s') && t in s.pc && t != Worker && FlagsMatch(s) && LoneAt(s, s.pc[t])
    requires a == D_WaitRead || a == D_WaitBlocked || a == D_ClearRoot
    ensures FlagsMatch(s') && t in s'.pc && LoneAt(s', s'.pc[t])
  {
    if a == D_WaitRead {
    } else if a == D_WaitBlocked {
    }
  }

  lemma DisableLone(c: Config, s: State, t: Task, a: DisableAction, s': State)
    requires FireDisable(c, s, t, a) == Some(s') && t in s.pc && t != Worker && FlagsMatch(s) && LoneAt(s, s.pc[t])
    ensures FlagsMatch(s') && t in s'.pc && LoneAt(s', s'.pc[t])
  {
    hide FireDisable, FlagsMatch, LoneAt, QuietStep, DisableMove;
    DisableMoves(c, s, t, a, s');
    if a == D_WaitRead || a == D_WaitBlocked || a == D_ClearRoot {
      DisablePasses(c, s, t, a, s');
    } else {
      DisableQuiet(c, s, t, a, s');
      DisableWaits(a, s.pc[t], s'.pc[t]);
      QuietKeeps(s, t, s');
    }
  }

  lemma WaitLone(c: Config, s: State, t: Task, a: WaitAction, s': State)
    requires FireWait(c, s, t, a) == Some(s') && t in s.pc && t != Worker && FlagsMatch(s) && LoneAt(s, s.pc[t])
    ensures FlagsMatch(s') && t in s'.pc && LoneAt(s', s'.pc[t])
  {
    match a
    case UserWaitEnter =>
    case U_WaitRead =>
    case U_WaitBlocked =>
    case UserWaitDone =>
  }

  lemma UnmountQuietWorks(c: Config, s: State, t: Task, a: UnmountAction, s': State)
    requires FireUnmount(c, s, t, a) == Some(s') && (a == M_FreeLock || a == M_FreeDo)
    ensures QuietStep(s, t, s')
  {
    if a == M_FreeLock {
    }
  }

  lemma UnmountQuiet(c: Config, s: State, t: Task, a: UnmountAction, s': State)
    requires FireUnmount(c, s, t, a) == Some(s') && a != M_FreeDone
    ensures QuietStep(s, t, s')
  {
    hide FireUnmount, QuietStep;
    if a == M_FreeLock || a == M_FreeDo {
      UnmountQuietWorks(c, s, t, a, s');
    } else {
      UnmountJustMoves(c, s, t, a, s');
      QuietMove(s, t, s');
    }
  }

  lemma UnmountWaits(a: UnmountAction, p: PC, q: PC)
    requires UnmountMove(a, p, q) && a != M_WaitRead && a != M_WaitBlocked
    ensures !q.En? && !p.En? && !IsTracking(q) && (HasWaited(q) ==> HasWaited(p))
  {
  }

  lemma UnmountPasses(c: Config, s: State, t: Task, a: UnmountAction, s': State)
    requires FireUnmount(c, s, t, a) == Some(s') && t in s.pc && t != Worker && FlagsMatch(s) && LoneAt(s, s.pc[t])
    requires a == M_WaitRead || a == M_WaitBlocked || a == M_FreeDone
    ensures FlagsMatch(s') && t in s'.pc && LoneAt(s', s'.pc[t])
  {
    if a == M_WaitRead {
    } else if a == M_WaitBlocked {
    }
  }

  lemma UnmountLone(c: Config, s: State, t: Task, a: UnmountAction, s': State)
    requires FireUnmount(c, s, t, a) == Some(s') && t in s.pc && t != Worker && FlagsMatch(s) && LoneAt(s, s.pc[t])
    ensures FlagsMatch(s') && t in s'.pc && LoneAt(s', s'.pc[t])
  {
    hide FireUnmount, FlagsMatch, LoneAt, QuietStep, UnmountMove;
    UnmountMoves(c, s, t, a, s');
    if a == M_WaitRead || a == M_WaitBlocked || a == M_FreeDone {
      UnmountPasses(c, s, t, a, s');
    } else {
      UnmountQuiet(c, s, t, a, s');
      UnmountWaits(a, s.pc[t], s'.pc[t]);
      QuietKeeps(s, t, s');
    }
  }

  lemma WorkerLone(s: State, a: WorkerAction, s': State, p: PC)
    requires FireWorker(s, a) == Some(s') && FlagsMatch(s)
    ensures FlagsMatch(s') && (LoneAt(s, p) ==> LoneAt(s', p))
  {
    match a
    case WorkerStart =>
    case W_ScanLock =>
    case W_ScanUnlock =>
    case W_ExitLoop =>
    case W_Finish =>
    case WorkerDone =>
  }

  // ----- Every run -----

  /** t is the only user task, if there is one. */
  ghost predicate Lone(c: Config, s: State, t: Task) {
    && Locks(c, s) && FlagsMatch(s) && !s.uafOccurred && t != Worker
    && (forall u :: u in s.pc ==> u == Worker || u == t) && (t in s.pc ==> LoneAt(s, s.pc[t]))
  }

  /** While t frees there is nobody to free under. */
  lemma FreeFindsNobody(c: Config, s: State, t: Task, u: Task)
    requires Lone(c, s, t) && u in s.iterating && t in s.pc
    ensures !IsFreePC(s.pc[t])
  {
  }

  lemma EnableFreesNothing(c: Config, s: State, t: Task, a: EnableAction, s': State)
    requires FireEnable(c, s, t, a) == Some(s')
    ensures s'.uafOccurred == s.uafOccurred
  {
    if a == E_ZTLock {
    } else if a == E_ZTUnlock {
    } else {
      EnableSame(c, s, t, a, s');
      hide FireEnable;
    }
  }

  lemma RescanFreesNothing(c: Config, s: State, t: Task, a: RescanAction, s': State)
    requires FireRescan(c, s, t, a) == Some(s')
    ensures s'.uafOccurred == s.uafOccurred
  {
    if a == R_ZTLock {
    } else if a == R_ZTUnlock {
    } else {
      RescanSame(c, s, t, a, s');
      hide FireRescan;
    }
  }

  lemma DisableFreesAlone(c: Config, s: State, t: Task, a: DisableAction, s': State)
    requires FireDisable(c, s, t, a) == Some(s') && (forall u :: u in s.iterating ==> t in s.pc && !IsFreePC(s.pc[t]))
    ensures s'.uafOccurred == s.uafOccurred
  {
    if a == D_FreeLock {
    } else if a == D_FreeDo {
    } else {
      DisableSame(c, s, t, a, s');
      hide FireDisable;
    }
  }

  lemma UnmountFreesAlone(c: Config, s: State, t: Task, a: UnmountAction, s': State)
    requires FireUnmount(c, s, t, a) == Some(s') && (forall u :: u in s.iterating ==> t in s.pc && !IsFreePC(s.pc[t]))
    ensures s'.uafOccurred == s.uafOccurred
  {
    if a == M_FreeLock {
    } else if a == M_FreeDo {
    } else {
      UnmountSame(c, s, t, a, s');
      hide FireUnmount;
    }
  }

  lemma WaitFreesNothing(c: Config, s: State, t: Task, a: WaitAction, s': State)
    requires FireWait(c, s, t, a) == Some(s')
    ensures s'.uafOccurred == s.uafOccurred
  {
    match a
    case UserWaitEnter =>
    case U_WaitRead =>
    case U_WaitBlocked =>
    case UserWaitDone =>
  }

  lemma WorkerFreesNothing(s: State, a: WorkerAction, s': State)
    requires FireWorker(s, a) == Some(s')
    ensures s'.uafOccurred == s.uafOccurred
  {
    match a
    case WorkerStart =>
    case W_ScanLock =>
    case W_ScanUnlock =>
    case W_ExitLoop =>
    case W_Finish =>
    case WorkerDone =>
  }

  lemma LoneFreesNothing(c: Config, s: State, t: Task, a: Step, s': State)
    requires Lone(c, s, t) && Fire(c, s, a) == Some(s') && Owner(a) in s.pc
    ensures s'.uafOccurred == s.uafOccurred
  {
    forall u | u in s.iterating
      ensures t in s.pc ==> !IsFreePC(s.pc[t])
    {
      if t in s.pc {
        FreeFindsNobody(c, s, t, u);
      }
    }
    assert Owner(a) == t || Owner(a) == Worker;
    assert Worker in s.pc && !IsFreePC(s.pc[Worker]);
    hide Lone, FireEnable, FireDisable, FireRescan, FireWait, FireUnmount, FireWorker, IsFreePC;
    match a
    case Enable(_, e) => EnableFreesNothing(c, s, a.t, e, s');
    case Rescan(_, r) => RescanFreesNothing(c, s, a.t, r, s');
    case Disable(_, d) => DisableFreesAlone(c, s, a.t, d, s');
    case Unmount(_, u) => UnmountFreesAlone(c, s, a.t, u, s');
    case Wait(_, w) => WaitFreesNothing(c, s, a.t, w, s');
    case Work(w) => WorkerFreesNothing(s, w, s');
  }

  lemma LoneMoves(c: Config, s: State, t: Task, a: Step, s': State)
    requires Lone(c, s, t) && Fire(c, s, a) == Some(s') && Owner(a) in s.pc && t in s.pc
    requires (Owner(a) == t && !a.Work?) || a.Work?
    ensures FlagsMatch(s') && t in s'.pc && LoneAt(s', s'.pc[t])
  {
    hide FireEnable, FireDisable, FireRescan, FireWait, FireUnmount, FlagsMatch, LoneAt, Locks;
    match a
    case Enable(_, e) => EnableLone(c, s, t, e, s');
    case Rescan(_, r) => RescanLone(c, s, t, r, s');
    case Disable(_, d) => DisableLone(c, s, t, d, s');
    case Unmount(_, u) => UnmountLone(c, s, t, u, s');
    case Wait(_, w) => WaitLone(c, s, t, w, s');
    case Work(w) => WorkerLone(s, w, s', s.pc[t]); WorkerMovesAlone(c, s, t, w, s');
  }

  lemma WorkerMovesAlone(c: Config, s: State, t: Task, a: WorkerAction, s': State)
    requires Locks(c, s) && FireWorker(s, a) == Some(s') && t in s.pc && t != Worker
    ensures t in s'.pc && s'.pc[t] == s.pc[t]
  {
    StepEffect(c, s, Work(a), s');
  }

  lemma StepKeepsLone(c: Config, s: State, t: Task, a: Step, s': State)
    requires Lone(c, s, t) && Fire(c, s, a) == Some(s')
    ensures Lone(c, s', t)
  {
    StepMoves(c, s, a, s');
    StepKeepsLocks(c, s, a, s');
    LoneFreesNothing(c, s, t, a, s');
    assert s'.pc.Keys == s.pc.Keys;
    hide Fire, StepMove, FlagsMatch, LoneAt, Locks, Effect;
    if !a.Work? && a.t == Worker {
      WorkerMovesOnly(a, s.pc[Worker], s'.pc[Worker]);
    }
    if t in s.pc {
      LoneMoves(c, s, t, a, s');
    } else {
      WorkerLone(s, a.work, s', Idle);
    }
  }

  lemma {:induction false} RunKeepsLone(c: Config, steps: seq<Step>, t: Task)
    requires After(c, Init(c), steps).Some? && t.User? && forall i :: i in c.users ==> i == t.tid
    ensures Lone(c, After(c, Init(c), steps).value, t)
    decreases |steps|
  {
    if steps == [] {
      InitInv(c);
    } else {
      var shorter := steps[..|steps| - 1];
      RunKeepsLone(c, shorter, t);
      hide Lone, Fire;
      StepKeepsLone(c, After(c, Init(c), shorter).value, t, steps[|steps| - 1], After(c, Init(c), steps).value);
    }
  }
}
