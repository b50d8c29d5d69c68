/** What every reachable state of the qgroup life cycle keeps: the lock
    discipline, and with it freedom from use-after-free exactly when the free
    loop holds the qgroup lock. */
module QgroupSafety {
  import opened Options
  import opened QgroupLifecycle
  import opened QgroupMoves

  predicate IsIteratorPC(p: PC) { p == En(EnZtIter) || p == Res(ResZtIter) || p == Wk(WkScan) }
  predicate IsWorkerPlace(p: PC) {
    p == Wk(WkIdle) || p == Wk(WkRun) || p == Wk(WkScan) || p == Wk(WkFinish) || p == Wk(WkExit)
  }

  predicate IsFreePC(p: PC) { p == Dis(DisFreeDo) || p == Um(UmFreeDo) }

  /** Program counters: every task has one of its own kind. */
  ghost predicate PcOk(c: Config, s: State) {
    && s.pc.Keys == Tasks(c)
    && (forall t :: t in s.pc ==> (s.pc[t].Wk? <==> t == Worker))
    && IsWorkerPlace(s.pc[Worker])
    && s.rescanLock == NoTask
    && (forall t :: t in s.pc && (s.pc[t] == Dis(DisFreeLock) || s.pc[t] == Um(UmFreeLock)) ==> c.fix)
  }

  /** Only the holder of qgroup_lock iterates, and only at an iterator's place. */
  ghost predicate IteratorsOk(c: Config, s: State) {
    && (forall t :: t in s.iterating ==> s.qgroupLock == t && t in s.pc && IsIteratorPC(s.pc[t]))
    && (At(s, Worker, Wk(WkScan)) ==> Worker in s.iterating)
  }

  /** qgroup_lock is held by an iterator or, in the fixed kernel, by the free loop. */
  ghost predicate QgroupLockOk(c: Config, s: State) {
    && (s.qgroupLock != NoTask ==>
          s.qgroupLock in s.pc && (s.qgroupLock in s.iterating || (c.fix && IsFreePC(s.pc[s.qgroupLock]))))
    && (c.fix ==> forall t :: t in s.pc && IsFreePC(s.pc[t]) ==> s.qgroupLock == t)
  }

  /** subvol_sem is held exactly by the task inside enable or disable. */
  ghost predicate SubvolSemOk(s: State) {
    && (forall t :: t in s.pc ==> (s.pc[t].En? || s.pc[t].Dis? <==> s.subvolSem == t))
    && (s.subvolSem != NoTask ==> s.subvolSem in s.pc)
  }

  /** While one task unmounts, no other user task is inside the filesystem. */
  ghost predicate UnmountAlone(s: State) {
    forall t, t2 :: t in s.pc && t2 in s.pc && s.pc[t].Um? && t2 != t && t2 != Worker ==> s.pc[t2] == Idle
  }

  predicate WorkerComing(s: State) {
    || s.workerQueued
    || (Worker in s.pc && (s.pc[Worker] == Wk(WkRun) || s.pc[Worker] == Wk(WkScan) || s.pc[Worker] == Wk(WkFinish)))
  }

  /** A rescan that has reset the completion and not yet queued its worker. */
  predicate IsPendingRescanPC(p: PC) {
    p == Res(ResCommit) || p == Res(ResZtEnter) || p == Res(ResZtIter) || p == Res(ResZtDone) || p == Res(ResQueue)
  }

  ghost predicate RescanPending(s: State) {
    s.flagOn && exists r :: r in s.pc && IsPendingRescanPC(s.pc[r])
  }

  /** No waiter of disable or unmount sleeps with nothing left to wake it. */
  ghost predicate NoneAbandoned(s: State) {
    && (s.rescanRunning ==> WorkerComing(s))
    && (forall t :: t in s.pc && s.pc[t] == Dis(DisWaitBlock) && !s.completionDone ==>
          WorkerComing(s) || RescanPending(s))
    && (forall t :: t in s.pc && s.pc[t] == Um(UmWaitBlock) && !s.completionDone ==> WorkerComing(s))
  }

  ghost predicate Inv(c: Config, s: State) {
    Locks(c, s) && NoneAbandoned(s) && (c.fix ==> !s.uafOccurred)
  }

  lemma InitInv(c: Config)
    ensures Inv(c, Init(c))
  {
  }

  // ----- What one step of a task may do -----

  ghost predicate MovesOnly(c: Config, s: State, t: Task, s': State) {
    && t in s.pc && t in s'.pc && s'.pc == s.pc[t := s'.pc[t]]
    && (s.pc[t].Wk? <==> s'.pc[t].Wk?) && (t == Worker ==> IsWorkerPlace(s'.pc[t])) && s'.rescanLock == s.rescanLock
    && (s'.pc[t] == Dis(DisFreeLock) || s'.pc[t] == Um(UmFreeLock) ==> c.fix)
  }

  ghost predicate SubvolEffect(c: Config, s: State, t: Task, s': State)
    requires MovesOnly(c, s, t, s')
  {
    var p, q := s.pc[t], s'.pc[t];
    if s'.subvolSem == s.subvolSem then (p.En? || p.Dis?) <==> (q.En? || q.Dis?)
    else if s.subvolSem == NoTask then s'.subvolSem == t && (q.En? || q.Dis?)
    else s.subvolSem == t && s'.subvolSem == NoTask && !q.En? && !q.Dis?
  }

  ghost predicate UnmountEffect(c: Config, s: State, t: Task, s': State)
    requires MovesOnly(c, s, t, s')
  {
    var p, q := s.pc[t], s'.pc[t];
    && (q.Um? && !p.Um? ==> forall t2 :: t2 in s.pc && t2 != t && t2 != Worker ==> s.pc[t2] == Idle)
    && (p == Idle && q != Idle && !q.Um? ==> !Closing(s))
  }

  /** Lock and iterator move together: taken at an iterator's place, given up on
      leaving it; or taken and given up around the free loop. */
  ghost predicate LockEffect(c: Config, s: State, t: Task, s': State)
    requires MovesOnly(c, s, t, s')
  {
    var p, q := s.pc[t], s'.pc[t];
    if s'.qgroupLock == s.qgroupLock then
      && s'.iterating == s.iterating && q != Wk(WkScan)
      && (t in s.iterating ==> IsIteratorPC(q))
      && (c.fix ==> !IsFreePC(p) && !IsFreePC(q))
    else if s.qgroupLock == NoTask then
      && s'.qgroupLock == t
      && if IsFreePC(q) then c.fix && s'.iterating == s.iterating
         else IsIteratorPC(q) && forall x :: x in s'.iterating <==> x in s.iterating || x == t
    else
      && s.qgroupLock == t && s'.qgroupLock == NoTask && q != Wk(WkScan) && !IsFreePC(q)
      && forall x :: x in s'.iterating <==> x in s.iterating && x != t
  }

  /** Where t goes, and what it does to subvol_sem and to the unmount gate. */
  ghost predicate PlaceEffect(c: Config, s: State, t: Task, s': State) {
    MovesOnly(c, s, t, s') && SubvolEffect(c, s, t, s') && UnmountEffect(c, s, t, s')
  }

  ghost predicate TreeEffect(c: Config, s: State, t: Task, s': State)
    requires MovesOnly(c, s, t, s')
  {
    LockEffect(c, s, t, s') && (c.fix ==> s'.uafOccurred == s.uafOccurred)
  }

  ghost predicate Effect(c: Config, s: State, t: Task, s': State) {
    PlaceEffect(c, s, t, s') && TreeEffect(c, s, t, s')
  }

  ghost predicate Gates(c: Config, s: State) {
    PcOk(c, s) && SubvolSemOk(s) && UnmountAlone(s)
  }

  ghost predicate Locks(c: Config, s: State) {
    Gates(c, s) && IteratorsOk(c, s) && QgroupLockOk(c, s)
  }

  lemma IterationTreeEffect(c: Config, s: State, t: Task, from: PC, to: PC, s': State)
    requires Locks(c, s) && MovesOnly(c, s, t, s') && !IsFreePC(to)
    requires
      || (LockAndIterate(s, t, from, to) == Some(s') && IsIteratorPC(to))
      || (UnlockAfterIterating(s, t, from, to) == Some(s') && to != Wk(WkScan))
    ensures TreeEffect(c, s, t, s')
  {
  }

  /** The lock, the iterators and the use-after-free flag are untouched. */
  predicate SameTree(s: State, s': State) {
    s'.qgroupLock == s.qgroupLock && s'.iterating == s.iterating && s'.uafOccurred == s.uafOccurred
  }

  /** Nothing that wakes or puts off a waiter changes. */
  predicate SameWork(s: State, s': State) {
    && s'.flagOn == s.flagOn && s'.rescanRunning == s.rescanRunning
    && s'.completionDone == s.completionDone && s'.workerQueued == s.workerQueued
  }

  /** Nothing changes but t's place. */
  ghost predicate JustMoves(s: State, t: Task, s': State) {
    t in s.pc && t in s'.pc && s' == s.(pc := s.pc[t := s'.pc[t]])
  }

  lemma JustMovesSame(s: State, t: Task, s': State)
    requires JustMoves(s, t, s')
    ensures SameTree(s, s') && SameWork(s, s')
  {
  }

  lemma EnableJustMoves(c: Config, s: State, t: Task, a: EnableAction, s': State)
    requires FireEnable(c, s, t, a) == Some(s')
    requires a == E_Check || a == E_SimpleSkip || a == E_ZTEnter || a == E_ZTDone
    ensures JustMoves(s, t, s')
  {
    if a == E_Check {
    } else if a == E_SimpleSkip {
    } else if a == E_ZTEnter {
    } else if a == E_ZTDone {
    }
  }

  /** The place moves, and subvol_sem is left alone. */
  ghost predicate MovesUnderSem(s: State, t: Task, s': State) {
    && t in s.pc && t in s'.pc && s'.pc == s.pc[t := s'.pc[t]]
    && s'.rescanLock == s.rescanLock && s'.subvolSem == s.subvolSem
  }

  lemma EnableLocks(c: Config, s: State, t: Task, a: EnableAction, s': State)
    requires FireEnable(c, s, t, a) == Some(s') && (a == E_ZTLock || a == E_ZTUnlock)
    ensures SameWork(s, s') && MovesUnderSem(s, t, s')
  {
    if a == E_ZTLock {
    }
  }

  lemma EnableWorks(c: Config, s: State, t: Task, a: EnableAction, s': State)
    requires FireEnable(c, s, t, a) == Some(s')
    requires a == E_Create || a == E_SetRoot || a == E_RescanInit || a == E_Queue
    ensures SameTree(s, s') && (a == E_SetRoot ==> SameWork(s, s')) && MovesUnderSem(s, t, s')
  {
    if a == E_Create {
    } else if a == E_SetRoot {
    } else if a == E_RescanInit {
    } else if a == E_Queue {
    }
  }

  lemma EnableEnds(c: Config, s: State, t: Task, a: EnableAction, s': State)
    requires FireEnable(c, s, t, a) == Some(s') && (a == QuotaEnableEnter || a == QuotaEnableDone)
    ensures SameTree(s, s') && SameWork(s, s')
  {
    if a == QuotaEnableEnter {
    }
  }

  lemma EnableSame(c: Config, s: State, t: Task, a: EnableAction, s': State)
    requires FireEnable(c, s, t, a) == Some(s')
    ensures a != E_ZTLock && a != E_ZTUnlock ==> SameTree(s, s')
    ensures a != E_Create && a != E_RescanInit && a != E_Queue ==> SameWork(s, s')
  {
    hide SameTree, SameWork, JustMoves, FireEnable;
    if a == E_Check || a == E_SimpleSkip || a == E_ZTEnter || a == E_ZTDone {
      EnableJustMoves(c, s, t, a, s');
      JustMovesSame(s, t, s');
    } else if a == QuotaEnableEnter || a == QuotaEnableDone {
      EnableEnds(c, s, t, a, s');
    } else if a == E_ZTLock || a == E_ZTUnlock {
      EnableLocks(c, s, t, a, s');
    } else {
      EnableWorks(c, s, t, a, s');
    }
  }

  lemma DisableJustMoves(c: Config, s: State, t: Task, a: DisableAction, s': State)
    requires FireDisable(c, s, t, a) == Some(s')
    requires a == D_Check || a == D_WaitEnter || a == D_WaitRead || a == D_WaitBlocked || a == D_WaitDone ||
             a == D_Trans
             || a == D_FreeEnter || a == D_FreeDone || a == D_Clean
    ensures JustMoves(s, t, s')
  {
    if a == D_Check {
    } else if a == D_WaitEnter {
    } else if a == D_WaitRead {
    } else if a == D_WaitBlocked {
    } else if a == D_WaitDone {
    } else if a == D_Trans {
    } else if a == D_FreeEnter {
    } else if a == D_FreeDone {
    } else if a == D_Clean {
    }
  }

  lemma DisablePlaces(c: Config, s: State, t: Task, a: DisableAction, s': State)
    requires FireDisable(c, s, t, a) == Some(s') && (a == D_WaitRead || a == D_FreeEnter)
    ensures t in s'.pc && (s'.pc[t] == Dis(DisWaitBlock) ==> s.rescanRunning)
    ensures a == D_FreeEnter && c.fix ==> s'.pc[t] == Dis(DisFreeLock)
  {
    if a == D_WaitRead {
    } else if a == D_FreeEnter {
    }
  }

  lemma DisableSleeps(a: DisableAction, p: PC, q: PC)
    requires DisableMove(a, p, q) && q == Dis(DisWaitBlock)
    ensures a == D_WaitRead
  {
  }

  lemma DisableWorks(c: Config, s: State, t: Task, a: DisableAction, s': State)
    requires FireDisable(c, s, t, a) == Some(s')
    requires a == QuotaDisableEnter || a == D_ClearEnabled || a == D_ClearRoot || a == D_FreeLock || a == D_FreeDo
             || a == QuotaDisableDone
    ensures a != D_FreeLock && a != D_FreeDo ==> SameTree(s, s')
    ensures a != D_ClearRoot ==> SameWork(s, s')
    ensures a != QuotaDisableEnter && a != QuotaDisableDone ==> MovesUnderSem(s, t, s')
  {
    if a == QuotaDisableEnter {
    } else if a == D_ClearEnabled {
    } else if a == D_ClearRoot {
    } else if a == D_FreeLock {
    } else if a == D_FreeDo {
    }
  }

  lemma DisableSame(c: Config, s: State, t: Task, a: DisableAction, s': State)
    requires FireDisable(c, s, t, a) == Some(s')
    ensures a != D_FreeLock && a != D_FreeDo ==> SameTree(s, s')
    ensures a != D_ClearRoot ==> SameWork(s, s')
    ensures t in s'.pc && (s'.pc[t] == Dis(DisWaitBlock) ==> s.rescanRunning)
    ensures a == D_FreeEnter && c.fix ==> s'.pc[t] == Dis(DisFreeLock)
  {
    hide SameTree, SameWork, JustMoves, FireDisable, DisableMove;
    DisableMoves(c, s, t, a, s');
    if s'.pc[t] == Dis(DisWaitBlock) {
      DisableSleeps(a, s.pc[t], s'.pc[t]);
    }
    if a == D_WaitRead || a == D_FreeEnter {
      DisablePlaces(c, s, t, a, s');
    }
    if a == QuotaDisableEnter || a == D_ClearEnabled || a == D_ClearRoot || a == D_FreeLock || a == D_FreeDo
       || a == QuotaDisableDone {
      DisableWorks(c, s, t, a, s');
    } else {
      DisableJustMoves(c, s, t, a, s');
      JustMovesSame(s, t, s');
    }
  }

  lemma RescanJustMoves(c: Config, s: State, t: Task, a: RescanAction, s': State)
    requires FireRescan(c, s, t, a) == Some(s')
    requires a == QgroupRescanEnter || a == R_Commit || a == R_ZTEnter || a == R_ZTDone || a == QgroupRescanDone
    ensures JustMoves(s, t, s')
  {
    if a == QgroupRescanEnter {
    } else if a == R_Commit {
    } else if a == R_ZTEnter {
    } else if a == R_ZTDone {
    } else if a == QgroupRescanDone {
    }
  }

  lemma RescanWorks(c: Config, s: State, t: Task, a: RescanAction, s': State)
    requires FireRescan(c, s, t, a) == Some(s') && (a == R_Init || a == R_ZTLock || a == R_ZTUnlock || a == R_Queue)
    ensures a != R_ZTLock && a != R_ZTUnlock ==> SameTree(s, s')
    ensures a != R_Init && a != R_Queue ==> SameWork(s, s')
    ensures MovesUnderSem(s, t, s') && s.pc[t] != Idle
  {
    if a == R_Init {
    } else if a == R_ZTLock {
    } else if a == R_ZTUnlock {
    } else if a == R_Queue {
    }
  }

  lemma RescanSame(c: Config, s: State, t: Task, a: RescanAction, s': State)
    requires FireRescan(c, s, t, a) == Some(s')
    ensures a != R_ZTLock && a != R_ZTUnlock ==> SameTree(s, s')
    ensures a != R_Init && a != R_Queue ==> SameWork(s, s')
  {
    hide SameTree, SameWork, JustMoves, FireRescan;
    if a == R_Init || a == R_ZTLock || a == R_ZTUnlock || a == R_Queue {
      RescanWorks(c, s, t, a, s');
    } else {
      RescanJustMoves(c, s, t, a, s');
      JustMovesSame(s, t, s');
    }
  }

  lemma UnmountJustMoves(c: Config, s: State, t: Task, a: UnmountAction, s': State)
    requires FireUnmount(c, s, t, a) == Some(s')
    requires a == UmountBegin || a == M_WaitRead || a == M_WaitBlocked || a == M_WaitDone || a == M_FreeEnter
    ensures JustMoves(s, t, s')
  {
    if a == UmountBegin {
    } else if a == M_WaitRead {
    } else if a == M_WaitBlocked {
    } else if a == M_WaitDone {
    } else if a == M_FreeEnter {
    }
  }

  lemma UnmountPlaces(c: Config, s: State, t: Task, a: UnmountAction, s': State)
    requires FireUnmount(c, s, t, a) == Some(s') && (a == M_WaitRead || a == M_FreeEnter)
    ensures t in s'.pc && (s'.pc[t] == Um(UmWaitBlock) ==> s.rescanRunning)
    ensures a == M_FreeEnter && c.fix ==> s'.pc[t] == Um(UmFreeLock)
  {
    if a == M_WaitRead {
    } else if a == M_FreeEnter {
    }
  }

  lemma UnmountSleeps(a: UnmountAction, p: PC, q: PC)
    requires UnmountMove(a, p, q) && q == Um(UmWaitBlock)
    ensures a == M_WaitRead
  {
  }

  lemma UnmountWorks(c: Config, s: State, t: Task, a: UnmountAction, s': State)
    requires FireUnmount(c, s, t, a) == Some(s') && (a == M_FreeLock || a == M_FreeDo || a == M_FreeDone)
    ensures a != M_FreeLock && a != M_FreeDo ==> SameTree(s, s')
    ensures a != M_FreeDone ==> SameWork(s, s')
  {
    if a == M_FreeLock {
    } else if a == M_FreeDo {
    }
  }

  lemma UnmountSame(c: Config, s: State, t: Task, a: UnmountAction, s': State)
    requires FireUnmount(c, s, t, a) == Some(s')
    ensures a != M_FreeLock && a != M_FreeDo ==> SameTree(s, s')
    ensures a != M_FreeDone ==> SameWork(s, s')
    ensures t in s'.pc && (s'.pc[t] == Um(UmWaitBlock) ==> s.rescanRunning)
    ensures a == M_FreeEnter && c.fix ==> s'.pc[t] == Um(UmFreeLock)
  {
    hide FireUnmount, UnmountMove, SameTree, SameWork, JustMoves;
    UnmountMoves(c, s, t, a, s');
    if s'.pc[t] == Um(UmWaitBlock) {
      UnmountSleeps(a, s.pc[t], s'.pc[t]);
    }
    if a == M_WaitRead || a == M_FreeEnter {
      UnmountPlaces(c, s, t, a, s');
    }
    if a == M_FreeLock || a == M_FreeDo || a == M_FreeDone {
      UnmountWorks(c, s, t, a, s');
    } else {
      UnmountJustMoves(c, s, t, a, s');
      JustMovesSame(s, t, s');
    }
  }

  lemma WaitJustMoves(c: Config, s: State, t: Task, a: WaitAction, s': State)
    requires FireWait(c, s, t, a) == Some(s')
    ensures JustMoves(s, t, s') && (s.pc[t] == Idle ==> !Closing(s))
  {
    if a == UserWaitEnter {
    } else if a == U_WaitRead {
    } else if a == U_WaitBlocked {
    }
  }

  lemma RescanEnters(c: Config, s: State, t: Task, s': State)
    requires FireRescan(c, s, t, QgroupRescanEnter) == Some(s')
    ensures !Closing(s)
  {
  }

  lemma RescanLeavesIdle(a: RescanAction, p: PC, q: PC)
    requires RescanMove(a, p, q) && p == Idle
    ensures a == QgroupRescanEnter
  {
  }

  lemma RescanUnderSem(c: Config, s: State, t: Task, a: RescanAction, s': State)
    requires FireRescan(c, s, t, a) == Some(s')
    ensures MovesUnderSem(s, t, s') && (s.pc[t] == Idle ==> !Closing(s))
  {
    hide FireRescan, RescanMove, Closing;
    if a == R_Init || a == R_ZTLock || a == R_ZTUnlock || a == R_Queue {
      RescanWorks(c, s, t, a, s');
    } else {
      RescanJustMoves(c, s, t, a, s');
      RescanMoves(c, s, t, a, s');
      if s.pc[t] == Idle {
        RescanLeavesIdle(a, s.pc[t], s'.pc[t]);
        RescanEnters(c, s, t, s');
      }
    }
  }

  lemma UnderSemPlaceEffect(c: Config, s: State, t: Task, s': State)
    requires PcOk(c, s) && MovesUnderSem(s, t, s') && (s.pc[t] == Idle && s'.pc[t] != Idle ==> !Closing(s))
    requires (s.pc[t] == Idle || s.pc[t].Res? || s.pc[t].Wt?) && (s'.pc[t] == Idle || s'.pc[t].Res? || s'.pc[t].Wt?)
    ensures PlaceEffect(c, s, t, s')
  {
  }

  lemma SameTreeEffect(c: Config, s: State, t: Task, s': State)
    requires Locks(c, s) && MovesOnly(c, s, t, s') && SameTree(s, s')
    requires (c.fix ==> !IsFreePC(s.pc[t]) && !IsFreePC(s'.pc[t])) && s'.pc[t] != Wk(WkScan)
    requires IsIteratorPC(s.pc[t]) ==> IsIteratorPC(s'.pc[t])
    ensures TreeEffect(c, s, t, s')
  {
  }

  /** The free loop, from taking the lock to giving it up. */
  lemma FreeTreeEffect(c: Config, s: State, t: Task, s': State)
    requires Locks(c, s) && MovesOnly(c, s, t, s') && s'.iterating == s.iterating
    requires
      || (c.fix && IsFreePC(s'.pc[t]) && s.qgroupLock == NoTask && s'.qgroupLock == t
          && s'.uafOccurred == s.uafOccurred)
      || (IsFreePC(s.pc[t]) && s' == Freed(c, s, t, s'.pc[t]) && !IsFreePC(s'.pc[t]) && s'.pc[t] != Wk(WkScan)
          && (c.fix ==> s.qgroupLock == t))
    ensures TreeEffect(c, s, t, s')
  {
  }

  /** Inside enable or disable subvol_sem stays as it is. */
  lemma InsidePlaceEffect(c: Config, s: State, t: Task, s': State)
    requires PcOk(c, s) && SubvolSemOk(s) && MovesUnderSem(s, t, s')
    requires (s.pc[t].En? && s'.pc[t].En?) || (s.pc[t].Dis? && s'.pc[t].Dis?)
    requires s'.pc[t] == Dis(DisFreeLock) ==> c.fix
    ensures PlaceEffect(c, s, t, s')
  {
  }

  lemma EnableUnderSem(c: Config, s: State, t: Task, a: EnableAction, s': State)
    requires FireEnable(c, s, t, a) == Some(s') && a != QuotaEnableEnter && a != QuotaEnableDone
    ensures MovesUnderSem(s, t, s')
  {
    hide FireEnable;
    if a == E_Check || a == E_SimpleSkip || a == E_ZTEnter || a == E_ZTDone {
      EnableJustMoves(c, s, t, a, s');
    } else if a == E_ZTLock || a == E_ZTUnlock {
      EnableLocks(c, s, t, a, s');
    } else {
      EnableWorks(c, s, t, a, s');
    }
  }

  lemma EnableEndsPlaceEffect(c: Config, s: State, t: Task, a: EnableAction, s': State)
    requires PcOk(c, s) && SubvolSemOk(s) && FireEnable(c, s, t, a) == Some(s')
    requires a == QuotaEnableEnter || a == QuotaEnableDone
    ensures PlaceEffect(c, s, t, s')
  {
    if a == QuotaEnableEnter {
    }
  }

  lemma EnableInside(a: EnableAction, p: PC, q: PC)
    requires EnableMove(a, p, q) && a != QuotaEnableEnter && a != QuotaEnableDone
    ensures p.En? && q.En?
  {
  }

  lemma EnablePlaceEffect(c: Config, s: State, t: Task, a: EnableAction, s': State)
    requires PcOk(c, s) && SubvolSemOk(s) && FireEnable(c, s, t, a) == Some(s')
    ensures PlaceEffect(c, s, t, s')
  {
    hide FireEnable, PcOk, SubvolSemOk, PlaceEffect, EnableMove;
    if a == QuotaEnableEnter || a == QuotaEnableDone {
      EnableEndsPlaceEffect(c, s, t, a, s');
    } else {
      EnableMoves(c, s, t, a, s');
      EnableUnderSem(c, s, t, a, s');
      EnableInside(a, s.pc[t], s'.pc[t]);
      InsidePlaceEffect(c, s, t, s');
    }
  }

  lemma EnableIterates(a: EnableAction, p: PC, q: PC)
    requires EnableMove(a, p, q) && a != E_ZTLock && a != E_ZTUnlock
    ensures !IsFreePC(p) && !IsFreePC(q) && q != Wk(WkScan) && !IsIteratorPC(p)
  {
  }

  lemma EnableTreeEffect(c: Config, s: State, t: Task, a: EnableAction, s': State)
    requires Locks(c, s) && FireEnable(c, s, t, a) == Some(s') && MovesOnly(c, s, t, s')
    ensures TreeEffect(c, s, t, s')
  {
    hide TreeEffect, Locks, MovesOnly, EnableMove, IsFreePC, IsIteratorPC;
    if a == E_ZTLock {
      EnableIterationEffect(c, s, t, a, s');
    } else if a == E_ZTUnlock {
      EnableIterationEffect(c, s, t, a, s');
    } else {
      hide FireEnable;
      EnableMoves(c, s, t, a, s');
      EnableSame(c, s, t, a, s');
      EnableIterates(a, s.pc[t], s'.pc[t]);
      SameTreeEffect(c, s, t, s');
    }
  }

  lemma EnableIterationEffect(c: Config, s: State, t: Task, a: EnableAction, s': State)
    requires Locks(c, s) && FireEnable(c, s, t, a) == Some(s') && MovesOnly(c, s, t, s')
    requires a == E_ZTLock || a == E_ZTUnlock
    ensures TreeEffect(c, s, t, s')
  {
    hide TreeEffect, Locks, MovesOnly;
    if a == E_ZTLock {
      IterationTreeEffect(c, s, t, En(EnZtIter), En(EnZtIter), s');
    } else {
      IterationTreeEffect(c, s, t, En(EnZtIter), En(EnZtDone), s');
    }
  }

  lemma FreesUnderFix(c: Config, s: State, t: Task, s': State)
    requires FireDisable(c, s, t, D_FreeEnter) == Some(s')
    ensures t in s'.pc && (s'.pc[t] == Dis(DisFreeLock) ==> c.fix)
  {
  }

  lemma FreeLockFrom(a: DisableAction, p: PC, q: PC)
    requires DisableMove(a, p, q) && q == Dis(DisFreeLock)
    ensures a == D_FreeEnter
  {
  }

  lemma DisableUnderSem(c: Config, s: State, t: Task, a: DisableAction, s': State)
    requires FireDisable(c, s, t, a) == Some(s') && a != QuotaDisableEnter && a != QuotaDisableDone
    ensures MovesUnderSem(s, t, s') && (s'.pc[t] == Dis(DisFreeLock) ==> c.fix)
  {
    hide FireDisable, DisableMove;
    DisableMoves(c, s, t, a, s');
    if s'.pc[t] == Dis(DisFreeLock) {
      FreeLockFrom(a, s.pc[t], s'.pc[t]);
      FreesUnderFix(c, s, t, s');
    }
    if a == D_ClearEnabled || a == D_ClearRoot || a == D_FreeLock || a == D_FreeDo {
      DisableWorks(c, s, t, a, s');
    } else {
      DisableJustMoves(c, s, t, a, s');
    }
  }

  lemma DisableEndsPlaceEffect(c: Config, s: State, t: Task, a: DisableAction, s': State)
    requires PcOk(c, s) && SubvolSemOk(s) && FireDisable(c, s, t, a) == Some(s')
    requires a == QuotaDisableEnter || a == QuotaDisableDone
    ensures PlaceEffect(c, s, t, s')
  {
    if a == QuotaDisableEnter {
    }
  }

  lemma DisableInside(a: DisableAction, p: PC, q: PC)
    requires DisableMove(a, p, q) && a != QuotaDisableEnter && a != QuotaDisableDone
    ensures p.Dis? && q.Dis?
  {
  }

  lemma DisablePlaceEffect(c: Config, s: State, t: Task, a: DisableAction, s': State)
    requires PcOk(c, s) && SubvolSemOk(s) && FireDisable(c, s, t, a) == Some(s')
    ensures PlaceEffect(c, s, t, s')
  {
    hide FireDisable, PcOk, SubvolSemOk, PlaceEffect, DisableMove;
    if a == QuotaDisableEnter || a == QuotaDisableDone {
      DisableEndsPlaceEffect(c, s, t, a, s');
    } else {
      DisableMoves(c, s, t, a, s');
      DisableUnderSem(c, s, t, a, s');
      DisableInside(a, s.pc[t], s'.pc[t]);
      InsidePlaceEffect(c, s, t, s');
    }
  }

  lemma DisableFreeTreeEffect(c: Config, s: State, t: Task, a: DisableAction, s': State)
    requires Locks(c, s) && FireDisable(c, s, t, a) == Some(s') && MovesOnly(c, s, t, s')
    requires a == D_FreeLock || a == D_FreeDo
    ensures TreeEffect(c, s, t, s')
  {
    hide TreeEffect;
    FreeTreeEffect(c, s, t, s');
  }

  lemma DisableNotFreeing(a: DisableAction, p: PC, q: PC, fix: bool)
    requires DisableMove(a, p, q) && a != D_FreeLock && a != D_FreeDo
    requires a == D_FreeEnter && fix ==> q == Dis(DisFreeLock)
    ensures !IsFreePC(p) && (fix ==> !IsFreePC(q)) && q != Wk(WkScan) && !IsIteratorPC(p)
  {
  }

  lemma DisableTreeEffect(c: Config, s: State, t: Task, a: DisableAction, s': State)
    requires Locks(c, s) && FireDisable(c, s, t, a) == Some(s') && MovesOnly(c, s, t, s')
    ensures TreeEffect(c, s, t, s')
  {
    hide TreeEffect, Locks, MovesOnly, FireDisable, DisableMove, IsFreePC, IsIteratorPC;
    if a == D_FreeLock || a == D_FreeDo {
      DisableFreeTreeEffect(c, s, t, a, s');
    } else {
      DisableMoves(c, s, t, a, s');
      DisableSame(c, s, t, a, s');
      DisableNotFreeing(a, s.pc[t], s'.pc[t], c.fix);
      SameTreeEffect(c, s, t, s');
    }
  }

  lemma RescanKinds(a: RescanAction, p: PC, q: PC)
    requires RescanMove(a, p, q)
    ensures (p == Idle || p.Res?) && (q == Idle || q.Res?)
  {
  }

  lemma RescanPlaceEffect(c: Config, s: State, t: Task, a: RescanAction, s': State)
    requires PcOk(c, s) && SubvolSemOk(s) && FireRescan(c, s, t, a) == Some(s')
    ensures PlaceEffect(c, s, t, s')
  {
    hide FireRescan, PcOk, PlaceEffect, RescanMove, Closing;
    RescanMoves(c, s, t, a, s');
    RescanUnderSem(c, s, t, a, s');
    RescanKinds(a, s.pc[t], s'.pc[t]);
    UnderSemPlaceEffect(c, s, t, s');
  }

  lemma RescanIterates(a: RescanAction, p: PC, q: PC)
    requires RescanMove(a, p, q) && a != R_ZTLock && a != R_ZTUnlock
    ensures !IsFreePC(p) && !IsFreePC(q) && q != Wk(WkScan) && !IsIteratorPC(p)
  {
  }

  lemma RescanIterationEffect(c: Config, s: State, t: Task, a: RescanAction, s': State)
    requires Locks(c, s) && FireRescan(c, s, t, a) == Some(s') && MovesOnly(c, s, t, s')
    requires a == R_ZTLock || a == R_ZTUnlock
    ensures TreeEffect(c, s, t, s')
  {
    hide TreeEffect, Locks, MovesOnly;
    if a == R_ZTLock {
      IterationTreeEffect(c, s, t, Res(ResZtIter), Res(ResZtIter), s');
    } else {
      IterationTreeEffect(c, s, t, Res(ResZtIter), Res(ResZtDone), s');
    }
  }

  lemma RescanTreeEffect(c: Config, s: State, t: Task, a: RescanAction, s': State)
    requires Locks(c, s) && FireRescan(c, s, t, a) == Some(s') && MovesOnly(c, s, t, s')
    ensures TreeEffect(c, s, t, s')
  {
    hide TreeEffect, Locks, MovesOnly, RescanMove, IsFreePC, IsIteratorPC, FireRescan;
    if a == R_ZTLock || a == R_ZTUnlock {
      RescanIterationEffect(c, s, t, a, s');
    } else {
      RescanMoves(c, s, t, a, s');
      RescanSame(c, s, t, a, s');
      RescanIterates(a, s.pc[t], s'.pc[t]);
      SameTreeEffect(c, s, t, s');
    }
  }

  lemma WaitKinds(a: WaitAction, p: PC, q: PC)
    requires WaitMove(a, p, q)
    ensures (p == Idle || p.Wt?) && (q == Idle || q.Wt?)
  {
  }

  lemma WaitPlaceEffect(c: Config, s: State, t: Task, a: WaitAction, s': State)
    requires PcOk(c, s) && FireWait(c, s, t, a) == Some(s')
    ensures PlaceEffect(c, s, t, s')
  {
    hide FireWait, PcOk, PlaceEffect, WaitMove, Closing;
    WaitMoves(c, s, t, a, s');
    WaitJustMoves(c, s, t, a, s');
    WaitKinds(a, s.pc[t], s'.pc[t]);
    UnderSemPlaceEffect(c, s, t, s');
  }

  lemma WaitEffect(c: Config, s: State, t: Task, a: WaitAction, s': State)
    requires Locks(c, s) && FireWait(c, s, t, a) == Some(s')
    ensures Effect(c, s, t, s')
  {
    WaitPlaceEffect(c, s, t, a, s');
    WaitJustMoves(c, s, t, a, s');
    WaitMoves(c, s, t, a, s');
    WaitKinds(a, s.pc[t], s'.pc[t]);
    hide FireWait, Locks, MovesOnly, TreeEffect, SubvolEffect, UnmountEffect, WaitMove;
    SameTreeEffect(c, s, t, s');
  }

  lemma UnmountPlaceEffect(c: Config, s: State, t: Task, a: UnmountAction, s': State)
    requires PcOk(c, s) && SubvolSemOk(s) && FireUnmount(c, s, t, a) == Some(s')
    ensures PlaceEffect(c, s, t, s')
  {
  }

  lemma UnmountFreeTreeEffect(c: Config, s: State, t: Task, a: UnmountAction, s': State)
    requires Locks(c, s) && FireUnmount(c, s, t, a) == Some(s') && MovesOnly(c, s, t, s')
    requires a == M_FreeLock || a == M_FreeDo
    ensures TreeEffect(c, s, t, s')
  {
    hide TreeEffect;
    FreeTreeEffect(c, s, t, s');
  }

  lemma UnmountTreeEffect(c: Config, s: State, t: Task, a: UnmountAction, s': State)
    requires Locks(c, s) && FireUnmount(c, s, t, a) == Some(s') && MovesOnly(c, s, t, s')
    ensures TreeEffect(c, s, t, s')
  {
    hide TreeEffect, Locks, MovesOnly;
    UnmountMoves(c, s, t, a, s');
    if a == M_FreeLock || a == M_FreeDo {
      UnmountFreeTreeEffect(c, s, t, a, s');
    } else {
      UnmountSame(c, s, t, a, s');
      hide FireUnmount;
      SameTreeEffect(c, s, t, s');
    }
  }

  lemma WorkerEffect(c: Config, s: State, a: WorkerAction, s': State)
    requires Locks(c, s) && FireWorker(s, a) == Some(s')
    ensures Effect(c, s, Worker, s')
  {
  }

  lemma EffectKeepsIterators(c: Config, s: State, t: Task, s': State)
    requires PcOk(c, s) && IteratorsOk(c, s) && MovesOnly(c, s, t, s') && LockEffect(c, s, t, s')
    ensures PcOk(c, s') && IteratorsOk(c, s')
  {
  }

  lemma EffectKeepsQgroupLock(c: Config, s: State, t: Task, s': State)
    requires PcOk(c, s) && IteratorsOk(c, s) && QgroupLockOk(c, s) && MovesOnly(c, s, t, s') && LockEffect(c, s, t, s')
    ensures QgroupLockOk(c, s')
  {
  }

  lemma EffectKeepsSubvolSem(c: Config, s: State, t: Task, s': State)
    requires PcOk(c, s) && SubvolSemOk(s) && MovesOnly(c, s, t, s') && SubvolEffect(c, s, t, s')
    ensures SubvolSemOk(s')
  {
  }

  lemma EffectKeepsUnmountAlone(c: Config, s: State, t: Task, s': State)
    requires PcOk(c, s) && UnmountAlone(s) && MovesOnly(c, s, t, s') && UnmountEffect(c, s, t, s')
    ensures UnmountAlone(s')
  {
  }

  lemma StepEffect(c: Config, s: State, a: Step, s': State)
    requires Locks(c, s) && Fire(c, s, a) == Some(s')
    ensures Effect(c, s, Owner(a), s')
  {
    match a
    case Enable(t, e) => EnablePlaceEffect(c, s, t, e, s'); EnableTreeEffect(c, s, t, e, s');
    case Disable(t, d) => DisablePlaceEffect(c, s, t, d, s'); DisableTreeEffect(c, s, t, d, s');
    case Rescan(t, r) => RescanPlaceEffect(c, s, t, r, s'); RescanTreeEffect(c, s, t, r, s');
    case Wait(t, w) => WaitEffect(c, s, t, w, s');
    case Unmount(t, u) => UnmountPlaceEffect(c, s, t, u, s'); UnmountTreeEffect(c, s, t, u, s');
    case Work(w) => WorkerEffect(c, s, w, s');
  }

  lemma StepKeepsLocks(c: Config, s: State, a: Step, s': State)
    requires Locks(c, s) && Fire(c, s, a) == Some(s')
    ensures Locks(c, s') && Effect(c, s, Owner(a), s')
  {
    StepEffect(c, s, a, s');
    EffectKeepsIterators(c, s, Owner(a), s');
    EffectKeepsQgroupLock(c, s, Owner(a), s');
    EffectKeepsSubvolSem(c, s, Owner(a), s');
    EffectKeepsUnmountAlone(c, s, Owner(a), s');
  }

  // ----- No waiter is abandoned -----

  /** A rescan still on its way to queueing the worker stays one under steps of others. */
  lemma PendingSurvives(c: Config, s: State, t: Task, s': State)
    requires RescanPending(s) && MovesOnly(c, s, t, s') && s'.flagOn
    requires !IsPendingRescanPC(s.pc[t]) || IsPendingRescanPC(s'.pc[t])
    ensures RescanPending(s')
  {
    var r :| r in s.pc && IsPendingRescanPC(s.pc[r]);
    assert r in s'.pc && IsPendingRescanPC(s'.pc[r]);
  }

  /** A step that leaves the work alone, and puts no one to sleep without work to come. */
  lemma SameWorkAbandonsNone(c: Config, s: State, t: Task, s': State)
    requires PcOk(c, s) && NoneAbandoned(s) && MovesOnly(c, s, t, s') && SameWork(s, s') && t != Worker
    requires s'.pc[t] == Dis(DisWaitBlock) || s'.pc[t] == Um(UmWaitBlock) ==> s.rescanRunning
    requires IsPendingRescanPC(s.pc[t]) ==> IsPendingRescanPC(s'.pc[t])
    ensures NoneAbandoned(s')
  {
    if RescanPending(s) {
      PendingSurvives(c, s, t, s');
    }
  }

  lemma EnableCreateAbandonsNone(c: Config, s: State, t: Task, s': State)
    requires Gates(c, s) && NoneAbandoned(s) && FireEnable(c, s, t, E_Create) == Some(s')
    ensures NoneAbandoned(s')
  {
  }

  lemma EnableInitAbandonsNone(c: Config, s: State, t: Task, s': State)
    requires Gates(c, s) && NoneAbandoned(s) && FireEnable(c, s, t, E_RescanInit) == Some(s')
    ensures NoneAbandoned(s')
  {
  }

  lemma EnableQueueAbandonsNone(c: Config, s: State, t: Task, s': State)
    requires Gates(c, s) && NoneAbandoned(s) && FireEnable(c, s, t, E_Queue) == Some(s')
    ensures NoneAbandoned(s')
  {
  }

  lemma EnableAbandonsNone(c: Config, s: State, t: Task, a: EnableAction, s': State)
    requires Gates(c, s) && NoneAbandoned(s) && FireEnable(c, s, t, a) == Some(s')
    ensures NoneAbandoned(s')
  {
    hide FireEnable, NoneAbandoned;
    if a == E_Create {
      EnableCreateAbandonsNone(c, s, t, s');
    } else if a == E_RescanInit {
      EnableInitAbandonsNone(c, s, t, s');
    } else if a == E_Queue {
      EnableQueueAbandonsNone(c, s, t, s');
    } else {
      EnableMoves(c, s, t, a, s');
      EnableSame(c, s, t, a, s');
      EnablePlaceEffect(c, s, t, a, s');
      SameWorkAbandonsNone(c, s, t, s');
    }
  }

  lemma ClearRootAbandonsNone(c: Config, s: State, t: Task, s': State)
    requires Gates(c, s) && NoneAbandoned(s) && FireDisable(c, s, t, D_ClearRoot) == Some(s')
    ensures NoneAbandoned(s')
  {
  }

  lemma DisableKinds(a: DisableAction, p: PC, q: PC)
    requires DisableMove(a, p, q)
    ensures (p == Idle || p.Dis?) && (q == Idle || q.Dis?)
  {
  }

  lemma DisableAbandonsNone(c: Config, s: State, t: Task, a: DisableAction, s': State)
    requires Gates(c, s) && NoneAbandoned(s) && FireDisable(c, s, t, a) == Some(s')
    ensures NoneAbandoned(s')
  {
    hide FireDisable, NoneAbandoned, DisableMove, SubvolEffect, UnmountEffect;
    if a == D_ClearRoot {
      ClearRootAbandonsNone(c, s, t, s');
    } else {
      DisableMoves(c, s, t, a, s');
      DisableSame(c, s, t, a, s');
      DisableKinds(a, s.pc[t], s'.pc[t]);
      DisablePlaceEffect(c, s, t, a, s');
      SameWorkAbandonsNone(c, s, t, s');
    }
  }

  lemma NobodyUnmounts(c: Config, s: State, t: Task)
    requires Gates(c, s) && t in s.pc && s.pc[t].Res?
    ensures t != Worker && Worker in s.pc && forall u :: u in s.pc ==> !s.pc[u].Um?
  {
  }

  /** A rescan that begins resets the completion, but is itself on its way to queue. */
  lemma RescanBeginsPending(c: Config, s: State, t: Task, s': State)
    requires FireRescan(c, s, t, R_Init) == Some(s') && t in s'.pc && s'.pc[t] == Res(ResCommit)
    ensures RescanPending(s') && s'.rescanRunning == s.rescanRunning && s'.workerQueued == s.workerQueued
    ensures t in s.pc && s.pc[t] == Res(ResInit) && s'.pc == s.pc[t := Res(ResCommit)]
  {
    assert IsPendingRescanPC(s'.pc[t]);
  }

  lemma RescanTurnsBack(c: Config, s: State, t: Task, s': State)
    requires FireRescan(c, s, t, R_Init) == Some(s') && (t in s'.pc ==> s'.pc[t] != Res(ResCommit))
    ensures JustMoves(s, t, s') && s.pc[t] == Res(ResInit) && s'.pc[t] == Res(ResDone)
  {
  }

  lemma PendingAbandonsNone(c: Config, s: State, t: Task, s': State)
    requires Gates(c, s) && NoneAbandoned(s) && FireRescan(c, s, t, R_Init) == Some(s') && t in s'.pc
    requires s'.pc[t] == Res(ResCommit)
    ensures NoneAbandoned(s')
  {
    RescanBeginsPending(c, s, t, s');
    NobodyUnmounts(c, s, t);
    hide FireRescan, Gates, RescanPending;
  }

  lemma RescanInitAbandonsNone(c: Config, s: State, t: Task, s': State)
    requires Gates(c, s) && NoneAbandoned(s) && FireRescan(c, s, t, R_Init) == Some(s')
    ensures NoneAbandoned(s')
  {
    RescanMoves(c, s, t, R_Init, s');
    RescanPlaceEffect(c, s, t, R_Init, s');
    if s'.pc[t] == Res(ResCommit) {
      hide FireRescan, NoneAbandoned, PlaceEffect;
      PendingAbandonsNone(c, s, t, s');
    } else {
      RescanTurnsBack(c, s, t, s');
      hide FireRescan, NoneAbandoned;
      SameWorkAbandonsNone(c, s, t, s');
    }
  }

  lemma RescanQueueAbandonsNone(c: Config, s: State, t: Task, s': State)
    requires Gates(c, s) && NoneAbandoned(s) && FireRescan(c, s, t, R_Queue) == Some(s')
    ensures NoneAbandoned(s')
  {
  }

  lemma PendingStays(a: RescanAction, p: PC, q: PC)
    requires RescanMove(a, p, q) && a != R_Init && a != R_Queue
    ensures IsPendingRescanPC(p) ==> IsPendingRescanPC(q)
  {
  }

  lemma RescanAbandonsNone(c: Config, s: State, t: Task, a: RescanAction, s': State)
    requires Gates(c, s) && NoneAbandoned(s) && FireRescan(c, s, t, a) == Some(s')
    ensures NoneAbandoned(s')
  {
    RescanMoves(c, s, t, a, s');
    RescanKinds(a, s.pc[t], s'.pc[t]);
    hide FireRescan, NoneAbandoned, RescanMove, SubvolEffect, UnmountEffect;
    if a == R_Init {
      RescanInitAbandonsNone(c, s, t, s');
    } else if a == R_Queue {
      RescanQueueAbandonsNone(c, s, t, s');
    } else {
      RescanPlaceEffect(c, s, t, a, s');
      RescanSame(c, s, t, a, s');
      PendingStays(a, s.pc[t], s'.pc[t]);
      SameWorkAbandonsNone(c, s, t, s');
    }
  }

  lemma WaitAbandonsNone(c: Config, s: State, t: Task, a: WaitAction, s': State)
    requires Gates(c, s) && NoneAbandoned(s) && FireWait(c, s, t, a) == Some(s')
    ensures NoneAbandoned(s')
  {
    WaitPlaceEffect(c, s, t, a, s');
    WaitJustMoves(c, s, t, a, s');
    WaitMoves(c, s, t, a, s');
    WaitKinds(a, s.pc[t], s'.pc[t]);
    hide FireWait, NoneAbandoned, WaitMove, SubvolEffect, UnmountEffect;
    SameWorkAbandonsNone(c, s, t, s');
  }

  lemma UnmountEndAbandonsNone(c: Config, s: State, t: Task, s': State)
    requires Gates(c, s) && NoneAbandoned(s) && FireUnmount(c, s, t, M_FreeDone) == Some(s')
    ensures NoneAbandoned(s')
  {
  }

  lemma UnmountAbandonsNone(c: Config, s: State, t: Task, a: UnmountAction, s': State)
    requires Gates(c, s) && NoneAbandoned(s) && FireUnmount(c, s, t, a) == Some(s')
    ensures NoneAbandoned(s')
  {
    hide FireUnmount, NoneAbandoned;
    if a == M_FreeDone {
      UnmountEndAbandonsNone(c, s, t, s');
    } else {
      UnmountMoves(c, s, t, a, s');
      UnmountSame(c, s, t, a, s');
      UnmountPlaceEffect(c, s, t, a, s');
      SameWorkAbandonsNone(c, s, t, s');
    }
  }

  lemma WorkerAbandonsNone(c: Config, s: State, a: WorkerAction, s': State)
    requires Gates(c, s) && NoneAbandoned(s) && FireWorker(s, a) == Some(s')
    ensures NoneAbandoned(s')
  {
    if RescanPending(s) {
      PendingSurvives(c, s, Worker, s');
    }
  }

  lemma StepAbandonsNone(c: Config, s: State, a: Step, s': State)
    requires Gates(c, s) && NoneAbandoned(s) && Fire(c, s, a) == Some(s')
    ensures NoneAbandoned(s')
  {
    match a
    case Enable(t, e) => EnableAbandonsNone(c, s, t, e, s');
    case Disable(t, d) => DisableAbandonsNone(c, s, t, d, s');
    case Rescan(t, r) => RescanAbandonsNone(c, s, t, r, s');
    case Wait(t, w) => WaitAbandonsNone(c, s, t, w, s');
    case Unmount(t, u) => UnmountAbandonsNone(c, s, t, u, s');
    case Work(w) => WorkerAbandonsNone(c, s, w, s');
  }

  lemma {:induction false} RunKeepsInv(c: Config, steps: seq<Step>)
    requires After(c, Init(c), steps).Some?
    ensures Inv(c, After(c, Init(c), steps).value)
    decreases |steps|
  {
    if steps == [] {
      InitInv(c);
    } else {
      var shorter := steps[..|steps| - 1];
      RunKeepsInv(c, shorter);
      var s, a := After(c, Init(c), shorter).value, steps[|steps| - 1];
      StepKeepsLocks(c, s, a, Fire(c, s, a).value);
      StepAbandonsNone(c, s, a, Fire(c, s, a).value);
    }
  }
}
