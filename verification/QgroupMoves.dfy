/** Where each step of the qgroup life cycle takes its task's program counter. */
module QgroupMoves {
  import opened Options
  import opened QgroupLifecycle

  /** Where an enabling task comes from and goes. */
  predicate EnableMove(a: EnableAction, p: PC, q: PC) {
    match a
    case QuotaEnableEnter => p == Idle && q == En(EnCheck)
    case E_Check => p == En(EnCheck) && (q == En(EnDone) || q == En(EnCreate))
    case E_Create => p == En(EnCreate) && q == En(EnSetRoot)
    case E_SetRoot => p == En(EnSetRoot) && q == En(EnRescanInit)
    case E_SimpleSkip => p == En(EnRescanInit) && q == En(EnDone)
    case E_RescanInit => p == En(EnRescanInit) && (q == En(EnDone) || q == En(EnZtEnter))
    case E_ZTEnter => p == En(EnZtEnter) && q == En(EnZtIter)
    case E_ZTLock => p == En(EnZtIter) && q == En(EnZtIter)
    case E_ZTUnlock => p == En(EnZtIter) && q == En(EnZtDone)
    case E_ZTDone => p == En(EnZtDone) && q == En(EnQueue)
    case E_Queue => p == En(EnQueue) && q == En(EnDone)
    case QuotaEnableDone => p == En(EnDone) && q == Idle
  }

  lemma EnableMoves(c: Config, s: State, t: Task, a: EnableAction, s': State)
    requires FireEnable(c, s, t, a) == Some(s')
    ensures t in s.pc && t in s'.pc && EnableMove(a, s.pc[t], s'.pc[t])
  {
    match a
    case QuotaEnableEnter =>
    case E_Check =>
    case E_Create =>
    case E_SetRoot =>
    case E_SimpleSkip =>
    case E_RescanInit =>
    case E_ZTEnter =>
    case E_ZTLock =>
    case E_ZTUnlock =>
    case E_ZTDone =>
    case E_Queue =>
    case QuotaEnableDone =>
  }

  /** Where a disabling task comes from and goes. */
  predicate DisableMove(a: DisableAction, p: PC, q: PC) {
    match a
    case QuotaDisableEnter => p == Idle && q == Dis(DisCheck)
    case D_Check => p == Dis(DisCheck) && (q == Dis(DisDone) || q == Dis(DisClearEnabled))
    case D_ClearEnabled => p == Dis(DisClearEnabled) && q == Dis(DisWaitEnter)
    case D_WaitEnter => p == Dis(DisWaitEnter) && q == Dis(DisWaitRead)
    case D_WaitRead => p == Dis(DisWaitRead) && (q == Dis(DisWaitBlock) || q == Dis(DisWaitDone))
    case D_WaitBlocked => p == Dis(DisWaitBlock) && q == Dis(DisWaitDone)
    case D_WaitDone => p == Dis(DisWaitDone) && q == Dis(DisTrans)
    case D_Trans => p == Dis(DisTrans) && q == Dis(DisClearRoot)
    case D_ClearRoot => p == Dis(DisClearRoot) && q == Dis(DisFreeEnter)
    case D_FreeEnter => p == Dis(DisFreeEnter) && (q == Dis(DisFreeLock) || q == Dis(DisFreeDo))
    case D_FreeLock => p == Dis(DisFreeLock) && q == Dis(DisFreeDo)
    case D_FreeDo => p == Dis(DisFreeDo) && q == Dis(DisFreeDone)
    case D_FreeDone => p == Dis(DisFreeDone) && q == Dis(DisClean)
    case D_Clean => p == Dis(DisClean) && q == Dis(DisDone)
    case QuotaDisableDone => p == Dis(DisDone) && q == Idle
  }

  lemma DisableMoves(c: Config, s: State, t: Task, a: DisableAction, s': State)
    requires FireDisable(c, s, t, a) == Some(s')
    ensures t in s.pc && t in s'.pc && DisableMove(a, s.pc[t], s'.pc[t])
  {
    match a
    case QuotaDisableEnter =>
    case D_Check =>
    case D_ClearEnabled =>
    case D_WaitEnter =>
    case D_WaitRead =>
    case D_WaitBlocked =>
    case D_WaitDone =>
    case D_Trans =>
    case D_ClearRoot =>
    case D_FreeEnter =>
    case D_FreeLock =>
    case D_FreeDo =>
    case D_FreeDone =>
    case D_Clean =>
    case QuotaDisableDone =>
  }

  /** Where a rescanning task comes from and goes. */
  predicate RescanMove(a: RescanAction, p: PC, q: PC) {
    match a
    case QgroupRescanEnter => p == Idle && q == Res(ResInit)
    case R_Init => p == Res(ResInit) && (q == Res(ResDone) || q == Res(ResCommit))
    case R_Commit => p == Res(ResCommit) && q == Res(ResZtEnter)
    case R_ZTEnter => p == Res(ResZtEnter) && q == Res(ResZtIter)
    case R_ZTLock => p == Res(ResZtIter) && q == Res(ResZtIter)
    case R_ZTUnlock => p == Res(ResZtIter) && q == Res(ResZtDone)
    case R_ZTDone => p == Res(ResZtDone) && q == Res(ResQueue)
    case R_Queue => p == Res(ResQueue) && q == Res(ResDone)
    case QgroupRescanDone => p == Res(ResDone) && q == Idle
  }

  lemma RescanMoves(c: Config, s: State, t: Task, a: RescanAction, s': State)
    requires FireRescan(c, s, t, a) == Some(s')
    ensures t in s.pc && t in s'.pc && RescanMove(a, s.pc[t], s'.pc[t])
  {
    match a
    case QgroupRescanEnter =>
    case R_Init =>
    case R_Commit =>
    case R_ZTEnter =>
    case R_ZTLock =>
    case R_ZTUnlock =>
    case R_ZTDone =>
    case R_Queue =>
    case QgroupRescanDone =>
  }

  /** Where a waiting task comes from and goes. */
  predicate WaitMove(a: WaitAction, p: PC, q: PC) {
    match a
    case UserWaitEnter => p == Idle && q == Wt(WaitRead)
    case U_WaitRead => p == Wt(WaitRead) && (q == Wt(WaitBlock) || q == Wt(WaitDone))
    case U_WaitBlocked => p == Wt(WaitBlock) && q == Wt(WaitDone)
    case UserWaitDone => p == Wt(WaitDone) && q == Idle
  }

  lemma WaitMoves(c: Config, s: State, t: Task, a: WaitAction, s': State)
    requires FireWait(c, s, t, a) == Some(s')
    ensures t in s.pc && t in s'.pc && WaitMove(a, s.pc[t], s'.pc[t])
  {
    match a
    case UserWaitEnter =>
    case U_WaitRead =>
    case U_WaitBlocked =>
    case UserWaitDone =>
  }

  /** Where an unmounting task comes from and goes. */
  predicate UnmountMove(a: UnmountAction, p: PC, q: PC) {
    match a
    case UmountBegin => p == Idle && q == Um(UmWaitRead)
    case M_WaitRead => p == Um(UmWaitRead) && (q == Um(UmWaitBlock) || q == Um(UmWaitDone))
    case M_WaitBlocked => p == Um(UmWaitBlock) && q == Um(UmWaitDone)
    case M_WaitDone => p == Um(UmWaitDone) && q == Um(UmFreeEnter)
    case M_FreeEnter => p == Um(UmFreeEnter) && (q == Um(UmFreeLock) || q == Um(UmFreeDo))
    case M_FreeLock => p == Um(UmFreeLock) && q == Um(UmFreeDo)
    case M_FreeDo => p == Um(UmFreeDo) && q == Um(UmFreeDone)
    case M_FreeDone => p == Um(UmFreeDone) && q == Idle
  }

  lemma UnmountMoves(c: Config, s: State, t: Task, a: UnmountAction, s': State)
    requires FireUnmount(c, s, t, a) == Some(s')
    ensures t in s.pc && t in s'.pc && UnmountMove(a, s.pc[t], s'.pc[t])
  {
    match a
    case UmountBegin =>
    case M_WaitRead =>
    case M_WaitBlocked =>
    case M_WaitDone =>
    case M_FreeEnter =>
    case M_FreeLock =>
    case M_FreeDo =>
    case M_FreeDone =>
  }

  /** Where the worker comes from and goes. */
  predicate WorkerMove(a: WorkerAction, p: PC, q: PC) {
    match a
    case WorkerStart => p == Wk(WkIdle) && q == Wk(WkRun)
    case W_ScanLock => p == Wk(WkRun) && q == Wk(WkScan)
    case W_ScanUnlock => p == Wk(WkScan) && q == Wk(WkRun)
    case W_ExitLoop => p == Wk(WkRun) && q == Wk(WkFinish)
    case W_Finish => p == Wk(WkFinish) && q == Wk(WkExit)
    case WorkerDone => p == Wk(WkExit) && q == Wk(WkIdle)
  }

  lemma WorkerMoves(s: State, a: WorkerAction, s': State)
    requires FireWorker(s, a) == Some(s')
    ensures Worker in s.pc && Worker in s'.pc && WorkerMove(a, s.pc[Worker], s'.pc[Worker])
  {
    match a
    case WorkerStart =>
    case W_ScanLock =>
    case W_ScanUnlock =>
    case W_ExitLoop =>
    case W_Finish =>
    case WorkerDone =>
  }

  /** Where a step's task comes from and goes. */
  predicate StepMove(a: Step, p: PC, q: PC) {
    match a
    case Enable(_, e) => EnableMove(e, p, q)
    case Disable(_, d) => DisableMove(d, p, q)
    case Rescan(_, r) => RescanMove(r, p, q)
    case Wait(_, w) => WaitMove(w, p, q)
    case Unmount(_, u) => UnmountMove(u, p, q)
    case Work(w) => WorkerMove(w, p, q)
  }

  lemma StepMoves(c: Config, s: State, a: Step, s': State)
    requires Fire(c, s, a) == Some(s')
    ensures var t := Owner(a); t in s.pc && t in s'.pc && StepMove(a, s.pc[t], s'.pc[t])
  {
    hide FireEnable, FireDisable, FireRescan, FireWait, FireUnmount, FireWorker;
    match a
    case Enable(t, e) => EnableMoves(c, s, t, e, s');
    case Disable(t, d) => DisableMoves(c, s, t, d, s');
    case Rescan(t, r) => RescanMoves(c, s, t, r, s');
    case Wait(t, w) => WaitMoves(c, s, t, w, s');
    case Unmount(t, u) => UnmountMoves(c, s, t, u, s');
    case Work(w) => WorkerMoves(s, w, s');
  }

  lemma UnmountBegins(a: Step, p: PC, q: PC)
    requires StepMove(a, p, q) && q.Um? && !p.Um?
    ensures a.Unmount? && a.unmount == UmountBegin
  {
  }

  lemma UnmountEnds(a: Step, p: PC, q: PC)
    requires StepMove(a, p, q) && p.Um? && !q.Um?
    ensures a.Unmount? && a.unmount == M_FreeDone
  {
  }

  lemma DisableEnds(a: Step, p: PC, q: PC)
    requires StepMove(a, p, q) && p.Dis? && !q.Dis?
    ensures a.Disable? && a.disable == QuotaDisableDone
  {
  }

  lemma UnmountMovesOnly(a: Step, p: PC, q: PC)
    requires StepMove(a, p, q) && p.Um?
    ensures a.Unmount?
  {
  }

  /** A task leaves its idle place with an event. */
  lemma IdleMoves(a: Step, p: PC, q: PC)
    requires StepMove(a, p, q) && p == Idle
    ensures Observable(a) && !a.Work?
  {
  }

  lemma WorkerMovesOnly(a: Step, p: PC, q: PC)
    requires StepMove(a, p, q) && p.Wk?
    ensures a.Work?
  {
  }
}
