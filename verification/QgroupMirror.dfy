/** Each step of the life cycle that takes no lock region can be taken, with the same
    effect, in the state in which nobody is under a lock, whatever the other tasks'
    places and whether or not the kernel has the fix. */
module QgroupMirror {
  import opened Options
  import opened QgroupLifecycle

  function DisableFreeStart(fix: bool): PC { Dis(if fix then DisFreeLock else DisFreeDo) }

  function UnmountFreeStart(fix: bool): PC { Um(if fix then UmFreeLock else UmFreeDo) }

  /** The state with nobody under a lock and the tasks at these places. */
  function Unlocked(s: State, dp: map<Task, PC>): State {
    s.(qgroupLock := NoTask, iterating := {}, uafOccurred := false, pc := dp)
  }

  lemma RescanInitMirrors(c: Config, s: State, t: Task, s': State, c': Config, dp: map<Task, PC>)
    requires FireRescan(c, s, t, R_Init) == Some(s') && t in s.pc && t in dp && dp[t] == s.pc[t]
    requires s.rescanLock == NoTask
    ensures t in s'.pc && FireRescan(c', Unlocked(s, dp), t, R_Init) == Some(Unlocked(s', dp[t := s'.pc[t]]))
  {
    var d := Unlocked(s, dp);
    if s.flagRescan || !s.flagOn {
      assert FireRescan(c', d, t, R_Init) == Some(d.(pc := dp[t := Res(ResDone)]));
    } else {
      assert FireRescan(c', d, t, R_Init)
          == Some(d.(flagRescan := true, completionDone := false, pc := dp[t := Res(ResCommit)]));
    }
  }

  lemma EnableInitMirrors(c: Config, s: State, t: Task, s': State, c': Config, dp: map<Task, PC>)
    requires FireEnable(c, s, t, E_RescanInit) == Some(s') && t in s.pc && t in dp && dp[t] == s.pc[t]
    requires s.rescanLock == NoTask
    ensures t in s'.pc && FireEnable(c', Unlocked(s, dp), t, E_RescanInit) == Some(Unlocked(s', dp[t := s'.pc[t]]))
  {
    var d := Unlocked(s, dp);
    if s.flagRescan {
      assert FireEnable(c', d, t, E_RescanInit) == Some(d.(pc := dp[t := En(EnDone)]));
    } else {
      assert FireEnable(c', d, t, E_RescanInit)
          == Some(d.(flagRescan := true, completionDone := false, pc := dp[t := En(EnZtEnter)]));
    }
  }

  lemma EnableEndsMirror(c: Config, s: State, t: Task, a: EnableAction, s': State, c': Config, dp: map<Task, PC>)
    requires FireEnable(c, s, t, a) == Some(s') && t in s.pc && t in dp && dp[t] == s.pc[t]
    requires IsUser(c', t) && s.rescanLock == NoTask && (Closing(Unlocked(s, dp)) <==> Closing(s))
    requires a == QuotaEnableEnter || a == E_ZTEnter || a == E_ZTDone || a == E_Queue || a == QuotaEnableDone
    ensures t in s'.pc && FireEnable(c', Unlocked(s, dp), t, a) == Some(Unlocked(s', dp[t := s'.pc[t]]))
  {
    hide Closing;
    if a == QuotaEnableEnter {
    } else if a == E_ZTEnter {
    } else if a == E_ZTDone {
    } else if a == E_Queue {
    } else if a == QuotaEnableDone {
    }
  }

  lemma EnableBodyMirrors(c: Config, s: State, t: Task, a: EnableAction, s': State, c': Config, dp: map<Task, PC>)
    requires FireEnable(c, s, t, a) == Some(s') && t in s.pc && t in dp && dp[t] == s.pc[t]
    requires IsUser(c', t) && s.rescanLock == NoTask && (Closing(Unlocked(s, dp)) <==> Closing(s))
    requires a == E_Check || a == E_Create || a == E_SetRoot || a == E_SimpleSkip
    ensures t in s'.pc && FireEnable(c', Unlocked(s, dp), t, a) == Some(Unlocked(s', dp[t := s'.pc[t]]))
  {
    hide Closing;
    if a == E_Check {
    } else if a == E_Create {
    } else if a == E_SetRoot {
    } else if a == E_SimpleSkip {
    }
  }

  lemma EnableMirrors(c: Config, s: State, t: Task, a: EnableAction, s': State, c': Config, dp: map<Task, PC>)
    requires FireEnable(c, s, t, a) == Some(s') && t in s.pc && t in dp && dp[t] == s.pc[t]
    requires IsUser(c', t) && s.rescanLock == NoTask && (Closing(Unlocked(s, dp)) <==> Closing(s))
    requires a != E_ZTLock && a != E_ZTUnlock
    ensures t in s'.pc && FireEnable(c', Unlocked(s, dp), t, a) == Some(Unlocked(s', dp[t := s'.pc[t]]))
  {
    hide FireEnable, Closing, Unlocked;
    if a == E_RescanInit {
      EnableInitMirrors(c, s, t, s', c', dp);
    } else if a == E_Check || a == E_Create || a == E_SetRoot || a == E_SimpleSkip {
      EnableBodyMirrors(c, s, t, a, s', c', dp);
    } else {
      EnableEndsMirror(c, s, t, a, s', c', dp);
    }
  }

  lemma DisableWaitMirrors(c: Config, s: State, t: Task, a: DisableAction, s': State, c': Config, dp: map<Task, PC>)
    requires FireDisable(c, s, t, a) == Some(s') && t in s.pc && t in dp && dp[t] == s.pc[t]
    requires IsUser(c', t) && s.rescanLock == NoTask && (Closing(Unlocked(s, dp)) <==> Closing(s))
    requires a == D_ClearEnabled || a == D_WaitEnter || a == D_WaitRead || a == D_WaitBlocked || a == D_WaitDone
    ensures t in s'.pc && FireDisable(c', Unlocked(s, dp), t, a) == Some(Unlocked(s', dp[t := s'.pc[t]]))
  {
    hide Closing, Freed;
    if a == D_ClearEnabled {
    } else if a == D_WaitEnter {
    } else if a == D_WaitRead {
    } else if a == D_WaitBlocked {
    } else if a == D_WaitDone {
    }
  }

  lemma DisableRestMirrors(c: Config, s: State, t: Task, a: DisableAction, s': State, c': Config, dp: map<Task, PC>)
    requires FireDisable(c, s, t, a) == Some(s') && t in s.pc && t in dp && dp[t] == s.pc[t]
    requires IsUser(c', t) && s.rescanLock == NoTask && (Closing(Unlocked(s, dp)) <==> Closing(s))
    requires a == D_Check || a == D_Trans || a == D_FreeDone || a == D_Clean
    ensures t in s'.pc && FireDisable(c', Unlocked(s, dp), t, a) == Some(Unlocked(s', dp[t := s'.pc[t]]))
  {
    hide Closing, Freed;
    if a == D_Check {
    } else if a == D_Trans {
    } else if a == D_FreeDone {
    } else if a == D_Clean {
    }
  }

  lemma DisableEndsMirror(c: Config, s: State, t: Task, a: DisableAction, s': State, c': Config, dp: map<Task, PC>)
    requires FireDisable(c, s, t, a) == Some(s') && t in s.pc && t in dp && dp[t] == s.pc[t]
    requires IsUser(c', t) && s.rescanLock == NoTask && (Closing(Unlocked(s, dp)) <==> Closing(s))
    requires a == QuotaDisableEnter || a == D_ClearRoot || a == QuotaDisableDone
    ensures t in s'.pc && FireDisable(c', Unlocked(s, dp), t, a) == Some(Unlocked(s', dp[t := s'.pc[t]]))
  {
    hide Closing, Freed;
    if a == QuotaDisableEnter {
    } else if a == D_ClearRoot {
    } else if a == QuotaDisableDone {
    }
  }

  lemma DisableMirrors(c: Config, s: State, t: Task, a: DisableAction, s': State, c': Config, dp: map<Task, PC>)
    requires FireDisable(c, s, t, a) == Some(s') && t in s.pc && t in dp && dp[t] == s.pc[t]
    requires IsUser(c', t) && s.rescanLock == NoTask && (Closing(Unlocked(s, dp)) <==> Closing(s))
    requires a != D_FreeEnter && a != D_FreeLock && a != D_FreeDo
    ensures t in s'.pc && FireDisable(c', Unlocked(s, dp), t, a) == Some(Unlocked(s', dp[t := s'.pc[t]]))
  {
    hide FireDisable, Closing, Unlocked;
    if a == D_ClearEnabled || a == D_WaitEnter || a == D_WaitRead || a == D_WaitBlocked || a == D_WaitDone {
      DisableWaitMirrors(c, s, t, a, s', c', dp);
    } else if a == QuotaDisableEnter || a == D_ClearRoot || a == QuotaDisableDone {
      DisableEndsMirror(c, s, t, a, s', c', dp);
    } else {
      DisableRestMirrors(c, s, t, a, s', c', dp);
    }
  }

  lemma RescanRestMirrors(c: Config, s: State, t: Task, a: RescanAction, s': State, c': Config, dp: map<Task, PC>)
    requires FireRescan(c, s, t, a) == Some(s') && t in s.pc && t in dp && dp[t] == s.pc[t]
    requires IsUser(c', t) && s.rescanLock == NoTask && (Closing(Unlocked(s, dp)) <==> Closing(s))
    requires a != R_Init && a != R_ZTLock && a != R_ZTUnlock
    ensures t in s'.pc && FireRescan(c', Unlocked(s, dp), t, a) == Some(Unlocked(s', dp[t := s'.pc[t]]))
  {
    hide Closing;
    match a
    case QgroupRescanEnter =>
    case R_Init =>
    case R_Commit =>
    case R_ZTEnter =>
    case R_ZTLock =>
    case R_ZTUnlock =>
    case R_ZTDone =>
    case R_Queue =>
    case QgroupRescanDone =>
  }

  lemma RescanMirrors(c: Config, s: State, t: Task, a: RescanAction, s': State, c': Config, dp: map<Task, PC>)
    requires FireRescan(c, s, t, a) == Some(s') && t in s.pc && t in dp && dp[t] == s.pc[t]
    requires IsUser(c', t) && s.rescanLock == NoTask && (Closing(Unlocked(s, dp)) <==> Closing(s))
    requires a != R_ZTLock && a != R_ZTUnlock
    ensures t in s'.pc && FireRescan(c', Unlocked(s, dp), t, a) == Some(Unlocked(s', dp[t := s'.pc[t]]))
  {
    hide FireRescan, Closing, Unlocked;
    if a == R_Init {
      RescanInitMirrors(c, s, t, s', c', dp);
    } else {
      RescanRestMirrors(c, s, t, a, s', c', dp);
    }
  }

  lemma WaitMirrors(c: Config, s: State, t: Task, a: WaitAction, s': State, c': Config, dp: map<Task, PC>)
    requires FireWait(c, s, t, a) == Some(s') && t in s.pc && t in dp && dp[t] == s.pc[t]
    requires IsUser(c', t) && s.rescanLock == NoTask && (Closing(Unlocked(s, dp)) <==> Closing(s))
    ensures t in s'.pc && FireWait(c', Unlocked(s, dp), t, a) == Some(Unlocked(s', dp[t := s'.pc[t]]))
  {
    hide Closing;
    match a
    case UserWaitEnter =>
    case U_WaitRead =>
    case U_WaitBlocked =>
    case UserWaitDone =>
  }

  lemma UnmountMirrors(c: Config, s: State, t: Task, a: UnmountAction, s': State, c': Config, dp: map<Task, PC>)
    requires FireUnmount(c, s, t, a) == Some(s') && t in s.pc && t in dp && dp[t] == s.pc[t]
    requires IsUser(c', t) && s.rescanLock == NoTask
    requires a == UmountBegin ==> forall u :: u in dp && u != t && u.User? ==> dp[u] == Idle
    requires a != M_FreeEnter && a != M_FreeLock && a != M_FreeDo
    ensures t in s'.pc && FireUnmount(c', Unlocked(s, dp), t, a) == Some(Unlocked(s', dp[t := s'.pc[t]]))
  {
    match a
    case UmountBegin =>
    case M_WaitRead =>
    case M_WaitBlocked =>
    case M_WaitDone =>
    case M_FreeEnter =>
    case M_FreeLock =>
    case M_FreeDo =>
    case M_FreeDone =>
  }

  lemma WorkerMirrors(s: State, a: WorkerAction, s': State, dp: map<Task, PC>)
    requires FireWorker(s, a) == Some(s') && Worker in s.pc && Worker in dp && dp[Worker] == s.pc[Worker]
    requires s.rescanLock == NoTask && (Closing(Unlocked(s, dp)) <==> Closing(s))
    requires a != W_ScanLock && a != W_ScanUnlock
    ensures Worker in s'.pc && FireWorker(Unlocked(s, dp), a) == Some(Unlocked(s', dp[Worker := s'.pc[Worker]]))
  {
    hide Closing;
    match a
    case WorkerStart =>
    case W_ScanLock =>
    case W_ScanUnlock =>
    case W_ExitLoop =>
    case W_Finish =>
    case WorkerDone =>
  }

  /** The start of the free, which depends on the kernel. */
  lemma FreeEnterMirrors(c: Config, s: State, t: Task, s': State, c': Config, dp: map<Task, PC>)
    requires FireDisable(c, s, t, D_FreeEnter) == Some(s') && t in s.pc && t in dp && dp[t] == s.pc[t]
    ensures FireDisable(c', Unlocked(s, dp), t, D_FreeEnter)
              == Some(Unlocked(s', dp[t := DisableFreeStart(c'.fix)]))
    ensures s'.pc == s.pc[t := DisableFreeStart(c.fix)]
  {
  }

  lemma UnmountFreeEnterMirrors(c: Config, s: State, t: Task, s': State, c': Config, dp: map<Task, PC>)
    requires FireUnmount(c, s, t, M_FreeEnter) == Some(s') && t in s.pc && t in dp && dp[t] == s.pc[t]
    ensures FireUnmount(c', Unlocked(s, dp), t, M_FreeEnter)
              == Some(Unlocked(s', dp[t := UnmountFreeStart(c'.fix)]))
    ensures s'.pc == s.pc[t := UnmountFreeStart(c.fix)]
  {
  }
}
