/** Stretches of the qgroup life cycle that the counterexample runs share. Each
    starts in any state that lets task t through and says where it ends. */
module QgroupScenarios {
  import opened QgroupLifecycle

  /** Enable creates the quota tree and publishes the quota root. */
  lemma EnableToRescanInit(c: Config, trace: seq<Event>, s: State, t: Task) returns (trace': seq<Event>, s': State)
    requires Reaches(c, trace, s) && IsUser(c, t) && At(s, t, Idle) && !Closing(s)
    requires s.subvolSem == NoTask && s.qgroupLock == NoTask && !s.quotaRoot
    ensures Reaches(c, trace', s')
    ensures s' == s.(quotaRoot := true, quotaEnabled := true, flagOn := true, flagRescan := false,
                     subvolSem := t, pc := s.pc[t := En(EnRescanInit)])
  {
    hide Reaches;
    trace', s' := Go(c, trace, s, Enable(t, QuotaEnableEnter));
    trace', s' := Go(c, trace', s', Enable(t, E_Check));
    trace', s' := Go(c, trace', s', Enable(t, E_Create));
    trace', s' := Go(c, trace', s', Enable(t, E_SetRoot));
    assert s'.pc == s.pc[t := En(EnRescanInit)];
  }

  /** Simple quotas: the rescan machinery is skipped. */
  lemma EnableSimply(c: Config, trace: seq<Event>, s: State, t: Task) returns (trace': seq<Event>, s': State)
    requires Reaches(c, trace, s) && IsUser(c, t) && At(s, t, En(EnRescanInit)) && s.subvolSem == t
    ensures Reaches(c, trace', s') && s' == s.(subvolSem := NoTask, pc := s.pc[t := Idle])
  {
    hide Reaches;
    trace', s' := Go(c, trace, s, Enable(t, E_SimpleSkip));
    trace', s' := Go(c, trace', s', Enable(t, QuotaEnableDone));
    assert s'.pc == s.pc[t := Idle];
  }

  /** Full quotas: zero tracking under the qgroup lock. */
  lemma EnableZeroTracking(c: Config, trace: seq<Event>, s: State, t: Task) returns (trace': seq<Event>, s': State)
    requires Reaches(c, trace, s) && IsUser(c, t) && At(s, t, En(EnRescanInit))
    requires !s.flagRescan && s.rescanLock == NoTask && s.qgroupLock == NoTask && t !in s.iterating
    ensures Reaches(c, trace', s')
    ensures s' == s.(flagRescan := true, completionDone := false, pc := s.pc[t := En(EnZtDone)])
  {
    hide Reaches;
    trace', s' := Go(c, trace, s, Enable(t, E_RescanInit));
    trace', s' := Go(c, trace', s', Enable(t, E_ZTEnter));
    trace', s' := Go(c, trace', s', Enable(t, E_ZTLock));
    trace', s' := Go(c, trace', s', Enable(t, E_ZTUnlock));
    assert s'.pc == s.pc[t := En(EnZtDone)] && s'.iterating == s.iterating;
  }

  /** Full quotas: the worker is queued and enable returns. */
  lemma EnableQueuesWorker(c: Config, trace: seq<Event>, s: State, t: Task) returns (trace': seq<Event>, s': State)
    requires Reaches(c, trace, s) && IsUser(c, t) && At(s, t, En(EnZtDone)) && s.subvolSem == t
    ensures Reaches(c, trace', s')
    ensures s' == s.(rescanRunning := true, workerQueued := true, subvolSem := NoTask, pc := s.pc[t := Idle])
  {
    hide Reaches;
    trace', s' := Go(c, trace, s, Enable(t, E_ZTDone));
    trace', s' := Go(c, trace', s', Enable(t, E_Queue));
    trace', s' := Go(c, trace', s', Enable(t, QuotaEnableDone));
    assert s'.pc == s.pc[t := Idle];
  }

  /** The worker starts, leaves its loop unstopped, completes the rescan and returns. */
  lemma WorkerRuns(c: Config, trace: seq<Event>, s: State) returns (trace': seq<Event>, s': State)
    requires Reaches(c, trace, s) && At(s, Worker, Wk(WkIdle)) && s.workerQueued
    requires s.quotaEnabled && !Closing(s) && s.rescanLock == NoTask
    ensures Reaches(c, trace', s')
    ensures s' == s.(workerQueued := false, workerStopped := false, flagRescan := false,
                     rescanRunning := false, completionDone := true)
  {
    hide Reaches;
    trace', s' := Go(c, trace, s, Work(WorkerStart));
    trace', s' := Go(c, trace', s', Work(W_ExitLoop));
    trace', s' := Go(c, trace', s', Work(W_Finish));
    trace', s' := Go(c, trace', s', Work(WorkerDone));
    assert s'.pc == s.pc;
  }

  /** A rescan raises FLAG_RESCAN and sits in its transaction commit. */
  lemma RescanToCommit(c: Config, trace: seq<Event>, s: State, t: Task) returns (trace': seq<Event>, s': State)
    requires Reaches(c, trace, s) && IsUser(c, t) && At(s, t, Idle) && !Closing(s)
    requires s.flagOn && !s.flagRescan && s.rescanLock == NoTask
    ensures Reaches(c, trace', s')
    ensures s' == s.(flagRescan := true, completionDone := false, pc := s.pc[t := Res(ResCommit)])
  {
    hide Reaches;
    trace', s' := Go(c, trace, s, Rescan(t, QgroupRescanEnter));
    trace', s' := Go(c, trace', s', Rescan(t, R_Init));
    assert s'.pc == s.pc[t := Res(ResCommit)];
  }

  lemma DisableToWaitDone(c: Config, trace: seq<Event>, s: State, t: Task) returns (trace': seq<Event>, s': State)
    requires Reaches(c, trace, s) && IsUser(c, t) && At(s, t, Idle) && !Closing(s)
    requires s.subvolSem == NoTask && s.rescanLock == NoTask && s.quotaRoot && !s.rescanRunning
    ensures Reaches(c, trace', s')
    ensures s' == s.(quotaEnabled := false, subvolSem := t, pc := s.pc[t := Dis(DisWaitDone)])
  {
    hide Reaches;
    trace', s' := Go(c, trace, s, Disable(t, QuotaDisableEnter));
    trace', s' := Go(c, trace', s', Disable(t, D_Check));
    trace', s' := Go(c, trace', s', Disable(t, D_ClearEnabled));
    trace', s' := Go(c, trace', s', Disable(t, D_WaitEnter));
    trace', s' := Go(c, trace', s', Disable(t, D_WaitRead));
    assert s'.pc == s.pc[t := Dis(DisWaitDone)];
  }

  /** A disable finds rescan_running false, passes the wait, and switches accounting off. */
  lemma DisableToFree(c: Config, trace: seq<Event>, s: State, t: Task) returns (trace': seq<Event>, s': State)
    requires Reaches(c, trace, s) && IsUser(c, t) && At(s, t, Idle) && !Closing(s)
    requires s.subvolSem == NoTask && s.qgroupLock == NoTask && s.rescanLock == NoTask
    requires s.quotaRoot && !s.rescanRunning
    ensures Reaches(c, trace', s')
    ensures s' == s.(quotaRoot := false, quotaEnabled := false, flagOn := false,
                     subvolSem := t, pc := s.pc[t := Dis(DisFreeEnter)])
  {
    hide Reaches;
    trace', s' := DisableToWaitDone(c, trace, s, t);
    trace', s' := DisableAfterWait(c, trace', s', t);
    assert s'.pc == s.pc[t := Dis(DisFreeEnter)];
  }

  lemma DisableAfterWait(c: Config, trace: seq<Event>, s: State, t: Task) returns (trace': seq<Event>, s': State)
    requires Reaches(c, trace, s) && IsUser(c, t) && At(s, t, Dis(DisWaitDone)) && s.qgroupLock == NoTask
    ensures Reaches(c, trace', s')
    ensures s' == s.(quotaRoot := false, flagOn := false, pc := s.pc[t := Dis(DisFreeEnter)])
  {
    hide Reaches;
    trace', s' := Go(c, trace, s, Disable(t, D_WaitDone));
    trace', s' := Go(c, trace', s', Disable(t, D_Trans));
    trace', s' := Go(c, trace', s', Disable(t, D_ClearRoot));
    assert s'.pc == s.pc[t := Dis(DisFreeEnter)];
  }

  /** A rescan leaves its commit, tracks, and queues the worker. */
  lemma RescanQueuesWorker(c: Config, trace: seq<Event>, s: State, t: Task) returns (trace': seq<Event>, s': State)
    requires Reaches(c, trace, s) && IsUser(c, t) && At(s, t, Res(ResCommit))
    requires s.flagOn && s.qgroupLock == NoTask && s.rescanLock == NoTask && t !in s.iterating
    ensures Reaches(c, trace', s')
    ensures s' == s.(rescanRunning := true, workerQueued := true, pc := s.pc[t := Res(ResDone)])
  {
    hide Reaches;
    trace', s' := RescanTracks(c, trace, s, t);
    trace', s' := Go(c, trace', s', Rescan(t, R_ZTDone));
    trace', s' := Go(c, trace', s', Rescan(t, R_Queue));
    assert s'.pc == s.pc[t := Res(ResDone)];
  }

  lemma RescanTracks(c: Config, trace: seq<Event>, s: State, t: Task) returns (trace': seq<Event>, s': State)
    requires Reaches(c, trace, s) && IsUser(c, t) && At(s, t, Res(ResCommit))
    requires s.qgroupLock == NoTask && t !in s.iterating
    ensures Reaches(c, trace', s') && s' == s.(pc := s.pc[t := Res(ResZtDone)])
  {
    hide Reaches;
    trace', s' := Go(c, trace, s, Rescan(t, R_Commit));
    trace', s' := Go(c, trace', s', Rescan(t, R_ZTEnter));
    trace', s' := Go(c, trace', s', Rescan(t, R_ZTLock));
    trace', s' := Go(c, trace', s', Rescan(t, R_ZTUnlock));
    assert s'.pc == s.pc[t := Res(ResZtDone)] && s'.iterating == s.iterating;
  }
}
