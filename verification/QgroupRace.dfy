/** Use-after-free in the qgroup life cycle: reachable exactly without the fix and with
    at least two tasks. */
module QgroupRace {
  import opened Options
  import opened QgroupLifecycle
  import opened QgroupSafety
  import opened QgroupScenarios
  import opened QgroupLone
  import opened Sets

  /** While the free loop runs, nobody else holds pointers into the tree. */
  ghost predicate FreeLoopAlone(s: State) {
    forall t, t2 :: t in s.pc && IsFreePC(s.pc[t]) && t2 in s.iterating ==> t2 == t
  }

  /** The fixed kernel: in every reachable state no record was freed under an
      iterator, and neither zero tracking nor the worker iterates beside the free loop. */
  lemma FixExcludesUaf(c: Config, steps: seq<Step>)
    requires c.fix && After(c, Init(c), steps).Some?
    ensures var s := After(c, Init(c), steps).value;
            !s.uafOccurred && FreeLoopAlone(s) && s.iterating <= {s.qgroupLock}
  {
    RunKeepsInv(c, steps);
  }

  ghost predicate ReachesUaf(c: Config) {
    exists trace, s :: Reaches(c, trace, s) && s.uafOccurred
  }

  /** The unlocked free loop runs while u iterates: u's rescan sits between its commit
      and its zero tracking while t's disable passes the wait. */
  lemma FreeBesideIterator(c: Config, t: Task, u: Task) returns (trace: seq<Event>, s: State)
    requires !c.fix && IsUser(c, t) && IsUser(c, u) && t != u
    ensures Reaches(c, trace, s) && At(s, t, Dis(DisFreeDo)) && u in s.iterating
  {
    ReachesInit(c);
    hide Reaches;
    trace, s := EnableToRescanInit(c, [], Init(c), t);
    trace, s := EnableSimply(c, trace, s, t);
    trace, s := RescanToCommit(c, trace, s, u);
    trace, s := DisableToFree(c, trace, s, t);
    trace, s := Go(c, trace, s, Disable(t, D_FreeEnter));
    trace, s := Go(c, trace, s, Rescan(u, R_Commit));
    trace, s := Go(c, trace, s, Rescan(u, R_ZTEnter));
    trace, s := Go(c, trace, s, Rescan(u, R_ZTLock));
  }

  /** The race: disable frees the records a concurrent rescan iterates over. */
  lemma UnfixedReachesUaf(c: Config, t: Task, u: Task)
    requires !c.fix && IsUser(c, t) && IsUser(c, u) && t != u
    ensures ReachesUaf(c)
  {
    var trace, s := FreeBesideIterator(c, t, u);
    trace, s := Go(c, trace, s, Disable(t, D_FreeDo));
  }

  /** Use-after-free is reachable exactly when the fix is absent and there are two tasks:
      a task alone waits for its own worker before it frees. */
  lemma UafIffFixAbsent(c: Config)
    ensures ReachesUaf(c) <==> !c.fix && |c.users| >= 2
  {
    if c.fix || |c.users| < 2 {
      forall trace, s | Reaches(c, trace, s)
        ensures !s.uafOccurred
      {
        var steps :| RunProjectsTo(c, steps, trace) && After(c, Init(c), steps) == Some(s);
        NoUaf(c, steps);
      }
    } else {
      var i, j := TwoOf(c.users);
      UnfixedReachesUaf(c, User(i), User(j));
    }
  }

  lemma NoUaf(c: Config, steps: seq<Step>)
    requires After(c, Init(c), steps).Some? && (c.fix || |c.users| < 2)
    ensures !After(c, Init(c), steps).value.uafOccurred
  {
    if c.fix {
      FixExcludesUaf(c, steps);
    } else {
      var i := FewerThanTwo(c.users, 0);
      RunKeepsLone(c, steps, User(i));
    }
  }

  // ----- The worker as a second victim -----

  /** The free loop runs while the worker holds pointers into the tree. */
  predicate WorkerRace(s: State) { Worker in s.iterating && exists t :: t in s.pc && t.User? && IsFreePC(s.pc[t]) }

  ghost predicate ReachesWorkerRace(c: Config) {
    exists trace, s :: Reaches(c, trace, s) && WorkerRace(s)
  }

  /** u's rescan queues the worker after t's disable has passed its wait. */
  lemma WorkerStartsInHole(c: Config, t: Task, u: Task) returns (trace: seq<Event>, s: State)
    requires IsUser(c, t) && IsUser(c, u) && t != u
    ensures Reaches(c, trace, s) && At(s, t, Dis(DisWaitDone)) && At(s, Worker, Wk(WkRun))
    ensures s.qgroupLock == NoTask && s.iterating == {} && !s.uafOccurred
  {
    ReachesInit(c);
    hide Reaches;
    trace, s := EnableToRescanInit(c, [], Init(c), t);
    trace, s := EnableSimply(c, trace, s, t);
    trace, s := RescanToCommit(c, trace, s, u);
    trace, s := DisableToWaitDone(c, trace, s, t);
    trace, s := RescanQueuesWorker(c, trace, s, u);
    trace, s := Go(c, trace, s, Work(WorkerStart));
  }

  lemma UnfixedReachesWorkerRace(c: Config, t: Task, u: Task)
    requires !c.fix && IsUser(c, t) && IsUser(c, u) && t != u
    ensures ReachesWorkerRace(c)
  {
    var trace, s := WorkerStartsInHole(c, t, u);
    hide Reaches;
    trace, s := DisableAfterWait(c, trace, s, t);
    trace, s := Go(c, trace, s, Disable(t, D_FreeEnter));
    trace, s := Go(c, trace, s, Work(W_ScanLock));
    assert t in s.pc && IsFreePC(s.pc[t]);
  }

  lemma NoWorkerRace(c: Config, steps: seq<Step>)
    requires After(c, Init(c), steps).Some? && (c.fix || |c.users| < 2)
    ensures !WorkerRace(After(c, Init(c), steps).value)
  {
    var s := After(c, Init(c), steps).value;
    if c.fix {
      FixExcludesUaf(c, steps);
    } else {
      var i := FewerThanTwo(c.users, 0);
      RunKeepsLone(c, steps, User(i));
      forall t | t in s.pc && t.User? && Worker in s.iterating
        ensures !IsFreePC(s.pc[t])
      {
        FreeFindsNobody(c, s, t, Worker);
      }
    }
  }

  /** The free loop can run beside the worker exactly when the fix is absent and there are
      two tasks. */
  lemma WorkerRaceIffFixAbsent(c: Config)
    ensures ReachesWorkerRace(c) <==> !c.fix && |c.users| >= 2
  {
    if c.fix || |c.users| < 2 {
      forall trace, s | Reaches(c, trace, s)
        ensures !WorkerRace(s)
      {
        var steps :| RunProjectsTo(c, steps, trace) && After(c, Init(c), steps) == Some(s);
        NoWorkerRace(c, steps);
      }
    } else {
      var i, j := TwoOf(c.users);
      UnfixedReachesWorkerRace(c, User(i), User(j));
    }
  }

  // ----- Mounting again -----

  lemma NobodyElseInside(c: Config, s: State, t: Task)
    requires Locks(c, s) && t in s.pc && s.pc[t] == Um(UmFreeDone)
    ensures forall x :: x in s.pc && x != t && x != Worker ==> s.pc[x] == Idle
    ensures s.subvolSem == NoTask && s.rescanLock == NoTask && Worker in s.pc
    ensures s.qgroupLock == NoTask || s.qgroupLock == Worker
    ensures s.iterating <= {Worker}
  {
  }

  /** The last step of an unmount leaves the state of a first mount, except for what the
      worker is in the middle of, and for the record of a past use-after-free and of the
      worker's last exit. */
  lemma UnmountStartsAfresh(c: Config, steps: seq<Step>, t: Task)
    requires After(c, Init(c), steps).Some?
    requires Fire(c, After(c, Init(c), steps).value, Unmount(t, M_FreeDone)).Some?
    ensures var s := After(c, Init(c), steps).value;
            && Worker in s.pc && s.iterating <= {Worker} && (s.qgroupLock == NoTask || s.qgroupLock == Worker)
            && Fire(c, s, Unmount(t, M_FreeDone)).value
              == Init(c).(pc := Init(c).pc[Worker := s.pc[Worker]], qgroupLock := s.qgroupLock,
                          iterating := s.iterating, uafOccurred := s.uafOccurred, workerStopped := s.workerStopped)
  {
    RunKeepsInv(c, steps);
    var s := After(c, Init(c), steps).value;
    NobodyElseInside(c, s, t);
    assert s.pc[t := Idle] == Init(c).pc[Worker := s.pc[Worker]];
  }
}
