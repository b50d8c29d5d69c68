/** A disabler or unmounter asleep in wait_for_completion is never abandoned: from
    every reachable state the steps of other tasks alone can complete its wait. */
module QgroupWakeup {
  import opened Options
  import Runs
  import opened QgroupLifecycle
  import opened QgroupSafety

  predicate Sleeps(s: State, t: Task) {
    At(s, t, Dis(DisWaitBlock)) || At(s, t, Um(UmWaitBlock))
  }

  ghost predicate Live(c: Config, s: State) { Locks(c, s) && NoneAbandoned(s) }

  /** A path from s that t takes no part in; t stays where it is. */
  ghost predicate WithoutHelpOf(c: Config, s: State, t: Task, steps: seq<Step>) {
    && After(c, s, steps).Some? && (forall a :: a in steps ==> Owner(a) != t)
    && StaysPut(s, t, After(c, s, steps).value)
  }

  predicate StaysPut(s: State, t: Task, s': State) {
    t in s.pc && t in s'.pc && s'.pc[t] == s.pc[t]
  }

  lemma StepKeepsLive(c: Config, s: State, t: Task, a: Step)
    requires Live(c, s) && Fire(c, s, a).Some? && Owner(a) != t
    ensures Live(c, Fire(c, s, a).value)
    ensures t in s.pc ==> StaysPut(s, t, Fire(c, s, a).value)
  {
    StepKeepsLocks(c, s, a, Fire(c, s, a).value);
    StepAbandonsNone(c, s, a, Fire(c, s, a).value);
  }

  lemma Prepend(c: Config, s: State, t: Task, a: Step, rest: seq<Step>)
    requires Fire(c, s, a).Some? && Owner(a) != t && StaysPut(s, t, Fire(c, s, a).value)
    requires WithoutHelpOf(c, Fire(c, s, a).value, t, rest)
    ensures WithoutHelpOf(c, s, t, [a] + rest)
    ensures After(c, s, [a] + rest) == After(c, Fire(c, s, a).value, rest)
  {
    AfterExtend(c, s, [], a);
    assert [] + [a] == [a];
    Runs.AfterConcat(Fire, c, s, [a], rest);
  }

  function WorkerDistance(p: PC): nat {
    match p
    case Wk(WkFinish) => 0
    case Wk(WkRun) => 1
    case Wk(WkScan) => 2
    case Wk(WkIdle) => 3
    case _ => 4
  }

  /** The worker has a step that brings the completion nearer. */
  lemma WorkerAdvances(c: Config, s: State) returns (w: WorkerAction, s': State)
    requires s.rescanLock == NoTask && WorkerComing(s) && Worker in s.pc
    requires
      || s.pc[Worker] == Wk(WkIdle) || s.pc[Worker] == Wk(WkRun) || s.pc[Worker] == Wk(WkScan)
      || s.pc[Worker] == Wk(WkFinish) || s.pc[Worker] == Wk(WkExit)
    requires s.pc[Worker] == Wk(WkScan) ==> Worker in s.iterating && s.qgroupLock == Worker
    ensures FireWorker(s, w) == Some(s') && Worker in s'.pc
    ensures s'.completionDone || (WorkerComing(s') && WorkerDistance(s'.pc[Worker]) < WorkerDistance(s.pc[Worker]))
  {
    if s.pc[Worker] == Wk(WkFinish) {
      return W_Finish, FireWorker(s, W_Finish).value;
    } else if s.pc[Worker] == Wk(WkRun) {
      return W_ExitLoop, FireWorker(s, W_ExitLoop).value;
    } else if s.pc[Worker] == Wk(WkScan) {
      return W_ScanUnlock, FireWorker(s, W_ScanUnlock).value;
    } else if s.pc[Worker] == Wk(WkIdle) {
      return WorkerStart, FireWorker(s, WorkerStart).value;
    } else if s.pc[Worker] == Wk(WkExit) {
      return WorkerDone, FireWorker(s, WorkerDone).value;
    }
  }

  lemma {:induction false} WorkerCompletes(c: Config, s: State, t: Task) returns (steps: seq<Step>)
    requires Live(c, s) && WorkerComing(s) && Worker in s.pc && t != Worker && t in s.pc
    ensures WithoutHelpOf(c, s, t, steps) && After(c, s, steps).value.completionDone
    decreases WorkerDistance(s.pc[Worker])
  {
    var w, s' := WorkerAdvances(c, s);
    var a := Work(w);
    var rest := [];
    StepKeepsLive(c, s, t, a);
    if !s'.completionDone {
      rest := WorkerCompletes(c, s', t);
    }
    Prepend(c, s, t, a, rest);
    steps := [a] + rest;
  }

  /** How far rescan r is from queueing the worker. */
  function RescanDistance(s: State, r: Task): nat
    requires r in s.pc
  {
    match s.pc[r]
    case Res(ResCommit) => 7
    case Res(ResZtEnter) => 6
    case Res(ResZtIter) => if s.qgroupLock == r then 3 else if s.qgroupLock == NoTask then 4 else 5
    case Res(ResZtDone) => 2
    case _ => 1
  }

  /** While disable sleeps and the worker is not coming, only rescans hold qgroup_lock. */
  lemma HolderIsRescan(c: Config, s: State, t: Task)
    requires Live(c, s) && At(s, t, Dis(DisWaitBlock)) && !WorkerComing(s) && s.qgroupLock != NoTask
    ensures s.qgroupLock in s.iterating && At(s, s.qgroupLock, Res(ResZtIter))
  {
    assert s.subvolSem == t;
    assert s.pc[s.qgroupLock] != Idle;
  }

  /** A step towards r queueing the worker: r's own, or that of the iterator in its way. */
  lemma RescanAdvances(c: Config, s: State, r: Task) returns (u: Task, a: RescanAction, s': State)
    requires s.rescanLock == NoTask && s.flagOn && r in s.pc && r != NoTask
    requires
      || s.pc[r] == Res(ResCommit) || s.pc[r] == Res(ResZtEnter) || s.pc[r] == Res(ResZtIter)
      || s.pc[r] == Res(ResZtDone) || s.pc[r] == Res(ResQueue)
    requires s.qgroupLock != NoTask ==> s.qgroupLock in s.iterating && At(s, s.qgroupLock, Res(ResZtIter))
    requires s.qgroupLock == NoTask ==> r !in s.iterating
    ensures FireRescan(c, s, u, a) == Some(s') && u in s.pc && s.pc[u].Res?
    ensures s'.flagOn && r in s'.pc
    ensures s'.workerQueued || (IsPendingRescanPC(s'.pc[r]) && RescanDistance(s', r) < RescanDistance(s, r))
  {
    if s.pc[r] == Res(ResCommit) {
      return r, R_Commit, FireRescan(c, s, r, R_Commit).value;
    } else if s.pc[r] == Res(ResZtEnter) {
      return r, R_ZTEnter, FireRescan(c, s, r, R_ZTEnter).value;
    } else if s.pc[r] == Res(ResZtIter) && s.qgroupLock == NoTask {
      return r, R_ZTLock, FireRescan(c, s, r, R_ZTLock).value;
    } else if s.pc[r] == Res(ResZtIter) {
      return s.qgroupLock, R_ZTUnlock, FireRescan(c, s, s.qgroupLock, R_ZTUnlock).value;
    } else if s.pc[r] == Res(ResZtDone) {
      return r, R_ZTDone, FireRescan(c, s, r, R_ZTDone).value;
    } else if s.pc[r] == Res(ResQueue) {
      return r, R_Queue, FireRescan(c, s, r, R_Queue).value;
    }
  }

  lemma {:induction false} RescanCompletes(c: Config, s: State, t: Task, r: Task) returns (steps: seq<Step>)
    requires Live(c, s) && At(s, t, Dis(DisWaitBlock)) && Worker in s.pc
    requires WorkerComing(s) || (s.flagOn && r in s.pc && IsPendingRescanPC(s.pc[r]))
    ensures WithoutHelpOf(c, s, t, steps) && After(c, s, steps).value.completionDone
    decreases if WorkerComing(s) then 0 else 1, if r in s.pc then RescanDistance(s, r) else 0
  {
    if WorkerComing(s) {
      steps := WorkerCompletes(c, s, t);
    } else {
      if s.qgroupLock != NoTask {
        HolderIsRescan(c, s, t);
      }
      var u, step, s' := RescanAdvances(c, s, r);
      var a := Rescan(u, step);
      StepKeepsLive(c, s, t, a);
      StepKeepsLive(c, s, Worker, a);
      var rest := RescanCompletes(c, s', t, r);
      Prepend(c, s, t, a, rest);
      steps := [a] + rest;
    }
  }

  /** No disabler or unmounter is abandoned: whatever run led to s, steps of the others
      alone complete the wait, after which the sleeper's own next step is enabled. */
  lemma SleeperCanBeWoken(c: Config, run: seq<Step>, s: State, t: Task)
    requires After(c, Init(c), run) == Some(s) && Sleeps(s, t)
    ensures exists steps :: WithoutHelpOf(c, s, t, steps) && CanWake(c, After(c, s, steps).value, t)
  {
    RunKeepsInv(c, run);
    assert Worker in s.pc;
    var steps := [];
    if !s.completionDone {
      if WorkerComing(s) {
        steps := WorkerCompletes(c, s, t);
      } else {
        var r :| r in s.pc && IsPendingRescanPC(s.pc[r]);
        steps := RescanCompletes(c, s, t, r);
      }
    }
    assert WithoutHelpOf(c, s, t, steps) && CanWake(c, After(c, s, steps).value, t);
  }

  predicate CanWake(c: Config, s: State, t: Task) {
    FireDisable(c, s, t, D_WaitBlocked).Some? || FireUnmount(c, s, t, M_WaitBlocked).Some?
  }
}
