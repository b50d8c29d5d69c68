/** What a task can put off until just before its next event without anybody noticing:
    its regions under qgroup_lock, the free loop, and a wait that would pass all the same. */
module QgroupDelay {
  import opened Options
  import opened QgroupLifecycle
  import opened QgroupMoves
  import opened QgroupSafety
  import opened QgroupRuns
  import opened QgroupMirror

  /** A task at p is at q when it has put off what it can. */
  predicate Delayed(fix: bool, p: PC, q: PC) {
    match p
    case Idle => q == Idle
    case En(e) => q == p || (e == EnZtDone && q == En(EnZtIter))
    case Res(r) => q == p || (r == ResZtDone && q == Res(ResZtIter))
    case Dis(e) =>
      if e == DisFreeLock || e == DisFreeDo then q == DisableFreeStart(fix)
      else q == p || (e == DisFreeDone && q == DisableFreeStart(fix)) || (e == DisDone && q == Dis(DisClean))
    case Um(e) =>
      if e == UmFreeLock || e == UmFreeDo then q == UnmountFreeStart(fix)
      else q == p || (e == UmFreeDone && q == UnmountFreeStart(fix)) || PutsOffWait(p, q)
    case Wt(w) => q == p || PutsOffWait(p, q)
    case Wk(w) => q == if w == WkScan then Wk(WkRun) else p
  }

  /** The wait has been read at p and not at q. */
  predicate PutsOffWait(p: PC, q: PC) {
    || ((p == Wt(WaitBlock) || p == Wt(WaitDone)) && q == Wt(WaitRead))
    || ((p == Um(UmWaitBlock) || p == Um(UmWaitDone)) && q == Um(UmWaitRead))
  }

  /** The tasks of the second run follow those of the first; who is not among them is idle. */
  ghost predicate PlacesFollow(c: Config, sp: map<Task, PC>, dp: map<Task, PC>) {
    && dp.Keys == Tasks(c)
    && (forall t :: t in dp ==> if t in sp then Delayed(c.fix, sp[t], dp[t]) else dp[t] == Idle)
    && (forall t :: t in sp && t !in dp ==> sp[t] == Idle)
  }

  ghost predicate Follows(c: Config, s: State, d: State) {
    d == Unlocked(s, d.pc) && s.rescanLock == NoTask && PlacesFollow(c, s.pc, d.pc)
  }

  lemma MoveFollows(c: Config, sp: map<Task, PC>, dp: map<Task, PC>, t: Task, p: PC, q: PC)
    requires PlacesFollow(c, sp, dp) && t in sp && t in dp && Delayed(c.fix, p, q)
    ensures PlacesFollow(c, sp[t := p], dp[t := q])
    ensures q == dp[t] ==> PlacesFollow(c, sp[t := p], dp)
    ensures p == sp[t] ==> PlacesFollow(c, sp, dp[t := q])
  {
  }

  lemma PlaceFollows(c: Config, sp: map<Task, PC>, dp: map<Task, PC>, t: Task)
    requires PlacesFollow(c, sp, dp) && t in sp && t in dp
    ensures Delayed(c.fix, sp[t], dp[t]) && (t.User? ==> IsUser(c, t))
  {
  }

  lemma ClosingFollows(c: Config, s: State, d: State)
    requires PlacesFollow(c, s.pc, d.pc)
    ensures Closing(d) <==> Closing(s)
  {
    if Closing(s) {
      var u :| u in s.pc && s.pc[u].Um?;
      assert u in d.pc && d.pc[u].Um?;
    }
    if Closing(d) {
      var u :| u in d.pc && d.pc[u].Um?;
      assert u in s.pc && s.pc[u].Um?;
    }
  }

  // ----- Steps put off -----

  /** At q, step a is put off; the steps of a wait only if they are not to be taken now. */
  predicate PutOff(q: PC, a: Step, now: bool) {
    match a
    case Enable(_, e) => e == E_ZTLock || e == E_ZTUnlock
    case Rescan(_, r) => r == R_ZTLock || r == R_ZTUnlock
    case Disable(_, d) => d == D_FreeLock || d == D_FreeDo || d == D_Clean
    case Wait(_, w) => (w == U_WaitRead && !now) || (w == U_WaitBlocked && q == Wt(WaitRead))
    case Unmount(_, u) =>
      u == M_FreeLock || u == M_FreeDo || (u == M_WaitRead && !now) || (u == M_WaitBlocked && q == Um(UmWaitRead))
    case Work(w) => w == W_ScanLock || w == W_ScanUnlock
  }

  lemma PutOffDisableMoves(fix: bool, d: DisableAction, p: PC, p': PC, q: PC)
    requires DisableMove(d, p, p') && Delayed(fix, p, q) && (d == D_FreeLock || d == D_FreeDo || d == D_Clean)
    ensures Delayed(fix, p', q)
  {
    if d == D_FreeLock {
    } else if d == D_FreeDo {
    }
  }

  lemma PutOffUnmountMoves(fix: bool, u: UnmountAction, p: PC, p': PC, q: PC)
    requires UnmountMove(u, p, p') && Delayed(fix, p, q)
    requires u == M_FreeLock || u == M_FreeDo || u == M_WaitRead || (u == M_WaitBlocked && q == Um(UmWaitRead))
    ensures Delayed(fix, p', q)
  {
    if u == M_FreeLock {
    } else if u == M_FreeDo {
    } else if u == M_WaitRead {
    }
  }

  lemma PutOffMoves(fix: bool, a: Step, p: PC, p': PC, q: PC, now: bool)
    requires StepMove(a, p, p') && Delayed(fix, p, q) && PutOff(q, a, now)
    ensures Delayed(fix, p', q)
  {
    hide DisableMove, UnmountMove;
    match a
    case Enable(_, e) => if e == E_ZTLock { } else { }
    case Rescan(_, r) => if r == R_ZTLock { } else { }
    case Disable(_, d) => PutOffDisableMoves(fix, d, p, p', q);
    case Unmount(_, u) => PutOffUnmountMoves(fix, u, p, p', q);
    case Wait(_, w) => if w == U_WaitRead { } else { }
    case Work(w) => if w == W_ScanLock { } else { }
  }

  lemma PutOffIsSilent(q: PC, a: Step, now: bool)
    requires PutOff(q, a, now)
    ensures !Observable(a)
  {
  }

  /** The two states differ in t's place, and in who is under a lock. */
  ghost predicate OnlyMoves(s: State, t: Task, s': State) {
    && t in s'.pc && s'.pc == s.pc[t := s'.pc[t]] && s'.rescanLock == s.rescanLock
    && s' == s.(pc := s'.pc, qgroupLock := s'.qgroupLock, iterating := s'.iterating, uafOccurred := s'.uafOccurred)
  }

  lemma EnableOnlyMoves(c: Config, s: State, t: Task, a: EnableAction, s': State)
    requires FireEnable(c, s, t, a) == Some(s') && (a == E_ZTLock || a == E_ZTUnlock)
    ensures OnlyMoves(s, t, s')
  {
    if a == E_ZTLock {
    } else if a == E_ZTUnlock {
    }
  }

  lemma RescanOnlyMoves(c: Config, s: State, t: Task, a: RescanAction, s': State)
    requires FireRescan(c, s, t, a) == Some(s') && (a == R_ZTLock || a == R_ZTUnlock)
    ensures OnlyMoves(s, t, s')
  {
    if a == R_ZTLock {
    } else if a == R_ZTUnlock {
    }
  }

  lemma DisableOnlyMoves(c: Config, s: State, t: Task, a: DisableAction, s': State)
    requires FireDisable(c, s, t, a) == Some(s') && (a == D_FreeLock || a == D_FreeDo || a == D_Clean)
    ensures OnlyMoves(s, t, s')
  {
    if a == D_FreeLock {
    } else if a == D_FreeDo {
    } else if a == D_Clean {
    }
  }

  lemma WaitOnlyMoves(c: Config, s: State, t: Task, a: WaitAction, s': State)
    requires FireWait(c, s, t, a) == Some(s') && (a == U_WaitRead || a == U_WaitBlocked)
    ensures OnlyMoves(s, t, s')
  {
    if a == U_WaitRead {
    } else if a == U_WaitBlocked {
    }
  }

  lemma UnmountOnlyMoves(c: Config, s: State, t: Task, a: UnmountAction, s': State)
    requires FireUnmount(c, s, t, a) == Some(s') &&
             (a == M_FreeLock || a == M_FreeDo || a == M_WaitRead || a == M_WaitBlocked)
    ensures OnlyMoves(s, t, s')
  {
    if a == M_FreeLock {
    } else if a == M_FreeDo {
    } else if a == M_WaitRead {
    } else if a == M_WaitBlocked {
    }
  }

  lemma WorkOnlyMoves(s: State, a: WorkerAction, s': State)
    requires FireWorker(s, a) == Some(s') && (a == W_ScanLock || a == W_ScanUnlock)
    ensures OnlyMoves(s, Worker, s')
  {
    if a == W_ScanLock {
    } else if a == W_ScanUnlock {
    }
  }

  lemma PutOffOnlyMoves(c: Config, s: State, a: Step, s': State, q: PC, now: bool)
    requires Fire(c, s, a) == Some(s') && PutOff(q, a, now)
    ensures OnlyMoves(s, Owner(a), s')
  {
    hide FireEnable, FireDisable, FireRescan, FireWait, FireUnmount, FireWorker, OnlyMoves;
    match a
    case Enable(t, e) => EnableOnlyMoves(c, s, t, e, s');
    case Disable(t, d) => DisableOnlyMoves(c, s, t, d, s');
    case Rescan(t, r) => RescanOnlyMoves(c, s, t, r, s');
    case Wait(t, w) => WaitOnlyMoves(c, s, t, w, s');
    case Unmount(t, u) => UnmountOnlyMoves(c, s, t, u, s');
    case Work(w) => WorkOnlyMoves(s, w, s');
  }

  lemma PlaceOnlyMoves(s: State, t: Task, s': State, dp: map<Task, PC>)
    requires OnlyMoves(s, t, s')
    ensures Unlocked(s', dp) == Unlocked(s, dp)
  {
  }

  lemma PutOffFollows(c: Config, s: State, a: Step, s': State, c': Config, d: State, now: bool)
    requires Fire(c, s, a) == Some(s') && Follows(c', s, d) && Owner(a) in d.pc && PutOff(d.pc[Owner(a)], a, now)
    ensures Follows(c', s', d) && !Observable(a)
  {
    var t := Owner(a);
    hide Fire, Delayed, PutOff, StepMove, PlacesFollow;
    StepMoves(c, s, a, s');
    PutOffOnlyMoves(c, s, a, s', d.pc[t], now);
    PutOffIsSilent(d.pc[t], a, now);
    PlaceFollows(c', s.pc, d.pc, t);
    PutOffMoves(c'.fix, a, s.pc[t], s'.pc[t], d.pc[t], now);
    MoveFollows(c', s.pc, d.pc, t, s'.pc[t], d.pc[t]);
    PlaceOnlyMoves(s, t, s', d.pc);
  }

  // ----- Catching up -----

  /** What t has still to do at q before step a. */
  function Prepare(c: Config, q: PC, running: bool, a: Step): seq<Step> {
    match a
    case Enable(t, E_ZTDone) => if q == En(EnZtIter) then [Enable(t, E_ZTLock), Enable(t, E_ZTUnlock)] else []
    case Rescan(t, R_ZTDone) => if q == Res(ResZtIter) then [Rescan(t, R_ZTLock), Rescan(t, R_ZTUnlock)] else []
    case Disable(t, D_FreeDone) =>
      if q == Dis(DisFreeDone) then []
      else if c.fix then [Disable(t, D_FreeLock), Disable(t, D_FreeDo)]
      else [Disable(t, D_FreeDo)]
    case Disable(t, QuotaDisableDone) => if q == Dis(DisClean) then [Disable(t, D_Clean)] else []
    case Unmount(t, M_FreeDone) =>
      if q == Um(UmFreeDone) then []
      else if c.fix then [Unmount(t, M_FreeLock), Unmount(t, M_FreeDo)]
      else [Unmount(t, M_FreeDo)]
    case Wait(t, UserWaitDone) =>
      if q != Wt(WaitRead) then []
      else if running then [Wait(t, U_WaitRead), Wait(t, U_WaitBlocked)]
      else [Wait(t, U_WaitRead)]
    case Unmount(t, M_WaitDone) =>
      if q != Um(UmWaitRead) then []
      else if running then [Unmount(t, M_WaitRead), Unmount(t, M_WaitBlocked)]
      else [Unmount(t, M_WaitRead)]
    case _ => []
  }

  lemma PathNone(c: Config, d: State)
    ensures Path(c, d, [], [], d)
  {
  }

  lemma PathOne(c: Config, d: State, a: Step, d': State)
    requires Fire(c, d, a) == Some(d')
    ensures Path(c, d, [a], Events(a), d')
  {
    PathNone(c, d);
    PathExtend(c, d, [], [], d, a, d');
    assert [] + [a] == [a] && [] + Events(a) == Events(a);
  }

  lemma PathTwo(c: Config, d: State, a: Step, m: State, b: Step, d': State)
    requires Fire(c, d, a) == Some(m) && Fire(c, m, b) == Some(d') && !Observable(a) && !Observable(b)
    ensures Path(c, d, [a, b], [], d')
  {
    hide Fire;
    PathOne(c, d, a, m);
    PathExtend(c, d, [a], [], m, b, d');
    assert [a] + [b] == [a, b];
  }

  lemma InAndOut<T>(t: T)
    ensures ({} + {t}) - {t} == {}
  {
  }

  lemma CatchUpEnable(c: Config, s: State, dp: map<Task, PC>, t: Task)
    requires t in dp && dp[t] == En(EnZtIter)
    ensures Path(c, Unlocked(s, dp), [Enable(t, E_ZTLock), Enable(t, E_ZTUnlock)], [],
                 Unlocked(s, dp[t := En(EnZtDone)]))
  {
    var d, d' := Unlocked(s, dp), Unlocked(s, dp[t := En(EnZtDone)]);
    var m := FireEnable(c, d, t, E_ZTLock).value;
    InAndOut(t);
    assert m.pc[t := En(EnZtDone)] == d'.pc;
    assert FireEnable(c, m, t, E_ZTUnlock) == Some(d');
    hide Path, FireEnable, Unlocked;
    PathTwo(c, d, Enable(t, E_ZTLock), m, Enable(t, E_ZTUnlock), d');
  }

  lemma CatchUpRescan(c: Config, s: State, dp: map<Task, PC>, t: Task)
    requires t in dp && dp[t] == Res(ResZtIter)
    ensures Path(c, Unlocked(s, dp), [Rescan(t, R_ZTLock), Rescan(t, R_ZTUnlock)], [],
                 Unlocked(s, dp[t := Res(ResZtDone)]))
  {
    var d, d' := Unlocked(s, dp), Unlocked(s, dp[t := Res(ResZtDone)]);
    var m := FireRescan(c, d, t, R_ZTLock).value;
    InAndOut(t);
    assert m.pc[t := Res(ResZtDone)] == d'.pc;
    assert FireRescan(c, m, t, R_ZTUnlock) == Some(d');
    hide Path, FireRescan, Unlocked;
    PathTwo(c, d, Rescan(t, R_ZTLock), m, Rescan(t, R_ZTUnlock), d');
  }

  /** With nobody iterating the free loop only moves and unlocks. */
  lemma FreesHarmlessly(c: Config, d: State, t: Task)
    requires t in d.pc && d.iterating == {} && !d.uafOccurred && d.qgroupLock == if c.fix then t else NoTask
    ensures d.pc[t] == Dis(DisFreeDo) ==>
              FireDisable(c, d, t, D_FreeDo) == Some(d.(qgroupLock := NoTask, pc := d.pc[t := Dis(DisFreeDone)]))
    ensures d.pc[t] == Um(UmFreeDo) ==>
              FireUnmount(c, d, t, M_FreeDo) == Some(d.(qgroupLock := NoTask, pc := d.pc[t := Um(UmFreeDone)]))
  {
    assert !exists t2 :: t2 in d.iterating && t2 != t;
  }

  lemma LocksForFree(c: Config, d: State, t: Task)
    requires t in d.pc && d.qgroupLock == NoTask
    ensures d.pc[t] == Dis(DisFreeLock) ==>
              FireDisable(c, d, t, D_FreeLock) == Some(d.(qgroupLock := t, pc := d.pc[t := Dis(DisFreeDo)]))
    ensures d.pc[t] == Um(UmFreeLock) ==>
              FireUnmount(c, d, t, M_FreeLock) == Some(d.(qgroupLock := t, pc := d.pc[t := Um(UmFreeDo)]))
  {
  }

  lemma CatchUpFree(c: Config, s: State, dp: map<Task, PC>, t: Task)
    requires t in dp && dp[t] == DisableFreeStart(c.fix)
    ensures Path(c, Unlocked(s, dp), Prepare(c, dp[t], s.rescanRunning, Disable(t, D_FreeDone)), [],
                 Unlocked(s, dp[t := Dis(DisFreeDone)]))
  {
    var d, d' := Unlocked(s, dp), Unlocked(s, dp[t := Dis(DisFreeDone)]);
    hide FireDisable, Path;
    if c.fix {
      LocksForFree(c, d, t);
      var m := FireDisable(c, d, t, D_FreeLock).value;
      FreesHarmlessly(c, m, t);
      assert m.pc[t := Dis(DisFreeDone)] == d'.pc;
      PathTwo(c, d, Disable(t, D_FreeLock), m, Disable(t, D_FreeDo), d');
    } else {
      FreesHarmlessly(c, d, t);
      PathOne(c, d, Disable(t, D_FreeDo), d');
    }
  }

  lemma CatchUpUnmountFree(c: Config, s: State, dp: map<Task, PC>, t: Task)
    requires t in dp && dp[t] == UnmountFreeStart(c.fix)
    ensures Path(c, Unlocked(s, dp), Prepare(c, dp[t], s.rescanRunning, Unmount(t, M_FreeDone)), [],
                 Unlocked(s, dp[t := Um(UmFreeDone)]))
  {
    var d, d' := Unlocked(s, dp), Unlocked(s, dp[t := Um(UmFreeDone)]);
    hide FireUnmount, Path;
    if c.fix {
      LocksForFree(c, d, t);
      var m := FireUnmount(c, d, t, M_FreeLock).value;
      FreesHarmlessly(c, m, t);
      assert m.pc[t := Um(UmFreeDone)] == d'.pc;
      PathTwo(c, d, Unmount(t, M_FreeLock), m, Unmount(t, M_FreeDo), d');
    } else {
      FreesHarmlessly(c, d, t);
      PathOne(c, d, Unmount(t, M_FreeDo), d');
    }
  }

  lemma CatchUpClean(c: Config, s: State, dp: map<Task, PC>, t: Task)
    requires t in dp && dp[t] == Dis(DisClean)
    ensures Path(c, Unlocked(s, dp), [Disable(t, D_Clean)], [], Unlocked(s, dp[t := Dis(DisDone)]))
  {
    var d, d' := Unlocked(s, dp), Unlocked(s, dp[t := Dis(DisDone)]);
    assert FireDisable(c, d, t, D_Clean) == Some(d');
    hide Path, FireDisable, Unlocked;
    PathOne(c, d, Disable(t, D_Clean), d');
  }

  lemma CatchUpWait(c: Config, s: State, dp: map<Task, PC>, t: Task)
    requires t in dp && dp[t] == Wt(WaitRead) && s.rescanLock == NoTask && (s.rescanRunning ==> s.completionDone)
    ensures Path(c, Unlocked(s, dp), Prepare(c, dp[t], s.rescanRunning, Wait(t, UserWaitDone)), [],
                 Unlocked(s, dp[t := Wt(WaitDone)]))
  {
    var d, d' := Unlocked(s, dp), Unlocked(s, dp[t := Wt(WaitDone)]);
    if s.rescanRunning {
      var m := FireWait(c, d, t, U_WaitRead).value;
      assert m.pc[t := Wt(WaitDone)] == d'.pc;
      assert FireWait(c, m, t, U_WaitBlocked) == Some(d');
      hide Path, FireWait, Unlocked;
      PathTwo(c, d, Wait(t, U_WaitRead), m, Wait(t, U_WaitBlocked), d');
    } else {
      assert FireWait(c, d, t, U_WaitRead) == Some(d');
      hide Path, FireWait, Unlocked;
      PathOne(c, d, Wait(t, U_WaitRead), d');
    }
  }

  lemma CatchUpUnmountWait(c: Config, s: State, dp: map<Task, PC>, t: Task)
    requires t in dp && dp[t] == Um(UmWaitRead) && s.rescanLock == NoTask && (s.rescanRunning ==> s.completionDone)
    ensures Path(c, Unlocked(s, dp), Prepare(c, dp[t], s.rescanRunning, Unmount(t, M_WaitDone)), [],
                 Unlocked(s, dp[t := Um(UmWaitDone)]))
  {
    var d, d' := Unlocked(s, dp), Unlocked(s, dp[t := Um(UmWaitDone)]);
    if s.rescanRunning {
      var m := FireUnmount(c, d, t, M_WaitRead).value;
      assert m.pc[t := Um(UmWaitDone)] == d'.pc;
      assert FireUnmount(c, m, t, M_WaitBlocked) == Some(d');
      hide Path, FireUnmount, Unlocked;
      PathTwo(c, d, Unmount(t, M_WaitRead), m, Unmount(t, M_WaitBlocked), d');
    } else {
      assert FireUnmount(c, d, t, M_WaitRead) == Some(d');
      hide Path, FireUnmount, Unlocked;
      PathOne(c, d, Unmount(t, M_WaitRead), d');
    }
  }

  /** The events before which a task at p can have something to catch up with at q. */
  predicate Behind(fix: bool, a: Step, p: PC, q: PC) {
    match a
    case Enable(_, e) => e == E_ZTDone && p == En(EnZtDone) && q == En(EnZtIter)
    case Rescan(_, r) => r == R_ZTDone && p == Res(ResZtDone) && q == Res(ResZtIter)
    case Disable(_, d) =>
      || (d == D_FreeDone && p == Dis(DisFreeDone) && q == DisableFreeStart(fix))
      || (d == QuotaDisableDone && p == Dis(DisDone) && q == Dis(DisClean))
    case Unmount(_, u) =>
      || (u == M_FreeDone && p == Um(UmFreeDone) && q == UnmountFreeStart(fix))
      || (u == M_WaitDone && p == Um(UmWaitDone) && q == Um(UmWaitRead))
    case Wait(_, w) => w == UserWaitDone && p == Wt(WaitDone) && q == Wt(WaitRead)
    case Work(_) => false
  }

  lemma DisableBehind(fix: bool, d: DisableAction, p: PC, p': PC, q: PC)
    requires DisableMove(d, p, p') && Delayed(fix, p, q) && q != p
    ensures d == D_FreeLock || d == D_FreeDo || Behind(fix, Disable(Worker, d), p, q)
  {
  }

  lemma UnmountBehind(fix: bool, u: UnmountAction, p: PC, p': PC, q: PC)
    requires UnmountMove(u, p, p') && Delayed(fix, p, q) && q != p
    ensures u == M_FreeLock || u == M_FreeDo || (u == M_WaitBlocked && q == Um(UmWaitRead))
            || Behind(fix, Unmount(Worker, u), p, q)
  {
  }

  lemma EnableBehind(fix: bool, e: EnableAction, p: PC, p': PC, q: PC)
    requires EnableMove(e, p, p') && Delayed(fix, p, q) && q != p
    ensures Behind(fix, Enable(Worker, e), p, q)
  {
  }

  lemma RescanBehind(fix: bool, r: RescanAction, p: PC, p': PC, q: PC)
    requires RescanMove(r, p, p') && Delayed(fix, p, q) && q != p
    ensures Behind(fix, Rescan(Worker, r), p, q)
  {
  }

  lemma WaitBehind(fix: bool, w: WaitAction, p: PC, p': PC, q: PC)
    requires WaitMove(w, p, p') && Delayed(fix, p, q) && q != p
    ensures (w == U_WaitBlocked && q == Wt(WaitRead)) || Behind(fix, Wait(Worker, w), p, q)
  {
  }

  lemma WorkBehind(fix: bool, w: WorkerAction, p: PC, p': PC, q: PC)
    requires WorkerMove(w, p, p') && Delayed(fix, p, q) && q != p
    ensures w == W_ScanUnlock
  {
  }

  /** A task that does not put a off is not behind, or it is before one of these events. */
  lemma BehindAt(fix: bool, a: Step, p: PC, p': PC, q: PC, now: bool)
    requires StepMove(a, p, p') && Delayed(fix, p, q) && !PutOff(q, a, now) && q != p
    ensures Behind(fix, a, p, q)
  {
    hide Delayed, EnableMove, DisableMove, RescanMove, WaitMove, UnmountMove, WorkerMove;
    match a
    case Enable(_, e) => EnableBehind(fix, e, p, p', q);
    case Rescan(_, r) => RescanBehind(fix, r, p, p', q);
    case Disable(_, d) => DisableBehind(fix, d, p, p', q);
    case Unmount(_, u) => UnmountBehind(fix, u, p, p', q);
    case Wait(_, w) => WaitBehind(fix, w, p, p', q);
    case Work(w) => WorkBehind(fix, w, p, p', q);
  }

  lemma NotBehind(c: Config, a: Step, p: PC, p': PC, running: bool)
    requires StepMove(a, p, p')
    ensures Prepare(c, p, running, a) == []
  {
  }

  /** A wait that was put off still passes. */
  predicate CanPass(s: State, p: PC, q: PC) { PutsOffWait(p, q) && s.rescanRunning ==> s.completionDone }

  /** Task t does what it has put off. */
  lemma CatchUp(c: Config, s: State, d: State, a: Step, p': PC, now: bool) returns (d': State)
    requires Follows(c, s, d) && Owner(a) in s.pc && Owner(a) in d.pc
    requires StepMove(a, s.pc[Owner(a)], p') && !PutOff(d.pc[Owner(a)], a, now)
    requires CanPass(s, s.pc[Owner(a)], d.pc[Owner(a)])
    ensures Path(c, d, Prepare(c, d.pc[Owner(a)], s.rescanRunning, a), [], d') && Follows(c, s, d')
    ensures d'.pc == d.pc[Owner(a) := s.pc[Owner(a)]]
  {
    var t := Owner(a);
    var p, q := s.pc[t], d.pc[t];
    d' := Unlocked(s, d.pc[t := p]);
    hide PlacesFollow, StepMove, PutOff, Delayed, Prepare;
    PlaceFollows(c, s.pc, d.pc, t);
    if q == p {
      NotBehind(c, a, p, p', s.rescanRunning);
      PathNone(c, d);
      assert d.pc[t := p] == d.pc;
    } else {
      BehindAt(c.fix, a, p, p', q, now);
      CatchUpBehind(c, s, d, a);
      ExactFollows(c, s.pc, d.pc, t);
    }
  }

  lemma ExactFollows(c: Config, sp: map<Task, PC>, dp: map<Task, PC>, t: Task)
    requires PlacesFollow(c, sp, dp) && t in sp && t in dp
    requires sp[t] == En(EnZtDone) || sp[t] == Res(ResZtDone) || sp[t] == Dis(DisFreeDone) || sp[t] == Dis(DisDone)
             || sp[t] == Um(UmFreeDone) || sp[t] == Wt(WaitDone) || sp[t] == Um(UmWaitDone)
    ensures PlacesFollow(c, sp, dp[t := sp[t]])
  {
    hide PlacesFollow;
    MoveFollows(c, sp, dp, t, sp[t], sp[t]);
  }

  lemma CatchUpBehind(c: Config, s: State, d: State, a: Step)
    requires d == Unlocked(s, d.pc) && s.rescanLock == NoTask && Owner(a) in s.pc && Owner(a) in d.pc
    requires CanPass(s, s.pc[Owner(a)], d.pc[Owner(a)])
    requires Behind(c.fix, a, s.pc[Owner(a)], d.pc[Owner(a)])
    ensures Path(c, d, Prepare(c, d.pc[Owner(a)], s.rescanRunning, a), [],
                 Unlocked(s, d.pc[Owner(a) := s.pc[Owner(a)]]))
  {
    hide Path;
    if a.Enable? {
      CatchUpEnable(c, s, d.pc, a.t);
    } else if a.Rescan? {
      CatchUpRescan(c, s, d.pc, a.t);
    } else if a.Disable? && a.disable == D_FreeDone {
      CatchUpFree(c, s, d.pc, a.t);
    } else if a.Disable? {
      CatchUpClean(c, s, d.pc, a.t);
    } else if a.Wait? {
      CatchUpWait(c, s, d.pc, a.t);
    } else if a.Unmount? && a.unmount == M_WaitDone {
      CatchUpUnmountWait(c, s, d.pc, a.t);
    } else if a.Unmount? {
      CatchUpUnmountFree(c, s, d.pc, a.t);
    }
  }

  // ----- Every step of the first run -----

  lemma FollowMirrored(c: Config, s: State, d: State, t: Task, s': State)
    requires Follows(c, s, d) && t in s.pc && t in d.pc && t in s'.pc && s'.pc == s.pc[t := s'.pc[t]]
    requires s'.rescanLock == NoTask && Delayed(c.fix, s'.pc[t], s'.pc[t])
    ensures Follows(c, s', Unlocked(s', d.pc[t := s'.pc[t]]))
    ensures Unlocked(s', d.pc[t := s'.pc[t]]).pc == d.pc[t := s'.pc[t]] && !PutsOffWait(s'.pc[t], s'.pc[t])
  {
    hide Delayed;
    MoveFollows(c, s.pc, d.pc, t, s'.pc[t], s'.pc[t]);
  }

  /** The steps the second run takes for a step of the first. */
  function Taken(c: Config, d: State, a: Step, now: bool): seq<Step>
    requires Owner(a) in d.pc
  {
    var q := d.pc[Owner(a)];
    if PutOff(q, a, now) then [] else Prepare(c, q, d.rescanRunning, a) + [a]
  }

  lemma ExactMoves(a: Step, p: PC, p': PC, q: PC, now: bool, fix: bool)
    requires StepMove(a, p, p') && !PutOff(q, a, now)
    ensures Delayed(fix, p', p') || (a.Disable? && a.disable == D_FreeEnter) || (a.Unmount? && a.unmount == M_FreeEnter)
  {
  }

  lemma OthersStayIdle(c: Config, s: State, t: Task, c': Config, dp: map<Task, PC>)
    requires FireUnmount(c, s, t, UmountBegin).Some? && PlacesFollow(c', s.pc, dp) && s.pc.Keys == Tasks(c)
    ensures forall u :: u in dp && u != t && u.User? ==> dp[u] == Idle
  {
    forall u | u in dp && u != t && u.User?
      ensures dp[u] == Idle
    {
      if u in s.pc {
        assert IsUser(c, u);
      }
    }
  }

  lemma MirrorsExactly(c: Config, s: State, a: Step, s': State, c': Config, d: State, now: bool, q: PC)
    requires Fire(c, s, a) == Some(s') && Follows(c', s, d) && !PutOff(q, a, now) && s.pc.Keys == Tasks(c)
    requires Owner(a) in s.pc && Owner(a) in d.pc && d.pc[Owner(a)] == s.pc[Owner(a)]
    requires (a.Work? || a.t.User?) && Owner(a) in s'.pc
    requires !(a.Disable? && a.disable == D_FreeEnter) && !(a.Unmount? && a.unmount == M_FreeEnter)
    ensures Fire(c', d, a) == Some(Unlocked(s', d.pc[Owner(a) := s'.pc[Owner(a)]]))
  {
    var t, dp := Owner(a), d.pc;
    PlaceFollows(c', s.pc, dp, t);
    ClosingFollows(c', s, d);
    if a.Unmount? && a.unmount == UmountBegin {
      OthersStayIdle(c, s, t, c', dp);
    }
    assert t.User? ==> IsUser(c', t);
    hide PlacesFollow, Closing, Tasks, IsUser, FireEnable, FireDisable, FireRescan, FireWait, FireUnmount, FireWorker;
    hide Unlocked;
    match a
    case Enable(_, e) => EnableMirrors(c, s, t, e, s', c', dp);
    case Disable(_, e) => DisableMirrors(c, s, t, e, s', c', dp);
    case Rescan(_, r) => RescanMirrors(c, s, t, r, s', c', dp);
    case Wait(_, w) => WaitMirrors(c, s, t, w, s', c', dp);
    case Unmount(_, u) => UnmountMirrors(c, s, t, u, s', c', dp);
    case Work(w) => WorkerMirrors(s, w, s', dp);
  }

  lemma FreeStartsFollow(fix: bool, fix': bool)
    ensures Delayed(fix', DisableFreeStart(fix), DisableFreeStart(fix'))
    ensures Delayed(fix', UnmountFreeStart(fix), UnmountFreeStart(fix'))
    ensures !PutsOffWait(DisableFreeStart(fix), DisableFreeStart(fix'))
    ensures !PutsOffWait(UnmountFreeStart(fix), UnmountFreeStart(fix'))
  {
  }

  lemma MirrorsFree(c: Config, s: State, a: Step, s': State, c': Config, d: State) returns (d': State, r: PC)
    requires Fire(c, s, a) == Some(s') && Follows(c', s, d)
    requires Owner(a) in s.pc && Owner(a) in d.pc && d.pc[Owner(a)] == s.pc[Owner(a)] && s'.rescanLock == NoTask
    requires (a.Disable? && a.disable == D_FreeEnter) || (a.Unmount? && a.unmount == M_FreeEnter)
    ensures Fire(c', d, a) == Some(d') && Follows(c', s', d') && Owner(a) in s'.pc
    ensures d'.pc == d.pc[Owner(a) := r] && !PutsOffWait(s'.pc[Owner(a)], r)
  {
    var t := a.t;
    FreeStartsFollow(c.fix, c'.fix);
    hide FireDisable, FireUnmount, PlacesFollow, Delayed, PutsOffWait, DisableFreeStart, UnmountFreeStart;
    if a.Disable? {
      r := DisableFreeStart(c'.fix);
      FreeEnterMirrors(c, s, t, s', c', d.pc);
      MoveFollows(c', s.pc, d.pc, t, DisableFreeStart(c.fix), r);
    } else {
      r := UnmountFreeStart(c'.fix);
      UnmountFreeEnterMirrors(c, s, t, s', c', d.pc);
      MoveFollows(c', s.pc, d.pc, t, UnmountFreeStart(c.fix), r);
    }
    d' := Unlocked(s', d.pc[t := r]);
  }

  lemma MirrorsRest(c: Config, s: State, a: Step, s': State, c': Config, d: State, now: bool, q: PC)
    returns (d': State, r: PC)
    requires Fire(c, s, a) == Some(s') && Follows(c', s, d) && !PutOff(q, a, now) && s.pc.Keys == Tasks(c)
    requires Owner(a) in s.pc && Owner(a) in d.pc && d.pc[Owner(a)] == s.pc[Owner(a)] && (a.Work? || a.t.User?)
    requires s'.rescanLock == NoTask && Owner(a) in s'.pc && s'.pc == s.pc[Owner(a) := s'.pc[Owner(a)]]
    requires StepMove(a, s.pc[Owner(a)], s'.pc[Owner(a)])
    requires !(a.Disable? && a.disable == D_FreeEnter) && !(a.Unmount? && a.unmount == M_FreeEnter)
    ensures Fire(c', d, a) == Some(d') && Follows(c', s', d')
    ensures d'.pc == d.pc[Owner(a) := r] && !PutsOffWait(s'.pc[Owner(a)], r)
  {
    hide Fire, Follows, StepMove, Delayed, PutOff, PutsOffWait, Unlocked, Tasks;
    var t := Owner(a);
    r := s'.pc[t];
    d' := Unlocked(s', d.pc[t := r]);
    ExactMoves(a, s.pc[t], r, q, now, c'.fix);
    FollowMirrored(c', s, d, t, s');
    MirrorsExactly(c, s, a, s', c', d, now, q);
  }

  /** A step that is not put off is taken in the second run as well. */
  lemma Mirrors(c: Config, s: State, a: Step, s': State, c': Config, d: State, now: bool, q: PC)
    returns (d': State, r: PC)
    requires Fire(c, s, a) == Some(s') && Follows(c', s, d) && !PutOff(q, a, now) && Locks(c, s)
    requires Owner(a) in s.pc && Owner(a) in d.pc && d.pc[Owner(a)] == s.pc[Owner(a)]
    requires MovesOnly(c, s, Owner(a), s')
    ensures Fire(c', d, a) == Some(d') && Follows(c', s', d') && Owner(a) in s'.pc
    ensures d'.pc == d.pc[Owner(a) := r] && !PutsOffWait(s'.pc[Owner(a)], r) && StepMove(a, s.pc[Owner(a)], r)
  {
    var t := Owner(a);
    assert s'.rescanLock == NoTask && t in s'.pc && s'.pc == s.pc[t := s'.pc[t]];
    hide Fire, StepMove, Follows, Locks, MovesOnly, PutOff;
    StepMoves(c, s, a, s');
    OwnerIsTask(c, s, a, s');
    if (a.Disable? && a.disable == D_FreeEnter) || (a.Unmount? && a.unmount == M_FreeEnter) {
      d', r := MirrorsFree(c, s, a, s', c', d);
    } else {
      d', r := MirrorsRest(c, s, a, s', c', d, now, q);
    }
    StepMoves(c', d, a, d');
  }

  lemma OwnerIsTask(c: Config, s: State, a: Step, s': State)
    requires Locks(c, s) && Owner(a) in s.pc && Owner(a) in s'.pc && StepMove(a, s.pc[Owner(a)], s'.pc[Owner(a)])
    ensures a.Work? || a.t.User?
    ensures s.pc.Keys == Tasks(c)
  {
    hide StepMove;
    if !a.Work? && a.t == Worker {
      WorkerMovesOnly(a, s.pc[Worker], s'.pc[Worker]);
    }
  }

  /** A step that is not put off, after what has to be caught up with. */
  lemma StepIsTaken(c: Config, s: State, a: Step, s': State, c': Config, d: State, now: bool)
    returns (d': State, r: PC)
    requires Fire(c, s, a) == Some(s') && Follows(c', s, d) && Locks(c, s) && Owner(a) in d.pc && Owner(a) in s.pc
    requires CanPass(s, s.pc[Owner(a)], d.pc[Owner(a)]) && !PutOff(d.pc[Owner(a)], a, now)
    requires MovesOnly(c, s, Owner(a), s')
    ensures Path(c', d, Prepare(c', d.pc[Owner(a)], d.rescanRunning, a) + [a], Events(a), d') && Follows(c', s', d')
    ensures d'.pc == d.pc[Owner(a) := r] && Owner(a) in s'.pc
    ensures !PutsOffWait(s'.pc[Owner(a)], r) && StepMove(a, s.pc[Owner(a)], r)
  {
    var t := Owner(a);
    var q := d.pc[t];
    StepMoves(c, s, a, s');
    SameRunning(c', s, d);
    hide Fire, StepMove, Follows, Locks, MovesOnly, PutOff, CanPass, Path, PutsOffWait;
    var m := CatchUp(c', s, d, a, s'.pc[t], now);
    d', r := Mirrors(c, s, a, s', c', m, now, q);
    TakeLast(c', d, Prepare(c', q, d.rescanRunning, a), m, a, d');
    MoveTwice(d.pc, t, s.pc[t], r);
  }

  lemma TakeLast(c: Config, d: State, steps: seq<Step>, m: State, a: Step, d': State)
    requires Path(c, d, steps, [], m) && Fire(c, m, a) == Some(d')
    ensures Path(c, d, steps + [a], Events(a), d')
  {
    hide Fire;
    PathExtend(c, d, steps, [], m, a, d');
    assert [] + Events(a) == Events(a);
  }

  lemma MoveTwice(dp: map<Task, PC>, t: Task, p: PC, q: PC)
    ensures dp[t := p][t := q] == dp[t := q]
    ensures t in dp ==> dp[t := dp[t]] == dp
  {
  }

  /** The second run follows each step of the first. */
  lemma StepFollows(c: Config, s: State, a: Step, s': State, c': Config, d: State, now: bool)
    returns (d': State, r: PC)
    requires Fire(c, s, a) == Some(s') && Follows(c', s, d) && Locks(c, s) && Owner(a) in d.pc && Owner(a) in s.pc
    requires Observable(a) ==> CanPass(s, s.pc[Owner(a)], d.pc[Owner(a)])
    ensures Path(c', d, Taken(c', d, a, now), Events(a), d') && Follows(c', s', d')
    ensures d'.pc == d.pc[Owner(a) := r] && Locks(c, s') && Owner(a) in s'.pc
    ensures if PutOff(d.pc[Owner(a)], a, now) then d' == d
            else !PutsOffWait(s'.pc[Owner(a)], r) && StepMove(a, s.pc[Owner(a)], r)
  {
    var t := Owner(a);
    var q := d.pc[t];
    StepKeepsLocks(c, s, a, s');
    assert MovesOnly(c, s, t, s') && t in s'.pc;
    hide Fire, Follows, Locks, Effect, MovesOnly, PutOff, CanPass, Path, Prepare, PutsOffWait;
    if PutOff(q, a, now) {
      PutOffFollows(c, s, a, s', c', d, now);
      PathNone(c', d);
      d', r := d, q;
      MoveTwice(d.pc, t, q, q);
    } else {
      if !Observable(a) {
        StepMoves(c, s, a, s');
        SilentIsCurrent(c', s, d, a, s'.pc[t], now);
      }
      d', r := StepIsTaken(c, s, a, s', c', d, now);
    }
  }

  lemma SameRunning(c: Config, s: State, d: State)
    requires Follows(c, s, d)
    ensures d.rescanRunning == s.rescanRunning
  {
  }

  /** An internal step that is not put off is taken by a task that is not behind. */
  lemma SilentIsCurrent(c: Config, s: State, d: State, a: Step, p': PC, now: bool)
    requires Follows(c, s, d) && Owner(a) in s.pc && Owner(a) in d.pc && StepMove(a, s.pc[Owner(a)], p')
    requires !PutOff(d.pc[Owner(a)], a, now) && !Observable(a)
    ensures d.pc[Owner(a)] == s.pc[Owner(a)] && CanPass(s, s.pc[Owner(a)], d.pc[Owner(a)])
  {
    var t := Owner(a);
    PlaceFollows(c, s.pc, d.pc, t);
    if d.pc[t] != s.pc[t] {
      BehindAt(c.fix, a, s.pc[t], p', d.pc[t], now);
    }
  }
}
