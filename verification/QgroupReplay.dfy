/** When replay loses nothing by its restriction on internal steps: an enable, a disable
    or a rescan that has begun shows its next event first, and no other task's zero
    tracking gets in the way of a wait that is interrupted. */
module QgroupReplay {
  import opened Options
  import opened QgroupLifecycle
  import opened QgroupMoves
  import opened QgroupSafety
  import opened QgroupLanguage
  import opened QgroupRuns
  import opened QgroupUnmount
  import opened QgroupTrace
  import opened QgroupDelay

  // ----- The condition on the trace -----

  predicate Starts(a: Action) {
    a == QuotaEnable_Enter || a == QuotaDisable_Enter || a == QgroupRescan_Enter
  }

  /** After the start of an enable, a disable or a rescan its task shows the next event. */
  ghost predicate StartsGoOn(trace: seq<Event>) {
    forall n :: 0 < n < |trace| && Starts(trace[n - 1].action) ==> trace[n].task == trace[n - 1].task
  }

  /** Before event n, t is in a wait that ends later, but not by the very next event. */
  ghost predicate Interrupted(trace: seq<Event>, n: nat, t: Task) {
    && 0 < n < |trace| && PhaseOf(trace[..n], t) == Waiting
    && (trace[n - 1].task != t || trace[n].task != t) && Finishes(trace, n, t)
  }

  ghost predicate Finishes(trace: seq<Event>, n: nat, t: Task) {
    exists h :: n <= h < |trace| && trace[h].task == t
  }

  predicate Zeroed(q: Phase) { q == EnableZeroed || q == RescanZeroed }

  /** During an interrupted wait no other task begins its zero tracking, nor has it ended
      its zero tracking and not yet its operation. */
  ghost predicate Undisturbed(trace: seq<Event>) {
    forall n: nat, t, u :: Interrupted(trace, n, t) && u != t ==>
      !Zeroed(PhaseOf(trace[..n], u)) && trace[n] != Event(u, RescanZeroTracking_Enter)
  }

  // ----- Who acts at once, and whose wait is put off -----

  /** Places that a task leaves, by itself, only when it owns the next event. */
  predicate Urgent(q: PC) {
    match q
    case En(e) => e != EnZtIter && e != EnZtDone && e != EnQueue && e != EnDone
    case Dis(d) =>
      || d == DisCheck || d == DisClearEnabled || d == DisWaitEnter || d == DisWaitRead || d == DisWaitBlock
      || d == DisWaitDone || d == DisTrans || d == DisClearRoot || d == DisFreeEnter
    case Res(r) => r == ResInit || r == ResCommit || r == ResZtEnter
    case Wt(w) => w != WaitRead
    case Um(u) => u == UmWaitBlock || u == UmWaitDone
    case _ => false
  }

  ghost predicate Prompt(trace: seq<Event>, n: nat, d: State) {
    n < |trace| ==> forall t :: t in d.pc && Urgent(d.pc[t]) ==> t == trace[n].task
  }

  /** A rescan that has reset the completion and not yet begun its zero tracking. */
  predicate Resetting(p: PC) { p == En(EnZtEnter) || p == Res(ResCommit) || p == Res(ResZtEnter) }

  /** A read of the wait would let u pass, or some task is about to track. */
  ghost predicate StillPasses(s: State, u: Task) {
    !s.rescanRunning || s.completionDone || exists v :: v in s.pc && v != u && Resetting(s.pc[v])
  }

  predicate Passed(p: PC) { p == Wt(WaitDone) || p == Um(UmWaitDone) }

  ghost predicate HeldFor(trace: seq<Event>, n: nat, s: State, t: Task)
    requires n < |trace| && t in s.pc
  {
    && 0 < n && (trace[n - 1].task != t || trace[n].task != t)
    && (Passed(s.pc[t]) && Finishes(trace, n, t) ==> StillPasses(s, t))
  }

  ghost predicate Held(trace: seq<Event>, n: nat, s: State, d: State) {
    n < |trace| ==>
      forall t :: t in s.pc && t in d.pc && PutsOffWait(s.pc[t], d.pc[t]) ==> HeldFor(trace, n, s, t)
  }

  // ----- What the wait depends on -----

  lemma ResettingMoves(a: Step, p: PC, q: PC)
    requires StepMove(a, p, q) && Resetting(p)
    ensures Resetting(q) || Label(a) == Some(RescanZeroTracking_Enter)
  {
  }

  lemma EnableWork(c: Config, s: State, t: Task, a: EnableAction, s': State)
    requires FireEnable(c, s, t, a) == Some(s')
    ensures t in s'.pc && (s'.rescanRunning ==> s.rescanRunning || a == E_Queue)
    ensures s.completionDone ==> s'.completionDone || Resetting(s'.pc[t])
  {
    match a
    case QuotaEnableEnter =>
    case E_Check =>
    case E_Create =>
    case E_SetRoot =>
    case E_SimpleSkip =>
    case E_RescanInit =>
    case E_ZTEnter =>
    case E_ZTLock =>
    case E_ZTUnlock =>
    case E_ZTDone =>
    case E_Queue =>
    case QuotaEnableDone =>
  }

  lemma RescanWork(c: Config, s: State, t: Task, a: RescanAction, s': State)
    requires FireRescan(c, s, t, a) == Some(s')
    ensures t in s'.pc && (s'.rescanRunning ==> s.rescanRunning || a == R_Queue)
    ensures s.completionDone ==> s'.completionDone || Resetting(s'.pc[t])
  {
    match a
    case QgroupRescanEnter =>
    case R_Init =>
    case R_Commit =>
    case R_ZTEnter =>
    case R_ZTLock =>
    case R_ZTUnlock =>
    case R_ZTDone =>
    case R_Queue =>
    case QgroupRescanDone =>
  }

  lemma UnmountWork(c: Config, s: State, t: Task, a: UnmountAction, s': State)
    requires FireUnmount(c, s, t, a) == Some(s')
    ensures s'.rescanRunning ==> s.rescanRunning && s'.completionDone == s.completionDone
  {
    match a
    case UmountBegin =>
    case M_WaitRead =>
    case M_WaitBlocked =>
    case M_WaitDone =>
    case M_FreeEnter =>
    case M_FreeLock =>
    case M_FreeDo =>
    case M_FreeDone =>
  }

  lemma WaitWork(c: Config, s: State, t: Task, a: WaitAction, s': State)
    requires FireWait(c, s, t, a) == Some(s')
    ensures s'.rescanRunning == s.rescanRunning && s'.completionDone == s.completionDone
  {
    match a
    case UserWaitEnter =>
    case U_WaitRead =>
    case U_WaitBlocked =>
    case UserWaitDone =>
  }

  lemma WorkerWork(s: State, a: WorkerAction, s': State)
    requires FireWorker(s, a) == Some(s')
    ensures s'.rescanRunning ==> s.rescanRunning && s'.completionDone == s.completionDone
  {
    match a
    case WorkerStart =>
    case W_ScanLock =>
    case W_ScanUnlock =>
    case W_ExitLoop =>
    case W_Finish =>
    case WorkerDone =>
  }

  /** What a step changes for the waiting: it queues, or it resets and is about to track. */
  lemma WorkChanges(c: Config, s: State, a: Step, s': State)
    requires Fire(c, s, a) == Some(s')
    ensures Owner(a) in s'.pc && (s'.rescanRunning ==> s.rescanRunning || Enqueues(a))
    ensures s.completionDone ==> s'.completionDone || !s'.rescanRunning || Resetting(s'.pc[Owner(a)])
  {
    StepMoves(c, s, a, s');
    hide FireEnable, FireDisable, FireRescan, FireWait, FireUnmount, FireWorker, StepMove;
    match a
    case Enable(t, e) => EnableWork(c, s, t, e, s');
    case Rescan(t, r) => RescanWork(c, s, t, r, s');
    case Disable(t, d) => DisableKeepsWork(c, s, t, d, s');
    case Unmount(t, u) => UnmountWork(c, s, t, u, s');
    case Wait(t, w) => WaitWork(c, s, t, w, s');
    case Work(w) => WorkerWork(s, w, s');
  }

  lemma DisableKeepsWork(c: Config, s: State, t: Task, a: DisableAction, s': State)
    requires FireDisable(c, s, t, a) == Some(s')
    ensures s'.rescanRunning == s.rescanRunning && s'.completionDone == s.completionDone
  {
    match a
    case QuotaDisableEnter =>
    case D_Check =>
    case D_ClearEnabled =>
    case D_WaitEnter =>
    case D_WaitRead =>
    case D_WaitBlocked =>
    case D_WaitDone =>
    case D_Trans =>
    case D_ClearRoot =>
    case D_FreeEnter =>
    case D_FreeLock =>
    case D_FreeDo =>
    case D_FreeDone =>
    case D_Clean =>
    case QuotaDisableDone =>
  }

  lemma PassKept(c: Config, s: State, a: Step, s': State, u: Task)
    requires StillPasses(s, u) && Owner(a) != u && Fire(c, s, a) == Some(s') && MovesOnly(c, s, Owner(a), s')
    requires !Enqueues(a) && Label(a) != Some(RescanZeroTracking_Enter)
    ensures StillPasses(s', u)
  {
    var t := Owner(a);
    hide Fire, StepMove, Label, Enqueues;
    StepMoves(c, s, a, s');
    WorkChanges(c, s, a, s');
    if s.rescanRunning && !s.completionDone {
      var v :| v in s.pc && v != u && Resetting(s.pc[v]);
      if v == t {
        ResettingMoves(a, s.pc[t], s'.pc[t]);
      }
      assert v in s'.pc && Resetting(s'.pc[v]);
    } else if s'.rescanRunning && !s'.completionDone {
      assert Resetting(s'.pc[t]);
    }
  }

  // ----- The run so far, and the replay that follows it -----

  /** Steps of the run up to event n, and the replay that has consumed as much. */
  ghost predicate KeepsUp(c: Config, trace: seq<Event>, steps: seq<Step>, n: nat, s: State, taken: seq<Step>,
                          d: State) {
    && n <= |trace| && Path(c, Init(c), steps, trace[..n], s) && Locks(c, s) && Follows(c, s, d)
    && ReplayAfter(c, trace, taken) == Some(Replay(d, n)) && Prompt(trace, n, d) && Held(trace, n, s, d)
  }

  /** Only the task of the next event can be about to track. */
  lemma OthersResetNothing(trace: seq<Event>, n: nat, c: Config, s: State, d: State)
    requires n < |trace| && Follows(c, s, d) && Prompt(trace, n, d) && s.pc.Keys == d.pc.Keys
    ensures forall v :: v in s.pc && v != trace[n].task ==> !Resetting(s.pc[v])
  {
    forall v | v in s.pc && v != trace[n].task
      ensures !Resetting(s.pc[v])
    {
      PlaceFollows(c, s.pc, d.pc, v);
    }
  }

  /** A task at its event has not missed its wait. */
  lemma WaitStillPasses(trace: seq<Event>, n: nat, c: Config, s: State, d: State, t: Task)
    requires n < |trace| && Follows(c, s, d) && Prompt(trace, n, d) && Held(trace, n, s, d)
    requires s.pc.Keys == d.pc.Keys && t in s.pc && trace[n].task == t &&
             (PutsOffWait(s.pc[t], d.pc[t]) ==> Passed(s.pc[t]))
    ensures CanPass(s, s.pc[t], d.pc[t])
  {
    OthersResetNothing(trace, n, c, s, d);
    if PutsOffWait(s.pc[t], d.pc[t]) {
      assert HeldFor(trace, n, s, t) && Finishes(trace, n, t);
    }
  }

  /** A task whose wait is over can only end it. */
  lemma EndsWait(a: Step, p: PC, p': PC, q: PC)
    requires StepMove(a, p, p') && PutsOffWait(p, q) && Observable(a)
    ensures Passed(p)
  {
  }

  // ----- The replay of what is taken -----

  lemma ReplayExtend(c: Config, trace: seq<Event>, taken: seq<Step>, r: Replay, b: Step)
    requires ReplayAfter(c, trace, taken) == Some(r)
    ensures ReplayAfter(c, trace, taken + [b]) == ReplayStep(c, trace, r, b)
  {
    assert (taken + [b])[..|taken + [b]| - 1] == taken;
    hide ReplayStep;
  }

  lemma ReplaySilentStep(c: Config, trace: seq<Event>, taken: seq<Step>, d: State, n: nat, b: Step, d': State)
    requires ReplayAfter(c, trace, taken) == Some(Replay(d, n)) && n < |trace| && Fire(c, d, b) == Some(d')
    requires MayRunSilently(trace[n], b)
    ensures ReplayAfter(c, trace, taken + [b]) == Some(Replay(d', n))
  {
    hide Fire, ReplayAfter, Label;
    ReplayExtend(c, trace, taken, Replay(d, n), b);
  }

  lemma ReplayEvent(c: Config, trace: seq<Event>, taken: seq<Step>, d: State, n: nat, b: Step, d': State)
    requires ReplayAfter(c, trace, taken) == Some(Replay(d, n)) && n < |trace| && Fire(c, d, b) == Some(d')
    requires Events(b) == [trace[n]]
    ensures ReplayAfter(c, trace, taken + [b]) == Some(Replay(d', n + 1))
  {
    OneEvent(b, trace[n]);
    hide Fire, ReplayAfter, Label, Events;
    ReplayExtend(c, trace, taken, Replay(d, n), b);
  }

  ghost predicate AllTried(e: Event, more: seq<Step>) { forall b :: b in more ==> MayRunSilently(e, b) }

  lemma TriedLast(e: Event, more: seq<Step>)
    requires more != [] && AllTried(e, more)
    ensures AllTried(e, more[..|more| - 1]) && MayRunSilently(e, more[|more| - 1])
  {
    hide MayRunSilently;
    assert more[|more| - 1] in more;
  }

  lemma LastIsSilent(c: Config, d: State, more: seq<Step>, d': State) returns (shorter: seq<Step>, m: State, b: Step)
    requires more != [] && Path(c, d, more, [], d')
    ensures shorter == more[..|more| - 1] && b == more[|more| - 1] && more == shorter + [b]
    ensures Path(c, d, shorter, [], m) && Fire(c, m, b) == Some(d') && Events(b) == []
  {
    hide Fire, Label;
    var before;
    shorter, before, m, b := PathLast(c, d, more, [], d');
    assert |before + Events(b)| == 0;
  }

  lemma {:induction false} ReplaySilently(c: Config, trace: seq<Event>, taken: seq<Step>, d: State, n: nat,
                                          more: seq<Step>, d': State)
    requires ReplayAfter(c, trace, taken) == Some(Replay(d, n)) && n < |trace| && Path(c, d, more, [], d')
    requires AllTried(trace[n], more)
    ensures ReplayAfter(c, trace, taken + more) == Some(Replay(d', n))
    decreases |more|
  {
    hide Fire, MayRunSilently, Path, Label;
    if more == [] {
      assert taken + more == taken;
      PathNowhere(c, d, d');
    } else {
      TriedLast(trace[n], more);
      var shorter, m, b := LastIsSilent(c, d, more, d');
      hide AllTried;
      ReplaySilently(c, trace, taken, d, n, shorter, m);
      ReplaySilentStep(c, trace, taken + shorter, m, n, b, d');
      assert taken + more == (taken + shorter) + [b];
    }
  }

  lemma PathNowhere(c: Config, d: State, d': State)
    requires Path(c, d, [], [], d')
    ensures d' == d
  {
  }

  lemma PrepareIsSilent(c: Config, q: PC, running: bool, a: Step)
    ensures forall b :: b in Prepare(c, q, running, a) ==> !Observable(b) && Owner(b) == Owner(a)
    ensures Prepare(c, q, running, a) != [] ==> Observable(a)
  {
  }

  /** An internal step that is taken is one that replay tries. */
  lemma UrgentOrTried(a: Step, p: PC, p': PC, now: bool)
    requires StepMove(a, p, p') && !Observable(a) && !PutOff(p, a, now)
    ensures Urgent(p) || Enqueues(a) || a.Work? || now
  {
  }

  /** Where an urgent place comes from. */
  lemma UrgentFrom(a: Step, p: PC, r: PC, now: bool)
    requires StepMove(a, p, r) && Urgent(r) && !PutOff(p, a, now)
    ensures if Observable(a) then Starts(Label(a).value) else Urgent(p) || now
  {
    hide DisableMove;
    match a
    case Enable(_, e) =>
    case Rescan(_, e) =>
    case Disable(_, d) => UrgentDisable(d, p, r);
    case Wait(_, w) =>
    case Unmount(_, u) =>
    case Work(w) =>
  }

  lemma UrgentDisable(d: DisableAction, p: PC, r: PC)
    requires DisableMove(d, p, r) && Urgent(r)
    ensures d == QuotaDisableEnter || (Urgent(p) && !Observable(Disable(Worker, d)))
  {
  }

  // ----- One more step of the run -----

  lemma PromptKeptSilently(trace: seq<Event>, n: nat, d: State, t: Task, a: Step, p: PC, d': State, r: PC, now: bool)
    requires n < |trace| && Prompt(trace, n, d) && t in d.pc && d'.pc == d.pc[t := r] && (now ==> trace[n].task == t)
    requires d.pc[t] == p && StepMove(a, p, r) && !PutOff(p, a, now) && !Observable(a)
    ensures Prompt(trace, n, d')
  {
    hide Urgent, StepMove, PutOff, Label;
    if Urgent(r) {
      UrgentFrom(a, p, r, now);
    }
  }

  lemma PromptKeptByEvent(trace: seq<Event>, n: nat, d: State, t: Task, a: Step, p: PC, d': State, r: PC)
    requires n < |trace| && Prompt(trace, n, d) && t in d.pc && d'.pc == d.pc[t := r] && StartsGoOn(trace)
    requires Events(a) == [trace[n]] && t == Owner(a) && StepMove(a, p, r)
    ensures Prompt(trace, n + 1, d')
  {
    OneEvent(a, trace[n]);
    hide Urgent, StepMove, PutOff, Label, Starts;
    if PutOff(p, a, true) {
      PutOffIsSilent(p, a, true);
    }
    if Urgent(r) {
      UrgentFrom(a, p, r, true);
    }
    if n + 1 < |trace| {
      NextIsOwn(trace, n);
      forall u | u in d'.pc && Urgent(d'.pc[u])
        ensures u == trace[n + 1].task
      {
      }
    }
  }

  lemma NextIsOwn(trace: seq<Event>, n: nat)
    requires n + 1 < |trace| && StartsGoOn(trace)
    ensures Starts(trace[n].action) ==> trace[n + 1].task == trace[n].task
  {
    var m := n + 1;
    assert trace[m - 1] == trace[n];
  }

  /** A wait that was put off is an interrupted one. */
  lemma HeldIsInterrupted(c: Config, trace: seq<Event>, steps: seq<Step>, n: nat, s: State, u: Task, q: PC)
    requires n < |trace| && Path(c, Init(c), steps, trace[..n], s) && u in s.pc && PutsOffWait(s.pc[u], q) &&
             u in Tasks(c)
    requires HeldFor(trace, n, s, u) && Finishes(trace, n, u)
    ensures Interrupted(trace, n, u)
  {
    RunFits(c, steps, u);
  }

  /** Nobody queues the worker during an interrupted wait. */
  lemma NoQueueDuringWait(c: Config, trace: seq<Event>, steps: seq<Step>, n: nat, s: State, a: Step, s': State, u: Task)
    requires n < |trace| && Path(c, Init(c), steps, trace[..n], s) && Undisturbed(trace) && Interrupted(trace, n, u)
    requires Fire(c, s, a) == Some(s') && Owner(a) in Tasks(c) && Owner(a) != u
    requires Events(a) == [] || Events(a) == [trace[n]]
    ensures !Enqueues(a) && Label(a) != Some(RescanZeroTracking_Enter)
  {
    var t := Owner(a);
    NoTrackingDuringWait(trace, n, t, u);
    hide Fire, Undisturbed, StepMove, Fits, Zeroed, PhaseOf, Interrupted, Path;
    if Observable(a) {
      OneEvent(a, trace[n]);
    }
    StepMoves(c, s, a, s');
    FitsAt(c, steps, trace[..n], s, t);
    if Enqueues(a) {
      QueueIsZeroed(a, s.pc[t], s'.pc[t], PhaseOf(trace[..n], t));
    }
  }

  lemma NoTrackingDuringWait(trace: seq<Event>, n: nat, t: Task, u: Task)
    requires Undisturbed(trace) && Interrupted(trace, n, u) && t != u
    ensures n < |trace| && !Zeroed(PhaseOf(trace[..n], t)) && trace[n] != Event(t, RescanZeroTracking_Enter)
  {
  }

  lemma FitsAt(c: Config, steps: seq<Step>, trace: seq<Event>, s: State, t: Task)
    requires Path(c, Init(c), steps, trace, s) && t in Tasks(c)
    ensures t in s.pc && Fits(s.pc[t], PhaseOf(trace, t))
  {
    RunFits(c, steps, t);
  }

  lemma QueueIsZeroed(a: Step, p: PC, p': PC, q: Phase)
    requires StepMove(a, p, p') && Enqueues(a) && Fits(p, q)
    ensures Zeroed(q)
  {
  }

  lemma HeldForOthers(c: Config, trace: seq<Event>, steps: seq<Step>, n: nat, s: State, d: State, a: Step, s': State,
                      u: Task)
    requires n < |trace| && Path(c, Init(c), steps, trace[..n], s) && Undisturbed(trace) && s.pc.Keys == Tasks(c)
    requires Fire(c, s, a) == Some(s') && MovesOnly(c, s, Owner(a), s') && Owner(a) != u && u in s.pc && u in d.pc
    requires PutsOffWait(s.pc[u], d.pc[u]) && HeldFor(trace, n, s, u)
    requires Events(a) == [] || Events(a) == [trace[n]]
    ensures u in s'.pc && s'.pc[u] == s.pc[u]
    ensures Passed(s.pc[u]) && Finishes(trace, n, u) ==> StillPasses(s', u)
  {
    hide Fire, Undisturbed, Path, PutsOffWait, StillPasses, Passed, Finishes, Label, Enqueues;
    if Passed(s.pc[u]) && Finishes(trace, n, u) {
      HeldIsInterrupted(c, trace, steps, n, s, u, d.pc[u]);
      NoQueueDuringWait(c, trace, steps, n, s, a, s', u);
      PassKept(c, s, a, s', u);
    }
  }

  /** A wait is put off by its read or by its wake-up. */
  predicate WaitStep(a: Step) {
    || (a.Wait? && (a.wait == U_WaitRead || a.wait == U_WaitBlocked))
    || (a.Unmount? && (a.unmount == M_WaitRead || a.unmount == M_WaitBlocked))
  }

  lemma PutOffByWait(a: Step, p: PC, p': PC, q: PC, now: bool)
    requires StepMove(a, p, p') && PutOff(q, a, now) && PutsOffWait(p', q)
    ensures WaitStep(a) && (PutsOffWait(p, q) || (!now && (p == Wt(WaitRead) || p == Um(UmWaitRead))))
  {
  }

  lemma WaitReadPasses(c: Config, s: State, t: Task, a: WaitAction, s': State)
    requires FireWait(c, s, t, a) == Some(s') && (a == U_WaitRead || a == U_WaitBlocked)
    ensures t in s'.pc && (s'.pc[t] == Wt(WaitDone) ==> !s'.rescanRunning || s'.completionDone)
    ensures s'.pc[t].Wt?
  {
    if a == U_WaitRead {
    } else if a == U_WaitBlocked {
    }
  }

  lemma UnmountReadPasses(c: Config, s: State, t: Task, a: UnmountAction, s': State)
    requires FireUnmount(c, s, t, a) == Some(s') && (a == M_WaitRead || a == M_WaitBlocked)
    ensures t in s'.pc && (s'.pc[t] == Um(UmWaitDone) ==> !s'.rescanRunning || s'.completionDone)
    ensures s'.pc[t].Um?
  {
    if a == M_WaitRead {
    } else if a == M_WaitBlocked {
    }
  }

  lemma WaitPasses(c: Config, s: State, a: Step, s': State)
    requires Fire(c, s, a) == Some(s') && WaitStep(a)
    ensures a.t in s'.pc && (Passed(s'.pc[a.t]) ==> !s'.rescanRunning || s'.completionDone)
  {
    hide FireWait, FireUnmount;
    if a.Wait? {
      WaitReadPasses(c, s, a.t, a.wait, s');
    } else {
      UnmountReadPasses(c, s, a.t, a.unmount, s');
    }
  }

  lemma WaitHasBegun(c: Config, steps: seq<Step>, trace: seq<Event>, s: State, t: Task)
    requires Path(c, Init(c), steps, trace, s) && t in Tasks(c) && t in s.pc
    requires s.pc[t] == Wt(WaitRead) || s.pc[t] == Um(UmWaitRead)
    ensures trace != []
  {
    RunFits(c, steps, t);
  }

  /** The waits put off after an internal step. */
  lemma HeldKeptSilently(c: Config, trace: seq<Event>, steps: seq<Step>, n: nat, s: State, d: State, a: Step, s': State,
                         d': State, r: PC, now: bool)
    requires n < |trace| && Path(c, Init(c), steps, trace[..n], s) && Undisturbed(trace) && Held(trace, n, s, d)
    requires s.pc.Keys == Tasks(c) && d.pc.Keys == Tasks(c) && Fire(c, s, a) == Some(s') && Events(a) == []
    requires MovesOnly(c, s, Owner(a), s') && Owner(a) in d.pc && d'.pc == d.pc[Owner(a) := r]
    requires now <==> trace[n].task == Owner(a)
    requires if PutOff(d.pc[Owner(a)], a, now) then d' == d else !PutsOffWait(s'.pc[Owner(a)], r)
    ensures Held(trace, n, s', d')
  {
    var t := Owner(a);
    StepMoves(c, s, a, s');
    hide Fire, Undisturbed, Path, PutsOffWait, StillPasses, Passed, Finishes, Label, StepMove, PutOff, Enqueues;
    forall u | u in s'.pc && u in d'.pc && PutsOffWait(s'.pc[u], d'.pc[u])
      ensures HeldFor(trace, n, s', u)
    {
      if u != t {
        HeldForOthers(c, trace, steps, n, s, d, a, s', u);
      } else {
        HeldForMover(c, trace, steps, n, s, d, a, s', now);
      }
    }
  }

  lemma HeldForMover(c: Config, trace: seq<Event>, steps: seq<Step>, n: nat, s: State, d: State, a: Step, s': State,
                     now: bool)
    requires n < |trace| && Path(c, Init(c), steps, trace[..n], s) && Held(trace, n, s, d)
    requires s.pc.Keys == Tasks(c) && d.pc.Keys == Tasks(c) && Fire(c, s, a) == Some(s')
    requires MovesOnly(c, s, Owner(a), s') && (now <==> trace[n].task == Owner(a))
    requires PutOff(d.pc[Owner(a)], a, now) && PutsOffWait(s'.pc[Owner(a)], d.pc[Owner(a)])
    ensures HeldFor(trace, n, s', Owner(a))
  {
    var t := Owner(a);
    StepMoves(c, s, a, s');
    hide Fire, PutsOffWait, Passed, Finishes, StepMove, PutOff, MovesOnly;
    PutOffByWait(a, s.pc[t], s'.pc[t], d.pc[t], now);
    WaitPasses(c, s, a, s');
    if !PutsOffWait(s.pc[t], d.pc[t]) {
      WaitHasBegun(c, steps, trace[..n], s, t);
    }
  }

  /** The waits put off after the next event. */
  lemma HeldKeptByEvent(c: Config, trace: seq<Event>, steps: seq<Step>, n: nat, s: State, d: State, a: Step, s': State,
                        d': State, r: PC)
    requires n < |trace| && Path(c, Init(c), steps, trace[..n], s) && Undisturbed(trace) && Held(trace, n, s, d)
    requires s.pc.Keys == Tasks(c) && d.pc.Keys == Tasks(c) && Fire(c, s, a) == Some(s') && Events(a) == [trace[n]]
    requires MovesOnly(c, s, Owner(a), s') && Owner(a) in d.pc && d'.pc == d.pc[Owner(a) := r]
    requires !PutsOffWait(s'.pc[Owner(a)], r)
    ensures Held(trace, n + 1, s', d')
  {
    OneEvent(a, trace[n]);
    hide Fire, Undisturbed, Path, PutsOffWait, StillPasses, Passed, Label, Events, Enqueues;
    if n + 1 < |trace| {
      forall u | u in s'.pc && u in d'.pc && PutsOffWait(s'.pc[u], d'.pc[u])
        ensures HeldFor(trace, n + 1, s', u)
      {
        HeldForOthers(c, trace, steps, n, s, d, a, s', u);
      }
    }
  }

  lemma SameTasks(c: Config, s: State, d: State)
    requires Locks(c, s) && Follows(c, s, d)
    ensures s.pc.Keys == Tasks(c) && d.pc.Keys == Tasks(c)
  {
  }

  lemma OwnerEffect(c: Config, s: State, a: Step, s': State)
    requires Fire(c, s, a) == Some(s') && Locks(c, s)
    ensures MovesOnly(c, s, Owner(a), s')
  {
    StepEffect(c, s, a, s');
  }

  /** An internal step that is taken is tried. */
  lemma TakenIsTried(c: Config, trace: seq<Event>, n: nat, s: State, d: State, a: Step, s': State, now: bool)
    requires n < |trace| && Follows(c, s, d) && Prompt(trace, n, d) && Fire(c, s, a) == Some(s')
    requires Owner(a) in s.pc && Owner(a) in d.pc && !Observable(a) && !PutOff(d.pc[Owner(a)], a, now)
    requires now <==> trace[n].task == Owner(a)
    ensures MayRunSilently(trace[n], a) && d.pc[Owner(a)] == s.pc[Owner(a)] &&
            CanPass(s, s.pc[Owner(a)], d.pc[Owner(a)])
  {
    hide Fire, Follows, StepMove, PutOff, Urgent, Label, CanPass, Enqueues;
    StepMoves(c, s, a, s');
    SilentIsCurrent(c, s, d, a, s'.pc[Owner(a)], now);
    UrgentOrTried(a, s.pc[Owner(a)], s'.pc[Owner(a)], now);
  }

  lemma SilentKeepsUp(c: Config, trace: seq<Event>, steps: seq<Step>, n: nat, s: State, taken: seq<Step>, d: State,
                      a: Step, s': State)
    returns (taken': seq<Step>, d': State)
    requires KeepsUp(c, trace, steps, n, s, taken, d) && n < |trace| && Undisturbed(trace)
    requires Fire(c, s, a) == Some(s') && Events(a) == []
    ensures KeepsUp(c, trace, steps + [a], n, s', taken', d')
  {
    var t := Owner(a);
    var now := trace[n].task == t;
    hide Fire, Follows, Locks, StepMove, PutOff, Label, CanPass, Undisturbed, Held, Prompt, Path, MovesOnly, Prepare,
         ReplayAfter,
         PutsOffWait, MayRunSilently, Tasks;
    SameTasks(c, s, d);
    OwnerIsThere(c, s, a, s');
    OwnerEffect(c, s, a, s');
    if !PutOff(d.pc[t], a, now) {
      TakenIsTried(c, trace, n, s, d, a, s', now);
    }
    var r;
    d', r := StepFollows(c, s, a, s', c, d, now);
    PathExtend(c, Init(c), steps, trace[..n], s, a, s');
    assert trace[..n] + [] == trace[..n];
    HeldKeptSilently(c, trace, steps, n, s, d, a, s', d', r, now);
    taken' := taken + Taken(c, d, a, now);
    SilentTaken(c, trace, n, taken, d, a, now, d');
    if !PutOff(d.pc[t], a, now) {
      PromptKeptSilently(trace, n, d, t, a, s.pc[t], d', r, now);
    }
  }

  lemma OwnerIsThere(c: Config, s: State, a: Step, s': State)
    requires Fire(c, s, a) == Some(s')
    ensures Owner(a) in s.pc
  {
    StepMoves(c, s, a, s');
  }

  /** Internally nothing is taken, or the step itself. */
  lemma TakenSilently(c: Config, d: State, a: Step, now: bool)
    requires Owner(a) in d.pc && !Observable(a)
    ensures Taken(c, d, a, now) == if PutOff(d.pc[Owner(a)], a, now) then [] else [a]
  {
    PrepareIsSilent(c, d.pc[Owner(a)], d.rescanRunning, a);
    assert [] + [a] == [a];
  }

  lemma SilentTaken(c: Config, trace: seq<Event>, n: nat, taken: seq<Step>, d: State, a: Step, now: bool, d': State)
    requires ReplayAfter(c, trace, taken) == Some(Replay(d, n)) && n < |trace| && Owner(a) in d.pc && Events(a) == []
    requires !PutOff(d.pc[Owner(a)], a, now) ==> MayRunSilently(trace[n], a)
    requires Path(c, d, Taken(c, d, a, now), [], d')
    ensures ReplayAfter(c, trace, taken + Taken(c, d, a, now)) == Some(Replay(d', n))
  {
    assert !Observable(a);
    hide PutOff, Prepare, Path, ReplayAfter, MayRunSilently, Label, Taken;
    TakenSilently(c, d, a, now);
    ReplaySilently(c, trace, taken, d, n, Taken(c, d, a, now), d');
  }

  lemma TakenAtEvent(c: Config, d: State, a: Step, now: bool)
    requires Owner(a) in d.pc && Observable(a)
    ensures Taken(c, d, a, now) == Prepare(c, d.pc[Owner(a)], d.rescanRunning, a) + [a]
  {
    hide Label, PutOff, Prepare;
    if PutOff(d.pc[Owner(a)], a, now) {
      PutOffIsSilent(d.pc[Owner(a)], a, now);
    }
  }

  lemma EventTaken(c: Config, trace: seq<Event>, n: nat, taken: seq<Step>, d: State, a: Step, now: bool, d': State)
    requires ReplayAfter(c, trace, taken) == Some(Replay(d, n)) && n < |trace| && Owner(a) in d.pc
    requires Events(a) == [trace[n]] && Path(c, d, Taken(c, d, a, now), [trace[n]], d')
    ensures ReplayAfter(c, trace, taken + Taken(c, d, a, now)) == Some(Replay(d', n + 1))
  {
    OneEvent(a, trace[n]);
    hide Fire, PutOff, Prepare, Path, ReplayAfter, Label, Events, Taken, AllTried;
    var prep := Prepare(c, d.pc[Owner(a)], d.rescanRunning, a);
    TakenAtEvent(c, d, a, now);
    PrepareIsTried(c, d.pc[Owner(a)], d.rescanRunning, a, trace[n]);
    var m := PathBeforeLast(c, d, prep, a, trace[n], d');
    ReplaySilently(c, trace, taken, d, n, prep, m);
    ReplayEvent(c, trace, taken + prep, m, n, a, d');
    assert taken + (prep + [a]) == (taken + prep) + [a];
  }

  lemma PrepareIsTried(c: Config, q: PC, running: bool, a: Step, e: Event)
    requires e.task == Owner(a)
    ensures AllTried(e, Prepare(c, q, running, a))
  {
    PrepareIsSilent(c, q, running, a);
    hide Prepare, Label;
  }

  lemma PathBeforeLast(c: Config, d: State, prep: seq<Step>, a: Step, e: Event, d': State) returns (m: State)
    requires Path(c, d, prep + [a], [e], d') && Events(a) == [e]
    ensures Path(c, d, prep, [], m) && Fire(c, m, a) == Some(d')
  {
    hide Fire, Events;
    var shorter, before, b;
    shorter, before, m, b := PathLast(c, d, prep + [a], [e], d');
    assert shorter == prep;
    assert |before + Events(b)| == 1;
  }

  lemma EventFollowed(c: Config, trace: seq<Event>, n: nat, s: State, d: State, a: Step, s': State)
      returns (d': State, r: PC)
    requires n < |trace| && Follows(c, s, d) && Locks(c, s) && Prompt(trace, n, d) && Held(trace, n, s, d)
    requires Fire(c, s, a) == Some(s') && Events(a) == [trace[n]]
    ensures Owner(a) in s.pc && Owner(a) in d.pc && Owner(a) in s'.pc
    ensures Path(c, d, Taken(c, d, a, true), [trace[n]], d') && Follows(c, s', d') && Locks(c, s')
    ensures d'.pc == d.pc[Owner(a) := r] && !PutsOffWait(s'.pc[Owner(a)], r) && StepMove(a, s.pc[Owner(a)], r)
  {
    OneEvent(a, trace[n]);
    hide Fire, Follows, Locks, StepMove, PutOff, Label, CanPass, Held, Prompt, Path, PutsOffWait, Tasks, Taken, Events;
    SameTasks(c, s, d);
    OwnerIsThere(c, s, a, s');
    StepMoves(c, s, a, s');
    EventPasses(trace, n, c, s, d, a, s'.pc[Owner(a)]);
    if PutOff(d.pc[Owner(a)], a, true) {
      PutOffIsSilent(d.pc[Owner(a)], a, true);
    }
    d', r := StepFollows(c, s, a, s', c, d, true);
  }

  lemma EventKeepsUp(c: Config, trace: seq<Event>, steps: seq<Step>, n: nat, s: State, taken: seq<Step>, d: State,
                     a: Step, s': State)
    returns (taken': seq<Step>, d': State)
    requires KeepsUp(c, trace, steps, n, s, taken, d) && n < |trace| && Undisturbed(trace) && StartsGoOn(trace)
    requires Fire(c, s, a) == Some(s') && Events(a) == [trace[n]]
    ensures KeepsUp(c, trace, steps + [a], n + 1, s', taken', d')
  {
    hide Fire, Follows, Locks, StepMove, Label, Undisturbed, StartsGoOn, Held, Prompt, Path, MovesOnly, ReplayAfter,
         PutsOffWait, Tasks, Taken, Events;
    var r;
    d', r := EventFollowed(c, trace, n, s, d, a, s');
    SameTasks(c, s, d);
    OwnerEffect(c, s, a, s');
    PathExtend(c, Init(c), steps, trace[..n], s, a, s');
    assert trace[..n] + [trace[n]] == trace[..n + 1];
    HeldKeptByEvent(c, trace, steps, n, s, d, a, s', d', r);
    EventTaken(c, trace, n, taken, d, a, true, d');
    EventPrompt(c, trace, n, s, d, a, d', r);
    taken' := taken + Taken(c, d, a, true);
  }

  lemma EventPrompt(c: Config, trace: seq<Event>, n: nat, s: State, d: State, a: Step, d': State, r: PC)
    requires n < |trace| && Prompt(trace, n, d) && StartsGoOn(trace) && Events(a) == [trace[n]]
    requires Owner(a) in s.pc && Owner(a) in d.pc && d'.pc == d.pc[Owner(a) := r] && StepMove(a, s.pc[Owner(a)], r)
    ensures Prompt(trace, n + 1, d')
  {
    hide Prompt, StartsGoOn, Events, StepMove;
    PromptKeptByEvent(trace, n, d, Owner(a), a, s.pc[Owner(a)], d', r);
  }

  lemma EventPasses(trace: seq<Event>, n: nat, c: Config, s: State, d: State, a: Step, p': PC)
    requires n < |trace| && Follows(c, s, d) && Prompt(trace, n, d) && Held(trace, n, s, d)
    requires s.pc.Keys == d.pc.Keys && Owner(a) in s.pc && trace[n].task == Owner(a) && Observable(a)
    requires StepMove(a, s.pc[Owner(a)], p')
    ensures CanPass(s, s.pc[Owner(a)], d.pc[Owner(a)])
  {
    var t := Owner(a);
    if PutsOffWait(s.pc[t], d.pc[t]) {
      hide Follows, Prompt, Held, StepMove, Label, PutsOffWait, Passed;
      EndsWait(a, s.pc[t], p', d.pc[t]);
      WaitStillPasses(trace, n, c, s, d, t);
    }
  }

  // ----- The theorem -----

  /** A run up to its last event, and the replay that follows it. */
  lemma {:induction false} RunReplays(c: Config, trace: seq<Event>, steps: seq<Step>, n: nat, s: State)
    returns (taken: seq<Step>, d: State)
    requires StartsGoOn(trace) && Undisturbed(trace) && n <= |trace| && Path(c, Init(c), steps, trace[..n], s)
    requires n == |trace| ==> steps == [] || Observable(steps[|steps| - 1])
    ensures KeepsUp(c, trace, steps, n, s, taken, d)
    decreases |steps|
  {
    if steps == [] {
      taken, d := [], Init(c);
      KeepsUpInitially(c, trace, n, s);
    } else {
      hide Fire, KeepsUp, StartsGoOn, Undisturbed, Label, Init, Events;
      var shorter, k, m, a := RunLast(c, trace, steps, n, s);
      var most, dm := RunReplays(c, trace, shorter, k, m);
      hide Path;
      if k < n {
        taken, d := EventKeepsUp(c, trace, shorter, k, m, most, dm, a, s);
      } else {
        taken, d := SilentKeepsUp(c, trace, shorter, n, m, most, dm, a, s);
      }
    }
  }

  /** The last step of a run: it shows the last event, or none. */
  lemma RunLast(c: Config, trace: seq<Event>, steps: seq<Step>, n: nat, s: State)
    returns (shorter: seq<Step>, k: nat, m: State, a: Step)
    requires steps != [] && n <= |trace| && Path(c, Init(c), steps, trace[..n], s)
    requires n == |trace| ==> Observable(steps[|steps| - 1])
    ensures k < |trace| && steps == shorter + [a] && |shorter| < |steps|
    ensures Path(c, Init(c), shorter, trace[..k], m) && Fire(c, m, a) == Some(s)
    ensures if k < n then n == k + 1 && Events(a) == [trace[k]] else k == n && Events(a) == []
  {
    var before;
    hide Fire, Label, Init;
    shorter, before, m, a := PathLast(c, Init(c), steps, trace[..n], s);
    k := LastCounts(trace, n, before, a);
  }

  lemma LastCounts(trace: seq<Event>, n: nat, before: seq<Event>, a: Step) returns (k: nat)
    requires n <= |trace| && trace[..n] == before + Events(a) && (n == |trace| ==> Observable(a))
    ensures k < |trace| && before == trace[..k]
    ensures if k < n then n == k + 1 && Events(a) == [trace[k]] else k == n && Events(a) == []
  {
    k := |before|;
    assert forall i :: 0 <= i < k ==> (before + Events(a))[i] == before[i];
    if Observable(a) {
      assert (before + Events(a))[k] == Events(a)[0];
    }
  }

  lemma KeepsUpInitially(c: Config, trace: seq<Event>, n: nat, s: State)
    requires n <= |trace| && Path(c, Init(c), [], trace[..n], s)
    ensures KeepsUp(c, trace, [], n, s, [], Init(c))
  {
    InitInv(c);
    assert |trace[..n]| == 0;
  }

  /** A run without the internal steps after its last event. */
  lemma {:induction false} DropSilentTail(c: Config, trace: seq<Event>, steps: seq<Step>) returns (shortest: seq<Step>)
    requires RunProjectsTo(c, steps, trace)
    ensures RunProjectsTo(c, shortest, trace) && (shortest == [] || Observable(shortest[|shortest| - 1]))
    decreases |steps|
  {
    if steps == [] || Observable(steps[|steps| - 1]) {
      shortest := steps;
    } else {
      shortest := DropSilentTail(c, trace, steps[..|steps| - 1]);
    }
  }

  /** Completeness where it holds: under the condition, the trace of a run is consumed. */
  lemma ReplayIsComplete(c: Config, trace: seq<Event>)
    requires WellAttributed(trace) && StartsGoOn(trace) && Undisturbed(trace)
    ensures Consumed(c, trace) <==> Accepted(c, trace)
  {
    if Accepted(c, trace) {
      var steps :| RunProjectsTo(c, steps, trace);
      var shortest := DropSilentTail(c, trace, steps);
      assert trace[..|trace|] == trace;
      var taken, d := RunReplays(c, trace, shortest, |trace|, After(c, Init(c), shortest).value);
    }
    if Consumed(c, trace) {
      ConsumedIsAccepted(c, trace);
    }
  }
}
