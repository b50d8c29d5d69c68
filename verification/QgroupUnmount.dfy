/** What the events of a run say about an unmount: whose wait leads to a free without a
    disable is unmounting from the start of the wait on, and until the free is done
    there is nobody beside it but the worker. */
module QgroupUnmount {
  import opened Options
  import opened Counting
  import opened QgroupLifecycle
  import opened QgroupMoves
  import opened QgroupSafety
  import opened QgroupLanguage
  import opened QgroupRuns
  import opened MutantLaws

  ghost predicate Unmounts(c: Config, s: State, t: Task) {
    Locks(c, s) && t in s.pc && s.pc[t].Um?
  }

  ghost predicate UnmountsNot(c: Config, s: State, t: Task) {
    Locks(c, s) && t in s.pc && !s.pc[t].Um?
  }

  ghost predicate Disables(c: Config, s: State, t: Task) {
    Locks(c, s) && t in s.pc && s.pc[t].Dis?
  }

  /** Accounting is off, nobody is switching it on, and no worker is queued. */
  ghost predicate NoWork(c: Config, s: State) {
    Locks(c, s) && !s.flagOn && !s.workerQueued && forall u :: u in s.pc ==> !s.pc[u].En?
  }

  // ----- One step -----

  lemma OthersStay(c: Config, s: State, t: Task, a: Step, s': State)
    requires Effect(c, s, Owner(a), s') && t in s.pc && t != Owner(a)
    ensures t in s'.pc && s'.pc[t] == s.pc[t]
  {
  }

  lemma StaysOut(c: Config, s: State, t: Task, a: Step, s': State)
    requires UnmountsNot(c, s, t) && Fire(c, s, a) == Some(s') && Event(t, WaitRescanCompletion_Enter) !in Events(a)
    ensures UnmountsNot(c, s', t)
  {
    StepKeepsLocks(c, s, a, s');
    StepMoves(c, s, a, s');
    hide Locks, Fire, Effect, StepMove;
    if t != Owner(a) {
      OthersStay(c, s, t, a, s');
    } else if s'.pc[t].Um? {
      UnmountBegins(a, s.pc[t], s'.pc[t]);
    }
  }

  lemma StaysUnmounting(c: Config, s: State, t: Task, a: Step, s': State)
    requires Unmounts(c, s, t) && Fire(c, s, a) == Some(s') && Event(t, FreeQgroupConfig_Done) !in Events(a)
    ensures Unmounts(c, s', t)
  {
    StepKeepsLocks(c, s, a, s');
    StepMoves(c, s, a, s');
    hide Locks, Fire, Effect, StepMove;
    if t != Owner(a) {
      OthersStay(c, s, t, a, s');
    } else if !s'.pc[t].Um? {
      UnmountEnds(a, s.pc[t], s'.pc[t]);
    }
  }

  lemma StaysDisabling(c: Config, s: State, t: Task, a: Step, s': State)
    requires Disables(c, s, t) && Fire(c, s, a) == Some(s') && Event(t, QuotaDisable_Done) !in Events(a)
    ensures Disables(c, s', t)
  {
    StepKeepsLocks(c, s, a, s');
    StepMoves(c, s, a, s');
    hide Locks, Fire, Effect, StepMove;
    if t != Owner(a) {
      OthersStay(c, s, t, a, s');
    } else if !s'.pc[t].Dis? {
      DisableEnds(a, s.pc[t], s'.pc[t]);
    }
  }

  /** What an idle task can do. */
  lemma IdleActsFirst(c: Config, s: State, a: Step)
    requires Fire(c, s, a).Some? && At(s, Owner(a), Idle)
    ensures Observable(a)
    ensures a.Unmount? ==> forall t2 :: t2 in s.pc && IsUser(c, t2) && t2 != a.t ==> s.pc[t2] == Idle
    ensures !a.Unmount? && !a.Work? ==> !Closing(s)
  {
  }

  /** While t unmounts, no step but its own and the worker's. */
  lemma UnmountActsAlone(c: Config, s: State, t: Task, a: Step)
    requires Unmounts(c, s, t) && Fire(c, s, a).Some?
    ensures Owner(a) == t || Owner(a) == Worker
  {
    var u, s' := Owner(a), Fire(c, s, a).value;
    if u != t && u != Worker {
      StepEffect(c, s, a, s');
      assert s.pc[u] == Idle;
      IdleActsFirst(c, s, a);
    }
  }

  lemma NoWorkEnable(c: Config, s: State, t: Task, a: EnableAction, s': State)
    requires NoWork(c, s) && FireEnable(c, s, t, a) == Some(s')
    ensures a == QuotaEnableEnter
  {
    hide Locks;
  }

  lemma NoWorkDisable(c: Config, s: State, t: Task, a: DisableAction, s': State)
    requires !s.flagOn && !s.workerQueued && FireDisable(c, s, t, a) == Some(s')
    ensures !s'.flagOn && !s'.workerQueued
  {
    match a
    case QuotaDisableEnter =>
    case D_Check =>
    case D_ClearEnabled =>
    case D_WaitEnter =>
    case D_WaitRead =>
    case D_WaitBlocked =>
    case D_WaitDone =>
    case D_Trans =>
    case D_ClearRoot =>
    case D_FreeEnter =>
    case D_FreeLock =>
    case D_FreeDo =>
    case D_FreeDone =>
    case D_Clean =>
    case QuotaDisableDone =>
  }

  lemma NoWorkRescan(c: Config, s: State, t: Task, a: RescanAction, s': State)
    requires !s.flagOn && !s.workerQueued && FireRescan(c, s, t, a) == Some(s')
    ensures !s'.flagOn && !s'.workerQueued
  {
    match a
    case QgroupRescanEnter =>
    case R_Init =>
    case R_Commit =>
    case R_ZTEnter =>
    case R_ZTLock =>
    case R_ZTUnlock =>
    case R_ZTDone =>
    case R_Queue =>
    case QgroupRescanDone =>
  }

  lemma NoWorkWait(c: Config, s: State, t: Task, a: WaitAction, s': State)
    requires !s.flagOn && !s.workerQueued && FireWait(c, s, t, a) == Some(s')
    ensures !s'.flagOn && !s'.workerQueued
  {
    match a
    case UserWaitEnter =>
    case U_WaitRead =>
    case U_WaitBlocked =>
    case UserWaitDone =>
  }

  lemma NoWorkUnmount(c: Config, s: State, t: Task, a: UnmountAction, s': State)
    requires !s.flagOn && !s.workerQueued && FireUnmount(c, s, t, a) == Some(s')
    ensures !s'.flagOn && !s'.workerQueued
  {
    match a
    case UmountBegin =>
    case M_WaitRead =>
    case M_WaitBlocked =>
    case M_WaitDone =>
    case M_FreeEnter =>
    case M_FreeLock =>
    case M_FreeDo =>
    case M_FreeDone =>
  }

  lemma NoWorkWorker(s: State, a: WorkerAction, s': State)
    requires !s.flagOn && !s.workerQueued && FireWorker(s, a) == Some(s')
    ensures !s'.flagOn && !s'.workerQueued && a != WorkerStart
  {
    match a
    case WorkerStart =>
    case W_ScanLock =>
    case W_ScanUnlock =>
    case W_ExitLoop =>
    case W_Finish =>
    case WorkerDone =>
  }

  lemma EnableBegins(a: Step, p: PC, q: PC)
    requires StepMove(a, p, q) && q.En? && !p.En?
    ensures a.Enable?
  {
  }

  /** Without an enable there is no work for the worker. */
  lemma StaysWithoutWork(c: Config, s: State, a: Step, s': State)
    requires NoWork(c, s) && Fire(c, s, a) == Some(s') && Label(a) != Some(QuotaEnable_Enter)
    ensures NoWork(c, s') && Label(a) != Some(RescanWorker_Enter)
  {
    StepKeepsLocks(c, s, a, s');
    StepMoves(c, s, a, s');
    hide Locks, Effect, StepMove, FireEnable, FireDisable, FireRescan, FireWait, FireUnmount, FireWorker;
    match a
    case Enable(t, e) => NoWorkEnable(c, s, t, e, s');
    case Disable(t, d) => NoWorkDisable(c, s, t, d, s'); NobodyEnables(c, s, a, s');
    case Rescan(t, r) => NoWorkRescan(c, s, t, r, s'); NobodyEnables(c, s, a, s');
    case Wait(t, w) => NoWorkWait(c, s, t, w, s'); NobodyEnables(c, s, a, s');
    case Unmount(t, u) => NoWorkUnmount(c, s, t, u, s'); NobodyEnables(c, s, a, s');
    case Work(w) => NoWorkWorker(s, w, s'); NobodyEnables(c, s, a, s');
  }

  lemma NobodyEnables(c: Config, s: State, a: Step, s': State)
    requires NoWork(c, s) && Effect(c, s, Owner(a), s') && StepMove(a, s.pc[Owner(a)], s'.pc[Owner(a)]) && !a.Enable?
    ensures forall u :: u in s'.pc ==> !s'.pc[u].En?
  {
    hide Locks, StepMove;
    var t := Owner(a);
    if s'.pc[t].En? {
      EnableBegins(a, s.pc[t], s'.pc[t]);
    }
  }

  // ----- Stretches of a run -----

  lemma {:induction false} PathStaysOut(c: Config, s: State, t: Task, steps: seq<Step>, trace: seq<Event>, s': State)
    requires UnmountsNot(c, s, t) && Path(c, s, steps, trace, s')
    requires Event(t, WaitRescanCompletion_Enter) !in trace
    ensures UnmountsNot(c, s', t)
    decreases |steps|
  {
    if steps != [] {
      var shorter, before, m, a := PathLast(c, s, steps, trace, s');
      hide UnmountsNot, Fire, Label;
      PathStaysOut(c, s, t, shorter, before, m);
      StaysOut(c, m, t, a, s');
    }
  }

  lemma {:induction false} PathStaysUnmounting(c: Config, s: State, t: Task, steps: seq<Step>,
                                               trace: seq<Event>, s': State)
    requires Unmounts(c, s, t) && Path(c, s, steps, trace, s')
    requires Event(t, FreeQgroupConfig_Done) !in trace
    ensures Unmounts(c, s', t)
    decreases |steps|
  {
    if steps != [] {
      var shorter, before, m, a := PathLast(c, s, steps, trace, s');
      hide Unmounts, Fire, Label;
      PathStaysUnmounting(c, s, t, shorter, before, m);
      StaysUnmounting(c, m, t, a, s');
    }
  }

  lemma {:induction false} PathStaysDisabling(c: Config, s: State, t: Task, steps: seq<Step>,
                                              trace: seq<Event>, s': State)
    requires Disables(c, s, t) && Path(c, s, steps, trace, s')
    requires Event(t, QuotaDisable_Done) !in trace
    ensures Disables(c, s', t)
    decreases |steps|
  {
    if steps != [] {
      var shorter, before, m, a := PathLast(c, s, steps, trace, s');
      hide Disables, Fire, Label;
      PathStaysDisabling(c, s, t, shorter, before, m);
      StaysDisabling(c, m, t, a, s');
    }
  }

  lemma {:induction false} PathWithoutWork(c: Config, s: State, steps: seq<Step>, trace: seq<Event>, s': State)
    requires NoWork(c, s) && Path(c, s, steps, trace, s')
    requires forall e :: e in trace ==> e.action != QuotaEnable_Enter
    ensures NoWork(c, s')
    decreases |steps|
  {
    if steps != [] {
      var shorter, before, m, a := PathLast(c, s, steps, trace, s');
      hide NoWork, Fire, Label;
      PathWithoutWork(c, s, shorter, before, m);
      StaysWithoutWork(c, m, a, s');
    }
  }

  // ----- The events of an unmount -----

  /** t waits from g to h and then, without a disable, frees from f on. */
  ghost predicate WaitsThenFrees(y: seq<Event>, t: Task, g: int, h: int, f: int) {
    && NextSame(y, g, h) && NextSame(y, h, f)
    && y[g] == Event(t, WaitRescanCompletion_Enter) && y[h] == Event(t, WaitRescanCompletion_Done)
    && y[f] == Event(t, FreeQgroupConfig_Enter)
  }

  /** The free that begins at f ends at e, or is still open at the end e of the trace. */
  ghost predicate FreesUntil(y: seq<Event>, t: Task, f: int, e: int) {
    && 0 <= f < e <= |y| && (forall k :: f < k < e ==> y[k].task != t)
    && (e < |y| ==> y[e] == Event(t, FreeQgroupConfig_Done))
  }

  /** Every other user task is between two operations. */
  ghost predicate OthersRest(x: seq<Event>, t: Task) {
    forall u: Task :: u.User? && u != t ==> AtRest(PhaseOf(x, u))
  }

  /** Nobody but t and the worker shows an event strictly between g and e. */
  ghost predicate OnlyWithWorker(y: seq<Event>, t: Task, g: int, e: int)
    requires 0 <= g && e <= |y|
  {
    forall k :: g < k < e ==> y[k].task == t || y[k].task == Worker
  }

  lemma WaitEndsAmbiguously(y: seq<Event>, t: Task, g: int, h: int, f: int)
    requires WaitsThenFrees(y, t, g, h, f) && PhaseOf(y, t) != Dead
    ensures PhaseOf(y[..f], t) == QuietOrUnmount
  {
    PairPhases(y, h, f);
    AlivePrefix(y, h + 1, t);
    WaitDoneOnly(PhaseOf(y[..h], t));
  }

  lemma WaitDoneOnly(q: Phase)
    ensures Delta(q, WaitRescanCompletion_Done) == Dead || Delta(q, WaitRescanCompletion_Done) == QuietOrUnmount
  {
  }

  /** The run up to and from event g, and the state in which event f is emitted. */
  lemma CutAtTwo(c: Config, steps: seq<Step>, y: seq<Event>, s': State, g: nat, f: nat)
    returns (x: seq<Step>, m: State, a: Step, m': State, z: seq<Step>,
             z1: seq<Step>, n: State, b: Step, upTo: seq<Step>)
    requires Path(c, Init(c), steps, y, s') && g < f < |y|
    ensures Path(c, Init(c), x, y[..g], m) && Fire(c, m, a) == Some(m') && Events(a) == [y[g]]
    ensures Path(c, m', z, y[g + 1..], s') && Path(c, m', z1, y[g + 1..f], n)
    ensures Path(c, Init(c), upTo, y[..f], n) && Fire(c, n, b).Some? && Events(b) == [y[f]]
    ensures Locks(c, m) && Locks(c, m') && Locks(c, n)
  {
    hide Fire, Label, Path, Locks;
    x, m, a, m', z := SplitAtEvent(c, Init(c), steps, y, s', g);
    var n', z2;
    z1, n, b, n', z2 := SplitAtEvent(c, m', z, y[g + 1..], s', f - g - 1);
    CutSlices(y, g, f);
    upTo := (x + [a]) + z1;
    PathExtend(c, Init(c), x, y[..g], m, a, m');
    PathConcat(c, Init(c), x + [a], y[..g] + [y[g]], m', z1, y[g + 1..f], n);
    PathKeepsLocks(c, x, y[..g], m);
    PathKeepsLocks(c, x + [a], y[..g] + [y[g]], m');
    PathKeepsLocks(c, upTo, y[..f], n);
  }

  lemma CutSlices<T>(y: seq<T>, g: nat, f: nat)
    requires g < f < |y|
    ensures y[g + 1..][..f - g - 1] == y[g + 1..f] && y[g + 1..][f - g - 1] == y[f]
    ensures y[g + 1..][f - g - 1 + 1..] == y[f + 1..]
    ensures (y[..g] + [y[g]]) + y[g + 1..f] == y[..f]
  {
  }

  lemma PathKeepsLocks(c: Config, steps: seq<Step>, y: seq<Event>, s: State)
    requires Path(c, Init(c), steps, y, s)
    ensures Locks(c, s)
  {
    RunKeepsInv(c, steps);
  }

  /** Where a wait is followed by a free, it was the start of an unmount. */
  lemma UnmountBegan(c: Config, steps: seq<Step>, y: seq<Event>, s': State, t: Task, g: int, h: int, f: int)
    returns (x: seq<Step>, m: State, m': State, z: seq<Step>)
    requires Path(c, Init(c), steps, y, s') && t in Tasks(c) && WaitsThenFrees(y, t, g, h, f)
    ensures Path(c, Init(c), x, y[..g], m) && Fire(c, m, Unmount(t, UmountBegin)) == Some(m')
    ensures Path(c, m', z, y[g + 1..], s') && Unmounts(c, m', t)
  {
    var a, z1, n, b, upTo;
    x, m, a, m', z, z1, n, b, upTo := CutAtTwo(c, steps, y, s', g, f);
    hide Fire, Locks, Label, WaitsThenFrees, Tasks;
    NoOtherWait(y, t, g, h, f);
    FitsBeforeFree(c, steps, y, s', upTo, n, t, g, h, f);
    BeginsFree(c, n, b, t);
    BeginsWait(c, m, a, m', t);
    if !m'.pc[t].Um? {
      PathStaysOut(c, m', t, z1, y[g + 1..f], n);
    }
  }

  lemma FitsBeforeFree(c: Config, steps: seq<Step>, y: seq<Event>, s': State, upTo: seq<Step>, n: State, t: Task,
                       g: int, h: int, f: int)
    requires Path(c, Init(c), steps, y, s') && t in Tasks(c) && WaitsThenFrees(y, t, g, h, f)
    requires Path(c, Init(c), upTo, y[..f], n)
    ensures t in n.pc && Fits(n.pc[t], QuietOrUnmount)
  {
    RunFits(c, upTo, t);
    RunFits(c, steps, t);
    WaitEndsAmbiguously(y, t, g, h, f);
  }

  lemma NoOtherWait(y: seq<Event>, t: Task, g: int, h: int, f: int)
    requires WaitsThenFrees(y, t, g, h, f)
    ensures y[g] == Event(t, WaitRescanCompletion_Enter) && y[f] == Event(t, FreeQgroupConfig_Enter)
    ensures Event(t, WaitRescanCompletion_Enter) !in y[g + 1..f]
  {
  }

  lemma BeginsFree(c: Config, s: State, b: Step, t: Task)
    requires Events(b) == [Event(t, FreeQgroupConfig_Enter)] && Fire(c, s, b).Some?
    requires t in s.pc && Fits(s.pc[t], QuietOrUnmount)
    ensures s.pc[t].Um?
  {
  }

  lemma BeginsWait(c: Config, s: State, a: Step, s': State, t: Task)
    requires Events(a) == [Event(t, WaitRescanCompletion_Enter)] && Fire(c, s, a) == Some(s')
    ensures t in s'.pc && (s'.pc[t].Um? ==> a == Unmount(t, UmountBegin))
  {
  }

  // ----- What the events of an unmount allow beside it -----

  /** Whoever shows an event is one of the tasks. */
  lemma EmitterIsTask(c: Config, steps: seq<Step>, y: seq<Event>, s': State, k: nat)
    requires Path(c, Init(c), steps, y, s') && k < |y|
    ensures y[k].task in Tasks(c)
  {
    if y[k].task !in Tasks(c) {
      StrangerIsSilent(c, steps, y[k].task);
      WordHas(y, k, y[k].task);
    }
  }

  lemma OthersRestAt(c: Config, x: seq<Step>, y: seq<Event>, m: State, t: Task)
    requires Path(c, Init(c), x, y, m) && Fire(c, m, Unmount(t, UmountBegin)).Some?
    ensures OthersRest(y, t)
  {
    forall u: Task | u.User? && u != t
      ensures AtRest(PhaseOf(y, u))
    {
      if u in Tasks(c) {
        RunFits(c, x, u);
      } else {
        StrangerIsSilent(c, x, u);
      }
    }
  }

  /** The stretch of the run after the start of the unmount. */
  lemma FromUnmount(c: Config, y: seq<Event>, t: Task, g: int, h: int, f: int)
      returns (m: State, z: seq<Step>, s': State)
    requires Accepted(c, y) && WaitsThenFrees(y, t, g, h, f)
    ensures OthersRest(y[..g], t) && Unmounts(c, m, t) && Path(c, m, z, y[g + 1..], s')
  {
    var steps :| RunProjectsTo(c, steps, y);
    s' := After(c, Init(c), steps).value;
    hide Fire, Tasks, OthersRest;
    EmitterIsTask(c, steps, y, s', g);
    var x, m0;
    x, m0, m, z := UnmountBegan(c, steps, y, s', t, g, h, f);
    OthersRestAt(c, x, y[..g], m0, t);
  }

  /** An unmount begins when the other tasks are at rest, and until its free is done
      there is nobody beside it but the worker. */
  lemma UnmountIsAlone(c: Config, y: seq<Event>, t: Task, g: int, h: int, f: int, e: int)
    requires Accepted(c, y) && WaitsThenFrees(y, t, g, h, f) && FreesUntil(y, t, f, e)
    ensures OthersRest(y[..g], t) && OnlyWithWorker(y, t, g, e)
  {
    hide Accepted, Path, Unmounts, OthersRest;
    var m, z, s' := FromUnmount(c, y, t, g, h, f);
    forall k | g < k < e
      ensures y[k].task == t || y[k].task == Worker
    {
      FreeIsLast(y, t, g, h, f, e, k);
      AloneAt(c, m, z, y[g + 1..], s', t, k - g - 1);
    }
  }

  lemma FreeIsLast(y: seq<Event>, t: Task, g: int, h: int, f: int, e: int, k: int)
    requires WaitsThenFrees(y, t, g, h, f) && FreesUntil(y, t, f, e) && g < k <= e && k <= |y|
    ensures Event(t, FreeQgroupConfig_Done) !in y[g + 1..][..k - g - 1]
  {
    assert y[g + 1..][..k - g - 1] == y[g + 1..k];
  }

  lemma AloneAt(c: Config, s: State, z: seq<Step>, y: seq<Event>, s': State, t: Task, k: nat)
    requires Unmounts(c, s, t) && Path(c, s, z, y, s') && k < |y|
    requires Event(t, FreeQgroupConfig_Done) !in y[..k]
    ensures y[k].task == t || y[k].task == Worker
  {
    hide Unmounts, Fire;
    var z1, n, b, n', z2 := SplitAtEvent(c, s, z, y, s', k);
    PathStaysUnmounting(c, s, t, z1, y[..k], n);
    UnmountActsAlone(c, n, t, b);
  }

  lemma UnmountLeavesNoWork(c: Config, s: State, t: Task, b: Step, s': State)
    requires Unmounts(c, s, t) && Fire(c, s, b) == Some(s') && Events(b) == [Event(t, FreeQgroupConfig_Done)]
    ensures NoWork(c, s')
  {
    StepKeepsLocks(c, s, b, s');
    hide Effect;
    assert b == Unmount(t, M_FreeDone);
    assert forall u :: u in s.pc && u != t && u != Worker ==> s.pc[u] == Idle;
  }

  lemma WorkerNeedsWork(c: Config, s: State, b: Step)
    requires NoWork(c, s) && Fire(c, s, b).Some?
    ensures Label(b) != Some(RescanWorker_Enter)
  {
  }

  /** After an unmount the worker starts only once an enable has begun. */
  lemma WorkComesFromEnable(c: Config, y: seq<Event>, t: Task, g: int, h: int, f: int, e: int, k: int)
    requires Accepted(c, y) && WaitsThenFrees(y, t, g, h, f) && FreesUntil(y, t, f, e)
    requires e < k < |y| && y[k].action == RescanWorker_Enter
    ensures exists l :: e < l < k && y[l].action == QuotaEnable_Enter
  {
    hide Accepted, Path, Unmounts, OthersRest, NoWork, Fire, Label;
    var m, z, s' := FromUnmount(c, y, t, g, h, f);
    FreeIsLast(y, t, g, h, f, e, e);
    var z1, n, b, n', z2 := SplitAtEvent(c, m, z, y[g + 1..], s', e - g - 1);
    CutSlices(y, g, e);
    PathStaysUnmounting(c, m, t, z1, y[g + 1..][..e - g - 1], n);
    UnmountLeavesNoWork(c, n, t, b, n');
    var u1, i, d, i', u2 := SplitAtEvent(c, n', z2, y[e + 1..], s', k - e - 1);
    CutSlices(y, e, k);
    if forall l :: e < l < k ==> y[l].action != QuotaEnable_Enter {
      NoneBetween(y, e, k, QuotaEnable_Enter);
      PathWithoutWork(c, n', u1, y[e + 1..k], i);
      WorkerNeedsWork(c, i, d);
      OneEvent(d, y[k]);
    }
  }

  lemma NoneBetween(y: seq<Event>, e: nat, k: nat, a: Action)
    requires e < k <= |y| && forall l :: e < l < k ==> y[l].action != a
    ensures forall x :: x in y[e + 1..k] ==> x.action != a
  {
  }

  lemma OneEvent(a: Step, e: Event)
    requires Events(a) == [e]
    ensures Label(a) == Some(e.action) && Owner(a) == e.task
  {
    assert Events(a)[0] == e;
  }

  // ----- What an open disable and an open unmount keep out -----

  /** Until a disable is done nobody begins to enable. */
  lemma DisableHoldsOffEnable(c: Config, x: seq<Event>, t: Task, i: nat, k: nat)
    requires Accepted(c, x) && i < k < |x| && x[i] == Event(t, QuotaDisable_Enter)
    requires forall l :: i < l < k ==> x[l] != Event(t, QuotaDisable_Done)
    ensures x[k].action != QuotaEnable_Enter
  {
    var steps :| RunProjectsTo(c, steps, x);
    var s' := After(c, Init(c), steps).value;
    hide Fire, Label, Tasks, Locks;
    var x0, m, a, m', z, z1, n, b, upTo := CutAtTwo(c, steps, x, s', i, k);
    OneEvent(a, x[i]);
    BeginsDisable(c, m, a, m');
    assert Event(t, QuotaDisable_Done) !in x[i + 1..k];
    PathStaysDisabling(c, m', t, z1, x[i + 1..k], n);
    OneEvent(b, x[k]);
    EnableNeedsSem(c, n, t, b);
  }

  lemma BeginsDisable(c: Config, s: State, a: Step, s': State)
    requires Label(a) == Some(QuotaDisable_Enter) && Fire(c, s, a) == Some(s')
    ensures Owner(a) in s'.pc && s'.pc[Owner(a)].Dis?
  {
  }

  lemma EnableNeedsSem(c: Config, s: State, t: Task, b: Step)
    requires Disables(c, s, t) && Fire(c, s, b).Some?
    ensures Label(b) != Some(QuotaEnable_Enter)
  {
    assert s.subvolSem == t;
    assert t != NoTask;
  }

  /** Events the worker can still show without a new queueing. */
  function WorkerBudget(s: State): nat {
    2 * Bit(s.workerQueued) + Bit(Worker in s.pc && s.pc[Worker] != Wk(WkIdle))
  }

  lemma UnmountQueuesNothing(c: Config, s: State, t: Task, a: UnmountAction, s': State)
    requires FireUnmount(c, s, t, a) == Some(s') && t != Worker
    ensures WorkerBudget(s') <= WorkerBudget(s)
  {
    match a
    case UmountBegin =>
    case M_WaitRead =>
    case M_WaitBlocked =>
    case M_WaitDone =>
    case M_FreeEnter =>
    case M_FreeLock =>
    case M_FreeDo =>
    case M_FreeDone =>
  }

  lemma WorkerSpends(s: State, a: WorkerAction, s': State)
    requires FireWorker(s, a) == Some(s')
    ensures WorkerBudget(s') + |Events(Work(a))| <= WorkerBudget(s)
  {
    match a
    case WorkerStart =>
    case W_ScanLock =>
    case W_ScanUnlock =>
    case W_ExitLoop =>
    case W_Finish =>
    case WorkerDone =>
  }

  lemma UnmountSpends(c: Config, s: State, t: Task, a: Step, s': State)
    requires Unmounts(c, s, t) && Fire(c, s, a) == Some(s') && forall e :: e in Events(a) ==> e.task != t
    ensures WorkerBudget(s') + |Events(a)| <= WorkerBudget(s)
  {
    UnmountActsAlone(c, s, t, a);
    StepMoves(c, s, a, s');
    assert t != Worker;
    hide Locks, StepMove, FireEnable, FireDisable, FireRescan, FireWait, FireUnmount, FireWorker, WorkerBudget;
    if a.Work? {
      WorkerSpends(s, a.work, s');
    } else {
      UnmountMovesOnly(a, s.pc[t], s'.pc[t]);
      UnmountQueuesNothing(c, s, t, a.unmount, s');
    }
  }

  lemma {:induction false} PathSpends(c: Config, s: State, t: Task, steps: seq<Step>, trace: seq<Event>, s': State)
    requires Unmounts(c, s, t) && Path(c, s, steps, trace, s') && forall e :: e in trace ==> e.task != t
    ensures Unmounts(c, s', t) && WorkerBudget(s') + |trace| <= WorkerBudget(s)
    decreases |steps|
  {
    if steps != [] {
      var shorter, before, m, a := PathLast(c, s, steps, trace, s');
      hide Unmounts, Fire, Label, WorkerBudget;
      PathSpends(c, s, t, shorter, before, m);
      StaysUnmounting(c, m, t, a, s');
      UnmountSpends(c, m, t, a, s');
    }
  }

  /** While an unmount's free is open at most three more events come. */
  lemma OpenUnmountIsShort(c: Config, y: seq<Event>, t: Task, g: int, h: int, f: int)
    requires Accepted(c, y) && WaitsThenFrees(y, t, g, h, f) && FreesUntil(y, t, f, |y|)
    ensures |y| <= f + 4
  {
    hide Accepted, Path, Unmounts, OthersRest, Fire, Label;
    var m, z, s' := FromUnmount(c, y, t, g, h, f);
    FreeIsLast(y, t, g, h, f, |y|, f + 1);
    var z1, n, b, n', z2 := SplitAtEvent(c, m, z, y[g + 1..], s', f - g - 1);
    CutSlices(y, g, f);
    FreeIsLast(y, t, g, h, f, |y|, f);
    PathStaysUnmounting(c, m, t, z1, y[g + 1..][..f - g - 1], n);
    StaysUnmounting(c, n, t, b, n');
    PathSpends(c, n', t, z2, y[f + 1..], s');
  }
}
