/** The order in which one task can emit its events, as an automaton, and the proof
    that every run of the life cycle obeys it task by task. */
module QgroupLanguage {
  import opened Options
  import opened QgroupLifecycle
  import opened QgroupSafety
  import opened QgroupMoves

  /** What a task's own events so far say about where it is. A finished wait may have
      been rescan -w (the task is idle) or the first half of an unmount. */
  datatype Phase =
    | Dead
    | WorkerIdle | WorkerBusy
    | Quiet | QuietOrUnmount
    | Enabling | EnableZeroing | EnableZeroed
    | Disabling | DisableFreeing | DisableFreed
    | Rescanning | RescanZeroing | RescanZeroed
    | Waiting | UnmountFreeing

  function Start(t: Task): Phase { if t == Worker then WorkerIdle else Quiet }

  function Begin(a: Action): Phase {
    match a
    case QuotaEnable_Enter => Enabling
    case QuotaDisable_Enter => Disabling
    case QgroupRescan_Enter => Rescanning
    case WaitRescanCompletion_Enter => Waiting
    case _ => Dead
  }

  function Delta(q: Phase, a: Action): Phase {
    match q
    case Quiet => Begin(a)
    case QuietOrUnmount => if a == FreeQgroupConfig_Enter then UnmountFreeing else Begin(a)
    case Enabling =>
      if a == RescanZeroTracking_Enter then EnableZeroing else if a == QuotaEnable_Done then Quiet else Dead
    case EnableZeroing => if a == RescanZeroTracking_Done then EnableZeroed else Dead
    case EnableZeroed => if a == QuotaEnable_Done then Quiet else Dead
    case Disabling =>
      if a == FreeQgroupConfig_Enter then DisableFreeing else if a == QuotaDisable_Done then Quiet else Dead
    case DisableFreeing => if a == FreeQgroupConfig_Done then DisableFreed else Dead
    case DisableFreed => if a == QuotaDisable_Done then Quiet else Dead
    case Rescanning =>
      if a == RescanZeroTracking_Enter then RescanZeroing else if a == QgroupRescan_Done then Quiet else Dead
    case RescanZeroing => if a == RescanZeroTracking_Done then RescanZeroed else Dead
    case RescanZeroed => if a == QgroupRescan_Done then Quiet else Dead
    case Waiting => if a == WaitRescanCompletion_Done then QuietOrUnmount else Dead
    case UnmountFreeing => if a == FreeQgroupConfig_Done then Quiet else Dead
    case WorkerIdle => if a == RescanWorker_Enter then WorkerBusy else Dead
    case WorkerBusy => if a == RescanWorker_Done then WorkerIdle else Dead
    case Dead => Dead
  }

  function Walk(q: Phase, word: seq<Action>): Phase
    decreases |word|
  {
    if word == [] then q else Walk(Delta(q, word[0]), word[1..])
  }

  /** The events of one task, in order. */
  function Word(trace: seq<Event>, t: Task): seq<Action> {
    if trace == [] then []
    else (if trace[0].task == t then [trace[0].action] else []) + Word(trace[1..], t)
  }

  function PhaseOf(trace: seq<Event>, t: Task): Phase { Walk(Start(t), Word(trace, t)) }

  lemma {:induction false} WalkConcat(q: Phase, u: seq<Action>, v: seq<Action>)
    ensures Walk(q, u + v) == Walk(Walk(q, u), v)
    decreases |u|
  {
    if u == [] {
      assert u + v == v;
    } else {
      WalkConcat(Delta(q, u[0]), u[1..], v);
      assert (u + v)[1..] == u[1..] + v;
    }
  }

  lemma {:induction false} WordConcat(x: seq<Event>, y: seq<Event>, t: Task)
    ensures Word(x + y, t) == Word(x, t) + Word(y, t)
    decreases |x|
  {
    if x == [] {
      assert x + y == y;
    } else {
      WordConcat(x[1..], y, t);
      assert (x + y)[1..] == x[1..] + y && (x + y)[0] == x[0];
      var first := if x[0].task == t then [x[0].action] else [];
      assert first + (Word(x[1..], t) + Word(y, t)) == (first + Word(x[1..], t)) + Word(y, t);
    }
  }

  lemma PhaseConcat(x: seq<Event>, y: seq<Event>, t: Task)
    ensures PhaseOf(x + y, t) == Walk(PhaseOf(x, t), Word(y, t))
  {
    WordConcat(x, y, t);
    WalkConcat(Start(t), Word(x, t), Word(y, t));
  }

  lemma {:induction false} DeadStaysDead(word: seq<Action>)
    ensures Walk(Dead, word) == Dead
    decreases |word|
  {
    if word != [] {
      DeadStaysDead(word[1..]);
    }
  }

  /** Events of others leave a task in its phase. */
  lemma {:induction false} QuietSuffix(trace: seq<Event>, j: nat, t: Task)
    requires j <= |trace| && forall k :: j <= k < |trace| ==> trace[k].task != t
    ensures PhaseOf(trace, t) == PhaseOf(trace[..j], t)
    decreases |trace| - j
  {
    if j == |trace| {
      assert trace[..j] == trace;
    } else {
      QuietSuffix(trace, j + 1, t);
      assert trace[..j + 1] == trace[..j] + [trace[j]];
      PhaseConcat(trace[..j], [trace[j]], t);
      assert [trace[j]][1..] == [];
      assert Word([trace[j]], t) == [];
    }
  }

  // ----- Runs obey the automaton -----

  predicate EnableFits(p: EnPC, q: Phase) {
    match p
    case EnZtIter => q == EnableZeroing
    case EnZtDone => q == EnableZeroing
    case EnQueue => q == EnableZeroed
    case EnDone => q == Enabling || q == EnableZeroed
    case _ => q == Enabling
  }

  predicate DisableFits(p: DisPC, q: Phase) {
    match p
    case DisFreeLock => q == DisableFreeing
    case DisFreeDo => q == DisableFreeing
    case DisFreeDone => q == DisableFreeing
    case DisClean => q == DisableFreed
    case DisDone => q == Disabling || q == DisableFreed
    case _ => q == Disabling
  }

  predicate RescanFits(p: ResPC, q: Phase) {
    match p
    case ResZtIter => q == RescanZeroing
    case ResZtDone => q == RescanZeroing
    case ResQueue => q == RescanZeroed
    case ResDone => q == Rescanning || q == RescanZeroed
    case _ => q == Rescanning
  }

  predicate UnmountFits(p: UmPC, q: Phase) {
    match p
    case UmFreeEnter => q == QuietOrUnmount
    case UmFreeLock => q == UnmountFreeing
    case UmFreeDo => q == UnmountFreeing
    case UmFreeDone => q == UnmountFreeing
    case _ => q == Waiting
  }

  /** Phase q is a possible reading of program counter p. */
  predicate Fits(p: PC, q: Phase) {
    match p
    case Idle => q == Quiet || q == QuietOrUnmount
    case En(e) => EnableFits(e, q)
    case Dis(d) => DisableFits(d, q)
    case Res(r) => RescanFits(r, q)
    case Wt(w) => q == Waiting
    case Um(u) => UnmountFits(u, q)
    case Wk(w) => q == if w == WkIdle then WorkerIdle else WorkerBusy
  }

  function Advance(q: Phase, a: Step): Phase {
    if Observable(a) then Delta(q, Label(a).value) else q
  }

  lemma EnableMoveFits(t: Task, a: EnableAction, p: PC, p': PC, q: Phase)
    requires EnableMove(a, p, p') && Fits(p, q)
    ensures Fits(p', Advance(q, Enable(t, a)))
  {
    hide DisableFits, RescanFits, UnmountFits;
    match a
    case QuotaEnableEnter =>
    case E_Check =>
    case E_Create =>
    case E_SetRoot =>
    case E_SimpleSkip =>
    case E_RescanInit =>
    case E_ZTEnter =>
    case E_ZTLock =>
    case E_ZTUnlock =>
    case E_ZTDone =>
    case E_Queue =>
    case QuotaEnableDone =>
  }

  lemma DisableFreeMoveFits(t: Task, a: DisableAction, p: PC, p': PC, q: Phase)
    requires DisableMove(a, p, p') && Fits(p, q) && (a == D_FreeEnter || a == D_FreeLock || a == D_FreeDo)
    ensures Fits(p', Advance(q, Disable(t, a)))
  {
    hide EnableFits, RescanFits, UnmountFits, Begin;
    if a == D_FreeEnter {
    } else if a == D_FreeLock {
    } else if a == D_FreeDo {
    }
  }

  lemma DisableEndMoveFits(t: Task, a: DisableAction, p: PC, p': PC, q: Phase)
    requires DisableMove(a, p, p') && Fits(p, q) && (a == D_FreeDone || a == D_Clean || a == QuotaDisableDone)
    ensures Fits(p', Advance(q, Disable(t, a)))
  {
    hide EnableFits, RescanFits, UnmountFits, Begin;
    if a == D_FreeDone {
    } else if a == D_Clean {
    } else if a == QuotaDisableDone {
    }
  }

  lemma DisableMoveFits(t: Task, a: DisableAction, p: PC, p': PC, q: Phase)
    requires DisableMove(a, p, p') && Fits(p, q)
    ensures Fits(p', Advance(q, Disable(t, a)))
  {
    hide EnableFits, RescanFits, UnmountFits;
    if a == D_FreeEnter || a == D_FreeLock || a == D_FreeDo {
      DisableFreeMoveFits(t, a, p, p', q);
    } else if a == D_FreeDone || a == D_Clean || a == QuotaDisableDone {
      DisableEndMoveFits(t, a, p, p', q);
    } else if a == QuotaDisableEnter {
    } else if a == D_Check {
    } else if a == D_ClearEnabled {
    } else if a == D_WaitEnter {
    } else if a == D_WaitRead {
    } else if a == D_WaitBlocked {
    } else if a == D_WaitDone {
    } else if a == D_Trans {
    } else if a == D_ClearRoot {
    }
  }

  lemma RescanMoveFits(t: Task, a: RescanAction, p: PC, p': PC, q: Phase)
    requires RescanMove(a, p, p') && Fits(p, q)
    ensures Fits(p', Advance(q, Rescan(t, a)))
  {
    hide EnableFits, DisableFits, UnmountFits;
    match a
    case QgroupRescanEnter =>
    case R_Init =>
    case R_Commit =>
    case R_ZTEnter =>
    case R_ZTLock =>
    case R_ZTUnlock =>
    case R_ZTDone =>
    case R_Queue =>
    case QgroupRescanDone =>
  }

  lemma WaitMoveFits(t: Task, a: WaitAction, p: PC, p': PC, q: Phase)
    requires WaitMove(a, p, p') && Fits(p, q)
    ensures Fits(p', Advance(q, Wait(t, a)))
  {
    match a
    case UserWaitEnter =>
    case U_WaitRead =>
    case U_WaitBlocked =>
    case UserWaitDone =>
  }

  lemma UnmountMoveFits(t: Task, a: UnmountAction, p: PC, p': PC, q: Phase)
    requires UnmountMove(a, p, p') && Fits(p, q)
    ensures Fits(p', Advance(q, Unmount(t, a)))
  {
    hide EnableFits, DisableFits, RescanFits;
    match a
    case UmountBegin =>
    case M_WaitRead =>
    case M_WaitBlocked =>
    case M_WaitDone =>
    case M_FreeEnter =>
    case M_FreeLock =>
    case M_FreeDo =>
    case M_FreeDone =>
  }

  lemma WorkerMoveFits(a: WorkerAction, p: PC, p': PC, q: Phase)
    requires WorkerMove(a, p, p') && Fits(p, q)
    ensures Fits(p', Advance(q, Work(a)))
  {
    match a
    case WorkerStart =>
    case W_ScanLock =>
    case W_ScanUnlock =>
    case W_ExitLoop =>
    case W_Finish =>
    case WorkerDone =>
  }

  lemma StepFits(c: Config, s: State, a: Step, s': State, t: Task, q: Phase)
    requires Locks(c, s) && Fire(c, s, a) == Some(s') && t in s.pc && Fits(s.pc[t], q)
    ensures t in s'.pc && Fits(s'.pc[t], if t == Owner(a) then Advance(q, a) else q)
  {
    StepEffect(c, s, a, s');
    hide Fits, Advance;
    if t == Owner(a) {
      match a
      case Enable(_, e) => EnableMoves(c, s, t, e, s'); EnableMoveFits(t, e, s.pc[t], s'.pc[t], q);
      case Disable(_, d) => DisableMoves(c, s, t, d, s'); DisableMoveFits(t, d, s.pc[t], s'.pc[t], q);
      case Rescan(_, r) => RescanMoves(c, s, t, r, s'); RescanMoveFits(t, r, s.pc[t], s'.pc[t], q);
      case Wait(_, w) => WaitMoves(c, s, t, w, s'); WaitMoveFits(t, w, s.pc[t], s'.pc[t], q);
      case Unmount(_, u) => UnmountMoves(c, s, t, u, s'); UnmountMoveFits(t, u, s.pc[t], s'.pc[t], q);
      case Work(w) => WorkerMoves(s, w, s'); WorkerMoveFits(w, s.pc[t], s'.pc[t], q);
    }
  }

  /** In every run, each task's program counter fits the phase its own events spell. */
  lemma {:induction false} RunFits(c: Config, steps: seq<Step>, t: Task)
    requires After(c, Init(c), steps).Some? && t in Tasks(c)
    ensures var s := After(c, Init(c), steps).value;
            t in s.pc && Fits(s.pc[t], PhaseOf(Projection(steps), t))
    decreases |steps|
  {
    if steps != [] {
      var shorter, a := steps[..|steps| - 1], steps[|steps| - 1];
      RunKeepsInv(c, shorter);
      RunFits(c, shorter, t);
      var s := After(c, Init(c), shorter).value;
      StepFits(c, s, a, Fire(c, s, a).value, t, PhaseOf(Projection(shorter), t));
      PhaseConcat(Projection(shorter), Events(a), t);
      EventsAdvance(a, t, PhaseOf(Projection(shorter), t));
    }
  }

  lemma EventsAdvance(a: Step, t: Task, q: Phase)
    ensures Walk(q, Word(Events(a), t)) == if t == Owner(a) then Advance(q, a) else q
  {
    if Observable(a) {
      var e := Event(Owner(a), Label(a).value);
      assert Events(a) == [e] && [e][1..] == [];
      assert Word([e], t) == if t == Owner(a) then [e.action] else [];
    }
  }

  /** A task outside the task set emits nothing. */
  lemma {:induction false} StrangerIsSilent(c: Config, steps: seq<Step>, t: Task)
    requires After(c, Init(c), steps).Some? && t !in Tasks(c)
    ensures Word(Projection(steps), t) == []
    decreases |steps|
  {
    if steps != [] {
      var shorter, a := steps[..|steps| - 1], steps[|steps| - 1];
      RunKeepsInv(c, shorter);
      StrangerIsSilent(c, shorter, t);
      var s := After(c, Init(c), shorter).value;
      StepEffect(c, s, a, Fire(c, s, a).value);
      WordConcat(Projection(shorter), Events(a), t);
    }
  }

  /** The trace of a run is alive for every task: a dead word rejects a trace under
      every task set, with and without the fix. */
  lemma AcceptedIsAlive(c: Config, trace: seq<Event>, t: Task)
    requires Accepted(c, trace)
    ensures PhaseOf(trace, t) != Dead
  {
    var steps :| RunProjectsTo(c, steps, trace);
    if t in Tasks(c) {
      RunFits(c, steps, t);
    } else {
      StrangerIsSilent(c, steps, t);
    }
  }

  predicate AtRest(q: Phase) { q == Quiet || q == QuietOrUnmount || q == WorkerIdle }

  /** A run that ends with every task idle spells a resting phase for each task. */
  lemma IdleRunRests(c: Config, steps: seq<Step>, t: Task)
    requires After(c, Init(c), steps).Some?
    requires forall u :: u in After(c, Init(c), steps).value.pc ==>
               After(c, Init(c), steps).value.pc[u] == if u == Worker then Wk(WkIdle) else Idle
    ensures AtRest(PhaseOf(Projection(steps), t))
  {
    if t in Tasks(c) {
      RunFits(c, steps, t);
    } else {
      StrangerIsSilent(c, steps, t);
    }
  }
}
