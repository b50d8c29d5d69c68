/** Reading a wait and a disable as an unmount: the same steps seen with other eyes,
    possible as long as nobody is beside the task but the worker. */
module UnmountReading {
  import opened Options
  import opened QgroupLifecycle
  import opened QgroupMoves
  import opened QgroupSafety
  import opened QgroupLanguage
  import opened QgroupRuns
  import opened MutantLaws
  import opened QgroupUnmount

  // ----- Up to the end of the free -----

  /** t's place p in its wait or disable, and its place q in the unmount. An early
      reading has the free begin where the disable does. */
  predicate ReadsAs(early: bool, p: PC, q: PC) {
    match p
    case Idle => q == Um(UmFreeEnter)
    case Wt(w) => q == Um(if w == WaitRead then UmWaitRead else if w == WaitBlock then UmWaitBlock else UmWaitDone)
    case Dis(d) =>
      if d == DisFreeLock then !early && q == Um(UmFreeLock)
      else if d == DisFreeDo then !early && q == Um(UmFreeDo)
      else if d == DisFreeDone then !early && q == Um(UmFreeDone)
      else if early then q == Um(UmFreeLock) || q == Um(UmFreeDo)
      else q == Um(UmFreeEnter)
    case _ => false
  }

  /** Both runs give the worker the same work and the same locks. */
  predicate SameForWorker(s: State, d: State) {
    && d.rescanRunning == s.rescanRunning && d.completionDone == s.completionDone
    && d.workerQueued == s.workerQueued && d.qgroupLock == s.qgroupLock
    && d.rescanLock == s.rescanLock && d.iterating == s.iterating
  }

  /** t's places correspond, the others are idle, and the worker is in one place. */
  ghost predicate PlacesRead(sp: map<Task, PC>, dp: map<Task, PC>, t: Task, early: bool) {
    && t.User? && t in sp && Worker in sp && dp.Keys == sp.Keys
    && ReadsAs(early, sp[t], dp[t]) && dp[Worker] == sp[Worker] && sp[Worker].Wk?
    && forall u :: u in sp && u != t && u != Worker ==> sp[u] == Idle && dp[u] == Idle
  }

  lemma PlacesMove(sp: map<Task, PC>, dp: map<Task, PC>, t: Task, early: bool, p: PC, q: PC)
    requires PlacesRead(sp, dp, t, early) && ReadsAs(early, p, q)
    ensures PlacesRead(sp[t := p], dp[t := q], t, early)
    ensures q == dp[t] ==> PlacesRead(sp[t := p], dp, t, early)
  {
  }

  lemma PlacesWork(sp: map<Task, PC>, dp: map<Task, PC>, t: Task, early: bool, w: PC)
    requires PlacesRead(sp, dp, t, early) && w.Wk?
    ensures PlacesRead(sp[Worker := w], dp[Worker := w], t, early)
  {
  }

  /** Accounting is off from the clearing of the quota root to the end of the free. */
  predicate OffWhileFreeing(p: PC, flagOn: bool) {
    p == Dis(DisFreeEnter) || p == Dis(DisFreeLock) || p == Dis(DisFreeDo) || p == Dis(DisFreeDone) ==> !flagOn
  }

  ghost predicate Reading(s: State, d: State, t: Task, early: bool) {
    SameForWorker(s, d) && PlacesRead(s.pc, d.pc, t, early) && OffWhileFreeing(s.pc[t], s.flagOn)
  }

  /** The step of the unmount that corresponds to a step of the wait or the disable. */
  function ReadStep(t: Task, early: bool, a: Step): Option<Step> {
    match a
    case Work(_) => Some(a)
    case Wait(_, U_WaitRead) => Some(Unmount(t, M_WaitRead))
    case Wait(_, U_WaitBlocked) => Some(Unmount(t, M_WaitBlocked))
    case Wait(_, UserWaitDone) => Some(Unmount(t, M_WaitDone))
    case Disable(_, QuotaDisableEnter) => if early then Some(Unmount(t, M_FreeEnter)) else None
    case Disable(_, D_FreeEnter) => Some(Unmount(t, M_FreeEnter))
    case Disable(_, D_FreeLock) => Some(Unmount(t, M_FreeLock))
    case Disable(_, D_FreeDo) => Some(Unmount(t, M_FreeDo))
    case _ => None
  }

  function Follow(c: Config, d: State, b: Option<Step>): Option<State> {
    if b.None? then Some(d) else Fire(c, d, b.value)
  }

  function EventsOf(b: Option<Step>): seq<Event> { if b.None? then [] else Events(b.value) }

  /** What may happen between the start of the wait and the end of the free. */
  predicate Allowed(t: Task, early: bool, e: Event) {
    || e.task == Worker
    || e == Event(t, WaitRescanCompletion_Done) || e == Event(t, QuotaDisable_Enter)
    || (!early && e == Event(t, FreeQgroupConfig_Enter))
  }

  /** The events as an unmount shows them. */
  function Reread(t: Task, early: bool, trace: seq<Event>): seq<Event> {
    if trace == [] then []
    else
      var e := trace[|trace| - 1];
      Reread(t, early, trace[..|trace| - 1])
        + if e == Event(t, QuotaDisable_Enter) then (if early then [Event(t, FreeQgroupConfig_Enter)] else []) else [e]
  }

  lemma ReadWorker(c: Config, s: State, d: State, t: Task, early: bool, w: WorkerAction, s': State) returns (d': State)
    requires Reading(s, d, t, early) && FireWorker(s, w) == Some(s')
    ensures FireWorker(d, w) == Some(d') && Reading(s', d', t, early)
  {
    d' := FireWorker(d, w).value;
    PlacesWork(s.pc, d.pc, t, early, s'.pc[Worker]);
    hide PlacesRead;
    match w
    case WorkerStart =>
    case W_ScanLock =>
    case W_ScanUnlock =>
    case W_ExitLoop =>
    case W_Finish =>
    case WorkerDone =>
  }

  lemma ReadWaitRead(c: Config, s: State, d: State, t: Task, early: bool, s': State) returns (d': State)
    requires Reading(s, d, t, early) && FireWait(c, s, t, U_WaitRead) == Some(s')
    ensures FireUnmount(c, d, t, M_WaitRead) == Some(d') && Reading(s', d', t, early)
  {
    assert d.pc[t] == Um(UmWaitRead);
    d' := FireUnmount(c, d, t, M_WaitRead).value;
    PlacesMove(s.pc, d.pc, t, early, s'.pc[t], d'.pc[t]);
    hide PlacesRead;
  }

  lemma ReadWaitBlocked(c: Config, s: State, d: State, t: Task, early: bool, s': State) returns (d': State)
    requires Reading(s, d, t, early) && FireWait(c, s, t, U_WaitBlocked) == Some(s')
    ensures FireUnmount(c, d, t, M_WaitBlocked) == Some(d') && Reading(s', d', t, early)
  {
    assert d.pc[t] == Um(UmWaitBlock);
    d' := FireUnmount(c, d, t, M_WaitBlocked).value;
    PlacesMove(s.pc, d.pc, t, early, s'.pc[t], d'.pc[t]);
    hide PlacesRead;
  }

  lemma ReadWaitDone(c: Config, s: State, d: State, t: Task, early: bool, s': State) returns (d': State)
    requires Reading(s, d, t, early) && FireWait(c, s, t, UserWaitDone) == Some(s')
    ensures FireUnmount(c, d, t, M_WaitDone) == Some(d') && Reading(s', d', t, early)
  {
    assert d.pc[t] == Um(UmWaitDone);
    d' := FireUnmount(c, d, t, M_WaitDone).value;
    PlacesMove(s.pc, d.pc, t, early, s'.pc[t], d'.pc[t]);
    hide PlacesRead;
  }

  lemma ReadWait(c: Config, s: State, d: State, t: Task, early: bool, w: WaitAction, s': State) returns (d': State)
    requires Reading(s, d, t, early) && FireWait(c, s, t, w) == Some(s') && w != UserWaitEnter
    ensures Follow(c, d, ReadStep(t, early, Wait(t, w))) == Some(d') && Reading(s', d', t, early)
  {
    hide FireWait, FireUnmount, Reading;
    if w == U_WaitRead {
      d' := ReadWaitRead(c, s, d, t, early, s');
    } else if w == U_WaitBlocked {
      d' := ReadWaitBlocked(c, s, d, t, early, s');
    } else {
      d' := ReadWaitDone(c, s, d, t, early, s');
    }
  }

  /** Steps of the disable that the unmount does not have. */
  predicate NotInUnmount(early: bool, a: DisableAction) {
    || a == D_Check || a == D_ClearEnabled || a == D_WaitEnter || a == D_WaitRead || a == D_WaitBlocked
    || a == D_WaitDone || a == D_Trans || a == D_ClearRoot || a == D_Clean
    || (!early && a == QuotaDisableEnter)
  }

  lemma MovesUnseen(a: DisableAction, p: PC, p': PC, early: bool, q: PC)
    requires NotInUnmount(early, a) && DisableMove(a, p, p') && ReadsAs(early, p, q)
    ensures ReadsAs(early, p', q)
    ensures p' == Dis(DisFreeEnter) ==> a == D_ClearRoot
    ensures p' != Dis(DisFreeLock) && p' != Dis(DisFreeDo) && p' != Dis(DisFreeDone)
  {
  }

  lemma DisableMovesOne(c: Config, s: State, t: Task, a: DisableAction, s': State)
    requires FireDisable(c, s, t, a) == Some(s')
    ensures t in s.pc && t in s'.pc && s'.pc == s.pc[t := s'.pc[t]] && s'.rescanLock == s.rescanLock
    ensures a == D_ClearRoot ==> !s'.flagOn
  {
    match a
    case QuotaDisableEnter =>
    case D_Check =>
    case D_ClearEnabled =>
    case D_WaitEnter =>
    case D_WaitRead =>
    case D_WaitBlocked =>
    case D_WaitDone =>
    case D_Trans =>
    case D_ClearRoot =>
    case D_FreeEnter =>
    case D_FreeLock =>
    case D_FreeDo =>
    case D_FreeDone =>
    case D_Clean =>
    case QuotaDisableDone =>
  }

  lemma ReadUnseen(c: Config, s: State, d: State, t: Task, early: bool, a: DisableAction, s': State)
    requires Reading(s, d, t, early) && FireDisable(c, s, t, a) == Some(s') && NotInUnmount(early, a)
    ensures Reading(s', d, t, early)
  {
    DisableMoves(c, s, t, a, s');
    DisableSame(c, s, t, a, s');
    DisableMovesOne(c, s, t, a, s');
    hide FireDisable;
    MovesUnseen(a, s.pc[t], s'.pc[t], early, d.pc[t]);
    PlacesMove(s.pc, d.pc, t, early, s'.pc[t], d.pc[t]);
  }

  lemma ReadEarlyEnter(c: Config, s: State, d: State, t: Task, s': State) returns (d': State)
    requires Reading(s, d, t, true) && FireDisable(c, s, t, QuotaDisableEnter) == Some(s')
    ensures FireUnmount(c, d, t, M_FreeEnter) == Some(d') && Reading(s', d', t, true)
  {
    assert d.pc[t] == Um(UmFreeEnter);
    d' := FireUnmount(c, d, t, M_FreeEnter).value;
    PlacesMove(s.pc, d.pc, t, true, s'.pc[t], d'.pc[t]);
    hide PlacesRead;
  }

  lemma ReadFreeEnter(c: Config, s: State, d: State, t: Task, s': State) returns (d': State)
    requires Reading(s, d, t, false) && FireDisable(c, s, t, D_FreeEnter) == Some(s')
    ensures FireUnmount(c, d, t, M_FreeEnter) == Some(d') && Reading(s', d', t, false)
  {
    assert d.pc[t] == Um(UmFreeEnter);
    d' := FireUnmount(c, d, t, M_FreeEnter).value;
    PlacesMove(s.pc, d.pc, t, false, s'.pc[t], d'.pc[t]);
    hide PlacesRead;
  }

  lemma ReadFreeLock(c: Config, s: State, d: State, t: Task, early: bool, s': State) returns (d': State)
    requires Reading(s, d, t, early) && FireDisable(c, s, t, D_FreeLock) == Some(s')
    ensures FireUnmount(c, d, t, M_FreeLock) == Some(d') && Reading(s', d', t, early)
  {
    assert d.pc[t] == Um(UmFreeLock);
    d' := FireUnmount(c, d, t, M_FreeLock).value;
    PlacesMove(s.pc, d.pc, t, early, s'.pc[t], d'.pc[t]);
    hide PlacesRead;
  }

  /** What the free loop leaves behind, but for the record of a use-after-free. */
  lemma FreedShape(c: Config, s: State, t: Task, to: PC)
    ensures var s' := Freed(c, s, t, to);
            s' == s.(uafOccurred := s'.uafOccurred, pc := s.pc[t := to],
            qgroupLock := if c.fix then NoTask else s.qgroupLock)
  {
  }

  lemma FreeSteps(c: Config, s: State, t: Task)
    ensures FireDisable(c, s, t, D_FreeDo)
              == When(At(s, t, Dis(DisFreeDo)) && (c.fix ==> s.qgroupLock == t), Freed(c, s, t, Dis(DisFreeDone)))
    ensures FireUnmount(c, s, t, M_FreeDo)
              == When(At(s, t, Um(UmFreeDo)) && (c.fix ==> s.qgroupLock == t), Freed(c, s, t, Um(UmFreeDone)))
  {
  }

  lemma ReadFreeDo(c: Config, s: State, d: State, t: Task, early: bool, s': State) returns (d': State)
    requires Reading(s, d, t, early) && FireDisable(c, s, t, D_FreeDo) == Some(s')
    ensures FireUnmount(c, d, t, M_FreeDo) == Some(d') && Reading(s', d', t, early)
  {
    FreeSteps(c, s, t);
    FreeSteps(c, d, t);
    FreedShape(c, s, t, Dis(DisFreeDone));
    FreedShape(c, d, t, Um(UmFreeDone));
    hide FireDisable, FireUnmount, Freed;
    assert d.pc[t] == Um(UmFreeDo);
    PlacesMove(s.pc, d.pc, t, early, Dis(DisFreeDone), Um(UmFreeDone));
    hide PlacesRead;
    d' := Freed(c, d, t, Um(UmFreeDone));
  }

  lemma ReadDisable(c: Config, s: State, d: State, t: Task, early: bool, a: DisableAction, s': State)
      returns (d': State)
    requires Reading(s, d, t, early) && FireDisable(c, s, t, a) == Some(s')
    requires a != D_FreeDone && a != QuotaDisableDone && (early ==> a != D_FreeEnter)
    ensures Follow(c, d, ReadStep(t, early, Disable(t, a))) == Some(d') && Reading(s', d', t, early)
  {
    hide FireDisable, FireUnmount, Reading;
    if a == QuotaDisableEnter && early {
      d' := ReadEarlyEnter(c, s, d, t, s');
    } else if a == D_FreeEnter {
      d' := ReadFreeEnter(c, s, d, t, s');
    } else if a == D_FreeLock {
      d' := ReadFreeLock(c, s, d, t, early, s');
    } else if a == D_FreeDo {
      d' := ReadFreeDo(c, s, d, t, early, s');
    } else {
      assert NotInUnmount(early, a);
      ReadUnseen(c, s, d, t, early, a, s');
      d' := d;
    }
  }

  // ----- A stretch of the run -----

  /** A step inside the wait or the disable, up to the end of the free. */
  predicate Continues(early: bool, a: Step) {
    || (a.Wait? && a.wait != UserWaitEnter)
    || (a.Disable? && a.disable != D_FreeDone && a.disable != QuotaDisableDone && (early ==> a.disable != D_FreeEnter))
  }

  /** Between its wait and its free the task takes no other steps. */
  lemma OnlyWaitAndDisable(a: Step, p: PC, q: PC, early: bool, r: PC)
    requires StepMove(a, p, q) && ReadsAs(early, p, r)
    requires Observable(a) ==> Allowed(Owner(a), early, Event(Owner(a), Label(a).value)) && Owner(a) != Worker
    ensures Continues(early, a)
  {
  }

  lemma RereadOne(t: Task, early: bool, e: Event)
    ensures Reread(t, early, []) == []
    ensures Reread(t, early, [e])
              == if e == Event(t, QuotaDisable_Enter) then (if early then [Event(t, FreeQgroupConfig_Enter)] else [])
                 else [e]
  {
    assert [e][..0] == [];
  }

  lemma ReadLabel(t: Task, early: bool, a: Step)
    requires a.Work? || (a.t == t && t != Worker && Continues(early, a))
    ensures EventsOf(ReadStep(t, early, a)) == Reread(t, early, Events(a))
  {
    if Observable(a) {
      RereadOne(t, early, Event(Owner(a), Label(a).value));
    } else {
      RereadOne(t, early, Event(t, QuotaDisable_Enter));
    }
  }

  /** Whose step it can be. */
  lemma OwnerOfReading(c: Config, s: State, d: State, t: Task, early: bool, a: Step)
    requires Reading(s, d, t, early) && Fire(c, s, a).Some? && forall e :: e in Events(a) ==> Allowed(t, early, e)
    ensures a.Work? || (a.t == t && Continues(early, a))
  {
    var u, s' := Owner(a), Fire(c, s, a).value;
    StepMoves(c, s, a, s');
    hide Fire, StepMove;
    if Observable(a) {
      assert Event(u, Label(a).value) in Events(a);
    }
    if u == t {
      OnlyWaitAndDisable(a, s.pc[t], s'.pc[t], early, d.pc[t]);
    } else if u == Worker {
      WorkerMovesOnly(a, s.pc[u], s'.pc[u]);
    } else {
      IdleMoves(a, s.pc[u], s'.pc[u]);
    }
  }

  lemma ReadAny(c: Config, s: State, d: State, t: Task, early: bool, a: Step, s': State) returns (d': State)
    requires Reading(s, d, t, early) && Fire(c, s, a) == Some(s')
    requires forall e :: e in Events(a) ==> Allowed(t, early, e)
    ensures Follow(c, d, ReadStep(t, early, a)) == Some(d') && Reading(s', d', t, early)
    ensures EventsOf(ReadStep(t, early, a)) == Reread(t, early, Events(a))
  {
    assert t != Worker;
    OwnerOfReading(c, s, d, t, early, a);
    hide FireDisable, FireUnmount, FireWait, FireWorker, Reading, Events, EventsOf, Reread;
    ReadLabel(t, early, a);
    match a
    case Work(w) => d' := ReadWorker(c, s, d, t, early, w, s');
    case Wait(_, w) => d' := ReadWait(c, s, d, t, early, w, s');
    case Disable(_, e) => d' := ReadDisable(c, s, d, t, early, e, s');
  }

  lemma RereadConcat(t: Task, early: bool, x: seq<Event>, y: seq<Event>)
    requires |y| <= 1
    ensures Reread(t, early, x + y) == Reread(t, early, x) + Reread(t, early, y)
  {
    if y == [] {
      assert x + y == x;
    } else {
      RereadOne(t, early, y[0]);
      assert (x + y)[..|x + y| - 1] == x && y == [y[0]];
    }
  }

  /** The whole stretch, read as an unmount. */
  lemma {:induction false} ReadPath(c: Config, s: State, d: State, t: Task, early: bool, steps: seq<Step>,
                                    trace: seq<Event>, s': State)
    returns (read: seq<Step>, d': State)
    requires Reading(s, d, t, early) && Path(c, s, steps, trace, s')
    requires forall e :: e in trace ==> Allowed(t, early, e)
    ensures Path(c, d, read, Reread(t, early, trace), d') && Reading(s', d', t, early)
    decreases |steps|
  {
    if steps == [] {
      read, d' := [], d;
    } else {
      var shorter, before, m, a := PathLast(c, s, steps, trace, s');
      hide Fire, Reading, Allowed, Label;
      var most, dm := ReadPath(c, s, d, t, early, shorter, before, m);
      d' := ReadAny(c, m, dm, t, early, a, s');
      RereadConcat(t, early, before, Events(a));
      var b := ReadStep(t, early, a);
      read := FollowPath(c, d, most, Reread(t, early, before), dm, b, d');
    }
  }

  lemma FollowPath(c: Config, d: State, steps: seq<Step>, trace: seq<Event>, m: State, b: Option<Step>, d': State)
    returns (more: seq<Step>)
    requires Path(c, d, steps, trace, m) && Follow(c, m, b) == Some(d')
    ensures Path(c, d, more, trace + EventsOf(b), d')
  {
    if b.None? {
      more := steps;
      assert trace + [] == trace;
    } else {
      more := steps + [b.value];
      PathExtend(c, d, steps, trace, m, b.value, d');
    }
  }

  // ----- After the free -----

  /** The other tasks' places: a wait that the first run has to sit out has passed. */
  predicate LaterReads(p: PC, q: PC) {
    match p
    case Idle => q == Idle
    case Res(r) => q == p && (r == ResInit || r == ResDone)
    case Wt(w) => q == Wt(if w == WaitRead then WaitRead else WaitDone)
    case _ => false
  }

  ghost predicate LaterPlaces(sp: map<Task, PC>, dp: map<Task, PC>, t: Task) {
    && t.User? && t in sp && Worker in sp && dp.Keys == sp.Keys
    && (sp[t] == Dis(DisClean) || sp[t] == Dis(DisDone)) && dp[t] == Idle
    && dp[Worker] == sp[Worker] && sp[Worker].Wk?
    && forall u :: u in sp && u != t && u != Worker ==> LaterReads(sp[u], dp[u])
  }

  /** In the first run t's disable is still open and accounting is off; in the second
      the filesystem is unmounted. */
  ghost predicate Later(c: Config, s: State, d: State, t: Task) {
    && IsUser(c, t) && LaterPlaces(s.pc, d.pc, t) && s.subvolSem == t && !s.flagOn
    && !d.flagOn && !d.rescanRunning
    && d.qgroupLock == s.qgroupLock && d.rescanLock == s.rescanLock && d.iterating == s.iterating
  }

  lemma LaterMove(sp: map<Task, PC>, dp: map<Task, PC>, t: Task, u: Task, p: PC, q: PC)
    requires LaterPlaces(sp, dp, t) && u in sp && u != t
    requires if u == Worker then p == q && p.Wk? else LaterReads(p, q)
    ensures LaterPlaces(sp[u := p], dp[u := q], t)
    ensures q == dp[u] ==> LaterPlaces(sp[u := p], dp, t)
  {
  }

  lemma LaterPlace(sp: map<Task, PC>, dp: map<Task, PC>, t: Task, u: Task)
    requires LaterPlaces(sp, dp, t) && u in sp && u != t && u != Worker
    ensures u in dp && LaterReads(sp[u], dp[u])
  {
  }

  lemma LaterNotClosing(d: State, sp: map<Task, PC>, t: Task)
    requires LaterPlaces(sp, d.pc, t)
    ensures !Closing(d)
  {
  }

  /** Nothing of t's disable after the free shows; waits need not sit anything out. */
  function LaterStep(a: Step): Option<Step> {
    if a.Disable? || (a.Wait? && a.wait == U_WaitBlocked) then None else Some(a)
  }

  lemma LaterWorker(c: Config, s: State, d: State, t: Task, w: WorkerAction, s': State) returns (d': State)
    requires Later(c, s, d, t) && FireWorker(s, w) == Some(s') && w != WorkerStart
    ensures FireWorker(d, w) == Some(d') && Later(c, s', d', t)
  {
    d' := FireWorker(d, w).value;
    LaterMove(s.pc, d.pc, t, Worker, s'.pc[Worker], s'.pc[Worker]);
    hide LaterPlaces;
    match w
    case WorkerStart =>
    case W_ScanLock =>
    case W_ScanUnlock =>
    case W_ExitLoop =>
    case W_Finish =>
    case WorkerDone =>
  }

  lemma LaterRescanEnter(c: Config, s: State, d: State, t: Task, u: Task, s': State) returns (d': State)
    requires Later(c, s, d, t) && FireRescan(c, s, u, QgroupRescanEnter) == Some(s') && u != t && u != Worker
    ensures FireRescan(c, d, u, QgroupRescanEnter) == Some(d') && Later(c, s', d', t)
  {
    LaterNotClosing(d, s.pc, t);
    d' := FireRescan(c, d, u, QgroupRescanEnter).value;
    LaterMove(s.pc, d.pc, t, u, s'.pc[u], d'.pc[u]);
    hide LaterPlaces;
  }

  lemma LaterRescanInit(c: Config, s: State, d: State, t: Task, u: Task, s': State) returns (d': State)
    requires Later(c, s, d, t) && FireRescan(c, s, u, R_Init) == Some(s') && u != t && u != Worker
    ensures FireRescan(c, d, u, R_Init) == Some(d') && Later(c, s', d', t)
  {
    LaterPlace(s.pc, d.pc, t, u);
    hide LaterPlaces;
    assert d.pc[u] == Res(ResInit);
    d' := FireRescan(c, d, u, R_Init).value;
    LaterMove(s.pc, d.pc, t, u, s'.pc[u], d'.pc[u]);
  }

  lemma LaterRescanDone(c: Config, s: State, d: State, t: Task, u: Task, s': State) returns (d': State)
    requires Later(c, s, d, t) && FireRescan(c, s, u, QgroupRescanDone) == Some(s') && u != t && u != Worker
    ensures FireRescan(c, d, u, QgroupRescanDone) == Some(d') && Later(c, s', d', t)
  {
    LaterPlace(s.pc, d.pc, t, u);
    hide LaterPlaces;
    assert d.pc[u] == Res(ResDone);
    d' := FireRescan(c, d, u, QgroupRescanDone).value;
    LaterMove(s.pc, d.pc, t, u, s'.pc[u], d'.pc[u]);
  }

  lemma LaterRescan(c: Config, s: State, d: State, t: Task, u: Task, a: RescanAction, s': State) returns (d': State)
    requires Later(c, s, d, t) && FireRescan(c, s, u, a) == Some(s') && u != t && u != Worker
    ensures FireRescan(c, d, u, a) == Some(d') && Later(c, s', d', t)
  {
    RescanMoves(c, s, u, a, s');
    hide FireRescan;
    LaterRescans(a, s.pc[u], s'.pc[u], d.pc[u]);
    hide Later;
    if a == QgroupRescanEnter {
      d' := LaterRescanEnter(c, s, d, t, u, s');
    } else if a == R_Init {
      d' := LaterRescanInit(c, s, d, t, u, s');
    } else {
      d' := LaterRescanDone(c, s, d, t, u, s');
    }
  }

  /** With accounting off a rescan only turns back. */
  lemma LaterRescans(a: RescanAction, p: PC, p': PC, q: PC)
    requires RescanMove(a, p, p') && LaterReads(p, q)
    ensures a == QgroupRescanEnter || a == R_Init || a == QgroupRescanDone
  {
  }

  lemma LaterWaitEnter(c: Config, s: State, d: State, t: Task, u: Task, s': State) returns (d': State)
    requires Later(c, s, d, t) && FireWait(c, s, u, UserWaitEnter) == Some(s') && u != t && u != Worker
    ensures FireWait(c, d, u, UserWaitEnter) == Some(d') && Later(c, s', d', t)
  {
    LaterNotClosing(d, s.pc, t);
    d' := FireWait(c, d, u, UserWaitEnter).value;
    LaterMove(s.pc, d.pc, t, u, s'.pc[u], d'.pc[u]);
    hide LaterPlaces;
  }

  lemma LaterWaitRead(c: Config, s: State, d: State, t: Task, u: Task, s': State) returns (d': State)
    requires Later(c, s, d, t) && FireWait(c, s, u, U_WaitRead) == Some(s') && u != t && u != Worker
    ensures FireWait(c, d, u, U_WaitRead) == Some(d') && Later(c, s', d', t)
  {
    LaterPlace(s.pc, d.pc, t, u);
    hide LaterPlaces;
    assert d.pc[u] == Wt(WaitRead);
    d' := FireWait(c, d, u, U_WaitRead).value;
    LaterMove(s.pc, d.pc, t, u, s'.pc[u], d'.pc[u]);
  }

  lemma LaterWaitBlocked(c: Config, s: State, d: State, t: Task, u: Task, s': State)
    requires Later(c, s, d, t) && FireWait(c, s, u, U_WaitBlocked) == Some(s') && u != t && u != Worker
    ensures Later(c, s', d, t)
  {
    LaterMove(s.pc, d.pc, t, u, s'.pc[u], d.pc[u]);
    hide LaterPlaces;
  }

  lemma LaterWaitDone(c: Config, s: State, d: State, t: Task, u: Task, s': State) returns (d': State)
    requires Later(c, s, d, t) && FireWait(c, s, u, UserWaitDone) == Some(s') && u != t && u != Worker
    ensures FireWait(c, d, u, UserWaitDone) == Some(d') && Later(c, s', d', t)
  {
    LaterPlace(s.pc, d.pc, t, u);
    hide LaterPlaces;
    assert d.pc[u] == Wt(WaitDone);
    d' := FireWait(c, d, u, UserWaitDone).value;
    LaterMove(s.pc, d.pc, t, u, s'.pc[u], d'.pc[u]);
  }

  lemma LaterWait(c: Config, s: State, d: State, t: Task, u: Task, a: WaitAction, s': State) returns (d': State)
    requires Later(c, s, d, t) && FireWait(c, s, u, a) == Some(s') && u != t && u != Worker
    ensures Follow(c, d, LaterStep(Wait(u, a))) == Some(d') && Later(c, s', d', t)
  {
    hide FireWait, Later;
    match a
    case UserWaitEnter => d' := LaterWaitEnter(c, s, d, t, u, s');
    case U_WaitRead => d' := LaterWaitRead(c, s, d, t, u, s');
    case U_WaitBlocked => LaterWaitBlocked(c, s, d, t, u, s'); d' := d;
    case UserWaitDone => d' := LaterWaitDone(c, s, d, t, u, s');
  }

  lemma LaterClean(c: Config, s: State, d: State, t: Task, s': State)
    requires Later(c, s, d, t) && FireDisable(c, s, t, D_Clean) == Some(s')
    ensures Later(c, s', d, t)
  {
  }

  /** Events of others that ask for no work. */
  predicate Unrelated(t: Task, e: Event) { e.task != t && e.action != RescanWorker_Enter }

  lemma OwnerOfLater(c: Config, s: State, d: State, t: Task, a: Step)
    requires Later(c, s, d, t) && Fire(c, s, a).Some? && forall e :: e in Events(a) ==> Unrelated(t, e)
    ensures (a.Work? && a.work != WorkerStart) || (a.Rescan? && a.t != t && a.t != Worker)
            || (a.Wait? && a.t != t && a.t != Worker) || a == Disable(t, D_Clean)
  {
    var u, s' := Owner(a), Fire(c, s, a).value;
    StepMoves(c, s, a, s');
    if Observable(a) {
      assert Event(u, Label(a).value) in Events(a);
    }
    if u == Worker {
      hide Fire, StepMove;
      WorkerMovesOnly(a, s.pc[u], s'.pc[u]);
    } else if u == t {
      hide Fire;
      OnlyCleanSilent(a, s.pc[t], s'.pc[t]);
    } else {
      EntriesBarred(c, s, d, t, a);
      hide Fire, StepMove;
      LaterPlace(s.pc, d.pc, t, u);
    }
  }

  lemma OnlyCleanSilent(a: Step, p: PC, q: PC)
    requires StepMove(a, p, q) && (p == Dis(DisClean) || p == Dis(DisDone)) && !Observable(a)
    ensures a.Disable? && a.disable == D_Clean
  {
  }

  /** While t's disable is open nobody else enables, disables or unmounts. */
  lemma EntriesBarred(c: Config, s: State, d: State, t: Task, a: Step)
    requires Later(c, s, d, t) && Fire(c, s, a).Some? && Owner(a) != t && Owner(a) != Worker
    ensures a.Rescan? || a.Wait?
  {
    var u, s' := Owner(a), Fire(c, s, a).value;
    StepMoves(c, s, a, s');
    LaterPlace(s.pc, d.pc, t, u);
    if s.pc[u] == Idle {
      BarredIdle(c, s, t, a);
    } else {
      hide Fire;
      LaterKinds(a, s.pc[u], s'.pc[u], d.pc[u]);
    }
  }

  lemma LaterKinds(a: Step, p: PC, p': PC, q: PC)
    requires StepMove(a, p, p') && LaterReads(p, q) && p != Idle
    ensures a.Rescan? || a.Wait?
  {
  }

  lemma BarredIdle(c: Config, s: State, t: Task, a: Step)
    requires IsUser(c, t) && t in s.pc && s.pc[t] != Idle && s.subvolSem == t
    requires Fire(c, s, a).Some? && At(s, Owner(a), Idle) && Owner(a) != t && !a.Work?
    ensures a.Rescan? || a.Wait?
  {
    assert s.subvolSem != NoTask;
  }

  lemma LaterAny(c: Config, s: State, d: State, t: Task, a: Step, s': State) returns (d': State)
    requires Later(c, s, d, t) && Fire(c, s, a) == Some(s') && forall e :: e in Events(a) ==> Unrelated(t, e)
    ensures Follow(c, d, LaterStep(a)) == Some(d') && Later(c, s', d', t) && EventsOf(LaterStep(a)) == Events(a)
  {
    OwnerOfLater(c, s, d, t, a);
    hide FireDisable, FireRescan, FireWait, FireWorker, Later;
    match a
    case Work(w) => d' := LaterWorker(c, s, d, t, w, s');
    case Wait(u, w) => d' := LaterWait(c, s, d, t, u, w, s');
    case Rescan(u, r) => d' := LaterRescan(c, s, d, t, u, r, s');
    case Disable(_, _) => LaterClean(c, s, d, t, s'); d' := d;
  }

  lemma {:induction false} LaterPath(c: Config, s: State, d: State, t: Task, steps: seq<Step>,
                                     trace: seq<Event>, s': State)
    returns (later: seq<Step>, d': State)
    requires Later(c, s, d, t) && Path(c, s, steps, trace, s') && forall e :: e in trace ==> Unrelated(t, e)
    ensures Path(c, d, later, trace, d') && Later(c, s', d', t)
    decreases |steps|
  {
    if steps == [] {
      later, d' := [], d;
    } else {
      var shorter, before, m, a := PathLast(c, s, steps, trace, s');
      hide Fire, Later, Unrelated, Label;
      var most, dm := LaterPath(c, s, d, t, shorter, before, m);
      d' := LaterAny(c, m, dm, t, a, s');
      later := FollowPath(c, d, most, before, dm, LaterStep(a), d');
    }
  }

  lemma FreeBy(c: Config, s: State, b: Step, s': State, t: Task, early: bool, q: PC)
    requires Locks(c, s) && Fire(c, s, b) == Some(s') && Events(b) == [Event(t, FreeQgroupConfig_Done)]
    requires t in s.pc && ReadsAs(early, s.pc[t], q)
    ensures b == Disable(t, D_FreeDone) && s.pc[t] == Dis(DisFreeDone) && s.subvolSem == t
  {
    assert Events(b)[0].task == t;
  }

  lemma LaterBegins(sp: map<Task, PC>, dp: map<Task, PC>, t: Task)
    requires PlacesRead(sp, dp, t, false)
    ensures LaterPlaces(sp[t := Dis(DisClean)], dp[t := Idle], t)
  {
  }

  /** The end of the free: of a disable in one run, of the unmount in the other. */
  lemma FreeEnds(c: Config, s: State, d: State, t: Task, b: Step, s': State) returns (d': State)
    requires Reading(s, d, t, false) && Locks(c, s) && Fire(c, s, b) == Some(s') && IsUser(c, t)
    requires Events(b) == [Event(t, FreeQgroupConfig_Done)]
    ensures FireUnmount(c, d, t, M_FreeDone) == Some(d') && Later(c, s', d', t)
  {
    FreeBy(c, s, b, s', t, false, d.pc[t]);
    hide Locks;
    d' := FreeEndsBoth(c, s, d, t, s');
  }

  lemma FreeEndsBoth(c: Config, s: State, d: State, t: Task, s': State) returns (d': State)
    requires Reading(s, d, t, false) && FireDisable(c, s, t, D_FreeDone) == Some(s') && IsUser(c, t)
    requires s.pc[t] == Dis(DisFreeDone) && s.subvolSem == t
    ensures FireUnmount(c, d, t, M_FreeDone) == Some(d') && Later(c, s', d', t)
  {
    LaterBegins(s.pc, d.pc, t);
    assert d.pc[t] == Um(UmFreeDone);
    hide PlacesRead, LaterPlaces;
    d' := FireUnmount(c, d, t, M_FreeDone).value;
  }

  // ----- From the start of the wait -----

  /** t waits from g to h and begins a disable at i. */
  ghost predicate WaitsThenDisables(x: seq<Event>, t: Task, g: int, h: int, i: int) {
    && NextSame(x, g, h) && NextSame(x, h, i)
    && x[g] == Event(t, WaitRescanCompletion_Enter) && x[h] == Event(t, WaitRescanCompletion_Done)
    && x[i] == Event(t, QuotaDisable_Enter)
  }

  /** A wait followed by a disable was no unmount. */
  lemma WaitBegan(c: Config, steps: seq<Step>, x: seq<Event>, s': State, t: Task, g: int, h: int, i: int)
    returns (x0: seq<Step>, m: State, m': State, z: seq<Step>)
    requires Path(c, Init(c), steps, x, s') && WaitsThenDisables(x, t, g, h, i)
    ensures Path(c, Init(c), x0, x[..g], m) && Fire(c, m, Wait(t, UserWaitEnter)) == Some(m')
    ensures Path(c, m', z, x[g + 1..], s') && Locks(c, m) && Locks(c, m')
  {
    var a, z1, n, b, upTo;
    hide Fire, Locks, Label;
    x0, m, a, m', z, z1, n, b, upTo := CutAtTwo(c, steps, x, s', g, i);
    BeginsOnlyWait(c, m, a, m', t);
    if m'.pc[t].Um? {
      assert Event(t, FreeQgroupConfig_Done) !in x[g + 1..i];
      PathStaysUnmounting(c, m', t, z1, x[g + 1..i], n);
      UnmounterStartsNoDisable(c, n, b, t);
    }
  }

  lemma BeginsOnlyWait(c: Config, s: State, a: Step, s': State, t: Task)
    requires Events(a) == [Event(t, WaitRescanCompletion_Enter)] && Fire(c, s, a) == Some(s')
    ensures t in s'.pc && (a == Wait(t, UserWaitEnter) || s'.pc[t].Um?)
  {
  }

  lemma UnmounterStartsNoDisable(c: Config, s: State, b: Step, t: Task)
    requires Events(b) == [Event(t, QuotaDisable_Enter)] && Fire(c, s, b).Some?
    ensures !Unmounts(c, s, t)
  {
    assert Events(b)[0].task == t;
  }

  lemma OthersIdle(c: Config, x0: seq<Step>, x: seq<Event>, m: State, t: Task)
    requires Path(c, Init(c), x0, x, m) && OthersRest(x, t) && !Closing(m) && Locks(c, m)
    ensures forall u :: u in m.pc && u != t && u != Worker ==> m.pc[u] == Idle
  {
    forall u | u in m.pc && u != t && u != Worker
      ensures m.pc[u] == Idle
    {
      assert u in Tasks(c);
      RunFits(c, x0, u);
      RestIsIdle(m.pc[u], PhaseOf(x, u));
    }
  }

  lemma RestIsIdle(p: PC, q: Phase)
    requires Fits(p, q) && AtRest(q) && !p.Um? && !p.Wk?
    ensures p == Idle
  {
  }

  /** When the others are at rest, the wait can as well be the start of an unmount. */
  lemma ReadingBegins(c: Config, m: State, m': State, t: Task) returns (d: State)
    requires Locks(c, m) && Fire(c, m, Wait(t, UserWaitEnter)) == Some(m')
    requires forall u :: u in m.pc && u != t && u != Worker ==> m.pc[u] == Idle
    ensures Fire(c, m, Unmount(t, UmountBegin)) == Some(d) && IsUser(c, t)
    ensures Reading(m', d, t, true) && Reading(m', d, t, false)
  {
    d := Fire(c, m, Unmount(t, UmountBegin)).value;
  }

  /** The unmount's run up to the start of the wait, and the stretch still to be read. */
  lemma BeginReading(c: Config, steps: seq<Step>, x: seq<Event>, s': State, t: Task, g: int, h: int, i: int)
    returns (read: seq<Step>, m: State, d: State, z: seq<Step>)
    requires Path(c, Init(c), steps, x, s') && WaitsThenDisables(x, t, g, h, i) && OthersRest(x[..g], t)
    ensures Path(c, Init(c), read, x[..g] + [x[g]], d) && Path(c, m, z, x[g + 1..], s') && Locks(c, m)
    ensures IsUser(c, t) && Reading(m, d, t, true) && Reading(m, d, t, false)
  {
    var x0, m0;
    assert Events(Unmount(t, UmountBegin)) == [x[g]];
    hide Locks, OthersRest, Reading, WaitsThenDisables, Events, Tasks;
    x0, m0, m, z := WaitBegan(c, steps, x, s', t, g, h, i);
    WaitNeedsOpen(c, m0, t);
    OthersIdle(c, x0, x[..g], m0, t);
    hide Fire;
    d := ReadingBegins(c, m0, m, t);
    PathExtend(c, Init(c), x0, x[..g], m0, Unmount(t, UmountBegin), d);
    read := x0 + [Unmount(t, UmountBegin)];
  }

  lemma WaitNeedsOpen(c: Config, s: State, t: Task)
    requires Fire(c, s, Wait(t, UserWaitEnter)).Some?
    ensures !Closing(s)
  {
  }
}
