/** Transaction abort: an aborter marks the running transaction, wakes its blocked
    writers one by one and drops its reference, while writers join and leave and heap
    slots are reused. Any number of writers and slots. */
module TransactionAbort {
  import opened Options
  import opened Counting
  import opened Sets
  import opened Runs

  datatype Config = Config(numWriters: nat, maxTransactions: nat)

  datatype TransState =
    | NoTrans | Running | CommitStart | CommitDoing | Unblocked | SuperCommitted | Completed | Aborted

  /** A heap slot for a transaction. */
  datatype Slot = Slot(alloc: bool, refcount: int, aborted: bool, state: TransState)

  datatype WriterState = Idle | Joining | Joined | Blocked | Woken | Done | Error

  /** `trans` is the slot the writer joined, 0 for none. */
  datatype Writer = Writer(st: WriterState, trans: int)

  datatype AborterState = AborterIdle | WalkList | AborterDone

  /** `running` is the slot of the running transaction, 0 for none. */
  datatype State = State(
    fsError: bool, slots: map<int, Slot>, running: int, transLock: bool, writers: map<int, Writer>,
    aborter: AborterState, target: int, walkIdx: int)

  datatype Step =
    | CreateTrans(t: int) | FreeTrans(t: int) | CommitAdvance | CommitComplete
    | WriterJoin(w: int) | WriterDropLock(w: int) | WriterBlock(w: int) | WriterProceed(w: int)
    | WriterWoken(w: int) | WriterLeave(w: int) | CommitWakeup(w: int)
    | AbortStep1 | AbortWalkList | AbortRemoveTrans | AbortReset

  function Init(c: Config): State {
    State(false, map t | t in UpTo(c.maxTransactions) :: Slot(false, 0, false, NoTrans), 0, false,
          map w | w in UpTo(c.numWriters) :: Writer(Idle, 0), AborterIdle, 0, 0)
  }

  function Next(x: TransState): TransState {
    match x
    case Running => CommitStart
    case CommitStart => CommitDoing
    case CommitDoing => Unblocked
    case Unblocked => SuperCommitted
    case SuperCommitted => Completed
    case _ => x
  }

  predicate InFlight(x: TransState) {
    x == Running || x == CommitStart || x == CommitDoing || x == Unblocked || x == SuperCommitted
  }

  /** The states that let a waiting writer go. */
  predicate Released(x: TransState) { x == Unblocked || x == SuperCommitted || x == Completed || x == Aborted }

  function WithSlot(s: State, t: int, x: Slot): State { s.(slots := s.slots[t := x]) }

  function WithWriter(s: State, w: int, x: Writer): State { s.(writers := s.writers[w := x]) }

  function Refer(s: State, t: int, d: int): State
    requires t in s.slots
  {
    WithSlot(s, t, s.slots[t].(refcount := s.slots[t].refcount + d))
  }

  predicate IsWriterStep(a: Step) {
    a.WriterJoin? || a.WriterDropLock? || a.WriterBlock? || a.WriterProceed? || a.WriterWoken? || a.WriterLeave?
    || a.CommitWakeup?
  }

  function FireWriter(c: Config, s: State, a: Step): Option<State>
    requires IsWriterStep(a)
  {
    if a.w !in s.writers then None
    else
      var w, x := a.w, s.writers[a.w];
      var t := x.trans;
      match a
      case WriterJoin(_) =>
        if x.st == Idle && !s.transLock && s.running in s.slots && !s.fsError
           && (s.slots[s.running].state == Running || s.slots[s.running].state == CommitStart)
        then Some(WithWriter(Refer(s, s.running, 1), w, Writer(Joining, s.running)).(transLock := true))
        else None
      case WriterDropLock(_) =>
        if x.st == Joining then Some(WithWriter(s, w, Writer(Joined, t)).(transLock := false)) else None
      case WriterBlock(_) =>
        if x.st == Joined && t in s.slots && (s.slots[t].state == CommitStart || s.slots[t].state == CommitDoing)
        then Some(WithWriter(s, w, Writer(Blocked, t))) else None
      case WriterProceed(_) =>
        if x.st == Joined && t in s.slots && Released(s.slots[t].state)
        then Some(WithWriter(s, w, Writer(if s.slots[t].aborted then Error else Done, t))) else None
      case WriterWoken(_) =>
        if x.st == Woken && t in s.slots
        then Some(WithWriter(s, w, Writer(if s.slots[t].aborted then Error else Done, t))) else None
      case WriterLeave(_) =>
        if (x.st == Done || x.st == Error) && t in s.slots
        then Some(WithWriter(Refer(s, t, -1), w, Writer(Idle, 0))) else None
      case CommitWakeup(_) =>
        if x.st == Blocked && t in s.slots && Released(s.slots[t].state)
        then Some(WithWriter(s, w, Writer(Woken, t))) else None
  }

  function FireAborter(c: Config, s: State, a: Step): Option<State>
    requires a.AbortStep1? || a.AbortWalkList? || a.AbortRemoveTrans? || a.AbortReset?
  {
    match a
    case AbortStep1 =>
      if s.aborter == AborterIdle && s.running in s.slots && !s.transLock
         && InFlight(s.slots[s.running].state) && s.slots[s.running].state != SuperCommitted
      then Some(WithSlot(s, s.running, s.slots[s.running].(aborted := true, state := Aborted)).(
                fsError := true, target := s.running, walkIdx := 1, aborter := WalkList))
      else None
    case AbortWalkList =>
      if s.aborter == WalkList && s.walkIdx <= c.numWriters && s.walkIdx in s.writers then
        var x := s.writers[s.walkIdx];
        Some((if x.st == Blocked && x.trans == s.target then WithWriter(s, s.walkIdx, Writer(Woken, x.trans)) else s)
             .(walkIdx := s.walkIdx + 1))
      else None
    case AbortRemoveTrans =>
      if s.aborter == WalkList && s.walkIdx > c.numWriters && s.target in s.slots
      then Some(Refer(s, s.target, -1).(running := 0, aborter := AborterDone)) else None
    case AbortReset =>
      if s.aborter == AborterDone then Some(s.(aborter := AborterIdle, target := 0, walkIdx := 0)) else None
  }

  function FireCommit(c: Config, s: State, a: Step): Option<State>
    requires a.CreateTrans? || a.FreeTrans? || a.CommitAdvance? || a.CommitComplete?
  {
    match a
    case CreateTrans(t) =>
      if s.running == 0 && !s.fsError && !s.transLock && t in s.slots && !s.slots[t].alloc
      then Some(WithSlot(s, t, Slot(true, 1, false, Running)).(running := t)) else None
    case FreeTrans(t) =>
      if t in s.slots && s.slots[t].alloc && s.slots[t].refcount == 0
      then Some(WithSlot(s, t, s.slots[t].(alloc := false, state := NoTrans))) else None
    case CommitAdvance =>
      if s.running in s.slots && !s.fsError && s.aborter == AborterIdle && !s.transLock
         && InFlight(s.slots[s.running].state)
      then Some(WithSlot(s, s.running, s.slots[s.running].(state := Next(s.slots[s.running].state)))) else None
    case CommitComplete =>
      if s.running in s.slots && s.slots[s.running].state == Completed
      then Some(Refer(s, s.running, -1).(running := 0)) else None
  }

  function Fire(c: Config, s: State, a: Step): Option<State> {
    if IsWriterStep(a) then FireWriter(c, s, a)
    else if a.CreateTrans? || a.FreeTrans? || a.CommitAdvance? || a.CommitComplete? then FireCommit(c, s, a)
    else FireAborter(c, s, a)
  }

  // ----- What every reachable state keeps -----

  function PointsAt(t: int): Writer -> bool { (x: Writer) => x.trans == t }

  predicate IsJoining(x: Writer) { x.st == Joining }

  /** A reference count is the running reference plus the writers pointing at the slot. */
  ghost predicate RefcountsExact(s: State) {
    forall t :: t in s.slots ==> s.slots[t].refcount == Bit(s.running == t) + CountIf(s.writers, PointsAt(t))
  }

  /** Nobody points at a freed slot. */
  ghost predicate PointersLive(s: State) {
    && (s.running != 0 ==> s.running in s.slots && s.slots[s.running].alloc)
    && (forall w :: w in s.writers && s.writers[w].trans != 0 ==>
          s.writers[w].trans in s.slots && s.slots[s.writers[w].trans].alloc)
    && (forall w :: w in s.writers ==> (s.writers[w].st == Idle <==> s.writers[w].trans == 0))
    && 0 !in s.slots
  }

  /** Only the running transaction is in flight; after an error the only one is aborted. */
  ghost predicate StatesOk(s: State) {
    && (forall t :: t in s.slots && s.slots[t].alloc && InFlight(s.slots[t].state) ==> t == s.running)
    && (forall t :: t in s.slots ==> (s.slots[t].state == NoTrans <==> !s.slots[t].alloc))
    && (forall t :: t in s.slots && s.slots[t].state == Aborted ==> s.fsError)
    && (forall t :: t in s.slots && s.slots[t].alloc ==> (s.slots[t].aborted <==> s.slots[t].state == Aborted))
    && (s.fsError && s.running != 0 ==> s.running in s.slots && s.slots[s.running].state == Aborted)
  }

  /** During the walk the target stays in place and everyone passed by is awake. */
  ghost predicate WalkOk(c: Config, s: State) {
    && (s.aborter != AborterIdle ==> s.fsError)
    && (s.aborter == WalkList ==>
          && s.target == s.running && s.target in s.slots && s.slots[s.target].state == Aborted
          && 1 <= s.walkIdx <= c.numWriters + 1
          && forall w :: w in s.writers && w < s.walkIdx && s.writers[w].trans == s.target ==>
               s.writers[w].st != Blocked)
    && (s.fsError && s.aborter != WalkList ==> s.running == 0)
  }

  ghost predicate Inv(c: Config, s: State) {
    && (forall t :: t in s.slots <==> 1 <= t <= c.maxTransactions)
    && (forall w :: w in s.writers <==> 1 <= w <= c.numWriters)
    && RefcountsExact(s) && PointersLive(s) && StatesOk(s) && WalkOk(c, s)
    && CountIf(s.writers, IsJoining) == Bit(s.transLock)
  }

  lemma InitInv(c: Config)
    ensures Inv(c, Init(c))
  {
    var s := Init(c);
    CountZero(s.writers, IsJoining);
    forall t | t in s.slots
      ensures s.slots[t].refcount == Bit(s.running == t) + CountIf(s.writers, PointsAt(t))
    {
      CountZero(s.writers, PointsAt(t));
    }
  }

  lemma PointersAfter(ws: map<int, Writer>, w: int, x: Writer)
    requires w in ws
    ensures forall t ::
              CountIf(ws[w := x], PointsAt(t)) + Bit(ws[w].trans == t) == CountIf(ws, PointsAt(t)) + Bit(x.trans == t)
    ensures CountIf(ws[w := x], IsJoining) + Bit(ws[w].st == Joining) == CountIf(ws, IsJoining) + Bit(x.st == Joining)
  {
    CountUpdate(ws, w, x, IsJoining);
    forall t
      ensures CountIf(ws[w := x], PointsAt(t)) + Bit(ws[w].trans == t) == CountIf(ws, PointsAt(t)) + Bit(x.trans == t)
    {
      CountUpdate(ws, w, x, PointsAt(t));
    }
  }

  /** A slot someone points at has references; one without references, no pointers. */
  lemma Referenced(c: Config, s: State, t: int)
    requires Inv(c, s) && t in s.slots
    ensures s.slots[t].refcount == 0 ==> s.running != t && forall w :: w in s.writers ==> s.writers[w].trans != t
    ensures !s.slots[t].alloc ==> s.slots[t].refcount == 0
  {
    forall w | w in s.writers && s.writers[w].trans == t
      ensures CountIf(s.writers, PointsAt(t)) >= 1
    {
      CountPositive(s.writers, w, PointsAt(t));
    }
    if !s.slots[t].alloc {
      forall w | w in s.writers
        ensures !PointsAt(t)(s.writers[w])
      {
      }
      CountZero(s.writers, PointsAt(t));
    }
  }

  lemma WriterKeepsCounts(c: Config, s: State, a: Step)
    requires Inv(c, s) && IsWriterStep(a) && FireWriter(c, s, a).Some?
    ensures var s' := FireWriter(c, s, a).value;
            RefcountsExact(s') && CountIf(s'.writers, IsJoining) == Bit(s'.transLock)
  {
    var s' := FireWriter(c, s, a).value;
    PointersAfter(s.writers, a.w, s'.writers[a.w]);
    assert s'.writers == s.writers[a.w := s'.writers[a.w]];
  }

  /** A writer's step changes its own record, the lock and one reference count. */
  lemma WriterStepFrame(c: Config, s: State, a: Step)
    requires IsWriterStep(a) && FireWriter(c, s, a).Some?
    ensures var s' := FireWriter(c, s, a).value;
            && s' == s.(slots := s'.slots, writers := s'.writers, transLock := s'.transLock)
            && (forall t :: t in s.slots <==> t in s'.slots)
            && (forall t :: t in s.slots ==> s'.slots[t] == s.slots[t].(refcount := s'.slots[t].refcount))
            && a.w in s.writers && a.w in s'.writers && s'.writers == s.writers[a.w := s'.writers[a.w]]
  {
  }

  lemma WriterKeepsPlaces(c: Config, s: State, a: Step)
    requires Inv(c, s) && IsWriterStep(a) && FireWriter(c, s, a).Some?
    ensures var s' := FireWriter(c, s, a).value; PointersLive(s') && WalkOk(c, s')
  {
    hide RefcountsExact;
  }

  lemma WriterKeepsStates(c: Config, s: State, a: Step)
    requires StatesOk(s) && IsWriterStep(a) && FireWriter(c, s, a).Some?
    ensures StatesOk(FireWriter(c, s, a).value)
  {
    WriterStepFrame(c, s, a);
    hide FireWriter;
  }

  lemma WriterKeepsInv(c: Config, s: State, a: Step)
    requires Inv(c, s) && IsWriterStep(a) && FireWriter(c, s, a).Some?
    ensures Inv(c, FireWriter(c, s, a).value)
  {
    hide RefcountsExact, PointersLive, StatesOk, WalkOk, FireWriter;
    WriterStepFrame(c, s, a);
    WriterKeepsCounts(c, s, a);
    WriterKeepsPlaces(c, s, a);
    WriterKeepsStates(c, s, a);
  }

  lemma AborterKeepsCounts(c: Config, s: State, a: Step)
    requires Inv(c, s) && (a.AbortStep1? || a.AbortWalkList? || a.AbortRemoveTrans? || a.AbortReset?)
    requires FireAborter(c, s, a).Some?
    ensures var s' := FireAborter(c, s, a).value;
            RefcountsExact(s') && CountIf(s'.writers, IsJoining) == Bit(s'.transLock)
  {
    var s' := FireAborter(c, s, a).value;
    if a.AbortWalkList? {
      PointersAfter(s.writers, s.walkIdx, s'.writers[s.walkIdx]);
      assert s'.writers == s.writers[s.walkIdx := s'.writers[s.walkIdx]];
    }
  }

  lemma AborterKeepsPlaces(c: Config, s: State, a: Step)
    requires Inv(c, s) && (a.AbortStep1? || a.AbortWalkList? || a.AbortRemoveTrans? || a.AbortReset?)
    requires FireAborter(c, s, a).Some?
    ensures var s' := FireAborter(c, s, a).value; PointersLive(s') && WalkOk(c, s')
  {
    hide RefcountsExact;
  }

  lemma AborterKeepsStates(c: Config, s: State, a: Step)
    requires Inv(c, s) && (a.AbortStep1? || a.AbortWalkList? || a.AbortRemoveTrans? || a.AbortReset?)
    requires FireAborter(c, s, a).Some?
    ensures StatesOk(FireAborter(c, s, a).value)
  {
    hide RefcountsExact;
  }

  lemma AborterKeepsInv(c: Config, s: State, a: Step)
    requires Inv(c, s) && (a.AbortStep1? || a.AbortWalkList? || a.AbortRemoveTrans? || a.AbortReset?)
    requires FireAborter(c, s, a).Some?
    ensures Inv(c, FireAborter(c, s, a).value)
  {
    hide RefcountsExact, PointersLive, StatesOk, WalkOk;
    AborterKeepsCounts(c, s, a);
    AborterKeepsPlaces(c, s, a);
    AborterKeepsStates(c, s, a);
  }

  lemma CommitKeepsCounts(c: Config, s: State, a: Step)
    requires Inv(c, s) && (a.CreateTrans? || a.FreeTrans? || a.CommitAdvance? || a.CommitComplete?)
    requires FireCommit(c, s, a).Some?
    ensures RefcountsExact(FireCommit(c, s, a).value)
  {
    if a.CreateTrans? || a.FreeTrans? {
      Referenced(c, s, a.t);
    }
  }

  lemma SlotsKeepInv(c: Config, s: State, a: Step)
    requires Inv(c, s) && (a.CreateTrans? || a.FreeTrans?) && FireCommit(c, s, a).Some?
    ensures Inv(c, FireCommit(c, s, a).value)
  {
    CommitKeepsCounts(c, s, a);
    Referenced(c, s, a.t);
    hide RefcountsExact;
    if a.CreateTrans? {
    }
  }

  lemma CommitKeepsInv(c: Config, s: State, a: Step)
    requires Inv(c, s) && (a.CreateTrans? || a.FreeTrans? || a.CommitAdvance? || a.CommitComplete?)
    requires FireCommit(c, s, a).Some?
    ensures Inv(c, FireCommit(c, s, a).value)
  {
    if a.CreateTrans? || a.FreeTrans? {
      SlotsKeepInv(c, s, a);
    } else if a.CommitAdvance? {
      CommitKeepsCounts(c, s, a);
      hide RefcountsExact;
    } else {
      CommitKeepsCounts(c, s, a);
      hide RefcountsExact;
    }
  }

  lemma StepKeepsInv(c: Config)
    ensures Inductive(Fire, Inv, c)
  {
    forall s, a | Inv(c, s) && Fire(c, s, a).Some?
      ensures Inv(c, Fire(c, s, a).value)
    {
      if IsWriterStep(a) {
        WriterKeepsInv(c, s, a);
      } else if a.CreateTrans? || a.FreeTrans? || a.CommitAdvance? || a.CommitComplete? {
        CommitKeepsInv(c, s, a);
      } else {
        AborterKeepsInv(c, s, a);
      }
    }
  }

  lemma RunKeepsInv(c: Config, steps: seq<Step>)
    requires After(Fire, c, Init(c), steps).Some?
    ensures Inv(c, After(Fire, c, Init(c), steps).value)
  {
    InitInv(c);
    StepKeepsInv(c);
    RunKeeps(Fire, Inv, c, Init(c), steps);
  }

  /** Memory safety and the error state, over every run: counts are exact, no writer
      points at a freed slot (so the check in WriterWoken cannot fail), an aborted
      transaction means the error is set, and then only an aborted one runs. */
  lemma AbortIsSafe(c: Config, steps: seq<Step>)
    requires After(Fire, c, Init(c), steps).Some?
    ensures var s := After(Fire, c, Init(c), steps).value;
            && RefcountsExact(s)
            && (forall t :: t in s.slots ==> s.slots[t].refcount >= 0)
            && (forall w :: w in s.writers && s.writers[w].trans != 0 ==>
                  s.writers[w].trans in s.slots && s.slots[s.writers[w].trans].alloc)
            && (forall t :: t in s.slots && s.slots[t].state == Aborted ==> s.fsError)
            && (s.fsError && s.running != 0 ==> s.running in s.slots && s.slots[s.running].state == Aborted)
  {
    RunKeepsInv(c, steps);
  }

  /** When the aborter has finished its walk nobody sleeps on the aborted transaction. */
  lemma WalkWakesEveryone(c: Config, steps: seq<Step>)
    requires After(Fire, c, Init(c), steps).Some?
    requires Fire(c, After(Fire, c, Init(c), steps).value, AbortRemoveTrans).Some?
    ensures var s := After(Fire, c, Init(c), steps).value;
            forall w :: w in s.writers && s.writers[w].trans == s.target ==> s.writers[w].st != Blocked
  {
    RunKeepsInv(c, steps);
  }

  // ----- After the error -----

  /** The error stays, and the running transaction is the aborted one or none. */
  lemma StepKeepsError(c: Config, s: State, a: Step)
    requires Inv(c, s) && s.fsError && Fire(c, s, a).Some?
    ensures var s' := Fire(c, s, a).value; s'.fsError && (s'.running == 0 || s'.running == s.running)
  {
  }

  /** From the error on no other transaction ever runs. */
  lemma {:induction false} ErrorIsFinal(c: Config, x: seq<Step>, y: seq<Step>)
    requires After(Fire, c, Init(c), x).Some? && After(Fire, c, Init(c), x).value.fsError
    requires After(Fire, c, Init(c), x + y).Some?
    ensures var s, s' := After(Fire, c, Init(c), x).value, After(Fire, c, Init(c), x + y).value;
            s'.fsError && (s'.running == 0 || s'.running == s.running)
    decreases |y|
  {
    if y == [] {
      assert x + y == x;
    } else {
      var shorter, a := y[..|y| - 1], y[|y| - 1];
      assert (x + y)[..|x + y| - 1] == x + shorter;
      ErrorIsFinal(c, x, shorter);
      RunKeepsInv(c, x + shorter);
      StepKeepsError(c, After(Fire, c, Init(c), x + shorter).value, a);
    }
  }

  /** w is inside a transaction that was aborted and has not learned of it as a success. */
  ghost predicate WillReportError(s: State, w: int) {
    && w in s.writers && s.writers[w].trans in s.slots && s.slots[s.writers[w].trans].aborted
    && s.writers[w].st != Done && s.writers[w].st != Idle
  }

  lemma WriterReportsAbort(c: Config, s: State, w: int, a: Step)
    requires Inv(c, s) && WillReportError(s, w) && IsWriterStep(a) && FireWriter(c, s, a).Some?
    ensures var s' := FireWriter(c, s, a).value;
            WillReportError(s', w) || (s.writers[w].st == Error && a == WriterLeave(w))
  {
    hide RefcountsExact, WalkOk, PointersLive;
  }

  lemma AborterReportsAbort(c: Config, s: State, w: int, a: Step)
    requires Inv(c, s) && WillReportError(s, w) &&
             (a.AbortStep1? || a.AbortWalkList? || a.AbortRemoveTrans? || a.AbortReset?)
    requires FireAborter(c, s, a).Some?
    ensures WillReportError(FireAborter(c, s, a).value, w)
  {
    hide RefcountsExact, PointersLive;
  }

  lemma CommitReportsAbort(c: Config, s: State, w: int, a: Step)
    requires Inv(c, s) && WillReportError(s, w)
    requires (a.CreateTrans? || a.FreeTrans? || a.CommitAdvance? || a.CommitComplete?) && FireCommit(c, s, a).Some?
    ensures WillReportError(FireCommit(c, s, a).value, w)
  {
    Referenced(c, s, s.writers[w].trans);
    hide RefcountsExact, WalkOk;
  }

  lemma StepReportsAbort(c: Config, s: State, w: int, a: Step)
    requires Inv(c, s) && WillReportError(s, w) && Fire(c, s, a).Some?
    ensures var s' := Fire(c, s, a).value;
            WillReportError(s', w) || (s.writers[w].st == Error && a == WriterLeave(w))
  {
    hide Inv, WillReportError, FireWriter, FireAborter, FireCommit;
    if IsWriterStep(a) {
      WriterReportsAbort(c, s, w, a);
    } else if a.CreateTrans? || a.FreeTrans? || a.CommitAdvance? || a.CommitComplete? {
      CommitReportsAbort(c, s, w, a);
    } else {
      AborterReportsAbort(c, s, w, a);
    }
  }

  /** As long as w does not leave, it never turns into a success. */
  lemma {:induction false} AbortLasts(c: Config, x: seq<Step>, y: seq<Step>, w: int)
    requires After(Fire, c, Init(c), x).Some? && WillReportError(After(Fire, c, Init(c), x).value, w)
    requires After(Fire, c, Init(c), x + y).Some? && forall i :: 0 <= i < |y| ==> y[i] != WriterLeave(w)
    ensures WillReportError(After(Fire, c, Init(c), x + y).value, w)
    decreases |y|
  {
    if y == [] {
      assert x + y == x;
    } else {
      hide Fire, WillReportError, Inv, After;
      var shorter, a := y[..|y| - 1], y[|y| - 1];
      AfterLast(Fire, c, Init(c), x, y);
      AbortLasts(c, x, shorter, w);
      RunKeepsInv(c, x + shorter);
      StepReportsAbort(c, After(Fire, c, Init(c), x + shorter).value, w, a);
    }
  }

  lemma LeavesWithError(c: Config, s: State, w: int)
    requires WillReportError(s, w) && Fire(c, s, WriterLeave(w)).Some?
    ensures s.writers[w].st == Error
  {
  }

  /** A writer inside an aborted transaction comes out with an error: whatever happens
      until it leaves, it leaves from the error state. */
  lemma AbortIsReported(c: Config, x: seq<Step>, y: seq<Step>, w: int, s: State)
    requires After(Fire, c, Init(c), x).Some? && WillReportError(After(Fire, c, Init(c), x).value, w)
    requires After(Fire, c, Init(c), x + y) == Some(s) && forall i :: 0 <= i < |y| ==> y[i] != WriterLeave(w)
    requires Fire(c, s, WriterLeave(w)).Some?
    ensures w in s.writers && s.writers[w].st == Error
  {
    hide Fire;
    AbortLasts(c, x, y, w);
    LeavesWithError(c, s, w);
  }

  // ----- No sleeper is stuck -----

  predicate CanWake(c: Config, s: State, w: int) { Fire(c, s, CommitWakeup(w)).Some? }

  ghost predicate WithoutHelpOf(w: int, steps: seq<Step>) {
    forall a :: a in steps ==> IsWriterStep(a) ==> a.w != w
  }

  lemma DropTheLock(c: Config, s: State, w: int) returns (steps: seq<Step>)
    requires Inv(c, s) && w in s.writers && s.writers[w].st == Blocked
    ensures After(Fire, c, s, steps).Some? && WithoutHelpOf(w, steps)
    ensures var s' := After(Fire, c, s, steps).value;
            Inv(c, s') && s' == s.(transLock := false, writers := s'.writers)
            && w in s'.writers && s'.writers[w] == s.writers[w]
  {
    steps := [];
    if s.transLock {
      var u := CountWitness(s.writers, IsJoining);
      steps := [WriterDropLock(u)];
      AfterOne(Fire, c, s, WriterDropLock(u));
      WriterKeepsInv(c, s, WriterDropLock(u));
    }
  }

  /** The commit moves on under a sleeping writer. */
  lemma AdvanceUnderSleeper(c: Config, s: State, w: int)
    requires Inv(c, s) && w in s.writers && s.writers[w].st == Blocked && !s.transLock
    requires s.writers[w].trans in s.slots
    requires var x := s.slots[s.writers[w].trans].state; x == CommitStart || x == CommitDoing
    ensures Fire(c, s, CommitAdvance).Some?
    ensures var s' := Fire(c, s, CommitAdvance).value; var t := s.writers[w].trans;
            s' == WithSlot(s, t, s.slots[t].(state := Next(s.slots[t].state))) && Inv(c, s')
  {
    CommitKeepsInv(c, s, CommitAdvance);
  }

  lemma CommitUnderSleeper(c: Config, s: State, w: int) returns (steps: seq<Step>)
    requires Inv(c, s) && w in s.writers && s.writers[w].st == Blocked && !s.transLock
    requires s.writers[w].trans in s.slots
    requires var x := s.slots[s.writers[w].trans].state; x == CommitStart || x == CommitDoing || Released(x)
    ensures After(Fire, c, s, steps).Some? && WithoutHelpOf(w, steps)
    ensures CanWake(c, After(Fire, c, s, steps).value, w)
    decreases match s.slots[s.writers[w].trans].state case CommitStart => 2 case CommitDoing => 1 case _ => 0
  {
    steps := [];
    if !Released(s.slots[s.writers[w].trans].state) {
      AdvanceUnderSleeper(c, s, w);
      var s' := Fire(c, s, CommitAdvance).value;
      var rest := CommitUnderSleeper(c, s', w);
      AfterOne(Fire, c, s, CommitAdvance);
      AfterConcat(Fire, c, s, [CommitAdvance], rest);
      steps := [CommitAdvance] + rest;
    }
  }

  /** A writer sleeps only on a transaction that will still move, or has released it. */
  predicate SleeperOk(s: State, x: Writer) {
    x.st == Blocked ==>
      x.trans in s.slots &&
      (var y := s.slots[x.trans].state; y == CommitStart || y == CommitDoing || Released(y))
  }

  ghost predicate SleepersOk(c: Config, s: State) {
    Inv(c, s) && forall w :: w in s.writers ==> SleeperOk(s, s.writers[w])
  }

  lemma WriterKeepsSleeper(c: Config, s: State, a: Step, w: int)
    requires Inv(c, s) && IsWriterStep(a) && FireWriter(c, s, a).Some? && w in s.writers && SleeperOk(s, s.writers[w])
    ensures var s' := FireWriter(c, s, a).value; w in s'.writers && SleeperOk(s', s'.writers[w])
  {
    hide RefcountsExact, PointersLive, StatesOk, WalkOk;
    WriterStepFrame(c, s, a);
  }

  lemma StepKeepsSleeper(c: Config, s: State, a: Step, w: int)
    requires Inv(c, s) && Fire(c, s, a).Some? && w in s.writers && SleeperOk(s, s.writers[w])
    ensures var s' := Fire(c, s, a).value; w in s'.writers && SleeperOk(s', s'.writers[w])
  {
    if IsWriterStep(a) {
      WriterKeepsSleeper(c, s, a, w);
    } else {
      if s.writers[w].trans in s.slots {
        Referenced(c, s, s.writers[w].trans);
      }
      hide RefcountsExact, FireWriter;
    }
  }

  lemma StepKeepsSleepers(c: Config)
    ensures Inductive(Fire, SleepersOk, c)
  {
    StepKeepsInv(c);
    forall s, a | SleepersOk(c, s) && Fire(c, s, a).Some?
      ensures SleepersOk(c, Fire(c, s, a).value)
    {
      var s' := Fire(c, s, a).value;
      assert Inv(c, s');
      forall w | w in s'.writers
        ensures SleeperOk(s', s'.writers[w])
      {
        assert w in s.writers by { assert 1 <= w <= c.numWriters; }
        StepKeepsSleeper(c, s, a, w);
      }
    }
  }

  /** No blocked writer is stuck: from every reachable state the steps of others alone
      bring its transaction to where the commit can wake it, with or without an abort. */
  lemma SleeperCanBeWoken(c: Config, run: seq<Step>, w: int)
    requires After(Fire, c, Init(c), run).Some?
    requires var s := After(Fire, c, Init(c), run).value; w in s.writers && s.writers[w].st == Blocked
    ensures var s := After(Fire, c, Init(c), run).value;
            exists steps :: After(Fire, c, s, steps).Some? && WithoutHelpOf(w, steps)
                            && CanWake(c, After(Fire, c, s, steps).value, w)
  {
    InitInv(c);
    StepKeepsSleepers(c);
    RunKeeps(Fire, SleepersOk, c, Init(c), run);
    var s := After(Fire, c, Init(c), run).value;
    var unlock := DropTheLock(c, s, w);
    var rest := CommitUnderSleeper(c, After(Fire, c, s, unlock).value, w);
    AfterConcat(Fire, c, s, unlock, rest);
    assert WithoutHelpOf(w, unlock + rest);
  }
}
