/** Delayed reference updates: adders queue changes to an extent's count, a runner
    applies them to the disk, a dropper throws away heads nobody uses. Any number of
    extents and adders. */
module DelayedRefs {
  import opened Options
  import opened Counting
  import opened Sets
  import opened Runs

  datatype Config = Config(numExtents: nat, numAdders: nat, maxOps: nat)

  datatype Extent = Extent(disk: int, pending: int, live: bool, headRefs: int)

  datatype RunnerState = RunnerIdle | HavePtr | RunnerDone
  datatype DropperState = DropperIdle | Dropping | DropperDone
  datatype AdderState = AdderIdle | Adding | AdderDone

  datatype Adder = Adder(st: AdderState, extent: int, delta: int)

  datatype State = State(
    extents: map<int, Extent>, runner: RunnerState, target: int, dropper: DropperState,
    adders: map<int, Adder>, ops: nat)

  datatype Step =
    | AdderStart(a: int, e: int, d: int) | AdderCommit(a: int) | AdderReset(a: int)
    | RunnerReadHead(e: int) | RunnerApplyHead | RunnerRest
    | DropperStart | DropperFreeHead(e: int) | DropperFinish | DropperReset

  function Init(c: Config): State {
    State(map e | e in UpTo(c.numExtents) :: Extent(1, 0, false, 0), RunnerIdle, 0, DropperIdle,
          map a | a in UpTo(c.numAdders) :: Adder(AdderIdle, 0, 0), 0)
  }

  predicate Unused(x: Extent) { x.live && x.headRefs == 0 }

  function FireAdder(c: Config, s: State, a: Step): Option<State>
    requires a.AdderStart? || a.AdderCommit? || a.AdderReset?
  {
    if a.a !in s.adders then None
    else
      var x := s.adders[a.a];
      match a
      case AdderStart(_, e, d) =>
        if x.st == AdderIdle && s.dropper == DropperIdle && s.ops < c.maxOps && e in s.extents && (d == -1 || d == 1)
           && s.extents[e].disk + s.extents[e].pending + d >= 0
        then Some(s.(adders := s.adders[a.a := Adder(Adding, e, d)])) else None
      case AdderCommit(_) =>
        if x.st == Adding && x.extent in s.extents
           && s.extents[x.extent].disk + s.extents[x.extent].pending + x.delta >= 0 then
          var h := s.extents[x.extent];
          Some(s.(extents := s.extents[x.extent := h.(pending := h.pending + x.delta, live := true)],
                  adders := s.adders[a.a := x.(st := AdderDone)], ops := s.ops + 1))
        else None
      case AdderReset(_) =>
        if x.st == AdderDone then Some(s.(adders := s.adders[a.a := Adder(AdderIdle, 0, 0)])) else None
  }

  function FireOther(c: Config, s: State, a: Step): Option<State>
    requires !a.AdderStart? && !a.AdderCommit? && !a.AdderReset?
  {
    match a
    case RunnerReadHead(e) =>
      if s.runner == RunnerIdle && s.dropper == DropperIdle && e in s.extents
         && s.extents[e].live && s.extents[e].pending != 0
      then Some(s.(extents := s.extents[e := s.extents[e].(headRefs := s.extents[e].headRefs + 1)],
                   runner := HavePtr, target := e))
      else None
    case RunnerApplyHead =>
      if s.runner == HavePtr && s.target in s.extents then
        var h := s.extents[s.target];
        Some(s.(extents := s.extents[s.target := Extent(h.disk + h.pending, 0, false, h.headRefs - 1)],
                runner := RunnerDone, target := 0))
      else None
    case RunnerRest => if s.runner == RunnerDone then Some(s.(runner := RunnerIdle)) else None
    case DropperStart => if s.dropper == DropperIdle then Some(s.(dropper := Dropping)) else None
    case DropperFreeHead(e) =>
      if s.dropper == Dropping && e in s.extents && Unused(s.extents[e])
      then Some(s.(extents := s.extents[e := s.extents[e].(live := false, pending := 0)])) else None
    case DropperFinish =>
      if s.dropper == Dropping && forall e :: e in s.extents ==> !Unused(s.extents[e])
      then Some(s.(dropper := DropperDone)) else None
    case DropperReset => if s.dropper == DropperDone then Some(s.(dropper := DropperIdle)) else None
  }

  function Fire(c: Config, s: State, a: Step): Option<State> {
    if a.AdderStart? || a.AdderCommit? || a.AdderReset? then FireAdder(c, s, a) else FireOther(c, s, a)
  }

  // ----- What every reachable state keeps -----

  /** The count never goes negative, on disk or with what is pending; a dead head has
      nothing pending; a head's references are the runner's pointer. */
  ghost predicate ExtentOk(s: State, e: int)
    requires e in s.extents
  {
    var x := s.extents[e];
    && x.disk >= 0 && x.disk + x.pending >= 0
    && (!x.live ==> x.pending == 0)
    && x.headRefs == Bit(s.runner == HavePtr && s.target == e)
  }

  /** The runner's head is alive, so both of its checks succeed. */
  ghost predicate RunnerOk(s: State) {
    s.runner == HavePtr ==>
      s.target in s.extents && s.extents[s.target].live
      && s.extents[s.target].disk + s.extents[s.target].pending >= 0
  }

  ghost predicate Inv(c: Config, s: State) {
    (forall e :: e in s.extents ==> ExtentOk(s, e)) && RunnerOk(s)
  }

  lemma StepKeepsInv(c: Config)
    ensures Inductive(Fire, Inv, c)
  {
    forall s, a | Inv(c, s) && Fire(c, s, a).Some?
      ensures Inv(c, Fire(c, s, a).value)
    {
      if s.runner == HavePtr {
        assert ExtentOk(s, s.target);
      }
      forall e | e in s.extents
        ensures ExtentOk(Fire(c, s, a).value, e)
      {
        assert ExtentOk(s, e);
      }
    }
  }

  /** Safety over every run, whatever the interleaving. */
  lemma {:induction false} HeadsAreSafe(c: Config, steps: seq<Step>)
    requires After(Fire, c, Init(c), steps).Some?
    ensures Inv(c, After(Fire, c, Init(c), steps).value)
  {
    StepKeepsInv(c);
    RunKeeps(Fire, Inv, c, Init(c), steps);
  }

  // ----- The ledger -----

  /** What the step commits to extent e. */
  function CommittedBy(s: Option<State>, a: Step, e: int): int {
    if s.Some? && a.AdderCommit? && a.a in s.value.adders && s.value.adders[a.a].extent == e
    then s.value.adders[a.a].delta else 0
  }

  /** What the step throws away of extent e. */
  function DroppedBy(s: Option<State>, a: Step, e: int): int {
    if s.Some? && a == DropperFreeHead(e) && e in s.value.extents then s.value.extents[e].pending else 0
  }

  function Committed(c: Config, steps: seq<Step>, e: int): int
    decreases |steps|
  {
    if steps == [] then 0
    else
      var shorter := steps[..|steps| - 1];
      Committed(c, shorter, e) + CommittedBy(After(Fire, c, Init(c), shorter), steps[|steps| - 1], e)
  }

  function Dropped(c: Config, steps: seq<Step>, e: int): int
    decreases |steps|
  {
    if steps == [] then 0
    else
      var shorter := steps[..|steps| - 1];
      Dropped(c, shorter, e) + DroppedBy(After(Fire, c, Init(c), shorter), steps[|steps| - 1], e)
  }

  lemma StepBalances(c: Config, s: State, a: Step, e: int)
    requires Fire(c, s, a).Some? && e in s.extents
    ensures e in Fire(c, s, a).value.extents
    ensures var x, x' := s.extents[e], Fire(c, s, a).value.extents[e];
            x'.disk + x'.pending + DroppedBy(Some(s), a, e) == x.disk + x.pending + CommittedBy(Some(s), a, e)
  {
  }

  /** Every committed change is on disk, pending, or was dropped; nothing else is. */
  lemma {:induction false} LedgerBalances(c: Config, steps: seq<Step>, e: int)
    requires After(Fire, c, Init(c), steps).Some? && 1 <= e <= c.numExtents
    ensures var s := After(Fire, c, Init(c), steps).value;
            e in s.extents
            && s.extents[e].disk + s.extents[e].pending + Dropped(c, steps, e) == 1 + Committed(c, steps, e)
    decreases |steps|
  {
    if steps != [] {
      var shorter := steps[..|steps| - 1];
      LedgerBalances(c, shorter, e);
      StepBalances(c, After(Fire, c, Init(c), shorter).value, steps[|steps| - 1], e);
    }
  }
}
