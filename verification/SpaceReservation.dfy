/** Ticketed space reservation: writers that find too little free space block, and a
    flusher reclaims space in a bounded number of rounds and grants their tickets.
    Any number of writers. */
module SpaceReservation {
  import opened Options
  import opened Counting
  import opened Runs

  datatype Config = Config(totalSpace: nat, numWriters: nat, maxFlushRounds: nat)

  datatype WriterState = Idle | Requesting | Blocked | Granted | Done

  datatype Writer = Writer(st: WriterState, request: int)

  datatype FlusherState = FlusherIdle | Flushing | WakingTickets | FlusherDone

  datatype State = State(free: int, reserved: int, rounds: nat, writers: seq<Writer>, flusher: FlusherState)

  datatype Step =
    | WriterRequest(w: nat, bytes: int) | WriterTryGrant(w: nat) | WriterRelease(w: nat)
    | WriterReset(w: nat) | WriterCancel(w: nat)
    | FlusherStart | FlusherReclaim | FlusherWakeTickets(ticket: nat) | FlusherRest

  function Init(c: Config): State {
    State(c.totalSpace, 0, 0, seq(c.numWriters, _ => Writer(Idle, 0)), FlusherIdle)
  }

  predicate IsFlusherStep(a: Step) { a.FlusherStart? || a.FlusherReclaim? || a.FlusherWakeTickets? || a.FlusherRest? }

  /** The ticket is granted if there is room; otherwise the writer is left as `short`. */
  function TryGrant(s: State, w: nat, short: WriterState): State
    requires w < |s.writers|
  {
    var bytes := s.writers[w].request;
    if s.free >= bytes
    then s.(free := s.free - bytes, reserved := s.reserved + bytes, writers := s.writers[w := Writer(Granted, bytes)])
    else s.(writers := s.writers[w := Writer(short, bytes)])
  }

  function FireWriter(c: Config, s: State, a: Step): Option<State>
    requires !IsFlusherStep(a)
  {
    if a.w >= |s.writers| then None
    else
      var w, x := a.w, s.writers[a.w];
      match a
      case WriterRequest(_, bytes) =>
        if x.st == Idle && 1 <= bytes <= c.totalSpace
        then Some(s.(writers := s.writers[w := Writer(Requesting, bytes)])) else None
      case WriterTryGrant(_) => if x.st == Requesting then Some(TryGrant(s, w, Blocked)) else None
      case WriterRelease(_) =>
        if x.st == Granted
        then Some(s.(reserved := s.reserved - x.request, free := s.free + x.request,
                     writers := s.writers[w := x.(st := Done)]))
        else None
      case WriterReset(_) => if x.st == Done then Some(s.(writers := s.writers[w := Writer(Idle, 0)])) else None
      case WriterCancel(_) =>
        if x.st == Blocked && s.rounds >= c.maxFlushRounds
        then Some(s.(writers := s.writers[w := x.(st := Done)])) else None
  }

  function FireFlusher(c: Config, s: State, a: Step): Option<State>
    requires IsFlusherStep(a)
  {
    match a
    case FlusherStart =>
      if s.flusher == FlusherIdle && (exists w :: 0 <= w < |s.writers| && s.writers[w].st == Blocked)
         && s.rounds < c.maxFlushRounds
      then Some(s.(flusher := Flushing)) else None
    case FlusherReclaim =>
      if s.flusher == Flushing
      then Some(s.(free := s.free + 1, rounds := s.rounds + 1, flusher := WakingTickets)) else None
    case FlusherWakeTickets(w) =>
      if s.flusher == WakingTickets && w < |s.writers| && s.writers[w].st == Blocked
      then Some(TryGrant(s, w, Blocked).(flusher := FlusherDone)) else None
    case FlusherRest => if s.flusher == FlusherDone then Some(s.(flusher := FlusherIdle)) else None
  }

  function Fire(c: Config, s: State, a: Step): Option<State> {
    if IsFlusherStep(a) then FireFlusher(c, s, a) else FireWriter(c, s, a)
  }

  // ----- Conservation -----

  function Holding(x: Writer): int { if x.st == Granted then x.request else 0 }

  predicate WriterOk(c: Config, x: Writer) {
    && 0 <= x.request <= c.totalSpace
    && (x.st == Requesting || x.st == Blocked || x.st == Granted ==> x.request >= 1)
  }

  /** No byte is lost or made up: what is free or reserved is the initial space and one
      byte for each flush round, and what is reserved is what the granted tickets hold. */
  ghost predicate Inv(c: Config, s: State) {
    && |s.writers| == c.numWriters
    && s.free + s.reserved == c.totalSpace + s.rounds
    && s.reserved == Sum(s.writers, Holding)
    && s.free >= 0 && s.rounds <= c.maxFlushRounds
    && (s.flusher == Flushing ==> s.rounds < c.maxFlushRounds)
    && forall w :: 0 <= w < |s.writers| ==> WriterOk(c, s.writers[w])
  }

  lemma InitInv(c: Config)
    ensures Inv(c, Init(c))
  {
    SumZero(Init(c).writers, Holding);
  }

  lemma ReservedCovers(c: Config, s: State, w: nat)
    requires Inv(c, s) && w < |s.writers|
    ensures 0 <= Holding(s.writers[w]) <= s.reserved
  {
    forall k | 0 <= k < |s.writers|
      ensures Holding(s.writers[k]) >= 0
    {
      assert WriterOk(c, s.writers[k]);
    }
    SumLeast(s.writers, Holding);
  }

  lemma WriterKeepsInv(c: Config, s: State, a: Step)
    requires Inv(c, s) && !IsFlusherStep(a) && FireWriter(c, s, a).Some?
    ensures Inv(c, FireWriter(c, s, a).value)
  {
    var s', w := FireWriter(c, s, a).value, a.w;
    assert WriterOk(c, s.writers[w]);
    SumUpdate(s.writers, w, s'.writers[w], Holding);
    assert s'.writers == s.writers[w := s'.writers[w]];
  }

  lemma FlusherKeepsInv(c: Config, s: State, a: Step)
    requires Inv(c, s) && IsFlusherStep(a) && FireFlusher(c, s, a).Some?
    ensures Inv(c, FireFlusher(c, s, a).value)
  {
    if a.FlusherWakeTickets? {
      var s', w := FireFlusher(c, s, a).value, a.ticket;
      assert WriterOk(c, s.writers[w]);
      SumUpdate(s.writers, w, s'.writers[w], Holding);
      assert s'.writers == s.writers[w := s'.writers[w]];
    }
  }

  lemma StepKeepsInv(c: Config)
    ensures Inductive(Fire, Inv, c)
  {
    forall s, a | Inv(c, s) && Fire(c, s, a).Some?
      ensures Inv(c, Fire(c, s, a).value)
    {
      hide Inv, FireWriter, FireFlusher;
      if IsFlusherStep(a) {
        FlusherKeepsInv(c, s, a);
      } else {
        WriterKeepsInv(c, s, a);
      }
    }
  }

  lemma SpaceIsConserved(c: Config, steps: seq<Step>)
    requires After(Fire, c, Init(c), steps).Some?
    ensures var s := After(Fire, c, Init(c), steps).value;
            Inv(c, s) && forall w :: 0 <= w < |s.writers| ==> Holding(s.writers[w]) <= s.reserved
  {
    InitInv(c);
    StepKeepsInv(c);
    RunKeeps(Fire, Inv, c, Init(c), steps);
    var s := After(Fire, c, Init(c), steps).value;
    forall w | 0 <= w < |s.writers|
      ensures Holding(s.writers[w]) <= s.reserved
    {
      ReservedCovers(c, s, w);
    }
  }

  // ----- Bounded flushing -----

  /** How many steps the flusher has left. */
  function FlusherBudget(c: Config, s: State): int {
    4 * (c.maxFlushRounds - s.rounds)
    + match s.flusher
      case FlusherIdle => 1
      case Flushing => 0
      case WakingTickets => 3
      case FlusherDone => 2
  }

  function FlusherSteps(steps: seq<Step>): nat {
    if steps == [] then 0 else FlusherSteps(steps[..|steps| - 1]) + Bit(IsFlusherStep(steps[|steps| - 1]))
  }

  /** Every step of the flusher spends one unit of the budget, and nobody else's does. */
  lemma {:induction false} BudgetIsSpent(c: Config, steps: seq<Step>)
    requires After(Fire, c, Init(c), steps).Some?
    ensures FlusherSteps(steps) + FlusherBudget(c, After(Fire, c, Init(c), steps).value) == 4 * c.maxFlushRounds + 1
    ensures FlusherSteps(steps) <= 4 * c.maxFlushRounds + 1
    decreases |steps|
  {
    SpaceIsConserved(c, steps);
    if steps != [] {
      BudgetIsSpent(c, steps[..|steps| - 1]);
    }
  }

  /** While a ticket is blocked, the flusher can step until its rounds are used up, and
      from then on the ticket can be cancelled. */
  lemma BlockedIsServed(c: Config, s: State, w: nat) returns (a: Step)
    requires Inv(c, s) && w < |s.writers| && s.writers[w].st == Blocked
    ensures Fire(c, s, a).Some?
    ensures if s.rounds < c.maxFlushRounds
            then IsFlusherStep(a) && (a.FlusherWakeTickets? ==> a.ticket == w)
            else a == WriterCancel(w)
  {
    a := if s.rounds >= c.maxFlushRounds then WriterCancel(w)
         else match s.flusher
           case FlusherIdle => FlusherStart
           case Flushing => FlusherReclaim
           case WakingTickets => FlusherWakeTickets(w)
           case FlusherDone => FlusherRest;
  }

  ghost predicate Serves(w: nat, steps: seq<Step>, bound: int) {
    |steps| <= bound && forall a :: a in steps ==> IsFlusherStep(a) || a == WriterCancel(w)
  }

  predicate Served(s: State, w: nat) {
    w < |s.writers| && (s.writers[w].st == Granted || s.writers[w].st == Done)
  }

  lemma ServeFrom(c: Config, s: State, w: nat) returns (steps: seq<Step>)
    requires Inv(c, s) && w < |s.writers| && s.writers[w].st == Blocked
    ensures After(Fire, c, s, steps).Some? && Served(After(Fire, c, s, steps).value, w)
    ensures Serves(w, steps, FlusherBudget(c, s) + 1)
    decreases FlusherBudget(c, s) + Bit(s.writers[w].st == Blocked)
  {
    var a := BlockedIsServed(c, s, w);
    var s' := Fire(c, s, a).value;
    StepKeepsInv(c);
    AfterOne(Fire, c, s, a);
    steps := [a];
    if s'.writers[w].st == Blocked {
      var rest := ServeFrom(c, s', w);
      AfterConcat(Fire, c, s, [a], rest);
      steps := [a] + rest;
    }
  }

  /** No ticket is stuck: from every reachable state the flusher alone, in at most as
      many steps as its budget, leads to the grant of the ticket or to its cancellation. */
  lemma NoTicketIsStuck(c: Config, run: seq<Step>, w: nat) returns (steps: seq<Step>)
    requires After(Fire, c, Init(c), run).Some?
    requires var s := After(Fire, c, Init(c), run).value; w < |s.writers| && s.writers[w].st == Blocked
    ensures var s := After(Fire, c, Init(c), run).value;
            && After(Fire, c, s, steps).Some? && Serves(w, steps, FlusherBudget(c, s) + 1)
            && Served(After(Fire, c, s, steps).value, w)
  {
    SpaceIsConserved(c, run);
    steps := ServeFrom(c, After(Fire, c, Init(c), run).value, w);
  }
}
