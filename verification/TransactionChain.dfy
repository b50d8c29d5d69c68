/** Two chained transactions: the second is created when the first reaches UNBLOCKED,
    and the writers blocked on the first are handed over to it. Any number of writers. */
module TransactionChain {
  import opened Options
  import opened Counting
  import opened Runs

  /** The bound on how many joins are attempted. */
  datatype Config = Config(numWriters: nat, maxOps: nat)

  datatype TransState =
    | NoTrans | Running | CommitPrep | CommitStart | CommitDoing
    | Unblocked | SuperCommitted | Completed | Aborted

  datatype Trans = Trans(state: TransState, refcount: int, created: bool)

  datatype WriterState = Idle | TryJoin | Active | Blocked | Done

  /** `trans` is 1 or 2, or 0 for none. */
  datatype Writer = Writer(st: WriterState, trans: int)

  datatype CommitterState = CommitterIdle | Committing | CommitterDone

  datatype State = State(
    first: Trans, second: Trans, writers: seq<Writer>,
    committer: CommitterState, committing: int, ops: nat)

  datatype Step =
    | WriterTryJoin(w: nat) | WriterJoinSuccess(w: nat) | WriterBlocked(w: nat) | WriterWoken(w: nat)
    | WriterDone(w: nat) | WriterReset(w: nat) | WriterBailOut(w: nat)
    | CommitterStart | CommitterAdvance | CommitterComplete | CommitterReset

  predicate Terminal(x: TransState) { x == Completed || x == Aborted }

  function Get(s: State, t: int): Trans { if t == 2 then s.second else s.first }

  function Put(s: State, t: int, x: Trans): State { if t == 2 then s.(second := x) else s.(first := x) }

  /** The transaction's reference count changes by d. */
  function Count(s: State, t: int, d: int): State {
    Put(s, t, Get(s, t).(refcount := Get(s, t).refcount + d))
  }

  function Init(c: Config): State {
    State(Trans(Running, 0, true), Trans(NoTrans, 0, false),
          seq(c.numWriters, _ => Writer(Idle, 0)), CommitterIdle, 0, 0)
  }

  /** The transaction writers should join. */
  function CurrentTrans(s: State): int {
    if s.second.created && !Terminal(s.second.state) then 2 else 1
  }

  predicate IsCommitterStep(a: Step) {
    a.CommitterStart? || a.CommitterAdvance? || a.CommitterComplete? || a.CommitterReset?
  }

  function FireWriter(c: Config, s: State, a: Step): Option<State>
    requires !IsCommitterStep(a)
  {
    if a.w >= |s.writers| then None
    else
      var w, t := a.w, s.writers[a.w].trans;
      match (a, s.writers[w].st)
      case (WriterTryJoin(_), Idle) =>
        var cur := CurrentTrans(s);
        if s.ops < c.maxOps && Get(s, cur).created && !Terminal(Get(s, cur).state)
        then Some(s.(writers := s.writers[w := Writer(TryJoin, cur)], ops := s.ops + 1))
        else None
      case (WriterJoinSuccess(_), TryJoin) =>
        if Get(s, t).created && Get(s, t).state in {Running, CommitPrep, CommitStart}
        then Some(Count(s, t, 1).(writers := s.writers[w := Writer(Active, t)]))
        else None
      case (WriterBlocked(_), TryJoin) =>
        if Get(s, t).created && Get(s, t).state in {CommitDoing, Unblocked, SuperCommitted}
        then Some(Count(s, t, 1).(writers := s.writers[w := Writer(Blocked, t)]))
        else None
      case (WriterWoken(_), Blocked) =>
        if Get(s, t).created && Get(s, t).state in {Unblocked, SuperCommitted, Completed} then
          var next := if t == 1 && s.second.created then 2 else t;
          Some(Count(s, t, -1).(writers := s.writers[w := Writer(if next == t then Idle else TryJoin, next)]))
        else None
      case (WriterDone(_), Active) => Some(Count(s, t, -1).(writers := s.writers[w := Writer(Done, t)]))
      case (WriterReset(_), Done) => Some(s.(writers := s.writers[w := Writer(Idle, 0)]))
      case (WriterBailOut(_), TryJoin) =>
        if Terminal(Get(s, t).state) then Some(s.(writers := s.writers[w := Writer(Idle, 0)])) else None
      case _ => None
  }

  /** The state after this one in the commit sequence. */
  function NextState(x: TransState): Option<TransState> {
    match x
    case Running => Some(CommitPrep)
    case CommitPrep => Some(CommitStart)
    case CommitStart => Some(CommitDoing)
    case CommitDoing => Some(Unblocked)
    case Unblocked => Some(SuperCommitted)
    case SuperCommitted => Some(Completed)
    case _ => None
  }

  /** Still interested in transaction t. */
  predicate Engaged(x: Writer, t: int) { x.st in {Active, TryJoin, Blocked} && x.trans == t }

  function FireCommitter(c: Config, s: State, a: Step): Option<State>
    requires IsCommitterStep(a)
  {
    var t := s.committing;
    match a
    case CommitterStart =>
      if s.committer == CommitterIdle && s.first.created && s.first.state == Running
      then Some(s.(committer := Committing, committing := 1, first := s.first.(state := CommitPrep)))
      else None
    case CommitterAdvance =>
      if s.committer == Committing && Get(s, t).state != SuperCommitted && NextState(Get(s, t).state).Some? then
        if Get(s, t).state == CommitDoing && t == 1
        then Some(s.(first := s.first.(state := Unblocked), second := s.second.(state := Running, created := true)))
        else Some(Put(s, t, Get(s, t).(state := NextState(Get(s, t).state).value)))
      else None
    case CommitterComplete =>
      if s.committer == Committing && Get(s, t).state == SuperCommitted && Get(s, t).refcount == 0
         && forall w :: 0 <= w < |s.writers| ==> !Engaged(s.writers[w], t) then
        var chain := t == 1 && s.second.created;
        Some(Put(s, t, Get(s, t).(state := Completed)).(
             committer := if chain then Committing else CommitterDone, committing := if chain then 2 else 0))
      else None
    case CommitterReset =>
      if s.committer == CommitterDone && !s.second.created
      then Some(s.(committer := CommitterIdle, committing := 0))
      else None
  }

  function Fire(c: Config, s: State, a: Step): Option<State> {
    if IsCommitterStep(a) then FireCommitter(c, s, a) else FireWriter(c, s, a)
  }

  // ----- What every reachable state keeps -----

  predicate Holds(x: Writer, t: int) { (x.st == Active || x.st == Blocked) && x.trans == t }

  function HoldsFirst(x: Writer): int { Bit(Holds(x, 1)) }
  function HoldsSecond(x: Writer): int { Bit(Holds(x, 2)) }

  /** A reference count is the number of writers active or asleep on the transaction. */
  ghost predicate RefcountsExact(s: State) {
    && s.first.refcount == Sum(s.writers, HoldsFirst)
    && s.second.refcount == Sum(s.writers, HoldsSecond)
  }

  predicate InCommit(x: TransState) {
    x == CommitPrep || x == CommitStart || x == CommitDoing || x == Unblocked || x == SuperCommitted
  }

  /** Where the committer is says where both transactions are. */
  predicate Chained(s: State) {
    && s.first.created
    && (s.second.created <==> s.first.state in {Unblocked, SuperCommitted, Completed})
    && (!s.second.created ==> s.second.state == NoTrans)
    && match s.committer
       case CommitterIdle => s.first.state == Running
       case CommitterDone => s.first.state == Completed && s.second.state == Completed
       case Committing =>
         || (s.committing == 1 && InCommit(s.first.state) && (s.second.created ==> s.second.state == Running))
         || (s.committing == 2 && s.first.state == Completed && (s.second.state == Running || InCommit(s.second.state)))
  }

  /** A writer trying, working or asleep names a transaction that is not finished. */
  predicate WriterOk(s: State, x: Writer) {
    match x.st
    case TryJoin => (x.trans == 1 || x.trans == 2) && Get(s, x.trans).created && !Terminal(Get(s, x.trans).state)
    case Active => (x.trans == 1 || x.trans == 2) && Get(s, x.trans).created && !Terminal(Get(s, x.trans).state)
    case Blocked =>
      (x.trans == 1 || x.trans == 2) && Get(s, x.trans).state in {CommitDoing, Unblocked, SuperCommitted}
    case _ => true
  }

  ghost predicate Inv(c: Config, s: State) {
    && |s.writers| == c.numWriters && s.ops <= c.maxOps
    && RefcountsExact(s) && Chained(s)
    && forall w :: 0 <= w < |s.writers| ==> WriterOk(s, s.writers[w])
  }

  lemma InitInv(c: Config)
    ensures Inv(c, Init(c))
  {
    SumZero(Init(c).writers, HoldsFirst);
    SumZero(Init(c).writers, HoldsSecond);
  }

  lemma WriterKeepsRefcounts(c: Config, s: State, a: Step)
    requires Inv(c, s) && !IsCommitterStep(a) && FireWriter(c, s, a).Some?
    ensures RefcountsExact(FireWriter(c, s, a).value)
  {
    var s' := FireWriter(c, s, a).value;
    assert WriterOk(s, s.writers[a.w]);
    SumUpdate(s.writers, a.w, s'.writers[a.w], HoldsFirst);
    SumUpdate(s.writers, a.w, s'.writers[a.w], HoldsSecond);
  }

  /** A writer's step leaves the states of the transactions and the other writers alone. */
  lemma WriterStepFrame(c: Config, s: State, a: Step)
    requires !IsCommitterStep(a) && FireWriter(c, s, a).Some?
    ensures var s' := FireWriter(c, s, a).value;
            && s'.first == s.first.(refcount := s'.first.refcount)
            && s'.second == s.second.(refcount := s'.second.refcount)
            && a.w < |s.writers| && s'.writers == s.writers[a.w := s'.writers[a.w]]
            && s'.committer == s.committer && s'.committing == s.committing
            && s'.ops == s.ops + Bit(a.WriterTryJoin?)
            && (a.WriterTryJoin? ==> s.ops < c.maxOps)
  {
  }

  lemma WriterStaysOk(c: Config, s: State, a: Step)
    requires Inv(c, s) && !IsCommitterStep(a) && FireWriter(c, s, a).Some?
    ensures WriterOk(s, FireWriter(c, s, a).value.writers[a.w])
  {
    assert WriterOk(s, s.writers[a.w]);
  }

  lemma WriterKeepsInv(c: Config, s: State, a: Step)
    requires Inv(c, s) && !IsCommitterStep(a) && FireWriter(c, s, a).Some?
    ensures Inv(c, FireWriter(c, s, a).value)
  {
    WriterKeepsRefcounts(c, s, a);
    WriterStepFrame(c, s, a);
    WriterStaysOk(c, s, a);
    hide FireWriter;
    var s' := FireWriter(c, s, a).value;
    forall w | 0 <= w < |s'.writers|
      ensures WriterOk(s', s'.writers[w])
    {
      assert w != a.w ==> WriterOk(s, s.writers[w]);
    }
  }

  lemma CommitterKeepsInv(c: Config, s: State, a: Step)
    requires Inv(c, s)
    requires IsCommitterStep(a)
    requires FireCommitter(c, s, a).Some?
    ensures Inv(c, FireCommitter(c, s, a).value)
  {
    var s' := FireCommitter(c, s, a).value;
    forall w | 0 <= w < |s.writers|
      ensures WriterOk(s', s'.writers[w])
    {
      assert WriterOk(s, s.writers[w]);
    }
  }

  lemma StepKeepsInv(c: Config)
    ensures Inductive(Fire, Inv, c)
  {
    forall s, a | Inv(c, s) && Fire(c, s, a).Some?
      ensures Inv(c, Fire(c, s, a).value)
    {
      if IsCommitterStep(a) {
        CommitterKeepsInv(c, s, a);
      } else {
        WriterKeepsInv(c, s, a);
      }
    }
  }

  /** The invariant of all runs from the initial state. */
  lemma RunKeepsInv(c: Config, steps: seq<Step>)
    requires After(Fire, c, Init(c), steps).Some?
    ensures Inv(c, After(Fire, c, Init(c), steps).value)
  {
    InitInv(c);
    StepKeepsInv(c);
    RunKeeps(Fire, Inv, c, Init(c), steps);
  }

  ghost predicate NobodyOn(s: State, t: int) {
    Get(s, t).refcount == 0 && forall w :: 0 <= w < |s.writers| ==> !Engaged(s.writers[w], t)
  }

  /** No finished transaction has a holder, and the second is created no sooner than
      the first is unblocked. */
  lemma NoUseAfterComplete(c: Config, steps: seq<Step>)
    requires After(Fire, c, Init(c), steps).Some?
    ensures var s := After(Fire, c, Init(c), steps).value;
            && s.first.refcount >= 0 && s.second.refcount >= 0
            && (s.first.state == Completed ==> NobodyOn(s, 1)) && (s.second.state == Completed ==> NobodyOn(s, 2))
            && (s.second.created ==> s.first.state in {Unblocked, SuperCommitted, Completed})
            && s.first.state != Aborted && s.second.state != Aborted
  {
    RunKeepsInv(c, steps);
    var s := After(Fire, c, Init(c), steps).value;
    assert forall w :: 0 <= w < |s.writers| ==> WriterOk(s, s.writers[w]);
    SumLeast(s.writers, HoldsFirst);
    SumLeast(s.writers, HoldsSecond);
    if s.first.state == Completed {
      SumZero(s.writers, HoldsFirst);
    }
    if s.second.state == Completed {
      SumZero(s.writers, HoldsSecond);
    }
  }

  /** Two of the actions can never happen: nobody still tries to join a finished
      transaction, and the committer is never done without the second transaction. */
  lemma BailOutAndResetNeverFire(c: Config, steps: seq<Step>, w: nat)
    requires After(Fire, c, Init(c), steps).Some?
    ensures var s := After(Fire, c, Init(c), steps).value;
            Fire(c, s, WriterBailOut(w)).None? && Fire(c, s, CommitterReset).None?
  {
    RunKeepsInv(c, steps);
    var s := After(Fire, c, Init(c), steps).value;
    if w < |s.writers| {
      assert WriterOk(s, s.writers[w]);
    }
  }

  // ----- Forward only -----

  function Rank(x: TransState): nat {
    match x
    case NoTrans => 7
    case Running => 6
    case CommitPrep => 5
    case CommitStart => 4
    case CommitDoing => 3
    case Unblocked => 2
    case SuperCommitted => 1
    case _ => 0
  }

  function FirstProgress(c: Config, s: State): int { 0 - Rank(s.first.state) }
  function SecondProgress(c: Config, s: State): int { 0 - Rank(s.second.state) }

  lemma StepsAdvance(c: Config)
    ensures Rising(Fire, Inv, FirstProgress, c) && Rising(Fire, Inv, SecondProgress, c)
  {
    forall s, a | Inv(c, s) && Fire(c, s, a).Some?
      ensures FirstProgress(c, s) <= FirstProgress(c, Fire(c, s, a).value)
      ensures SecondProgress(c, s) <= SecondProgress(c, Fire(c, s, a).value)
    {
      if !IsCommitterStep(a) {
        WriterStepFrame(c, s, a);
      }
    }
  }

  /** Along every run each transaction only moves forward through the commit sequence. */
  lemma StatesMoveForward(c: Config, x: seq<Step>, y: seq<Step>)
    requires After(Fire, c, Init(c), x + y).Some? && After(Fire, c, Init(c), x).Some?
    ensures var s, s' := After(Fire, c, Init(c), x).value, After(Fire, c, Init(c), x + y).value;
            Rank(s'.first.state) <= Rank(s.first.state) && Rank(s'.second.state) <= Rank(s.second.state)
  {
    RunKeepsInv(c, x);
    StepKeepsInv(c);
    StepsAdvance(c);
    AfterConcat(Fire, c, Init(c), x, y);
    var s := After(Fire, c, Init(c), x).value;
    RunRises(Fire, Inv, FirstProgress, c, s, y);
    RunRises(Fire, Inv, SecondProgress, c, s, y);
  }

  // ----- Termination without fairness -----

  /** How far a writer is from idle. */
  function WriterRank(x: Writer): int {
    match x.st
    case Idle => 0
    case Done => 1
    case Active => 2
    case TryJoin => if x.trans == 2 then 3 else 5
    case Blocked => if x.trans == 2 then 1 else 4
  }

  function Measure(c: Config, s: State): int {
    6 * (c.maxOps - s.ops) + Sum(s.writers, WriterRank) + Rank(s.first.state) + Rank(s.second.state)
  }

  lemma WriterStepFalls(c: Config, s: State, a: Step)
    requires Inv(c, s) && !IsCommitterStep(a) && FireWriter(c, s, a).Some?
    ensures a.w < |s.writers|
    ensures WriterRank(FireWriter(c, s, a).value.writers[a.w]) < WriterRank(s.writers[a.w]) + 6 * Bit(a.WriterTryJoin?)
  {
    assert WriterOk(s, s.writers[a.w]);
  }

  lemma StepsFall(c: Config)
    ensures Falling(Fire, Inv, Measure, c)
  {
    forall s, a | Inv(c, s) && Fire(c, s, a).Some?
      ensures Measure(c, Fire(c, s, a).value) < Measure(c, s)
    {
      if !IsCommitterStep(a) {
        WriterStepFrame(c, s, a);
        WriterStepFalls(c, s, a);
        SumUpdate(s.writers, a.w, FireWriter(c, s, a).value.writers[a.w], WriterRank);
      }
    }
  }

  lemma RankLeast(ws: seq<Writer>)
    ensures Sum(ws, WriterRank) >= 0
  {
    SumLeast(ws, WriterRank);
  }

  /** Every run is finite, whatever the scheduler does: at most 6 steps for each join
      attempt and 13 for the two commits. */
  lemma RunsAreShort(c: Config, steps: seq<Step>)
    requires After(Fire, c, Init(c), steps).Some?
    ensures |steps| <= 6 * c.maxOps + 13
  {
    InitInv(c);
    StepKeepsInv(c);
    StepsFall(c);
    RunFalls(Fire, Inv, Measure, c, Init(c), steps);
    SumZero(Init(c).writers, WriterRank);
    RunKeepsInv(c, steps);
    RankLeast(After(Fire, c, Init(c), steps).value.writers);
  }

  // ----- Progress -----

  predicate Finished(s: State) { s.first.state == Completed && s.second.state == Completed }

  /** An engaged writer always has a step once its transaction is SUPER_COMMITTED. */
  lemma EngagedCanStep(c: Config, s: State, w: nat) returns (a: Step)
    requires Inv(c, s) && w < |s.writers| && Get(s, s.writers[w].trans).state == SuperCommitted
    requires s.writers[w].st in {Active, TryJoin, Blocked}
    ensures Fire(c, s, a).Some?
  {
    assert WriterOk(s, s.writers[w]);
    a := match s.writers[w].st
      case Active => WriterDone(w)
      case TryJoin => WriterBlocked(w)
      case _ => WriterWoken(w);
  }

  /** Until both transactions are completed some step is enabled. */
  lemma NotFinishedCanStep(c: Config, s: State) returns (a: Step)
    requires Inv(c, s) && !Finished(s)
    ensures Fire(c, s, a).Some?
  {
    var t := s.committing;
    if s.committer == CommitterIdle {
      a := CommitterStart;
    } else if Get(s, t).state != SuperCommitted {
      a := CommitterAdvance;
    } else if w :| 0 <= w < |s.writers| && Engaged(s.writers[w], t) {
      a := EngagedCanStep(c, s, w);
    } else {
      if t == 2 { SumZero(s.writers, HoldsSecond); } else { SumZero(s.writers, HoldsFirst); }
      a := CommitterComplete;
    }
  }

  ghost predicate Stopped(c: Config, s: State) { forall a :: Fire(c, s, a).None? }

  lemma StoppedWriterIdle(c: Config, s: State, w: nat)
    requires Inv(c, s) && Stopped(c, s) && w < |s.writers| && Finished(s)
    ensures s.writers[w].st == Idle
  {
    assert WriterOk(s, s.writers[w]);
    assert FireWriter(c, s, WriterDone(w)) == Fire(c, s, WriterDone(w)) == None;
    assert FireWriter(c, s, WriterReset(w)) == Fire(c, s, WriterReset(w)) == None;
  }

  /** A run that cannot go on has completed both transactions, and every writer that
      joined has finished and let go. */
  lemma MaximalRunFinishes(c: Config, steps: seq<Step>)
    requires After(Fire, c, Init(c), steps).Some? && Stopped(c, After(Fire, c, Init(c), steps).value)
    ensures var s := After(Fire, c, Init(c), steps).value;
            && Finished(s) && s.first.refcount == 0 && s.second.refcount == 0
            && forall w :: 0 <= w < |s.writers| ==> s.writers[w].st == Idle
  {
    RunKeepsInv(c, steps);
    var s := After(Fire, c, Init(c), steps).value;
    if !Finished(s) {
      var a := NotFinishedCanStep(c, s);
    }
    forall w | 0 <= w < |s.writers|
      ensures s.writers[w].st == Idle
    {
      StoppedWriterIdle(c, s, w);
    }
    NoUseAfterComplete(c, steps);
  }

  lemma FinishFrom(c: Config, s: State) returns (more: seq<Step>)
    requires Inv(c, s)
    ensures After(Fire, c, s, more).Some? && Finished(After(Fire, c, s, more).value)
    decreases Measure(c, s)
  {
    if Finished(s) {
      more := [];
    } else {
      var a := NotFinishedCanStep(c, s);
      var s' := Fire(c, s, a).value;
      StepKeepsInv(c);
      StepsFall(c);
      RankLeast(s.writers);
      AfterOne(Fire, c, s, a);
      var rest := FinishFrom(c, s');
      AfterConcat(Fire, c, s, [a], rest);
      more := [a] + rest;
    }
  }

  /** Every run can be continued until both transactions are completed. */
  lemma EveryRunCanFinish(c: Config, steps: seq<Step>)
    requires After(Fire, c, Init(c), steps).Some?
    ensures exists more :: After(Fire, c, Init(c), steps + more).Some?
                           && Finished(After(Fire, c, Init(c), steps + more).value)
  {
    RunKeepsInv(c, steps);
    var more := FinishFrom(c, After(Fire, c, Init(c), steps).value);
    AfterConcat(Fire, c, Init(c), steps, more);
  }
}
