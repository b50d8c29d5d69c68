/** The commit as threads really run it: every check is one step, the action it guards
    another, and anything may happen in between. Actions check again; this protocol
    implements the atomic one of module Transaction. */
module TransactionTwoStep {
  import opened Options
  import opened Counting
  import opened Runs
  import T = Transaction

  datatype Status = Idle | Checking | Running | Committing | CommitChecking

  /** `seenState` and `wanted` are what the writer remembers from its check. */
  datatype Writer = Writer(status: Status, jtype: T.JoinType, seenState: int, wanted: T.JoinType)

  /** `seenExtwriters` and `seenWriters` are what the committer remembers from its check. */
  datatype State = State(
    open: bool, state: int, numWriters: int, numExtwriters: int, writers: map<int, Writer>,
    seenExtwriters: int, seenWriters: int, ops: nat)

  datatype Step =
    | WriterCheckJoin(w: int, jtype: T.JoinType) | WriterActJoin(w: int) | WriterRetryJoin(w: int)
    | EndTransaction(w: int) | CommitTransaction(w: int) | CommitPrepToStart(w: int)
    | CommitCheckForDoing(w: int) | CommitActForDoing(w: int) | CommitRetryForDoing(w: int)
    | CommitDoingToUnblocked(w: int) | CommitUnblockedToSuper(w: int) | CommitSuperToCompleted(w: int)

  function Init(c: T.Config): State {
    State(true, T.STATE_RUNNING, 0, 0, map w | w in c.writers :: Writer(Idle, T.NoType, -1, T.NoType), -1, -1, 0)
  }

  predicate IsWriterStep(a: Step) {
    a.WriterCheckJoin? || a.WriterActJoin? || a.WriterRetryJoin? || a.EndTransaction?
  }

  function FireWriter(c: T.Config, s: State, a: Step): Option<State>
    requires IsWriterStep(a) && a.w in s.writers
  {
    var w, x := a.w, s.writers[a.w];
    match a
    case WriterCheckJoin(_, j) =>
      if s.ops < c.maxOps && x.status == Idle && s.open && j != T.NoType
      then Some(s.(writers := s.writers[w := x.(status := Checking, seenState := s.state, wanted := j)],
                   ops := s.ops + 1))
      else None
    case WriterActJoin(_) =>
      if x.status == Checking && s.open && T.MayJoin(x.wanted, s.state)
      then Some(s.(numWriters := s.numWriters + 1, numExtwriters := s.numExtwriters + T.Ext(x.wanted),
                   writers := s.writers[w := Writer(Running, x.wanted, -1, T.NoType)]))
      else None
    case WriterRetryJoin(_) =>
      if x.status == Checking && x.wanted != T.NoType && !T.MayJoin(x.wanted, s.state)
      then Some(s.(writers := s.writers[w := Writer(Idle, x.jtype, -1, T.NoType)])) else None
    case EndTransaction(_) =>
      if x.status == Running
      then Some(s.(numWriters := s.numWriters - 1, numExtwriters := s.numExtwriters - T.Ext(x.jtype),
                   writers := s.writers[w := x.(status := Idle, jtype := T.NoType)]))
      else None
  }

  function FireCommitter(c: T.Config, s: State, a: Step): Option<State>
    requires !IsWriterStep(a) && a.w in s.writers
  {
    var w, x := a.w, s.writers[a.w];
    match a
    case CommitTransaction(_) =>
      if x.status == Running && s.state == T.STATE_RUNNING
      then Some(s.(state := T.STATE_COMMIT_PREP, writers := s.writers[w := x.(status := Committing)])) else None
    case CommitPrepToStart(_) =>
      if x.status == Committing && s.state == T.STATE_COMMIT_PREP
      then Some(s.(state := T.STATE_COMMIT_START, numExtwriters := s.numExtwriters - T.Ext(x.jtype))) else None
    case CommitCheckForDoing(_) =>
      if x.status == Committing && s.state == T.STATE_COMMIT_START
      then Some(s.(seenExtwriters := s.numExtwriters, seenWriters := s.numWriters,
                   writers := s.writers[w := x.(status := CommitChecking)]))
      else None
    case CommitActForDoing(_) =>
      if x.status == CommitChecking && s.state == T.STATE_COMMIT_START && s.numExtwriters == 0 && s.numWriters == 1
      then Some(s.(state := T.STATE_COMMIT_DOING, seenExtwriters := -1, seenWriters := -1,
                   writers := s.writers[w := x.(status := Committing)]))
      else None
    case CommitRetryForDoing(_) =>
      if x.status == CommitChecking && s.state == T.STATE_COMMIT_START && (s.numExtwriters > 0 || s.numWriters > 1)
      then Some(s.(seenExtwriters := -1, seenWriters := -1, writers := s.writers[w := x.(status := Committing)]))
      else None
    case CommitDoingToUnblocked(_) =>
      if x.status == Committing && s.state == T.STATE_COMMIT_DOING
      then Some(s.(state := T.STATE_UNBLOCKED, open := false)) else None
    case CommitUnblockedToSuper(_) =>
      if x.status == Committing && s.state == T.STATE_UNBLOCKED
      then Some(s.(state := T.STATE_SUPER_COMMITTED)) else None
    case CommitSuperToCompleted(_) =>
      if x.status == Committing && s.state == T.STATE_SUPER_COMMITTED
      then Some(s.(state := T.STATE_COMPLETED, numWriters := s.numWriters - 1,
                   writers := s.writers[w := x.(status := Idle, jtype := T.NoType)]))
      else None
  }

  function Fire(c: T.Config, s: State, a: Step): Option<State> {
    if a.w !in s.writers then None
    else if IsWriterStep(a) then FireWriter(c, s, a)
    else FireCommitter(c, s, a)
  }

  // ----- Simulation -----

  /** A checking writer has not joined yet; a checking committer is committing. */
  function AbstractWriter(x: Writer): T.Writer {
    T.Writer(match x.status
             case Idle => T.Idle
             case Checking => T.Idle
             case Running => T.Running
             case _ => T.Committing, x.jtype)
  }

  function AbstractWriters(ws: map<int, Writer>): map<int, T.Writer> { map w | w in ws :: AbstractWriter(ws[w]) }

  predicate OutsideHasNoType(x: Writer) { x.status == Idle || x.status == Checking ==> x.jtype == T.NoType }

  predicate IsChecking(x: Writer) { x.status == Checking }

  /** The atomic protocol is in the same state, and has counted as an operation every
      join so far, where the two-step protocol counted every attempt. */
  ghost predicate Simulates(c: T.Config, s: State, r: T.State) {
    && r.open == s.open && r.state == s.state
    && r.numWriters == s.numWriters && r.numExtwriters == s.numExtwriters
    && r.writers == AbstractWriters(s.writers)
    && r.ops + CountIf(s.writers, IsChecking) <= s.ops <= c.maxOps
    && forall w :: w in s.writers ==> OutsideHasNoType(s.writers[w])
  }

  function AbstractStep(s: State, a: Step): seq<T.Step> {
    match a
    case WriterActJoin(w) => if w in s.writers then [T.JoinTransaction(w, s.writers[w].wanted)] else []
    case EndTransaction(w) => [T.EndTransaction(w)]
    case CommitTransaction(w) => [T.CommitTransaction(w)]
    case CommitPrepToStart(w) => [T.CommitPrepToStart(w)]
    case CommitActForDoing(w) => [T.CommitStartToDoing(w)]
    case CommitDoingToUnblocked(w) => [T.CommitDoingToUnblocked(w)]
    case CommitUnblockedToSuper(w) => [T.CommitUnblockedToSuper(w)]
    case CommitSuperToCompleted(w) => [T.CommitSuperToCompleted(w)]
    case _ => []
  }

  lemma CheckingAfter(s: State, w: int, x: Writer)
    requires w in s.writers
    ensures CountIf(s.writers[w := x], IsChecking) + Bit(IsChecking(s.writers[w]))
              == CountIf(s.writers, IsChecking) + Bit(IsChecking(x))
    ensures IsChecking(s.writers[w]) ==> CountIf(s.writers, IsChecking) >= 1
  {
    CountUpdate(s.writers, w, x, IsChecking);
    if IsChecking(s.writers[w]) {
      CountPositive(s.writers, w, IsChecking);
    }
  }

  lemma WriterSimulates(c: T.Config, s: State, r: T.State, a: Step) returns (r': T.State)
    requires Simulates(c, s, r) && a.w in s.writers && IsWriterStep(a) && FireWriter(c, s, a).Some?
    ensures After(T.Fire, c, r, AbstractStep(s, a)) == Some(r') && Simulates(c, FireWriter(c, s, a).value, r')
  {
    var s', w := FireWriter(c, s, a).value, a.w;
    CheckingAfter(s, w, s'.writers[w]);
    assert s'.writers == s.writers[w := s'.writers[w]];
    r' := r;
    if AbstractStep(s, a) != [] {
      AfterOne(T.Fire, c, r, AbstractStep(s, a)[0]);
      r' := T.Fire(c, r, AbstractStep(s, a)[0]).value;
    }
  }

  lemma CommitterSimulates(c: T.Config, s: State, r: T.State, a: Step) returns (r': T.State)
    requires Simulates(c, s, r) && a.w in s.writers && !IsWriterStep(a) && FireCommitter(c, s, a).Some?
    ensures After(T.Fire, c, r, AbstractStep(s, a)) == Some(r') && Simulates(c, FireCommitter(c, s, a).value, r')
  {
    var s', w := FireCommitter(c, s, a).value, a.w;
    CheckingAfter(s, w, s'.writers[w]);
    assert s'.writers == s.writers[w := s'.writers[w]];
    r' := r;
    if AbstractStep(s, a) != [] {
      AfterOne(T.Fire, c, r, AbstractStep(s, a)[0]);
      r' := T.Fire(c, r, AbstractStep(s, a)[0]).value;
    }
  }

  /** A step of the two-step protocol is a step of the atomic one, or changes nothing there. */
  lemma StepSimulates(c: T.Config, s: State, r: T.State, a: Step) returns (r': T.State)
    requires Simulates(c, s, r) && Fire(c, s, a).Some?
    ensures After(T.Fire, c, r, AbstractStep(s, a)) == Some(r') && Simulates(c, Fire(c, s, a).value, r')
  {
    hide Simulates, FireWriter, FireCommitter;
    if IsWriterStep(a) {
      r' := WriterSimulates(c, s, r, a);
    } else {
      r' := CommitterSimulates(c, s, r, a);
    }
  }

  /** A committer is between its check and its action only before the core of the commit. */
  ghost predicate ChecksAtStart(s: State) {
    forall w :: w in s.writers && s.writers[w].status == CommitChecking ==> s.state == T.STATE_COMMIT_START
  }

  lemma StepChecksAtStart(c: T.Config, s: State, r: T.State, a: Step)
    requires Simulates(c, s, r) && T.Inv(c, r) && ChecksAtStart(s) && Fire(c, s, a).Some?
    ensures ChecksAtStart(Fire(c, s, a).value)
  {
    var s' := Fire(c, s, a).value;
    if s'.state != s.state && s.writers[a.w].status == CommitChecking {
      forall u | u in s.writers && s.writers[u].status == CommitChecking
        ensures u == a.w
      {
        assert r.writers[u] == AbstractWriter(s.writers[u]) && r.writers[a.w] == AbstractWriter(s.writers[a.w]);
        T.OneCommitter(r, a.w, u);
      }
    }
  }

  lemma InitSimulates(c: T.Config)
    ensures Simulates(c, Init(c), T.Init(c))
  {
    CountZero(Init(c).writers, IsChecking);
    var x, y := AbstractWriters(Init(c).writers), T.Init(c).writers;
    assert forall w :: w in x ==> w in y && x[w] == y[w];
    assert forall w :: w in y ==> w in x;
    assert x == y;
  }

  /** Every run of the two-step protocol implements a run of the atomic one. */
  lemma {:induction false} RunSimulates(c: T.Config, steps: seq<Step>) returns (atomic: seq<T.Step>, r: T.State)
    requires After(Fire, c, Init(c), steps).Some?
    ensures After(T.Fire, c, T.Init(c), atomic) == Some(r)
    ensures var s := After(Fire, c, Init(c), steps).value; Simulates(c, s, r) && T.Inv(c, r) && ChecksAtStart(s)
    decreases |steps|
  {
    if steps == [] {
      atomic, r := [], T.Init(c);
      InitSimulates(c);
      T.InitInv(c);
    } else {
      var shorter, a := steps[..|steps| - 1], steps[|steps| - 1];
      atomic, r := RunSimulates(c, shorter);
      var s := After(Fire, c, Init(c), shorter).value;
      StepChecksAtStart(c, s, r, a);
      var r' := StepSimulates(c, s, r, a);
      AfterConcat(T.Fire, c, T.Init(c), atomic, AbstractStep(s, a));
      atomic, r := atomic + AbstractStep(s, a), r';
      T.CommitIsExclusive(c, atomic);
    }
  }

  /** While the core of the commit runs nobody but the committer is in the transaction;
      others may at most be between a check and the action that will send them back. */
  ghost predicate CommitterAlone(s: State) {
    s.state == T.STATE_COMMIT_DOING ==>
      s.numExtwriters == 0 && s.numWriters == 1
      && exists w :: w in s.writers && s.writers[w].status == Committing
                     && forall u :: u in s.writers && u != w ==>
                          s.writers[u].status == Idle || s.writers[u].status == Checking
  }

  /** The guarantees of the atomic protocol, inherited: the races between a check and
      its action do no harm, because the action checks again. */
  lemma CommitIsExclusive(c: T.Config, steps: seq<Step>)
    requires After(Fire, c, Init(c), steps).Some?
    ensures var s := After(Fire, c, Init(c), steps).value;
            CommitterAlone(s) && s.numExtwriters >= 0 && s.numWriters >= 0
  {
    var atomic, r := RunSimulates(c, steps);
    T.CommitIsExclusive(c, atomic);
    var s := After(Fire, c, Init(c), steps).value;
    if s.state == T.STATE_COMMIT_DOING {
      var w :| w in r.writers && r.writers[w].status == T.Committing
               && forall u :: u in r.writers && u != w ==> r.writers[u].status == T.Idle;
      assert r.writers[w] == AbstractWriter(s.writers[w]);
      forall u | u in s.writers && u != w
        ensures s.writers[u].status == Idle || s.writers[u].status == Checking
      {
        assert u in r.writers && r.writers[u] == AbstractWriter(s.writers[u]);
      }
    }
  }

  // ----- A commit can always complete -----

  predicate IsRunning(x: Writer) { x.status == Running }
  predicate IsUnchecked(x: Writer) { x.status == Committing }

  predicate IsJoin(a: Step) { a.WriterCheckJoin? || a.WriterActJoin? }

  /** A state that some run reaches, with the atomic state it stands for. */
  ghost predicate Live(c: T.Config, s: State, r: T.State) {
    Simulates(c, s, r) && T.Inv(c, r) && ChecksAtStart(s)
  }

  /** Closer to completion: by the state of the commit, by the writers still inside, by
      the check before the core. */
  ghost predicate Nearer(s: State, s': State) {
    || s'.state > s.state
    || (s'.state == s.state && CountIf(s'.writers, IsRunning) < CountIf(s.writers, IsRunning))
    || (s'.state == s.state && CountIf(s'.writers, IsRunning) == CountIf(s.writers, IsRunning)
        && CountIf(s'.writers, IsUnchecked) < CountIf(s.writers, IsUnchecked))
  }

  lemma TheCommitter(c: T.Config, s: State, r: T.State) returns (w: int)
    requires Live(c, s, r) && T.STATE_RUNNING < s.state < T.STATE_COMPLETED
    ensures w in s.writers && (s.writers[w].status == Committing || s.writers[w].status == CommitChecking)
  {
    w := CountWitness(r.writers, T.IsCommitting);
    assert r.writers[w] == AbstractWriter(s.writers[w]);
  }

  lemma DrainedCounts(c: T.Config, s: State, r: T.State)
    requires Live(c, s, r) && T.STATE_COMMIT_START <= s.state < T.STATE_COMPLETED && CountIf(s.writers, IsRunning) == 0
    ensures s.numExtwriters == 0 && s.numWriters == 1
  {
    forall u | u in r.writers
      ensures !T.IsRunning(r.writers[u])
    {
      assert r.writers[u] == AbstractWriter(s.writers[u]);
      if IsRunning(s.writers[u]) {
        CountPositive(s.writers, u, IsRunning);
      }
    }
    CountZero(r.writers, T.IsRunning);
    T.ExternalIsRunning(r);
  }

  /** A commit in progress has a step, not a join, that brings it nearer completion. */
  lemma CommitAdvances(c: T.Config, s: State, r: T.State) returns (a: Step)
    requires Live(c, s, r) && T.STATE_RUNNING < s.state < T.STATE_COMPLETED
    ensures !IsJoin(a) && Fire(c, s, a).Some? && Nearer(s, Fire(c, s, a).value)
  {
    var w := TheCommitter(c, s, r);
    if s.state == T.STATE_COMMIT_START && CountIf(s.writers, IsRunning) >= 1 {
      w := CountWitness(s.writers, IsRunning);
      a := EndTransaction(w);
    } else if s.state == T.STATE_COMMIT_START {
      DrainedCounts(c, s, r);
      a := if s.writers[w].status == Committing then CommitCheckForDoing(w) else CommitActForDoing(w);
    } else {
      a := if s.state == T.STATE_COMMIT_PREP then CommitPrepToStart(w)
           else if s.state == T.STATE_COMMIT_DOING then CommitDoingToUnblocked(w)
           else if s.state == T.STATE_UNBLOCKED then CommitUnblockedToSuper(w)
           else CommitSuperToCompleted(w);
    }
    CountUpdate(s.writers, w, Fire(c, s, a).value.writers[w], IsRunning);
    CountUpdate(s.writers, w, Fire(c, s, a).value.writers[w], IsUnchecked);
  }

  lemma CompleteFrom(c: T.Config, s: State, r: T.State) returns (steps: seq<Step>)
    requires Live(c, s, r) && T.STATE_RUNNING < s.state
    ensures After(Fire, c, s, steps).Some? && After(Fire, c, s, steps).value.state == T.STATE_COMPLETED
    ensures forall a :: a in steps ==> !IsJoin(a)
    decreases T.STATE_COMPLETED - s.state, CountIf(s.writers, IsRunning), CountIf(s.writers, IsUnchecked)
  {
    steps := [];
    if s.state < T.STATE_COMPLETED {
      var a := CommitAdvances(c, s, r);
      var s' := Fire(c, s, a).value;
      StepChecksAtStart(c, s, r, a);
      var r' := StepSimulates(c, s, r, a);
      KeepsInv(c, r, AbstractStep(s, a));
      var rest := CompleteFrom(c, s', r');
      AfterOne(Fire, c, s, a);
      AfterConcat(Fire, c, s, [a], rest);
      steps := [a] + rest;
    }
  }

  lemma KeepsInv(c: T.Config, r: T.State, steps: seq<T.Step>)
    requires T.Inv(c, r) && After(T.Fire, c, r, steps).Some?
    ensures T.Inv(c, After(T.Fire, c, r, steps).value)
  {
    T.StepKeepsInv(c);
    RunKeeps(T.Fire, T.Inv, c, r, steps);
  }

  /** Once a commit has begun it can complete from every reachable state, with no
      further join needed, whatever checks are still under way. */
  lemma CommitCanComplete(c: T.Config, run: seq<Step>)
    requires After(Fire, c, Init(c), run).Some? && After(Fire, c, Init(c), run).value.state > T.STATE_RUNNING
    ensures var s := After(Fire, c, Init(c), run).value;
            exists steps: seq<Step> :: After(Fire, c, s, steps).Some? && (forall a :: a in steps ==> !IsJoin(a))
                                       && After(Fire, c, s, steps).value.state == T.STATE_COMPLETED
  {
    var atomic, r := RunSimulates(c, run);
    var steps := CompleteFrom(c, After(Fire, c, Init(c), run).value, r);
  }
}
