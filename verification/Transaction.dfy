/** The commit of one transaction among any set of writers, with each check and the
    action it guards in one atomic step. */
module Transaction {
  import opened Options
  import opened Counting
  import opened Runs

  datatype Config = Config(writers: set<int>, maxOps: nat)

  const STATE_RUNNING := 0
  const STATE_COMMIT_PREP := 1
  const STATE_COMMIT_START := 2
  const STATE_COMMIT_DOING := 3
  const STATE_UNBLOCKED := 4
  const STATE_SUPER_COMMITTED := 5
  const STATE_COMPLETED := 6

  datatype JoinType = NoType | TypeStart | TypeAttach | TypeJoin

  datatype Status = Idle | Running | Committing

  datatype Writer = Writer(status: Status, jtype: JoinType)

  /** `open` says that a running transaction exists. */
  datatype State = State(
    open: bool, state: int, numWriters: int, numExtwriters: int, writers: map<int, Writer>, ops: nat)

  datatype Step =
    | JoinTransaction(w: int, jtype: JoinType) | EndTransaction(w: int) | CommitTransaction(w: int)
    | CommitPrepToStart(w: int) | CommitStartToDoing(w: int) | CommitDoingToUnblocked(w: int)
    | CommitUnblockedToSuper(w: int) | CommitSuperToCompleted(w: int)

  /** External writers block a commit from its start on, joiners only from its core on. */
  predicate IsExternal(j: JoinType) { j == TypeStart || j == TypeAttach }

  predicate MayJoin(j: JoinType, state: int) {
    (IsExternal(j) && state < STATE_COMMIT_START) || (j == TypeJoin && state < STATE_COMMIT_DOING)
  }

  function Ext(j: JoinType): nat { Bit(IsExternal(j)) }

  function Init(c: Config): State {
    State(true, STATE_RUNNING, 0, 0, map w | w in c.writers :: Writer(Idle, NoType), 0)
  }

  function Set(s: State, w: int, x: Writer): map<int, Writer> { s.writers[w := x] }

  function Fire(c: Config, s: State, a: Step): Option<State> {
    if a.w !in s.writers then None
    else
      var w, x := a.w, s.writers[a.w];
      match a
      case JoinTransaction(_, j) =>
        if s.ops < c.maxOps && x.status == Idle && s.open && MayJoin(j, s.state)
        then Some(s.(numWriters := s.numWriters + 1, numExtwriters := s.numExtwriters + Ext(j),
                     writers := Set(s, w, Writer(Running, j)), ops := s.ops + 1))
        else None
      case EndTransaction(_) =>
        if x.status == Running
        then Some(s.(numWriters := s.numWriters - 1, numExtwriters := s.numExtwriters - Ext(x.jtype),
                     writers := Set(s, w, Writer(Idle, NoType))))
        else None
      case CommitTransaction(_) =>
        if x.status == Running && s.state == STATE_RUNNING
        then Some(s.(state := STATE_COMMIT_PREP, writers := Set(s, w, Writer(Committing, x.jtype)))) else None
      case CommitPrepToStart(_) =>
        if x.status == Committing && s.state == STATE_COMMIT_PREP
        then Some(s.(state := STATE_COMMIT_START, numExtwriters := s.numExtwriters - Ext(x.jtype))) else None
      case CommitStartToDoing(_) =>
        if x.status == Committing && s.state == STATE_COMMIT_START && s.numExtwriters == 0 && s.numWriters == 1
        then Some(s.(state := STATE_COMMIT_DOING)) else None
      case CommitDoingToUnblocked(_) =>
        if x.status == Committing && s.state == STATE_COMMIT_DOING
        then Some(s.(state := STATE_UNBLOCKED, open := false)) else None
      case CommitUnblockedToSuper(_) =>
        if x.status == Committing && s.state == STATE_UNBLOCKED
        then Some(s.(state := STATE_SUPER_COMMITTED)) else None
      case CommitSuperToCompleted(_) =>
        if x.status == Committing && s.state == STATE_SUPER_COMMITTED
        then Some(s.(state := STATE_COMPLETED, numWriters := s.numWriters - 1,
                     writers := Set(s, w, Writer(Idle, NoType))))
        else None
  }

  // ----- What every reachable state keeps -----

  predicate IsRunning(x: Writer) { x.status == Running }
  predicate IsCommitting(x: Writer) { x.status == Committing }
  predicate RunsExternally(x: Writer) { x.status == Running && IsExternal(x.jtype) }
  predicate CommitsExternally(x: Writer) { x.status == Committing && IsExternal(x.jtype) }

  /** The counters count writers; the committer's own external reference is dropped
      when the commit starts. */
  ghost predicate CountersExact(s: State) {
    && s.numWriters == CountIf(s.writers, IsRunning) + CountIf(s.writers, IsCommitting)
    && s.numExtwriters == CountIf(s.writers, RunsExternally)
                          + if s.state < STATE_COMMIT_START then CountIf(s.writers, CommitsExternally) else 0
  }

  ghost predicate Inv(c: Config, s: State) {
    && s.writers.Keys == c.writers && s.ops <= c.maxOps
    && STATE_RUNNING <= s.state <= STATE_COMPLETED
    && CountersExact(s)
    && CountIf(s.writers, IsCommitting) == Bit(STATE_RUNNING < s.state < STATE_COMPLETED)
    && (s.state >= STATE_COMMIT_DOING ==> CountIf(s.writers, IsRunning) == 0)
    && (s.open <==> s.state < STATE_UNBLOCKED)
  }

  lemma InitInv(c: Config)
    ensures Inv(c, Init(c))
  {
    var m := Init(c).writers;
    CountZero(m, IsRunning);
    CountZero(m, IsCommitting);
    CountZero(m, RunsExternally);
    CountZero(m, CommitsExternally);
  }

  lemma CountsAfter(s: State, w: int, x: Writer)
    requires w in s.writers
    ensures CountIf(Set(s, w, x), IsRunning) + Bit(IsRunning(s.writers[w]))
              == CountIf(s.writers, IsRunning) + Bit(IsRunning(x))
    ensures CountIf(Set(s, w, x), IsCommitting) + Bit(IsCommitting(s.writers[w]))
              == CountIf(s.writers, IsCommitting) + Bit(IsCommitting(x))
    ensures CountIf(Set(s, w, x), RunsExternally) + Bit(RunsExternally(s.writers[w]))
              == CountIf(s.writers, RunsExternally) + Bit(RunsExternally(x))
    ensures CountIf(Set(s, w, x), CommitsExternally) + Bit(CommitsExternally(s.writers[w]))
              == CountIf(s.writers, CommitsExternally) + Bit(CommitsExternally(x))
  {
    CountUpdate(s.writers, w, x, IsRunning);
    CountUpdate(s.writers, w, x, IsCommitting);
    CountUpdate(s.writers, w, x, RunsExternally);
    CountUpdate(s.writers, w, x, CommitsExternally);
  }

  /** There is one committer. */
  lemma OneCommitter(s: State, w: int, u: int)
    requires CountIf(s.writers, IsCommitting) <= 1
    requires w in s.writers && u in s.writers && IsCommitting(s.writers[w]) && IsCommitting(s.writers[u])
    ensures w == u
  {
    if w != u {
      CountTwo(s.writers, w, u, IsCommitting);
    }
  }

  lemma CommitterIsAlone(s: State, w: int)
    requires CountIf(s.writers, IsCommitting) <= 1 && w in s.writers && IsCommitting(s.writers[w])
    ensures CountIf(s.writers, CommitsExternally) == Ext(s.writers[w].jtype)
  {
    forall u | u in s.writers && u != w
      ensures !CommitsExternally(s.writers[u])
    {
      if IsCommitting(s.writers[u]) {
        OneCommitter(s, w, u);
      }
    }
    CountOnly(s.writers, w, CommitsExternally);
  }

  lemma StepInv(c: Config, s: State, a: Step)
    requires Inv(c, s) && Fire(c, s, a).Some?
    ensures Inv(c, Fire(c, s, a).value)
  {
    var s', w := Fire(c, s, a).value, a.w;
    CountsAfter(s, w, s'.writers[w]);
    assert s'.writers == Set(s, w, s'.writers[w]);
    if a.CommitPrepToStart? {
      CommitterIsAlone(s, w);
    } else if a.EndTransaction? {
      CountPositive(s.writers, w, IsRunning);
    }
  }

  lemma StepKeepsInv(c: Config)
    ensures Inductive(Fire, Inv, c)
  {
    forall s, a | Inv(c, s) && Fire(c, s, a).Some?
      ensures Inv(c, Fire(c, s, a).value)
    {
      StepInv(c, s, a);
    }
  }

  /** While the core of the commit runs there is no external writer, and the committer
      is the only writer. */
  ghost predicate CommitterAlone(s: State) {
    s.state == STATE_COMMIT_DOING ==>
      s.numExtwriters == 0 && s.numWriters == 1
      && exists w :: w in s.writers && s.writers[w].status == Committing
                     && forall u :: u in s.writers && u != w ==> s.writers[u].status == Idle
  }

  lemma InvCommitterAlone(c: Config, s: State)
    requires Inv(c, s)
    ensures CommitterAlone(s)
  {
    if s.state == STATE_COMMIT_DOING {
      var w := CountWitness(s.writers, IsCommitting);
      forall u | u in s.writers && u != w
        ensures s.writers[u].status == Idle
      {
        if IsRunning(s.writers[u]) {
          CountPositive(s.writers, u, IsRunning);
        } else if IsCommitting(s.writers[u]) {
          OneCommitter(s, w, u);
        }
      }
      ExternalIsRunning(s);
    }
  }

  lemma ExternalIsRunning(s: State)
    requires CountIf(s.writers, IsRunning) == 0
    ensures CountIf(s.writers, RunsExternally) == 0
  {
    forall u | u in s.writers
      ensures !RunsExternally(s.writers[u])
    {
      if IsRunning(s.writers[u]) {
        CountPositive(s.writers, u, IsRunning);
      }
    }
    CountZero(s.writers, RunsExternally);
  }

  lemma CommitIsExclusive(c: Config, steps: seq<Step>)
    requires After(Fire, c, Init(c), steps).Some?
    ensures var s := After(Fire, c, Init(c), steps).value;
            Inv(c, s) && CommitterAlone(s) && s.numExtwriters >= 0 && s.numWriters >= 0
  {
    InitInv(c);
    StepKeepsInv(c);
    RunKeeps(Fire, Inv, c, Init(c), steps);
    InvCommitterAlone(c, After(Fire, c, Init(c), steps).value);
  }
}
