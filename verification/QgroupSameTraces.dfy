/** The probes see neither the fix nor tasks that show no event: every task set that
    contains the tasks of a trace, in either kernel, explains the same traces. */
module QgroupSameTraces {
  import opened Options
  import opened QgroupLifecycle
  import opened QgroupMoves
  import opened QgroupSafety
  import opened QgroupRuns
  import opened QgroupUnmount
  import opened QgroupDelay

  ghost predicate NoWaitPutOff(s: State, d: State) {
    forall t :: t in s.pc && t in d.pc ==> !PutsOffWait(s.pc[t], d.pc[t])
  }

  /** A wait that is taken step by step is never behind. */
  lemma StaysCurrent(a: Step, p: PC, p': PC, q: PC)
    requires StepMove(a, p, p') && PutOff(q, a, true) && !PutsOffWait(p, q)
    ensures !PutsOffWait(p', q)
  {
  }

  /** Who moves is one of the tasks of the second run, since it shows an event first. */
  lemma MoverIsTask(c: Config, s: State, a: Step, s': State, c': Config, d: State)
    requires Follows(c', s, d) && Fire(c, s, a) == Some(s')
    requires forall e :: e in Events(a) ==> e.task in Tasks(c')
    ensures Owner(a) in s.pc && Owner(a) in d.pc
  {
    StepMoves(c, s, a, s');
    if Observable(a) {
      assert Event(Owner(a), Label(a).value) in Events(a);
    }
    hide Fire, StepMove;
    if Owner(a) !in d.pc {
      IdleMoves(a, s.pc[Owner(a)], s'.pc[Owner(a)]);
    }
  }

  lemma InitFollows(c: Config, c': Config)
    ensures Follows(c', Init(c), Init(c')) && NoWaitPutOff(Init(c), Init(c'))
  {
  }

  lemma OwnerMoves(c: Config, s: State, a: Step, s': State)
    requires Fire(c, s, a) == Some(s') && Locks(c, s)
    ensures Owner(a) in s.pc && Owner(a) in s'.pc && s'.pc == s.pc[Owner(a) := s'.pc[Owner(a)]]
  {
    StepEffect(c, s, a, s');
  }

  lemma MoveCurrent(s: State, d: State, t: Task, s': State, d': State, r: PC)
    requires NoWaitPutOff(s, d) && t in s'.pc && s'.pc == s.pc[t := s'.pc[t]] && d'.pc == d.pc[t := r]
    requires !PutsOffWait(s'.pc[t], r)
    ensures NoWaitPutOff(s', d')
  {
  }

  lemma StepFollowsAtOnce(c: Config, s: State, a: Step, s': State, c': Config, d: State)
    returns (taken: seq<Step>, d': State)
    requires Fire(c, s, a) == Some(s') && Follows(c', s, d) && NoWaitPutOff(s, d) && Locks(c, s)
    requires forall e :: e in Events(a) ==> e.task in Tasks(c')
    ensures Path(c', d, taken, Events(a), d') && Follows(c', s', d') && NoWaitPutOff(s', d') && Locks(c, s')
  {
    var t := Owner(a);
    MoverIsTask(c, s, a, s', c', d);
    assert CanPass(s, s.pc[t], d.pc[t]);
    assert !PutsOffWait(s.pc[t], d.pc[t]);
    hide Fire, Follows, Locks, StepMove, PutOff, Path, PutsOffWait, CanPass, Taken, NoWaitPutOff, Label, Tasks;
    StepMoves(c, s, a, s');
    OwnerMoves(c, s, a, s');
    var r;
    d', r := StepFollows(c, s, a, s', c', d, true);
    taken := Taken(c', d, a, true);
    if PutOff(d.pc[t], a, true) {
      StaysCurrent(a, s.pc[t], s'.pc[t], d.pc[t]);
      assert r == d.pc[t];
    }
    MoveCurrent(s, d, t, s', d', r);
  }

  lemma {:induction false} RunFollows(c: Config, steps: seq<Step>, trace: seq<Event>, s: State, c': Config)
    returns (taken: seq<Step>, d: State)
    requires Path(c, Init(c), steps, trace, s) && forall e :: e in trace ==> e.task in Tasks(c')
    ensures Path(c', Init(c'), taken, trace, d) && Follows(c', s, d) && NoWaitPutOff(s, d) && Locks(c, s)
    decreases |steps|
  {
    if steps == [] {
      taken, d := [], Init(c');
      InitFollows(c, c');
      InitInv(c);
    } else {
      var shorter, before, m, a := PathLast(c, Init(c), steps, trace, s);
      hide Fire, Follows, NoWaitPutOff, Locks, Label, Tasks, Init;
      var most, dm := RunFollows(c, shorter, before, m, c');
      var last;
      last, d := StepFollowsAtOnce(c, m, a, s, c', dm);
      PathConcat(c', Init(c'), most, before, dm, last, Events(a), d);
      taken := most + last;
    }
  }

  /** A trace is explained by one task set and kernel if and only if it is explained by
      any other that has the tasks with an event. */
  lemma AcceptedByAny(c: Config, c': Config, trace: seq<Event>)
    requires forall e :: e in trace ==> e.task in Tasks(c')
    ensures Accepted(c, trace) ==> Accepted(c', trace)
  {
    if Accepted(c, trace) {
      var steps :| RunProjectsTo(c, steps, trace);
      var taken, d := RunFollows(c, steps, trace, After(c, Init(c), steps).value, c');
      assert RunProjectsTo(c', taken, trace);
    }
  }

  /** The fix cannot be seen in a trace. */
  lemma FixIsInvisible(users: set<int>, trace: seq<Event>)
    ensures Accepted(Config(users, true), trace) <==> Accepted(Config(users, false), trace)
  {
    EmittersAreTasks(Config(users, true), Config(users, false), trace);
    EmittersAreTasks(Config(users, false), Config(users, true), trace);
  }

  lemma EmittersAreTasks(c: Config, c': Config, trace: seq<Event>)
    requires c'.users == c.users
    ensures Accepted(c, trace) ==> Accepted(c', trace)
  {
    if Accepted(c, trace) {
      var steps :| RunProjectsTo(c, steps, trace);
      forall k | 0 <= k < |trace|
        ensures trace[k].task in Tasks(c')
      {
        EmitterIsTask(c, steps, trace, After(c, Init(c), steps).value, k);
      }
      AcceptedByAny(c, c', trace);
    }
  }
}
