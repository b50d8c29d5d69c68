/** Write locks on the path from the root of a B-tree (level numLevels) to a leaf
    (level 1), taken strictly top-down. The atomic lock: a free lock can be taken. */
module ExtentBufferLock {
  import opened Options
  import opened Sets
  import opened Runs

  /** Threads are numbered 1 to numThreads; 0 owns a free lock. */
  datatype Config = Config(numLevels: nat, numThreads: nat)

  datatype PC = Idle | AcquireWrite | HoldingLock

  datatype Thread = Thread(pc: PC, held: set<int>, target: int)

  datatype State = State(wlock: map<int, int>, threads: map<int, Thread>)

  datatype Step = Start(t: int) | Acquire(t: int) | Descend(t: int) | Release(t: int)

  function Init(c: Config): State {
    State(map l | l in UpTo(c.numLevels) :: 0, map t | t in UpTo(c.numThreads) :: Thread(Idle, {}, 0))
  }

  /** What thread x becomes when it gives up its lowest lock. */
  function Released(x: Thread): Thread {
    var remaining := x.held - {x.target};
    if remaining == {} then Thread(Idle, remaining, 0) else Thread(HoldingLock, remaining, Least(remaining))
  }

  function Fire(c: Config, s: State, a: Step): Option<State> {
    if a.t !in s.threads then None
    else
      var t, x := a.t, s.threads[a.t];
      match a
      case Start(_) =>
        if x.pc == Idle && x.held == {}
        then Some(s.(threads := s.threads[t := x.(pc := AcquireWrite, target := c.numLevels)])) else None
      case Acquire(_) =>
        if x.pc == AcquireWrite && x.target in s.wlock && s.wlock[x.target] == 0
           && forall k :: k in x.held ==> x.target < k
        then Some(State(s.wlock[x.target := t],
                        s.threads[t := Thread(HoldingLock, x.held + {x.target}, x.target)]))
        else None
      case Descend(_) =>
        if x.pc == HoldingLock && x.target > 1
        then Some(s.(threads := s.threads[t := x.(pc := AcquireWrite, target := x.target - 1)])) else None
      case Release(_) =>
        if x.pc == HoldingLock && x.target in s.wlock && s.wlock[x.target] == t
        then Some(State(s.wlock[x.target := 0], s.threads[t := Released(x)])) else None
  }

  // ----- What every reachable state keeps -----

  /** The levels from lo up to the root. */
  ghost predicate HoldsFrom(c: Config, x: Thread, lo: int) { forall k :: k in x.held <==> lo <= k <= c.numLevels }

  /** A thread holds an unbroken stretch of levels that ends at the root. */
  ghost predicate ThreadOk(c: Config, x: Thread) {
    match x.pc
    case Idle => x.held == {} && x.target == 0
    case AcquireWrite => 1 <= x.target <= c.numLevels && HoldsFrom(c, x, x.target + 1)
    case HoldingLock => 1 <= x.target <= c.numLevels && HoldsFrom(c, x, x.target)
  }

  /** The lock table and the threads agree on who holds what. */
  ghost predicate OwnersAgree(s: State) {
    && (forall l, t :: l in s.wlock && t in s.threads ==> (s.wlock[l] == t <==> l in s.threads[t].held))
    && (forall l :: l in s.wlock ==> s.wlock[l] == 0 || s.wlock[l] in s.threads)
  }

  ghost predicate Inv(c: Config, s: State) {
    && (forall l :: l in s.wlock <==> 1 <= l <= c.numLevels)
    && (forall t :: t in s.threads <==> 1 <= t <= c.numThreads)
    && OwnersAgree(s)
    && forall t :: t in s.threads ==> ThreadOk(c, s.threads[t])
  }

  lemma InitInv(c: Config)
    ensures Inv(c, Init(c))
  {
  }

  lemma ReleasedOk(c: Config, x: Thread)
    requires ThreadOk(c, x) && x.pc == HoldingLock
    ensures ThreadOk(c, Released(x)) && Released(x).held == x.held - {x.target}
    ensures Released(x).pc == if x.target == c.numLevels then Idle else HoldingLock
    ensures Released(x).pc == HoldingLock ==> Released(x).target == x.target + 1
  {
    var remaining := x.held - {x.target};
    NoneInEmpty(remaining);
    if x.target < c.numLevels {
      assert x.target + 1 in remaining;
    }
  }

  lemma StepInv(c: Config, s: State, a: Step)
    requires c.numLevels >= 1 && Inv(c, s) && Fire(c, s, a).Some?
    ensures Inv(c, Fire(c, s, a).value)
  {
    var x := s.threads[a.t];
    assert ThreadOk(c, x);
    if a.Release? {
      ReleasedOk(c, x);
    }
    if a.Start? {
      NoneInEmpty(x.held);
    }
  }

  lemma StepKeepsInv(c: Config)
    requires c.numLevels >= 1
    ensures Inductive(Fire, Inv, c)
  {
    forall s, a | Inv(c, s) && Fire(c, s, a).Some?
      ensures Inv(c, Fire(c, s, a).value)
    {
      StepInv(c, s, a);
    }
  }

  /** No thread asks for a level while it holds that level or one below. */
  ghost predicate NoLockInversion(s: State) {
    forall t, k :: t in s.threads && s.threads[t].pc == AcquireWrite && k in s.threads[t].held
      ==> s.threads[t].target < k
  }

  /** At most one thread at a time holds anything at all. */
  ghost predicate OneHolder(s: State) {
    forall t, u :: t in s.threads && u in s.threads && s.threads[t].held != {} && s.threads[u].held != {} ==> t == u
  }

  lemma RootOwner(c: Config, s: State, t: int)
    requires Inv(c, s) && c.numLevels >= 1 && t in s.threads && s.threads[t].held != {}
    ensures s.wlock[c.numLevels] == t
  {
    var k := Pick(s.threads[t].held);
    assert ThreadOk(c, s.threads[t]);
  }

  lemma InvOneHolder(c: Config, s: State)
    requires Inv(c, s) && c.numLevels >= 1
    ensures OneHolder(s)
  {
    forall t, u | t in s.threads && u in s.threads && s.threads[t].held != {} && s.threads[u].held != {}
      ensures t == u
    {
      RootOwner(c, s, t);
      RootOwner(c, s, u);
    }
  }

  /** Safety of the atomic lock, over every run. */
  lemma LockIsSafe(c: Config, steps: seq<Step>)
    requires c.numLevels >= 1 && After(Fire, c, Init(c), steps).Some?
    ensures var s := After(Fire, c, Init(c), steps).value;
            Inv(c, s) && NoLockInversion(s) && OneHolder(s)
  {
    StepKeepsInv(c);
    RunKeeps(Fire, Inv, c, Init(c), steps);
    InvOneHolder(c, After(Fire, c, Init(c), steps).value);
    InvNoInversion(c, After(Fire, c, Init(c), steps).value);
  }

  lemma InvNoInversion(c: Config, s: State)
    requires Inv(c, s)
    ensures NoLockInversion(s)
  {
    forall t, k | t in s.threads && s.threads[t].pc == AcquireWrite && k in s.threads[t].held
      ensures s.threads[t].target < k
    {
      assert ThreadOk(c, s.threads[t]);
    }
  }
}
