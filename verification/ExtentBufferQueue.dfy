/** The lock as implemented: a free lock with an empty queue is taken at once, anyone
    else joins the queue, and only the head of the queue may take the lock. */
module ExtentBufferQueue {
  import opened Options
  import opened Sets
  import opened Runs
  import Lock = ExtentBufferLock

  datatype PC = Idle | AcquireWrite | Waiting | HoldingLock

  datatype Thread = Thread(pc: PC, held: set<int>, target: int)

  datatype State = State(owner: map<int, int>, queue: map<int, seq<int>>, threads: map<int, Thread>)

  datatype Step =
    | AcquireFast(t: int) | AcquireSlowQueue(t: int) | AcquireSlowWake(t: int)
    | Start(t: int) | Descend(t: int) | Release(t: int)

  function Init(c: Lock.Config): State {
    State(map l | l in UpTo(c.numLevels) :: 0, map l | l in UpTo(c.numLevels) :: [],
          map t | t in UpTo(c.numThreads) :: Thread(Idle, {}, 0))
  }

  predicate Below(x: Thread) { forall k :: k in x.held ==> x.target < k }

  /** Giving up the lowest lock is the same for both locks. */
  function Released(x: Thread): Thread {
    var y := Lock.Released(Lock.Thread(Lock.HoldingLock, x.held, x.target));
    Thread(if y.pc == Lock.Idle then Idle else HoldingLock, y.held, y.target)
  }

  function Fire(c: Lock.Config, s: State, a: Step): Option<State> {
    if a.t !in s.threads then None
    else
      var t, x, l := a.t, s.threads[a.t], s.threads[a.t].target;
      match a
      case AcquireFast(_) =>
        if x.pc == AcquireWrite && l in s.owner && l in s.queue && Below(x) && s.owner[l] == 0 && s.queue[l] == []
        then Some(s.(owner := s.owner[l := t], threads := s.threads[t := Thread(HoldingLock, x.held + {l}, l)]))
        else None
      case AcquireSlowQueue(_) =>
        if x.pc == AcquireWrite && l in s.owner && l in s.queue && Below(x) && (s.owner[l] != 0 || s.queue[l] != [])
        then Some(s.(queue := s.queue[l := s.queue[l] + [t]], threads := s.threads[t := x.(pc := Waiting)]))
        else None
      case AcquireSlowWake(_) =>
        if x.pc == Waiting && l in s.owner && l in s.queue && s.owner[l] == 0 && s.queue[l] != [] && s.queue[l][0] == t
        then Some(State(s.owner[l := t], s.queue[l := s.queue[l][1..]],
                        s.threads[t := Thread(HoldingLock, x.held + {l}, l)]))
        else None
      case Start(_) =>
        if x.pc == Idle && x.held == {}
        then Some(s.(threads := s.threads[t := x.(pc := AcquireWrite, target := c.numLevels)])) else None
      case Descend(_) =>
        if x.pc == HoldingLock && l > 1
        then Some(s.(threads := s.threads[t := x.(pc := AcquireWrite, target := l - 1)])) else None
      case Release(_) =>
        if x.pc == HoldingLock && l in s.owner && s.owner[l] == t
        then Some(s.(owner := s.owner[l := 0], threads := s.threads[t := Released(x)])) else None
  }

  // ----- Refinement of the atomic lock -----

  /** A queued thread counts as one that is still trying. */
  function AbstractThread(x: Thread): Lock.Thread {
    Lock.Thread(match x.pc
                case Idle => Lock.Idle
                case HoldingLock => Lock.HoldingLock
                case _ => Lock.AcquireWrite,
                x.held, x.target)
  }

  function Abstract(s: State): Lock.State {
    Lock.State(s.owner, map t | t in s.threads :: AbstractThread(s.threads[t]))
  }

  /** The step of the atomic lock this step stands for; joining a queue stands for none. */
  function AbstractStep(a: Step): seq<Lock.Step> {
    match a
    case AcquireFast(t) => [Lock.Acquire(t)]
    case AcquireSlowQueue(_) => []
    case AcquireSlowWake(t) => [Lock.Acquire(t)]
    case Start(t) => [Lock.Start(t)]
    case Descend(t) => [Lock.Descend(t)]
    case Release(t) => [Lock.Release(t)]
  }

  function AbstractSteps(steps: seq<Step>): seq<Lock.Step> {
    if steps == [] then [] else AbstractSteps(steps[..|steps| - 1]) + AbstractStep(steps[|steps| - 1])
  }

  // ----- What every reachable state keeps -----

  /** Each queue lists exactly the threads asleep for that level, each once, and only
      the root is ever waited for. */
  ghost predicate QueuesOk(c: Lock.Config, s: State)
    requires c.numLevels >= 1
  {
    && (forall l :: l in s.queue <==> 1 <= l <= c.numLevels)
    && (forall l :: l in s.queue ==> QueueOk(s, l) && (l != c.numLevels ==> s.queue[l] == []))
    && (forall t :: t in s.threads && s.threads[t].pc == Waiting ==>
          s.threads[t].target == c.numLevels && t in s.queue[c.numLevels])
  }

  ghost predicate QueueOk(s: State, l: int)
    requires l in s.queue
  {
    && (forall i :: 0 <= i < |s.queue[l]| ==>
          s.queue[l][i] in s.threads && s.threads[s.queue[l][i]].pc == Waiting && s.threads[s.queue[l][i]].target == l)
    && (forall i, j :: 0 <= i < j < |s.queue[l]| ==> s.queue[l][i] != s.queue[l][j])
  }

  ghost predicate Inv(c: Lock.Config, s: State) {
    c.numLevels >= 1 && Lock.Inv(c, Abstract(s)) && QueuesOk(c, s)
  }

  lemma AbstractUpdate(s: State, t: int, x: Thread)
    requires t in s.threads
    ensures Abstract(s.(threads := s.threads[t := x])).threads == Abstract(s).threads[t := AbstractThread(x)]
  {
  }

  /** Every step is a step of the atomic lock, except that joining a queue is none. */
  lemma StepRefines(c: Lock.Config, s: State, a: Step)
    requires Inv(c, s) && Fire(c, s, a).Some?
    ensures After(Lock.Fire, c, Abstract(s), AbstractStep(a)) == Some(Abstract(Fire(c, s, a).value))
  {
    var x := s.threads[a.t];
    AbstractUpdate(s, a.t, Fire(c, s, a).value.threads[a.t]);
    assert Lock.ThreadOk(c, Abstract(s).threads[a.t]);
    if a.AcquireSlowQueue? {
      assert Abstract(Fire(c, s, a).value).threads == Abstract(s).threads;
    } else {
      AfterOne(Lock.Fire, c, Abstract(s), AbstractStep(a)[0]);
    }
  }

  /** A level below the root is free and has no queue whenever someone wants it. */
  lemma OnlyRootIsContended(c: Lock.Config, s: State, t: int)
    requires Inv(c, s) && t in s.threads && s.threads[t].pc == AcquireWrite && s.threads[t].target != c.numLevels
    ensures s.threads[t].target in s.owner && s.owner[s.threads[t].target] == 0
    ensures s.threads[t].target in s.queue && s.queue[s.threads[t].target] == []
  {
    var l, abs := s.threads[t].target, Abstract(s);
    assert Lock.ThreadOk(c, abs.threads[t]);
    assert c.numLevels in abs.threads[t].held;
    if s.owner[l] != 0 {
      var u := s.owner[l];
      assert l in abs.threads[u].held && Lock.ThreadOk(c, abs.threads[u]);
      Lock.RootOwner(c, abs, t);
      Lock.RootOwner(c, abs, u);
    }
  }

  /** Joining the queue happens at the root only. */
  lemma JoinsAtRoot(c: Lock.Config, s: State, a: Step)
    requires Inv(c, s) && Fire(c, s, a).Some? && a.AcquireSlowQueue?
    ensures s.threads[a.t].target == c.numLevels
  {
    if s.threads[a.t].target != c.numLevels {
      OnlyRootIsContended(c, s, a.t);
    }
  }

  lemma StepKeepsQueue(c: Lock.Config, s: State, a: Step, l: int)
    requires Inv(c, s) && Fire(c, s, a).Some? && l in s.queue &&
             (a.AcquireSlowQueue? ==> s.threads[a.t].target == c.numLevels)
    ensures var s' := Fire(c, s, a).value;
            l in s'.queue && QueueOk(s', l) && (l != c.numLevels ==> s'.queue[l] == [])
  {
    assert QueueOk(s, l);
    if a.AcquireSlowQueue? {
    } else if a.AcquireSlowWake? {
    }
  }

  lemma StepKeepsQueues(c: Lock.Config, s: State, a: Step)
    requires Inv(c, s) && Fire(c, s, a).Some?
    ensures QueuesOk(c, Fire(c, s, a).value)
  {
    if a.AcquireSlowQueue? {
      JoinsAtRoot(c, s, a);
    }
    var s' := Fire(c, s, a).value;
    assert s'.queue.Keys == s.queue.Keys;
    hide Fire, QueueOk;
    forall l | l in s'.queue
      ensures QueueOk(s', l) && (l != c.numLevels ==> s'.queue[l] == [])
    {
      StepKeepsQueue(c, s, a, l);
    }
  }

  lemma StepKeepsInv(c: Lock.Config)
    ensures Inductive(Fire, Inv, c)
  {
    forall s, a | Inv(c, s) && Fire(c, s, a).Some?
      ensures Inv(c, Fire(c, s, a).value)
    {
      StepRefines(c, s, a);
      StepKeepsQueues(c, s, a);
      if !a.AcquireSlowQueue? {
        AfterOne(Lock.Fire, c, Abstract(s), AbstractStep(a)[0]);
        Lock.StepInv(c, Abstract(s), AbstractStep(a)[0]);
      }
    }
  }

  lemma InitInv(c: Lock.Config)
    requires c.numLevels >= 1
    ensures Abstract(Init(c)) == Lock.Init(c) && Inv(c, Init(c))
  {
    assert Abstract(Init(c)).threads == Lock.Init(c).threads;
    Lock.InitInv(c);
  }

  lemma RunKeepsInv(c: Lock.Config, steps: seq<Step>)
    requires c.numLevels >= 1 && After(Fire, c, Init(c), steps).Some?
    ensures Inv(c, After(Fire, c, Init(c), steps).value)
  {
    InitInv(c);
    StepKeepsInv(c);
    RunKeeps(Fire, Inv, c, Init(c), steps);
  }

  /** Every run of the queued lock is, step by step, a run of the atomic lock. */
  lemma {:induction false} RunRefines(c: Lock.Config, steps: seq<Step>)
    requires c.numLevels >= 1 && After(Fire, c, Init(c), steps).Some?
    ensures After(Lock.Fire, c, Lock.Init(c), AbstractSteps(steps))
              == Some(Abstract(After(Fire, c, Init(c), steps).value))
    decreases |steps|
  {
    if steps == [] {
      InitInv(c);
    } else {
      var shorter, a := steps[..|steps| - 1], steps[|steps| - 1];
      RunRefines(c, shorter);
      RunKeepsInv(c, shorter);
      StepRefines(c, After(Fire, c, Init(c), shorter).value, a);
      AfterConcat(Lock.Fire, c, Lock.Init(c), AbstractSteps(shorter), AbstractStep(a));
    }
  }

  // ----- Queues are first come, first served -----

  /** The threads that joined level l's queue during a run, in order. */
  function Joined(c: Lock.Config, s: State, steps: seq<Step>, l: int): seq<int>
    decreases |steps|
  {
    if steps == [] then []
    else
      var shorter, a := steps[..|steps| - 1], steps[|steps| - 1];
      Joined(c, s, shorter, l) + if a.AcquireSlowQueue? && Aims(After(Fire, c, s, shorter), a.t, l) then [a.t] else []
  }

  /** The threads that level l was handed to from its queue during a run, in order. */
  function Woken(c: Lock.Config, s: State, steps: seq<Step>, l: int): seq<int>
    decreases |steps|
  {
    if steps == [] then []
    else
      var shorter, a := steps[..|steps| - 1], steps[|steps| - 1];
      Woken(c, s, shorter, l) + if a.AcquireSlowWake? && Aims(After(Fire, c, s, shorter), a.t, l) then [a.t] else []
  }

  predicate Aims(s: Option<State>, t: int, l: int) {
    s.Some? && t in s.value.threads && s.value.threads[t].target == l
  }

  lemma JoinEnd<T>(q: seq<T>, joined: seq<T>, woken: seq<T>, now: seq<T>, t: T)
    requires q + joined == woken + now
    ensures q + (joined + [t]) == woken + (now + [t])
  {
    assert q + (joined + [t]) == (q + joined) + [t];
    assert woken + (now + [t]) == (woken + now) + [t];
  }

  lemma TakeHead<T>(woken: seq<T>, now: seq<T>)
    requires now != []
    ensures woken + now == (woken + [now[0]]) + now[1..]
  {
  }

  /** Conservation: whoever was queued or joined has been served or is queued, and in
      that order. */
  lemma {:induction false} QueueIsFifo(c: Lock.Config, s: State, steps: seq<Step>, l: int)
    requires After(Fire, c, s, steps).Some? && l in s.queue
    ensures l in After(Fire, c, s, steps).value.queue
    ensures s.queue[l] + Joined(c, s, steps, l) == Woken(c, s, steps, l) + After(Fire, c, s, steps).value.queue[l]
    decreases |steps|
  {
    if steps != [] {
      var shorter, a := steps[..|steps| - 1], steps[|steps| - 1];
      QueueIsFifo(c, s, shorter, l);
      var q, joined, woken := s.queue[l], Joined(c, s, shorter, l), Woken(c, s, shorter, l);
      var now := After(Fire, c, s, shorter).value.queue[l];
      assert joined + [] == joined && woken + [] == woken;
      JoinEnd(q, joined, woken, now, a.t);
      if now != [] {
        TakeHead(woken, now);
      }
    }
  }

  /** A level with a queue goes to the head of the queue and to nobody else. */
  lemma NobodyOvertakes(c: Lock.Config, steps: seq<Step>, a: Step, l: int)
    requires c.numLevels >= 1 && After(Fire, c, Init(c), steps + [a]).Some? && After(Fire, c, Init(c), steps).Some?
    requires l in After(Fire, c, Init(c), steps).value.queue
    ensures var s, s' := After(Fire, c, Init(c), steps).value, After(Fire, c, Init(c), steps + [a]).value;
            && l in s.owner && l in s'.owner && l in s'.queue
            && (s.queue[l] != [] && s.owner[l] == 0 && s'.owner[l] != 0 ==>
                  s'.owner[l] == s.queue[l][0] && s'.queue[l] == s.queue[l][1..])
  {
    RunKeepsInv(c, steps);
    AfterConcat(Fire, c, Init(c), steps, [a]);
    AfterOne(Fire, c, After(Fire, c, Init(c), steps).value, a);
    RunKeepsInv(c, steps + [a]);
  }

  // ----- No deadlock, and a turn for every thread in the queue -----

  /** Whoever holds something can go on: it is never asleep. */
  lemma HolderCanStep(c: Lock.Config, s: State, h: int) returns (a: Step)
    requires Inv(c, s) && h in s.threads && s.owner[c.numLevels] == h
    ensures a.t == h && Fire(c, s, a).Some? && (a.AcquireFast? || a.Release?)
  {
    var x := s.threads[h];
    assert Lock.ThreadOk(c, Abstract(s).threads[h]) && c.numLevels in Abstract(s).threads[h].held;
    if x.pc == AcquireWrite {
      OnlyRootIsContended(c, s, h);
      a := AcquireFast(h);
    } else {
      a := Release(h);
    }
  }

  /** In every reachable state some thread can take a step. */
  lemma NeverStuck(c: Lock.Config, steps: seq<Step>)
    requires c.numLevels >= 1 && c.numThreads >= 1 && After(Fire, c, Init(c), steps).Some?
    ensures exists a :: Fire(c, After(Fire, c, Init(c), steps).value, a).Some?
  {
    RunKeepsInv(c, steps);
    var s := After(Fire, c, Init(c), steps).value;
    assert 1 in Abstract(s).threads && Lock.ThreadOk(c, Abstract(s).threads[1]);
    var h, root := s.owner[c.numLevels], c.numLevels;
    if h != 0 {
      var a := HolderCanStep(c, s, h);
    } else if s.queue[root] != [] {
      assert QueueOk(s, root);
      var a := AcquireSlowWake(s.queue[root][0]);
      assert Fire(c, s, a).Some?;
    } else {
      IdleOrTrying(c, s, 1);
      var a := if s.threads[1].pc == Idle then Start(1) else AcquireFast(1);
      assert Fire(c, s, a).Some?;
    }
  }

  /** With the root free and nobody queued, a thread is idle or about to take the root. */
  lemma IdleOrTrying(c: Lock.Config, s: State, t: int)
    requires Inv(c, s) && t in s.threads && s.owner[c.numLevels] == 0 && s.queue[c.numLevels] == []
    ensures var x := s.threads[t];
            x.held == {} && (x.pc == Idle || (x.pc == AcquireWrite && x.target == c.numLevels))
  {
    assert Lock.ThreadOk(c, Abstract(s).threads[t]);
    assert t in Abstract(s).threads && c.numLevels !in s.threads[t].held;
    assert Abstract(s).threads[t] == AbstractThread(s.threads[t]);
    if s.threads[t].held != {} {
      var k := Pick(s.threads[t].held);
    }
  }

  /** How far the holder of the root is from letting go of it. */
  function HolderRank(c: Lock.Config, s: State): int
    requires c.numLevels in s.owner
  {
    var h := s.owner[c.numLevels];
    if h !in s.threads then 0
    else 2 * (c.numLevels - s.threads[h].target + 1) + if s.threads[h].pc == AcquireWrite then 1 else 0
  }

  /** t waits in place p, and a step of another thread leaves it asleep in place p or p - 1. */
  ghost predicate InLine(c: Lock.Config, s: State, t: int, p: int) {
    && Inv(c, s) && c.numLevels in s.queue && 0 <= p < |s.queue[c.numLevels]| && s.queue[c.numLevels][p] == t
  }

  /** While the root is held its holder brings its release nearer, and the queue stands. */
  lemma HolderAdvances(c: Lock.Config, s: State, t: int, p: int) returns (a: Step)
    requires InLine(c, s, t, p) && s.owner[c.numLevels] != 0
    ensures a.t != t && Fire(c, s, a).Some? && InLine(c, Fire(c, s, a).value, t, p)
    ensures 0 <= HolderRank(c, Fire(c, s, a).value) < HolderRank(c, s)
  {
    var h := s.owner[c.numLevels];
    var abs := Abstract(s);
    assert h in abs.threads && Lock.ThreadOk(c, abs.threads[h]) && c.numLevels in abs.threads[h].held;
    assert QueueOk(s, c.numLevels) && Lock.ThreadOk(c, abs.threads[t]);
    a := HolderCanStep(c, s, h);
    StepKeepsInv(c);
    var s' := Fire(c, s, a).value;
    if a.Release? {
      Lock.ReleasedOk(c, abs.threads[h]);
    }
    assert h in Abstract(s').threads && Lock.ThreadOk(c, Abstract(s').threads[h]);
    assert 0 !in Abstract(s').threads;
  }

  /** Once the root is free the head of the queue takes it and everyone moves up. */
  lemma HeadTakesRoot(c: Lock.Config, s: State, t: int, p: int) returns (a: Step)
    requires InLine(c, s, t, p) && s.owner[c.numLevels] == 0 && p > 0
    ensures a.t != t && Fire(c, s, a).Some? && InLine(c, Fire(c, s, a).value, t, p - 1)
  {
    assert QueueOk(s, c.numLevels);
    a := AcquireSlowWake(s.queue[c.numLevels][0]);
    StepKeepsInv(c);
  }

  lemma HolderRankNat(c: Lock.Config, s: State)
    requires Inv(c, s)
    ensures HolderRank(c, s) >= 0
  {
    var h := s.owner[c.numLevels];
    if h in s.threads {
      assert Lock.ThreadOk(c, Abstract(s).threads[h]);
    }
  }

  lemma OthersMakeWay(c: Lock.Config, s: State, t: int, p: int) returns (steps: seq<Step>)
    requires InLine(c, s, t, p)
    ensures After(Fire, c, s, steps).Some? && forall a :: a in steps ==> a.t != t
    ensures InLine(c, After(Fire, c, s, steps).value, t, 0)
    ensures After(Fire, c, s, steps).value.owner[c.numLevels] == 0
    decreases p, HolderRank(c, s)
  {
    HolderRankNat(c, s);
    if s.owner[c.numLevels] == 0 && p == 0 {
      steps := [];
    } else {
      var a;
      if s.owner[c.numLevels] != 0 {
        a := HolderAdvances(c, s, t, p);
        steps := OthersMakeWay(c, Fire(c, s, a).value, t, p);
      } else {
        a := HeadTakesRoot(c, s, t, p);
        steps := OthersMakeWay(c, Fire(c, s, a).value, t, p - 1);
      }
      AfterOne(Fire, c, s, a);
      AfterConcat(Fire, c, s, [a], steps);
      steps := [a] + steps;
    }
  }

  /** No thread in the queue is stuck: from every reachable state the steps of others
      alone bring it to the head of a free lock. */
  lemma WaiterCanAcquire(c: Lock.Config, run: seq<Step>, t: int)
    requires c.numLevels >= 1 && After(Fire, c, Init(c), run).Some?
    requires var s := After(Fire, c, Init(c), run).value; t in s.threads && s.threads[t].pc == Waiting
    ensures var s := After(Fire, c, Init(c), run).value;
            exists steps: seq<Step> :: After(Fire, c, s, steps).Some? && (forall a :: a in steps ==> a.t != t)
                            && Fire(c, After(Fire, c, s, steps).value, AcquireSlowWake(t)).Some?
  {
    RunKeepsInv(c, run);
    var s := After(Fire, c, Init(c), run).value;
    var p :| 0 <= p < |s.queue[c.numLevels]| && s.queue[c.numLevels][p] == t;
    var steps := OthersMakeWay(c, s, t, p);
    HeadCanWake(c, After(Fire, c, s, steps).value, t);
  }

  lemma HeadCanWake(c: Lock.Config, s: State, t: int)
    requires InLine(c, s, t, 0) && s.owner[c.numLevels] == 0
    ensures Fire(c, s, AcquireSlowWake(t)).Some?
  {
    assert QueueOk(s, c.numLevels);
  }

  /** The order of locking, carried over from the atomic lock by the refinement. */
  lemma QueuedLockIsSafe(c: Lock.Config, steps: seq<Step>)
    requires c.numLevels >= 1 && After(Fire, c, Init(c), steps).Some?
    ensures var s := After(Fire, c, Init(c), steps).value;
            Lock.NoLockInversion(Abstract(s)) && Lock.OneHolder(Abstract(s)) && QueuesOk(c, s)
  {
    RunRefines(c, steps);
    Lock.LockIsSafe(c, AbstractSteps(steps));
    RunKeepsInv(c, steps);
  }
}
