/** Exactly when a trace that loses the start of a disable, or has it swapped with the
    start of the free, is still a trace of the life cycle: when the wait before it can
    have been the start of an unmount. */
module UnmountMutants {
  import opened Options
  import opened QgroupLifecycle
  import opened QgroupLanguage
  import opened QgroupSafety
  import opened QgroupRuns
  import opened MutantLaws
  import opened QgroupUnmount
  import opened UnmountReading

  /** Seen from event g to event e, t has the filesystem to itself: the other tasks are at
      rest, nobody but the worker shows an event, and the worker does not start later. */
  ghost predicate Alone(x: seq<Event>, t: Task, g: int, e: int)
    requires 0 <= g <= e <= |x|
  {
    && OthersRest(x[..g], t) && OnlyWithWorker(x, t, g, e)
    && forall k :: e < k < |x| ==> x[k].action != RescanWorker_Enter
  }

  /** The disable of i frees from j on, until e, and t shows nothing more. */
  ghost predicate FreesLast(x: seq<Event>, t: Task, i: int, j: int, e: int) {
    && NextSame(x, i, j) && x[j] == Event(t, FreeQgroupConfig_Enter) && FreesUntil(x, t, j, e)
    && forall k :: e < k < |x| ==> x[k].task != t
  }

  // ----- What is left reads as an unmount: then t was alone -----

  lemma DroppedShape(x: seq<Event>, t: Task, g: int, h: int, i: int, j: int, e: int)
    requires WaitsThenDisables(x, t, g, h, i) && FreesLast(x, t, i, j, e)
    ensures WaitsThenFrees(Dropped(x, i), t, g, h, j - 1) && FreesUntil(Dropped(x, i), t, j - 1, e - 1)
  {
    var y := Dropped(x, i);
    assert forall k :: 0 <= k < i ==> y[k] == x[k];
    assert forall k :: i <= k < |y| ==> y[k] == x[k + 1];
  }

  lemma DropNeedsAlone(c: Config, c': Config, x: seq<Event>, t: Task, g: int, h: int, i: int, j: int, e: int)
    requires WaitsThenDisables(x, t, g, h, i) && FreesLast(x, t, i, j, e)
    requires Accepted(c, x) && Accepted(c', Dropped(x, i))
    ensures Alone(x, t, g, e)
  {
    var y := Dropped(x, i);
    DroppedShape(x, t, g, h, i, j, e);
    hide Accepted, OthersRest, WaitsThenFrees, FreesUntil;
    UnmountIsAlone(c', y, t, g, h, j - 1, e - 1);
    assert y[..g] == x[..g];
    DroppedAlone(x, t, g, i, e);
    hide OnlyWithWorker, Dropped;
    forall k | e < k < |x|
      ensures x[k].action != RescanWorker_Enter
    {
      NoLateStart(c, c', x, t, g, h, i, j, e, k);
    }
  }

  lemma DroppedAlone(x: seq<Event>, t: Task, g: int, i: int, e: int)
    requires 0 <= g < i < e <= |x| && x[i].task == t && OnlyWithWorker(Dropped(x, i), t, g, e - 1)
    ensures OnlyWithWorker(x, t, g, e)
  {
    var y := Dropped(x, i);
    forall k | g < k < e
      ensures x[k].task == t || x[k].task == Worker
    {
      assert k != i ==> x[k] == y[if k < i then k else k - 1];
    }
  }

  lemma NoLateStart(c: Config, c': Config, x: seq<Event>, t: Task, g: int, h: int, i: int, j: int, e: int, k: int)
    requires WaitsThenDisables(x, t, g, h, i) && FreesLast(x, t, i, j, e) && e < k < |x|
    requires Accepted(c, x) && Accepted(c', Dropped(x, i))
    ensures x[k].action != RescanWorker_Enter
  {
    var y := Dropped(x, i);
    DroppedShape(x, t, g, h, i, j, e);
    hide Accepted;
    if x[k].action == RescanWorker_Enter {
      assert y[k - 1] == x[k];
      WorkComesFromEnable(c', y, t, g, h, j - 1, e - 1, k - 1);
      var l :| e - 1 < l < k - 1 && y[l].action == QuotaEnable_Enter;
      assert y[l] == x[l + 1];
      DisableHoldsOffEnable(c, x, t, i, l + 1);
    }
  }

  // ----- If t was alone, what is left reads as an unmount -----

  lemma {:induction false} RereadNone(t: Task, early: bool, x: seq<Event>)
    requires Event(t, QuotaDisable_Enter) !in x
    ensures Reread(t, early, x) == x
    decreases |x|
  {
    if x != [] {
      RereadNone(t, early, x[..|x| - 1]);
      assert x == x[..|x| - 1] + [x[|x| - 1]];
    }
  }

  lemma {:induction false} RereadTail(t: Task, early: bool, x: seq<Event>, y: seq<Event>)
    requires Event(t, QuotaDisable_Enter) !in y
    ensures Reread(t, early, x + y) == Reread(t, early, x) + y
    decreases |y|
  {
    if y == [] {
      assert x + y == x;
    } else {
      var shorter, e := y[..|y| - 1], y[|y| - 1];
      RereadTail(t, early, x, shorter);
      assert (x + y)[..|x + y| - 1] == x + shorter;
      assert y == shorter + [e];
    }
  }

  /** With a single start of a disable, at p: it goes, or begins the free. */
  lemma RereadSingle(t: Task, early: bool, x: seq<Event>, p: nat)
    requires p < |x| && x[p] == Event(t, QuotaDisable_Enter)
    requires forall k :: 0 <= k < |x| && k != p ==> x[k] != Event(t, QuotaDisable_Enter)
    ensures Reread(t, early, x) == x[..p] + (if early then [Event(t, FreeQgroupConfig_Enter)] else []) + x[p + 1..]
  {
    RereadNone(t, early, x[..p]);
    RereadOne(t, early, x[p]);
    RereadConcat(t, early, x[..p], [x[p]]);
    RereadTail(t, early, x[..p] + [x[p]], x[p + 1..]);
    assert x == (x[..p] + [x[p]]) + x[p + 1..];
  }

  lemma StretchAllowed(x: seq<Event>, t: Task, g: int, h: int, i: int, j: int, e: int)
    requires WaitsThenDisables(x, t, g, h, i) && FreesLast(x, t, i, j, e) && OnlyWithWorker(x, t, g, e)
    ensures forall a :: a in x[g + 1..e] ==> Allowed(t, false, a)
    ensures Reread(t, false, x[g + 1..e]) == x[g + 1..i] + x[i + 1..e]
  {
    var w := x[g + 1..e];
    forall k | 0 <= k < |w|
      ensures Allowed(t, false, w[k]) && (k != i - g - 1 ==> w[k] != Event(t, QuotaDisable_Enter))
    {
      assert w[k] == x[g + 1 + k];
    }
    RereadSingle(t, false, w, i - g - 1);
    assert w[..i - g - 1] == x[g + 1..i] && w[i - g - 1 + 1..] == x[i + 1..e];
  }

  lemma AloneReads(c: Config, x: seq<Event>, t: Task, g: int, h: int, i: int, j: int, e: int)
    requires Accepted(c, x) && WaitsThenDisables(x, t, g, h, i) && FreesLast(x, t, i, j, e)
    requires Alone(x, t, g, e)
    ensures Accepted(c, Dropped(x, i))
  {
    var steps :| RunProjectsTo(c, steps, x);
    var s' := After(c, Init(c), steps).value;
    hide OthersRest, WaitsThenDisables, FreesLast, Reading, Fire, Locks;
    var read, m, d, z := BeginReading(c, steps, x, s', t, g, h, i);
    StretchAllowed(x, t, g, h, i, j, e);
    if e == |x| {
      assert x[g + 1..] == x[g + 1..e];
      var more, d' := ReadPath(c, m, d, t, false, z, x[g + 1..], s');
      PathConcat(c, Init(c), read, x[..g] + [x[g]], d, more, Reread(t, false, x[g + 1..]), d');
      DroppedWhole(x, g, i);
      PathAccepted(c, read + more, Dropped(x, i), d');
    } else {
      AloneReadsOn(c, x, t, g, h, i, j, e, read, m, d, z, s');
    }
  }

  lemma PathAccepted(c: Config, steps: seq<Step>, y: seq<Event>, s': State)
    requires Path(c, Init(c), steps, y, s')
    ensures Accepted(c, y)
  {
    assert RunProjectsTo(c, steps, y);
  }

  lemma DroppedWhole<T>(x: seq<T>, g: int, i: int)
    requires 0 <= g < i < |x|
    ensures (x[..g] + [x[g]]) + (x[g + 1..i] + x[i + 1..|x|]) == Dropped(x, i)
  {
  }

  lemma DroppedParts<T>(x: seq<T>, g: int, i: int, e: int)
    requires 0 <= g < i < e < |x|
    ensures ((x[..g] + [x[g]]) + ((x[g + 1..i] + x[i + 1..e]) + [x[e]])) + x[e + 1..] == Dropped(x, i)
  {
  }

  lemma {:induction false} PathKeepsLocksFrom(c: Config, s: State, steps: seq<Step>, trace: seq<Event>, s': State)
    requires Locks(c, s) && Path(c, s, steps, trace, s')
    ensures Locks(c, s')
    decreases |steps|
  {
    if steps != [] {
      var shorter, before, m, a := PathLast(c, s, steps, trace, s');
      hide Locks, Fire, Label, Effect;
      PathKeepsLocksFrom(c, s, shorter, before, m);
      StepKeepsLocks(c, m, a, s');
    }
  }

  /** The stretch up to the end of the free, and the step that ends it. */
  lemma SplitAtFree(c: Config, x: seq<Event>, g: nat, e: nat, m: State, z: seq<Step>, s': State)
    returns (z1: seq<Step>, n: State, b: Step, n': State, rest: seq<Step>)
    requires g < e < |x| && Path(c, m, z, x[g + 1..], s') && Locks(c, m)
    ensures Path(c, m, z1, x[g + 1..e], n) && Fire(c, n, b) == Some(n') && Events(b) == [x[e]]
    ensures Path(c, n', rest, x[e + 1..], s') && Locks(c, n)
  {
    hide Path, Fire, Locks, Events;
    z1, n, b, n', rest := SplitAtEvent(c, m, z, x[g + 1..], s', e - g - 1);
    CutSlices(x, g, e);
    PathKeepsLocksFrom(c, m, z1, x[g + 1..e], n);
  }

  lemma ReadLast(c: Config, d: State, more: seq<Step>, u: seq<Event>, dn: State, t: Task, d': State)
    requires Path(c, d, more, u, dn) && FireUnmount(c, dn, t, M_FreeDone) == Some(d')
    ensures Path(c, d, more + [Unmount(t, M_FreeDone)], u + [Event(t, FreeQgroupConfig_Done)], d')
  {
    hide FireUnmount;
    PathExtend(c, d, more, u, dn, Unmount(t, M_FreeDone), d');
  }

  /** The free ends: the first run goes on inside the disable, the other unmounted. */
  lemma ReadToFree(c: Config, x: seq<Event>, t: Task, g: int, h: int, i: int, j: int, e: int, m: State, d: State,
                   z: seq<Step>, s': State)
    returns (more: seq<Step>, n': State, d': State, rest: seq<Step>)
    requires WaitsThenDisables(x, t, g, h, i) && FreesLast(x, t, i, j, e) && OnlyWithWorker(x, t, g, e) && e < |x|
    requires Path(c, m, z, x[g + 1..], s') && Locks(c, m) && IsUser(c, t) && Reading(m, d, t, false)
    ensures Path(c, d, more, (x[g + 1..i] + x[i + 1..e]) + [x[e]], d')
    ensures Later(c, n', d', t) && Path(c, n', rest, x[e + 1..], s')
  {
    StretchAllowed(x, t, g, h, i, j, e);
    assert x[e] == Event(t, FreeQgroupConfig_Done);
    hide WaitsThenDisables, FreesLast, OnlyWithWorker, Reading, Fire, FireUnmount, Locks, Events, Later, Reread,
         Allowed, Path;
    var z1, n, b;
    z1, n, b, n', rest := SplitAtFree(c, x, g, e, m, z, s');
    var dn;
    more, dn := ReadPath(c, m, d, t, false, z1, x[g + 1..e], n);
    d' := FreeEnds(c, n, dn, t, b, n');
    ReadLast(c, d, more, Reread(t, false, x[g + 1..e]), dn, t, d');
    more := more + [Unmount(t, M_FreeDone)];
  }

  lemma AloneReadsOn(c: Config, x: seq<Event>, t: Task, g: int, h: int, i: int, j: int, e: int,
                     read: seq<Step>, m: State, d: State, z: seq<Step>, s': State)
    requires WaitsThenDisables(x, t, g, h, i) && FreesLast(x, t, i, j, e) && e < |x| && Alone(x, t, g, e)
    requires Path(c, Init(c), read, x[..g] + [x[g]], d) && Path(c, m, z, x[g + 1..], s') && Locks(c, m)
    requires IsUser(c, t) && Reading(m, d, t, false)
    ensures Accepted(c, Dropped(x, i))
  {
    AfterFree(x, t, g, i, j, e);
    DroppedParts(x, g, i, e);
    hide OthersRest, WaitsThenDisables, FreesLast, Reading, Fire, Locks, Later, Path, Unrelated, Dropped;
    var more, n', d', rest := ReadToFree(c, x, t, g, h, i, j, e, m, d, z, s');
    var later, d2 := LaterPath(c, n', d', t, rest, x[e + 1..], s');
    var u, v := x[..g] + [x[g]], (x[g + 1..i] + x[i + 1..e]) + [x[e]];
    PathConcat(c, Init(c), read, u, d, more, v, d');
    PathConcat(c, Init(c), read + more, u + v, d', later, x[e + 1..], d2);
    PathAccepted(c, (read + more) + later, Dropped(x, i), d2);
  }

  lemma AfterFree(x: seq<Event>, t: Task, g: int, i: int, j: int, e: int)
    requires FreesLast(x, t, i, j, e) && 0 <= g < i && e < |x|
    requires Alone(x, t, g, e)
    ensures x[e] == Event(t, FreeQgroupConfig_Done) && forall a :: a in x[e + 1..] ==> Unrelated(t, a)
  {
  }

  // ----- The swapped pair, cut before its second event -----

  /** t begins to disable at i and to free at j, and is alone from its wait at g up to k. */
  ghost predicate AloneUntil(x: seq<Event>, t: Task, g: int, k: int)
    requires 0 <= g <= k <= |x|
  {
    OthersRest(x[..g], t) && OnlyWithWorker(x, t, g, k)
  }

  lemma SwappedShape(x: seq<Event>, t: Task, g: int, h: int, i: int, j: int, k: int)
    requires WaitsThenDisables(x, t, g, h, i) && NextSame(x, i, j) && x[j] == Event(t, FreeQgroupConfig_Enter)
    requires i < k <= j
    ensures var y := Swapped(x, i, j)[..k];
            WaitsThenFrees(y, t, g, h, i) && FreesUntil(y, t, i, k) && |y| == k
            && y == x[..i] + [Event(t, FreeQgroupConfig_Enter)] + x[i + 1..k]
  {
    var y := Swapped(x, i, j)[..k];
    assert forall l :: 0 <= l < k && l != i ==> y[l] == x[l];
  }

  lemma SwapNeedsAlone(c: Config, x: seq<Event>, t: Task, g: int, h: int, i: int, j: int, k: int)
    requires WaitsThenDisables(x, t, g, h, i) && NextSame(x, i, j) && x[j] == Event(t, FreeQgroupConfig_Enter)
    requires i < k <= j && Accepted(c, Swapped(x, i, j)[..k])
    ensures AloneUntil(x, t, g, k) && k <= i + 4
  {
    var y := Swapped(x, i, j)[..k];
    SwappedShape(x, t, g, h, i, j, k);
    hide Accepted, OthersRest, WaitsThenFrees, FreesUntil;
    UnmountIsAlone(c, y, t, g, h, i, k);
    OpenUnmountIsShort(c, y, t, g, h, i);
    assert y[..g] == x[..g];
    forall l | g < l < k
      ensures x[l].task == t || x[l].task == Worker
    {
      assert l != i ==> x[l] == y[l];
    }
  }

  lemma EarlyAllowed(x: seq<Event>, t: Task, g: int, h: int, i: int, j: int, k: int)
    requires WaitsThenDisables(x, t, g, h, i) && NextSame(x, i, j) && i < k <= j && OnlyWithWorker(x, t, g, k)
    ensures forall a :: a in x[g + 1..k] ==> Allowed(t, true, a)
    ensures Reread(t, true, x[g + 1..k]) == x[g + 1..i] + [Event(t, FreeQgroupConfig_Enter)] + x[i + 1..k]
  {
    var w := x[g + 1..k];
    forall l | 0 <= l < |w|
      ensures Allowed(t, true, w[l]) && (l != i - g - 1 ==> w[l] != Event(t, QuotaDisable_Enter))
    {
      assert w[l] == x[g + 1 + l];
    }
    RereadSingle(t, true, w, i - g - 1);
    assert w[..i - g - 1] == x[g + 1..i] && w[i - g - 1 + 1..] == x[i + 1..k];
  }

  lemma ShownPrefix(x: seq<Event>, t: Task, g: int, h: int, i: int, k: int)
    requires WaitsThenDisables(x, t, g, h, i) && i < k <= |x|
    ensures WaitsThenDisables(x[..k], t, g, h, i) && x[..k][..g] == x[..g] && x[..k][g] == x[g]
    ensures x[..k][g + 1..] == x[g + 1..k]
  {
  }

  lemma SwapParts<T>(x: seq<T>, g: int, i: int, k: int, a: T)
    requires 0 <= g < i < k <= |x|
    ensures (x[..g] + [x[g]]) + (x[g + 1..i] + [a] + x[i + 1..k]) == x[..i] + [a] + x[i + 1..k]
  {
  }

  lemma AloneSwapReads(c: Config, x: seq<Event>, t: Task, g: int, h: int, i: int, j: int, k: int)
    requires WaitsThenDisables(x, t, g, h, i) && NextSame(x, i, j) && x[j] == Event(t, FreeQgroupConfig_Enter)
    requires i < k <= j && Accepted(c, x) && AloneUntil(x, t, g, k)
    ensures Accepted(c, Swapped(x, i, j)[..k])
  {
    var all :| RunProjectsTo(c, all, x);
    AcceptedPrefix(c, all, x, k);
    var steps :| RunProjectsTo(c, steps, x[..k]);
    var s' := After(c, Init(c), steps).value;
    ShownPrefix(x, t, g, h, i, k);
    EarlyAllowed(x, t, g, h, i, j, k);
    SwappedShape(x, t, g, h, i, j, k);
    SwapParts(x, g, i, k, Event(t, FreeQgroupConfig_Enter));
    hide OthersRest, WaitsThenDisables, NextSame, Reading, Fire, Locks, Swapped, Allowed, Reread;
    var read, m, d, z := BeginReading(c, steps, x[..k], s', t, g, h, i);
    var more, d' := ReadPath(c, m, d, t, true, z, x[g + 1..k], s');
    PathConcat(c, Init(c), read, x[..g] + [x[g]], d, more, Reread(t, true, x[g + 1..k]), d');
    PathAccepted(c, read + more, Swapped(x, i, j)[..k], d');
  }

  // ----- For each dropped or swapped event of an accepted trace -----

  /** What is left after the dropped start of a disable reads as an unmount. */
  ghost predicate PassesForUnmount(x: seq<Event>, i: int)
    requires 0 <= i < |x|
  {
    exists g, h, j, e ::
      WaitsThenDisables(x, x[i].task, g, h, i) && FreesLast(x, x[i].task, i, j, e) && Alone(x, x[i].task, g, e)
  }

  /** So does what the cut at k shows of the swapped pair. */
  ghost predicate CutPassesForUnmount(x: seq<Event>, i: int, j: int, k: int)
    requires 0 <= i < j < |x|
  {
    && i < k <= j && x[j].action == FreeQgroupConfig_Enter
    && exists g, h :: WaitsThenDisables(x, x[i].task, g, h, i) && AloneUntil(x, x[i].task, g, k)
  }

  /** The next event of t, found in its word. */
  lemma {:induction false} NextInWord(y: seq<Event>, t: Task) returns (p: nat)
    requires Word(y, t) != []
    ensures p < |y| && y[p] == Event(t, Word(y, t)[0]) && (forall k :: 0 <= k < p ==> y[k].task != t)
    ensures Word(y[p + 1..], t) == Word(y, t)[1..]
    decreases |y|
  {
    if y[0].task == t {
      p := 0;
    } else {
      p := NextInWord(y[1..], t);
      assert y[1..][p + 1..] == y[p + 2..];
      p := p + 1;
    }
  }

  lemma EmptyWord(y: seq<Event>, t: Task)
    requires Word(y, t) == []
    ensures forall k :: 0 <= k < |y| ==> y[k].task != t
  {
    forall k | 0 <= k < |y|
      ensures y[k].task != t
    {
      if y[k].task == t {
        WordHas(y, k, t);
      }
    }
  }

  /** The next event of t after i, and the rest of its word. */
  lemma NextAfter(x: seq<Event>, i: nat, t: Task) returns (j: nat)
    requires i < |x| && x[i].task == t && Word(x[i + 1..], t) != []
    ensures NextSame(x, i, j) && x[j] == Event(t, Word(x[i + 1..], t)[0])
    ensures Word(x[j + 1..], t) == Word(x[i + 1..], t)[1..]
  {
    var rest := x[i + 1..];
    var p := NextInWord(rest, t);
    j := i + 1 + p;
    assert rest[p + 1..] == x[j + 1..];
    assert forall k :: i < k <= j ==> x[k] == rest[k - i - 1];
  }

  lemma NoneAfter(x: seq<Event>, i: nat, t: Task)
    requires i < |x| && Word(x[i + 1..], t) == []
    ensures forall k :: i < k < |x| ==> x[k].task != t
  {
    EmptyWord(x[i + 1..], t);
    assert forall k :: i < k < |x| ==> x[k] == x[i + 1..][k - i - 1];
  }

  /** A surviving word is a wait, a disable and its free. */
  lemma SurvivorShape(x: seq<Event>, i: nat) returns (g: nat, h: nat, j: nat, e: nat)
    requires i < |x|
    requires SurvivesDrop(PhaseOf(x[..i], x[i].task), x[i].action, Word(x[i + 1..], x[i].task))
    ensures WaitsThenDisables(x, x[i].task, g, h, i) && FreesLast(x, x[i].task, i, j, e)
  {
    hide PhaseOf, Word;
    var t := x[i].task;
    g, h := WaitPhase(x, i);
    j := NextAfter(x, i, t);
    if Word(x[j + 1..], t) == [] {
      NoneAfter(x, j, t);
      e := |x|;
    } else {
      e := NextAfter(x, j, t);
      NoneAfter(x, e, t);
    }
  }

  /** The exact condition: without event i the trace is accepted, by the same task set or
      by any, if and only if i starts a disable that can pass for an unmount. */
  lemma DroppedIsAcceptedIff(c: Config, x: seq<Event>, i: nat, j: nat)
    requires Accepted(c, x) && NextSame(x, i, j) && IsEnter(x[i].action)
    ensures Accepted(c, Dropped(x, i)) <==> PassesForUnmount(x, i)
    ensures Rejected(Dropped(x, i)) <==> !PassesForUnmount(x, i)
  {
    var t := x[i].task;
    if PassesForUnmount(x, i) {
      var g, h, l, e :| WaitsThenDisables(x, t, g, h, i) && FreesLast(x, t, i, l, e) && Alone(x, t, g, e);
      AloneReads(c, x, t, g, h, i, l, e);
    } else {
      forall c' ensures !Accepted(c', Dropped(x, i)) {
        if Accepted(c', Dropped(x, i)) {
          DroppedPasses(c, c', x, i, j);
        }
      }
    }
  }

  lemma DroppedPasses(c: Config, c': Config, x: seq<Event>, i: nat, j: nat)
    requires Accepted(c, x) && NextSame(x, i, j) && IsEnter(x[i].action) && Accepted(c', Dropped(x, i))
    ensures PassesForUnmount(x, i)
  {
    AcceptedIsAlive(c, x, x[i].task);
    AcceptedIsAlive(c', Dropped(x, i), x[i].task);
    DroppedPhases(x, i, j);
    hide Accepted, SurvivesDrop, PhaseOf, WaitsThenDisables, FreesLast, Alone;
    var g, h, l, e := SurvivorShape(x, i);
    DropNeedsAlone(c, c', x, x[i].task, g, h, i, l, e);
  }

  /** The exact condition for what a cut at k shows of the trace with i and j swapped; four
      events past i it never holds. */
  lemma CutSwappedIsAcceptedIff(c: Config, x: seq<Event>, i: nat, j: nat, k: nat)
    requires Accepted(c, x) && NextSame(x, i, j) && i < k <= |x|
    ensures Accepted(c, Swapped(x, i, j)[..k]) <==> CutPassesForUnmount(x, i, j, k)
    ensures Rejected(Swapped(x, i, j)[..k]) <==> !CutPassesForUnmount(x, i, j, k)
    ensures k > i + 4 ==> Rejected(Swapped(x, i, j)[..k])
  {
    var t, y := x[i].task, Swapped(x, i, j)[..k];
    if CutPassesForUnmount(x, i, j, k) {
      var g, h :| WaitsThenDisables(x, t, g, h, i) && AloneUntil(x, t, g, k);
      AloneSwapReads(c, x, t, g, h, i, j, k);
      SwapNeedsAlone(c, x, t, g, h, i, j, k);
    } else {
      forall c' ensures !Accepted(c', y) {
        if Accepted(c', y) {
          CutSwapPasses(c, c', x, i, j, k);
        }
      }
    }
  }

  lemma CutSwapPasses(c: Config, c': Config, x: seq<Event>, i: nat, j: nat, k: nat)
    requires Accepted(c, x) && NextSame(x, i, j) && i < k <= |x| && Accepted(c', Swapped(x, i, j)[..k])
    ensures CutPassesForUnmount(x, i, j, k)
  {
    AcceptedIsAlive(c, x, x[i].task);
    if !ReadsAsUnmount(PhaseOf(x[..i], x[i].task), x[i].action, x[j].action) || j < k {
      CutSwapped(x, i, j, k);
      assert false;
    }
    hide Accepted, PhaseOf;
    var g, h := WaitPhase(x, i);
    SwapNeedsAlone(c', x, x[i].task, g, h, i, j, k);
  }
}
