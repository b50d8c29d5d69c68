/** Why the four trace mutations yield traces no run of the life cycle shows:
    program order within a task for three of them, queue-before-worker for the fourth. */
module MutantLaws {
  import opened QgroupLifecycle
  import opened QgroupLanguage
  import opened QgroupCausality

  predicate IsEnter(a: Action) {
    || a == QuotaEnable_Enter || a == QuotaDisable_Enter || a == QgroupRescan_Enter
    || a == RescanZeroTracking_Enter || a == WaitRescanCompletion_Enter
    || a == FreeQgroupConfig_Enter || a == RescanWorker_Enter
  }

  predicate IsDone(a: Action) { !IsEnter(a) }

  /** No task set and neither kernel variant explains the trace. */
  ghost predicate Rejected(trace: seq<Event>) { forall c :: !Accepted(c, trace) }

  /** j is the next event of i's task. */
  ghost predicate NextSame(trace: seq<Event>, i: int, j: int) {
    && 0 <= i < j < |trace| && trace[i].task == trace[j].task
    && forall k :: i < k < j ==> trace[k].task != trace[i].task
  }

  // ----- The four mutations -----

  function Swapped<T>(s: seq<T>, i: int, j: int): seq<T>
    requires 0 <= i < j < |s|
  {
    s[i := s[j]][j := s[i]]
  }

  function Dropped<T>(s: seq<T>, i: int): seq<T>
    requires 0 <= i < |s|
  {
    s[..i] + s[i + 1..]
  }

  function Duplicated<T>(s: seq<T>, i: int): seq<T>
    requires 0 <= i < |s|
  {
    s[..i + 1] + [s[i]] + s[i + 1..]
  }

  /** Element w moved to before position dest. */
  function Moved<T>(s: seq<T>, w: int, dest: int): seq<T>
    requires 0 <= dest <= w < |s|
  {
    s[..dest] + [s[w]] + s[dest..w] + s[w + 1..]
  }

  // ----- Reading traces one event at a time -----

  lemma PhaseStep(x: seq<Event>, e: Event, t: Task)
    ensures PhaseOf(x + [e], t) == if e.task == t then Delta(PhaseOf(x, t), e.action) else PhaseOf(x, t)
  {
    PhaseConcat(x, [e], t);
    assert [e][1..] == [];
    assert Word([e], t) == if e.task == t then [e.action] else [];
  }

  lemma {:induction false} PhaseOverOthers(x: seq<Event>, y: seq<Event>, t: Task)
    requires forall k :: 0 <= k < |y| ==> y[k].task != t
    ensures PhaseOf(x + y, t) == PhaseOf(x, t)
    decreases |y|
  {
    if y == [] {
      assert x + y == x;
    } else {
      var shorter, e := y[..|y| - 1], y[|y| - 1];
      PhaseOverOthers(x, shorter, t);
      PhaseStep(x + shorter, e, t);
      assert x + y == x + shorter + [e];
    }
  }

  lemma DeadPrefix(x: seq<Event>, y: seq<Event>, t: Task)
    requires PhaseOf(x, t) == Dead
    ensures PhaseOf(x + y, t) == Dead
  {
    PhaseConcat(x, y, t);
    DeadStaysDead(Word(y, t));
  }

  lemma AlivePrefix(trace: seq<Event>, k: nat, t: Task)
    requires k <= |trace| && PhaseOf(trace, t) != Dead
    ensures PhaseOf(trace[..k], t) != Dead
  {
    assert trace == trace[..k] + trace[k..];
    if PhaseOf(trace[..k], t) == Dead {
      DeadPrefix(trace[..k], trace[k..], t);
    }
  }

  lemma DeadIsRejected(trace: seq<Event>, t: Task)
    requires PhaseOf(trace, t) == Dead
    ensures Rejected(trace)
  {
    forall c ensures !Accepted(c, trace) {
      if Accepted(c, trace) {
        AcceptedIsAlive(c, trace, t);
      }
    }
  }

  /** The phases around a pair of consecutive events of one task. */
  lemma PairPhases(trace: seq<Event>, i: nat, j: nat)
    requires NextSame(trace, i, j)
    ensures var t, q := trace[i].task, PhaseOf(trace[..i], trace[i].task);
            && PhaseOf(trace[..i + 1], t) == Delta(q, trace[i].action)
            && PhaseOf(trace[..j], t) == Delta(q, trace[i].action)
            && PhaseOf(trace[..j + 1], t) == Delta(Delta(q, trace[i].action), trace[j].action)
  {
    var t := trace[i].task;
    assert trace[..i + 1] == trace[..i] + [trace[i]];
    PhaseStep(trace[..i], trace[i], t);
    assert trace[..j] == trace[..i + 1] + trace[i + 1..j];
    PhaseOverOthers(trace[..i + 1], trace[i + 1..j], t);
    assert trace[..j + 1] == trace[..j] + [trace[j]];
    PhaseStep(trace[..j], trace[j], t);
  }

  // ----- Swap -----

  /** The one place where two events read either way round for a moment: after a
      finished wait, the free of a disable can be taken for the free of an unmount. */
  predicate ReadsAsUnmount(q: Phase, a: Action, b: Action) {
    q == QuietOrUnmount && a == QuotaDisable_Enter && b == FreeQgroupConfig_Enter
  }

  /** Between two operations only the start of one, or of an unmount's free, can come. */
  lemma StartsAtRest(q: Phase, a: Action)
    requires (q == Quiet || q == QuietOrUnmount) && Delta(q, a) != Dead
    ensures Delta(q, a) == Enabling || Delta(q, a) == Disabling || Delta(q, a) == Rescanning || Delta(q, a) == Waiting
            || Delta(q, a) == UnmountFreeing
    ensures IsEnter(a)
  {
  }

  lemma SwapDiesAtRest(q: Phase, a: Action, b: Action)
    requires (q == Quiet || q == QuietOrUnmount) && Delta(Delta(q, a), b) != Dead
    ensures Delta(Delta(q, b), a) == Dead
  {
    if Delta(q, b) != Dead {
      StartsAtRest(q, a);
      StartsAtRest(q, b);
    }
  }

  lemma SwapDies(q: Phase, a: Action, b: Action)
    requires Delta(Delta(q, a), b) != Dead
    ensures Delta(Delta(q, b), a) == Dead
  {
    if q == Quiet || q == QuietOrUnmount {
      SwapDiesAtRest(q, a, b);
    } else {
      hide Begin;
      match q
      case Quiet =>
      case QuietOrUnmount =>
      case Enabling =>
      case EnableZeroing =>
      case EnableZeroed =>
      case Disabling =>
      case DisableFreeing =>
      case DisableFreed =>
      case Rescanning =>
      case RescanZeroing =>
      case RescanZeroed =>
      case Waiting =>
      case UnmountFreeing =>
      case WorkerIdle =>
      case WorkerBusy =>
      case Dead =>
    }
  }

  lemma SwapLivesAtRest(q: Phase, a: Action, b: Action)
    requires (q == Quiet || q == QuietOrUnmount) && Delta(Delta(q, a), b) != Dead
    ensures Delta(q, b) != Dead <==> ReadsAsUnmount(q, a, b)
  {
    if Delta(q, b) != Dead {
      StartsAtRest(q, b);
    }
  }

  lemma SwapLives(q: Phase, a: Action, b: Action)
    requires Delta(Delta(q, a), b) != Dead
    ensures Delta(q, b) != Dead <==> ReadsAsUnmount(q, a, b)
  {
    if q == Quiet || q == QuietOrUnmount {
      SwapLivesAtRest(q, a, b);
    } else {
      hide Begin;
      match q
      case Quiet =>
      case QuietOrUnmount =>
      case Enabling =>
      case EnableZeroing =>
      case EnableZeroed =>
      case Disabling =>
      case DisableFreeing =>
      case DisableFreed =>
      case Rescanning =>
      case RescanZeroing =>
      case RescanZeroed =>
      case Waiting =>
      case UnmountFreeing =>
      case WorkerIdle =>
      case WorkerBusy =>
      case Dead =>
    }
  }

  /** A trace with two consecutive events of one task swapped is dead after the second,
      and already after the first except where it reads as an unmount. */
  lemma SwappedPhases(trace: seq<Event>, i: nat, j: nat)
    requires NextSame(trace, i, j) && PhaseOf(trace, trace[i].task) != Dead
    ensures var t, m := trace[i].task, Swapped(trace, i, j);
            && PhaseOf(m[..j + 1], t) == Dead
            && (PhaseOf(m[..i + 1], t) != Dead <==>
                  ReadsAsUnmount(PhaseOf(trace[..i], t), trace[i].action, trace[j].action))
  {
    var t, m := trace[i].task, Swapped(trace, i, j);
    PairPhases(trace, i, j);
    AlivePrefix(trace, j + 1, t);
    SwapDies(PhaseOf(trace[..i], t), trace[i].action, trace[j].action);
    SwapLives(PhaseOf(trace[..i], t), trace[i].action, trace[j].action);
    assert m[..i] == trace[..i];
    assert NextSame(m, i, j);
    PairPhases(m, i, j);
  }

  lemma CutIsDead(m: seq<Event>, from: nat, k: nat, t: Task)
    requires from <= k <= |m| && PhaseOf(m[..from], t) == Dead
    ensures Rejected(m[..k])
  {
    assert m[..k] == m[..from] + m[from..k];
    DeadPrefix(m[..from], m[from..k], t);
    DeadIsRejected(m[..k], t);
  }

  /** A cut of the swapped trace that keeps the pair, or its first event unless that reads
      as the start of an unmount. */
  lemma CutSwapped(trace: seq<Event>, i: int, j: int, k: int)
    requires NextSame(trace, i, j) && PhaseOf(trace, trace[i].task) != Dead && i < k <= |trace|
    requires ReadsAsUnmount(PhaseOf(trace[..i], trace[i].task), trace[i].action, trace[j].action) ==> j < k
    ensures Rejected(Swapped(trace, i, j)[..k])
  {
    SwappedPhases(trace, i, j);
    hide PhaseOf, ReadsAsUnmount, Rejected;
    CutIsDead(Swapped(trace, i, j), if j < k then j + 1 else i + 1, k, trace[i].task);
  }

  // ----- Duplicate -----

  lemma DuplicateDies(q: Phase, a: Action)
    requires IsDone(a)
    ensures Delta(Delta(q, a), a) == Dead
  {
  }

  /** A trace with a Done event doubled is dead after the copy. */
  lemma DuplicatedPhases(trace: seq<Event>, i: nat)
    requires i < |trace| && IsDone(trace[i].action)
    ensures PhaseOf(Duplicated(trace, i)[..i + 2], trace[i].task) == Dead
  {
    var t, e, m := trace[i].task, trace[i], Duplicated(trace, i);
    assert m[..i + 2] == trace[..i] + [e] + [e];
    PhaseStep(trace[..i], e, t);
    PhaseStep(trace[..i] + [e], e, t);
    DuplicateDies(PhaseOf(trace[..i], t), e.action);
  }

  // ----- Drop -----

  /** What is left of the word once its Enter is gone stays alive only where a disable's
      free reads as an unmount's, and only before the disable ends. */
  predicate SurvivesDrop(q: Phase, a: Action, rest: seq<Action>) {
    && q == QuietOrUnmount && a == QuotaDisable_Enter
    && (rest == [FreeQgroupConfig_Enter] || rest == [FreeQgroupConfig_Enter, FreeQgroupConfig_Done])
  }

  lemma DropDiesAtRest(q: Phase, a: Action, b: Action)
    requires (q == Quiet || q == QuietOrUnmount) && IsEnter(a) && Delta(Delta(q, a), b) != Dead
    ensures Delta(q, b) != Dead <==> ReadsAsUnmount(q, a, b)
  {
    if Delta(q, b) != Dead {
      StartsAtRest(q, b);
    }
  }

  lemma DropDies(q: Phase, a: Action, b: Action)
    requires IsEnter(a) && Delta(Delta(q, a), b) != Dead
    ensures Delta(q, b) != Dead <==> ReadsAsUnmount(q, a, b)
  {
    if q == Quiet || q == QuietOrUnmount {
      DropDiesAtRest(q, a, b);
    } else {
      hide Begin;
      match q
      case Quiet =>
      case QuietOrUnmount =>
      case Enabling =>
      case EnableZeroing =>
      case EnableZeroed =>
      case Disabling =>
      case DisableFreeing =>
      case DisableFreed =>
      case Rescanning =>
      case RescanZeroing =>
      case RescanZeroed =>
      case Waiting =>
      case UnmountFreeing =>
      case WorkerIdle =>
      case WorkerBusy =>
      case Dead =>
    }
  }

  /** Exactly when the word survives losing an Enter with something after it. */
  lemma DroppedWord(q: Phase, a: Action, rest: seq<Action>)
    requires IsEnter(a) && rest != [] && Walk(Delta(q, a), rest) != Dead
    ensures Walk(q, rest) != Dead <==> SurvivesDrop(q, a, rest)
  {
    var b, more := rest[0], rest[1..];
    if Delta(Delta(q, a), b) == Dead {
      DeadStaysDead(more);
    } else {
      DropDies(q, a, b);
      if !ReadsAsUnmount(q, a, b) {
        DeadStaysDead(more);
      } else if more == [] {
        assert rest == [b];
      } else {
        FreeingWord(more);
        assert rest == [b] + more;
      }
    }
  }

  /** After the free began: the disable's rest against the unmount's. */
  lemma FreeingWord(more: seq<Action>)
    requires more != [] && Walk(DisableFreeing, more) != Dead
    ensures Walk(UnmountFreeing, more) != Dead <==> more == [FreeQgroupConfig_Done]
  {
    DeadStaysDead(more[1..]);
    if more[1..] != [] {
      DeadStaysDead(more[2..]);
      assert more[1..][1..] == more[2..];
    } else {
      assert more == [more[0]];
    }
  }

  /** The trace without event i, seen by i's task: dead exactly unless the exception applies. */
  lemma DroppedPhases(trace: seq<Event>, i: nat, j: nat)
    requires NextSame(trace, i, j) && IsEnter(trace[i].action) && PhaseOf(trace, trace[i].task) != Dead
    ensures var t := trace[i].task;
            PhaseOf(Dropped(trace, i), t) != Dead <==>
              SurvivesDrop(PhaseOf(trace[..i], t), trace[i].action, Word(trace[i + 1..], t))
  {
    var t, e := trace[i].task, trace[i];
    assert trace == trace[..i] + [e] + trace[i + 1..];
    PhaseConcat(trace[..i] + [e], trace[i + 1..], t);
    PhaseStep(trace[..i], e, t);
    PhaseConcat(trace[..i], trace[i + 1..], t);
    WordHas(trace[i + 1..], j - i - 1, t);
    DroppedWord(PhaseOf(trace[..i], t), e.action, Word(trace[i + 1..], t));
  }

  lemma {:induction false} WordHas(trace: seq<Event>, k: nat, t: Task)
    requires k < |trace| && trace[k].task == t
    ensures Word(trace, t) != []
    decreases |trace|
  {
    if k > 0 {
      WordHas(trace[1..], k - 1, t);
    }
  }

  /** The orphaned event alone: dead exactly unless it reads as an unmount. */
  lemma DroppedPrefix(trace: seq<Event>, i: nat, j: nat)
    requires NextSame(trace, i, j) && IsEnter(trace[i].action) && PhaseOf(trace, trace[i].task) != Dead
    ensures var t := trace[i].task;
            PhaseOf(Dropped(trace, i)[..j], t) != Dead <==>
              ReadsAsUnmount(PhaseOf(trace[..i], t), trace[i].action, trace[j].action)
  {
    var t := trace[i].task;
    PairPhases(trace, i, j);
    AlivePrefix(trace, j + 1, t);
    var m := Dropped(trace, i);
    assert m[..j - 1] == trace[..i] + trace[i + 1..j];
    PhaseOverOthers(trace[..i], trace[i + 1..j], t);
    assert m[..j] == m[..j - 1] + [trace[j]];
    PhaseStep(m[..j - 1], trace[j], t);
    DropDies(PhaseOf(trace[..i], t), trace[i].action, trace[j].action);
  }

  // ----- Early worker -----

  /** Moving the k-th worker start before the k-th zero tracking: a second start in a
      row, or one start more than the zero trackings so far can have queued. */
  lemma MovedWorkerRejected(c: Config, trace: seq<Event>, w: nat, dest: nat)
    requires Accepted(c, trace) && dest < w < |trace| && trace[w] == Event(Worker, RescanWorker_Enter)
    requires trace[dest].action == RescanZeroTracking_Enter
    requires Occurrences(trace[..w], RescanWorker_Enter) == Occurrences(trace[..dest], RescanZeroTracking_Enter)
    ensures Rejected(Moved(trace, w, dest)[..w + 1])
  {
    var x, y, e := trace[..dest], trace[dest..w], trace[w];
    assert trace[..w] == x + y;
    assert Moved(trace, w, dest)[..w + 1] == x + [e] + y;
    if forall k :: 0 <= k < |y| ==> y[k].task != Worker {
      var steps :| RunProjectsTo(c, steps, trace);
      StartsAreTheWorkers(steps);
      NoOccurrence(y, RescanWorker_Enter);
      OccurrencesConcat(x, y, RescanWorker_Enter);
      TooManyStarts(x, e, y);
    } else {
      AcceptedIsAlive(c, trace, Worker);
      AlivePrefix(trace, w, Worker);
      var f := FirstOf(y, Worker);
      StartTwice(x, y, e, f);
      DeadIsRejected(x + [e] + y, Worker);
    }
  }

  /** One more worker start than zero trackings begun. */
  lemma TooManyStarts(x: seq<Event>, e: Event, y: seq<Event>)
    requires e.action == RescanWorker_Enter
    requires Occurrences(x, RescanWorker_Enter) == Occurrences(x, RescanZeroTracking_Enter)
    ensures Rejected(x + [e] + y)
  {
    var m := x + [e] + y;
    forall c ensures !Accepted(c, m) {
      if Accepted(c, m) {
        assert m[..|x| + 1] == x + [e] && (x + [e])[..|x|] == x;
        WorkerStartsArePaidFor(c, m, |x| + 1);
      }
    }
  }

  lemma {:induction false} StartsAreTheWorkers(steps: seq<Step>)
    ensures forall i :: 0 <= i < |Projection(steps)| && Projection(steps)[i].action == RescanWorker_Enter
              ==> Projection(steps)[i].task == Worker
    decreases |steps|
  {
    if steps != [] {
      StartsAreTheWorkers(steps[..|steps| - 1]);
    }
  }

  lemma {:induction false} NoOccurrence(y: seq<Event>, a: Action)
    requires forall k :: 0 <= k < |y| ==> y[k].action != a
    ensures Occurrences(y, a) == 0
    decreases |y|
  {
    if y != [] {
      NoOccurrence(y[..|y| - 1], a);
    }
  }

  lemma FirstOf(y: seq<Event>, t: Task) returns (f: nat)
    requires exists j :: 0 <= j < |y| && y[j].task == t
    ensures f < |y| && y[f].task == t && forall k :: 0 <= k < f ==> y[k].task != t
  {
    f := 0;
    while y[f].task != t
      invariant f < |y| && forall k :: 0 <= k < f ==> y[k].task != t
      decreases |y| - f
    {
      f := f + 1;
    }
  }

  /** The worker has an event in y: after the early start, that event or the early
      start itself comes in the wrong place. */
  lemma StartTwice(x: seq<Event>, y: seq<Event>, e: Event, f: nat)
    requires e == Event(Worker, RescanWorker_Enter) && PhaseOf(x + y, Worker) != Dead
    requires f < |y| && y[f].task == Worker && forall k :: 0 <= k < f ==> y[k].task != Worker
    ensures PhaseOf(x + [e] + y, Worker) == Dead
  {
    assert (x + y)[..|x| + f + 1] == x + y[..f] + [y[f]];
    AlivePrefix(x + y, |x| + f + 1, Worker);
    PhaseOverOthers(x, y[..f], Worker);
    PhaseStep(x + y[..f], y[f], Worker);
    var xe := x + [e];
    PhaseStep(x, e, Worker);
    PhaseOverOthers(xe, y[..f], Worker);
    PhaseStep(xe + y[..f], y[f], Worker);
    WorkerPhases(x);
    WorkerAlternates(PhaseOf(x, Worker), y[f].action);
    assert xe + y == xe + y[..f] + [y[f]] + y[f + 1..];
    DeadPrefix(xe + y[..f] + [y[f]], y[f + 1..], Worker);
  }

  lemma WorkerAlternates(q: Phase, a: Action)
    requires q == WorkerIdle || q == WorkerBusy || q == Dead
    requires Delta(q, a) != Dead
    ensures Delta(Delta(q, RescanWorker_Enter), a) == Dead
  {
  }

  lemma {:induction false} WorkerPhases(x: seq<Event>)
    ensures PhaseOf(x, Worker) == WorkerIdle || PhaseOf(x, Worker) == WorkerBusy || PhaseOf(x, Worker) == Dead
    decreases |x|
  {
    if x != [] {
      WorkerPhases(x[..|x| - 1]);
      PhaseStep(x[..|x| - 1], x[|x| - 1], Worker);
      assert x == x[..|x| - 1] + [x[|x| - 1]];
    }
  }

  // ----- Recognising the exceptional phase -----

  /** Phase p is entered by action a alone. */
  ghost predicate EnteredBy(p: Phase, a: Action) { forall q, b :: Delta(q, b) == p ==> b == a }

  lemma WaitPhasesEntered()
    ensures EnteredBy(QuietOrUnmount, WaitRescanCompletion_Done)
    ensures forall q, b :: Delta(q, b) == QuietOrUnmount ==> q == Waiting
    ensures EnteredBy(Waiting, WaitRescanCompletion_Enter)
  {
  }

  /** The event that led t into the phase it is in. */
  lemma {:induction false} EntryOf(x: seq<Event>, t: Task, p: Phase, a: Action) returns (h: nat)
    requires PhaseOf(x, t) == p && p != Start(t) && EnteredBy(p, a)
    ensures h < |x| && x[h] == Event(t, a) && PhaseOf(x[..h + 1], t) == p
    ensures forall k :: h < k < |x| ==> x[k].task != t
    decreases |x|
  {
    var shorter, e := x[..|x| - 1], x[|x| - 1];
    assert x == shorter + [e];
    PhaseStep(shorter, e, t);
    if e.task == t {
      h := |x| - 1;
      assert x[..h + 1] == x;
    } else {
      h := EntryOf(shorter, t, p, a);
      assert shorter[..h + 1] == x[..h + 1];
    }
  }

  /** A task is in the ambiguous phase only right after a wait. */
  lemma WaitPhase(trace: seq<Event>, i: nat) returns (g: nat, h: nat)
    requires i < |trace| && PhaseOf(trace[..i], trace[i].task) == QuietOrUnmount
    ensures NextSame(trace, h, i) && trace[h] == Event(trace[i].task, WaitRescanCompletion_Done)
    ensures NextSame(trace, g, h) && trace[g] == Event(trace[i].task, WaitRescanCompletion_Enter)
  {
    var t := trace[i].task;
    WaitPhasesEntered();
    h := EntryOf(trace[..i], t, QuietOrUnmount, WaitRescanCompletion_Done);
    assert trace[..i][..h + 1] == trace[..h] + [trace[h]];
    PhaseStep(trace[..h], trace[h], t);
    hide EnteredBy;
    g := EntryOf(trace[..h], t, Waiting, WaitRescanCompletion_Enter);
  }
}
