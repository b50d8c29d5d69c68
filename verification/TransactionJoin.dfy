/** Joining a transaction: a writer takes its reference while it still holds the lock,
    so aborters and the reuse of heap slots cannot pull the transaction from under it.
    Any number of writers, aborters and slots. */
module TransactionJoin {
  import opened Options
  import opened Counting
  import opened Sets
  import opened Runs

  datatype Config = Config(numWriters: nat, numAborters: nat, maxTransactions: nat)

  datatype Slot = Slot(alloc: bool, refcount: int, aborted: bool)

  datatype WriterPC = Idle | DropLock | ReadAborted | Done | Error

  datatype Writer = Writer(pc: WriterPC, ptr: int)

  datatype AborterPC = AborterIdle | MarkAborted | AborterDone

  datatype Aborter = Aborter(pc: AborterPC, target: int)

  /** `running` is the slot of the running transaction, 0 for none. */
  datatype State = State(
    slots: map<int, Slot>, running: int, transLock: bool, writers: map<int, Writer>, aborters: map<int, Aborter>)

  datatype Step =
    | CreateTrans(t: int) | FreeTrans(t: int)
    | WLock(w: int) | WDropLock(w: int) | WReadAborted(w: int) | WRelease(w: int)
    | AbLock(a: int) | AbMark(a: int) | AbReset(a: int)

  function Init(c: Config): State {
    State(map t | t in UpTo(c.maxTransactions) :: Slot(false, 0, false), 0, false,
          map w | w in UpTo(c.numWriters) :: Writer(Idle, 0),
          map a | a in UpTo(c.numAborters) :: Aborter(AborterIdle, 0))
  }

  function Refer(s: State, t: int, d: int): map<int, Slot>
    requires t in s.slots
  {
    s.slots[t := s.slots[t].(refcount := s.slots[t].refcount + d)]
  }

  function FireWriter(c: Config, s: State, a: Step): Option<State>
    requires a.WLock? || a.WDropLock? || a.WReadAborted? || a.WRelease?
  {
    if a.w !in s.writers then None
    else
      var w, x := a.w, s.writers[a.w];
      match a
      case WLock(_) =>
        if x.pc == Idle && !s.transLock && s.running in s.slots
        then Some(s.(slots := Refer(s, s.running, 1), transLock := true,
                     writers := s.writers[w := Writer(DropLock, s.running)]))
        else None
      case WDropLock(_) =>
        if x.pc == DropLock
        then Some(s.(transLock := false, writers := s.writers[w := Writer(ReadAborted, x.ptr)])) else None
      case WReadAborted(_) =>
        if x.pc == ReadAborted && x.ptr in s.slots
        then Some(s.(writers := s.writers[w := Writer(if s.slots[x.ptr].aborted then Error else Done, x.ptr)]))
        else None
      case WRelease(_) =>
        if (x.pc == Done || x.pc == Error) && x.ptr in s.slots
        then Some(s.(slots := Refer(s, x.ptr, -1), writers := s.writers[w := Writer(Idle, 0)])) else None
  }

  function FireOther(c: Config, s: State, a: Step): Option<State>
    requires !a.WLock? && !a.WDropLock? && !a.WReadAborted? && !a.WRelease?
  {
    match a
    case CreateTrans(t) =>
      if s.running == 0 && !s.transLock && t in s.slots && !s.slots[t].alloc
      then Some(s.(slots := s.slots[t := Slot(true, 1, false)], running := t)) else None
    case FreeTrans(t) =>
      if t in s.slots && s.slots[t].alloc && s.slots[t].refcount == 0
      then Some(s.(slots := s.slots[t := s.slots[t].(alloc := false)])) else None
    case AbLock(b) =>
      if b in s.aborters && s.aborters[b].pc == AborterIdle && !s.transLock && s.running != 0
      then Some(s.(transLock := true, aborters := s.aborters[b := Aborter(MarkAborted, s.running)])) else None
    case AbMark(b) =>
      if b in s.aborters && s.aborters[b].pc == MarkAborted && s.aborters[b].target in s.slots then
        var t := s.aborters[b].target;
        Some(s.(slots := s.slots[t := s.slots[t].(aborted := true, refcount := s.slots[t].refcount - 1)],
                running := 0, transLock := false, aborters := s.aborters[b := Aborter(AborterDone, t)]))
      else None
    case AbReset(b) =>
      if b in s.aborters && s.aborters[b].pc == AborterDone
      then Some(s.(aborters := s.aborters[b := Aborter(AborterIdle, 0)])) else None
  }

  function Fire(c: Config, s: State, a: Step): Option<State> {
    if a.WLock? || a.WDropLock? || a.WReadAborted? || a.WRelease? then FireWriter(c, s, a) else FireOther(c, s, a)
  }

  // ----- What every reachable state keeps -----

  function PointsAt(t: int): Writer -> bool { (x: Writer) => x.ptr == t }

  predicate HoldsLock(x: Writer) { x.pc == DropLock }
  predicate Marks(x: Aborter) { x.pc == MarkAborted }

  /** A reference count is the running reference plus the writers holding the slot. */
  ghost predicate RefcountsExact(s: State) {
    forall t :: t in s.slots ==> s.slots[t].refcount == Bit(s.running == t) + CountIf(s.writers, PointsAt(t))
  }

  ghost predicate PointersLive(s: State) {
    && (s.running != 0 ==> s.running in s.slots && s.slots[s.running].alloc)
    && (forall w :: w in s.writers && s.writers[w].ptr != 0 ==>
          s.writers[w].ptr in s.slots && s.slots[s.writers[w].ptr].alloc)
    && (forall w :: w in s.writers ==> (s.writers[w].pc == Idle <==> s.writers[w].ptr == 0))
  }

  /** The lock has exactly one holder, and an aborter that holds it marks what runs. */
  ghost predicate LockExact(s: State) {
    && CountIf(s.writers, HoldsLock) + CountIf(s.aborters, Marks) == Bit(s.transLock)
    && (forall b :: b in s.aborters && Marks(s.aborters[b]) ==> s.running != 0 && s.aborters[b].target == s.running)
  }

  ghost predicate Inv(c: Config, s: State) {
    0 !in s.slots && RefcountsExact(s) && PointersLive(s) && LockExact(s)
  }

  lemma InitInv(c: Config)
    ensures Inv(c, Init(c))
  {
    var s := Init(c);
    CountZero(s.writers, HoldsLock);
    CountZero(s.aborters, Marks);
    forall t | t in s.slots
      ensures s.slots[t].refcount == Bit(s.running == t) + CountIf(s.writers, PointsAt(t))
    {
      CountZero(s.writers, PointsAt(t));
    }
  }

  lemma PointersAfter(ws: map<int, Writer>, w: int, x: Writer)
    requires w in ws
    ensures forall t ::
              CountIf(ws[w := x], PointsAt(t)) + Bit(ws[w].ptr == t) == CountIf(ws, PointsAt(t)) + Bit(x.ptr == t)
    ensures CountIf(ws[w := x], HoldsLock) + Bit(HoldsLock(ws[w])) == CountIf(ws, HoldsLock) + Bit(HoldsLock(x))
  {
    CountUpdate(ws, w, x, HoldsLock);
    forall t
      ensures CountIf(ws[w := x], PointsAt(t)) + Bit(ws[w].ptr == t) == CountIf(ws, PointsAt(t)) + Bit(x.ptr == t)
    {
      CountUpdate(ws, w, x, PointsAt(t));
    }
  }

  /** A slot someone points at has references; one without references, no pointers. */
  lemma Referenced(c: Config, s: State, t: int)
    requires Inv(c, s) && t in s.slots
    ensures s.slots[t].refcount == 0 ==> s.running != t && forall w :: w in s.writers ==> s.writers[w].ptr != t
    ensures !s.slots[t].alloc ==> s.slots[t].refcount == 0
  {
    forall w | w in s.writers && s.writers[w].ptr == t
      ensures CountIf(s.writers, PointsAt(t)) >= 1
    {
      CountPositive(s.writers, w, PointsAt(t));
    }
    if !s.slots[t].alloc {
      forall w | w in s.writers
        ensures !PointsAt(t)(s.writers[w])
      {
      }
      CountZero(s.writers, PointsAt(t));
    }
  }

  lemma OneMarker(s: State, b: int, d: int)
    requires CountIf(s.aborters, Marks) <= 1 && b in s.aborters && d in s.aborters
    requires Marks(s.aborters[b]) && Marks(s.aborters[d])
    ensures b == d
  {
    if b != d {
      CountTwo(s.aborters, b, d, Marks);
    }
  }

  lemma NoMarkerUnlocked(s: State, b: int)
    requires LockExact(s) && b in s.aborters && (!s.transLock || CountIf(s.writers, HoldsLock) >= 1)
    ensures !Marks(s.aborters[b])
  {
    if Marks(s.aborters[b]) {
      CountPositive(s.aborters, b, Marks);
    }
  }

  lemma WriterKeepsInv(c: Config, s: State, a: Step)
    requires Inv(c, s) && (a.WLock? || a.WDropLock? || a.WReadAborted? || a.WRelease?) && FireWriter(c, s, a).Some?
    ensures Inv(c, FireWriter(c, s, a).value)
  {
    var s' := FireWriter(c, s, a).value;
    PointersAfter(s.writers, a.w, s'.writers[a.w]);
    assert s'.writers == s.writers[a.w := s'.writers[a.w]];
    if a.WDropLock? {
      CountPositive(s.writers, a.w, HoldsLock);
    }
  }

  lemma OtherKeepsLock(c: Config, s: State, a: Step)
    requires Inv(c, s) && !a.WLock? && !a.WDropLock? && !a.WReadAborted? && !a.WRelease? && FireOther(c, s, a).Some?
    ensures LockExact(FireOther(c, s, a).value)
  {
    var s' := FireOther(c, s, a).value;
    forall b | b in s.aborters
      ensures (!s.transLock ==> !Marks(s.aborters[b]))
      ensures a.AbMark? && b != a.a ==> !Marks(s.aborters[b])
    {
      if !s.transLock {
        NoMarkerUnlocked(s, b);
      } else if a.AbMark? && Marks(s.aborters[b]) {
        OneMarker(s, a.a, b);
      }
    }
    if a.AbLock? || a.AbMark? || a.AbReset? {
      CountUpdate(s.aborters, a.a, s'.aborters[a.a], Marks);
      assert s'.aborters == s.aborters[a.a := s'.aborters[a.a]];
      if a.AbMark? {
        CountPositive(s.aborters, a.a, Marks);
      }
    }
  }

  lemma OtherKeepsInv(c: Config, s: State, a: Step)
    requires Inv(c, s) && !a.WLock? && !a.WDropLock? && !a.WReadAborted? && !a.WRelease? && FireOther(c, s, a).Some?
    ensures Inv(c, FireOther(c, s, a).value)
  {
    OtherKeepsLock(c, s, a);
    if a.CreateTrans? || a.FreeTrans? {
      Referenced(c, s, a.t);
    }
  }

  lemma StepKeepsInv(c: Config)
    ensures Inductive(Fire, Inv, c)
  {
    forall s, a | Inv(c, s) && Fire(c, s, a).Some?
      ensures Inv(c, Fire(c, s, a).value)
    {
      if a.WLock? || a.WDropLock? || a.WReadAborted? || a.WRelease? {
        WriterKeepsInv(c, s, a);
      } else {
        OtherKeepsInv(c, s, a);
      }
    }
  }

  /** Over every run: reference counts are exact, the lock has exactly one holder while
      taken, and no writer points at a freed slot, so the check in WReadAborted holds. */
  lemma JoinIsSafe(c: Config, steps: seq<Step>)
    requires After(Fire, c, Init(c), steps).Some?
    ensures Inv(c, After(Fire, c, Init(c), steps).value)
  {
    InitInv(c);
    StepKeepsInv(c);
    RunKeeps(Fire, Inv, c, Init(c), steps);
  }

  predicate Holds(s: State, w: int, t: int) { w in s.writers && t != 0 && s.writers[w].ptr == t }

  predicate Recycles(a: Step, t: int) { a == CreateTrans(t) || a == FreeTrans(t) }

  lemma HeldIsNotRecycled(c: Config, s: State, w: int, t: int, a: Step)
    requires Inv(c, s) && Holds(s, w, t) && Fire(c, s, a).Some?
    ensures !Recycles(a, t) && (a != WRelease(w) ==> Holds(Fire(c, s, a).value, w, t))
  {
    Referenced(c, s, t);
  }

  /** As long as w does not release it, it holds the slot. */
  lemma {:induction false} HoldLasts(c: Config, x: seq<Step>, y: seq<Step>, w: int, t: int)
    requires After(Fire, c, Init(c), x).Some? && Holds(After(Fire, c, Init(c), x).value, w, t)
    requires After(Fire, c, Init(c), x + y).Some? && forall i :: 0 <= i < |y| ==> y[i] != WRelease(w)
    ensures Holds(After(Fire, c, Init(c), x + y).value, w, t)
    decreases |y|
  {
    if y == [] {
      assert x + y == x;
    } else {
      var shorter, a := y[..|y| - 1], y[|y| - 1];
      assert (x + y)[..|x + y| - 1] == x + shorter;
      HoldLasts(c, x, shorter, w, t);
      JoinIsSafe(c, x + shorter);
      HeldIsNotRecycled(c, After(Fire, c, Init(c), x + shorter).value, w, t, a);
    }
  }

  /** From joining to release a writer reads the transaction it joined: its slot is
      neither freed nor handed to another transaction in between. */
  lemma HeldUntilReleased(c: Config, x: seq<Step>, y: seq<Step>, w: int, t: int)
    requires After(Fire, c, Init(c), x).Some? && Holds(After(Fire, c, Init(c), x).value, w, t)
    requires After(Fire, c, Init(c), x + y).Some? && forall i :: 0 <= i < |y| ==> y[i] != WRelease(w)
    ensures Holds(After(Fire, c, Init(c), x + y).value, w, t)
    ensures forall i :: 0 <= i < |y| ==> !Recycles(y[i], t)
  {
    HoldLasts(c, x, y, w, t);
    hide Recycles;
    forall i | 0 <= i < |y|
      ensures !Recycles(y[i], t)
    {
      NotRecycledAt(c, x, y, i, w, t);
    }
  }

  lemma NotRecycledAt(c: Config, x: seq<Step>, y: seq<Step>, i: nat, w: int, t: int)
    requires After(Fire, c, Init(c), x).Some? && Holds(After(Fire, c, Init(c), x).value, w, t)
    requires After(Fire, c, Init(c), x + y).Some? && i < |y| && forall k :: 0 <= k < |y| ==> y[k] != WRelease(w)
    ensures !Recycles(y[i], t)
  {
    StepOfRun(Fire, c, Init(c), x, y, i);
    HoldLasts(c, x, y[..i], w, t);
    JoinIsSafe(c, x + y[..i]);
    hide Fire, Holds, Recycles;
    HeldIsNotRecycled(c, After(Fire, c, Init(c), x + y[..i]).value, w, t, y[i]);
  }
}
