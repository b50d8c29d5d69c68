/** Runs of a state machine given by its step function: `fire(c, s, a)` is the state
    that action a leads to from s, or None when a is not enabled there. */
module Runs {
  import opened Options

  /** The state at the end of a sequence of steps, or None when one is not enabled. */
  function After<C, S, A>(fire: (C, S, A) -> Option<S>, c: C, s: S, steps: seq<A>): Option<S>
    decreases |steps|
  {
    if steps == [] then Some(s)
    else match After(fire, c, s, steps[..|steps| - 1])
      case None => None
      case Some(m) => fire(c, m, steps[|steps| - 1])
  }

  lemma {:induction false} AfterConcat<C, S, A>(fire: (C, S, A) -> Option<S>, c: C, s: S, x: seq<A>, y: seq<A>)
    requires After(fire, c, s, x).Some?
    ensures After(fire, c, s, x + y) == After(fire, c, After(fire, c, s, x).value, y)
    decreases |y|
  {
    if y == [] {
      assert x + y == x;
    } else {
      AfterConcat(fire, c, s, x, y[..|y| - 1]);
      assert (x + y)[..|x + y| - 1] == x + y[..|y| - 1];
    }
  }

  /** Every prefix of a run is a run. */
  lemma {:induction false} AfterPrefix<C, S, A>(fire: (C, S, A) -> Option<S>, c: C, s: S, steps: seq<A>, k: nat)
    requires After(fire, c, s, steps).Some? && k <= |steps|
    ensures After(fire, c, s, steps[..k]).Some?
    decreases |steps|
  {
    if k == |steps| {
      assert steps[..k] == steps;
    } else {
      AfterPrefix(fire, c, s, steps[..|steps| - 1], k);
      assert steps[..|steps| - 1][..k] == steps[..k];
    }
  }

  lemma SplitAt<T>(x: seq<T>, y: seq<T>, i: nat)
    requires i < |y|
    ensures (x + y)[..|x| + i + 1] == (x + y[..i]) + [y[i]]
  {
  }

  /** The i-th step of the second half of a run is taken in the state reached by then. */
  lemma StepOfRun<C, S, A>(fire: (C, S, A) -> Option<S>, c: C, s: S, x: seq<A>, y: seq<A>, i: nat)
    requires After(fire, c, s, x + y).Some? && i < |y|
    ensures After(fire, c, s, x + y[..i]).Some?
    ensures fire(c, After(fire, c, s, x + y[..i]).value, y[i]).Some?
  {
    var before := x + y[..i];
    AfterPrefix(fire, c, s, x + y, |x| + i + 1);
    SplitAt(x, y, i);
    assert (before + [y[i]])[..|before + [y[i]]| - 1] == before;
  }

  /** The last step of the second half of a run. */
  lemma AfterLast<C, S, A>(fire: (C, S, A) -> Option<S>, c: C, s: S, x: seq<A>, y: seq<A>)
    requires y != [] && After(fire, c, s, x + y).Some?
    ensures After(fire, c, s, x + y[..|y| - 1]).Some?
    ensures After(fire, c, s, x + y) == fire(c, After(fire, c, s, x + y[..|y| - 1]).value, y[|y| - 1])
  {
    assert (x + y)[..|x + y| - 1] == x + y[..|y| - 1];
  }

  lemma AfterOne<C, S, A>(fire: (C, S, A) -> Option<S>, c: C, s: S, a: A)
    ensures After(fire, c, s, [a]) == fire(c, s, a)
  {
    assert [a][..0] == [];
  }

  ghost predicate Inductive<C, S(!new), A(!new)>(fire: (C, S, A) -> Option<S>, inv: (C, S) -> bool, c: C) {
    forall s, a :: inv(c, s) && fire(c, s, a).Some? ==> inv(c, fire(c, s, a).value)
  }

  /** What every step keeps, every run keeps. */
  lemma {:induction false} RunKeeps<C, S(!new), A(!new)>(
    fire: (C, S, A) -> Option<S>, inv: (C, S) -> bool, c: C, s: S, steps: seq<A>)
    requires inv(c, s) && Inductive(fire, inv, c) && After(fire, c, s, steps).Some?
    ensures inv(c, After(fire, c, s, steps).value)
    decreases |steps|
  {
    if steps != [] {
      RunKeeps(fire, inv, c, s, steps[..|steps| - 1]);
    }
  }

  /** Steps from states of inv never lower this value. */
  ghost predicate Rising<C, S(!new), A(!new)>(
    fire: (C, S, A) -> Option<S>, inv: (C, S) -> bool, value: (C, S) -> int, c: C)
  {
    forall s, a :: inv(c, s) && fire(c, s, a).Some? ==> value(c, s) <= value(c, fire(c, s, a).value)
  }

  lemma {:induction false} RunRises<C, S(!new), A(!new)>(
    fire: (C, S, A) -> Option<S>, inv: (C, S) -> bool, value: (C, S) -> int, c: C, s: S, steps: seq<A>)
    requires inv(c, s) && Inductive(fire, inv, c) && Rising(fire, inv, value, c)
    requires After(fire, c, s, steps).Some?
    ensures value(c, s) <= value(c, After(fire, c, s, steps).value)
    decreases |steps|
  {
    if steps != [] {
      RunRises(fire, inv, value, c, s, steps[..|steps| - 1]);
      RunKeeps(fire, inv, c, s, steps[..|steps| - 1]);
    }
  }

  /** Steps from states of inv lower this value. */
  ghost predicate Falling<C, S(!new), A(!new)>(
    fire: (C, S, A) -> Option<S>, inv: (C, S) -> bool, value: (C, S) -> int, c: C)
  {
    forall s, a :: inv(c, s) && fire(c, s, a).Some? ==> value(c, fire(c, s, a).value) < value(c, s)
  }

  /** A run is no longer than the amount the value falls. */
  lemma {:induction false} RunFalls<C, S(!new), A(!new)>(
    fire: (C, S, A) -> Option<S>, inv: (C, S) -> bool, value: (C, S) -> int, c: C, s: S, steps: seq<A>)
    requires inv(c, s) && Inductive(fire, inv, c) && Falling(fire, inv, value, c)
    requires After(fire, c, s, steps).Some?
    ensures |steps| + value(c, After(fire, c, s, steps).value) <= value(c, s)
    decreases |steps|
  {
    if steps != [] {
      RunFalls(fire, inv, value, c, s, steps[..|steps| - 1]);
      RunKeeps(fire, inv, c, s, steps[..|steps| - 1]);
    }
  }
}
