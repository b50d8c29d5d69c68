/** Stretches of a run of the life cycle, and cutting a run at an event. */
module QgroupRuns {
  import opened Options
  import Runs
  import opened QgroupLifecycle

  lemma {:induction false} ProjectionConcat(x: seq<Step>, y: seq<Step>)
    ensures Projection(x + y) == Projection(x) + Projection(y)
    decreases |y|
  {
    if y == [] {
      assert x + y == x;
    } else {
      ProjectionConcat(x, y[..|y| - 1]);
      assert (x + y)[..|x + y| - 1] == x + y[..|y| - 1];
    }
  }

  /** The steps lead from s to s' and show this trace. */
  ghost predicate Path(c: Config, s: State, steps: seq<Step>, trace: seq<Event>, s': State) {
    After(c, s, steps) == Some(s') && Projection(steps) == trace
  }

  lemma PathConcat(c: Config, s: State, x: seq<Step>, u: seq<Event>, m: State, y: seq<Step>, v: seq<Event>, s': State)
    requires Path(c, s, x, u, m) && Path(c, m, y, v, s')
    ensures Path(c, s, x + y, u + v, s')
  {
    Runs.AfterConcat(Fire, c, s, x, y);
    ProjectionConcat(x, y);
  }

  lemma PathExtend(c: Config, s: State, x: seq<Step>, u: seq<Event>, m: State, a: Step, s': State)
    requires Path(c, s, x, u, m) && Fire(c, m, a) == Some(s')
    ensures Path(c, s, x + [a], u + Events(a), s')
  {
    AfterExtend(c, s, x, a);
    ProjectionExtend(x, a);
  }

  /** The run up to event k, the step that emits it, and the rest of the run. */
  lemma {:induction false} SplitAtEvent(c: Config, s: State, steps: seq<Step>, trace: seq<Event>, s': State, k: nat)
    returns (x: seq<Step>, m: State, a: Step, m': State, y: seq<Step>)
    requires Path(c, s, steps, trace, s') && k < |trace|
    ensures Path(c, s, x, trace[..k], m) && Fire(c, m, a) == Some(m') && Events(a) == [trace[k]]
    ensures Path(c, m', y, trace[k + 1..], s')
    decreases |steps|
  {
    var shorter, b := steps[..|steps| - 1], steps[|steps| - 1];
    var before, mid := Projection(shorter), After(c, s, shorter).value;
    assert trace == before + Events(b);
    hide Fire, Label;
    if k < |before| {
      x, m, a, m', y := SplitAtEvent(c, s, shorter, before, mid, k);
      assert before[..k] == trace[..k] && before[k + 1..] + Events(b) == trace[k + 1..];
      PathExtend(c, m', y, before[k + 1..], mid, b, s');
      y := y + [b];
    } else {
      x, m, a, m', y := shorter, mid, b, s', [];
      assert trace[..k] == before && trace[k + 1..] == [];
    }
  }

  /** A stretch of a run without its last step. */
  lemma PathLast(c: Config, s: State, steps: seq<Step>, trace: seq<Event>, s': State)
    returns (shorter: seq<Step>, before: seq<Event>, m: State, a: Step)
    requires steps != [] && Path(c, s, steps, trace, s')
    ensures shorter == steps[..|steps| - 1] && a == steps[|steps| - 1]
    ensures Path(c, s, shorter, before, m) && Fire(c, m, a) == Some(s')
    ensures trace == before + Events(a)
  {
    shorter, a := steps[..|steps| - 1], steps[|steps| - 1];
    before, m := Projection(shorter), After(c, s, shorter).value;
  }
}
