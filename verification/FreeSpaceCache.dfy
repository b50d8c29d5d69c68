/** The free-space cache checker: no address is added twice or removed while absent. */
module FreeSpaceCache {
  import opened Options
  import opened TraceChecker

  /** What an event means to this checker. */
  datatype Op = Add(bytenr: int) | Remove(bytenr: int) | Inline | Other

  function OpOf(e: TraceEvent): Op {
    if IsInline(e) then Inline
    else if e.action == "AddFreeSpace" then Add(Field(e, "bytenr", -1))
    else if e.action == "RemoveFreeSpace" then Remove(Field(e, "bytenr", -1))
    else Other
  }

  predicate Adds(e: TraceEvent, b: int) { OpOf(e) == Add(b) }
  predicate Removes(e: TraceEvent, b: int) { OpOf(e) == Remove(b) }

  // ----- The rule, without a cache -----

  /** i is the last event before n that adds or removes b. */
  ghost predicate LastTouch(es: seq<TraceEvent>, b: int, i: int, n: int) {
    && 0 <= i < n <= |es| && (Adds(es[i], b) || Removes(es[i], b))
    && forall m :: i < m < n ==> !Adds(es[m], b) && !Removes(es[m], b)
  }

  /** Before position n the address was last added. */
  ghost predicate Present(es: seq<TraceEvent>, b: int, n: int) {
    exists i :: LastTouch(es, b, i, n) && Adds(es[i], b)
  }

  /** Every address alternates between added and removed, starting with added. */
  ghost predicate Alternates(es: seq<TraceEvent>) {
    forall n, b :: 0 <= n < |es| ==>
      (Adds(es[n], b) ==> !Present(es, b, n)) && (Removes(es[n], b) ==> Present(es, b, n))
  }

  ghost predicate Conforms(es: seq<TraceEvent>) {
    Alternates(es) && forall n :: 0 <= n < |es| ==> OpOf(es[n]) != Inline
  }

  // ----- What the checker computes -----

  /** How often b is in the cache after these events. */
  function Copies(es: seq<TraceEvent>, b: int): nat {
    if es == [] then 0
    else
      var before, e := Copies(es[..|es| - 1], b), es[|es| - 1];
      if Adds(e, b) then before + 1
      else if Removes(e, b) && before > 0 then before - 1
      else before
  }

  /** The violation the last event raises, if any. */
  function Raised(es: seq<TraceEvent>): seq<Violation>
    requires es != []
  {
    var front, e := es[..|es| - 1], es[|es| - 1];
    match OpOf(e)
    case Inline => [ViolationOf(e, InlineViolation)]
    case Add(b) => if Copies(front, b) > 0 then [ViolationOf(e, DoubleAdd(Copies(front, b) + 1))] else []
    case Remove(b) => if Copies(front, b) == 0 then [ViolationOf(e, RemoveAbsent)] else []
    case Other => []
  }

  function Violations(es: seq<TraceEvent>): seq<Violation> {
    if es == [] then [] else Violations(es[..|es| - 1]) + Raised(es)
  }

  lemma PresentStep(es: seq<TraceEvent>, b: int)
    requires es != []
    ensures var e := es[|es| - 1];
            Present(es, b, |es|) <==> Adds(e, b) || (!Removes(e, b) && Present(es[..|es| - 1], b, |es| - 1))
  {
    hide OpOf;
    var n, front := |es| - 1, es[..|es| - 1];
    var e := es[n];
    if Adds(e, b) {
      assert LastTouch(es, b, n, |es|);
    } else {
      if Present(es, b, |es|) {
        var i :| LastTouch(es, b, i, |es|) && Adds(es[i], b);
        assert LastTouch(front, b, i, n) && Adds(front[i], b);
      }
      if !Removes(e, b) && Present(front, b, n) {
        var i :| LastTouch(front, b, i, n) && Adds(front[i], b);
        assert LastTouch(es, b, i, |es|) && Adds(es[i], b);
      }
    }
  }

  lemma PresentPrefix(es: seq<TraceEvent>, b: int, n: int, k: int)
    requires 0 <= n <= k <= |es|
    ensures Present(es[..k], b, n) <==> Present(es, b, n)
  {
    hide OpOf;
    forall i
      ensures LastTouch(es[..k], b, i, n) <==> LastTouch(es, b, i, n)
    {
    }
    if Present(es[..k], b, n) {
      var i :| LastTouch(es[..k], b, i, n) && Adds(es[..k][i], b);
      assert LastTouch(es, b, i, n) && Adds(es[i], b);
    }
    if Present(es, b, n) {
      var i :| LastTouch(es, b, i, n) && Adds(es[i], b);
      assert LastTouch(es[..k], b, i, n) && Adds(es[..k][i], b);
    }
  }

  lemma AlternatesStep(es: seq<TraceEvent>)
    requires es != []
    ensures var n, e := |es| - 1, es[|es| - 1];
            Alternates(es) <==>
            Alternates(es[..n])
            && forall b :: (Adds(e, b) ==> !Present(es, b, n)) && (Removes(e, b) ==> Present(es, b, n))
  {
    hide OpOf;
    var k := |es| - 1;
    forall n, b | 0 <= n <= k
      ensures Present(es[..k], b, n) <==> Present(es, b, n)
    {
      PresentPrefix(es, b, n, k);
    }
  }

  /** While the rule is kept an address is in the cache once if it was last added, and
      not at all otherwise. */
  lemma {:induction false} CopiesWhileAlternating(es: seq<TraceEvent>, b: int)
    requires Alternates(es)
    ensures Copies(es, b) == if Present(es, b, |es|) then 1 else 0
    decreases |es|
  {
    hide OpOf;
    if es != [] {
      AlternatesStep(es);
      CopiesWhileAlternating(es[..|es| - 1], b);
      PresentStep(es, b);
      PresentPrefix(es, b, |es| - 1, |es| - 1);
    }
  }

  /** What the last event must not be for the checker to stay quiet. */
  lemma RaisedNothing(es: seq<TraceEvent>)
    requires es != []
    ensures var e, front := es[|es| - 1], es[..|es| - 1];
            Raised(es) == [] <==>
            OpOf(e) != Inline &&
            forall b :: (Adds(e, b) ==> Copies(front, b) == 0) && (Removes(e, b) ==> Copies(front, b) > 0)
  {
    hide OpOf;
    var e := es[|es| - 1];
    match OpOf(e)
    case Inline =>
    case Add(b) => assert Adds(e, b);
    case Remove(b) => assert Removes(e, b);
    case Other =>
  }

  /** The cache answers for the history, as long as the rule is kept. */
  lemma CopiesArePresence(es: seq<TraceEvent>)
    requires es != [] && Alternates(es[..|es| - 1])
    ensures var n, front := |es| - 1, es[..|es| - 1]; forall b :: Copies(front, b) > 0 <==> Present(es, b, n)
  {
    hide OpOf;
    var n, front := |es| - 1, es[..|es| - 1];
    forall b
      ensures Copies(front, b) > 0 <==> Present(es, b, n)
    {
      CopiesWhileAlternating(front, b);
      PresentPrefix(es, b, n, n);
    }
  }

  lemma ConformsStep(es: seq<TraceEvent>)
    requires es != []
    ensures var n, e := |es| - 1, es[|es| - 1];
            Conforms(es) <==>
            Conforms(es[..n]) && OpOf(e) != Inline
            && forall b :: (Adds(e, b) ==> !Present(es, b, n)) && (Removes(e, b) ==> Present(es, b, n))
  {
    hide OpOf, Adds, Removes, Alternates, Present;
    AlternatesStep(es);
    NoInlineStep(es);
  }

  lemma NoInlineStep(es: seq<TraceEvent>)
    requires es != []
    ensures var front := es[..|es| - 1];
            (forall n :: 0 <= n < |es| ==> OpOf(es[n]) != Inline) <==>
            (forall n :: 0 <= n < |front| ==> OpOf(front[n]) != Inline) && OpOf(es[|es| - 1]) != Inline
  {
    hide OpOf;
    var front := es[..|es| - 1];
    assert forall n :: 0 <= n < |front| ==> front[n] == es[n];
  }

  /** The checker finds nothing exactly when every address alternates. */
  lemma {:induction false} QuietIffConforms(es: seq<TraceEvent>)
    ensures Violations(es) == [] <==> Conforms(es)
    decreases |es|
  {
    hide OpOf, Adds, Removes, Raised, Present, Copies;
    if es != [] {
      QuietIffConforms(es[..|es| - 1]);
      ConformsStep(es);
      RaisedNothing(es);
      hide Alternates;
      if Conforms(es[..|es| - 1]) {
        CopiesWhereConforming(es);
      }
    } else {
      NothingConforms();
    }
  }

  lemma CopiesWhereConforming(es: seq<TraceEvent>)
    requires es != [] && Conforms(es[..|es| - 1])
    ensures var n, front := |es| - 1, es[..|es| - 1]; forall b :: Copies(front, b) > 0 <==> Present(es, b, n)
  {
    hide OpOf, Present, Copies;
    CopiesArePresence(es);
  }

  lemma NothingConforms()
    ensures Violations([]) == [] && Conforms([])
  {
  }

  lemma InlineStep(es: seq<TraceEvent>, e: TraceEvent)
    requires IsInline(e)
    ensures Violations(es + [e]) == Violations(es) + [ViolationOf(e, InlineViolation)]
    ensures forall b :: Copies(es + [e], b) == Copies(es, b)
  {
    assert (es + [e])[..|es|] == es;
  }

  // ----- The checker -----

  class FreeSpaceCacheChecker {
    const base: BtrfsChecker
    var cache: map<int, nat>

    function Cached(b: int): nat
      reads this
    {
      if b in cache then cache[b] else 0
    }

    /** The checker has seen the events es. */
    ghost predicate HasSeen(es: seq<TraceEvent>)
      reads this, base
    {
      base.Valid() && base.violations == Violations(es) && forall b :: Cached(b) == Copies(es, b)
    }

    constructor ()
      ensures fresh(base) && HasSeen([]) && base.eventCount == 0
    {
      base := new BtrfsChecker();
      cache := map[];
    }

    method ProcessEvent(e: TraceEvent, ghost es: seq<TraceEvent>)
      requires HasSeen(es) && !IsInline(e)
      modifies this`cache, base`violations, base`conforming
      ensures HasSeen(es + [e])
    {
      assert (es + [e])[..|es|] == es;
      if e.action == "AddFreeSpace" {
        var bytenr := Field(e, "bytenr", -1);
        var count := Cached(bytenr) + 1;
        cache := cache[bytenr := count];
        if count > 1 {
          base.Violate(e, DoubleAdd(count));
        }
      } else if e.action == "RemoveFreeSpace" {
        var bytenr := Field(e, "bytenr", -1);
        var count := Cached(bytenr);
        if count > 0 {
          cache := cache[bytenr := count - 1];
        } else {
          base.Violate(e, RemoveAbsent);
        }
      }
    }

    /** One event of the stream: counted, and checked unless the probe already did. */
    method Handle(e: TraceEvent, ghost es: seq<TraceEvent>)
      requires HasSeen(es)
      modifies this`cache, base
      ensures HasSeen(es + [e]) && base.eventCount == old(base.eventCount) + 1
    {
      base.Count();
      if IsInline(e) {
        InlineStep(es, e);
        base.Violate(e, InlineViolation);
      } else {
        ProcessEvent(e, es);
      }
    }

    method Run(lines: seq<Option<TraceEvent>>)
      requires HasSeen([]) && base.eventCount == 0
      modifies this`cache, base
      ensures HasSeen(Parsed(lines)) && base.eventCount == |Parsed(lines)|
      ensures base.conforming <==> Conforms(Parsed(lines))
    {
      for i := 0 to |lines|
        invariant HasSeen(Parsed(lines[..i])) && base.eventCount == |Parsed(lines[..i])|
      {
        ParsedNext(lines, i);
        if lines[i].Some? {
          Handle(lines[i].value, Parsed(lines[..i]));
        }
      }
      assert lines[..|lines|] == lines;
      QuietIffConforms(Parsed(lines));
    }
  }
}
