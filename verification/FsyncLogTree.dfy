/** The fsync log-tree checker: within one fsync of a thread no two logged extents
    overlap, and every drop of extents succeeds. */
module FsyncLogTree {
  import opened Options
  import opened TraceChecker

  datatype Extent = Extent(offset: int, length: int)

  predicate Overlaps(x: Extent, y: Extent) { x.offset < y.offset + y.length && y.offset < x.offset + x.length }

  /** For extents that are not empty: they share an offset. */
  lemma OverlapIsSharedOffset(x: Extent, y: Extent)
    requires x.length > 0 && y.length > 0
    ensures Overlaps(x, y) <==> exists o :: Covers(x, o) && Covers(y, o)
  {
    if Overlaps(x, y) {
      var o := if x.offset > y.offset then x.offset else y.offset;
      assert Covers(x, o) && Covers(y, o);
    }
  }

  predicate Covers(x: Extent, o: int) { x.offset <= o < x.offset + x.length }

  /** What an event means to this checker. */
  datatype Op = Begin(tid: int) | End(tid: int) | Log(tid: int, extent: Extent) | Drop(ret: int) | Inline | Other

  function OpOf(e: TraceEvent): Op {
    if IsInline(e) then Inline
    else if e.action == "FsyncFile_Enter" then Begin(e.tid)
    else if e.action == "FsyncFile_Done" then End(e.tid)
    else if e.action == "LogOneExtent" then Log(e.tid, Extent(Field(e, "file_offset", 0), Field(e, "len", 0)))
    else if e.action == "DropExtents_Done" then Drop(Field(e, "ret", 0))
    else Other
  }

  predicate IsBoundary(e: TraceEvent, t: int) { OpOf(e) == Begin(t) || OpOf(e) == End(t) }

  // ----- The rule, without the checker's tables -----

  /** At i thread t logged x, and up to n its fsync neither ended nor started anew. */
  ghost predicate LoggedAt(es: seq<TraceEvent>, t: int, x: Extent, i: int, n: int) {
    && 0 <= i < n <= |es| && OpOf(es[i]) == Log(t, x)
    && forall m :: i < m < n ==> !IsBoundary(es[m], t)
  }

  /** The event at n is innocent: a drop that succeeded, or a log that overlaps nothing
      its thread logged before in the same fsync. */
  ghost predicate Innocent(es: seq<TraceEvent>, n: int)
    requires 0 <= n < |es|
  {
    match OpOf(es[n])
    case Inline => false
    case Drop(ret) => ret == 0
    case Log(t, y) => forall i, x :: LoggedAt(es, t, x, i, n) ==> !Overlaps(y, x)
    case _ => true
  }

  ghost predicate Conforms(es: seq<TraceEvent>) { forall n :: 0 <= n < |es| ==> Innocent(es, n) }

  // ----- What the checker computes -----

  /** What thread t has logged since its fsync last started or ended, in order. */
  function LogsOf(es: seq<TraceEvent>, t: int): seq<Extent> {
    if es == [] then []
    else
      var front, e := es[..|es| - 1], es[|es| - 1];
      if IsBoundary(e, t) then []
      else if OpOf(e).Log? && OpOf(e).tid == t then LogsOf(front, t) + [OpOf(e).extent]
      else LogsOf(front, t)
  }

  /** Thread t is inside an fsync. */
  predicate InFsync(es: seq<TraceEvent>, t: int) {
    es != [] &&
    var e := es[|es| - 1];
    OpOf(e) == Begin(t) || (OpOf(e) != End(t) && InFsync(es[..|es| - 1], t))
  }

  /** One violation for every earlier extent that y overlaps. */
  function Clashes(e: TraceEvent, y: Extent, earlier: seq<Extent>): seq<Violation> {
    if earlier == [] then []
    else
      var x := earlier[|earlier| - 1];
      Clashes(e, y, earlier[..|earlier| - 1])
      + if Overlaps(y, x) then [ViolationOf(e, DuplicateExtent(x.offset, x.length))] else []
  }

  /** The violations that e raises after the events `front`. */
  function Raised(front: seq<TraceEvent>, e: TraceEvent): seq<Violation> {
    match OpOf(e)
    case Inline => [ViolationOf(e, InlineViolation)]
    case Log(t, y) => Clashes(e, y, LogsOf(front, t))
    case Drop(ret) => if ret != 0 then [ViolationOf(e, DropFailed(ret))] else []
    case _ => []
  }

  function Violations(es: seq<TraceEvent>): seq<Violation> {
    if es == [] then [] else Violations(es[..|es| - 1]) + Raised(es[..|es| - 1], es[|es| - 1])
  }

  lemma {:induction false} QuietClashes(e: TraceEvent, y: Extent, earlier: seq<Extent>)
    ensures Clashes(e, y, earlier) == [] <==> forall x :: x in earlier ==> !Overlaps(y, x)
    decreases |earlier|
  {
    hide OpOf;
    if earlier != [] {
      QuietClashes(e, y, earlier[..|earlier| - 1]);
      assert earlier == earlier[..|earlier| - 1] + [earlier[|earlier| - 1]];
    }
  }

  lemma LoggedStep(es: seq<TraceEvent>, t: int, x: Extent, i: int)
    requires es != []
    ensures var n, e := |es| - 1, es[|es| - 1];
            LoggedAt(es, t, x, i, n + 1) <==>
            (i == n && OpOf(e) == Log(t, x)) || (LoggedAt(es[..n], t, x, i, n) && !IsBoundary(e, t))
  {
    hide OpOf;
  }

  /** The list has exactly what the rule looks at. */
  lemma {:induction false} LogsMembers(es: seq<TraceEvent>, t: int, x: Extent)
    ensures x in LogsOf(es, t) <==> exists i :: LoggedAt(es, t, x, i, |es|)
    decreases |es|
  {
    hide OpOf;
    if es != [] {
      var n, e := |es| - 1, es[|es| - 1];
      LogsMembers(es[..n], t, x);
      forall i
        ensures LoggedAt(es, t, x, i, |es|) <==>
                (i == n && OpOf(e) == Log(t, x)) || (LoggedAt(es[..n], t, x, i, n) && !IsBoundary(e, t))
      {
        LoggedStep(es, t, x, i);
      }
      if OpOf(e) == Log(t, x) {
        assert LoggedAt(es, t, x, n, |es|);
      }
    }
  }

  lemma InnocentPrefix(es: seq<TraceEvent>, n: int, k: int)
    requires 0 <= n < k <= |es|
    ensures Innocent(es[..k], n) <==> Innocent(es, n)
  {
    hide OpOf;
    forall t, x, i
      ensures LoggedAt(es[..k], t, x, i, n) <==> LoggedAt(es, t, x, i, n)
    {
    }
  }

  /** The last event raises nothing exactly when it is innocent. */
  lemma QuietIffInnocent(es: seq<TraceEvent>)
    requires es != []
    ensures Raised(es[..|es| - 1], es[|es| - 1]) == [] <==> Innocent(es, |es| - 1)
  {
    hide OpOf;
    var n, e := |es| - 1, es[|es| - 1];
    match OpOf(e)
    case Log(t, y) =>
      var earlier := LogsOf(es[..n], t);
      QuietClashes(e, y, earlier);
      forall x
        ensures x in earlier <==> exists i :: LoggedAt(es, t, x, i, n)
      {
        LogsMembers(es[..n], t, x);
        assert forall i :: LoggedAt(es[..n], t, x, i, n) <==> LoggedAt(es, t, x, i, n);
      }
    case _ =>
  }

  /** The checker finds nothing exactly when the extents of every fsync are pairwise
      disjoint and every drop succeeded. */
  lemma {:induction false} QuietIffConforms(es: seq<TraceEvent>)
    ensures Violations(es) == [] <==> Conforms(es)
    decreases |es|
  {
    hide OpOf, Raised, Innocent;
    if es != [] {
      var k := |es| - 1;
      QuietIffConforms(es[..k]);
      QuietIffInnocent(es);
      forall n | 0 <= n < k
        ensures Innocent(es[..k], n) <==> Innocent(es, n)
      {
        InnocentPrefix(es, n, k);
      }
    }
  }

  /** One more event. */
  lemma SeenStep(es: seq<TraceEvent>, e: TraceEvent)
    ensures Violations(es + [e]) == Violations(es) + Raised(es, e)
    ensures forall t :: LogsOf(es + [e], t) ==
              if IsBoundary(e, t) then []
              else if OpOf(e).Log? && OpOf(e).tid == t then LogsOf(es, t) + [OpOf(e).extent]
              else LogsOf(es, t)
    ensures forall t :: InFsync(es + [e], t) <==> OpOf(e) == Begin(t) || (OpOf(e) != End(t) && InFsync(es, t))
  {
    hide OpOf, Raised;
    assert (es + [e])[..|es|] == es;
  }

  // ----- The checker -----

  class FsyncLogTreeChecker {
    const base: BtrfsChecker
    var logExtents: map<int, seq<Extent>>
    var fsyncActive: set<int>

    function Logged(t: int): seq<Extent>
      reads this
    {
      if t in logExtents then logExtents[t] else []
    }

    /** The checker has seen the events es. */
    ghost predicate HasSeen(es: seq<TraceEvent>)
      reads this, base
    {
      && base.Valid() && base.violations == Violations(es)
      && (forall t :: Logged(t) == LogsOf(es, t))
      && (forall t :: t in fsyncActive <==> InFsync(es, t))
    }

    constructor ()
      ensures fresh(base) && HasSeen([]) && base.eventCount == 0
    {
      base := new BtrfsChecker();
      logExtents := map[];
      fsyncActive := {};
    }

    method ProcessEvent(e: TraceEvent, ghost es: seq<TraceEvent>)
      requires HasSeen(es) && !IsInline(e)
      modifies this`logExtents, this`fsyncActive, base`violations, base`conforming
      ensures HasSeen(es + [e])
    {
      SeenStep(es, e);
      hide Violations, LogsOf, InFsync, Clashes;
      if e.action == "FsyncFile_Enter" {
        fsyncActive := fsyncActive + {e.tid};
        logExtents := logExtents[e.tid := []];
      } else if e.action == "FsyncFile_Done" {
        fsyncActive := fsyncActive - {e.tid};
        logExtents := logExtents - {e.tid};
      } else if e.action == "LogOneExtent" {
        LogExtent(e, Extent(Field(e, "file_offset", 0), Field(e, "len", 0)));
      } else if e.action == "DropExtents_Done" {
        var ret := Field(e, "ret", 0);
        if ret != 0 {
          base.Violate(e, DropFailed(ret));
        }
      }
    }

    /** Compares the extent with all logged before and adds it to them. */
    method LogExtent(e: TraceEvent, y: Extent)
      requires base.Valid()
      modifies this`logExtents, base`violations, base`conforming
      ensures base.Valid() && base.violations == old(base.violations) + Clashes(e, y, old(Logged(e.tid)))
      ensures logExtents == old(logExtents)[e.tid := old(Logged(e.tid)) + [y]]
    {
      var existing := Logged(e.tid);
      for k := 0 to |existing|
        invariant base.Valid() && base.violations == old(base.violations) + Clashes(e, y, existing[..k])
        invariant logExtents == old(logExtents)
      {
        var x := existing[k];
        assert existing[..k + 1][..k] == existing[..k];
        if Overlaps(y, x) {
          base.Violate(e, DuplicateExtent(x.offset, x.length));
        }
      }
      assert existing[..|existing|] == existing;
      logExtents := logExtents[e.tid := existing + [y]];
    }

    /** One event of the stream: counted, and checked unless the probe already did. */
    method Handle(e: TraceEvent, ghost es: seq<TraceEvent>)
      requires HasSeen(es)
      modifies this`logExtents, this`fsyncActive, base
      ensures HasSeen(es + [e]) && base.eventCount == old(base.eventCount) + 1
    {
      base.Count();
      if IsInline(e) {
        SeenStep(es, e);
        base.Violate(e, InlineViolation);
      } else {
        ProcessEvent(e, es);
      }
    }

    method Run(lines: seq<Option<TraceEvent>>)
      requires HasSeen([]) && base.eventCount == 0
      modifies this`logExtents, this`fsyncActive, base
      ensures HasSeen(Parsed(lines)) && base.eventCount == |Parsed(lines)|
      ensures base.conforming <==> Conforms(Parsed(lines))
    {
      for i := 0 to |lines|
        invariant HasSeen(Parsed(lines[..i])) && base.eventCount == |Parsed(lines[..i])|
      {
        ParsedNext(lines, i);
        if lines[i].Some? {
          Handle(lines[i].value, Parsed(lines[..i]));
        }
      }
      assert lines[..|lines|] == lines;
      QuietIffConforms(Parsed(lines));
    }
  }
}
