/** What the trace checkers share: events, the list of violations, and the verdict. */
module TraceChecker {
  import opened Options

  /** `raw` holds the numeric fields of the event. */
  datatype TraceEvent = TraceEvent(ts: int, tid: int, comm: string, action: string, raw: map<string, int>)

  function Field(e: TraceEvent, name: string, fallback: int): int { if name in e.raw then e.raw[name] else fallback }

  datatype Reason =
    | InlineViolation
    | DuplicateExtent(prevOffset: int, prevLength: int) | DropFailed(ret: int)
    | DoubleAdd(count: int) | RemoveAbsent

  datatype Violation = Violation(ts: int, tid: int, comm: string, action: string, reason: Reason)

  function ViolationOf(e: TraceEvent, reason: Reason): Violation { Violation(e.ts, e.tid, e.comm, e.action, reason) }

  /** A violation already found by the probe itself. */
  predicate IsInline(e: TraceEvent) { "VIOLATION_" <= e.action }

  /** The parsed lines of a stream; blank lines, comments and broken ones are None. */
  function Parsed(lines: seq<Option<TraceEvent>>): seq<TraceEvent> {
    if lines == [] then []
    else Parsed(lines[..|lines| - 1])
         + match lines[|lines| - 1] case Some(e) => [e] case None => []
  }

  lemma ParsedNext(lines: seq<Option<TraceEvent>>, i: nat)
    requires i < |lines|
    ensures lines[i].Some? ==> Parsed(lines[..i + 1]) == Parsed(lines[..i]) + [lines[i].value]
    ensures lines[i].None? ==> Parsed(lines[..i + 1]) == Parsed(lines[..i])
  {
    assert lines[..i + 1][..i] == lines[..i];
  }

  class BtrfsChecker {
    var violations: seq<Violation>
    var eventCount: nat
    var conforming: bool

    predicate Valid()
      reads this
    {
      conforming <==> violations == []
    }

    constructor ()
      ensures Valid() && violations == [] && eventCount == 0
    {
      violations, eventCount, conforming := [], 0, true;
    }

    method Count()
      modifies this`eventCount
      ensures eventCount == old(eventCount) + 1
    {
      eventCount := eventCount + 1;
    }

    method Violate(e: TraceEvent, reason: Reason)
      modifies this`violations, this`conforming
      ensures violations == old(violations) + [ViolationOf(e, reason)] && !conforming && Valid()
    {
      violations := violations + [ViolationOf(e, reason)];
      conforming := false;
    }

    method ExitCode() returns (code: int)
      requires Valid()
      ensures code == if violations == [] then 0 else 1
    {
      code := if conforming then 0 else 1;
    }
  }
}
