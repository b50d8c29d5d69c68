/** Turning a captured trace into the one that is replayed: the events of one
    filesystem, in the order of their time stamps, cut to a given number. */
module TraceConversion {
  import opened Options
  import opened Sorting
  import opened QgroupLifecycle
  import opened TraceEvents
  import opened QgroupSameTraces

  /** An observable event as captured; `fs` names the filesystem. */
  datatype Captured = Captured(ts: int, fs: string, event: RawEvent)

  datatype Outcome = Converted(trace: seq<RawEvent>, users: set<int>) | NoSuchFs | NoEvents

  /** The events of one filesystem. */
  function GroupOf(events: seq<Captured>, fs: string): seq<Captured> {
    if events == [] then []
    else GroupOf(events[..|events| - 1], fs) + if events[|events| - 1].fs == fs then [events[|events| - 1]] else []
  }

  /** The filesystems in the order in which they first appear. */
  function Names(events: seq<Captured>): seq<string> {
    if events == [] then []
    else
      var before, fs := Names(events[..|events| - 1]), events[|events| - 1].fs;
      if fs in before then before else before + [fs]
  }

  predicate IsQuotaOp(a: Action) { a == QuotaEnable_Enter || a == QuotaDisable_Enter || a == QgroupRescan_Enter }

  predicate IsActive(group: seq<Captured>) { exists i :: 0 <= i < |group| && IsQuotaOp(group[i].event.action) }

  function TimeOf(e: Captured): int { e.ts }

  /** s[:n] for any n; a negative n counts from the end. */
  function Slice<T>(s: seq<T>, n: int): seq<T> {
    if n >= |s| then s else if n >= 0 then s[..n] else if |s| + n >= 0 then s[..|s| + n] else []
  }

  // ----- Which filesystem is taken -----

  /** The names of filesystems with quota activity, in order. */
  function ActiveOf(events: seq<Captured>, names: seq<string>): seq<string> {
    if names == [] then []
    else
      var last := names[|names| - 1];
      ActiveOf(events, names[..|names| - 1]) + if IsActive(GroupOf(events, last)) then [last] else []
  }

  /** The filesystems to choose from: the active ones, or all if there is none. */
  function Candidates(events: seq<Captured>): seq<string> {
    var active := ActiveOf(events, Names(events));
    if active == [] then Names(events) else active
  }

  lemma {:induction false} ActiveMembers(events: seq<Captured>, names: seq<string>, fs: string)
    ensures fs in ActiveOf(events, names) <==> fs in names && IsActive(GroupOf(events, fs))
    decreases |names|
  {
    if names != [] {
      ActiveMembers(events, names[..|names| - 1], fs);
      assert names == names[..|names| - 1] + [names[|names| - 1]];
    }
  }

  /** No filesystem without quota activity is a candidate beside one that has some. */
  lemma CandidatesAreEligible(events: seq<Captured>, fs: string, other: string)
    requires fs in Candidates(events) && other in Names(events) && IsActive(GroupOf(events, other))
    ensures fs in Names(events) && IsActive(GroupOf(events, fs))
  {
    ActiveMembers(events, Names(events), fs);
    ActiveMembers(events, Names(events), other);
  }

  /** sizes[k] is the first of the largest. */
  predicate IsFirstLargest(sizes: seq<nat>, k: int) {
    0 <= k < |sizes| && forall j :: 0 <= j < |sizes| ==> sizes[j] < sizes[k] + if j < k then 0 else 1
  }

  function Sizes(events: seq<Captured>, names: seq<string>): seq<nat> {
    seq(|names|, i requires 0 <= i < |names| => |GroupOf(events, names[i])|)
  }

  /** The first of the candidates with the most events. */
  ghost predicate IsDefault(events: seq<Captured>, fs: string) {
    var names := Candidates(events);
    exists k :: IsFirstLargest(Sizes(events, names), k) && names[k] == fs
  }

  ghost predicate GroupsOk(events: seq<Captured>, names: seq<string>, groups: map<string, seq<Captured>>) {
    && names == Names(events)
    && (forall f :: f in groups <==> f in names)
    && (forall f :: f in groups ==> groups[f] == GroupOf(events, f))
  }

  lemma {:induction false} AbsentGroup(events: seq<Captured>, f: string)
    requires f !in Names(events)
    ensures GroupOf(events, f) == []
    decreases |events|
  {
    if events != [] {
      AbsentGroup(events[..|events| - 1], f);
    }
  }

  method GroupByFs(events: seq<Captured>) returns (names: seq<string>, groups: map<string, seq<Captured>>)
    ensures GroupsOk(events, names, groups)
  {
    names, groups := [], map[];
    for i := 0 to |events|
      invariant GroupsOk(events[..i], names, groups)
    {
      GroupsStep(events, i, names, groups);
      var e := events[i];
      if e.fs in groups {
        groups := groups[e.fs := groups[e.fs] + [e]];
      } else {
        names := names + [e.fs];
        groups := groups[e.fs := [e]];
      }
    }
    assert events[..|events|] == events;
  }

  lemma NameGroups(events: seq<Captured>, e: Captured)
    ensures Names(events + [e]) == if e.fs in Names(events) then Names(events) else Names(events) + [e.fs]
    ensures forall f :: GroupOf(events + [e], f) == if f == e.fs then GroupOf(events, f) + [e] else GroupOf(events, f)
  {
    assert (events + [e])[..|events|] == events;
  }

  lemma KnownGroup(front: seq<Captured>, e: Captured, names: seq<string>, groups: map<string, seq<Captured>>)
    requires GroupsOk(front, names, groups) && e.fs in groups
    ensures GroupsOk(front + [e], names, groups[e.fs := groups[e.fs] + [e]])
  {
    NameGroups(front, e);
    hide Names, GroupOf;
  }

  lemma NewGroup(front: seq<Captured>, e: Captured, names: seq<string>, groups: map<string, seq<Captured>>)
    requires GroupsOk(front, names, groups) && e.fs !in groups
    ensures GroupsOk(front + [e], names + [e.fs], groups[e.fs := [e]])
  {
    NameGroups(front, e);
    AbsentGroup(front, e.fs);
    hide Names, GroupOf;
  }

  lemma GroupsStep(events: seq<Captured>, i: nat, names: seq<string>, groups: map<string, seq<Captured>>)
    requires i < |events| && GroupsOk(events[..i], names, groups)
    ensures var e := events[i];
            if e.fs in groups then GroupsOk(events[..i + 1], names, groups[e.fs := groups[e.fs] + [e]])
            else GroupsOk(events[..i + 1], names + [e.fs], groups[e.fs := [e]])
  {
    hide GroupsOk;
    assert events[..i + 1] == events[..i] + [events[i]];
    if events[i].fs in groups {
      KnownGroup(events[..i], events[i], names, groups);
    } else {
      NewGroup(events[..i], events[i], names, groups);
    }
  }

  method FirstLargest(sizes: seq<nat>) returns (k: int)
    requires sizes != []
    ensures IsFirstLargest(sizes, k)
  {
    k := 0;
    for j := 1 to |sizes|
      invariant IsFirstLargest(sizes[..j], k)
    {
      if sizes[j] > sizes[k] {
        k := j;
      }
    }
    assert sizes[..|sizes|] == sizes;
  }

  method ActiveNames(events: seq<Captured>, names: seq<string>, groups: map<string, seq<Captured>>)
    returns (active: seq<string>)
    requires GroupsOk(events, names, groups)
    ensures active == ActiveOf(events, names)
  {
    active := [];
    for i := 0 to |names|
      invariant active == ActiveOf(events, names[..i])
    {
      assert names[..i + 1][..i] == names[..i];
      if IsActive(groups[names[i]]) {
        active := active + [names[i]];
      }
    }
    assert names[..|names|] == names;
  }

  /** The first longest group among those with quota activity, or among all. */
  method PickDefault(events: seq<Captured>, names: seq<string>, groups: map<string, seq<Captured>>) returns (fs: string)
    requires GroupsOk(events, names, groups) && names != []
    ensures IsDefault(events, fs)
    ensures fs in groups
  {
    var active := ActiveNames(events, names, groups);
    var among := if active == [] then names else active;
    forall f | f in among
      ensures f in groups
    {
      ActiveMembers(events, names, f);
    }
    var sizes := SizesOf(events, among, groups);
    var k := FirstLargest(sizes);
    fs := among[k];
    assert among == Candidates(events) && IsFirstLargest(Sizes(events, Candidates(events)), k) &&
           Candidates(events)[k] == fs;
  }

  method SizesOf(ghost events: seq<Captured>, among: seq<string>, groups: map<string, seq<Captured>>)
    returns (sizes: seq<nat>)
    requires GroupsOk(events, Names(events), groups) && forall f :: f in among ==> f in groups
    ensures sizes == Sizes(events, among)
  {
    sizes := [];
    for i := 0 to |among|
      invariant |sizes| == i && forall j :: 0 <= j < i ==> sizes[j] == |GroupOf(events, among[j])|
    {
      hide GroupOf, Names;
      assert among[i] in among;
      sizes := sizes + [|groups[among[i]]|];
    }
  }

  // ----- The conversion -----

  /** The filesystem asked for counts only if it occurs, or if there is more than one. */
  predicate HonoursFs(events: seq<Captured>, fs: Option<string>) {
    fs.None? || fs.value in Names(events) || |Names(events)| > 1
  }

  ghost predicate IsChosen(events: seq<Captured>, fs: Option<string>, chosen: seq<Captured>) {
    if |Names(events)| > 1 || (fs.Some? && fs.value in Names(events)) then
      if fs.Some? then chosen == GroupOf(events, fs.value)
      else exists g :: IsDefault(events, g) && chosen == GroupOf(events, g)
    else chosen == events
  }

  function Payload(events: seq<Captured>): seq<RawEvent> {
    seq(|events|, i requires 0 <= i < |events| => events[i].event)
  }

  function UsersOf(trace: seq<RawEvent>): set<int> {
    set i | 0 <= i < |trace| && TaskOf(trace[i]) != Worker :: trace[i].tid
  }

  /** How many of n events a limit keeps: 0 is no limit, and a negative one counts from the end. */
  function KeptCount(n: nat, maxEvents: int): (k: nat)
    ensures k <= n
  {
    if maxEvents == 0 || maxEvents >= n then n
    else if maxEvents > 0 then maxEvents
    else if n + maxEvents > 0 then n + maxEvents
    else 0
  }

  /** The first events in the order of time, as many as the limit keeps, and their threads;
      an error if it keeps none. */
  ghost predicate IsConversion(chosen: seq<Captured>, maxEvents: int, r: Outcome) {
    var k := KeptCount(|chosen|, maxEvents);
    && |SortBy(chosen, TimeOf)| == |chosen|
    && if k == 0 then r == NoEvents
       else r.Converted? && r.trace == Payload(SortBy(chosen, TimeOf))[..k] && r.users == UsersOf(r.trace)
  }

  lemma SliceKeeps<T>(s: seq<T>, n: int)
    ensures (if n != 0 then Slice(s, n) else s) == s[..KeptCount(|s|, n)]
  {
  }

  lemma PayloadPrefix(events: seq<Captured>, k: nat)
    requires k <= |events|
    ensures Payload(events[..k]) == Payload(events)[..k]
  {
  }

  lemma SortLength(chosen: seq<Captured>)
    ensures |SortBy(chosen, TimeOf)| == |chosen|
  {
    SortBySorts(chosen, TimeOf);
    assert |SortBy(chosen, TimeOf)| == |multiset(SortBy(chosen, TimeOf))| == |multiset(chosen)| == |chosen|;
  }

  method Convert(events: seq<Captured>, fs: Option<string>, maxEvents: int) returns (r: Outcome)
    ensures r == NoSuchFs <==> fs.Some? && fs.value !in Names(events) && |Names(events)| > 1
    ensures r != NoSuchFs ==>
              exists chosen :: IsChosen(events, fs, chosen) && IsConversion(chosen, maxEvents, r)
  {
    var names, groups := GroupByFs(events);
    var chosen := events;
    if |names| > 1 || (fs.Some? && fs.value in names) {
      if fs.Some? {
        if fs.value !in groups {
          return NoSuchFs;
        }
        chosen := groups[fs.value];
      } else {
        var g := PickDefault(events, names, groups);
        chosen := groups[g];
      }
    }
    assert IsChosen(events, fs, chosen);
    r := Prepare(chosen, maxEvents);
    assert r != NoSuchFs;
  }

  method Prepare(chosen: seq<Captured>, maxEvents: int) returns (r: Outcome)
    ensures r != NoSuchFs && IsConversion(chosen, maxEvents, r)
  {
    var sorted := SortBy(chosen, TimeOf);
    SortLength(chosen);
    SliceKeeps(sorted, maxEvents);
    PayloadPrefix(sorted, KeptCount(|sorted|, maxEvents));
    if maxEvents != 0 {
      sorted := Slice(sorted, maxEvents);
    }
    var trace := Payload(sorted);
    r := if trace == [] then NoEvents else Converted(trace, UsersOf(trace));
  }

  // ----- What a converted trace is -----

  lemma {:induction false} GroupCount(events: seq<Captured>, fs: string, e: Captured)
    ensures multiset(GroupOf(events, fs))[e] == if e.fs == fs then multiset(events)[e] else 0
    decreases |events|
  {
    if events != [] {
      var front, last := events[..|events| - 1], events[|events| - 1];
      GroupCount(front, fs, e);
      assert events == front + [last];
    }
  }

  /** The events are one filesystem's, all of them, each once, in the order of time;
      or the whole capture when there is only one filesystem. */
  lemma ChosenInOrder(events: seq<Captured>, fs: Option<string>, chosen: seq<Captured>)
    requires IsChosen(events, fs, chosen)
    ensures SortedBy(SortBy(chosen, TimeOf), TimeOf) && multiset(SortBy(chosen, TimeOf)) == multiset(chosen)
    ensures fs.Some? && HonoursFs(events, fs) ==>
              forall e :: multiset(chosen)[e] == if e.fs == fs.value then multiset(events)[e] else 0
  {
    SortBySorts(chosen, TimeOf);
    if fs.Some? && HonoursFs(events, fs) {
      forall e
        ensures multiset(chosen)[e] == if e.fs == fs.value then multiset(events)[e] else 0
      {
        GroupCount(events, fs.value, e);
      }
    }
  }

  /** A filesystem that does not occur is silently replaced by the only one that does:
      the request is honoured exactly when HonoursFs holds. */
  lemma {:induction false} FsIsHonouredIff(events: seq<Captured>, fs: string, chosen: seq<Captured>)
    requires events != [] && IsChosen(events, Some(fs), chosen)
    ensures (forall e :: e in chosen ==> e.fs == fs) <==> HonoursFs(events, Some(fs))
  {
    if HonoursFs(events, Some(fs)) {
      forall e | e in chosen
        ensures e.fs == fs
      {
        GroupCount(events, fs, e);
        assert e in multiset(chosen);
      }
    } else {
      NameOccurs(events, |events| - 1);
      assert events[|events| - 1] in chosen;
    }
  }

  lemma {:induction false} NameOccurs(events: seq<Captured>, i: nat)
    requires i < |events|
    ensures events[i].fs in Names(events)
    decreases |events|
  {
    if i < |events| - 1 {
      NameOccurs(events[..|events| - 1], i);
    }
  }

  /** What is replayed under a limit is a first part of what is replayed without one. */
  lemma ConvertedIsPrefix(chosen: seq<Captured>, maxEvents: int, r: Outcome, full: Outcome)
    requires IsConversion(chosen, maxEvents, r) && IsConversion(chosen, 0, full) && r.Converted?
    ensures full.Converted? && r.trace <= full.trace && r.users <= full.users
    ensures maxEvents > 0 ==> |r.trace| == if maxEvents < |chosen| then maxEvents else |chosen|
  {
    var all := Payload(SortBy(chosen, TimeOf));
    assert all[..|chosen|] == all;
    forall u | u in r.users
      ensures u in full.users
    {
      var i :| 0 <= i < |r.trace| && TaskOf(r.trace[i]) != Worker && r.trace[i].tid == u;
      assert full.trace[i] == r.trace[i];
    }
  }

  /** The listed user tasks are exactly those with an event, and every event belongs to
      one of them or to the worker. */
  lemma TasksAreListed(trace: seq<RawEvent>, fix: bool)
    ensures forall i :: 0 <= i < |trace| ==> AsTrace(trace)[i].task in Tasks(Config(UsersOf(trace), fix))
    ensures forall u :: u in UsersOf(trace) ==> HasEvent(trace, User(u))
  {
    forall i | 0 <= i < |trace|
      ensures TaskOf(trace[i]) in Tasks(Config(UsersOf(trace), fix))
    {
      if TaskOf(trace[i]) != Worker {
        assert trace[i].tid in UsersOf(trace);
      }
    }
    forall u | u in UsersOf(trace)
      ensures HasEvent(trace, User(u))
    {
      var i :| 0 <= i < |trace| && TaskOf(trace[i]) != Worker && trace[i].tid == u;
      assert AsTrace(trace)[i].task == User(u);
    }
  }

  ghost predicate HasEvent(trace: seq<RawEvent>, t: Task) {
    exists i :: 0 <= i < |trace| && AsTrace(trace)[i].task == t
  }

  /** The listed tasks suffice: a trace is legal if and only if a run with them alone shows
      it, of the fixed kernel as well as of the other. */
  lemma ListedTasksSuffice(trace: seq<RawEvent>, fix: bool)
    ensures Legal(trace) <==> Accepted(Config(UsersOf(trace), fix), AsTrace(trace))
  {
    var c' := Config(UsersOf(trace), fix);
    TasksAreListed(trace, fix);
    if Legal(trace) {
      var c :| Accepted(c, AsTrace(trace));
      AcceptedByAny(c, c', AsTrace(trace));
    }
  }
}
