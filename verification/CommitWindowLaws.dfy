/** What a reported commit window, and a reported wait, say about the kernel. The tool
    scans the events of several filesystems together; each filesystem's own events are
    those of a run of the life cycle. */
module CommitWindowLaws {
  import opened QgroupLifecycle
  import opened QgroupLanguage
  import opened MutantLaws
  import opened TraceEvents
  import W = WindowScan

  /** The events of one filesystem, without the time. */
  function Untimed(evs: seq<W.Event>): (raw: seq<RawEvent>)
    ensures |raw| == |evs|
  {
    seq(|evs|, i requires 0 <= i < |evs| => RawEvent(evs[i].tid, evs[i].action))
  }

  /** The thread returns from a rescan between i and j. */
  ghost predicate Returns(evs: seq<W.Event>, i: int, j: int) {
    0 <= i < j <= |evs| && exists m :: i < m < j && evs[m].tid == evs[i].tid && evs[m].action == QgroupRescan_Done
  }

  lemma OnlyARescanRescans(q: Phase, a: Action)
    ensures Delta(q, a) == Rescanning ==> a == QgroupRescan_Enter
    ensures Delta(Rescanning, a) != Dead ==> a == RescanZeroTracking_Enter || a == QgroupRescan_Done
    ensures Delta(q, RescanZeroTracking_Enter) != Dead ==> q == Rescanning || q == Enabling
    ensures Delta(q, QgroupRescan_Enter) != Dead ==> Delta(q, QgroupRescan_Enter) == Rescanning
  {
  }

  /** The thread is still in its rescan as long as it has not returned from it. */
  lemma {:induction false} StillRescanning(evs: seq<W.Event>, i: int, j: int, n: int)
    requires Legal(Untimed(evs)) && W.Window(evs, i, j) && i < n <= j
    ensures var trace := AsTrace(Untimed(evs));
            PhaseOf(trace[..n], User(evs[i].tid)) == Rescanning <==> !Returns(evs, i, n)
    decreases n
  {
    var trace, t := AsTrace(Untimed(evs)), User(evs[i].tid);
    LegalStep(Untimed(evs), n - 1, t);
    hide Legal, PhaseOf, Returns, Delta;
    OnlyARescanRescans(PhaseOf(trace[..n - 1], t), trace[n - 1].action);
    if n - 1 > i {
      StillRescanning(evs, i, j, n - 1);
      ReturnsStep(evs, i, n);
    }
  }

  lemma ReturnsStep(evs: seq<W.Event>, i: int, n: int)
    requires 0 <= i < n - 1 && n <= |evs|
    ensures Returns(evs, i, n) <==>
            Returns(evs, i, n - 1) || (evs[n - 1].tid == evs[i].tid && evs[n - 1].action == QgroupRescan_Done)
  {
    if Returns(evs, i, n - 1) {
      var m :| i < m < n - 1 && evs[m].tid == evs[i].tid && evs[m].action == QgroupRescan_Done;
      assert m < n;
    }
  }

  /** One more event of a legal trace moves its task's phase on, to a live one. */
  lemma LegalStep(events: seq<RawEvent>, n: int, t: Task)
    requires Legal(events) && 0 <= n < |events|
    ensures var trace := AsTrace(events); var q := PhaseOf(trace[..n], t);
            && PhaseOf(trace[..n + 1], t) == (if trace[n].task == t then Delta(q, trace[n].action) else q)
            && PhaseOf(trace[..n + 1], t) != Dead
  {
    var trace := AsTrace(events);
    LegalPrefixIsAlive(events, n + 1, t);
    assert trace[..n + 1] == trace[..n] + [trace[n]];
    PhaseStep(trace[..n], trace[n], t);
  }

  lemma LegalPrefixIsAlive(events: seq<RawEvent>, n: int, t: Task)
    requires Legal(events) && 0 <= n <= |events|
    ensures PhaseOf(AsTrace(events)[..n], t) != Dead
  {
    LegalIsAlive(events, t);
    AlivePrefix(AsTrace(events), n, t);
  }

  /** Where a window of one filesystem ends: inside the rescan that began at i exactly if
      the thread does not return from a rescan in it, and else inside an enable. */
  lemma WindowEndsIn(evs: seq<W.Event>, i: int, j: int)
    requires Legal(Untimed(evs)) && W.Window(evs, i, j)
    ensures var q := PhaseOf(AsTrace(Untimed(evs))[..j], User(evs[i].tid));
            (q == Rescanning <==> !Returns(evs, i, j)) && (q == Rescanning || q == Enabling)
  {
    var trace := AsTrace(Untimed(evs));
    var t := User(evs[i].tid);
    StillRescanning(evs, i, j, j);
    LegalStep(Untimed(evs), j, t);
    OnlyARescanRescans(PhaseOf(trace[..j], t), trace[j].action);
  }

  // ----- Several filesystems -----

  /** The events of one filesystem. */
  function On(evs: seq<W.Event>, fs: string): (own: seq<W.Event>)
    ensures |own| <= |evs|
  {
    if evs == [] then []
    else On(evs[..|evs| - 1], fs) + if evs[|evs| - 1].fs == fs then [evs[|evs| - 1]] else []
  }

  /** The event at i, among those of its filesystem. */
  lemma {:induction false} OnAt(evs: seq<W.Event>, fs: string, i: nat)
    requires i < |evs| && evs[i].fs == fs
    ensures |On(evs[..i], fs)| < |On(evs, fs)| && On(evs, fs)[|On(evs[..i], fs)|] == evs[i]
    ensures On(evs, fs)[..|On(evs[..i], fs)|] == On(evs[..i], fs)
    decreases |evs|
  {
    var shorter := evs[..|evs| - 1];
    if i < |evs| - 1 {
      OnAt(shorter, fs, i);
      assert shorter[..i] == evs[..i];
      var n := |On(evs[..i], fs)|;
      assert On(evs, fs)[..n] == On(shorter, fs)[..n];
    }
  }

  /** Every event of the filesystem is somewhere among all events, in the same order. */
  lemma {:induction false} FromOn(evs: seq<W.Event>, fs: string, n: nat) returns (i: nat)
    requires n < |On(evs, fs)|
    ensures i < |evs| && evs[i].fs == fs && |On(evs[..i], fs)| == n && evs[i] == On(evs, fs)[n]
    decreases |evs|
  {
    var shorter := evs[..|evs| - 1];
    if n < |On(shorter, fs)| {
      i := FromOn(shorter, fs, n);
      assert shorter[..i] == evs[..i];
    } else {
      i := |evs| - 1;
    }
  }

  lemma {:induction false} OnGrows(evs: seq<W.Event>, fs: string, i: nat, j: nat)
    requires i <= j <= |evs|
    ensures |On(evs[..i], fs)| <= |On(evs[..j], fs)|
    decreases j
  {
    if i < j {
      OnGrows(evs, fs, i, j - 1);
      assert evs[..j][..j - 1] == evs[..j - 1];
    }
  }

  /** Positions of one filesystem keep their order. */
  lemma OnOrder(evs: seq<W.Event>, fs: string, i: nat, j: nat)
    requires i < |evs| && j < |evs| && evs[i].fs == fs && evs[j].fs == fs
    ensures i < j <==> |On(evs[..i], fs)| < |On(evs[..j], fs)|
  {
    if i < j {
      OnAt(evs[..j], fs, i);
      assert evs[..j][..i] == evs[..i];
    } else {
      OnGrows(evs, fs, j, i);
    }
  }

  /** The thread returns from a rescan of the filesystem between i and j. */
  ghost predicate ReturnsOn(evs: seq<W.Event>, fs: string, i: int, j: int) {
    0 <= i < j <= |evs|
    && exists m :: i < m < j && evs[m].tid == evs[i].tid && evs[m].action == QgroupRescan_Done && evs[m].fs == fs
  }

  /** The thread is in a rescan of the filesystem when it begins the zero tracking at j. */
  ghost predicate EndsInRescan(evs: seq<W.Event>, j: int)
    requires 0 <= j < |evs|
  {
    PhaseOf(AsTrace(Untimed(On(evs[..j], evs[j].fs))), User(evs[j].tid)) == Rescanning
  }

  /** A window between events of one filesystem is a window of that filesystem. */
  lemma WindowOnFs(evs: seq<W.Event>, i: int, j: int)
    requires W.Window(evs, i, j) && evs[i].fs == evs[j].fs
    ensures var fs := evs[j].fs; var a, b := |On(evs[..i], fs)|, |On(evs[..j], fs)|;
            W.Window(On(evs, fs), a, b) && (Returns(On(evs, fs), a, b) <==> ReturnsOn(evs, fs, i, j))
  {
    var fs := evs[j].fs;
    var own, a, b := On(evs, fs), |On(evs[..i], fs)|, |On(evs[..j], fs)|;
    OnAt(evs, fs, i);
    OnAt(evs, fs, j);
    OnOrder(evs, fs, i, j);
    forall m | a < m < b
      ensures !(own[m].tid == own[a].tid &&
              (own[m].action == QgroupRescan_Enter || own[m].action == RescanZeroTracking_Enter))
    {
      var k := FromOn(evs, fs, m);
      OnOrder(evs, fs, i, k);
      OnOrder(evs, fs, k, j);
    }
    if Returns(own, a, b) {
      var m :| a < m < b && own[m].tid == own[a].tid && own[m].action == QgroupRescan_Done;
      var k := FromOn(evs, fs, m);
      OnOrder(evs, fs, i, k);
      OnOrder(evs, fs, k, j);
    }
    if ReturnsOn(evs, fs, i, j) {
      var m :| i < m < j && evs[m].tid == evs[i].tid && evs[m].action == QgroupRescan_Done && evs[m].fs == fs;
      OnAt(evs, fs, m);
      OnOrder(evs, fs, i, m);
      OnOrder(evs, fs, m, j);
      assert own[|On(evs[..m], fs)|] == evs[m];
    }
  }

  /** A reported window is the commit of the rescan it begins with if and only if that
      rescan is on the filesystem of the zero tracking and the thread does not return from
      a rescan of it meanwhile. A window of one filesystem that is no commit ends in the
      zero tracking of an enable. */
  lemma WindowIsCommitIff(evs: seq<W.Event>, i: int, j: int)
    requires W.Window(evs, i, j) && Legal(Untimed(On(evs, evs[j].fs)))
    ensures evs[i].fs == evs[j].fs ==> (EndsInRescan(evs, j) <==> !ReturnsOn(evs, evs[j].fs, i, j))
    ensures !EndsInRescan(evs, j) ==>
              PhaseOf(AsTrace(Untimed(On(evs[..j], evs[j].fs))), User(evs[j].tid)) == Enabling
  {
    var fs := evs[j].fs;
    var own, b := On(evs, fs), |On(evs[..j], fs)|;
    OnAt(evs, fs, j);
    AsTracePrefix(Untimed(own), b);
    assert Untimed(own)[..b] == Untimed(On(evs[..j], fs));
    LegalStep(Untimed(own), b, User(evs[j].tid));
    OnlyARescanRescans(PhaseOf(AsTrace(Untimed(own))[..b], User(evs[j].tid)), RescanZeroTracking_Enter);
    if evs[i].fs == fs {
      hide Legal, PhaseOf, Returns, ReturnsOn, W.Window;
      WindowOnFs(evs, i, j);
      WindowEndsIn(own, |On(evs[..i], fs)|, b);
    }
  }

  // ----- Waits -----

  /** A reported wait is never that of a disable: when it begins its thread is between two
      operations of the filesystem. */
  lemma WaitIsNoDisable(evs: seq<W.Event>, i: int, j: int)
    requires W.Matched(evs, i, j) && evs[i].action == WaitRescanCompletion_Enter && Legal(Untimed(On(evs, evs[i].fs)))
    ensures AtRest(PhaseOf(AsTrace(Untimed(On(evs[..i], evs[i].fs))), User(evs[i].tid)))
  {
    var fs := evs[i].fs;
    var own, a := On(evs, fs), |On(evs[..i], fs)|;
    OnAt(evs, fs, i);
    AsTracePrefix(Untimed(own), a);
    assert Untimed(own)[..a] == Untimed(On(evs[..i], fs));
    LegalStep(Untimed(own), a, User(evs[i].tid));
    WaitsBeginAtRest(PhaseOf(AsTrace(Untimed(own))[..a], User(evs[i].tid)));
  }

  lemma WaitsBeginAtRest(q: Phase)
    ensures Delta(q, WaitRescanCompletion_Enter) != Dead ==> AtRest(q)
  {
  }

  /** One thread: a rescan that finds accounting off, then an enable. */
  function RescanThenEnable(tid: int): seq<W.Event> {
    [W.Event(1, tid, QgroupRescan_Enter, "fs"), W.Event(2, tid, QgroupRescan_Done, "fs"),
     W.Event(3, tid, QuotaEnable_Enter, "fs"), W.Event(4, tid, RescanZeroTracking_Enter, "fs")]
  }

  lemma RescanThenEnableAccepted(c: Config, tid: int)
    requires tid in c.users
    ensures Accepted(c, AsTrace(Untimed(RescanThenEnable(tid))))
  {
    ReachesInit(c);
    hide Reaches;
    var t := User(tid);
    var trace, s := RescanTurnsBack(c, t);
    trace, s := Visibly(c, trace, s, Enable(t, QuotaEnableEnter));
    trace, s := EnableSilently(c, trace, s, t);
    trace, s := Visibly(c, trace, s, Enable(t, E_ZTEnter));
    assert trace == AsTrace(Untimed(RescanThenEnable(tid)));
    ReachedIsAccepted(c, trace, s);
  }

  lemma RescanTurnsBack(c: Config, t: Task) returns (trace: seq<Event>, s: State)
    requires IsUser(c, t)
    ensures Reaches(c, trace, s) && s == Init(c)
    ensures trace == [Event(t, QgroupRescan_Enter), Event(t, QgroupRescan_Done)]
  {
    ReachesInit(c);
    hide Reaches;
    trace, s := Visibly(c, [], Init(c), Rescan(t, QgroupRescanEnter));
    trace, s := Silently(c, trace, s, Rescan(t, R_Init));
    trace, s := Visibly(c, trace, s, Rescan(t, QgroupRescanDone));
    assert s.pc == Init(c).pc;
  }

  lemma EnableSilently(c: Config, trace: seq<Event>, s: State, t: Task) returns (trace': seq<Event>, s': State)
    requires Reaches(c, trace, s) && At(s, t, En(EnCheck)) && !s.quotaRoot
    requires s.rescanLock == NoTask && s.qgroupLock == NoTask
    ensures trace' == trace && Reaches(c, trace', s') && At(s', t, En(EnZtEnter))
  {
    hide Reaches;
    trace', s' := Silently(c, trace, s, Enable(t, E_Check));
    trace', s' := Silently(c, trace', s', Enable(t, E_Create));
    trace', s' := Silently(c, trace', s', Enable(t, E_SetRoot));
    trace', s' := Silently(c, trace', s', Enable(t, E_RescanInit));
  }

  /** The tool does report a window that is no commit, on a trace the kernel can show. */
  lemma SpuriousWindow(tid: int)
    ensures var evs := RescanThenEnable(tid);
            On(evs, "fs") == evs && Legal(Untimed(evs)) && W.Window(evs, 0, 3) && !EndsInRescan(evs, 3)
  {
    var evs := RescanThenEnable(tid);
    RescanThenEnableAccepted(Config({tid}, true), tid);
    OnlyOneFs(evs, "fs");
    assert evs[1].action == QgroupRescan_Done;
    hide Legal, PhaseOf;
    WindowIsCommitIff(evs, 0, 3);
  }

  lemma {:induction false} OnlyOneFs(evs: seq<W.Event>, fs: string)
    requires forall k :: 0 <= k < |evs| ==> evs[k].fs == fs
    ensures On(evs, fs) == evs
    decreases |evs|
  {
    if evs != [] {
      OnlyOneFs(evs[..|evs| - 1], fs);
    }
  }
}
