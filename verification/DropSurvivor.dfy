/** drop_enter is not illegal by construction: a trace the tool accepts, with its
    default numbers, and a mutant of it that a run of the life cycle shows. */
module DropSurvivor {
  import opened Options
  import opened QgroupLifecycle
  import opened QgroupLanguage
  import opened QgroupUnmount
  import opened MutantLaws
  import opened TraceEvents
  import opened UnmountReading
  import opened UnmountMutants
  import opened DropMutants
  import opened SwapMutants

  /** Thread t enables, waits and disables up to the end of the free. */
  function Opening(t: int): seq<RawEvent> {
    [RawEvent(t, QuotaEnable_Enter), RawEvent(t, QuotaEnable_Done),
     RawEvent(t, WaitRescanCompletion_Enter), RawEvent(t, WaitRescanCompletion_Done),
     RawEvent(t, QuotaDisable_Enter), RawEvent(t, FreeQgroupConfig_Enter), RawEvent(t, FreeQgroupConfig_Done)]
  }

  /** Thread u asks for a rescan n times and is turned back. */
  function Turns(u: int, n: nat): (r: seq<RawEvent>)
    ensures |r| == 2 * n
    ensures forall k :: 0 <= k < 2 * n ==>
            r[k] == RawEvent(u, if k % 2 == 0 then QgroupRescan_Enter else QgroupRescan_Done)
  {
    if n == 0 then [] else Turns(u, n - 1) + [RawEvent(u, QgroupRescan_Enter), RawEvent(u, QgroupRescan_Done)]
  }

  /** While t's disable has yet to return, u's rescans come and go. */
  function LongDisable(t: int, u: int): seq<RawEvent> {
    Opening(t) + Turns(u, 8) + [RawEvent(t, QuotaDisable_Done)]
  }

  lemma EnableSimplyVisibly(c: Config, t: Task) returns (trace: seq<Event>, s: State)
    requires IsUser(c, t)
    ensures Reaches(c, trace, s) && s == Init(c).(quotaRoot := true, quotaEnabled := true, flagOn := true)
    ensures trace == [Event(t, QuotaEnable_Enter), Event(t, QuotaEnable_Done)]
  {
    hide Reaches;
    trace, s := EnableToRoot(c, t);
    trace, s := Silently(c, trace, s, Enable(t, E_SimpleSkip));
    trace, s := Visibly(c, trace, s, Enable(t, QuotaEnableDone));
    assert s.pc == Init(c).pc;
  }

  lemma EnableToRoot(c: Config, t: Task) returns (trace: seq<Event>, s: State)
    requires IsUser(c, t)
    ensures Reaches(c, trace, s) && trace == [Event(t, QuotaEnable_Enter)]
    ensures s == Init(c).(quotaRoot := true, quotaEnabled := true, flagOn := true, subvolSem := t,
                          pc := Init(c).pc[t := En(EnRescanInit)])
  {
    ReachesInit(c);
    hide Reaches;
    trace, s := Visibly(c, [], Init(c), Enable(t, QuotaEnableEnter));
    trace, s := Silently(c, trace, s, Enable(t, E_Check));
    trace, s := Silently(c, trace, s, Enable(t, E_Create));
    trace, s := Silently(c, trace, s, Enable(t, E_SetRoot));
    assert s.pc == Init(c).pc[t := En(EnRescanInit)];
  }

  lemma EnableThenWait(c: Config, t: Task) returns (trace: seq<Event>, s: State)
    requires IsUser(c, t)
    ensures Reaches(c, trace, s) && s == Init(c).(quotaRoot := true, quotaEnabled := true, flagOn := true)
    ensures trace == [Event(t, QuotaEnable_Enter), Event(t, QuotaEnable_Done),
                      Event(t, WaitRescanCompletion_Enter), Event(t, WaitRescanCompletion_Done)]
  {
    hide Reaches;
    trace, s := EnableSimplyVisibly(c, t);
    trace, s := Visibly(c, trace, s, Wait(t, UserWaitEnter));
    trace, s := Silently(c, trace, s, Wait(t, U_WaitRead));
    trace, s := Visibly(c, trace, s, Wait(t, UserWaitDone));
    assert s.pc == Init(c).pc;
  }

  lemma DisableBegun(c: Config, trace: seq<Event>, s: State, t: Task) returns (trace': seq<Event>, s': State)
    requires Reaches(c, trace, s) && At(s, t, Dis(DisCheck)) && s.quotaRoot
    ensures trace' == trace && Reaches(c, trace', s')
    ensures s' == s.(quotaEnabled := false, pc := s.pc[t := Dis(DisWaitEnter)])
  {
    hide Reaches;
    trace', s' := Silently(c, trace, s, Disable(t, D_Check));
    trace', s' := Silently(c, trace', s', Disable(t, D_ClearEnabled));
    assert s'.pc == s.pc[t := Dis(DisWaitEnter)];
  }

  lemma DisableReads(c: Config, trace: seq<Event>, s: State, t: Task) returns (trace': seq<Event>, s': State)
    requires Reaches(c, trace, s) && At(s, t, Dis(DisWaitEnter)) && !s.rescanRunning && s.rescanLock == NoTask
    ensures trace' == trace && Reaches(c, trace', s') && s' == s.(pc := s.pc[t := Dis(DisWaitDone)])
  {
    hide Reaches;
    trace', s' := Silently(c, trace, s, Disable(t, D_WaitEnter));
    trace', s' := Silently(c, trace', s', Disable(t, D_WaitRead));
    assert s'.pc == s.pc[t := Dis(DisWaitDone)];
  }

  lemma DisableCommits(c: Config, trace: seq<Event>, s: State, t: Task) returns (trace': seq<Event>, s': State)
    requires Reaches(c, trace, s) && At(s, t, Dis(DisWaitDone))
    ensures trace' == trace && Reaches(c, trace', s') && s' == s.(pc := s.pc[t := Dis(DisClearRoot)])
  {
    hide Reaches;
    trace', s' := Silently(c, trace, s, Disable(t, D_WaitDone));
    trace', s' := Silently(c, trace', s', Disable(t, D_Trans));
    assert s'.pc == s.pc[t := Dis(DisClearRoot)];
  }

  lemma DisableSilently(c: Config, trace: seq<Event>, s: State, t: Task) returns (trace': seq<Event>, s': State)
    requires Reaches(c, trace, s) && At(s, t, Dis(DisCheck)) && s.quotaRoot && !s.rescanRunning
    requires s.rescanLock == NoTask && s.qgroupLock == NoTask
    ensures trace' == trace && Reaches(c, trace', s')
    ensures s' == s.(quotaRoot := false, quotaEnabled := false, flagOn := false, pc := s.pc[t := Dis(DisFreeEnter)])
  {
    hide Reaches;
    trace', s' := DisableBegun(c, trace, s, t);
    trace', s' := DisableReads(c, trace', s', t);
    trace', s' := DisableCommits(c, trace', s', t);
    trace', s' := Silently(c, trace', s', Disable(t, D_ClearRoot));
    assert s'.pc == s.pc[t := Dis(DisFreeEnter)];
  }

  // ----- The trace is legal, and all its operations finish -----

  /** From the end of the wait to the end of the free. */
  lemma DisableThroughFree(c: Config, trace: seq<Event>, s: State, t: Task) returns (trace': seq<Event>, s': State)
    requires Reaches(c, trace, s) && IsUser(c, t) && At(s, t, Idle) && !Closing(s) && !c.fix
    requires s.quotaRoot && !s.rescanRunning && s.subvolSem == NoTask && s.rescanLock == NoTask &&
             s.qgroupLock == NoTask
    ensures trace' == trace
            + [Event(t, QuotaDisable_Enter), Event(t, FreeQgroupConfig_Enter), Event(t, FreeQgroupConfig_Done)]
    ensures Reaches(c, trace', s') && s'.pc == s.pc[t := Dis(DisClean)]
    ensures !s'.flagOn && s'.subvolSem == t && s'.rescanLock == NoTask
  {
    hide Reaches;
    trace', s' := Visibly(c, trace, s, Disable(t, QuotaDisableEnter));
    trace', s' := DisableSilently(c, trace', s', t);
    trace', s' := FreesQgroups(c, trace', s', t);
    assert s'.pc == s.pc[t := Dis(DisClean)];
  }

  lemma FreesQgroups(c: Config, trace: seq<Event>, s: State, t: Task) returns (trace': seq<Event>, s': State)
    requires Reaches(c, trace, s) && At(s, t, Dis(DisFreeEnter)) && !c.fix
    ensures trace' == trace + [Event(t, FreeQgroupConfig_Enter), Event(t, FreeQgroupConfig_Done)]
    ensures Reaches(c, trace', s') && s'.pc == s.pc[t := Dis(DisClean)]
    ensures s'.flagOn == s.flagOn && s'.subvolSem == s.subvolSem && s'.rescanLock == s.rescanLock
  {
    hide Reaches;
    trace', s' := Visibly(c, trace, s, Disable(t, D_FreeEnter));
    trace', s' := FreesAll(c, trace', s', t);
    trace', s' := Visibly(c, trace', s', Disable(t, D_FreeDone));
    assert s'.pc == s.pc[t := Dis(DisClean)];
  }

  lemma FreesAll(c: Config, trace: seq<Event>, s: State, t: Task) returns (trace': seq<Event>, s': State)
    requires Reaches(c, trace, s) && At(s, t, Dis(DisFreeDo)) && !c.fix
    ensures trace' == trace && Reaches(c, trace', s') && s'.pc == s.pc[t := Dis(DisFreeDone)]
    ensures s'.flagOn == s.flagOn && s'.subvolSem == s.subvolSem && s'.rescanLock == s.rescanLock
  {
    hide Reaches;
    trace', s' := Silently(c, trace, s, Disable(t, D_FreeDo));
  }

  /** A rescan with accounting off comes and goes and changes nothing. */
  lemma TurnsBack(c: Config, trace: seq<Event>, s: State, u: Task) returns (trace': seq<Event>)
    requires Reaches(c, trace, s) && IsUser(c, u) && At(s, u, Idle) && !Closing(s) && !s.flagOn &&
             s.rescanLock == NoTask
    ensures trace' == trace + [Event(u, QgroupRescan_Enter), Event(u, QgroupRescan_Done)] && Reaches(c, trace', s)
  {
    hide Reaches;
    var s1, s2, s3;
    trace', s1 := Visibly(c, trace, s, Rescan(u, QgroupRescanEnter));
    trace', s2 := Silently(c, trace', s1, Rescan(u, R_Init));
    trace', s3 := Visibly(c, trace', s2, Rescan(u, QgroupRescanDone));
    assert s3.pc == s.pc;
  }

  lemma {:induction false} AllTurnBack(c: Config, trace: seq<Event>, s: State, u: int, n: nat)
      returns (trace': seq<Event>)
    requires Reaches(c, trace, s) && u in c.users && At(s, User(u), Idle) && !Closing(s) && !s.flagOn
    requires s.rescanLock == NoTask
    ensures trace' == trace + AsTrace(Turns(u, n)) && Reaches(c, trace', s)
    decreases n
  {
    hide Reaches;
    if n == 0 {
      trace' := trace;
      assert trace + AsTrace(Turns(u, 0)) == trace;
    } else {
      trace' := AllTurnBack(c, trace, s, u, n - 1);
      trace' := TurnsBack(c, trace', s, User(u));
      assert AsTrace(Turns(u, n))
          == AsTrace(Turns(u, n - 1)) + [Event(User(u), QgroupRescan_Enter), Event(User(u), QgroupRescan_Done)];
    }
  }

  lemma DisableReturns(c: Config, trace: seq<Event>, s: State, t: Task) returns (trace': seq<Event>, s': State)
    requires Reaches(c, trace, s) && At(s, t, Dis(DisClean)) && s.subvolSem == t
    ensures trace' == trace + [Event(t, QuotaDisable_Done)] && Reaches(c, trace', s') && s'.pc == s.pc[t := Idle]
  {
    hide Reaches;
    trace', s' := Silently(c, trace, s, Disable(t, D_Clean));
    trace', s' := Visibly(c, trace', s', Disable(t, QuotaDisableDone));
  }

  lemma LongDisableParts(t: int, u: int)
    ensures |LongDisable(t, u)| == 24
    ensures AsTrace(LongDisable(t, u))
              == AsTrace(Opening(t)) + AsTrace(Turns(u, 8)) + [Event(User(t), QuotaDisable_Done)]
    ensures AsTrace(Opening(t))
              == [Event(User(t), QuotaEnable_Enter), Event(User(t), QuotaEnable_Done),
                  Event(User(t), WaitRescanCompletion_Enter), Event(User(t), WaitRescanCompletion_Done)]
                 + [Event(User(t), QuotaDisable_Enter), Event(User(t), FreeQgroupConfig_Enter),
                    Event(User(t), FreeQgroupConfig_Done)]
  {
  }

  lemma LongDisableFinishes(t: int, u: int)
    requires t != u
    ensures Finished(LongDisable(t, u))
  {
    var c := Config({t, u}, false);
    hide Reaches, LongDisable, Opening, Turns;
    var trace, s := EnableThenWait(c, User(t));
    trace, s := DisableThroughFree(c, trace, s, User(t));
    trace := AllTurnBack(c, trace, s, u, 8);
    trace, s := DisableReturns(c, trace, s, User(t));
    LongDisableParts(t, u);
    ReachedIdle(c, LongDisable(t, u), s);
  }

  lemma ReachedIdle(c: Config, events: seq<RawEvent>, s: State)
    requires Reaches(c, AsTrace(events), s) && AllIdle(s)
    ensures Finished(events)
  {
  }

  lemma FinishedIsLegal(events: seq<RawEvent>)
    requires Finished(events)
    ensures Legal(events)
  {
    var c, steps :| RunProjectsTo(c, steps, AsTrace(events)) && AllIdle(After(c, Init(c), steps).value);
    assert Accepted(c, AsTrace(events));
  }

  // ----- Its candidates, with the default of six mutants -----

  /** The positions with a later event of the thread: the operations of t and of u. */
  function LongCandidates(): (r: seq<int>)
    ensures |r| == 12 && r[2] == 4
  {
    [0, 2, 4, 5] + seq(8, k requires 0 <= k < 8 => 7 + 2 * k)
  }

  lemma LongDisableAt(t: int, u: int, k: nat)
    requires k < 24
    ensures |LongDisable(t, u)| == 24
    ensures k < 7 ==> LongDisable(t, u)[k] == Opening(t)[k]
    ensures 7 <= k < 23 ==>
              LongDisable(t, u)[k] == RawEvent(u, if k % 2 == 1 then QgroupRescan_Enter else QgroupRescan_Done)
    ensures k == 23 ==> LongDisable(t, u)[k] == RawEvent(t, QuotaDisable_Done)
  {
  }

  /** Every Enter is followed at once by an event of its thread. */
  lemma EnterIsOrphanable(t: int, u: int, k: nat)
    requires t != u && k < 24
    ensures |LongDisable(t, u)| == 24 && (Orphans(LongDisable(t, u), k) <==> IsEnter(LongDisable(t, u)[k].action))
  {
    LongDisableAt(t, u, k);
    if k < 23 {
      LongDisableAt(t, u, k + 1);
      if IsEnter(LongDisable(t, u)[k].action) {
        assert NextOfTask(LongDisable(t, u), k, k + 1);
      }
    }
  }

  lemma LongCandidateAt(t: int, u: int, k: nat)
    requires k < 24
    ensures |LongDisable(t, u)| == 24 && (k in LongCandidates() <==> IsEnter(LongDisable(t, u)[k].action))
  {
    LongDisableAt(t, u, k);
    if k % 2 == 1 && 7 <= k < 23 {
      assert LongCandidates()[4 + (k - 7) / 2] == k;
    }
  }

  lemma LongDisableCandidates(t: int, u: int)
    requires t != u
    ensures AreOrphaning(LongDisable(t, u), LongCandidates())
  {
    LongDisableAt(t, u, 0);
    forall k
      ensures k in LongCandidates() <==> Orphans(LongDisable(t, u), k)
    {
      if 0 <= k < 24 {
        EnterIsOrphanable(t, u, k);
        LongCandidateAt(t, u, k);
      }
    }
  }

  /** The candidates are determined by the trace. */
  lemma CandidatesDetermined(events: seq<RawEvent>, a: seq<int>, b: seq<int>)
    requires AreOrphaning(events, a) && AreOrphaning(events, b)
    ensures a == b
  {
    SameIncreasing(a, b);
  }

  lemma FirstIn<T>(b: seq<T>)
    ensures b == [] || b[0] in b
  {
  }

  lemma {:induction false} SameIncreasing(a: seq<int>, b: seq<int>)
    requires forall x :: x in a <==> x in b
    requires forall k, l :: 0 <= k < l < |a| ==> a[k] < a[l]
    requires forall k, l :: 0 <= k < l < |b| ==> b[k] < b[l]
    ensures a == b
    decreases |a|
  {
    if a == [] {
      FirstIn(b);
    } else {
      assert a[0] in b && (b != [] ==> b[0] in a);
      assert a[0] == b[0];
      forall x
        ensures x in a[1..] <==> x in b[1..]
      {
        assert x in a[1..] <==> x in a && x != a[0];
        assert x in b[1..] <==> x in b && x != b[0];
      }
      SameIncreasing(a[1..], b[1..]);
      assert a == [a[0]] + a[1..] && b == [b[0]] + b[1..];
    }
  }

  // ----- The mutant that stays legal -----

  lemma EventAt(t: int, u: int, k: nat)
    requires k < 16
    ensures |AsTrace(LongDisable(t, u))| == 24
    ensures var e := AsTrace(LongDisable(t, u))[k];
            if k < 7 then e == Event(User(t), Opening(t)[k].action)
            else e.task == User(u) && e.action != RescanWorker_Enter
  {
    LongDisableAt(t, u, k);
  }

  lemma OthersSilent(x: seq<Event>, t: Task)
    requires forall k :: 0 <= k < |x| ==> x[k].task == t
    ensures OthersRest(x, t)
  {
    forall u: Task | u.User? && u != t
      ensures AtRest(PhaseOf(x, u))
    {
      QuietSuffix(x, 0, u);
    }
  }

  lemma LongDisablePasses(t: int, u: int)
    requires t != u
    ensures var x := AsTrace(LongDisable(t, u));
            |x| == 24 && PassesForUnmount(x[..16], 4) && CutPassesForUnmount(x, 4, 5, 5)
  {
    LongDisableAt(t, u, 0);
    var x, me := AsTrace(LongDisable(t, u)), User(t);
    forall k | 0 <= k < 16
      ensures if k < 7 then x[k] == Event(me, Opening(t)[k].action)
              else x[k].task == User(u) && x[k].action != RescanWorker_Enter
    {
      EventAt(t, u, k);
    }
    OthersSilent(x[..2], me);
    hide OthersRest, LongDisable;
    assert WaitsThenDisables(x, me, 2, 3, 4) && AloneUntil(x, me, 2, 5);
    var y := x[..16];
    assert y[..2] == x[..2];
    assert WaitsThenDisables(y, me, 2, 3, 4) && FreesLast(y, me, 4, 5, 6) && Alone(y, me, 2, 6);
  }

  /** What is written of the mutant of LongDisable that lacks the start of the disable. */
  lemma SurvivorIsLegal(t: int, u: int)
    requires t != u
    ensures var events := LongDisable(t, u);
            && |events| == 24 && IsDropMutant(events, 4, Mutant(Dropped(events, 4), 4))
            && Legal(Cut(Mutant(Dropped(events, 4), 4), 10)) && Legal(Cut(SwapMutant(events, 4, 5), 0))
  {
    var events := LongDisable(t, u);
    LongDisableFinishes(t, u);
    FinishedIsLegal(events);
    LongDisableAt(t, u, 4);
    LongDisableAt(t, u, 5);
    LongDisablePasses(t, u);
    hide Legal, Finished, LongDisable, PassesForUnmount, CutPassesForUnmount;
    assert NextOfTask(events, 4, 5);
    CutDropIsLegalIff(events, 4, 5, 15);
    CutSwapIsLegalIff(events, 4, 5, 5);
  }

  /** By default six mutants are made of each kind and ten events kept after the promised
      position. For this trace of 24 events, all of whose operations finish, the second
      sample loses the start of the disable, and what is written of that mutant is legal;
      so is what a cut without further events shows of the swap at the same place. */
  lemma DropCanSurvive(t: int, u: int, cands: seq<int>)
    requires t != u && AreOrphaning(LongDisable(t, u), cands)
    ensures |LongDisable(t, u)| == 24 && Finished(LongDisable(t, u))
    ensures Spread(cands, 6).Some? && |Spread(cands, 6).value| == 6 && Spread(cands, 6).value[1] == 4
    ensures var m := Mutant(Dropped(LongDisable(t, u), 4), 4);
            IsDropMutant(LongDisable(t, u), 4, m) && Legal(Cut(m, 10))
    ensures Legal(Cut(SwapMutant(LongDisable(t, u), 4, 5), 0))
  {
    LongDisableFinishes(t, u);
    LongDisableCandidates(t, u);
    CandidatesDetermined(LongDisable(t, u), cands, LongCandidates());
    assert Sample(12, 6, 1) == 2;
    SurvivorIsLegal(t, u);
  }
}
