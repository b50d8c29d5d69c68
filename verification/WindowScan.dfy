/** Scanning a raw trace for wall-clock overlaps: pairing the start and end of each
    operation, the commit windows of rescans, and the search for overlapping pairs. */
module WindowScan {
  import opened Options
  import opened Counting
  import opened QgroupLifecycle

  /** A trace event; `fs` names the filesystem. */
  datatype Event = Event(ts: int, tid: int, action: Action, fs: string)

  /** A stretch of time one thread spent in an operation (`kind` is its start), or in
      the commit of a rescan (no kind). */
  datatype Span = Span(kind: Option<Action>, tid: int, fs: string, a: int, b: int)

  /** The start an end belongs to; None for a start. */
  function EnterOf(a: Action): Option<Action> {
    match a
    case QuotaEnable_Done => Some(QuotaEnable_Enter)
    case QuotaDisable_Done => Some(QuotaDisable_Enter)
    case QgroupRescan_Done => Some(QgroupRescan_Enter)
    case RescanZeroTracking_Done => Some(RescanZeroTracking_Enter)
    case WaitRescanCompletion_Done => Some(WaitRescanCompletion_Enter)
    case FreeQgroupConfig_Done => Some(FreeQgroupConfig_Enter)
    case RescanWorker_Done => Some(RescanWorker_Enter)
    case _ => None
  }

  // ----- What matching means -----

  /** A thread and a kind of operation. */
  datatype Key = Key(tid: int, kind: Action)

  predicate Opens(e: Event, k: Key) { e.tid == k.tid && e.action == k.kind && EnterOf(e.action).None? }
  predicate Closes(e: Event, k: Key) { e.tid == k.tid && EnterOf(e.action) == Some(k.kind) }

  function KeyOf(e: Event): Key { Key(e.tid, if EnterOf(e.action).Some? then EnterOf(e.action).value else e.action) }

  /** Starts minus ends of the key from position lo up to hi. */
  function Height(evs: seq<Event>, lo: nat, hi: nat, k: Key): int
    requires lo <= hi <= |evs|
    decreases hi - lo
  {
    if lo == hi then 0
    else Height(evs, lo, hi - 1, k) + Bit(Opens(evs[hi - 1], k)) - Bit(Closes(evs[hi - 1], k))
  }

  /** The operations of the key started since the start at i, less those ended. */
  function Above(evs: seq<Event>, i: nat, n: nat, k: Key): int
    requires i < n <= |evs|
  {
    Height(evs, i + 1, n, k)
  }

  /** The start at i is not yet closed before n: from there on no more ends than starts. */
  ghost predicate Open(evs: seq<Event>, i: int, n: int, k: Key) {
    && 0 <= i < n <= |evs| && Opens(evs[i], k)
    && forall m :: i < m <= n ==> Above(evs, i, m, k) >= 0
  }

  /** i and j are the brackets of one operation: what lies between is balanced. */
  ghost predicate Matched(evs: seq<Event>, i: int, j: int) {
    && 0 <= i < j < |evs| && Closes(evs[j], KeyOf(evs[i])) && Open(evs, i, j, KeyOf(evs[i]))
    && Above(evs, i, j, KeyOf(evs[i])) == 0
  }

  lemma {:induction false} HeightSplit(evs: seq<Event>, lo: nat, mid: nat, hi: nat, k: Key)
    requires lo <= mid <= hi <= |evs|
    ensures Height(evs, lo, hi, k) == Height(evs, lo, mid, k) + Height(evs, mid, hi, k)
    decreases hi - mid
  {
    if mid < hi {
      HeightSplit(evs, lo, mid, hi - 1, k);
    }
  }

  /** A start inside an operation raises it for as long as it is open itself. */
  lemma InnerRaises(evs: seq<Event>, i: nat, i2: nat, n: nat, k: Key)
    requires i < i2 < n <= |evs| && Opens(evs[i2], k) && Above(evs, i, i2, k) >= 0 && Above(evs, i2, n, k) >= 0
    ensures Above(evs, i, n, k) >= 1
  {
    HeightSplit(evs, i + 1, i2 + 1, n, k);
  }

  /** An end brings the operation it closes below its start. */
  lemma CloseEnds(evs: seq<Event>, i: int, j: int, n: int)
    requires Matched(evs, i, j) && j < n <= |evs|
    ensures !Open(evs, i, n, KeyOf(evs[i]))
  {
    assert Above(evs, i, j + 1, KeyOf(evs[i])) == -1;
  }

  /** Every start and every end is in at most one operation, and two operations of one
      thread and kind are nested or apart. */
  lemma MatchedOnceAndNested(evs: seq<Event>, i: int, j: int, i2: int, j2: int)
    requires Matched(evs, i, j) && Matched(evs, i2, j2) && i <= i2
    ensures i == i2 <==> j == j2
    ensures KeyOf(evs[i]) == KeyOf(evs[i2]) && i < i2 ==> j < i2 || j2 < j
  {
    var k := KeyOf(evs[i]);
    if KeyOf(evs[i2]) == k {
      if i == i2 {
        if j < j2 {
          CloseEnds(evs, i, j, j2);
        } else if j2 < j {
          CloseEnds(evs, i, j2, j);
        }
      } else if i2 < j <= j2 {
        InnerRaises(evs, i, i2, j, k);
      }
    }
  }

  // ----- Pairing with a stack -----

  function SpanOf(evs: seq<Event>, i: int, j: int): Span
    requires 0 <= i < j < |evs|
  {
    Span(Some(KeyOf(evs[i]).kind), evs[j].tid, evs[j].fs, evs[i].ts, evs[j].ts)
  }

  /** The stack of a key holds its open starts in order, each with as many above it as
      there are above it in the stack. */
  ghost predicate StackOk(evs: seq<Event>, n: nat, k: Key, st: seq<int>)
    requires n <= |evs|
  {
    && (forall i :: i in st <==> Open(evs, i, n, k))
    && (forall p, q :: 0 <= p < q < |st| ==> st[p] < st[q])
    && (forall p :: 0 <= p < |st| ==> 0 <= st[p] < n && Above(evs, st[p], n, k) == |st| - 1 - p)
  }

  /** The pairs found, in the order of their ends. */
  ghost predicate PairsOk(evs: seq<Event>, n: nat, pairs: seq<(int, int)>)
    requires n <= |evs|
  {
    && (forall p :: p in pairs <==> p.1 < n && Matched(evs, p.0, p.1))
    && (forall p, q :: 0 <= p < q < |pairs| ==> pairs[p].1 < pairs[q].1)
  }

  ghost predicate SpansOk(evs: seq<Event>, pairs: seq<(int, int)>, out: seq<Span>) {
    && |out| == |pairs|
    && forall p :: 0 <= p < |out| ==>
         0 <= pairs[p].0 < pairs[p].1 < |evs| && out[p] == SpanOf(evs, pairs[p].0, pairs[p].1)
  }

  function StackAt(stacks: map<Key, seq<int>>, k: Key): seq<int> { if k in stacks then stacks[k] else [] }

  lemma OpenStep(evs: seq<Event>, i: int, n: nat, k: Key)
    requires n < |evs|
    ensures Open(evs, i, n + 1, k) <==>
            (i == n && Opens(evs[n], k)) || (Open(evs, i, n, k) && Above(evs, i, n + 1, k) >= 0)
    ensures 0 <= i < n ==>
              Above(evs, i, n + 1, k) == Above(evs, i, n, k) + Bit(Opens(evs[n], k)) - Bit(Closes(evs[n], k))
  {
    if Open(evs, i, n, k) && Above(evs, i, n + 1, k) >= 0 {
      forall m | i < m <= n + 1
        ensures Above(evs, i, m, k) >= 0
      {
      }
    }
  }

  /** The stacks of other keys stay as they are. */
  lemma StackKeeps(evs: seq<Event>, n: nat, k: Key, st: seq<int>)
    requires n < |evs| && StackOk(evs, n, k, st) && !Opens(evs[n], k) && !Closes(evs[n], k)
    ensures StackOk(evs, n + 1, k, st)
  {
    forall i
      ensures i in st <==> Open(evs, i, n + 1, k)
    {
      OpenStep(evs, i, n, k);
    }
    forall p | 0 <= p < |st|
      ensures Above(evs, st[p], n + 1, k) == |st| - 1 - p
    {
      OpenStep(evs, st[p], n, k);
    }
  }

  lemma StackPushes(evs: seq<Event>, n: nat, k: Key, st: seq<int>)
    requires n < |evs| && StackOk(evs, n, k, st) && Opens(evs[n], k)
    ensures StackOk(evs, n + 1, k, st + [n])
  {
    forall i
      ensures i in st + [n] <==> Open(evs, i, n + 1, k)
    {
      OpenStep(evs, i, n, k);
    }
    forall p | 0 <= p < |st|
      ensures Above(evs, st[p], n + 1, k) == |st| - p
    {
      OpenStep(evs, st[p], n, k);
    }
  }

  lemma StackPops(evs: seq<Event>, n: nat, k: Key, st: seq<int>)
    requires n < |evs| && StackOk(evs, n, k, st) && Closes(evs[n], k)
    ensures StackOk(evs, n + 1, k, if st == [] then [] else st[..|st| - 1])
  {
    if st == [] {
      var next := n + 1;
      forall i
        ensures !Open(evs, i, next, k)
      {
        OpenStep(evs, i, n, k);
        assert i !in st;
      }
      return;
    }
    var rest, top := st[..|st| - 1], st[|st| - 1];
    forall i
      ensures i in rest <==> Open(evs, i, n + 1, k)
    {
      OpenStep(evs, i, n, k);
      assert st == rest + [top];
      if i in rest {
        var p :| 0 <= p < |rest| && rest[p] == i;
        assert st[p] == i;
      }
    }
    forall p | 0 <= p < |rest|
      ensures Above(evs, rest[p], n + 1, k) == |rest| - 1 - p
    {
      OpenStep(evs, st[p], n, k);
    }
  }

  /** An end closes the top of its stack and nothing else. */
  lemma TopIsMatched(evs: seq<Event>, n: nat, k: Key, st: seq<int>, i: int)
    requires n < |evs| && StackOk(evs, n, k, st) && Closes(evs[n], k)
    ensures Matched(evs, i, n) <==> st != [] && i == st[|st| - 1]
  {
    if Matched(evs, i, n) {
      assert i in st;
      var p :| 0 <= p < |st| && st[p] == i;
    }
    if st != [] && i == st[|st| - 1] {
      assert i in st;
    }
  }

  function Pushed(stacks: map<Key, seq<int>>, e: Event, n: int): map<Key, seq<int>> {
    stacks[KeyOf(e) := StackAt(stacks, KeyOf(e)) + [n]]
  }

  function Popped(stacks: map<Key, seq<int>>, e: Event): map<Key, seq<int>> {
    var st := StackAt(stacks, KeyOf(e));
    if st == [] then stacks else stacks[KeyOf(e) := st[..|st| - 1]]
  }

  ghost predicate StacksOk(evs: seq<Event>, n: nat, stacks: map<Key, seq<int>>)
    requires n <= |evs|
  {
    forall k :: StackOk(evs, n, k, StackAt(stacks, k))
  }

  lemma StacksStep(evs: seq<Event>, n: nat, stacks: map<Key, seq<int>>)
    requires n < |evs| && StacksOk(evs, n, stacks)
    ensures EnterOf(evs[n].action).None? ==> StacksOk(evs, n + 1, Pushed(stacks, evs[n], n))
    ensures EnterOf(evs[n].action).Some? ==> StacksOk(evs, n + 1, Popped(stacks, evs[n]))
  {
    var e := evs[n];
    forall k
      ensures EnterOf(e.action).None? ==> StackOk(evs, n + 1, k, StackAt(Pushed(stacks, e, n), k))
      ensures EnterOf(e.action).Some? ==> StackOk(evs, n + 1, k, StackAt(Popped(stacks, e), k))
    {
      var st := StackAt(stacks, k);
      assert StackOk(evs, n, k, st);
      if k != KeyOf(e) {
        StackKeeps(evs, n, k, st);
      } else if EnterOf(e.action).None? {
        StackPushes(evs, n, k, st);
      } else {
        StackPops(evs, n, k, st);
      }
    }
  }

  /** Which start the end at n closes. */
  lemma ClosedAt(evs: seq<Event>, n: nat, stacks: map<Key, seq<int>>, i: int)
    requires n < |evs| && StacksOk(evs, n, stacks)
    ensures var st := StackAt(stacks, KeyOf(evs[n]));
            Matched(evs, i, n) <==> EnterOf(evs[n].action).Some? && st != [] && i == st[|st| - 1]
  {
    var key := KeyOf(evs[n]);
    assert StackOk(evs, n, key, StackAt(stacks, key));
    hide StackOk, StacksOk, Open, Above;
    if EnterOf(evs[n].action).Some? {
      TopIsMatched(evs, n, key, StackAt(stacks, key), i);
    }
  }

  lemma PairsStep(evs: seq<Event>, n: nat, stacks: map<Key, seq<int>>, pairs: seq<(int, int)>)
    requires n < |evs| && StacksOk(evs, n, stacks) && PairsOk(evs, n, pairs)
    ensures var st := StackAt(stacks, KeyOf(evs[n]));
            PairsOk(evs, n + 1, if EnterOf(evs[n].action).None? || st == [] then pairs
                                else pairs + [(st[|st| - 1], n)])
  {
    hide StacksOk, Matched;
    var st := StackAt(stacks, KeyOf(evs[n]));
    forall i
      ensures Matched(evs, i, n) <==> EnterOf(evs[n].action).Some? && st != [] && i == st[|st| - 1]
    {
      ClosedAt(evs, n, stacks, i);
    }
    forall p | 0 <= p < |pairs|
      ensures pairs[p].1 < n
    {
      assert pairs[p] in pairs;
    }
  }

  lemma NothingYet(evs: seq<Event>)
    ensures StacksOk(evs, 0, map[]) && PairsOk(evs, 0, []) && SpansOk(evs, [], [])
  {
  }

  lemma TopIsStart(evs: seq<Event>, n: nat, stacks: map<Key, seq<int>>, k: Key)
    requires n < |evs| && StacksOk(evs, n, stacks) && StackAt(stacks, k) != []
    ensures var st := StackAt(stacks, k); 0 <= st[|st| - 1] < n && KeyOf(evs[st[|st| - 1]]) == k
  {
    var st := StackAt(stacks, k);
    assert StackOk(evs, n, k, st);
    assert Open(evs, st[|st| - 1], n, k);
  }

  lemma SpansStep(evs: seq<Event>, pairs: seq<(int, int)>, out: seq<Span>, i: int, n: int)
    requires SpansOk(evs, pairs, out) && 0 <= i < n < |evs|
    ensures SpansOk(evs, pairs + [(i, n)], out + [SpanOf(evs, i, n)])
  {
  }

  /** The spans are exactly those of the matched pairs, in the order of their ends. */
  ghost predicate AreIntervals(evs: seq<Event>, out: seq<Span>) {
    exists pairs :: PairsOk(evs, |evs|, pairs) && SpansOk(evs, pairs, out)
  }

  /** The operations of the trace. */
  method Intervals(evs: seq<Event>) returns (out: seq<Span>)
    ensures AreIntervals(evs, out)
  {
    var stacks: map<Key, seq<int>> := map[];
    ghost var pairs: seq<(int, int)> := [];
    out := [];
    NothingYet(evs);
    hide StacksOk, PairsOk, SpansOk;
    for n := 0 to |evs|
      invariant StacksOk(evs, n, stacks)
      invariant PairsOk(evs, n, pairs) && SpansOk(evs, pairs, out)
    {
      var e := evs[n];
      var key := KeyOf(e);
      var st := StackAt(stacks, key);
      StacksStep(evs, n, stacks);
      PairsStep(evs, n, stacks, pairs);
      if EnterOf(e.action).None? {
        stacks := stacks[key := st + [n]];
      } else if st != [] {
        TopIsStart(evs, n, stacks, key);
        var start := st[|st| - 1];
        SpansStep(evs, pairs, out, start, n);
        stacks := stacks[key := st[..|st| - 1]];
        out := out + [Span(Some(key.kind), e.tid, e.fs, evs[start].ts, e.ts)];
        pairs := pairs + [(start, n)];
      }
    }
  }

  // ----- Commit windows -----

  /** i starts a rescan of a thread, j is the thread's next zero tracking, and the thread
      starts no rescan in between. */
  ghost predicate Window(evs: seq<Event>, i: int, j: int) {
    && 0 <= i < j < |evs| && evs[i].tid == evs[j].tid
    && evs[i].action == QgroupRescan_Enter && evs[j].action == RescanZeroTracking_Enter
    && forall m :: i < m < j && evs[m].tid == evs[i].tid ==>
         evs[m].action != QgroupRescan_Enter && evs[m].action != RescanZeroTracking_Enter
  }

  /** The thread's last rescan start with no zero tracking since. */
  ghost predicate Pending(evs: seq<Event>, tid: int, i: int, n: int) {
    && 0 <= i < n <= |evs| && evs[i].tid == tid && evs[i].action == QgroupRescan_Enter
    && forall m :: i < m < n && evs[m].tid == tid ==>
         evs[m].action != QgroupRescan_Enter && evs[m].action != RescanZeroTracking_Enter
  }

  ghost predicate PendingOk(evs: seq<Event>, n: nat, pending: map<int, int>)
    requires n <= |evs|
  {
    forall t, i :: Pending(evs, t, i, n) <==> t in pending && pending[t] == i
  }

  ghost predicate WindowsOk(evs: seq<Event>, n: nat, pairs: seq<(int, int)>, wins: seq<Span>)
    requires n <= |evs|
  {
    && (forall p :: p in pairs <==> p.1 < n && Window(evs, p.0, p.1))
    && (forall p, q :: 0 <= p < q < |pairs| ==> pairs[p].1 < pairs[q].1)
    && |wins| == |pairs|
    && forall p :: 0 <= p < |wins| ==>
         0 <= pairs[p].0 < pairs[p].1 < |evs| && wins[p] == WindowOf(evs, pairs[p].0, pairs[p].1)
  }

  function WindowOf(evs: seq<Event>, i: int, j: int): Span
    requires 0 <= i < j < |evs|
  {
    Span(None, evs[j].tid, evs[j].fs, evs[i].ts, evs[j].ts)
  }

  lemma PendingStep(evs: seq<Event>, n: nat, pending: map<int, int>)
    requires n < |evs| && PendingOk(evs, n, pending)
    ensures var e := evs[n];
            PendingOk(evs, n + 1,
                      if e.action == QgroupRescan_Enter then pending[e.tid := n]
                      else if e.action == RescanZeroTracking_Enter then pending - {e.tid}
                      else pending)
  {
    var e, next := evs[n], n + 1;
    forall t, i
      ensures Pending(evs, t, i, next) <==>
              (if t == e.tid && e.action == QgroupRescan_Enter then i == n
               else Pending(evs, t, i, n) && !(t == e.tid && e.action == RescanZeroTracking_Enter))
    {
    }
  }

  /** The spans are exactly those of the commit windows, in the order of their ends. */
  ghost predicate AreCommitWindows(evs: seq<Event>, wins: seq<Span>) {
    exists pairs :: WindowsOk(evs, |evs|, pairs, wins)
  }

  method CommitWindows(evs: seq<Event>) returns (wins: seq<Span>)
    ensures AreCommitWindows(evs, wins)
  {
    var pending: map<int, int> := map[];
    ghost var pairs: seq<(int, int)> := [];
    wins := [];
    for n := 0 to |evs|
      invariant PendingOk(evs, n, pending) && WindowsOk(evs, n, pairs, wins)
    {
      var e := evs[n];
      PendingStep(evs, n, pending);
      WindowsStep(evs, n, pending, pairs, wins);
      if e.action == QgroupRescan_Enter {
        pending := pending[e.tid := n];
      } else if e.action == RescanZeroTracking_Enter && e.tid in pending {
        var start := pending[e.tid];
        assert Pending(evs, e.tid, start, n);
        pending := pending - {e.tid};
        wins := wins + [Span(None, e.tid, e.fs, evs[start].ts, e.ts)];
        pairs := pairs + [(start, n)];
      } else if e.action == RescanZeroTracking_Enter {
        assert pending - {e.tid} == pending;
      }
    }
  }

  lemma WindowsStep(evs: seq<Event>, n: nat, pending: map<int, int>, pairs: seq<(int, int)>, wins: seq<Span>)
    requires n < |evs| && PendingOk(evs, n, pending) && WindowsOk(evs, n, pairs, wins)
    ensures var e := evs[n];
            if e.action == RescanZeroTracking_Enter && e.tid in pending
            then 0 <= pending[e.tid] < n
                 && WindowsOk(evs, n + 1, pairs + [(pending[e.tid], n)], wins + [WindowOf(evs, pending[e.tid], n)])
            else WindowsOk(evs, n + 1, pairs, wins)
  {
    var e := evs[n];
    forall i
      ensures Window(evs, i, n) <==> e.action == RescanZeroTracking_Enter && Pending(evs, e.tid, i, n)
    {
    }
    if e.tid in pending {
      assert Pending(evs, e.tid, pending[e.tid], n);
    }
    forall p | 0 <= p < |pairs|
      ensures pairs[p].1 < n
    {
      assert pairs[p] in pairs;
    }
  }
}
