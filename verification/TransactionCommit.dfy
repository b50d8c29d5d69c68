/** Committing generation after generation to a disk with two superblock copies, with
    a crash possible at any moment and recovery from what is on the disk. */
module TransactionCommit {
  import opened Options
  import opened Sets
  import opened Runs

  datatype Config = Config(maxTx: nat, numBlocks: nat)

  datatype Phase = Idle | WritingData | WritingRoot | WritingSbA | WritingSbB | Committed

  /** A block holds the generation written to it, 0 while unwritten. */
  datatype State = State(
    disk: map<int, int>, superblockA: int, superblockB: int, pendingTx: int, phase: Phase, crashed: bool)

  datatype Step =
    | BeginCommit | WriteData | WriteRoot | WriteSuperblockA | WriteSuperblockB | AdvanceTx | Crash | Recover

  function Init(c: Config): State { State(map b | b in UpTo(c.numBlocks) :: 0, 0, 0, 1, Idle, false) }

  /** A block past the end of the disk is never written and reads as unwritten. */
  function Read(disk: map<int, int>, b: int): int { if b in disk then disk[b] else 0 }

  function Write(disk: map<int, int>, b: int, gen: int): map<int, int> { if b in disk then disk[b := gen] else disk }

  /** The data and the root of the generation are both on the disk. */
  predicate Present(c: Config, disk: map<int, int>, gen: int) {
    Read(disk, gen) == gen && Read(disk, gen + c.maxTx) == gen
  }

  predicate IsValidSuperblock(c: Config, s: State, gen: int) { gen > 0 && Present(c, s.disk, gen) }

  predicate CopyOk(c: Config, s: State, gen: int) { gen == 0 || IsValidSuperblock(c, s, gen) }

  function Max(a: int, b: int): int { if a >= b then a else b }

  /** The newest generation that a valid copy names, 0 if there is none. */
  function BestValid(c: Config, s: State): int {
    Max(if IsValidSuperblock(c, s, s.superblockA) then s.superblockA else 0,
        if IsValidSuperblock(c, s, s.superblockB) then s.superblockB else 0)
  }

  /** The generation recovery goes back to. On any disk it is the newest valid one, unless
      the first copy is valid and the second is newer but torn: then it is none. */
  function Chosen(c: Config, s: State): (gen: int)
    ensures gen == BestValid(c, s) <==>
            !(IsValidSuperblock(c, s, s.superblockA) && s.superblockA < s.superblockB
              && !IsValidSuperblock(c, s, s.superblockB))
    ensures CopyOk(c, s, s.superblockA) && CopyOk(c, s, s.superblockB) ==> gen == Max(s.superblockA, s.superblockB)
  {
    if IsValidSuperblock(c, s, s.superblockA) && s.superblockA >= s.superblockB then s.superblockA
    else if IsValidSuperblock(c, s, s.superblockB) then s.superblockB
    else 0
  }

  function Fire(c: Config, s: State, a: Step): Option<State> {
    if a == Recover then
      if s.crashed
      then Some(s.(superblockA := Chosen(c, s), superblockB := Chosen(c, s), phase := Idle, crashed := false))
      else None
    else if s.crashed then None
    else match (a, s.phase)
      case (Crash, _) => Some(s.(crashed := true))
      case (BeginCommit, Idle) => if s.pendingTx <= c.maxTx then Some(s.(phase := WritingData)) else None
      case (WriteData, WritingData) =>
        Some(s.(disk := Write(s.disk, s.pendingTx, s.pendingTx), phase := WritingRoot))
      case (WriteRoot, WritingRoot) =>
        Some(s.(disk := Write(s.disk, s.pendingTx + c.maxTx, s.pendingTx), phase := WritingSbA))
      case (WriteSuperblockA, WritingSbA) => Some(s.(superblockA := s.pendingTx, phase := WritingSbB))
      case (WriteSuperblockB, WritingSbB) => Some(s.(superblockB := s.pendingTx, phase := Committed))
      case (AdvanceTx, Committed) => Some(s.(pendingTx := s.pendingTx + 1, phase := Idle))
      case _ => None
  }

  // ----- What every reachable state keeps, given room for all blocks -----

  predicate Reached(p: Phase, q: Phase) { PhaseRank(p) >= PhaseRank(q) }

  function PhaseRank(p: Phase): nat {
    match p
    case Idle => 0
    case WritingData => 1
    case WritingRoot => 2
    case WritingSbA => 3
    case WritingSbB => 4
    case Committed => 5
  }

  ghost predicate Inv(c: Config, s: State) {
    && (forall b :: b in s.disk <==> 1 <= b <= c.numBlocks)
    && 1 <= s.pendingTx <= c.maxTx + 1 && (s.phase != Idle ==> s.pendingTx <= c.maxTx)
    && CopyOk(c, s, s.superblockA) && CopyOk(c, s, s.superblockB)
    && 0 <= s.superblockB <= s.superblockA <= s.pendingTx && s.superblockA <= c.maxTx
    && (Reached(s.phase, WritingRoot) ==> Read(s.disk, s.pendingTx) == s.pendingTx)
    && (Reached(s.phase, WritingSbA) ==> Present(c, s.disk, s.pendingTx))
    && (Reached(s.phase, WritingSbB) ==> s.superblockA == s.pendingTx)
    && (Reached(s.phase, Committed) ==> s.superblockB == s.pendingTx)
  }

  /** Every write goes to a block of its own generation. */
  lemma WriteKeepsPresent(c: Config, disk: map<int, int>, gen: int, kept: int)
    requires 1 <= gen <= c.maxTx && 1 <= kept <= c.maxTx && Present(c, disk, kept)
    ensures Present(c, Write(disk, gen, gen), kept) && Present(c, Write(disk, gen + c.maxTx, gen), kept)
  {
  }

  lemma WriteInv(c: Config, s: State, a: Step)
    requires c.numBlocks >= 2 * c.maxTx && Inv(c, s) && Fire(c, s, a).Some? && (a == WriteData || a == WriteRoot)
    ensures Inv(c, Fire(c, s, a).value)
  {
    if s.superblockA > 0 { WriteKeepsPresent(c, s.disk, s.pendingTx, s.superblockA); }
    if s.superblockB > 0 { WriteKeepsPresent(c, s.disk, s.pendingTx, s.superblockB); }
    if a == WriteData {
    }
  }

  lemma StepInv(c: Config, s: State, a: Step)
    requires c.numBlocks >= 2 * c.maxTx && Inv(c, s) && Fire(c, s, a).Some?
    ensures Inv(c, Fire(c, s, a).value)
  {
    if a == WriteData || a == WriteRoot {
      hide Inv, Fire;
      WriteInv(c, s, a);
    } else if a == Recover {
    } else if a == Crash {
    } else if a == WriteSuperblockA {
    } else if a == WriteSuperblockB {
    }
  }

  lemma StepKeepsInv(c: Config)
    requires c.numBlocks >= 2 * c.maxTx
    ensures Inductive(Fire, Inv, c)
  {
    forall s, a | Inv(c, s) && Fire(c, s, a).Some?
      ensures Inv(c, Fire(c, s, a).value)
    {
      StepInv(c, s, a);
    }
  }

  lemma RunKeepsInv(c: Config, steps: seq<Step>)
    requires c.numBlocks >= 2 * c.maxTx && After(Fire, c, Init(c), steps).Some?
    ensures Inv(c, After(Fire, c, Init(c), steps).value)
  {
    StepKeepsInv(c);
    RunKeeps(Fire, Inv, c, Init(c), steps);
  }

  /** The newest generation either copy names. */
  function Newest(c: Config, s: State): int { Max(s.superblockA, s.superblockB) }

  lemma StepsRise(c: Config)
    requires c.numBlocks >= 2 * c.maxTx
    ensures Rising(Fire, Inv, Newest, c)
  {
  }

  /** Durability: whatever crashes and recoveries follow, the newest generation named by
      a superblock never goes back, and it is always entirely on the disk. */
  lemma CommitsAreDurable(c: Config, x: seq<Step>, y: seq<Step>)
    requires c.numBlocks >= 2 * c.maxTx
    requires After(Fire, c, Init(c), x).Some? && After(Fire, c, Init(c), x + y).Some?
    ensures var s, s' := After(Fire, c, Init(c), x).value, After(Fire, c, Init(c), x + y).value;
            Newest(c, s) <= Newest(c, s') && CopyOk(c, s', Newest(c, s')) && Newest(c, s') <= s'.pendingTx
  {
    RunKeepsInv(c, x);
    RunKeepsInv(c, x + y);
    StepKeepsInv(c);
    StepsRise(c);
    AfterConcat(Fire, c, Init(c), x, y);
    RunRises(Fire, Inv, Newest, c, After(Fire, c, Init(c), x).value, y);
  }

  /** A crash at any moment, then recovery: both copies name the newest generation from
      before the crash, and that is 0 or entirely on the disk. */
  lemma CrashThenRecover(c: Config, x: seq<Step>)
    requires c.numBlocks >= 2 * c.maxTx && After(Fire, c, Init(c), x).Some?
    requires !After(Fire, c, Init(c), x).value.crashed
    ensures After(Fire, c, Init(c), x + [Crash, Recover]).Some?
    ensures var s, s' := After(Fire, c, Init(c), x).value, After(Fire, c, Init(c), x + [Crash, Recover]).value;
            && s'.superblockA == s'.superblockB == Newest(c, s) && CopyOk(c, s', s'.superblockA)
            && s'.disk == s.disk && !s'.crashed && s'.phase == Idle
  {
    RunKeepsInv(c, x);
    var s := After(Fire, c, Init(c), x).value;
    AfterConcat(Fire, c, Init(c), x, [Crash, Recover]);
    assert [Crash, Recover][..1] == [Crash];
    AfterOne(Fire, c, s, Crash);
  }

  // ----- How large the disk must be -----

  /** At rest the active superblock names nothing or a generation entirely on the disk. */
  predicate Consistent(c: Config, s: State) {
    !s.crashed && s.phase == Idle ==> s.superblockA == 0 || Present(c, s.disk, s.superblockA)
  }

  ghost predicate AlwaysConsistent(c: Config) {
    forall steps :: After(Fire, c, Init(c), steps).Some? ==> Consistent(c, After(Fire, c, Init(c), steps).value)
  }

  const ONE_COMMIT := [BeginCommit, WriteData, WriteRoot, WriteSuperblockA, WriteSuperblockB, AdvanceTx]

  lemma CommitOnce(c: Config, s: State)
    requires !s.crashed && s.phase == Idle && s.pendingTx <= c.maxTx && forall b :: b in s.disk ==> b <= c.numBlocks
    ensures After(Fire, c, s, ONE_COMMIT).Some?
    ensures var s' := After(Fire, c, s, ONE_COMMIT).value;
            && !s'.crashed && s'.phase == Idle && s'.pendingTx == s.pendingTx + 1
            && s'.superblockA == s.pendingTx && forall b :: b in s'.disk ==> b <= c.numBlocks
  {
    assert ONE_COMMIT == [BeginCommit, WriteData, WriteRoot] + [WriteSuperblockA, WriteSuperblockB, AdvanceTx];
    WriteBlocks(c, s);
    var m := After(Fire, c, s, [BeginCommit, WriteData, WriteRoot]).value;
    AfterConcat(Fire, c, s, [BeginCommit, WriteData, WriteRoot], [WriteSuperblockA, WriteSuperblockB, AdvanceTx]);
    WriteSuperblocks(c, m);
  }

  lemma WriteBlocks(c: Config, s: State)
    requires !s.crashed && s.phase == Idle && s.pendingTx <= c.maxTx && forall b :: b in s.disk ==> b <= c.numBlocks
    ensures After(Fire, c, s, [BeginCommit, WriteData, WriteRoot]).Some?
    ensures var m := After(Fire, c, s, [BeginCommit, WriteData, WriteRoot]).value;
            m == s.(disk := m.disk, phase := WritingSbA) && forall b :: b in m.disk ==> b <= c.numBlocks
  {
    AfterOne(Fire, c, s, BeginCommit);
    assert [BeginCommit, WriteData, WriteRoot][..2] == [BeginCommit, WriteData];
    assert [BeginCommit, WriteData][..1] == [BeginCommit];
  }

  lemma WriteSuperblocks(c: Config, s: State)
    requires !s.crashed && s.phase == WritingSbA
    ensures After(Fire, c, s, [WriteSuperblockA, WriteSuperblockB, AdvanceTx])
              == Some(s.(superblockA := s.pendingTx, superblockB := s.pendingTx,
                         pendingTx := s.pendingTx + 1, phase := Idle))
  {
    AfterOne(Fire, c, s, WriteSuperblockA);
    assert [WriteSuperblockA, WriteSuperblockB, AdvanceTx][..2] == [WriteSuperblockA, WriteSuperblockB];
    assert [WriteSuperblockA, WriteSuperblockB][..1] == [WriteSuperblockA];
  }

  lemma {:induction false} CommitUpTo(c: Config, n: nat) returns (steps: seq<Step>)
    requires n <= c.maxTx
    ensures After(Fire, c, Init(c), steps).Some?
    ensures var s := After(Fire, c, Init(c), steps).value;
            && !s.crashed && s.phase == Idle && s.pendingTx == n + 1 && s.superblockA == n
            && forall b :: b in s.disk ==> b <= c.numBlocks
  {
    steps := [];
    if n > 0 {
      var before := CommitUpTo(c, n - 1);
      CommitOnce(c, After(Fire, c, Init(c), before).value);
      AfterConcat(Fire, c, Init(c), before, ONE_COMMIT);
      steps := before + ONE_COMMIT;
    }
  }

  /** The disk stays consistent over all runs exactly when it has room for the data and
      the root of every generation. */
  lemma ConsistentIffRoom(c: Config)
    ensures AlwaysConsistent(c) <==> c.numBlocks >= 2 * c.maxTx
  {
    if c.numBlocks >= 2 * c.maxTx {
      forall steps | After(Fire, c, Init(c), steps).Some?
        ensures Consistent(c, After(Fire, c, Init(c), steps).value)
      {
        RunKeepsInv(c, steps);
      }
    } else {
      var steps := CommitUpTo(c, c.maxTx);
      assert !Consistent(c, After(Fire, c, Init(c), steps).value);
    }
  }
}
