/** What holds in every run of the cache-and-log machine. */
module LogTheorems {
  import opened Common
  import opened RedoLog
  import opened LogMachine
  import opened LogInvariant
  import opened LogSafety

  lemma InitHolds(g: Geometry, s: State)
    requires Init(g, s)
    ensures Inv(g, s)
  {
    NoneActive(s.ops);
    InitSpells(g, s);
    hide DiskSpells, LegalImage, BootsTo, HeadOf, AfterBoot;
    assert s.hist[..s.cut] == [];
    hide ValidDisk;
  }

  lemma InitSpells(g: Geometry, s: State)
    requires Init(g, s)
    ensures DiskSpells(g, s.disk, s.durable) && g.Valid() && ValidDisk(g, s.disk) && |s.durable| == g.nblocks
  {
    var lh := HeadOf(g, s.disk);
    forall j | 0 <= j < |lh| ensures s.durable[lh[j]] == s.disk[g.start + 1 + j] {
      assert g.IsHome(lh[j]);
      assert AfterBoot(g, s.disk, lh[j]) == s.durable[lh[j]];
      assert LastIndex(lh, lh[j]) == j;
    }
    forall b: nat | g.IsHome(b) && b !in lh ensures s.durable[b] == s.disk[b] {
      assert AfterBoot(g, s.disk, b) == s.durable[b];
    }
  }

  lemma StepKeeps(g: Geometry, s: State, step: Step)
    requires Inv(g, s) && Enabled(g, s, step)
    ensures Inv(g, Do(g, s, step))
  {
    hide Inv, Hit, Miss, Starve, Lock, Fill, Release, Modify, LogWrite, Begin, End, Copy, CommitHead;
    hide InstallOne, ClearHead, FinishCommit, ReadHead, ReplayOne, BootClear, Crash;
    hide CanHit, CanMiss, CanStarve, CanLock, CanFill, CanRelease, CanModify, CanLogWrite, CanBegin, CanEnd;
    hide CanCopy, CanCommitHead, CanInstall, CanClearHead, CanReadHead, CanReplay, CanBootClear;
    match step
    case HitStep(t, i) => HitKeeps(g, s, t, i);
    case MissStep(t, i, b) => MissKeeps(g, s, t, i, b);
    case StarveStep(_, _) => StarveKeeps(g, s);
    case LockStep(t, i) => LockKeeps(g, s, t, i);
    case FillStep(t, i) => FillKeeps(g, s, t, i);
    case ReleaseStep(t, i) => ReleaseKeeps(g, s, t, i);
    case ModifyStep(t, i, v) => ModifyKeeps(g, s, t, i, v);
    case LogWriteStep(t, i) => LogWriteKeeps(g, s, t, i);
    case BeginStep(t) => BeginKeeps(g, s, t);
    case EndStep(t) => EndKeeps(g, s, t);
    case CopyStep(i, j) => CopyKeeps(g, s, i, j);
    case CommitHeadStep(i) => CommitHeadKeeps(g, s, i);
    case InstallStep(i, j) => InstallKeeps(g, s, i, j);
    case ClearHeadStep(i) => ClearHeadKeeps(g, s, i);
    case FinishStep => FinishKeeps(g, s);
    case ReadHeadStep(i) => ReadHeadKeeps(g, s, i);
    case ReplayStep(i, j) => ReplayKeeps(g, s, i, j);
    case BootClearStep(i) => BootClearKeeps(g, s, i);
    case CrashStep => CrashKeeps(g, s);
  }

  lemma {:induction false} RunKeeps(g: Geometry, states: seq<State>, steps: seq<Step>, k: nat)
    requires IsRun(g, states, steps) && k < |states|
    ensures Inv(g, states[k])
  {
    hide Inv, Init, Enabled, Do;
    if k == 0 {
      InitHolds(g, states[0]);
    } else {
      RunKeeps(g, states, steps, k - 1);
      StepKeeps(g, states[k - 1], steps[k - 1]);
    }
  }

  lemma ReachableInv(g: Geometry, s: State)
    requires Reachable(g, s)
    ensures Inv(g, s)
  {
    var states: seq<State>, steps: seq<Step> :| IsRun(g, states, steps) && states[|steps|] == s;
    hide Inv, IsRun;
    RunKeeps(g, states, steps, |steps|);
  }

  // ---------------------------------------------------------------- crash atomicity

  lemma SpelledBoots(g: Geometry, disk: Disk, durable: Disk)
    requires DiskSpells(g, disk, durable)
    ensures BootsTo(g, disk, durable)
  {
    var lh := HeadOf(g, disk);
    forall b: nat | g.IsHome(b) ensures AfterBoot(g, disk, b) == durable[b] {
      if b in lh {
        assert lh[LastIndex(lh, b)] == b;
      }
    }
  }

  /**
    At every point of every run, losing power and booting yields the file system of a prefix
    of the modification history, and that prefix contains each operation wholly or not at all.
   */
  lemma CrashYieldsWholeOperations(g: Geometry, s: State)
    requires Reachable(g, s)
    ensures s.cut <= |s.hist|
    ensures BootsTo(g, s.disk, s.durable) && Reflects(g, s.durable, s.base, s.hist[..s.cut])
    ensures forall i, j :: 0 <= i < s.cut <= j < |s.hist| ==> s.hist[i].op != s.hist[j].op
  {
    ReachableInv(g, s);
    SpelledBoots(g, s.disk, s.durable);
  }

  /** What one step may do to the file system a boot would find. */
  ghost predicate CommitsOnlyAtHead(g: Geometry, s: State, step: Step, s': State) {
    if step.CommitHeadStep? then
      s.lh != [] && s'.cut == |s.hist| && BootsTo(g, s'.disk, s.cur)
    else
      s'.cut == s.cut <= |s.hist| && s.hist[..s.cut] <= s'.hist && BootsTo(g, s'.disk, s.durable)
  }

  /** The durable file system moves only at the non-empty header write, and then to all that was written. */
  lemma CommitPointIsTheHeaderWrite(g: Geometry, s: State, step: Step)
    requires Reachable(g, s) && Enabled(g, s, step)
    ensures CommitsOnlyAtHead(g, s, step, Do(g, s, step))
  {
    ReachableInv(g, s);
    StepKeeps(g, s, step);
    var s' := Do(g, s, step);
    SpelledBoots(g, s'.disk, s'.durable);
    DurableMoves(g, s, step);
  }

  lemma DurableMoves(g: Geometry, s: State, step: Step)
    requires s.cut <= |s.hist| && Enabled(g, s, step)
    ensures var s' := Do(g, s, step);
            && s'.durable == (if step.CommitHeadStep? then s.cur else s.durable)
            && s'.cut == (if step.CommitHeadStep? then |s.hist| else s.cut)
            && s.hist[..s.cut] <= s'.hist
  {
  }

  /** When the committing end_op returns, every modification made so far survives a crash. */
  lemma CommitIsDurable(g: Geometry, s: State)
    requires Reachable(g, s) && s.phase.Finish?
    ensures s.cut == |s.hist| && BootsTo(g, s.disk, s.cur)
  {
    ReachableInv(g, s);
    QuietDisk(g, s);
    FinishedIsHome(g, s);
  }

  lemma FinishedIsHome(g: Geometry, s: State)
    requires s.phase.Finish? && DiskSpells(g, s.disk, s.durable) && PhaseOk(g, s.disk, s.cur, s.phase, s.lh)
    requires Synced(s.disk, s.cur, Pins(s.phase, s.lh), s.ops) && forall b: nat :: !Unlogged(s.ops, b)
    ensures BootsTo(g, s.disk, s.cur)
  {
    SpelledBoots(g, s.disk, s.durable);
  }

  // ---------------------------------------------------------------- the cache is a plain disk

  /**
    A process that holds a filled buffer sees the last value written to that block, outside
    recovery the latest modification of it, and no other buffer holds the block.
   */
  lemma BreadReturnsLastWrite(g: Geometry, s: State, t: nat, i: nat)
    requires Reachable(g, s)
    requires i < |s.bufs| && s.bufs[i].HeldBy(t) && s.bufs[i].valid
    ensures forall j :: 0 <= j < |s.bufs| && j != i ==> !s.bufs[j].Has(s.bufs[i].bno)
    ensures s.bufs[i].bno < |s.cur| == |s.base| && s.bufs[i].data == s.cur[s.bufs[i].bno]
    ensures g.IsHome(s.bufs[i].bno) && !Booting(s.phase) ==>
            s.bufs[i].data == Latest(s.hist, s.bufs[i].bno, s.base[s.bufs[i].bno])
  {
    ReachableInv(g, s);
  }

  /** A logged block that is not installed yet is in the cache and its buffer is not recyclable. */
  lemma PinnedIsNotRecycled(g: Geometry, s: State, b: nat)
    requires Reachable(g, s)
    requires b in Pins(s.phase, s.lh)
    ensures Cached(s.bufs, b)
    ensures forall t: nat, i: nat, c: nat :: CanMiss(g, s, t, i, c) && s.bufs[i].dev == ROOTDEV ==> s.bufs[i].bno != b
  {
    ReachableInv(g, s);
    PinnedIsReferenced(s.bufs, s.cur, Pins(s.phase, s.lh));
  }

  lemma PinnedIsReferenced(bufs: seq<Buf>, cur: Disk, pins: seq<nat>)
    requires CacheInv(bufs, cur, pins)
    ensures forall i :: 0 <= i < |bufs| && bufs[i].dev == ROOTDEV && bufs[i].bno in pins ==> bufs[i].refcnt > 0
  {
  }

  /** References held or awaited by processes, over all buffers. */
  function TotalRefs(bufs: seq<Buf>): nat {
    if bufs == [] then 0 else TotalRefs(bufs[..|bufs| - 1]) + Refs(bufs[|bufs| - 1])
  }

  ghost function PinnedNumbers(bufs: seq<Buf>, pins: seq<nat>): set<nat> {
    set i | 0 <= i < |bufs| && bufs[i].dev == ROOTDEV && bufs[i].bno in pins :: bufs[i].bno
  }

  /** If every buffer is referenced, references and pins together fill the cache. */
  lemma {:induction false} AllReferenced(bufs: seq<Buf>, pins: seq<nat>)
    requires Unique(bufs) && Counted(bufs, pins)
    requires forall i :: 0 <= i < |bufs| ==> bufs[i].refcnt > 0
    ensures |bufs| <= TotalRefs(bufs) + |PinnedNumbers(bufs, pins)|
  {
    if bufs != [] {
      var n := |bufs| - 1;
      var u := bufs[n];
      var rest := bufs[..n];
      assert Unique(rest) && Counted(rest, pins);
      AllReferenced(rest, pins);
      PinnedSnoc(bufs, pins);
      hide PinnedNumbers, Unique;
    }
  }

  lemma PinnedSnoc(bufs: seq<Buf>, pins: seq<nat>)
    requires Unique(bufs) && bufs != []
    ensures var n := |bufs| - 1;
            |PinnedNumbers(bufs, pins)| ==
            |PinnedNumbers(bufs[..n], pins)| + if bufs[n].dev == ROOTDEV && bufs[n].bno in pins then 1 else 0
  {
    var n := |bufs| - 1;
    var u, rest := bufs[n], bufs[..n];
    if u.dev == ROOTDEV && u.bno in pins {
      assert u.bno !in PinnedNumbers(rest, pins);
      assert PinnedNumbers(bufs, pins) == PinnedNumbers(rest, pins) + {u.bno};
    } else {
      assert PinnedNumbers(bufs, pins) == PinnedNumbers(rest, pins);
    }
  }

  lemma {:induction false} PinnedNumbersBound(s: set<nat>, pins: seq<nat>)
    requires forall b :: b in s ==> b in pins
    ensures |s| <= |pins|
  {
    if pins != [] {
      var n := |pins| - 1;
      var rest := s - {pins[n]};
      assert pins == pins[..n] + [pins[n]];
      PinnedNumbersBound(rest, pins[..n]);
      assert |s| <= |rest| + 1 by {
        assert s <= rest + {pins[n]};
        SubsetSize(s, rest + {pins[n]});
      }
    } else {
      assert s == {};
    }
  }

  /** bget does not panic as long as pinned blocks and references leave one buffer over. */
  lemma BgetFindsVictim(g: Geometry, s: State, t: nat, b: nat)
    requires Reachable(g, s) && b < g.nblocks && CanAsk(g, s, t)
    requires TotalRefs(s.bufs) + |Pins(s.phase, s.lh)| < g.nbuf
    ensures exists i: nat :: (CanHit(g, s, t, i) && s.bufs[i].bno == b) || CanMiss(g, s, t, i, b)
    ensures !CanStarve(g, s, t, b)
  {
    ReachableInv(g, s);
    SomeUnreferenced(s.bufs, Pins(s.phase, s.lh));
    hide CanAsk, Inv;
    var v :| 0 <= v < |s.bufs| && s.bufs[v].refcnt == 0;
    if j :| 0 <= j < |s.bufs| && s.bufs[j].Has(b) {
      assert CanHit(g, s, t, j);
    } else {
      assert CanMiss(g, s, t, v, b);
    }
  }

  lemma SomeUnreferenced(bufs: seq<Buf>, pins: seq<nat>)
    requires Unique(bufs) && Counted(bufs, pins)
    requires TotalRefs(bufs) + |pins| < |bufs|
    ensures exists v :: 0 <= v < |bufs| && bufs[v].refcnt == 0
  {
    PinnedNumbersBound(PinnedNumbers(bufs, pins), pins);
    if forall i :: 0 <= i < |bufs| ==> bufs[i].refcnt > 0 {
      AllReferenced(bufs, pins);
    }
  }

  // ---------------------------------------------------------------- admission

  lemma SpareCovers(g: Geometry, s: State)
    requires g.Valid() && OpsInv(g, s)
    ensures (g.maxOp - g.budget) * s.outstanding <= Unused(g.maxOp, s.ops)
  {
    forall r | 0 <= r < |s.ops| && s.ops[r].InOp? ensures |s.ops[r].logged| <= g.budget {
      assert OpOk(g, s.bufs, s.lh, s.nextId, r, s.ops[r]);
    }
    UnusedCovers(g.maxOp, g.maxOp - g.budget, s.ops);
  }

  /** In every interleaving, what is logged plus what is promised to running operations fits LOGSIZE. */
  lemma ReservationsFit(g: Geometry, s: State)
    requires Reachable(g, s) && !Booting(s.phase)
    ensures |s.lh| + Unused(g.maxOp, s.ops) <= g.logSize
    ensures (g.maxOp - g.budget) * s.outstanding <= Unused(g.maxOp, s.ops)
    ensures s.outstanding == Active(s.ops)
  {
    ReachableInv(g, s);
    SpareCovers(g, s);
  }

  /** Whoever sleeps in begin_op faces a running commit or too little space. */
  lemma NoLostWakeup(g: Geometry, s: State, t: nat)
    requires Reachable(g, s) && t in s.asleep
    ensures Committing(s.phase) || |s.lh| + (s.outstanding + 1) * g.maxOp > g.logSize
  {
    ReachableInv(g, s);
  }

  /** An operation with room left in its budget leaves room in the log. */
  lemma OthersUnused(g: Geometry, s: State, t: nat)
    requires g.Valid() && OpsInv(g, s) && t < |s.ops| && s.ops[t].InOp?
    ensures g.maxOp - |s.ops[t].logged| <= Unused(g.maxOp, s.ops)
  {
    UnusedUpdate(g.maxOp, s.ops, t, Idle);
    var rest := s.ops[t := Idle];
    forall r | 0 <= r < |rest| && rest[r].InOp? ensures |rest[r].logged| <= g.maxOp {
      assert OpOk(g, s.bufs, s.lh, s.nextId, r, s.ops[r]);
    }
    UnusedCovers(g.maxOp, 0, rest);
  }

  /**
    When log_write refuses: for an operation within its budget it is exactly when the log area
    has no slot left, or when the log is at LOGSIZE and the block is already in it.  A block
    that is new to a log with LOGSIZE usable slots is never refused.
   */
  lemma LogWritePanicsIff(g: Geometry, s: State, t: nat, i: nat)
    requires Reachable(g, s)
    requires CanLogWrite(g, s, t, i) && !s.panicked
    ensures LogWrite(g, s, t, i).panicked <==>
            |s.lh| >= g.size - 1 || (|s.lh| == g.logSize && s.bufs[i].bno in s.lh)
  {
    ReachableInv(g, s);
    OpMeansRunning(g, s, t);
    FullIff(g, s, t, s.bufs[i].bno);
  }

  lemma FullIff(g: Geometry, s: State, t: nat, b: nat)
    requires g.Valid() && OpsInv(g, s) && s.phase.Running? && s.outstanding >= 1
    requires t < |s.ops| && s.ops[t].InOp? && |s.ops[t].logged + {b}| <= g.budget
    ensures LogFull(g, s) <==> |s.lh| >= g.size - 1 || (|s.lh| == g.logSize && b in s.lh)
  {
    assert OpOk(g, s.bufs, s.lh, s.nextId, t, s.ops[t]);
    OthersUnused(g, s, t);
    assert b !in s.lh ==> b !in s.ops[t].logged;
  }
}
