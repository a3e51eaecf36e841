/**
  When no run can panic: with at least one block of slack per operation, the last operation
  standing has lost the slack of the one that ended before it.
 */
module LogSlack {
  import opened RedoLog
  import opened LogMachine
  import opened LogInvariant
  import opened LogSafety
  import opened LogTheorems
  import opened LogOverflow

  /** Every running operation has logged everything that is in the log. */
  ghost predicate OnlyOwn(lh: seq<nat>, ops: seq<Op>) {
    forall t, j :: 0 <= t < |ops| && ops[t].InOp? && 0 <= j < |lh| ==> lh[j] in ops[t].logged
  }

  /**
    With nobody running the log is empty; with one operation left, either the log is all its own or some slack is
    gone for good.
   */
  ghost predicate Snug(g: Geometry, lh: seq<nat>, ops: seq<Op>, outstanding: nat) {
    && (outstanding == 0 ==> lh == [])
    && (outstanding == 1 ==> OnlyOwn(lh, ops) || |lh| + Unused(g.maxOp, ops) + (g.maxOp - g.budget) <= g.logSize)
  }

  ghost predicate SnugState(g: Geometry, s: State) {
    s.phase.Running? ==> Snug(g, s.lh, s.ops, s.outstanding)
  }

  lemma BeginSnug(g: Geometry, s: State, t: nat)
    requires Inv(g, s) && SnugState(g, s) && CanBegin(s, t)
    ensures SnugState(g, Begin(g, s, t))
  {
    hide Unused, Active;
  }

  /** The operation that ends takes its slack with it. */
  lemma EndSnug(g: Geometry, s: State, t: nat)
    requires Inv(g, s) && SnugState(g, s) && CanEnd(s, t)
    ensures SnugState(g, End(s, t))
  {
    if s.phase.Running? && s.outstanding == 2 {
      assert OpOk(g, s.bufs, s.lh, s.nextId, t, s.ops[t]);
      UnusedUpdate(g.maxOp, s.ops, t, Idle);
    }
    hide Unused, Active, OpsOk, CacheInv, DiskSpells, PhaseOk, HistOk, Synced;
  }

  lemma LogWriteSnug(g: Geometry, s: State, t: nat, i: nat)
    requires Inv(g, s) && SnugState(g, s) && CanLogWrite(g, s, t, i)
    ensures SnugState(g, LogWrite(g, s, t, i))
  {
    hide CacheInv, DiskSpells, PhaseOk, HistOk, Synced, OpsOk, Covered, OpsWhole, Unused, Active;
    OpMeansRunning(g, s, t);
    if s.outstanding == 1 && !LogFull(g, s) {
      var b, mine := s.bufs[i].bno, s.ops[t];
      var op := mine.(logged := mine.logged + {b}, unlogged := mine.unlogged - {b});
      OthersIdle(s.ops, t);
      OpsFacts(g, s, t);
      UnusedUpdate(g.maxOp, s.ops, t, op);
      OwnGrows(s.lh, s.ops, t, op, b);
      assert b in mine.logged ==> op.logged == mine.logged;
      assert |op.logged| >= |mine.logged| + if b in s.lh then 0 else 1;
    }
  }

  lemma OpsFacts(g: Geometry, s: State, t: nat)
    requires Inv(g, s) && t < |s.ops| && s.ops[t].InOp?
    ensures forall x :: x in s.ops[t].logged ==> x in s.lh
  {
    assert OpOk(g, s.bufs, s.lh, s.nextId, t, s.ops[t]);
  }

  /** The only running operation is t. */
  lemma {:induction false} OthersIdle(ops: seq<Op>, t: nat)
    requires Active(ops) == 1 && t < |ops| && ops[t].InOp?
    ensures forall u :: 0 <= u < |ops| && u != t ==> ops[u].Idle?
  {
    ActiveUpdate(ops, t, Idle);
    NoneActive(ops[t := Idle]);
    forall u | 0 <= u < |ops| && u != t
      ensures ops[u].Idle?
    {
      assert ops[t := Idle][u] == ops[u];
    }
  }

  lemma OwnGrows(lh: seq<nat>, ops: seq<Op>, t: nat, op: Op, b: nat)
    requires OnlyOwn(lh, ops) ==> t < |ops| && ops[t].InOp? && op.InOp? && op.logged == ops[t].logged + {b}
    requires t < |ops| && forall u :: 0 <= u < |ops| && u != t ==> ops[u].Idle?
    ensures OnlyOwn(lh, ops) ==> OnlyOwn(lh, ops[t := op]) && OnlyOwn(lh + [b], ops[t := op])
  {
  }

  lemma StepSnug(g: Geometry, s: State, step: Step)
    requires Inv(g, s) && SnugState(g, s) && Enabled(g, s, step)
    ensures SnugState(g, Do(g, s, step))
  {
    hide Unused, Active, OpsOk, CacheInv, DiskSpells, HistOk, Synced, OpsWhole, Covered;
    match step
    case BeginStep(t) => BeginSnug(g, s, t);
    case EndStep(t) => EndSnug(g, s, t);
    case LogWriteStep(t, i) => LogWriteSnug(g, s, t, i);
    case ModifyStep(t, i, v) => ModifySnug(g, s, t, i, v);
    case _ =>
  }

  lemma ModifySnug(g: Geometry, s: State, t: nat, i: nat, v: Block)
    requires SnugState(g, s) && CanModify(g, s, t, i, v)
    ensures SnugState(g, Modify(g, s, t, i, v))
  {
    var op := s.ops[t].(unlogged := s.ops[t].unlogged + {s.bufs[i].bno});
    UnusedUpdate(g.maxOp, s.ops, t, op);
    hide Unused;
  }

  lemma {:induction false} RunSnug(g: Geometry, states: seq<State>, steps: seq<Step>, k: nat)
    requires IsRun(g, states, steps) && k < |states|
    ensures SnugState(g, states[k])
  {
    hide Inv, Enabled, Do;
    if k > 0 {
      RunSnug(g, states, steps, k - 1);
      RunKeeps(g, states, steps, k - 1);
      StepSnug(g, states[k - 1], steps[k - 1]);
      assert states[k] == Do(g, states[k - 1], steps[k - 1]);
    }
  }

  /** How full the log can be when an operation calls log_write. */
  lemma RoomToLog(g: Geometry, s: State, t: nat)
    requires Inv(g, s) && SnugState(g, s) && s.phase.Running? && t < |s.ops| && s.ops[t].InOp? && g.budget < g.maxOp
    ensures s.outstanding >= 1
    ensures |s.lh| <= g.budget || |s.lh| + 2 * (g.maxOp - g.budget) <= g.logSize
  {
    hide CacheInv, DiskSpells, HistOk, Synced, OpsOk, Covered, OpsWhole, Unused, Active;
    OpMeansRunning(g, s, t);
    SpareCovers(g, s);
    if s.outstanding == 1 && OnlyOwn(s.lh, s.ops) {
      OwnFits(g, s, t);
    } else {
      Double(g.maxOp - g.budget, s.outstanding);
    }
  }

  lemma Double(spare: nat, n: nat)
    ensures n >= 1 ==> spare * n >= spare
    ensures n >= 2 ==> spare * n >= 2 * spare
  {
    if n >= 2 {
      assert spare * n == spare * (n - 2) + 2 * spare;
    }
  }

  lemma OwnFits(g: Geometry, s: State, t: nat)
    requires Inv(g, s) && OnlyOwn(s.lh, s.ops) && t < |s.ops| && s.ops[t].InOp?
    ensures |s.lh| <= g.budget
  {
    assert OpOk(g, s.bufs, s.lh, s.nextId, t, s.ops[t]);
    DistinctFit(s.lh, s.ops[t].logged);
  }

  lemma {:induction false} DistinctFit(lh: seq<nat>, x: set<nat>)
    requires Distinct(lh) && forall j :: 0 <= j < |lh| ==> lh[j] in x
    ensures |lh| <= |x|
  {
    if lh != [] {
      var n := |lh| - 1;
      DistinctFit(lh[..n], x - {lh[n]});
    }
  }

  /**
    If operations leave at least one of their MAXOPBLOCKS unused, and the log area holds one
    operation as well as LOGSIZE less twice that slack, no run ever panics.
   */
  lemma {:induction false} SlackMeansNoPanic(g: Geometry, states: seq<State>, steps: seq<Step>, k: nat)
    requires IsRun(g, states, steps) && k < |states|
    requires g.budget < g.maxOp && g.budget < g.logSize && g.budget < g.size - 1
    requires g.logSize - 2 * (g.maxOp - g.budget) < g.size - 1
    ensures !states[k].panicked
  {
    hide Inv, Enabled, Do;
    if k > 0 {
      SlackMeansNoPanic(g, states, steps, k - 1);
      RunKeeps(g, states, steps, k - 1);
      RunSnug(g, states, steps, k - 1);
      NoPanicStep(g, states[k - 1], steps[k - 1]);
      assert states[k] == Do(g, states[k - 1], steps[k - 1]);
    }
  }

  lemma NoPanicStep(g: Geometry, s: State, step: Step)
    requires Inv(g, s) && SnugState(g, s) && Enabled(g, s, step) && !s.panicked
    requires g.budget < g.maxOp && g.budget < g.logSize && g.budget < g.size - 1
    requires g.logSize - 2 * (g.maxOp - g.budget) < g.size - 1
    ensures !Do(g, s, step).panicked
  {
    if step.LogWriteStep? {
      OpMeansRunning(g, s, step.t);
      RoomToLog(g, s, step.t);
    } else if step.EndStep? {
      EndKeeps(g, s, step.t);
    }
    hide Inv, SnugState;
  }

  // ---------------------------------------------------------------- the peak

  lemma SnugBound(g: Geometry, s: State)
    requires Inv(g, s) && SnugState(g, s) && s.phase.Running? && 2 * g.maxOp <= g.logSize
    ensures |s.lh| <= Peak(g)
  {
    hide CacheInv, DiskSpells, HistOk, Synced, OpsOk, Covered, OpsWhole, Unused, Active;
    if s.outstanding > 0 {
      var t := SomeoneRuns(s.ops);
      if g.budget < g.maxOp {
        RoomToLog(g, s, t);
      } else {
        SpareCovers(g, s);
      }
    }
  }

  lemma SomeoneRuns(ops: seq<Op>) returns (t: nat)
    requires Active(ops) > 0
    ensures t < |ops| && ops[t].InOp?
  {
    NoneActive(ops);
    t :| t < |ops| && ops[t].InOp?;
  }

  /** No log grows beyond the peak. */
  lemma {:induction false} RunPeak(g: Geometry, states: seq<State>, steps: seq<Step>, k: nat)
    requires IsRun(g, states, steps) && k < |states| && 2 * g.maxOp <= g.logSize
    ensures !Booting(states[k].phase) ==> |states[k].lh| <= Peak(g)
  {
    hide Inv, Enabled, Do, Init;
    if k == 0 {
      AtStart(g, states[0]);
    } else {
      RunPeak(g, states, steps, k - 1);
      RunKeeps(g, states, steps, k - 1);
      RunKeeps(g, states, steps, k);
      RunSnug(g, states, steps, k);
      LogAfter(g, states[k - 1], steps[k - 1]);
      if states[k].phase.Running? {
        SnugBound(g, states[k]);
      }
    }
  }

  lemma AtStart(g: Geometry, s: State)
    requires Init(g, s)
    ensures Booting(s.phase)
  {
  }

  /** Outside recovery and operations the log only gets emptied. */
  lemma LogAfter(g: Geometry, s: State, step: Step)
    requires Enabled(g, s, step) && Inv(g, s)
    ensures var s' := Do(g, s, step);
            s'.phase.Running? || Booting(s'.phase) || s'.lh == [] || (!Booting(s.phase) && s'.lh == s.lh)
  {
    hide CacheInv, DiskSpells, HistOk, Synced, OpsOk, Covered, OpsWhole, Unused, Active;
    if step.LogWriteStep? {
      OpMeansRunning(g, s, step.t);
    }
  }

  /**
    When log_write can panic: for every geometry in which two operations can run at once, exactly if the peak reaches
    what the log takes, which is LOGSIZE or the blocks of the log area behind the header.
   */
  lemma LogPanicsIff(g: Geometry)
    requires g.Valid() && Roomy(g, if g.Capacity() == 0 then 1 else g.Capacity())
    ensures (exists s :: Reachable(g, s) && s.panicked) <==> Peak(g) >= g.Capacity()
  {
    hide Reachable;
    if Peak(g) >= g.Capacity() {
      var s := FullLogPanics(g);
    } else {
      forall s | Reachable(g, s)
        ensures !s.panicked
      {
        NoPanic(g, s);
      }
    }
  }

  lemma NoPanic(g: Geometry, s: State)
    requires Reachable(g, s) && g.budget < g.maxOp && g.budget < g.Capacity() && Peak(g) < g.size - 1
    ensures !s.panicked
  {
    var states: seq<State>, steps: seq<Step> :| IsRun(g, states, steps) && states[|steps|] == s;
    hide IsRun;
    SlackMeansNoPanic(g, states, steps, |steps|);
  }

  /** xv6's numbers with operations of at most budget blocks. */
  function StockWith(budget: nat): Geometry {
    Stock().(budget := budget)
  }

  /**
    xv6 as built (LOGSIZE 30, MAXOPBLOCKS 10, mkfs's 30 log blocks, NBUF 30) can panic in log_write
    if and only if operations may log all of their ten blocks.
   */
  lemma StockLogPanicsIff(budget: nat)
    requires budget <= 10
    ensures (exists s :: Reachable(StockWith(budget), s) && s.panicked) <==> budget == 10
  {
    hide Reachable;
    if budget > 0 {
      LogPanicsIff(StockWith(budget));
    } else {
      forall s | Reachable(StockWith(budget), s)
        ensures !s.panicked
      {
        NoPanic(StockWith(budget), s);
      }
    }
  }
}
