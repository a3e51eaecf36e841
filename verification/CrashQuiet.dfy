/** What every crash leaves behind, given what whole transactions leave behind. */
module CrashQuiet {
  import opened RedoLog
  import opened LogMachine
  import opened LogInvariant
  import opened LogSafety
  import opened LogTheorems

  /** No operation runs and recovery is over. */
  predicate Quiet(s: State) {
    s.outstanding == 0 && !Booting(s.phase)
  }

  /** A property of file systems: it depends on the home blocks alone. */
  ghost predicate HomeOnly(g: Geometry, good: Disk -> bool) {
    forall d, e :: SameHome(g, d, e) ==> (good(d) <==> good(e))
  }

  /** From quiet state i operations have been running, up to state j, without a crash. */
  ghost predicate Open(states: seq<State>, steps: seq<Step>, i: nat, j: nat) {
    && i < j < |states| == |steps| + 1 && Quiet(states[i]) && steps[i].BeginStep?
    && (forall k :: i < k < j ==> !Quiet(states[k]))
    && (forall k :: i <= k < j ==> !steps[k].CrashStep?)
  }

  /** ... and at state j the last of them has ended. */
  ghost predicate Transaction(states: seq<State>, steps: seq<Step>, i: nat, j: nat) {
    Open(states, steps, i, j) && Quiet(states[j])
  }

  /** The operations of each transaction together take good file systems to good ones. */
  ghost predicate TransactionsKeep(states: seq<State>, steps: seq<Step>, good: Disk -> bool) {
    forall i: nat, j: nat :: Transaction(states, steps, i, j) && good(states[i].cur) ==> good(states[j].cur)
  }

  lemma QuietMeansIdle(g: Geometry, s: State, t: nat)
    requires Inv(g, s) && t < |s.ops| && s.ops[t].InOp?
    ensures !Quiet(s) && !Booting(s.phase)
  {
    OpMeansRunning(g, s, t);
  }

  /** Only modifications inside an operation, and crashes, change the history. */
  lemma StepHistory(g: Geometry, s: State, step: Step)
    requires Inv(g, s) && Enabled(g, s, step) && !step.CrashStep?
    ensures var s' := Do(g, s, step);
            && s'.base == s.base && (!step.ModifyStep? ==> s'.hist == s.hist)
            && (!step.CommitHeadStep? ==> s'.cut == s.cut && s'.durable == s.durable)
            && (step.CommitHeadStep? ==> Quiet(s) && s'.durable == s.cur)
            && (Booting(s'.phase) ==> Booting(s.phase))
            && (s'.outstanding > s.outstanding ==> step.BeginStep? && !Booting(s.phase))
            && (step.ModifyStep? ==> !Quiet(s) && !Booting(s.phase))
  {
    hide CacheInv, Synced, DiskSpells, PhaseOk, HistOk, OpsWhole, Covered, Shape, OpsOk, SpaceOk, SleepersWait;
    if step.ModifyStep? {
      QuietMeansIdle(g, s, step.t);
    }
  }

  lemma SameHistory(g: Geometry, d: Disk, e: Disk, base: Disk, hist: seq<Update>)
    requires Reflects(g, d, base, hist) && Reflects(g, e, base, hist)
    ensures SameHome(g, d, e)
  {
  }

  lemma HistFacts(g: Geometry, s: State)
    requires Inv(g, s)
    ensures s.cut <= |s.hist| && Reflects(g, s.durable, s.base, s.hist[..s.cut])
    ensures Booting(s.phase) ==> s.cut == |s.hist| && s.outstanding == 0
    ensures !Booting(s.phase) ==> Reflects(g, s.cur, s.base, s.hist)
  {
  }

  /** A quiet state comes from a quiet one with the same file system, from recovery, or ends a transaction. */
  lemma QuietAgain(g: Geometry, s: State, step: Step, good: Disk -> bool)
    requires Inv(g, s) && Enabled(g, s, step) && !step.CrashStep? && HomeOnly(g, good) && good(s.durable)
    requires Quiet(s) ==> good(s.cur)
    requires Quiet(s) || Booting(s.phase)
    ensures var s' := Do(g, s, step); !Booting(s'.phase) ==> good(s'.cur)
  {
    hide Inv, Enabled, Do, Reflects;
    var s' := Do(g, s, step);
    StepKeeps(g, s, step);
    StepHistory(g, s, step);
    HistFacts(g, s);
    HistFacts(g, s');
    if !Booting(s'.phase) {
      if Quiet(s) {
        SameHistory(g, s.cur, s'.cur, s.base, s.hist);
      } else {
        assert s.hist[..s.cut] == s.hist;
        SameHistory(g, s.durable, s'.cur, s.base, s.hist);
      }
    }
  }

  /**
    If the operations keep a property of the file system, then so does every crash: it holds of all that is durable.
   */
  lemma {:induction false} DurableIsGood(g: Geometry, states: seq<State>, steps: seq<Step>, good: Disk -> bool,
                                         k: nat) returns (i: nat)
    requires IsRun(g, states, steps) && k < |states| && HomeOnly(g, good) && TransactionsKeep(states, steps, good)
    requires good(states[0].durable)
    ensures good(states[k].durable) && (Quiet(states[k]) ==> good(states[k].cur))
    ensures !Quiet(states[k]) && !Booting(states[k].phase) ==> Open(states, steps, i, k) && good(states[i].cur)
  {
    hide Init, Inv, Enabled, Do, HomeOnly;
    if k == 0 {
      i := 0;
      AtBoot(g, states[0]);
    } else {
      var s, step := states[k - 1], steps[k - 1];
      i := DurableIsGood(g, states, steps, good, k - 1);
      RunKeeps(g, states, steps, k - 1);
      RunKeeps(g, states, steps, k);
      if step.CrashStep? {
        AfterCrash(g, s);
      } else {
        StepHistory(g, s, step);
        HistFacts(g, states[k]);
        if Quiet(s) || Booting(s.phase) {
          HistFacts(g, s);
          QuietAgain(g, s, step, good);
          i := k - 1;
        } else {
          assert Open(states, steps, i, k);
        }
      }
    }
  }

  lemma AtBoot(g: Geometry, s: State)
    requires Init(g, s)
    ensures Booting(s.phase)
  {
  }

  lemma AfterCrash(g: Geometry, s: State)
    requires Enabled(g, s, CrashStep)
    ensures Booting(Do(g, s, CrashStep).phase) && Do(g, s, CrashStep).durable == s.durable
  {
  }

  /** Power lost at any moment of any run: recovery yields a good file system. */
  lemma CrashKeepsGood(g: Geometry, states: seq<State>, steps: seq<Step>, good: Disk -> bool, k: nat, d: Disk)
    requires IsRun(g, states, steps) && k < |states| && HomeOnly(g, good) && TransactionsKeep(states, steps, good)
    requires good(states[0].durable) && BootsTo(g, states[k].disk, d)
    ensures good(d)
  {
    hide IsRun, TransactionsKeep;
    var _ := DurableIsGood(g, states, steps, good, k);
    RunKeeps(g, states, steps, k);
    SpelledBoots(g, states[k].disk, states[k].durable);
    assert SameHome(g, states[k].durable, d);
  }
}
