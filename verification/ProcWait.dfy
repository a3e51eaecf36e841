/** How wait ends, who gets an orphan, and what a kill does to a process on its way to sleep. */
module ProcWait {
  import opened Common
  import opened ProcMachine
  import opened ProcInvariant
  import opened ProcTheorems

  /** One of the first k slots has parent p. */
  ghost predicate HasChild(procs: seq<Proc>, p: nat, k: nat) {
    exists c: nat :: c < k && c < |procs| && procs[c].parent == Some(p)
  }

  /** On the way to sleep in wait, or asleep there. */
  predicate Parked(q: Proc) {
    q.pc.WaitSleep1? || q.pc.WaitSleep2? || q.pc.WaitSleep3? || (q.pc.WaitAsleep? && q.state == Sleeping)
  }

  /** havekids of a process in wait says whether it has met a child, and only parents go to sleep there. */
  ghost predicate KidsAt(procs: seq<Proc>, p: nat)
    requires p < |procs|
  {
    var q := procs[p];
    && (q.pc.WaitScan? ==> q.pc.k <= |procs| && (q.pc.kids <==> HasChild(procs, p, q.pc.k)))
    && (Parked(q) ==> HasChild(procs, p, |procs|))
  }

  ghost predicate Kids(s: State) {
    forall p: nat :: p < |s.procs| ==> KidsAt(s.procs, p)
  }

  // ---------------------------------------------------------------- what a step can do

  /** The step writes a new parent into slot c, which then is r. */
  predicate Hands(s: State, step: Step, c: nat, r: Proc)
    requires step.p < |s.procs| && c < |s.procs|
  {
    var pc, was := s.procs[step.p].pc, s.procs[c].parent;
    || (step.ForkFail? && pc == Fork1(c) && r.parent == None)
    || (step.ForkParent? && pc == Fork3(c) && r.parent == Some(step.p))
    || (step.WaitReap? && pc.WaitScan? && was == Some(step.p) && r.state == Unused)
    || (step.ReparentMove? && pc.ExitScan? && was == Some(step.p) && r.parent == Some(s.init))
  }

  /** A step frees a slot, starts a child or wakes a process; otherwise it leaves the places of others alone. */
  predicate Other(q: Proc, r: Proc) {
    && (r.pc == q.pc || r.pc.Idle? || r.pc.User?)
    && (r.state == Sleeping ==> q.state == Sleeping)
    && (r.killed == q.killed || r.pc.Idle?)
  }

  /** How the process that takes the step comes to be in wait's scan or on its way to sleep there. */
  predicate Own(procs: seq<Proc>, p: nat, q: Proc)
    requires p < |procs|
  {
    var me := procs[p];
    && (q.pc.WaitScan? ==>
          || q.pc == WaitScan(0, false) || q.pc == me.pc
          || (&& me.pc.WaitScan? && me.pc.k < |procs|
              && q.pc == WaitScan(me.pc.k + 1, me.pc.kids || procs[me.pc.k].parent == Some(p))))
    && (Parked(q) ==> Parked(me) || (me.pc.WaitScan? && me.pc.k == |procs| && me.pc.kids && !me.killed))
  }

  /** Table size and init stay, and only a call of exit is recorded as one. */
  predicate Frame(s: State, step: Step, s': State) {
    step.p < |s.procs| == |s'.procs| && s'.init == s.init && (step.ExitEnter? || s'.exited == s.exited)
  }

  ghost predicate Change(s: State, step: Step, s': State) {
    && Frame(s, step, s')
    && (forall i: nat :: i < |s.procs| ==> ChangeAt(s, step, s', i))
  }

  predicate ChangeAt(s: State, step: Step, s': State, i: nat)
    requires step.p < |s.procs| == |s'.procs| && i < |s.procs|
  {
    var q, r := s.procs[i], s'.procs[i];
    && (r.parent != q.parent ==> Hands(s, step, i, r))
    && (if i != step.p then Other(q, r) else Own(s.procs, i, r) && (r.pc.WaitScan? || Parked(r) ==> !Giving(step)))
    && (Parked(r) ==> r.killed == q.killed || step == Kill(i))
  }

  /** The steps that write parents. */
  predicate Giving(step: Step) {
    step.ForkFail? || step.ForkParent? || step.WaitReap? || step.ReparentMove?
  }

  predicate ForkStep(step: Step) {
    || step.ForkAlloc? || step.ForkFail? || step.ForkRelease? || step.ForkLock? || step.ForkParent? || step.ForkRun?
  }

  predicate WaitStep(step: Step) {
    || step.WaitEnter? || step.WaitAcquire? || step.WaitSkip? || step.WaitLive? || step.WaitReap? || step.WaitFault?
    || step.WaitGiveUp? || step.WaitDecide?
  }

  predicate ExitStep(step: Step) {
    || step.ExitEnter? || step.ExitAcquire? || step.ExitLock? || step.ExitZombie? || step.ExitRelease?
    || step.ExitSched?
  }

  predicate ReparentStep(step: Step) {
    || step.ReparentSkip? || step.ReparentMove? || step.WakeInit? || step.WakeInitDone? || step.ReparentDone?
    || step.WakeParent?
  }

  lemma ForkChange(s: State, step: Step, i: nat)
    requires Enabled(s, step) && i < |s.procs| && ForkStep(step)
    ensures var s' := Do(s, step); Frame(s, step, s') && ChangeAt(s, step, s', i)
  {
  }

  lemma WaitChange(s: State, step: Step, i: nat)
    requires Enabled(s, step) && i < |s.procs| && WaitStep(step)
    ensures var s' := Do(s, step); Frame(s, step, s') && ChangeAt(s, step, s', i)
  {
  }

  lemma ExitChange(s: State, step: Step, i: nat)
    requires Enabled(s, step) && i < |s.procs| && ExitStep(step)
    ensures var s' := Do(s, step); Frame(s, step, s') && ChangeAt(s, step, s', i)
  {
  }

  lemma ReparentChange(s: State, step: Step, i: nat)
    requires Enabled(s, step) && i < |s.procs| && ReparentStep(step)
    ensures var s' := Do(s, step); Frame(s, step, s') && ChangeAt(s, step, s', i)
  {
  }

  lemma OtherChange(s: State, step: Step, i: nat)
    requires Enabled(s, step) && i < |s.procs|
    requires !ForkStep(step) && !WaitStep(step) && !ExitStep(step) && !ReparentStep(step)
    ensures var s' := Do(s, step); Frame(s, step, s') && ChangeAt(s, step, s', i)
  {
  }

  lemma StepChange(s: State, step: Step)
    requires Enabled(s, step)
    ensures Change(s, step, Do(s, step))
  {
    SlotChange(s, step, step.p);
    hide Enabled, Do, ChangeAt;
    forall i: nat | i < |s.procs|
      ensures ChangeAt(s, step, Do(s, step), i)
    {
      SlotChange(s, step, i);
    }
  }

  lemma SlotChange(s: State, step: Step, i: nat)
    requires Enabled(s, step) && i < |s.procs|
    ensures var s' := Do(s, step); Frame(s, step, s') && ChangeAt(s, step, s', i)
  {
    hide Enabled, Do, ChangeAt, Frame;
    if ForkStep(step) {
      ForkChange(s, step, i);
    } else if WaitStep(step) {
      WaitChange(s, step, i);
    } else if ExitStep(step) {
      ExitChange(s, step, i);
    } else if ReparentStep(step) {
      ReparentChange(s, step, i);
    } else {
      OtherChange(s, step, i);
    }
  }

  // ---------------------------------------------------------------- the children a process has met

  /** A child changes hands only under wait_lock: from nobody, or from the process that takes the step. */
  lemma ParentStays(s: State, step: Step, s': State, c: nat)
    requires Inv(s) && Change(s, step, s') && c < |s.procs|
    ensures s'.procs[c].parent != s.procs[c].parent ==>
              HoldsWait(s.procs[step.p].pc) && s.procs[c].parent in {None, Some(step.p)}
  {
    hide Locals, Locks, Parents, Scanned, NoneMissed, ParentAwake, Pids, Other, Own;
    assert ChangeAt(s, step, s', c);
    if Forking(s.procs[step.p].pc) {
      assert Made(s.procs, step.p, s.procs[step.p].pc.np);
    }
  }

  lemma HolderIs(s: State, i: nat, j: nat)
    requires Inv(s) && i < |s.procs| && j < |s.procs| && HoldsWait(s.procs[i].pc) && HoldsWait(s.procs[j].pc)
    ensures i == j
  {
    hide Locals, Making, Parents, Scanned, NoneMissed, ParentAwake, Pids, HoldsWait;
  }

  lemma OtherKids(s: State, step: Step, s': State, i: nat)
    requires Inv(s) && Change(s, step, s') && i < |s.procs| && i != step.p && KidsAt(s.procs, i)
    ensures KidsAt(s'.procs, i)
  {
    hide Inv, Hands, Own;
    var procs, procs' := s.procs, s'.procs;
    assert ChangeAt(s, step, s', i);
    forall c: nat | c < |procs| && (procs[c].parent == Some(i) || procs'[i].pc.WaitScan?)
      ensures procs'[c].parent == procs[c].parent
    {
      ParentStays(s, step, s', c);
      if HoldsWait(procs[step.p].pc) && procs'[i].pc.WaitScan? {
        HolderIs(s, i, step.p);
      }
    }
  }

  lemma OwnKids(s: State, step: Step, s': State)
    requires Change(s, step, s') && KidsAt(s.procs, step.p)
    ensures KidsAt(s'.procs, step.p)
  {
    hide HasChild;
    var p, procs, procs' := step.p, s.procs, s'.procs;
    HasChildNone(procs', p);
    assert ChangeAt(s, step, s', p);
    if procs'[p].pc.WaitScan? || Parked(procs'[p]) {
      forall c: nat | c < |procs|
        ensures procs'[c].parent == procs[c].parent
      {
        assert ChangeAt(s, step, s', c);
      }
      HasChildSame(procs, procs', p, |procs|);
      if procs[p].pc.WaitScan? {
        HasChildSame(procs, procs', p, procs[p].pc.k);
        HasChildMore(procs', p, procs[p].pc.k);
      }
    }
  }

  lemma HasChildNone(procs: seq<Proc>, p: nat)
    ensures !HasChild(procs, p, 0)
  {
  }

  lemma HasChildMore(procs: seq<Proc>, p: nat, k: nat)
    ensures k < |procs| ==> (HasChild(procs, p, k + 1) <==> HasChild(procs, p, k) || procs[k].parent == Some(p))
  {
  }

  lemma HasChildSame(procs: seq<Proc>, procs': seq<Proc>, p: nat, k: nat)
    requires |procs'| == |procs| && forall c: nat :: c < |procs| ==> procs'[c].parent == procs[c].parent
    ensures HasChild(procs', p, k) <==> HasChild(procs, p, k)
  {
  }

  lemma KidsKeeps(s: State, step: Step, s': State)
    requires Inv(s) && Kids(s) && Change(s, step, s')
    ensures Kids(s')
  {
    hide Inv, KidsAt, ChangeAt;
    OwnKids(s, step, s');
    forall i: nat | i < |s'.procs|
      ensures KidsAt(s'.procs, i)
    {
      if i != step.p {
        OtherKids(s, step, s', i);
      }
    }
  }

  lemma {:induction false} RunKids(states: seq<State>, steps: seq<Step>, k: nat)
    requires IsRun(states, steps) && k < |states|
    ensures Kids(states[k])
  {
    hide Inv, Enabled, Do;
    if k == 0 {
      assert forall p: nat :: p < |states[0].procs| ==> states[0].procs[p].pc.User? || states[0].procs[p].pc.Idle?;
    } else {
      hide Kids, Init, Change;
      RunKids(states, steps, k - 1);
      RunKeeps(states, steps, k - 1);
      StepChange(states[k - 1], steps[k - 1]);
      KidsKeeps(states[k - 1], steps[k - 1], states[k]);
    }
  }

  lemma ReachableKids(s: State)
    requires Reachable(s)
    ensures Kids(s)
  {
    var states: seq<State>, steps: seq<Step> :| IsRun(states, steps) && states[|steps|] == s;
    hide Kids, IsRun;
    RunKids(states, steps, |steps|);
  }

  // ---------------------------------------------------------------- how wait ends

  /** A process that is in wait's loop before a step of its own and not after it. */
  ghost predicate LeavesScan(s: State, step: Step) {
    && Enabled(s, step) && s.procs[step.p].pc.WaitScan? && step.p < |Do(s, step).procs|
    && !Do(s, step).procs[step.p].pc.WaitScan?
  }

  /** wait has freed zombie child c of p and returns its pid with the status it gave to exit. */
  ghost predicate Collected(s: State, s': State, p: nat, c: nat) {
    && c < |s.procs| == |s'.procs| && p < |s.procs| && ZombieChild(s.procs, c, p) && s.procs[c].pid in s.exited
    && s'.reaped == s.reaped + [(s.procs[c].pid, s.exited[s.procs[c].pid])]
    && s'.procs == s.procs[c := Freed()][p := s.procs[p].(pc := User)] && s'.waitLock == None
  }

  /** wait returns -1 without having collected anything. */
  ghost predicate Refused(s: State, s': State, p: nat) {
    && p < |s.procs| && s' == s.Go(p, User).(waitLock := None)
  }

  /** No slot before the one wait has come to holds a zombie child. */
  lemma ScanIsClean(s: State, p: nat, c: nat)
    requires Inv(s) && p < |s.procs| && c < |s.procs| && s.procs[p].pc.WaitScan? && ZombieChild(s.procs, c, p)
    ensures s.procs[p].pc.k <= c
  {
    hide Locals, Locks, Making, Parents, NoneMissed, ParentAwake, Pids, ZombieChild;
  }

  lemma StatusIsExits(s: State, c: nat)
    requires Inv(s) && c < |s.procs| && s.procs[c].state == Zombie
    ensures s.procs[c].pid in s.exited && s.exited[s.procs[c].pid] == s.procs[c].xstate
  {
    hide Locals, Locks, Making, Parents, Scanned, NoneMissed, ParentAwake;
  }

  lemma KidsOf(s: State, p: nat)
    requires Reachable(s) && p < |s.procs|
    ensures KidsAt(s.procs, p)
  {
    hide Reachable, KidsAt;
    ReachableKids(s);
  }

  lemma LeavingSteps(s: State, step: Step)
    requires LeavesScan(s, step)
    ensures step.WaitReap? || step.WaitFault? || step.WaitGiveUp? || step.WaitDecide?
    ensures step.p < |s.procs| && s.procs[step.p].pc.WaitScan? && Enabled(s, step)
  {
  }

  /** p has no zombie child. */
  ghost predicate NoZombie(s: State, p: nat) {
    forall c: nat :: c < |s.procs| ==> !ZombieChild(s.procs, c, p)
  }

  /**
    The scan ends in one of four ways: a zombie child is collected; there is one but its status cannot be copied
    out; -1, for a process without children or a killed one; or sleep, for a process that is not killed and has
    children, none of them a zombie.
   */
  lemma WaitEnds(s: State, step: Step)
    requires Reachable(s) && LeavesScan(s, step)
    ensures var p, n, s' := step.p, |s.procs|, Do(s, step);
            || (step == WaitReap(p) && exists c: nat :: Collected(s, s', p, c))
            || (step == WaitFault(p) && Refused(s, s', p) && exists c: nat :: c < n && ZombieChild(s.procs, c, p))
            || (&& step == WaitGiveUp(p) && Refused(s, s', p) && NoZombie(s, p)
                && (s.procs[p].killed || !HasChild(s.procs, p, n)))
            || (&& step == WaitDecide(p) && s' == s.Go(p, WaitSleep1) && NoZombie(s, p)
                && !s.procs[p].killed && HasChild(s.procs, p, n))
  {
    ReachableInv(s);
    var p, s' := step.p, Do(s, step);
    LeavingSteps(s, step);
    KidsOf(s, p);
    hide Inv, HasChild, Reachable, LeavesScan;
    forall c: nat | c < |s.procs| && ZombieChild(s.procs, c, p)
      ensures s.procs[p].pc.k <= c
    {
      ScanIsClean(s, p, c);
    }
    match step
    case WaitReap(_) =>
      StatusIsExits(s, s.procs[p].pc.k);
      assert Collected(s, s', p, s.procs[p].pc.k);
    case WaitFault(_) =>
      assert ZombieChild(s.procs, s.procs[p].pc.k, p);
    case _ =>
  }

  /** In the middle of the scan, with the lock of the slot free, wait collects or passes the slot. */
  lemma ScanGoesOn(s: State, p: nat)
    requires p < |s.procs| && s.procs[p].pc.WaitScan? && s.procs[p].state == Running
    requires s.procs[p].pc.k < |s.procs| && s.procs[s.procs[p].pc.k].lock == None
    ensures Enabled(s, WaitSkip(p)) || Enabled(s, WaitLive(p)) <==> !ZombieChild(s.procs, s.procs[p].pc.k, p)
    ensures Enabled(s, WaitReap(p)) <==> ZombieChild(s.procs, s.procs[p].pc.k, p)
    ensures Enabled(s, WaitFault(p)) <==> ZombieChild(s.procs, s.procs[p].pc.k, p)
  {
  }

  /** At the end of it wait returns -1 or sleeps, by whether the process is killed and has children. */
  lemma ScanDecides(s: State, p: nat)
    requires Reachable(s) && p < |s.procs| && s.procs[p].pc.WaitScan? && s.procs[p].state == Running
    requires s.procs[p].pc.k >= |s.procs| && s.procs[p].lock == None
    ensures Enabled(s, WaitGiveUp(p)) <==> s.procs[p].killed || !HasChild(s.procs, p, |s.procs|)
    ensures Enabled(s, WaitDecide(p)) <==> !s.procs[p].killed && HasChild(s.procs, p, |s.procs|)
  {
    KidsOf(s, p);
    hide Reachable, HasChild;
  }

  /** Nobody sleeps in wait without a child. */
  lemma SleepersHaveChildren(s: State, p: nat)
    requires Reachable(s) && p < |s.procs| && s.procs[p].state == Sleeping && s.procs[p].chan == OnProc(p)
    ensures exists c: nat :: c < |s.procs| && s.procs[c].parent == Some(p)
  {
    ReachableInv(s);
    ReachableKids(s);
    assert Local(s.procs[p], p, s.init) && KidsAt(s.procs, p);
    hide Inv, Reachable;
  }

  // ---------------------------------------------------------------- orphans

  /** The parent of a slot in use changes in one way only: the exiting parent hands the child to init. */
  lemma ParentMoves(s: State, step: Step, s': State, c: nat)
    requires Inv(s) && Change(s, step, s') && c < |s.procs|
    requires s.procs[c].parent.Some? && s'.procs[c].state != Unused
    ensures s'.procs[c].parent == s.procs[c].parent
            || (s'.procs[c].parent == Some(s.init) && s.procs[c].parent == Some(step.p) && s.procs[step.p].pc.ExitScan?)
  {
    hide Locals, Locks, Parents, Scanned, NoneMissed, ParentAwake, Pids, Other, Own;
    assert ChangeAt(s, step, s', c);
    if Forking(s.procs[step.p].pc) {
      assert Made(s.procs, step.p, s.procs[step.p].pc.np);
    }
  }

  /** Slot c is in use in every state from i to j. */
  ghost predicate InUse(states: seq<State>, i: nat, j: nat, c: nat) {
    forall m: nat :: i <= m <= j && m < |states| ==> c < |states[m].procs| && states[m].procs[c].state != Unused
  }

  /** As long as a slot stays in use its process has the parent it had or init. */
  lemma {:induction false} ParentsMove(states: seq<State>, steps: seq<Step>, i: nat, j: nat, c: nat)
    requires IsRun(states, steps) && i <= j < |states| && InUse(states, i, j, c) && states[i].procs[c].parent.Some?
    ensures states[j].procs[c].parent in {states[i].procs[c].parent, Some(states[i].init)}
    ensures states[j].init == states[i].init
  {
    hide Inv, Enabled, Do, Change;
    if i < j {
      ParentsMove(states, steps, i, j - 1, c);
      RunKeeps(states, steps, j - 1);
      StepChange(states[j - 1], steps[j - 1]);
      ParentMoves(states[j - 1], steps[j - 1], states[j], c);
      ChangeInit(states[j - 1], steps[j - 1], states[j]);
    }
  }

  lemma ChangeInit(s: State, step: Step, s': State)
    requires Change(s, step, s')
    ensures |s'.procs| == |s.procs| && s'.init == s.init
  {
  }

  /** A child has its first parent while that one lives, and init from then on. */
  lemma OrphansGoToInit(states: seq<State>, steps: seq<Step>, i: nat, m: nat, j: nat, c: nat, q: nat)
    requires IsRun(states, steps) && i <= m <= j < |states| && InUse(states, i, j, c)
    requires states[i].procs[c].parent == Some(q) && q < |states[m].procs|
    requires states[m].procs[q].state in {Unused, Used, Zombie}
    ensures states[j].procs[c].parent == Some(states[j].init)
  {
    hide Inv, Enabled, Do;
    ParentsMove(states, steps, i, m, c);
    RunKeeps(states, steps, m);
    ParentLives(states[m], c);
    ParentsMove(states, steps, m, j, c);
  }

  lemma ParentLives(s: State, c: nat)
    requires Inv(s) && c < |s.procs| && s.procs[c].parent.Some?
    ensures s.procs[c].parent.value < |s.procs|
    ensures s.procs[s.procs[c].parent.value].state !in {Unused, Used, Zombie}
  {
    assert Local(s.procs[s.procs[c].parent.value], s.procs[c].parent.value, s.init);
  }

  // ---------------------------------------------------------------- the status of exit

  /** Calls of exit are what is recorded, and nothing else is. */
  lemma ExitedIs(s: State, p: nat, status: int)
    requires Enabled(s, ExitEnter(p, status))
    ensures p < |s.procs| && s.procs[p].state == Running && s.procs[p].pc.User?
    ensures Do(s, ExitEnter(p, status)).exited == s.exited[s.procs[p].pid := status]
  {
  }

  lemma ExitedSame(s: State, step: Step)
    requires Enabled(s, step) && !step.ExitEnter?
    ensures Do(s, step).exited == s.exited
  {
    hide Enabled, Do, ChangeAt;
    StepChange(s, step);
  }

  lemma NotTwice(s: State, p: nat)
    requires Inv(s) && p < |s.procs| && s.procs[p].state == Running && s.procs[p].pc.User?
    ensures s.procs[p].pid !in s.exited
  {
    hide Locals, Locks, Making, Parents, Scanned, NoneMissed, ParentAwake;
  }

  lemma {:induction false} StatusStays(states: seq<State>, steps: seq<Step>, i: nat, j: nat)
    requires IsRun(states, steps) && i < j < |states| && steps[i].ExitEnter? && steps[i].p < |states[i].procs|
    ensures var pid := states[i].procs[steps[i].p].pid;
            pid in states[j].exited && states[j].exited[pid] == steps[i].status
  {
    hide Inv, Enabled, Do;
    var s, step := states[j - 1], steps[j - 1];
    if i < j - 1 {
      StatusStays(states, steps, i, j - 1);
      RunKeeps(states, steps, j - 1);
    }
    if step.ExitEnter? {
      ExitedIs(s, step.p, step.status);
      if i < j - 1 {
        NotTwice(s, step.p);
      }
    } else {
      ExitedSame(s, step);
    }
  }

  /** What wait returns for a process is the status that process called exit with. */
  lemma WaitReturnsTheStatus(states: seq<State>, steps: seq<Step>, i: nat, j: nat, m: nat)
    requires IsRun(states, steps) && i < j < |states| && steps[i].ExitEnter? && steps[i].p < |states[i].procs|
    requires m < |states[j].reaped| && states[j].reaped[m].0 == states[i].procs[steps[i].p].pid
    ensures states[j].reaped[m].1 == steps[i].status
  {
    hide Enabled, Do;
    StatusStays(states, steps, i, j);
    RunKeeps(states, steps, j);
    hide Locals, Locks, Making, Parents, Scanned, NoneMissed, ParentAwake, IsRun;
  }

  // ---------------------------------------------------------------- kill

  /** kill sets the flag and makes a sleeper ready to run, and nothing else. */
  lemma KillWakes(s: State, p: nat)
    requires Reachable(s) && Enabled(s, Kill(p))
    ensures var q, q' := s.procs[p], Do(s, Kill(p)).procs[p];
            && q'.killed && q'.state != Sleeping && (q.state != Sleeping ==> q' == q.(killed := true))
            && (q.state == Sleeping ==> Enabled(Do(s, Kill(p)), Schedule(p)))
            && Do(s, Kill(p)) == s.Put(p, q')
  {
  }

  /** Killed, and on the way to sleep in wait all the same or asleep there. */
  predicate Doomed(q: Proc) {
    q.killed && Parked(q)
  }

  lemma KilledAt(s: State, p: nat)
    requires Enabled(s, Kill(p)) && Local(s.procs[p], p, s.init) && !Doomed(s.procs[p])
    ensures p < |Do(s, Kill(p)).procs|
    ensures Doomed(Do(s, Kill(p)).procs[p]) <==> s.procs[p].pc.WaitSleep1?
  {
  }

  lemma NotKilled(s: State, step: Step, s': State, p: nat)
    requires Change(s, step, s') && p < |s.procs| && step != Kill(p) && !Doomed(s.procs[p])
    ensures !Doomed(s'.procs[p])
  {
    assert ChangeAt(s, step, s', p);
  }

  lemma LocalOf(s: State, p: nat)
    requires Reachable(s) && p < |s.procs|
    ensures Local(s.procs[p], p, s.init)
  {
    hide Reachable, Local;
    ReachableInv(s);
  }

  /** That comes about in one way: the kill falls between wait's look at the flag and sleep's p->lock. */
  lemma KillIsMissedIff(s: State, step: Step, p: nat)
    requires Reachable(s) && Enabled(s, step) && p < |s.procs| && !Doomed(s.procs[p])
    ensures p < |Do(s, step).procs|
    ensures Doomed(Do(s, step).procs[p]) <==> step == Kill(p) && s.procs[p].pc.WaitSleep1?
  {
    hide Reachable, Enabled, Do, Change, Local, Doomed;
    LocalOf(s, p);
    StepChange(s, step);
    ChangeInit(s, step, Do(s, step));
    if step == Kill(p) {
      KilledAt(s, p);
    } else {
      NotKilled(s, step, Do(s, step), p);
    }
  }

  ghost predicate Follows(s: State, step: Step, s': State) {
    Enabled(s, step) && s' == Do(s, step)
  }

  lemma Longer(states: seq<State>, steps: seq<Step>, step: Step, s': State)
    requires IsRun(states, steps) && Follows(states[|steps|], step, s')
    ensures IsRun(states + [s'], steps + [step])
  {
    hide Enabled, Do, Init;
    var states', steps' := states + [s'], steps + [step];
    assert states'[0] == states[0];
    forall k | 0 <= k < |steps'|
      ensures Enabled(states'[k], steps'[k]) && states'[k + 1] == Do(states'[k], steps'[k])
    {
      if k < |steps| {
        assert states'[k] == states[k] && states'[k + 1] == states[k + 1] && steps'[k] == steps[k];
      }
    }
  }

  lemma ReachStep(s: State, step: Step, s': State)
    requires Reachable(s) && Follows(s, step, s')
    ensures Reachable(s')
  {
    hide Follows;
    var states: seq<State>, steps: seq<Step> :| IsRun(states, steps) && states[|steps|] == s;
    hide IsRun;
    Longer(states, steps, step, s');
    RunLength(states, steps);
    assert (states + [s'])[|steps + [step]|] == s';
  }

  lemma RunLength(states: seq<State>, steps: seq<Step>)
    requires IsRun(states, steps)
    ensures |states| == |steps| + 1
  {
  }

  /** Slot 0 is init at pc, slot 1 is free or the child of init. */
  function Two(pc: Pc, me: Proc, child: Proc, waitLock: Option<nat>, nextpid: nat): State {
    State([me.(pc := pc), child], 0, waitLock, nextpid, map[], [])
  }

  function Parent(): Proc {
    Proc(Running, 1, None, NoChan, false, 0, None, User)
  }

  function Child(): Proc {
    Proc(Runnable, 2, Some(0), NoChan, false, 0, None, User)
  }

  function Fresh(): Proc {
    Proc(Used, 2, None, NoChan, false, 0, None, Idle)
  }

  lemma InitAllocates()
    ensures Reachable(Two(Fork2(1), Parent(), Fresh(), None, 3))
  {
    hide Reachable;
    var me, made := Parent(), Fresh();
    var s0 := Two(User, me.(state := Runnable), Freed(), None, 2);
    StartIsReachable(s0);
    var s1 := Two(User, me, Freed(), None, 2);
    ReachStep(s0, Schedule(0), s1);
    var s2 := Two(Fork1(1), me, made.(lock := Some(0)), None, 3);
    ReachStep(s1, ForkAlloc(0, 1), s2);
    ReachStep(s2, ForkRelease(0), Two(Fork2(1), me, made, None, 3));
  }

  lemma InitForks()
    ensures Reachable(Two(User, Parent(), Child(), None, 3))
  {
    hide Reachable;
    var me, made := Parent(), Fresh();
    InitAllocates();
    var s4 := Two(Fork3(1), me, made, Some(0), 3);
    ReachStep(Two(Fork2(1), me, made, None, 3), ForkLock(0), s4);
    var s5 := Two(Fork4(1), me, made.(parent := Some(0)), None, 3);
    ReachStep(s4, ForkParent(0), s5);
    ReachStep(s5, ForkRun(0), Two(User, me, Child(), None, 3));
  }

  lemma StartIsReachable(s: State)
    requires Init(s)
    ensures Reachable(s)
  {
    assert IsRun([s], []) && [s][0] == s;
  }

  lemma InitWaits()
    ensures Reachable(Two(WaitSleep1, Parent(), Child(), Some(0), 3))
  {
    hide Reachable;
    var me, child := Parent(), Child();
    InitForks();
    var s7 := Two(WaitStart, me, child, None, 3);
    ReachStep(Two(User, me, child, None, 3), WaitEnter(0), s7);
    var s8 := Two(WaitScan(0, false), me, child, Some(0), 3);
    ReachStep(s7, WaitAcquire(0), s8);
    var s9 := Two(WaitScan(1, false), me, child, Some(0), 3);
    ReachStep(s8, WaitSkip(0), s9);
    var s10 := Two(WaitScan(2, true), me, child, Some(0), 3);
    ReachStep(s9, WaitLive(0), s10);
    ReachStep(s10, WaitDecide(0), Two(WaitSleep1, me, child, Some(0), 3));
  }

  /** It does come about: init forks a child, waits for it and is killed in between. */
  lemma AKillIsMissed() returns (s: State)
    ensures Reachable(s) && |s.procs| == 2
    ensures s.procs[0].killed && s.procs[0].state == Sleeping && s.procs[0].chan == OnProc(0)
  {
    hide Reachable;
    var me, child := Parent().(killed := true), Child();
    InitWaits();
    var s12 := Two(WaitSleep1, me, child, Some(0), 3);
    ReachStep(Two(WaitSleep1, Parent(), child, Some(0), 3), Kill(0), s12);
    var s13 := Two(WaitSleep2, me.(lock := Some(0)), child, Some(0), 3);
    ReachStep(s12, SleepLock(0), s13);
    var s14 := Two(WaitSleep3, me.(lock := Some(0)), child, None, 3);
    ReachStep(s13, SleepRelease(0), s14);
    s := Two(WaitAsleep, me.(chan := OnProc(0), state := Sleeping), child, None, 3);
    ReachStep(s14, SleepSwitch(0), s);
  }
}
