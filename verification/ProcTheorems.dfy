/** What holds in every run of the process machine. */
module ProcTheorems {
  import opened Common
  import opened ProcMachine
  import opened ProcInvariant
  import opened ProcSafety

  lemma InitHolds(s: State)
    requires Init(s)
    ensures Inv(s)
  {
    forall i: nat | i < |s.procs|
      ensures !Forking(s.procs[i].pc) && !HoldsWait(s.procs[i].pc) && Local(s.procs[i], i, s.init)
    {
    }
  }

  lemma StepKeeps(s: State, step: Step)
    requires Inv(s) && Enabled(s, step)
    ensures Inv(Do(s, step))
  {
    hide Inv, Enabled, Do;
    match step
    case Schedule(p) => ScheduleKeeps(s, p);
    case Preempt(p) => PreemptKeeps(s, p);
    case SleepOther(p) => SleepOtherKeeps(s, p);
    case WakeOther(p) => WakeOtherKeeps(s, p);
    case Kill(p) => KillKeeps(s, p);
    case ForkAlloc(p, np) => ForkAllocKeeps(s, p, np);
    case ForkFail(p) => ForkFailKeeps(s, p);
    case ForkRelease(p) => ForkReleaseKeeps(s, p);
    case ForkLock(p) => ForkLockKeeps(s, p);
    case ForkParent(p) => ForkParentKeeps(s, p);
    case ForkRun(p) => ForkRunKeeps(s, p);
    case WaitEnter(p) => WaitEnterKeeps(s, p);
    case WaitAcquire(p) => WaitAcquireKeeps(s, p);
    case WaitSkip(p) => WaitSkipKeeps(s, p);
    case WaitLive(p) => WaitLiveKeeps(s, p);
    case WaitReap(p) => WaitReapKeeps(s, p);
    case WaitFault(p) => WaitFaultKeeps(s, p);
    case WaitGiveUp(p) => WaitGiveUpKeeps(s, p);
    case WaitDecide(p) => WaitDecideKeeps(s, p);
    case SleepLock(p) => SleepLockKeeps(s, p);
    case SleepRelease(p) => SleepReleaseKeeps(s, p);
    case SleepSwitch(p) => SleepSwitchKeeps(s, p);
    case ExitEnter(p, status) => ExitEnterKeeps(s, p, status);
    case ExitAcquire(p) => ExitAcquireKeeps(s, p);
    case ReparentSkip(p) => ReparentSkipKeeps(s, p);
    case ReparentMove(p) => ReparentMoveKeeps(s, p);
    case WakeInit(p) => WakeInitKeeps(s, p);
    case WakeInitDone(p) => WakeInitDoneKeeps(s, p);
    case ReparentDone(p) => ReparentDoneKeeps(s, p);
    case WakeParent(p) => WakeParentKeeps(s, p);
    case ExitLock(p) => ExitLockKeeps(s, p);
    case ExitZombie(p) => ExitZombieKeeps(s, p);
    case ExitRelease(p) => ExitReleaseKeeps(s, p);
    case ExitSched(p) => ExitSchedKeeps(s, p);
  }

  lemma {:induction false} RunKeeps(states: seq<State>, steps: seq<Step>, k: nat)
    requires IsRun(states, steps) && k < |states|
    ensures Inv(states[k])
  {
    hide Inv, Init, Enabled, Do;
    if k == 0 {
      InitHolds(states[0]);
    } else {
      RunKeeps(states, steps, k - 1);
      StepKeeps(states[k - 1], steps[k - 1]);
    }
  }

  lemma ReachableInv(s: State)
    requires Reachable(s)
    ensures Inv(s)
  {
    var states: seq<State>, steps: seq<Step> :| IsRun(states, steps) && states[|steps|] == s;
    hide Inv, IsRun;
    RunKeeps(states, steps, |steps|);
  }

  /** Whenever wait_lock is free, nobody asleep in wait has a zombie child. */
  lemma NobodySleepsOverAZombie(s: State, p: nat, c: nat)
    requires Reachable(s) && s.waitLock == None && p < |s.procs| && c < |s.procs|
    requires s.procs[p].state == Sleeping && s.procs[p].chan == OnProc(p)
    ensures !(s.procs[c].parent == Some(p) && s.procs[c].state == Zombie)
  {
    ReachableInv(s);
    assert Local(s.procs[p], p, s.init);
    assert Committed(s.procs[p]);
    if s.procs[c].parent == Some(p) && s.procs[c].state == Zombie {
      assert ZombieChild(s.procs, c, p);
    }
  }

  /** A recorded parent is a live process, at every moment. */
  lemma ParentsAreAlive(s: State, c: nat)
    requires Reachable(s) && c < |s.procs| && s.procs[c].parent.Some?
    ensures s.procs[c].parent.value < |s.procs|
    ensures s.procs[s.procs[c].parent.value].state !in {Unused, Used, Zombie}
  {
    ReachableInv(s);
    assert Local(s.procs[s.procs[c].parent.value], s.procs[c].parent.value, s.init);
  }

  /** No pid is returned by two waits, none is returned while in use, and the status is the one given to exit. */
  lemma EachExitIsReturnedOnce(s: State, m: nat)
    requires Reachable(s) && m < |s.reaped|
    ensures forall l: nat :: l < |s.reaped| && l != m ==> s.reaped[l].0 != s.reaped[m].0
    ensures s.reaped[m].0 in s.exited && s.reaped[m].1 == s.exited[s.reaped[m].0]
    ensures forall i: nat :: i < |s.procs| && s.procs[i].state != Unused ==> s.procs[i].pid != s.reaped[m].0
  {
    ReachableInv(s);
    hide Locals, Locks, Making, Parents, Scanned, NoneMissed, ParentAwake;
  }

  /** wait frees a child only when the child no longer runs, on any stack. */
  lemma ReapedIsOffItsStack(s: State, p: nat)
    requires Reachable(s) && Enabled(s, WaitReap(p))
    ensures s.procs[s.procs[p].pc.k].pc == Dead && s.procs[p].pc.k != p
    ensures forall c: nat :: c < |s.procs| ==> s.procs[c].parent != Some(s.procs[p].pc.k)
  {
    ReachableInv(s);
    var k := s.procs[p].pc.k;
    assert Local(s.procs[k], k, s.init);
    forall c: nat | c < |s.procs|
      ensures s.procs[c].parent != Some(k)
    {
      assert s.procs[c].parent == Some(k) ==> MayBeParent(s.procs[k], c);
    }
  }

  /** init never exits, is never freed and has no parent. */
  lemma InitLives(s: State)
    requires Reachable(s)
    ensures s.init < |s.procs| && s.procs[s.init].state !in {Unused, Used, Zombie} && s.procs[s.init].parent == None
  {
    ReachableInv(s);
    assert Local(s.procs[s.init], s.init, s.init);
  }
}
