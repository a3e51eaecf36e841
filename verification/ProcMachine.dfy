/**
  fork, exit, wait, sleep, wakeup, kill and the scheduler of kernel/proc.c as an interleaved state machine.
  A step is what a process does between two points where another one could interfere: a short critical
  section under one p->lock is one step, enabled only while that lock is free; wait_lock and the p->locks
  that are held across other locks are explicit.
 */
module ProcMachine {
  import opened Common

  datatype PState = Unused | Used | Sleeping | Runnable | Running | Zombie

  /** A sleep channel: a proc structure, or anything else. */
  datatype Chan = NoChan | OnProc(p: nat) | OnOther

  /** Where a process is in the kernel. */
  datatype Pc =
    | Idle                                        // the slot is not running a process
    | User                                        // anywhere outside the calls below
    | OtherAsleep                                 // in sleep() for some other reason
    | Fork1(np: nat)                              // holds np->lock
    | Fork2(np: nat)                              // np->lock released
    | Fork3(np: nat)                              // holds wait_lock
    | Fork4(np: nat)                              // np->parent set
    | WaitStart
    | WaitScan(k: nat, kids: bool)                // holds wait_lock
    | WaitSleep1                                  // about to sleep, holds wait_lock
    | WaitSleep2                                  // holds wait_lock and its own lock
    | WaitSleep3                                  // holds its own lock
    | WaitAsleep
    | ExitStart(status: int)
    | ExitScan(status: int, k: nat)               // reparent(), holds wait_lock
    | ExitWake(status: int, k: nat, j: nat)       // wakeup(initproc) inside reparent()
    | ExitParent(status: int, j: nat)             // wakeup(p->parent)
    | ExitMark(status: int)                       // holds wait_lock and its own lock
    | ExitMarked                                  // ZOMBIE, holds both
    | ExitOff                                     // wait_lock released
    | Dead                                        // off its stack

  datatype Proc = Proc(state: PState, pid: nat, parent: Option<nat>, chan: Chan, killed: bool, xstate: int,
                       lock: Option<nat>, pc: Pc)

  /** exited: status by pid, as exit was called with; reaped: what wait returned, in order. */
  datatype State = State(procs: seq<Proc>, init: nat, waitLock: Option<nat>, nextpid: nat, exited: map<nat, int>,
                         reaped: seq<(nat, int)>)
  {
    function Put(p: nat, q: Proc): State
      requires p < |procs|
    {
      this.(procs := procs[p := q])
    }

    function Go(p: nat, pc: Pc): State
      requires p < |procs|
    {
      Put(p, procs[p].(pc := pc))
    }

    predicate At(p: nat) {
      p < |procs| && procs[p].state == Running
    }

  }

  /** The process holds no spinlock at this point. */
  predicate HoldsNothing(pc: Pc) {
    pc.User? || pc.Fork2? || pc.Fork4? || pc.WaitStart? || pc.ExitStart?
  }

  /** freeproc, and the release of p->lock that follows. */
  function Freed(): Proc {
    Proc(Unused, 0, None, NoChan, false, 0, None, Idle)
  }

  datatype Step =
    | Schedule(p: nat) | Preempt(p: nat) | SleepOther(p: nat) | WakeOther(p: nat) | Kill(p: nat)
    | ForkAlloc(p: nat, np: nat) | ForkFail(p: nat) | ForkRelease(p: nat) | ForkLock(p: nat) | ForkParent(p: nat)
    | ForkRun(p: nat)
    | WaitEnter(p: nat) | WaitAcquire(p: nat) | WaitSkip(p: nat) | WaitLive(p: nat) | WaitReap(p: nat)
    | WaitFault(p: nat)
    | WaitGiveUp(p: nat) | WaitDecide(p: nat) | SleepLock(p: nat) | SleepRelease(p: nat) | SleepSwitch(p: nat)
    | ExitEnter(p: nat, status: int) | ExitAcquire(p: nat) | ReparentSkip(p: nat) | ReparentMove(p: nat)
    | WakeInit(p: nat) | WakeInitDone(p: nat)
    | ReparentDone(p: nat) | WakeParent(p: nat) | ExitLock(p: nat) | ExitZombie(p: nat) | ExitRelease(p: nat)
    | ExitSched(p: nat)

  predicate Enabled(s: State, step: Step) {
    var p := step.p;
    p < |s.procs| &&
    var me := s.procs[p];
    var n := |s.procs|;
    match step
    case Schedule(_) => me.state == Runnable && me.lock == None
    case Preempt(_) => me.state == Running && me.lock == None && HoldsNothing(me.pc)
    case SleepOther(_) => me.state == Running && me.lock == None && me.pc.User?
    case WakeOther(_) => me.state == Sleeping && me.lock == None && me.chan == OnOther
    case Kill(_) => me.lock == None
    case ForkAlloc(_, np) =>
      me.state == Running && me.pc.User? && np < n && s.procs[np].state == Unused && s.procs[np].lock == None
    case ForkFail(_) => me.state == Running && me.pc.Fork1? && me.pc.np < n
    case ForkRelease(_) => me.state == Running && me.pc.Fork1? && me.pc.np < n
    case ForkLock(_) => me.state == Running && me.pc.Fork2? && s.waitLock == None
    case ForkParent(_) => me.state == Running && me.pc.Fork3? && me.pc.np < n
    case ForkRun(_) => me.state == Running && me.pc.Fork4? && me.pc.np < n && s.procs[me.pc.np].lock == None
    case WaitEnter(_) => me.state == Running && me.pc.User?
    case WaitAcquire(_) => me.state == Running && me.pc.WaitStart? && s.waitLock == None
    case WaitSkip(_) => me.state == Running && me.pc.WaitScan? && me.pc.k < n && s.procs[me.pc.k].parent != Some(p)
    case WaitLive(_) =>
      me.state == Running && me.pc.WaitScan? && me.pc.k < n && s.procs[me.pc.k].parent == Some(p)
      && s.procs[me.pc.k].lock == None && s.procs[me.pc.k].state != Zombie
    case WaitReap(_) =>
      me.state == Running && me.pc.WaitScan? && me.pc.k < n && s.procs[me.pc.k].parent == Some(p)
      && s.procs[me.pc.k].lock == None && s.procs[me.pc.k].state == Zombie
    case WaitFault(_) =>
      me.state == Running && me.pc.WaitScan? && me.pc.k < n && s.procs[me.pc.k].parent == Some(p)
      && s.procs[me.pc.k].lock == None && s.procs[me.pc.k].state == Zombie
    case WaitGiveUp(_) =>
      me.state == Running && me.pc.WaitScan? && me.pc.k == n && me.lock == None && (!me.pc.kids || me.killed)
    case WaitDecide(_) =>
      me.state == Running && me.pc.WaitScan? && me.pc.k == n && me.lock == None && me.pc.kids && !me.killed
    case SleepLock(_) => me.state == Running && me.pc.WaitSleep1? && me.lock == None
    case SleepRelease(_) => me.state == Running && me.pc.WaitSleep2?
    case SleepSwitch(_) => me.state == Running && me.pc.WaitSleep3?
    case ExitEnter(_, _) => me.state == Running && me.pc.User? && p != s.init
    case ExitAcquire(_) => me.state == Running && me.pc.ExitStart? && s.waitLock == None
    case ReparentSkip(_) => me.state == Running && me.pc.ExitScan? && me.pc.k < n && s.procs[me.pc.k].parent != Some(p)
    case ReparentMove(_) => me.state == Running && me.pc.ExitScan? && me.pc.k < n && s.procs[me.pc.k].parent == Some(p)
    case WakeInit(_) =>
      me.state == Running && me.pc.ExitWake? && me.pc.j < n && (me.pc.j == p || s.procs[me.pc.j].lock == None)
    case WakeInitDone(_) => me.state == Running && me.pc.ExitWake? && me.pc.j == n
    case ReparentDone(_) => me.state == Running && me.pc.ExitScan? && me.pc.k == n
    case WakeParent(_) =>
      me.state == Running && me.pc.ExitParent? && me.pc.j < n && (me.pc.j == p || s.procs[me.pc.j].lock == None)
    case ExitLock(_) => me.state == Running && me.pc.ExitParent? && me.pc.j == n && me.lock == None
    case ExitZombie(_) => me.state == Running && me.pc.ExitMark?
    case ExitRelease(_) => me.pc.ExitMarked?
    case ExitSched(_) => me.pc.ExitOff?
  }

  /** wakeup(chan) at slot j. */
  function Woken(q: Proc, chan: Chan): Proc {
    if q.state == Sleeping && q.chan == chan then q.(state := Runnable) else q
  }

  /** The channel wakeup(p->parent) names; a null parent is channel 0, on which nobody sleeps. */
  function ParentChan(parent: Option<nat>): Chan {
    if parent.Some? then OnProc(parent.value) else NoChan
  }

  function Do(s: State, step: Step): (s': State)
    requires Enabled(s, step)
  {
    var p := step.p;
    var me := s.procs[p];
    match step
    case Schedule(_) =>
      if me.pc.WaitAsleep? then s.Put(p, me.(state := Running, chan := NoChan, pc := WaitStart))
      else if me.pc.OtherAsleep? then s.Put(p, me.(state := Running, chan := NoChan, pc := User))
      else s.Put(p, me.(state := Running))
    case Preempt(_) => s.Put(p, me.(state := Runnable))
    case SleepOther(_) => s.Put(p, me.(state := Sleeping, chan := OnOther, pc := OtherAsleep))
    case WakeOther(_) => s.Put(p, me.(state := Runnable))
    case Kill(_) => s.Put(p, me.(killed := true, state := if me.state == Sleeping then Runnable else me.state))
    case ForkAlloc(_, np) =>
      var s1 := s.Put(np, s.procs[np].(pid := s.nextpid, state := Used, lock := Some(p)));
      s1.Go(p, Fork1(np)).(nextpid := s.nextpid + 1)
    case ForkFail(_) => s.Put(me.pc.np, Freed()).Go(p, User)
    case ForkRelease(_) => s.Put(me.pc.np, s.procs[me.pc.np].(lock := None)).Go(p, Fork2(me.pc.np))
    case ForkLock(_) => s.Go(p, Fork3(me.pc.np)).(waitLock := Some(p))
    case ForkParent(_) =>
      s.Put(me.pc.np, s.procs[me.pc.np].(parent := Some(p))).Go(p, Fork4(me.pc.np)).(waitLock := None)
    case ForkRun(_) => s.Put(me.pc.np, s.procs[me.pc.np].(state := Runnable, pc := User)).Go(p, User)
    case WaitEnter(_) => s.Go(p, WaitStart)
    case WaitAcquire(_) => s.Go(p, WaitScan(0, false)).(waitLock := Some(p))
    case WaitSkip(_) => s.Go(p, WaitScan(me.pc.k + 1, me.pc.kids))
    case WaitLive(_) => s.Go(p, WaitScan(me.pc.k + 1, true))
    case WaitReap(_) =>
      var c := s.procs[me.pc.k];
      s.Put(me.pc.k, Freed()).Go(p, User).(waitLock := None, reaped := s.reaped + [(c.pid, c.xstate)])
    case WaitFault(_) => s.Go(p, User).(waitLock := None)
    case WaitGiveUp(_) => s.Go(p, User).(waitLock := None)
    case WaitDecide(_) => s.Go(p, WaitSleep1)
    case SleepLock(_) => s.Put(p, me.(lock := Some(p), pc := WaitSleep2))
    case SleepRelease(_) => s.Go(p, WaitSleep3).(waitLock := None)
    case SleepSwitch(_) => s.Put(p, me.(chan := OnProc(p), state := Sleeping, lock := None, pc := WaitAsleep))
    case ExitEnter(_, status) => s.Go(p, ExitStart(status)).(exited := s.exited[me.pid := status])
    case ExitAcquire(_) => s.Go(p, ExitScan(me.pc.status, 0)).(waitLock := Some(p))
    case ReparentSkip(_) => s.Go(p, ExitScan(me.pc.status, me.pc.k + 1))
    case ReparentMove(_) =>
      s.Put(me.pc.k, s.procs[me.pc.k].(parent := Some(s.init))).Go(p, ExitWake(me.pc.status, me.pc.k, 0))
    case WakeInit(_) =>
      var s1 := if me.pc.j == p then s else s.Put(me.pc.j, Woken(s.procs[me.pc.j], OnProc(s.init)));
      s1.Go(p, ExitWake(me.pc.status, me.pc.k, me.pc.j + 1))
    case WakeInitDone(_) => s.Go(p, ExitScan(me.pc.status, me.pc.k + 1))
    case ReparentDone(_) => s.Go(p, ExitParent(me.pc.status, 0))
    case WakeParent(_) =>
      var s1 := if me.pc.j == p then s else s.Put(me.pc.j, Woken(s.procs[me.pc.j], ParentChan(me.parent)));
      s1.Go(p, ExitParent(me.pc.status, me.pc.j + 1))
    case ExitLock(_) => s.Put(p, me.(lock := Some(p), pc := ExitMark(me.pc.status)))
    case ExitZombie(_) =>
      s.Put(p, me.(xstate := me.pc.status, state := Zombie, pc := ExitMarked))
    case ExitRelease(_) => s.Go(p, ExitOff).(waitLock := None)
    case ExitSched(_) => s.Put(p, me.(lock := None, pc := Dead))
  }

  /** The table after userinit: init alone, runnable. */
  predicate Init(s: State) {
    && s.init < |s.procs| && s.waitLock == None && s.nextpid == 2 && s.exited == map[] && s.reaped == []
    && (forall i :: 0 <= i < |s.procs| ==>
          s.procs[i] ==
          if i == s.init then Proc(Runnable, 1, None, NoChan, false, 0, None, User)
          else Proc(Unused, 0, None, NoChan, false, 0, None, Idle))
  }

  ghost predicate IsRun(states: seq<State>, steps: seq<Step>) {
    && |states| == |steps| + 1 && Init(states[0])
    && (forall k :: 0 <= k < |steps| ==> Enabled(states[k], steps[k]) && states[k + 1] == Do(states[k], steps[k]))
  }

  ghost predicate Reachable(s: State) {
    exists states: seq<State>, steps: seq<Step> :: IsRun(states, steps) && states[|steps|] == s
  }
}
