/** Every step of the process machine keeps the invariant. */
module ProcSafety {
  import opened Common
  import opened ProcMachine
  import opened ProcInvariant

  // ---------------------------------------------------------------- steps that change one slot

  /** wait_lock is left alone, taken while free, or given up by p. */
  predicate WaitLockMove(w: Option<nat>, w': Option<nat>, p: nat) {
    w' == w || ((w == None || w == Some(p)) && (w' == None || w' == Some(p)))
  }

  /** The new contents q of slot p fit the rest of the table. */
  ghost predicate Fits(s: State, p: nat, q: Proc, w: Option<nat>)
    requires p < |s.procs|
  {
    && FitsLocks(s.procs[p], p, q, s.waitLock, w)
    && Local(q, p, s.init)
    && FitsMaking(s.procs[p], q)
    && (forall c: nat :: c < |s.procs| && s.procs[c].parent == Some(p) ==> MayBeParent(q, c))
    && (q.state == Zombie ==> s.procs[p].state == Zombie || s.procs[p].pc.ExitMark?)
    && (forall c: nat :: c < |s.procs| && ZombieChild(s.procs, c, p) ==>
          (q.pc.WaitScan? ==> q.pc.k <= c) && !q.pc.WaitSleep1? && !q.pc.WaitSleep2?)
    && (Committed(q) ==> Committed(s.procs[p]) || s.procs[p].pc.WaitSleep2?)
    && (s.init < |s.procs| && Committed(s.procs[s.init]) && WakesLater(s.procs[p].pc, s.init) ==>
          WakesLater(q.pc, s.init) && w == s.waitLock)
    && (q.parent.Some? && q.parent.value < |s.procs| && Committed(s.procs[q.parent.value]) ==>
          !q.pc.ExitMark? && (q.pc.ExitParent? ==> q.pc.j <= q.parent.value))
  }

  predicate FitsLocks(me: Proc, p: nat, q: Proc, w: Option<nat>, w': Option<nat>) {
    && WaitLockMove(w, w', p)
    && (HoldsWait(q.pc) <==> w' == Some(p))
    && (|| q.lock == None
        || (HoldsOwn(q.pc) && q.lock == Some(p))
        || (q.lock == me.lock && !HoldsOwn(q.pc) && !HoldsOwn(me.pc)))
    && (me.pc.Fork1? ==> q.pc == me.pc)
  }

  predicate FitsMaking(me: Proc, q: Proc) {
    && (Forking(q.pc) ==>
          Forking(me.pc) && me.pc.np == q.pc.np && (q.pc.Fork4? <==> me.pc.Fork4?) && (q.pc.Fork1? <==> me.pc.Fork1?))
    && (me.state == Used ==> q.state == Used && q.lock == me.lock)
    && q.parent == me.parent
  }

  predicate SamePid(me: Proc, q: Proc) {
    && q.pid == me.pid && q.xstate == me.xstate && (Live(q) <==> Live(me)) && (q.state == Zombie ==> me.state == Zombie)
    && (HasStatus(q.pc) ==> HasStatus(me.pc) && q.pc.status == me.pc.status) && (Exiting(me.pc) ==> Exiting(q.pc))
  }

  lemma OneLocals(s: State, p: nat, q: Proc, w: Option<nat>)
    requires Inv(s) && p < |s.procs| && Fits(s, p, q, w)
    ensures Locals(s.procs[p := q], s.init)
  {
    hide Local, Locks, Making, Parents, Scanned, NoneMissed, ParentAwake, Pids, FitsLocks, FitsMaking, SamePid;
  }

  lemma OneLocks(s: State, p: nat, q: Proc, w: Option<nat>)
    requires Inv(s) && p < |s.procs| && Fits(s, p, q, w)
    ensures Locks(s.procs[p := q], w)
  {
    hide Local, Making, Parents, Scanned, NoneMissed, ParentAwake, Pids, FitsMaking, SamePid, HoldsWait, HoldsOwn;
  }

  lemma OneMaking(s: State, p: nat, q: Proc, w: Option<nat>)
    requires Inv(s) && p < |s.procs| && Fits(s, p, q, w)
    ensures Making(s.procs[p := q])
  {
    hide Local, Locks, Parents, Scanned, NoneMissed, ParentAwake, Pids, FitsLocks, SamePid;
    var procs' := s.procs[p := q];
    forall i: nat | i < |procs'| && Forking(procs'[i].pc)
      ensures Forking(s.procs[i].pc) && s.procs[i].pc.np == procs'[i].pc.np && Made(procs', i, procs'[i].pc.np)
    {
      assert Made(s.procs, i, s.procs[i].pc.np);
    }
  }

  lemma OneParents(s: State, p: nat, q: Proc, w: Option<nat>)
    requires Inv(s) && p < |s.procs| && Fits(s, p, q, w)
    ensures Parents(s.procs[p := q])
  {
    hide Local, Locks, Making, Scanned, NoneMissed, ParentAwake, Pids, FitsLocks, SamePid, MayBeParent;
  }

  lemma OneScanned(s: State, p: nat, q: Proc, w: Option<nat>)
    requires Inv(s) && p < |s.procs| && Fits(s, p, q, w)
    ensures Scanned(s.procs[p := q])
  {
    hide Local, Making, Parents, NoneMissed, ParentAwake, Pids, FitsLocks, MayBeParent;
    var procs' := s.procs[p := q];
    forall x: nat, c: nat | x < |procs'| && c < |procs'| && ZombieChild(procs', c, x)
      ensures (procs'[x].pc.WaitScan? ==> procs'[x].pc.k <= c) && !procs'[x].pc.WaitSleep1? && !procs'[x].pc.WaitSleep2?
    {
      if s.procs[c].state == Zombie {
        assert ZombieChild(s.procs, c, x);
      } else {
        assert c == p && s.waitLock == Some(p);
        if x == p {
          NotOwnParent(s, p);
        }
      }
    }
  }

  lemma NotOwnParent(s: State, p: nat)
    requires Parents(s.procs) && p < |s.procs|
    ensures s.procs[p].parent != Some(p)
  {
    hide MayBeParent;
  }

  lemma OneNoneMissed(s: State, p: nat, q: Proc, w: Option<nat>)
    requires Inv(s) && p < |s.procs| && Fits(s, p, q, w)
    ensures NoneMissed(s.procs[p := q], s.init, w)
  {
    hide Local, Making, Parents, Pids, FitsLocks, MayBeParent;
    var procs' := s.procs[p := q];
    forall x: nat, c: nat | x < |procs'| && c < |procs'| && Committed(procs'[x]) && ZombieChild(procs', c, x)
      ensures x == s.init && w.Some? && w.value < |procs'| && WakesLater(procs'[w.value].pc, x)
    {
      OneLockMoves(s, p, q, w);
      if s.procs[c].state == Zombie {
        assert ZombieChild(s.procs, c, x);
        assert Committed(s.procs[x]);
      } else {
        assert c == p && s.waitLock == Some(p);
        NotOwnParent(s, p);
      }
    }
  }

  lemma OneLockMoves(s: State, p: nat, q: Proc, w: Option<nat>)
    requires p < |s.procs| && Fits(s, p, q, w)
    ensures WaitLockMove(s.waitLock, w, p)
  {
  }

  lemma OneParentAwake(s: State, p: nat, q: Proc, w: Option<nat>)
    requires Inv(s) && p < |s.procs| && Fits(s, p, q, w)
    ensures ParentAwake(s.procs[p := q])
  {
    hide Local, Making, Parents, Scanned, NoneMissed, Pids, FitsLocks, SamePid, MayBeParent;
  }

  lemma OnePids(s: State, p: nat, q: Proc)
    requires Inv(s) && p < |s.procs| && SamePid(s.procs[p], q)
    ensures Pids(s.procs[p := q], s.nextpid, s.exited, s.reaped)
  {
    hide Locals, Locks, Making, Parents, Scanned, NoneMissed, ParentAwake;
  }

  ghost predicate InvButPids(s: State) {
    && Locals(s.procs, s.init) && Locks(s.procs, s.waitLock) && Making(s.procs) && Parents(s.procs)
    && Scanned(s.procs) && NoneMissed(s.procs, s.init, s.waitLock) && ParentAwake(s.procs)
  }

  lemma OneButPids(s: State, p: nat, q: Proc, w: Option<nat>)
    requires Inv(s) && p < |s.procs| && Fits(s, p, q, w)
    ensures InvButPids(s.Put(p, q).(waitLock := w))
  {
    OneLocals(s, p, q, w);
    OneLocks(s, p, q, w);
    OneMaking(s, p, q, w);
    OneParents(s, p, q, w);
    OneScanned(s, p, q, w);
    OneNoneMissed(s, p, q, w);
    OneParentAwake(s, p, q, w);
    hide Locals, Locks, Making, Parents, Scanned, NoneMissed, ParentAwake, Fits;
  }

  lemma One(s: State, p: nat, q: Proc, w: Option<nat>)
    requires Inv(s) && p < |s.procs| && Fits(s, p, q, w) && SamePid(s.procs[p], q)
    ensures Inv(s.Put(p, q).(waitLock := w))
  {
    hide Locals, Locks, Making, Parents, Scanned, NoneMissed, ParentAwake, Pids, Fits, SamePid;
    OneButPids(s, p, q, w);
    OnePids(s, p, q);
  }

  /** What the invariant says about slot p. */
  lemma Facts(s: State, p: nat)
    requires Inv(s) && p < |s.procs|
    ensures Local(s.procs[p], p, s.init) && s.init < |s.procs|
    ensures HoldsWait(s.procs[p].pc) <==> s.waitLock == Some(p)
    ensures s.procs[p].lock.Some? && HoldsOwn(s.procs[p].pc) ==> s.procs[p].lock.value == p
    ensures forall c: nat :: c < |s.procs| && s.procs[c].parent == Some(p) ==> MayBeParent(s.procs[p], c)
    ensures forall c: nat :: c < |s.procs| && ZombieChild(s.procs, c, p) ==>
              && (s.procs[p].pc.WaitScan? ==> s.procs[p].pc.k <= c)
              && !s.procs[p].pc.WaitSleep1? && !s.procs[p].pc.WaitSleep2?
    ensures var q := s.procs[p].parent;
            q.Some? && q.value < |s.procs| && Committed(s.procs[q.value]) ==>
              !s.procs[p].pc.ExitMark? && (s.procs[p].pc.ExitParent? ==> s.procs[p].pc.j <= s.procs[p].parent.value)
  {
    hide Local, MayBeParent, ZombieChild, Committed, Pids, Making, NoneMissed;
  }

  lemma ScheduleKeeps(s: State, p: nat)
    requires Inv(s) && Enabled(s, Schedule(p))
    ensures Inv(Do(s, Schedule(p)))
  {
    hide Locals, Locks, Making, Parents, Scanned, NoneMissed, ParentAwake, Pids;
    var me := s.procs[p];
    Facts(s, p);
    One(s, p, Do(s, Schedule(p)).procs[p], s.waitLock);
  }

  lemma PreemptKeeps(s: State, p: nat)
    requires Inv(s) && Enabled(s, Preempt(p))
    ensures Inv(Do(s, Preempt(p)))
  {
    hide Locals, Locks, Making, Parents, Scanned, NoneMissed, ParentAwake, Pids;
    var me := s.procs[p];
    Facts(s, p);
    One(s, p, me.(state := Runnable), s.waitLock);
  }

  lemma SleepOtherKeeps(s: State, p: nat)
    requires Inv(s) && Enabled(s, SleepOther(p))
    ensures Inv(Do(s, SleepOther(p)))
  {
    hide Locals, Locks, Making, Parents, Scanned, NoneMissed, ParentAwake, Pids;
    var me := s.procs[p];
    Facts(s, p);
    One(s, p, me.(state := Sleeping, chan := OnOther, pc := OtherAsleep), s.waitLock);
  }

  lemma WakeOtherKeeps(s: State, p: nat)
    requires Inv(s) && Enabled(s, WakeOther(p))
    ensures Inv(Do(s, WakeOther(p)))
  {
    hide Locals, Locks, Making, Parents, Scanned, NoneMissed, ParentAwake, Pids;
    var me := s.procs[p];
    Facts(s, p);
    One(s, p, me.(state := Runnable), s.waitLock);
  }

  lemma KillKeeps(s: State, p: nat)
    requires Inv(s) && Enabled(s, Kill(p))
    ensures Inv(Do(s, Kill(p)))
  {
    hide Locals, Locks, Making, Parents, Scanned, NoneMissed, ParentAwake, Pids;
    var me := s.procs[p];
    Facts(s, p);
    One(s, p, me.(killed := true, state := if me.state == Sleeping then Runnable else me.state), s.waitLock);
  }

  lemma ForkLockKeeps(s: State, p: nat)
    requires Inv(s) && Enabled(s, ForkLock(p))
    ensures Inv(Do(s, ForkLock(p)))
  {
    hide Locals, Locks, Making, Parents, Scanned, NoneMissed, ParentAwake, Pids;
    var me := s.procs[p];
    Facts(s, p);
    One(s, p, me.(pc := Fork3(me.pc.np)), Some(p));
  }

  lemma WaitEnterKeeps(s: State, p: nat)
    requires Inv(s) && Enabled(s, WaitEnter(p))
    ensures Inv(Do(s, WaitEnter(p)))
  {
    hide Locals, Locks, Making, Parents, Scanned, NoneMissed, ParentAwake, Pids;
    var me := s.procs[p];
    Facts(s, p);
    One(s, p, me.(pc := WaitStart), s.waitLock);
  }

  lemma WaitAcquireKeeps(s: State, p: nat)
    requires Inv(s) && Enabled(s, WaitAcquire(p))
    ensures Inv(Do(s, WaitAcquire(p)))
  {
    hide Locals, Locks, Making, Parents, Scanned, NoneMissed, ParentAwake, Pids;
    var me := s.procs[p];
    Facts(s, p);
    One(s, p, me.(pc := WaitScan(0, false)), Some(p));
  }

  lemma WaitSkipKeeps(s: State, p: nat)
    requires Inv(s) && Enabled(s, WaitSkip(p))
    ensures Inv(Do(s, WaitSkip(p)))
  {
    hide Locals, Locks, Making, Parents, Scanned, NoneMissed, ParentAwake, Pids;
    var me := s.procs[p];
    Facts(s, p);
    One(s, p, me.(pc := WaitScan(me.pc.k + 1, me.pc.kids)), s.waitLock);
  }

  lemma WaitLiveKeeps(s: State, p: nat)
    requires Inv(s) && Enabled(s, WaitLive(p))
    ensures Inv(Do(s, WaitLive(p)))
  {
    hide Locals, Locks, Making, Parents, Scanned, NoneMissed, ParentAwake, Pids;
    var me := s.procs[p];
    Facts(s, p);
    One(s, p, me.(pc := WaitScan(me.pc.k + 1, true)), s.waitLock);
  }

  lemma WaitFaultKeeps(s: State, p: nat)
    requires Inv(s) && Enabled(s, WaitFault(p))
    ensures Inv(Do(s, WaitFault(p)))
  {
    hide Locals, Locks, Making, Parents, Scanned, NoneMissed, ParentAwake, Pids;
    var me := s.procs[p];
    Facts(s, p);
    One(s, p, me.(pc := User), None);
  }

  lemma WaitGiveUpKeeps(s: State, p: nat)
    requires Inv(s) && Enabled(s, WaitGiveUp(p))
    ensures Inv(Do(s, WaitGiveUp(p)))
  {
    hide Locals, Locks, Making, Parents, Scanned, NoneMissed, ParentAwake, Pids;
    var me := s.procs[p];
    Facts(s, p);
    One(s, p, me.(pc := User), None);
  }

  lemma WaitDecideKeeps(s: State, p: nat)
    requires Inv(s) && Enabled(s, WaitDecide(p))
    ensures Inv(Do(s, WaitDecide(p)))
  {
    hide Locals, Locks, Making, Parents, Scanned, NoneMissed, ParentAwake, Pids;
    var me := s.procs[p];
    Facts(s, p);
    One(s, p, me.(pc := WaitSleep1), s.waitLock);
  }

  lemma SleepLockKeeps(s: State, p: nat)
    requires Inv(s) && Enabled(s, SleepLock(p))
    ensures Inv(Do(s, SleepLock(p)))
  {
    hide Locals, Locks, Making, Parents, Scanned, NoneMissed, ParentAwake, Pids;
    var me := s.procs[p];
    Facts(s, p);
    One(s, p, me.(lock := Some(p), pc := WaitSleep2), s.waitLock);
  }

  lemma SleepReleaseKeeps(s: State, p: nat)
    requires Inv(s) && Enabled(s, SleepRelease(p))
    ensures Inv(Do(s, SleepRelease(p)))
  {
    hide Locals, Locks, Making, Parents, Scanned, NoneMissed, ParentAwake, Pids;
    var me := s.procs[p];
    Facts(s, p);
    One(s, p, me.(pc := WaitSleep3), None);
  }

  lemma SleepSwitchKeeps(s: State, p: nat)
    requires Inv(s) && Enabled(s, SleepSwitch(p))
    ensures Inv(Do(s, SleepSwitch(p)))
  {
    hide Locals, Locks, Making, Parents, Scanned, NoneMissed, ParentAwake, Pids;
    var me := s.procs[p];
    Facts(s, p);
    One(s, p, me.(chan := OnProc(p), state := Sleeping, lock := None, pc := WaitAsleep), s.waitLock);
  }

  lemma ExitAcquireKeeps(s: State, p: nat)
    requires Inv(s) && Enabled(s, ExitAcquire(p))
    ensures Inv(Do(s, ExitAcquire(p)))
  {
    hide Locals, Locks, Making, Parents, Scanned, NoneMissed, ParentAwake, Pids;
    var me := s.procs[p];
    Facts(s, p);
    One(s, p, me.(pc := ExitScan(me.pc.status, 0)), Some(p));
  }

  lemma ReparentSkipKeeps(s: State, p: nat)
    requires Inv(s) && Enabled(s, ReparentSkip(p))
    ensures Inv(Do(s, ReparentSkip(p)))
  {
    hide Locals, Locks, Making, Parents, Scanned, NoneMissed, ParentAwake, Pids;
    var me := s.procs[p];
    Facts(s, p);
    One(s, p, me.(pc := ExitScan(me.pc.status, me.pc.k + 1)), s.waitLock);
  }

  lemma WakeInitDoneKeeps(s: State, p: nat)
    requires Inv(s) && Enabled(s, WakeInitDone(p))
    ensures Inv(Do(s, WakeInitDone(p)))
  {
    hide Locals, Locks, Making, Parents, Scanned, NoneMissed, ParentAwake, Pids;
    var me := s.procs[p];
    Facts(s, p);
    One(s, p, me.(pc := ExitScan(me.pc.status, me.pc.k + 1)), s.waitLock);
  }

  lemma ReparentDoneKeeps(s: State, p: nat)
    requires Inv(s) && Enabled(s, ReparentDone(p))
    ensures Inv(Do(s, ReparentDone(p)))
  {
    hide Locals, Locks, Making, Parents, Scanned, NoneMissed, ParentAwake, Pids;
    var me := s.procs[p];
    Facts(s, p);
    One(s, p, me.(pc := ExitParent(me.pc.status, 0)), s.waitLock);
  }

  lemma ExitLockKeeps(s: State, p: nat)
    requires Inv(s) && Enabled(s, ExitLock(p))
    ensures Inv(Do(s, ExitLock(p)))
  {
    hide Locals, Locks, Making, Parents, Scanned, NoneMissed, ParentAwake, Pids;
    var me := s.procs[p];
    Facts(s, p);
    One(s, p, me.(lock := Some(p), pc := ExitMark(me.pc.status)), s.waitLock);
  }

  lemma ExitReleaseKeeps(s: State, p: nat)
    requires Inv(s) && Enabled(s, ExitRelease(p))
    ensures Inv(Do(s, ExitRelease(p)))
  {
    hide Locals, Locks, Making, Parents, Scanned, NoneMissed, ParentAwake, Pids;
    var me := s.procs[p];
    Facts(s, p);
    One(s, p, me.(pc := ExitOff), None);
  }

  lemma ExitSchedKeeps(s: State, p: nat)
    requires Inv(s) && Enabled(s, ExitSched(p))
    ensures Inv(Do(s, ExitSched(p)))
  {
    hide Locals, Locks, Making, Parents, Scanned, NoneMissed, ParentAwake, Pids;
    var me := s.procs[p];
    Facts(s, p);
    One(s, p, me.(lock := None, pc := Dead), s.waitLock);
  }

  // ---------------------------------------------------------------- wakeup

  lemma WakeInitKeeps(s: State, p: nat)
    requires Inv(s) && Enabled(s, WakeInit(p))
    ensures Inv(Do(s, WakeInit(p)))
  {
    hide Locals, Locks, Making, Parents, Scanned, NoneMissed, ParentAwake, Pids;
    var me := s.procs[p];
    var j := me.pc.j;
    Facts(s, p);
    Facts(s, j);
    var t := s;
    if j != p {
      WokenKeeps(s, j, OnProc(s.init));
      t := s.Put(j, Woken(s.procs[j], OnProc(s.init)));
      Facts(t, p);
    }
    One(t, p, me.(pc := ExitWake(me.pc.status, me.pc.k, j + 1)), s.waitLock);
  }

  lemma WokenKeeps(s: State, j: nat, chan: Chan)
    requires Inv(s) && j < |s.procs| && s.procs[j].lock == None
    ensures Inv(s.Put(j, Woken(s.procs[j], chan)))
    ensures chan == OnProc(j) ==> !Committed(Woken(s.procs[j], chan))
  {
    hide Locals, Locks, Making, Parents, Scanned, NoneMissed, ParentAwake, Pids;
    Facts(s, j);
    One(s, j, Woken(s.procs[j], chan), s.waitLock);
  }

  lemma WakeParentKeeps(s: State, p: nat)
    requires Inv(s) && Enabled(s, WakeParent(p))
    ensures Inv(Do(s, WakeParent(p)))
  {
    hide Locals, Locks, Making, Parents, Scanned, NoneMissed, ParentAwake, Pids;
    var me := s.procs[p];
    var j := me.pc.j;
    Facts(s, p);
    Facts(s, j);
    NotOwnParent(s, p);
    var t := s;
    if j != p {
      WokenKeeps(s, j, ParentChan(me.parent));
      t := s.Put(j, Woken(s.procs[j], ParentChan(me.parent)));
      Facts(t, p);
    }
    One(t, p, me.(pc := ExitParent(me.pc.status, j + 1)), s.waitLock);
  }

  // ---------------------------------------------------------------- exit

  lemma ExitEnterKeeps(s: State, p: nat, status: int)
    requires Inv(s) && Enabled(s, ExitEnter(p, status))
    ensures Inv(Do(s, ExitEnter(p, status)))
  {
    hide Locals, Locks, Making, Parents, Scanned, NoneMissed, ParentAwake, Pids;
    var q := s.procs[p].(pc := ExitStart(status));
    Facts(s, p);
    OneButPids(s, p, q, s.waitLock);
    EnterPids(s, p, q, status);
  }

  lemma EnterPids(s: State, p: nat, q: Proc, status: int)
    requires Inv(s) && p < |s.procs| && s.procs[p].state == Running && q == s.procs[p].(pc := ExitStart(status))
    ensures Pids(s.procs[p := q], s.nextpid, s.exited[q.pid := status], s.reaped)
  {
    hide Locals, Locks, Making, Parents, Scanned, NoneMissed, ParentAwake;
  }

  lemma ExitZombieKeeps(s: State, p: nat)
    requires Inv(s) && Enabled(s, ExitZombie(p))
    ensures Inv(Do(s, ExitZombie(p)))
  {
    hide Locals, Locks, Making, Parents, Scanned, NoneMissed, ParentAwake, Pids;
    var me := s.procs[p];
    Facts(s, p);
    var q := me.(xstate := me.pc.status, state := Zombie, pc := ExitMarked);
    OneButPids(s, p, q, s.waitLock);
    ZombiePids(s, p, q, me.pc.status);
  }

  lemma ZombiePids(s: State, p: nat, q: Proc, status: int)
    requires Inv(s) && p < |s.procs| && s.procs[p].state == Running && s.procs[p].pc == ExitMark(status)
    requires q == s.procs[p].(xstate := status, state := Zombie, pc := ExitMarked)
    ensures Pids(s.procs[p := q], s.nextpid, s.exited, s.reaped)
  {
    hide Locals, Locks, Making, Parents, Scanned, NoneMissed, ParentAwake;
  }

  // ---------------------------------------------------------------- wait

  /** freeproc on a zombie that is off its stack. */
  lemma FreeKeeps(s: State, k: nat)
    requires Inv(s) && k < |s.procs| && s.procs[k].state == Zombie && s.procs[k].lock == None
    ensures InvButPids(s.Put(k, Freed()))
    ensures Pids(s.procs[k := Freed()], s.nextpid, s.exited, s.reaped + [(s.procs[k].pid, s.procs[k].xstate)])
  {
    FreePids(s, k);
    FreeRest(s, k);
  }

  lemma FreePids(s: State, k: nat)
    requires Inv(s) && k < |s.procs| && s.procs[k].state == Zombie
    ensures Pids(s.procs[k := Freed()], s.nextpid, s.exited, s.reaped + [(s.procs[k].pid, s.procs[k].xstate)])
  {
    hide Locals, Locks, Making, Parents, Scanned, NoneMissed, ParentAwake;
  }

  lemma FreeRest(s: State, k: nat)
    requires Inv(s) && k < |s.procs| && s.procs[k].state == Zombie && s.procs[k].lock == None
    ensures InvButPids(s.Put(k, Freed()))
  {
    hide Locals, Locks, Making, Parents, Scanned, NoneMissed, ParentAwake, Pids;
    FreeLocks(s, k);
    FreeMaking(s, k);
    FreeWaits(s, k);
  }

  lemma FreeLocks(s: State, k: nat)
    requires Inv(s) && k < |s.procs| && s.procs[k].state == Zombie && s.procs[k].lock == None
    ensures Locals(s.procs[k := Freed()], s.init) && Locks(s.procs[k := Freed()], s.waitLock)
  {
    hide Making, Parents, Scanned, NoneMissed, ParentAwake, Pids;
    assert Local(s.procs[k], k, s.init);
  }

  lemma FreeMaking(s: State, k: nat)
    requires Inv(s) && k < |s.procs| && s.procs[k].state == Zombie
    ensures Making(s.procs[k := Freed()]) && Parents(s.procs[k := Freed()])
  {
    hide Locks, Scanned, NoneMissed, ParentAwake, Pids;
    var procs' := s.procs[k := Freed()];
    assert Local(s.procs[k], k, s.init);
    forall i: nat | i < |procs'| && Forking(procs'[i].pc)
      ensures Made(procs', i, procs'[i].pc.np)
    {
      assert Made(s.procs, i, s.procs[i].pc.np);
    }
  }

  lemma FreeWaits(s: State, k: nat)
    requires Inv(s) && k < |s.procs| && s.procs[k].state == Zombie && s.procs[k].lock == None
    ensures Scanned(s.procs[k := Freed()]) && NoneMissed(s.procs[k := Freed()], s.init, s.waitLock)
    ensures ParentAwake(s.procs[k := Freed()])
  {
    hide Locks, Making, Parents, Pids;
    var procs' := s.procs[k := Freed()];
    assert Local(s.procs[k], k, s.init);
    forall x: nat, c: nat | x < |procs'| && c < |procs'| && ZombieChild(procs', c, x)
      ensures ZombieChild(s.procs, c, x)
    {
    }
  }

  lemma WaitReapKeeps(s: State, p: nat)
    requires Inv(s) && Enabled(s, WaitReap(p))
    ensures Inv(Do(s, WaitReap(p)))
  {
    hide Locals, Locks, Making, Parents, Scanned, NoneMissed, ParentAwake, Pids;
    var me := s.procs[p];
    var k := me.pc.k;
    Facts(s, p);
    One(s, p, me.(pc := User), None);
    var t := s.Put(p, me.(pc := User)).(waitLock := None);
    FreeKeeps(t, k);
    assert t.procs[k := Freed()] == s.procs[k := Freed()][p := me.(pc := User)];
  }

  // ---------------------------------------------------------------- reparent

  function Moved(s: State, p: nat, k: nat, pc: Pc): seq<Proc>
    requires p < |s.procs| && k < |s.procs|
  {
    s.procs[k := s.procs[k].(parent := Some(s.init))][p := s.procs[p].(pc := pc)]
  }

  ghost predicate Moving(s: State, p: nat, k: nat, pc: Pc) {
    && p < |s.procs| && k < |s.procs| && k != p && s.procs[p].state == Running && s.procs[p].pc.ExitScan?
    && s.procs[p].pc.k == k
    && s.procs[k].parent == Some(p) && pc == ExitWake(s.procs[p].pc.status, k, 0)
  }

  lemma MoveLocks(s: State, p: nat, k: nat, pc: Pc)
    requires Inv(s) && Moving(s, p, k, pc)
    ensures Locals(Moved(s, p, k, pc), s.init) && Locks(Moved(s, p, k, pc), s.waitLock)
  {
    hide Making, Parents, Scanned, NoneMissed, ParentAwake, Pids;
    assert Local(s.procs[k], k, s.init) && Local(s.procs[p], p, s.init);
  }

  lemma MoveMaking(s: State, p: nat, k: nat, pc: Pc)
    requires Inv(s) && Moving(s, p, k, pc)
    ensures Making(Moved(s, p, k, pc))
  {
    hide Locals, Locks, Parents, Scanned, NoneMissed, ParentAwake, Pids;
    var procs' := Moved(s, p, k, pc);
    forall i: nat | i < |procs'| && Forking(procs'[i].pc)
      ensures Forking(s.procs[i].pc) && s.procs[i].pc == procs'[i].pc && Made(procs', i, procs'[i].pc.np)
    {
      assert Made(s.procs, i, s.procs[i].pc.np);
    }
  }

  lemma MoveParents(s: State, p: nat, k: nat, pc: Pc)
    requires Inv(s) && Moving(s, p, k, pc)
    ensures Parents(Moved(s, p, k, pc))
  {
    hide Locks, Making, Scanned, NoneMissed, ParentAwake, Pids;
    assert Local(s.procs[k], k, s.init) && Local(s.procs[p], p, s.init) && Local(s.procs[s.init], s.init, s.init);
  }

  lemma MoveWaits(s: State, p: nat, k: nat, pc: Pc)
    requires Inv(s) && Moving(s, p, k, pc)
    ensures Scanned(Moved(s, p, k, pc)) && NoneMissed(Moved(s, p, k, pc), s.init, s.waitLock)
  {
    hide Making, Parents, ParentAwake, Pids;
    var procs' := Moved(s, p, k, pc);
    assert s.waitLock == Some(p);
    assert Local(s.procs[p], p, s.init);
    forall x: nat, c: nat | x < |procs'| && c < |procs'| && ZombieChild(procs', c, x)
      ensures ZombieChild(s.procs, c, x) || (c == k && x == s.init)
    {
    }
    hide Locals;
  }

  lemma MoveAwake(s: State, p: nat, k: nat, pc: Pc)
    requires Inv(s) && Moving(s, p, k, pc)
    ensures ParentAwake(Moved(s, p, k, pc))
  {
    hide Locals, Making, Parents, Scanned, NoneMissed, Pids;
    assert s.waitLock == Some(p);
    var procs' := Moved(s, p, k, pc);
    forall e: nat | e < |procs'|
      ensures !procs'[e].pc.ExitParent? && !procs'[e].pc.ExitMark?
    {
      assert HoldsWait(s.procs[e].pc) <==> e == p;
    }
  }

  lemma MovePids(s: State, p: nat, k: nat, pc: Pc)
    requires Inv(s) && Moving(s, p, k, pc)
    ensures Pids(Moved(s, p, k, pc), s.nextpid, s.exited, s.reaped)
  {
    hide Locals, Locks, Making, Parents, Scanned, NoneMissed, ParentAwake;
    var procs' := Moved(s, p, k, pc);
    assert forall i: nat :: i < |procs'| ==> SamePid(s.procs[i], procs'[i]);
  }

  lemma ReparentMoveKeeps(s: State, p: nat)
    requires Inv(s) && Enabled(s, ReparentMove(p))
    ensures Inv(Do(s, ReparentMove(p)))
  {
    hide Locals, Locks, Making, Parents, Scanned, NoneMissed, ParentAwake, Pids;
    var k, pc := s.procs[p].pc.k, ExitWake(s.procs[p].pc.status, s.procs[p].pc.k, 0);
    NotOwnParent(s, p);
    MoveLocks(s, p, k, pc);
    MoveMaking(s, p, k, pc);
    MoveParents(s, p, k, pc);
    MoveWaits(s, p, k, pc);
    MoveAwake(s, p, k, pc);
    MovePids(s, p, k, pc);
  }

  // ---------------------------------------------------------------- fork

  predicate ForkPc(pc: Pc) {
    pc.User? || Forking(pc)
  }

  /** p goes from pc to pc', the child slot np becomes r, and wait_lock becomes w. */
  ghost predicate ForkMove(s: State, p: nat, pc: Pc, np: nat, r: Proc, w: Option<nat>) {
    && p < |s.procs| && np < |s.procs| && p != np && s.procs[p].state == Running && ForkPc(s.procs[p].pc) && ForkPc(pc)
    && ((s.procs[np].state == Unused && s.procs[p].pc.User?) || (Forking(s.procs[p].pc) && s.procs[p].pc.np == np))
    && np != s.init && Local(r, np, s.init) && (r.pc.Idle? || r.pc.User?)
    && WaitLockMove(s.waitLock, w, p) && (HoldsWait(pc) <==> w == Some(p))
    && r.lock == (if pc.Fork1? then Some(p) else None)
    && (Forking(pc) ==> pc.np == np && r.state == Used)
    && r.parent == (if pc.Fork4? || r.state == Runnable then Some(p) else None)
    && r.state != Zombie
  }

  function Forked(s: State, p: nat, pc: Pc, np: nat, r: Proc): seq<Proc>
    requires p < |s.procs| && np < |s.procs|
  {
    s.procs[np := r][p := s.procs[p].(pc := pc)]
  }

  lemma ForkLocals(s: State, p: nat, pc: Pc, np: nat, r: Proc, w: Option<nat>)
    requires Inv(s) && ForkMove(s, p, pc, np, r, w)
    ensures Locals(Forked(s, p, pc, np, r), s.init)
  {
    hide Locks, Making, Parents, Scanned, NoneMissed, ParentAwake, Pids;
    assert Local(s.procs[p], p, s.init);
  }

  lemma ChildIsIdle(s: State, p: nat, pc: Pc, np: nat, r: Proc, w: Option<nat>)
    requires Inv(s) && ForkMove(s, p, pc, np, r, w)
    ensures s.procs[np].pc.Idle?
    ensures (forall i: nat :: i < |s.procs| && Forking(s.procs[i].pc) && s.procs[i].pc.np == np ==> i == p)
  {
    hide Locks, Parents, Scanned, NoneMissed, ParentAwake, Pids;
    assert Local(s.procs[np], np, s.init);
    forall i: nat | i < |s.procs| && Forking(s.procs[i].pc)
      ensures s.procs[i].pc.np == np ==> i == p
    {
      assert Made(s.procs, i, s.procs[i].pc.np);
    }
  }

  lemma ForkBasics(s: State, p: nat, pc: Pc, np: nat, r: Proc, w: Option<nat>)
    requires ForkMove(s, p, pc, np, r, w)
    ensures p < |s.procs| && np < |s.procs| && p != np && WaitLockMove(s.waitLock, w, p)
    ensures !Committed(r) && !Committed(s.procs[p].(pc := pc)) && r.state != Zombie
    ensures !s.procs[p].pc.ExitWake? && ForkPc(s.procs[p].pc) && ForkPc(pc) && (r.pc.Idle? || r.pc.User?)
    ensures (HoldsWait(pc) <==> w == Some(p)) && r.lock == if pc.Fork1? then Some(p) else None
  {
    hide Local;
  }

  lemma ForkLocks(s: State, p: nat, pc: Pc, np: nat, r: Proc, w: Option<nat>)
    requires Inv(s) && ForkMove(s, p, pc, np, r, w)
    ensures Locks(Forked(s, p, pc, np, r), w)
  {
    hide Locals, Making, Parents, Scanned, NoneMissed, ParentAwake, Pids, HoldsOwn, HoldsWait, Local, ForkMove;
    hide Committed, ForkPc;
    ForkBasics(s, p, pc, np, r, w);
    ChildIsIdle(s, p, pc, np, r, w);
    var procs' := Forked(s, p, pc, np, r);
    NoLocks(s.procs[p].pc, pc, r.pc, s.procs[np].pc);
    ForkOwnLock(s, p, pc, np, r, w);
    forall i: nat | i < |procs'|
      ensures HoldsWait(procs'[i].pc) <==> w == Some(i)
      ensures procs'[i].lock.Some? ==>
                if HoldsOwn(procs'[i].pc) then procs'[i].lock.value == i
                else procs'[i].lock.value < |procs'| && procs'[procs'[i].lock.value].pc == Fork1(i)
    {
      if i != p && i != np {
        assert s.procs[i] == procs'[i];
      }
    }
  }

  /** The forking process holds no lock of its own, and the child's only while it makes it. */
  lemma ForkOwnLock(s: State, p: nat, pc: Pc, np: nat, r: Proc, w: Option<nat>)
    requires Inv(s) && ForkMove(s, p, pc, np, r, w)
    ensures s.procs[p].lock == None && (pc.Fork1? ==> pc.np == np)
    ensures s.procs[p].pc.Fork1? ==> s.procs[p].pc.np == np
  {
    assert Local(s.procs[p], p, s.init);
    hide Locals, Making, Parents, Scanned, NoneMissed, ParentAwake, Pids;
  }

  lemma NoLocks(pc0: Pc, pc: Pc, rpc: Pc, ipc: Pc)
    requires ForkPc(pc0) && ForkPc(pc) && (rpc.Idle? || rpc.User?) && ipc.Idle?
    ensures !HoldsOwn(pc0) && !HoldsOwn(pc) && !HoldsOwn(rpc) && !HoldsOwn(ipc) && !HoldsWait(rpc) && !HoldsWait(ipc)
  {
  }

  lemma ForkMaking(s: State, p: nat, pc: Pc, np: nat, r: Proc, w: Option<nat>)
    requires Inv(s) && ForkMove(s, p, pc, np, r, w)
    ensures Making(Forked(s, p, pc, np, r))
  {
    ChildIsIdle(s, p, pc, np, r, w);
    hide Locals, Locks, Parents, Scanned, NoneMissed, ParentAwake, Pids;
    var procs' := Forked(s, p, pc, np, r);
    forall i: nat | i < |procs'| && Forking(procs'[i].pc)
      ensures i != p ==> Forking(s.procs[i].pc) && s.procs[i].pc == procs'[i].pc && procs'[i].pc.np != np
      ensures Made(procs', i, procs'[i].pc.np)
    {
      if i != p && i != np {
        assert Made(s.procs, i, s.procs[i].pc.np);
      }
    }
  }

  lemma ForkParents(s: State, p: nat, pc: Pc, np: nat, r: Proc, w: Option<nat>)
    requires Inv(s) && ForkMove(s, p, pc, np, r, w)
    ensures Parents(Forked(s, p, pc, np, r))
  {
    ChildIsIdle(s, p, pc, np, r, w);
    hide Locals, Locks, Making, Scanned, NoneMissed, ParentAwake, Pids;
  }

  lemma ForkScanned(s: State, p: nat, pc: Pc, np: nat, r: Proc, w: Option<nat>)
    requires Inv(s) && ForkMove(s, p, pc, np, r, w)
    ensures Scanned(Forked(s, p, pc, np, r))
  {
    hide Locals, Making, Pids, Locks, Parents, NoneMissed, ParentAwake, Local, HoldsWait;
    var procs' := Forked(s, p, pc, np, r);
    forall x: nat, c: nat | x < |procs'| && c < |procs'| && ZombieChild(procs', c, x)
      ensures ZombieChild(s.procs, c, x)
    {
    }
  }

  lemma ForkNoneMissed(s: State, p: nat, pc: Pc, np: nat, r: Proc, w: Option<nat>)
    requires Inv(s) && ForkMove(s, p, pc, np, r, w)
    ensures NoneMissed(Forked(s, p, pc, np, r), s.init, w)
  {
    hide Locals, Making, Pids, Locks, Parents, Scanned, ParentAwake, ForkMove, Committed;
    ForkBasics(s, p, pc, np, r, w);
    ChildIsIdle(s, p, pc, np, r, w);
    var procs' := Forked(s, p, pc, np, r);
    forall x: nat, c: nat | x < |procs'| && c < |procs'| && Committed(procs'[x]) && ZombieChild(procs', c, x)
      ensures x == s.init && w.Some? && w.value < |procs'| && WakesLater(procs'[w.value].pc, x)
    {
      assert x != np && x != p;
      assert ZombieChild(s.procs, c, x) && Committed(s.procs[x]);
    }
  }

  lemma ForkAwake(s: State, p: nat, pc: Pc, np: nat, r: Proc, w: Option<nat>)
    requires Inv(s) && ForkMove(s, p, pc, np, r, w)
    ensures ParentAwake(Forked(s, p, pc, np, r))
  {
    hide Locals, Making, Pids, Locks, Parents, Scanned, NoneMissed, Local, HoldsWait, ForkMove, Committed;
    ForkBasics(s, p, pc, np, r, w);
    var procs' := Forked(s, p, pc, np, r);
    forall e: nat | && e < |procs'| && procs'[e].parent.Some? && procs'[e].parent.value < |procs'|
                    && (procs'[e].pc.ExitParent? || procs'[e].pc.ExitMark?)
      ensures procs'[e] == s.procs[e]
      ensures Committed(procs'[procs'[e].parent.value]) ==> Committed(s.procs[procs'[e].parent.value])
    {
    }
  }

  lemma ForkPids(s: State, p: nat, pc: Pc, np: nat, r: Proc, nextpid: nat)
    requires Inv(s) && p < |s.procs| && np < |s.procs| && p != np && Live(s.procs[p]) && s.procs[np].state != Zombie
    requires r.state != Zombie && !HasStatus(r.pc) && !HasStatus(pc)
    requires !Exiting(s.procs[p].pc) && !Exiting(s.procs[np].pc)
    requires (r.pid == s.procs[np].pid && Live(s.procs[np]) && nextpid == s.nextpid)
             || (!Live(r) && nextpid == s.nextpid) || (r.pid == s.nextpid && nextpid == s.nextpid + 1 && s.nextpid > 0)
    ensures Pids(Forked(s, p, pc, np, r), nextpid, s.exited, s.reaped)
  {
    hide Locals, Locks, Making, Parents, Scanned, NoneMissed, ParentAwake;
  }

  lemma ForkMoves(s: State, p: nat, pc: Pc, np: nat, r: Proc, w: Option<nat>, nextpid: nat)
    requires Inv(s) && ForkMove(s, p, pc, np, r, w)
    requires (r.pid == s.procs[np].pid && Live(s.procs[np]) && nextpid == s.nextpid)
             || (!Live(r) && nextpid == s.nextpid) || (r.pid == s.nextpid && nextpid == s.nextpid + 1)
    ensures Inv(s.(procs := Forked(s, p, pc, np, r), waitLock := w, nextpid := nextpid))
  {
    assert Local(s.procs[np], np, s.init);
    assert s.nextpid > 0 by {
      assert Live(s.procs[p]);
    }
    ChildIsIdle(s, p, pc, np, r, w);
    hide Locals, Locks, Making, Parents, Scanned, NoneMissed, ParentAwake, Pids;
    ForkLocals(s, p, pc, np, r, w);
    ForkLocks(s, p, pc, np, r, w);
    ForkMaking(s, p, pc, np, r, w);
    ForkParents(s, p, pc, np, r, w);
    ForkScanned(s, p, pc, np, r, w);
    ForkNoneMissed(s, p, pc, np, r, w);
    ForkAwake(s, p, pc, np, r, w);
    ForkPids(s, p, pc, np, r, nextpid);
  }

  /** The child a forking process is making. */
  lemma ChildFacts(s: State, p: nat)
    requires Inv(s) && p < |s.procs| && Forking(s.procs[p].pc)
    ensures Made(s.procs, p, s.procs[p].pc.np)
    ensures s.procs[p].pc.np != p && s.procs[p].pc.np != s.init
    ensures Local(s.procs[s.procs[p].pc.np], s.procs[p].pc.np, s.init)
    ensures s.procs[s.procs[p].pc.np].lock.Some? ==> s.procs[p].pc.Fork1?
  {
    hide Parents, Scanned, NoneMissed, ParentAwake, Pids;
    var np := s.procs[p].pc.np;
    assert Made(s.procs, p, np);
    assert Local(s.procs[np], np, s.init) && Local(s.procs[p], p, s.init);
    if s.procs[np].lock.Some? {
      var o := s.procs[np].lock.value;
      assert s.procs[o].pc == Fork1(np);
    }
  }

  lemma ForkAllocKeeps(s: State, p: nat, np: nat)
    requires Inv(s) && Enabled(s, ForkAlloc(p, np))
    ensures Inv(Do(s, ForkAlloc(p, np)))
  {
    hide Locals, Locks, Making, Parents, Scanned, NoneMissed, ParentAwake, Pids;
    Facts(s, p);
    Facts(s, np);
    ForkMoves(s, p, Fork1(np), np, s.procs[np].(pid := s.nextpid, state := Used, lock := Some(p)), s.waitLock,
              s.nextpid + 1);
  }

  lemma ForkFailKeeps(s: State, p: nat)
    requires Inv(s) && Enabled(s, ForkFail(p))
    ensures Inv(Do(s, ForkFail(p)))
  {
    hide Locals, Locks, Making, Parents, Scanned, NoneMissed, ParentAwake, Pids;
    Facts(s, p);
    ChildFacts(s, p);
    ForkMoves(s, p, User, s.procs[p].pc.np, Freed(), s.waitLock, s.nextpid);
  }

  lemma ForkReleaseKeeps(s: State, p: nat)
    requires Inv(s) && Enabled(s, ForkRelease(p))
    ensures Inv(Do(s, ForkRelease(p)))
  {
    hide Locals, Locks, Making, Parents, Scanned, NoneMissed, ParentAwake, Pids;
    Facts(s, p);
    ChildFacts(s, p);
    var np := s.procs[p].pc.np;
    ForkMoves(s, p, Fork2(np), np, s.procs[np].(lock := None), s.waitLock, s.nextpid);
  }

  lemma ForkParentKeeps(s: State, p: nat)
    requires Inv(s) && Enabled(s, ForkParent(p))
    ensures Inv(Do(s, ForkParent(p)))
  {
    hide Locals, Locks, Making, Parents, Scanned, NoneMissed, ParentAwake, Pids;
    Facts(s, p);
    ChildFacts(s, p);
    var np := s.procs[p].pc.np;
    ForkMoves(s, p, Fork4(np), np, s.procs[np].(parent := Some(p)), None, s.nextpid);
  }

  lemma ForkRunKeeps(s: State, p: nat)
    requires Inv(s) && Enabled(s, ForkRun(p))
    ensures Inv(Do(s, ForkRun(p)))
  {
    hide Locals, Locks, Making, Parents, Scanned, NoneMissed, ParentAwake, Pids;
    Facts(s, p);
    ChildFacts(s, p);
    var np := s.procs[p].pc.np;
    ForkMoves(s, p, User, np, s.procs[np].(state := Runnable, pc := User), s.waitLock, s.nextpid);
  }
}
