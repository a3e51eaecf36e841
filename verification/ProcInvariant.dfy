/** What every step of the process machine keeps. */
module ProcInvariant {
  import opened Common
  import opened ProcMachine

  predicate HoldsWait(pc: Pc) {
    || pc.Fork3? || pc.WaitScan? || pc.WaitSleep1? || pc.WaitSleep2? || pc.ExitScan? || pc.ExitWake? || pc.ExitParent?
    || pc.ExitMark? || pc.ExitMarked?
  }

  predicate HoldsOwn(pc: Pc) {
    pc.WaitSleep2? || pc.WaitSleep3? || pc.ExitMark? || pc.ExitMarked? || pc.ExitOff?
  }

  predicate Exiting(pc: Pc) {
    || pc.ExitStart? || pc.ExitScan? || pc.ExitWake? || pc.ExitParent? || pc.ExitMark? || pc.ExitMarked? || pc.ExitOff?
    || pc.Dead?
  }

  predicate Forking(pc: Pc) {
    pc.Fork1? || pc.Fork2? || pc.Fork3? || pc.Fork4?
  }

  /** State, place and channel of one process agree. */
  predicate Local(q: Proc, i: nat, init: nat) {
    && (q.state == Unused ==> q.parent == None && q.lock == None)
    && (q.pc.Idle? <==> q.state == Unused || q.state == Used)
    && (q.state == Zombie <==> q.pc.ExitMarked? || q.pc.ExitOff? || q.pc.Dead?)
    && (q.state == Sleeping ==> q.pc.WaitAsleep? || q.pc.OtherAsleep?)
    && (q.pc.WaitAsleep? || q.pc.OtherAsleep? ==> q.state == Sleeping || q.state == Runnable)
    && (q.state == Runnable ==> HoldsNothing(q.pc) || q.pc.WaitAsleep? || q.pc.OtherAsleep?)
    && q.chan == (if q.pc.WaitAsleep? then OnProc(i) else if q.pc.OtherAsleep? then OnOther else NoChan)
    && (HoldsOwn(q.pc) ==> q.lock == Some(i))
    && (i == init ==> q.parent == None && !Exiting(q.pc) && !q.pc.Idle?)
  }

  ghost predicate Locals(procs: seq<Proc>, init: nat) {
    && init < |procs|
    && (forall i: nat :: i < |procs| ==> Local(procs[i], i, init))
  }

  /** wait_lock has one holder, and p->lock is held by its process or by the parent forking it. */
  ghost predicate Locks(procs: seq<Proc>, waitLock: Option<nat>) {
    && (waitLock.Some? ==> waitLock.value < |procs|)
    && (forall i: nat :: i < |procs| ==> (HoldsWait(procs[i].pc) <==> waitLock == Some(i)))
    && (forall i: nat :: i < |procs| && procs[i].lock.Some? ==>
          if HoldsOwn(procs[i].pc) then procs[i].lock.value == i
          else procs[i].lock.value < |procs| && procs[procs[i].lock.value].pc == Fork1(i))
  }

  /** A child under construction has one maker and is left alone. */
  ghost predicate Making(procs: seq<Proc>) {
    && (forall i: nat :: i < |procs| && Forking(procs[i].pc) ==> Made(procs, i, procs[i].pc.np))
    && (forall i: nat, j: nat ::
          && i < |procs| && j < |procs| && Forking(procs[i].pc) && Forking(procs[j].pc)
          && procs[i].pc.np == procs[j].pc.np ==>
            i == j)
  }

  predicate Made(procs: seq<Proc>, i: nat, np: nat)
    requires i < |procs|
  {
    && np < |procs| && procs[np].state == Used
    && (procs[i].pc.Fork1? ==> procs[np].lock == Some(i))
    && procs[np].parent == (if procs[i].pc.Fork4? then Some(i) else None)
  }

  /** Process q may still be c's parent where it stands. */
  predicate MayBeParent(q: Proc, c: nat) {
    && !q.pc.Idle? && q.state != Zombie && !q.pc.ExitParent? && !q.pc.ExitMark?
    && (q.pc.ExitScan? ==> q.pc.k <= c) && (q.pc.ExitWake? ==> q.pc.k < c)
  }

  ghost predicate Parents(procs: seq<Proc>) {
    forall c: nat :: c < |procs| && procs[c].parent.Some? ==>
      var q := procs[c].parent.value;
      q < |procs| && q != c && MayBeParent(procs[q], c)
  }

  /** c is a zombie child of p. */
  predicate ZombieChild(procs: seq<Proc>, c: nat, p: nat)
    requires c < |procs|
  {
    procs[c].parent == Some(p) && procs[c].state == Zombie
  }

  /** wait has seen no zombie child so far. */
  ghost predicate Scanned(procs: seq<Proc>) {
    forall p: nat, c: nat :: p < |procs| && c < |procs| && ZombieChild(procs, c, p) ==>
      && (procs[p].pc.WaitScan? ==> procs[p].pc.k <= c)
      && !procs[p].pc.WaitSleep1? && !procs[p].pc.WaitSleep2?
  }

  /** p has let go of wait_lock to sleep in wait and has not been woken. */
  predicate Committed(q: Proc) {
    q.pc.WaitSleep3? || (q.pc.WaitAsleep? && q.state == Sleeping)
  }

  /** A process asleep in wait with a zombie child is init, about to be woken by reparent. */
  ghost predicate NoneMissed(procs: seq<Proc>, init: nat, waitLock: Option<nat>) {
    forall p: nat, c: nat :: p < |procs| && c < |procs| && Committed(procs[p]) && ZombieChild(procs, c, p) ==>
      p == init && waitLock.Some? && waitLock.value < |procs| && WakesLater(procs[waitLock.value].pc, p)
  }

  predicate WakesLater(pc: Pc, p: nat) {
    pc.ExitWake? && pc.j <= p
  }

  /** Once exit has passed its parent's slot, the parent is not asleep in wait. */
  ghost predicate ParentAwake(procs: seq<Proc>) {
    forall e: nat :: e < |procs| && procs[e].parent.Some? && procs[e].parent.value < |procs| ==>
      && (procs[e].pc.ExitParent? && procs[e].parent.value < procs[e].pc.j ==> !Committed(procs[procs[e].parent.value]))
      && (procs[e].pc.ExitMark? ==> !Committed(procs[procs[e].parent.value]))
  }

  predicate Live(q: Proc) {
    q.state != Unused
  }

  /** The process is in exit and still carries the status. */
  predicate HasStatus(pc: Pc) {
    pc.ExitStart? || pc.ExitScan? || pc.ExitWake? || pc.ExitParent? || pc.ExitMark?
  }

  /** Pids are never used twice, and wait returned what exit was given. */
  ghost predicate Pids(procs: seq<Proc>, nextpid: nat, exited: map<nat, int>, reaped: seq<(nat, int)>) {
    && (forall i: nat :: i < |procs| && Live(procs[i]) ==> 0 < procs[i].pid < nextpid)
    && (forall i: nat, j: nat :: i < |procs| && j < |procs| && i != j && Live(procs[i]) && Live(procs[j]) ==>
          procs[i].pid != procs[j].pid)
    && (forall i: nat :: i < |procs| && Live(procs[i]) && HasStatus(procs[i].pc) ==>
          procs[i].pid in exited && exited[procs[i].pid] == procs[i].pc.status)
    && (forall i: nat :: i < |procs| && Live(procs[i]) && procs[i].pid in exited ==> Exiting(procs[i].pc))
    && (forall x: nat :: x in exited ==> x < nextpid)
    && (forall i: nat :: i < |procs| && procs[i].state == Zombie ==>
          procs[i].pid in exited && exited[procs[i].pid] == procs[i].xstate)
    && (forall m: nat :: m < |reaped| ==>
          0 < reaped[m].0 < nextpid && reaped[m].0 in exited && exited[reaped[m].0] == reaped[m].1)
    && (forall m: nat, i: nat :: m < |reaped| && i < |procs| && Live(procs[i]) ==> reaped[m].0 != procs[i].pid)
    && (forall m: nat, l: nat :: m < l < |reaped| ==> reaped[m].0 != reaped[l].0)
  }

  ghost predicate Inv(s: State) {
    && Locals(s.procs, s.init) && Locks(s.procs, s.waitLock) && Making(s.procs) && Parents(s.procs)
    && Scanned(s.procs) && NoneMissed(s.procs, s.init, s.waitLock) && ParentAwake(s.procs)
    && Pids(s.procs, s.nextpid, s.exited, s.reaped)
  }
}
