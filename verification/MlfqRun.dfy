/** The run of mlfq(): queues, clock and process list updated in place. */
module MlfqRun {
  import opened Mlfq
  import opened MlfqPeak
  import opened MlfqStage
  import opened MlfqOrder

  class Scheduler {
    var ps: seq<Process>
    var slots: seq<seq<int>>
    var front: seq<int>
    var rear: seq<int>
    var now: int
    var overflow: bool                 // "Queue overflow" has been printed
    ghost var loc: seq<Loc>
    ghost var disp: seq<nat>
    ghost var qs: seq<seq<nat>>
    ghost var trace: seq<Slice>
    ghost var stage: Stage
    ghost var base: int                // the clock at the start

    /** If the queue is not full, pid goes to its end; a full queue drops it. */
    method Enqueue(level: nat, pid: int, ghost c: seq<int>) returns (ok: bool)
      requires |slots| == |front| == |rear| == LEVELS && level < LEVELS
      requires QueueIs(slots[level], front[level], rear[level], c)
      modifies this`slots, this`front, this`rear, this`overflow
      ensures |slots| == |front| == |rear| == LEVELS
      ensures ok <==> old(rear)[level] < MAX - 1
      ensures QueueIs(slots[level], front[level], rear[level], if ok then c + [pid] else c)
      ensures rear == (if ok then Pushed(old(rear), level) else old(rear)) && overflow == (old(overflow) || !ok)
      ensures forall l :: 0 <= l < LEVELS && l != level ==> slots[l] == old(slots)[l] && front[l] == old(front)[l]
    {
      if rear[level] == MAX - 1 {
        overflow := true;
        return false;
      }
      if rear[level] == -1 {
        front, rear := front[level := 0], rear[level := 0];
      } else {
        rear := rear[level := rear[level] + 1];
      }
      var r := rear[level];
      slots := slots[level := slots[level][r := pid]];
      return true;
    }

    method Dequeue(level: nat, ghost c: seq<int>) returns (pid: int)
      requires |slots| == |front| == |rear| == LEVELS && level < LEVELS
      requires QueueIs(slots[level], front[level], rear[level], c)
      modifies this`front, this`rear
      ensures |front| == |rear| == LEVELS
      ensures c == [] ==> pid == -1 && front == old(front) && rear == old(rear)
      ensures c != [] ==> pid == c[0] && QueueIs(slots[level], front[level], rear[level], c[1..])
      ensures rear == if |c| == 1 then old(rear)[level := -1] else old(rear)
      ensures forall l :: 0 <= l < LEVELS && l != level ==> front[l] == old(front)[l]
    {
      if front[level] == -1 {
        return -1;
      }
      PopSlots(slots[level], front[level], rear[level], c);
      hide QueueIs;
      pid := slots[level][front[level]];
      if front[level] == rear[level] {
        front, rear := front[level := -1], rear[level := -1];
      } else {
        front := front[level := front[level] + 1];
      }
    }

    /** The first process with this pid, if any. */
    method FindProcess(pid: int) returns (found: bool, k: nat)
      ensures found <==> exists i :: 0 <= i < |ps| && ps[i].pid == pid
      ensures found ==> k < |ps| && ps[k].pid == pid && forall i :: 0 <= i < k ==> ps[i].pid != pid
    {
      k := 0;
      while k < |ps|
        invariant k <= |ps| && forall i :: 0 <= i < k ==> ps[i].pid != pid
      {
        if ps[k].pid == pid {
          return true, k;
        }
        k := k + 1;
      }
      return false, k;
    }

    /** Queues, processes and trace agree. */
    ghost predicate Core()
      reads this
    {
      && DistinctPids(ps) && ProcessesOk(ps, loc, disp, now) && TraceOk(trace, ps, now) && Counted(trace, disp)
      && AllHold(qs, loc) && AllKept(slots, front, rear, ps, qs)
    }

    ghost predicate Valid()
      reads this
    {
      && Core() && Room(ps, stage, qs, rear, loc, disp, overflow)
      && InOrder(ps, loc, disp, qs, trace, now, base)
    }

    /** The head of the queue at this level, taken out of slots but not yet placed. */
    ghost predicate Taken(level: nat, i: nat)
      reads this
    {
      && DistinctPids(ps) && ProcessesOk(ps, loc, disp, now) && TraceOk(trace, ps, now) && Counted(trace, disp)
      && AllHold(qs, loc) && level < LEVELS && qs[level] != [] && i == qs[level][0] && i < |ps|
      && AllKept(slots, front, rear, ps, qs[level := qs[level][1..]])
    }

    method Take(level: nat) returns (pid: int, ghost i: nat)
      requires Core() && level < LEVELS && qs[level] != []
      modifies this`front, this`rear
      ensures Taken(level, i) && pid == ps[i].pid
      ensures |old(rear)| == |qs| == LEVELS && rear == Popped(old(rear), qs, level)
    {
      hide ProcessesOk, TraceOk, Counted, Holds;
      i := qs[level][0];
      ghost var c := Pids(ps, qs[level]);
      HeadIn(qs, ps, level);
      pid := Dequeue(level, c);
      PidsTail(ps, qs[level]);
    }

    /** The process runs to its end. */
    method Finish(level: nat, k: nat)
      requires Taken(level, k) && ps[k].remain <= Quantum(level)
      modifies this`ps, this`now, this`loc, this`disp, this`qs, this`trace
      ensures Core() && ps == old(ps)[k := Finished(old(ps)[k], Start(old(ps)[k], old(now)))]
      ensures |old(loc)| == |old(disp)| == |ps| && |old(qs)| == LEVELS
      ensures qs == Moved(old(qs), level, Done) && loc == old(loc)[k := Done]
      ensures disp == old(disp)[k := old(disp)[k] + 1]
      ensures now == Start(old(ps)[k], old(now)) + old(ps)[k].remain && ps[k].ct == now
      ensures trace == old(trace) + [Slice(k, old(disp)[k], Start(old(ps)[k], old(now)), now)]
    {
      hide ProcessesOk, TraceOk, Counted, AllHold, AllKept, ProcessOk, DistinctPids;
      ghost var p, ps0, t := ps[k], ps, Start(ps[k], now);
      HeadOk(ps, loc, disp, now, qs, level, k);
      FinishedOk(p, level, disp[k], now);
      UpdateOk(ps, loc, disp, now, k, Finished(p, t), Done, t + p.remain);
      TraceGrows(trace, ps, now, k, Finished(p, t), disp[k], t, t + p.remain);
      MovedHold(qs, loc, level, Done);
      if ps[k].at > now {
        now := ps[k].at;
      }
      now := now + ps[k].remain;
      var ct := now;
      ps := ps[k := ps[k].(remain := 0, ct := ct, tat := ct - ps[k].at, wt := ct - ps[k].at - ps[k].bt,
                           rt := ct - ps[k].at - ps[k].bt)];
      KeptAfter(slots, front, rear, ps0, ps, qs[level := qs[level][1..]]);
      DistinctAfter(ps0, ps);
      CountedMore(trace, disp, Slice(k, disp[k], t, t + p.remain));
      trace := trace + [Slice(k, disp[k], t, t + p.remain)];
      loc, disp, qs := loc[k := Done], disp[k := disp[k] + 1], Moved(qs, level, Done);
    }

    /** The process uses up its quantum. */
    method Run(level: nat, k: nat)
      requires Taken(level, k) && ps[k].remain > Quantum(level)
      modifies this`ps, this`now, this`trace
      ensures ps == old(ps)[k := Ran(old(ps)[k], level)] && now == Start(old(ps)[k], old(now)) + Quantum(level)
      ensures k < |disp| && Counted(trace, disp[k := disp[k] + 1])
      ensures DistinctPids(ps) && TraceOk(trace, ps, now)
      ensures trace == old(trace) + [Slice(k, disp[k], Start(old(ps)[k], old(now)), now)]
      ensures AllKept(slots, front, rear, ps, qs[level := qs[level][1..]])
    {
      hide ProcessesOk, TraceOk, Counted, AllHold, AllKept, ProcessOk, DistinctPids;
      ghost var p, ps0, t := ps[k], ps, Start(ps[k], now);
      HeadOk(ps, loc, disp, now, qs, level, k);
      TraceGrows(trace, ps, now, k, Ran(p, level), disp[k], t, t + Quantum(level));
      if ps[k].at > now {
        now := ps[k].at;
      }
      now := now + Quantum(level);
      ps := ps[k := ps[k].(remain := ps[k].remain - Quantum(level))];
      KeptAfter(slots, front, rear, ps0, ps, qs[level := qs[level][1..]]);
      DistinctAfter(ps0, ps);
      CountedMore(trace, disp, Slice(k, disp[k], t, t + Quantum(level)));
      trace := trace + [Slice(k, disp[k], t, t + Quantum(level))];
    }

    /** The process uses up its quantum and moves down a level, or is dropped if that queue is full. */
    method Demote(level: nat, k: nat, pid: int) returns (ok: bool)
      requires Taken(level, k) && ps[k].remain > Quantum(level) && pid == ps[k].pid
      modifies this`ps, this`now, this`trace, this`slots, this`front, this`rear, this`overflow, this`loc, this`disp,
               this`qs
      ensures Core() && ps == old(ps)[k := Ran(old(ps)[k], level)]
      ensures |old(loc)| == |old(disp)| == |ps| && |old(qs)| == |old(rear)| == LEVELS
      ensures var x := if ok then At(NextLevel(level)) else Lost;
              qs == Moved(old(qs), level, x) && loc == old(loc)[k := x] && disp == old(disp)[k := old(disp)[k] + 1]
      ensures now == Start(old(ps)[k], old(now)) + Quantum(level)
      ensures trace == old(trace) + [Slice(k, old(disp)[k], Start(old(ps)[k], old(now)), now)]
      ensures ok <==> old(rear)[NextLevel(level)] < MAX - 1
      ensures rear == if ok then Pushed(old(rear), NextLevel(level)) else old(rear)
      ensures overflow == (old(overflow) || !ok)
    {
      hide ProcessesOk, TraceOk, Counted, AllHold, AllKept, ProcessOk, DistinctPids, Moved, QueueIs;
      ghost var m, p, ps0, now0 := NextLevel(level), ps[k], ps, now;
      HeadOk(ps, loc, disp, now, qs, level, k);
      RanOk(p, level, disp[k], now);
      Run(level, k);
      var next := if level < LEVELS - 1 then level + 1 else level;
      ok := Put(level, k, next, pid);
      ghost var x := if ok then At(m) else Lost;
      UpdateOk(ps0, loc, disp, now0, k, Ran(p, level), x, now);
      MovedHold(qs, loc, level, x);
      loc, disp, qs := loc[k := x], disp[k := disp[k] + 1], Moved(qs, level, x);
    }

    /** enqueue of the process that just ran. */
    method Put(level: nat, k: nat, next: nat, pid: int) returns (ok: bool)
      requires level < LEVELS && next < LEVELS && |qs| == LEVELS && qs[level] != [] && k == qs[level][0] && k < |ps|
      requires pid == ps[k].pid
      requires next == NextLevel(level) && AllKept(slots, front, rear, ps, qs[level := qs[level][1..]])
      modifies this`slots, this`front, this`rear, this`overflow
      ensures |rear| == LEVELS == |old(rear)|
      ensures AllKept(slots, front, rear, ps, Moved(qs, level, if ok then At(next) else Lost))
      ensures ok <==> old(rear)[next] < MAX - 1
      ensures overflow == (old(overflow) || !ok)
      ensures rear == if ok then Pushed(old(rear), next) else old(rear)
    {
      hide QueueIs;
      ghost var popped := qs[level := qs[level][1..]];
      ghost var c := Pids(ps, popped[next]);
      ok := Enqueue(next, pid, c);
      if ok {
        KeptEnqueued(old(slots), old(front), old(rear), slots, front, rear, ps, popped, next, k);
      } else {
        KeptSame(old(slots), old(front), old(rear), slots, front, rear, ps, popped, next);
      }
    }

    /** One turn of the inner loop of mlfq, at the first level that is not empty. */
    method Dispatch(level: nat)
      requires Valid() && level < LEVELS && |qs| == LEVELS && qs[level] != []
      requires forall m: nat :: m < level ==> qs[m] == []
      modifies this
      ensures Valid() && SameJobs(old(ps), ps) && |qs| == LEVELS
      ensures Less(ps, qs, level, old(ps), old(qs)) && base == old(base)
      ensures forall m: nat :: m < level ==> qs[m] == []
    {
      hide ProcessesOk, TraceOk, Counted, AllHold, AllKept, ProcessOk, SumRemain, Room, InOrder;
      ghost var i;
      var pid;
      ghost var ps0, qs0, rear0, loc0, disp0, now0, over0, trace0 := ps, qs, rear, loc, disp, now, overflow, trace;
      RearFits(slots, front, rear, ps, qs);
      pid, i := Take(level);
      IsDue(ps, stage, qs, rear0, loc, disp, now, level, i);
      var found, k := FindProcess(pid);
      SamePid(ps, i, k);
      if ps[k].remain <= Quantum(level) {
        SumRemainUpdate(ps, k, Finished(ps[k], Start(ps[k], now)));
        Finish(level, k);
        OrderStep(ps0, loc0, disp0, qs0, trace0, now0, base, level, k, ps[k], Done, now);
        stage := RoomEnds(ps0, ps, stage, qs0, rear0, loc0, disp0, now0, over0, level, k);
      } else {
        SumRemainUpdate(ps, k, Ran(ps[k], level));
        var ok := Demote(level, k, pid);
        OrderStep(ps0, loc0, disp0, qs0, trace0, now0, base, level, k, ps[k],
                  if ok then At(NextLevel(level)) else Lost, now);
        stage := RoomGoesOn(ps0, ps, stage, qs0, rear0, loc0, disp0, now0, over0, level, k);
      }
    }

    constructor (procs: seq<Process>)
      ensures ps == procs && now == 0 && !overflow && trace == []
    {
      ps, now, overflow := procs, 0, false;
      slots, front, rear := [], [], [];
      qs, stage, trace, loc, disp, base := [], First(0), [], [], [], 0;
    }

    /** mlfq up to its main loop: empty queues, then every process into level 0, in list order. */
    method Fill() returns (ghost n: nat)
      modifies this`slots, this`front, this`rear, this`overflow
      ensures n == Fitting(|ps|) && overflow == (old(overflow) || |ps| > MAX)
      ensures AllKept(slots, front, rear, ps, [Upto(n), [], []]) && rear == [n - 1, -1, -1]
    {
      slots := seq(LEVELS, _ => seq(MAX, _ => 0));
      front, rear := seq(LEVELS, _ => -1), seq(LEVELS, _ => -1);
      EmptyQueues(slots, front, rear, ps);
      assert rear == [-1, -1, -1];
      hide AllKept;
      n := 0;
      var k := 0;
      while k < |ps|
        invariant k <= |ps| && n == Fitting(k) && overflow == (old(overflow) || k > MAX)
        invariant rear == [n - 1, -1, -1] && AllKept(slots, front, rear, ps, [Upto(n), [], []])
      {
        n := FillOne(k, n);
        k := k + 1;
      }
    }

    /** One turn of that loop. */
    method FillOne(k: nat, ghost n0: nat) returns (ghost n: nat)
      requires k < |ps| && n0 == Fitting(k) && rear == [n0 - 1, -1, -1]
      requires AllKept(slots, front, rear, ps, [Upto(n0), [], []])
      modifies this`slots, this`front, this`rear, this`overflow
      ensures n == Fitting(k + 1) && overflow == (old(overflow) || k + 1 > MAX)
      ensures rear == [n - 1, -1, -1] && AllKept(slots, front, rear, ps, [Upto(n), [], []])
    {
      ghost var q, slots0, front0, rear0 := [Upto(n0), [], []], slots, front, rear;
      assert q[0] == Upto(n0) && QueueIs(slots[0], front[0], rear[0], Pids(ps, q[0]));
      hide QueueIs;
      var ok := Enqueue(0, ps[k].pid, Pids(ps, Upto(n0)));
      n := n0;
      if ok {
        KeptEnqueued(slots0, front0, rear0, slots, front, rear, ps, q, 0, k);
        assert Upto(k) + [k] == Upto(k + 1);
        n := k + 1;
      } else {
        KeptSame(slots0, front0, rear0, slots, front, rear, ps, q, 0);
      }
    }

    /** mlfq() on a list of processes that have not run yet. */
    method Mlfq()
      requires DistinctPids(ps) && (forall i: nat :: i < |ps| ==> ps[i].remain == ps[i].bt) && !overflow
      modifies this
      ensures SameJobs(old(ps), ps) && |loc| == |disp| == |ps|
      ensures TraceOk(trace, ps, now) && Counted(trace, disp)
      ensures Scheduled(trace, ps, old(now)) && Completed(ps, loc, trace)
      ensures forall i: nat :: i < |ps| ==> !loc[i].At? && ProcessOk(ps[i], loc[i], disp[i], now)
      ensures overflow <==> TooMuch(old(ps))
      ensures overflow <==> exists i: nat :: i < |ps| && loc[i] == Lost
    {
      hide ProcessesOk, TraceOk, Counted, AllHold, AllKept, ProcessOk, SumRemain, DistinctPids, SameJobs, Less, Room;
      hide TooMuch, Scheduled, Completed, Round;
      ghost var ps0 := ps;
      Begin();
      var done := false;
      while !done
        invariant Valid() && SameJobs(ps0, ps) && |qs| == LEVELS && base == old(now)
        invariant done ==> qs[0] == [] && qs[1] == [] && qs[2] == []
        decreases |qs[0]| + |qs[1]| + |qs[2]|, !done
      {
        var d0 := Drain(0, ps0);
        var d1 := Drain(1, ps0);
        var d2 := Drain(2, ps0);
        done := !d0 && !d1 && !d2;
        if !done {
          LaterAll(ps, loc, disp, trace, now, now + 1);
          OrderLater(ps, loc, disp, qs, trace, now, base, now + 1);
          now := now + 1;
        }
      }
      Ending(ps0, ps, loc, disp, now, qs, rear, stage, overflow);
    }

    /** Fill, and the bookkeeping that goes with it. */
    method Begin()
      requires DistinctPids(ps) && (forall i: nat :: i < |ps| ==> ps[i].remain == ps[i].bt) && !overflow
      modifies this
      ensures Valid() && ps == old(ps) && |qs| == LEVELS && SameJobs(old(ps), ps) && base == old(now)
    {
      hide ProcessesOk, TraceOk, Counted, AllHold, AllKept, Room, DistinctPids, InOrder, Upto, StartLoc;
      ghost var n := Fill();
      StartOk(ps, n, rear, overflow, now);
      StartsInOrder(ps, n, now);
      qs, stage, trace, base := [Upto(n), [], []], First(0), [], now;
      loc, disp := StartLoc(|ps|, n), seq(|ps|, _ => 0);
    }

    /** The inner loop of mlfq at one level; true if it dispatched anything. */
    method Drain(level: nat, ghost ps0: seq<Process>) returns (ran: bool)
      requires Valid() && SameJobs(ps0, ps) && level < LEVELS && |qs| == LEVELS
      requires forall m: nat :: m < level ==> qs[m] == []
      modifies this
      ensures Valid() && SameJobs(ps0, ps) && |qs| == LEVELS && base == old(base)
      ensures forall m: nat :: m <= level ==> qs[m] == []
      ensures !ran ==> qs == old(qs)
      ensures ran ==> old(qs)[level] != []
    {
      hide ProcessesOk, TraceOk, Counted, AllHold, AllKept, ProcessOk, SumRemain, Room, DistinctPids, SameJobs, InOrder;
      ran := false;
      FrontTest(slots, front, rear, ps, qs, level);
      while front[level] != -1
        invariant Valid() && SameJobs(ps0, ps) && |qs| == LEVELS && |front| == LEVELS && base == old(base)
        invariant front[level] == -1 <==> qs[level] == []
        invariant forall m: nat :: m < level ==> qs[m] == []
        invariant if ran then old(qs)[level] != [] else qs == old(qs)
        decreases SumRemain(ps), |qs[level]|
      {
        ghost var ps1 := ps;
        Dispatch(level);
        SameJobsTrans(ps0, ps1, ps);
        ran := true;
        FrontTest(slots, front, rear, ps, qs, level);
      }
    }
  }

  /** Everything a dispatch starts from. */
  lemma IsDue(ps: seq<Process>, stage: Stage, qs: seq<seq<nat>>, rear0: seq<int>,
              loc: seq<Loc>, disp: seq<nat>, now: int, level: nat, i: nat)
    requires ProcessesOk(ps, loc, disp, now) && AllHold(qs, loc) && level < LEVELS && qs[level] != []
    requires i == qs[level][0] && i < |ps|
    requires |rear0| == LEVELS && rear0[2] < MAX && forall m: nat :: m < level ==> qs[m] == []
    ensures Due(ps, stage, qs, rear0, loc, disp, now, level, i)
  {
    HeadOk(ps, loc, disp, now, qs, level, i);
    assert Holds(qs[2], loc, 2);
    hide ProcessesOk, Holds;
  }

  lemma PopSlots(slots: seq<int>, front: int, rear: int, c: seq<int>)
    requires QueueIs(slots, front, rear, c) && front != -1
    ensures c != [] && 0 <= front <= rear < |slots| && slots[front] == c[0]
    ensures if front == rear then QueueIs(slots, -1, -1, c[1..]) else QueueIs(slots, front + 1, rear, c[1..])
  {
    assert slots[front..rear + 1][1..] == slots[front + 1..rear + 1];
  }

  lemma RearFits(slots: seq<seq<int>>, front: seq<int>, rear: seq<int>, ps: seq<Process>, qs: seq<seq<nat>>)
    requires AllKept(slots, front, rear, ps, qs)
    ensures |rear| == LEVELS && rear[2] < MAX
  {
    assert QueueIs(slots[2], front[2], rear[2], Pids(ps, qs[2]));
  }

  lemma FrontTest(slots: seq<seq<int>>, front: seq<int>, rear: seq<int>, ps: seq<Process>, qs: seq<seq<nat>>,
                  level: nat)
    requires AllKept(slots, front, rear, ps, qs) && level < LEVELS
    ensures |front| == LEVELS == |qs| && (front[level] == -1 <==> qs[level] == [])
  {
  }

  function StartLoc(len: nat, n: nat): seq<Loc> {
    seq(len, i => if i < n then At(0) else Lost)
  }

  lemma StartOk(ps: seq<Process>, n: nat, rear: seq<int>, overflow: bool, now: int)
    requires forall i: nat :: i < |ps| ==> ps[i].remain == ps[i].bt
    requires n == Fitting(|ps|) && overflow == (|ps| > MAX) && rear == [n - 1, -1, -1]
    ensures var loc, disp, qs := StartLoc(|ps|, n), seq(|ps|, _ => 0), [Upto(n), [], []];
            && ProcessesOk(ps, loc, disp, now) && TraceOk([], ps, now) && Counted([], disp) && AllHold(qs, loc)
            && Room(ps, First(0), qs, rear, loc, disp, overflow)
  {
    var loc, disp := StartLoc(|ps|, n), seq(|ps|, _ => 0);
    LostAtStart(ps, n, rear, disp, overflow);
    forall i: nat | i < |loc|
      ensures i in Upto(n) <==> loc[i] == At(0)
    {
      assert i < n ==> Upto(n)[i] == i;
    }
    assert Holds(Upto(n), loc, 0);
  }

  lemma StartsInOrder(ps: seq<Process>, n: nat, now: int)
    requires n == Fitting(|ps|)
    ensures InOrder(ps, StartLoc(|ps|, n), seq(|ps|, _ => 0), [Upto(n), [], []], [], now, now)
  {
    OrderStarts(ps, StartLoc(|ps|, n), seq(|ps|, _ => 0), [Upto(n), [], []], n, now);
  }

  lemma LostAtStart(ps: seq<Process>, n: nat, rear: seq<int>, disp: seq<nat>, overflow: bool)
    requires n == Fitting(|ps|) && overflow == (|ps| > MAX) && rear == [n - 1, -1, -1] && |disp| == |ps|
    ensures Room(ps, First(0), [Upto(n), [], []], rear, StartLoc(|ps|, n), disp, overflow)
  {
    var loc := StartLoc(|ps|, n);
    if overflow {
      assert loc[MAX] == Lost;
    } else {
      RoomStarts(ps, [Upto(n), [], []], rear, disp);
    }
    hide Stands, Peak;
  }

  lemma Ending(ps0: seq<Process>, ps: seq<Process>, loc: seq<Loc>, disp: seq<nat>, now: int, qs: seq<seq<nat>>,
               rear: seq<int>, stage: Stage,
               overflow: bool)
    requires ProcessesOk(ps, loc, disp, now) && AllHold(qs, loc) && qs[0] == [] && qs[1] == [] && qs[2] == []
    requires Room(ps, stage, qs, rear, loc, disp, overflow) && SameJobs(ps0, ps)
    ensures |loc| == |disp| == |ps|
    ensures forall i: nat :: i < |ps| ==> !loc[i].At? && ProcessOk(ps[i], loc[i], disp[i], now)
    ensures overflow <==> TooMuch(ps0)
    ensures overflow <==> exists i: nat :: i < |ps| && loc[i] == Lost
  {
    hide ProcessOk, Stands, Holds, Peak;
    SameLoad(ps0, ps);
    if !overflow {
      EmptyFits(stage, Bursts(ps), AllTurns(ps), qs, rear, disp);
    }
    forall i: nat | i < |ps|
      ensures !loc[i].At? && ProcessOk(ps[i], loc[i], disp[i], now)
    {
      NobodyWaits(ps, loc, disp, now, qs, i);
    }
  }

  /** How many of k processes level 0 takes. */
  function Fitting(k: nat): nat {
    if k <= MAX then k else MAX
  }

  /** The first n processes in order. */
  function Upto(n: nat): seq<nat> {
    seq(n, i => i)
  }

  lemma EmptyQueues(slots: seq<seq<int>>, front: seq<int>, rear: seq<int>, ps: seq<Process>)
    requires slots == seq(LEVELS, _ => seq(MAX, _ => 0)) && front == seq(LEVELS, _ => -1)
    requires rear == seq(LEVELS, _ => -1)
    ensures AllKept(slots, front, rear, ps, [Upto(0), [], []])
  {
  }

  /** Less work is left, or as much with a shorter queue. */
  ghost predicate Less(ps: seq<Process>, qs: seq<seq<nat>>, level: nat, ps0: seq<Process>, qs0: seq<seq<nat>>)
    requires |qs| == |qs0| == LEVELS && level < LEVELS
  {
    SumRemain(ps) < SumRemain(ps0) || (SumRemain(ps) == SumRemain(ps0) && |qs[level]| < |qs0[level]|)
  }

  lemma SamePid(ps: seq<Process>, i: nat, k: nat)
    requires DistinctPids(ps) && i < |ps| && k < |ps|
    ensures ps[i].pid == ps[k].pid ==> i == k
  {
  }

  /** What the head of a queue is known to be. */
  lemma HeadOk(ps: seq<Process>, loc: seq<Loc>, disp: seq<nat>, now: int, qs: seq<seq<nat>>, level: nat, k: nat)
    requires ProcessesOk(ps, loc, disp, now) && AllHold(qs, loc) && level < LEVELS && qs[level] != []
    requires k == qs[level][0]
    ensures |qs| == LEVELS && |loc| == |ps| == |disp| && k < |ps| && loc[k] == At(level)
    ensures ProcessOk(ps[k], At(level), disp[k], now)
  {
    IsAt(qs[level], loc, level);
    hide ProcessOk, Holds;
  }

  lemma HeadIn(qs: seq<seq<nat>>, ps: seq<Process>, level: nat)
    requires |qs| == LEVELS && level < LEVELS && qs[level] != [] && InRange(qs[level], |ps|)
    ensures qs[level][0] < |ps| && Pids(ps, qs[level]) != [] && Pids(ps, qs[level])[0] == ps[qs[level][0]].pid
  {
  }

  lemma PidsTail(ps: seq<Process>, q: seq<nat>)
    requires InRange(q, |ps|) && q != []
    ensures InRange(q[1..], |ps|) && Pids(ps, q)[1..] == Pids(ps, q[1..])
  {
  }

  // ---------------------------------------------------------------- two loads

  function Fresh(pid: int, bt: nat): Process {
    Process(pid, 0, bt, -1, -1, -1, -1, bt)
  }

  /** A process by itself fits, however long its burst. */
  lemma OneFits(p: Process)
    ensures !TooMuch([p])
  {
    var es := AllTurns([p]);
    assert Survivor(es, 1) == 0 && LastRound(es, 0, 1) == 1;
    assert es[0 := 1] == [1];
    assert Sum([1]) == Sum([]) + 1 == 1;
  }

  /** Two bursts of 414 ticks need 51 turns each at the last level, together more than MAX. */
  lemma TwoLongAreTooMuch()
    ensures TooMuch([Fresh(1, 414), Fresh(2, 414)])
  {
    var es := AllTurns([Fresh(1, 414), Fresh(2, 414)]);
    assert es == [51, 51];
    assert Survivor(es, 1) == 0 && Survivor(es, 2) == 1;
    assert LastRound(es, 1, 1) == 51 && LastRound(es, 1, 2) == 51;
    assert es[1 := 51] == [51, 51];
    assert [51, 51][..1] == [51] && [51][..0] == [];
    assert Sum([51]) == 51 && Sum([51, 51]) == 102;
  }

  /** Running mlfq on them leaves a process that never finishes. */
  method TwoLongBursts() returns (unfinished: nat, left: nat)
    ensures unfinished < 2 && left > 0
  {
    var s := new Scheduler([Fresh(1, 414), Fresh(2, 414)]);
    TwoLongAreTooMuch();
    s.Mlfq();
    hide TooMuch;
    ghost var i: nat :| i < |s.ps| && s.loc[i] == Lost;
    assert s.ps[i].remain > 0;
    unfinished := if s.ps[0].remain > 0 then 0 else 1;
    left := s.ps[unfinished].remain;
  }
}
