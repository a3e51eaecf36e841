/** The multi-level feedback queue simulator of sched_algo_mlfq_existing.c. */
module Mlfq {

  const MAX: nat := 100
  const LEVELS: nat := 3

  function Quantum(level: nat): nat
    requires level < LEVELS
  {
    if level == 0 then 2 else if level == 1 then 4 else 8
  }

  datatype Process = Process(pid: int, at: int, bt: nat, ct: int, tat: int, wt: int, rt: int, remain: nat)

  /** Where a process is: in a queue, finished, or dropped by a full queue. */
  datatype Loc = At(level: nat) | Done | Lost

  /** A stretch of processor time: turn number turn, from 0, of process i. */
  datatype Slice = Slice(i: nat, turn: nat, from: int, upto: int)

  /** How often a burst is dispatched. */
  function Dispatches(bt: nat): nat {
    if bt <= 2 then 1 else if bt <= 6 then 2 else 2 + (bt - 6 + 7) / 8
  }

  // ---------------------------------------------------------------- queues

  /** slots, front and rear hold the queue c. */
  ghost predicate QueueIs(slots: seq<int>, front: int, rear: int, c: seq<int>) {
    && |slots| == MAX
    && (c == [] ==> front == -1 && rear == -1)
    && (c != [] ==> 0 <= front <= rear < MAX && slots[front..rear + 1] == c)
  }

  function Pids(ps: seq<Process>, q: seq<nat>): seq<int>
    requires forall t :: 0 <= t < |q| ==> q[t] < |ps|
  {
    seq(|q|, t requires 0 <= t < |q| => ps[q[t]].pid)
  }

  ghost predicate InRange(q: seq<nat>, n: nat) {
    forall t :: 0 <= t < |q| ==> q[t] < n
  }

  ghost predicate NoRepeats(q: seq<nat>) {
    forall i, j :: 0 <= i < j < |q| ==> q[i] != q[j]
  }

  /** Queue q holds exactly the processes at this level, each once. */
  ghost predicate Holds(q: seq<nat>, loc: seq<Loc>, level: nat) {
    InRange(q, |loc|) && NoRepeats(q) && forall i: nat :: i < |loc| ==> (i in q <==> loc[i] == At(level))
  }

  ghost predicate DistinctPids(ps: seq<Process>) {
    forall i, j :: 0 <= i < j < |ps| ==> ps[i].pid != ps[j].pid
  }

  // ---------------------------------------------------------------- processes

  /** Remaining time, number of dispatches and figures of a process agree with where it is. */
  predicate ProcessOk(p: Process, loc: Loc, disp: nat, now: int) {
    && p.remain <= p.bt
    && (disp > 0 ==> now >= p.at + (p.bt - p.remain))
    && match loc
       case At(level) => level < LEVELS &&
         if level == 0 then disp == 0 && p.remain == p.bt
         else if level == 1 then disp == 1 && p.remain == p.bt - 2 && p.remain > 0
         else disp >= 2 && p.remain == p.bt - 6 - 8 * (disp - 2) && p.remain > 0
       case Done =>
         && p.remain == 0 && disp == Dispatches(p.bt) && p.ct >= p.at + p.bt
         && p.tat == p.ct - p.at && p.wt == p.tat - p.bt && p.rt == p.wt
       case Lost => if disp == 0 then p.remain == p.bt else p.remain > 0
  }

  ghost predicate ProcessesOk(ps: seq<Process>, loc: seq<Loc>, disp: seq<nat>, now: int) {
    && |loc| == |ps| == |disp|
    && (forall i: nat :: i < |ps| ==> ProcessOk(ps[i], loc[i], disp[i], now))
  }

  /** Only the figures of a run differ from what was given. */
  ghost predicate SameJobs(ps0: seq<Process>, ps: seq<Process>) {
    && |ps| == |ps0|
    && (forall i: nat :: i < |ps| ==> ps[i].pid == ps0[i].pid && ps[i].at == ps0[i].at && ps[i].bt == ps0[i].bt)
  }

  function Served(trace: seq<Slice>, i: nat): int {
    if trace == [] then 0
    else Served(trace[..|trace| - 1],
                i) + if trace[|trace| - 1].i == i then trace[|trace| - 1].upto - trace[|trace| - 1].from else 0
  }

  /** Slices follow each other without overlap, none before its process arrived, and add up to the time served. */
  ghost predicate TraceOk(trace: seq<Slice>, ps: seq<Process>, now: int) {
    && (forall t: nat :: t < |trace| ==>
          trace[t].i < |ps| && ps[trace[t].i].at <= trace[t].from <= trace[t].upto <= now)
    && (forall t: nat, u: nat :: t < u < |trace| ==> trace[t].upto <= trace[u].from)
    && (forall i: nat :: i < |ps| ==> Served(trace, i) == ps[i].bt - ps[i].remain)
  }

  /** How many slices process i has had. */
  function Times(trace: seq<Slice>, i: nat): nat {
    if trace == [] then 0 else Times(trace[..|trace| - 1], i) + if trace[|trace| - 1].i == i then 1 else 0
  }

  ghost predicate Counted(trace: seq<Slice>, disp: seq<nat>) {
    forall i: nat :: i < |disp| ==> Times(trace, i) == disp[i]
  }

  lemma CountedMore(trace: seq<Slice>, disp: seq<nat>, x: Slice)
    requires Counted(trace, disp) && x.i < |disp|
    ensures Counted(trace + [x], disp[x.i := disp[x.i] + 1])
  {
    assert (trace + [x])[..|trace|] == trace;
  }

  function SumRemain(ps: seq<Process>): nat {
    if ps == [] then 0 else SumRemain(ps[..|ps| - 1]) + ps[|ps| - 1].remain
  }

  lemma {:induction false} SumRemainUpdate(ps: seq<Process>, i: nat, p: Process)
    requires i < |ps|
    ensures SumRemain(ps[i := p]) == SumRemain(ps) - ps[i].remain + p.remain
  {
    var n := |ps| - 1;
    if i == n {
      assert ps[i := p][..n] == ps[..n];
    } else {
      assert ps[i := p][..n] == ps[..n][i := p];
      SumRemainUpdate(ps[..n], i, p);
    }
  }

  // ---------------------------------------------------------------- one dispatch

  lemma HoldsDropped(q: seq<nat>, loc: seq<Loc>, level: nat, x: Loc)
    requires Holds(q, loc, level) && q != [] && x != At(level)
    ensures q[0] < |loc| && Holds(q[1..], loc[q[0] := x], level)
  {
    var i := q[0];
    forall j: nat | j < |loc|
      ensures j in q[1..] <==> loc[i := x][j] == At(level)
    {
    }
  }

  lemma HoldsOther(q: seq<nat>, loc: seq<Loc>, level: nat, i: nat, x: Loc)
    requires Holds(q, loc, level) && i < |loc| && loc[i] != At(level) && x != At(level)
    ensures Holds(q, loc[i := x], level)
  {
  }

  lemma HoldsAdded(q: seq<nat>, loc: seq<Loc>, level: nat, i: nat)
    requires Holds(q, loc, level) && i < |loc| && loc[i] != At(level)
    ensures Holds(q + [i], loc[i := At(level)], level)
  {
    var q' := q + [i];
    forall j: nat | j < |loc|
      ensures j in q' <==> loc[i := At(level)][j] == At(level)
    {
    }
  }

  lemma PidsSame(ps0: seq<Process>, ps: seq<Process>, q: seq<nat>)
    requires SameJobs(ps0, ps) && InRange(q, |ps|)
    ensures Pids(ps, q) == Pids(ps0, q)
  {
  }

  /** The process after running for run ticks up to time now. */
  function Finished(p: Process, now: int): Process {
    var ct := now + p.remain;
    p.(remain := 0, ct := ct, tat := ct - p.at, wt := ct - p.at - p.bt, rt := ct - p.at - p.bt)
  }

  function Start(p: Process, now: int): int {
    if p.at > now then p.at else now
  }

  lemma FinishedOk(p: Process, level: nat, disp: nat, now: int)
    requires ProcessOk(p, At(level), disp, now) && level < LEVELS && p.remain <= Quantum(level)
    ensures ProcessOk(Finished(p, Start(p, now)), Done, disp + 1, Start(p, now) + p.remain)
  {
  }

  function Ran(p: Process, level: nat): Process
    requires level < LEVELS && p.remain > Quantum(level)
  {
    p.(remain := p.remain - Quantum(level))
  }

  function NextLevel(level: nat): nat
    requires level < LEVELS
  {
    if level < LEVELS - 1 then level + 1 else level
  }

  lemma RanOk(p: Process, level: nat, disp: nat, now: int)
    requires ProcessOk(p, At(level), disp, now) && level < LEVELS && p.remain > Quantum(level)
    ensures ProcessOk(Ran(p, level), At(NextLevel(level)), disp + 1, Start(p, now) + Quantum(level))
    ensures ProcessOk(Ran(p, level), Lost, disp + 1, Start(p, now) + Quantum(level))
  {
  }

  lemma LaterOk(p: Process, loc: Loc, disp: nat, now: int, later: int)
    requires ProcessOk(p, loc, disp, now) && now <= later
    ensures ProcessOk(p, loc, disp, later)
  {
  }

  /** Process i becomes p, at x, at time later. */
  lemma UpdateOk(ps: seq<Process>, loc: seq<Loc>, disp: seq<nat>, now: int, i: nat, p: Process, x: Loc, later: int)
    requires ProcessesOk(ps, loc, disp, now) && i < |ps| && now <= later && ProcessOk(p, x, disp[i] + 1, later)
    ensures ProcessesOk(ps[i := p], loc[i := x], disp[i := disp[i] + 1], later)
  {
    forall j: nat | j < |ps| && j != i
      ensures ProcessOk(ps[j], loc[j], disp[j], later)
    {
      LaterOk(ps[j], loc[j], disp[j], now, later);
    }
    hide ProcessOk;
  }

  lemma ServedSnoc(trace: seq<Slice>, x: Slice, i: nat)
    ensures Served(trace + [x], i) == Served(trace, i) + if x.i == i then x.upto - x.from else 0
  {
    assert (trace + [x])[..|trace|] == trace;
  }

  lemma TraceGrows(trace: seq<Slice>, ps: seq<Process>, now: int, i: nat, p: Process, turn: nat, from: int, upto: int)
    requires TraceOk(trace, ps, now) && i < |ps| && p.at == ps[i].at && p.bt == ps[i].bt
    requires p.remain == ps[i].remain - (upto - from)
    requires now <= from && ps[i].at <= from <= upto
    ensures TraceOk(trace + [Slice(i, turn, from, upto)], ps[i := p], upto)
  {
    var trace', ps' := trace + [Slice(i, turn, from, upto)], ps[i := p];
    forall j: nat | j < |ps'|
      ensures Served(trace', j) == ps'[j].bt - ps'[j].remain
    {
      ServedSnoc(trace, Slice(i, turn, from, upto), j);
    }
    hide Served;
  }

  /** Which queues changed: level keeps all but its first process i, which moved to x. */
  function Moved(qs: seq<seq<nat>>, level: nat, x: Loc): seq<seq<nat>>
    requires |qs| == LEVELS && level < LEVELS && qs[level] != []
  {
    var popped := qs[level := qs[level][1..]];
    if x.At? && x.level < LEVELS then popped[x.level := popped[x.level] + [qs[level][0]]] else popped
  }

  ghost predicate AllHold(qs: seq<seq<nat>>, loc: seq<Loc>) {
    |qs| == LEVELS && forall l: nat :: l < LEVELS ==> Holds(qs[l], loc, l)
  }

  lemma MovedHold(qs: seq<seq<nat>>, loc: seq<Loc>, level: nat, x: Loc)
    requires AllHold(qs, loc) && level < LEVELS && qs[level] != [] && (x.At? ==> x.level < LEVELS)
    ensures qs[level][0] < |loc| && AllHold(Moved(qs, level, x), loc[qs[level][0] := x])
  {
    var i := qs[level][0];
    hide Holds;
    IsAt(qs[level], loc, level);
    var qs', loc' := Moved(qs, level, x), loc[i := x];
    forall l: nat | l < LEVELS
      ensures Holds(qs'[l], loc', l)
    {
      if l == level {
        HoldsDropped(qs[l], loc, l, Done);
        assert loc[i := Done][i := x] == loc';
        if x == At(l) {
          HoldsAdded(qs[l][1..], loc[i := Done], l, i);
        } else {
          HoldsOther(qs[l][1..], loc[i := Done], l, i, x);
        }
      } else if x == At(l) {
        HoldsAdded(qs[l], loc, l, i);
      } else {
        HoldsOther(qs[l], loc, l, i, x);
      }
    }
  }

  lemma IsAt(q: seq<nat>, loc: seq<Loc>, level: nat)
    requires Holds(q, loc, level) && q != []
    ensures q[0] < |loc| && loc[q[0]] == At(level)
  {
    assert q[0] in q;
  }

  ghost predicate AllKept(slots: seq<seq<int>>, front: seq<int>, rear: seq<int>, ps: seq<Process>, qs: seq<seq<nat>>) {
    && |slots| == |front| == |rear| == |qs| == LEVELS
    && (forall l: nat :: l < LEVELS ==> InRange(qs[l], |ps|) && QueueIs(slots[l], front[l], rear[l], Pids(ps, qs[l])))
  }

  lemma KeptAfter(slots: seq<seq<int>>, front: seq<int>, rear: seq<int>, ps: seq<Process>, ps': seq<Process>,
                  qs: seq<seq<nat>>)
    requires AllKept(slots, front, rear, ps, qs) && SameJobs(ps, ps')
    ensures AllKept(slots, front, rear, ps', qs)
  {
    hide QueueIs;
    forall l: nat | l < LEVELS
      ensures InRange(qs[l], |ps'|) && QueueIs(slots[l], front[l], rear[l], Pids(ps', qs[l]))
    {
      PidsSame(ps, ps', qs[l]);
    }
  }

  lemma DistinctAfter(ps: seq<Process>, ps': seq<Process>)
    requires DistinctPids(ps) && SameJobs(ps, ps')
    ensures DistinctPids(ps')
  {
  }

  /** The queues after process i was put at the end of queue m. */
  lemma KeptEnqueued(slots: seq<seq<int>>, front: seq<int>, rear: seq<int>, slots': seq<seq<int>>, front': seq<int>,
                     rear': seq<int>,
                     ps: seq<Process>, qs: seq<seq<nat>>, m: nat, i: nat)
    requires AllKept(slots, front, rear, ps, qs) && |slots'| == |front'| == |rear'| == LEVELS && m < LEVELS && i < |ps|
    requires forall l: nat :: l < LEVELS && l != m ==>
               slots'[l] == slots[l] && front'[l] == front[l] && rear'[l] == rear[l]
    requires QueueIs(slots'[m], front'[m], rear'[m], Pids(ps, qs[m]) + [ps[i].pid])
    ensures AllKept(slots', front', rear', ps, qs[m := qs[m] + [i]])
  {
    hide QueueIs;
    assert Pids(ps, qs[m] + [i]) == Pids(ps, qs[m]) + [ps[i].pid];
  }

  lemma KeptSame(slots: seq<seq<int>>, front: seq<int>, rear: seq<int>, slots': seq<seq<int>>, front': seq<int>,
                 rear': seq<int>,
                 ps: seq<Process>, qs: seq<seq<nat>>, m: nat)
    requires AllKept(slots, front, rear, ps, qs) && |slots'| == |front'| == |rear'| == LEVELS && m < LEVELS
    requires forall l: nat :: l < LEVELS && l != m ==>
               slots'[l] == slots[l] && front'[l] == front[l] && rear'[l] == rear[l]
    requires QueueIs(slots'[m], front'[m], rear'[m], Pids(ps, qs[m]))
    ensures AllKept(slots', front', rear', ps, qs)
  {
    hide QueueIs;
  }

  lemma LaterAll(ps: seq<Process>, loc: seq<Loc>, disp: seq<nat>, trace: seq<Slice>, now: int, later: int)
    requires ProcessesOk(ps, loc, disp, now) && TraceOk(trace, ps, now) && now <= later
    ensures ProcessesOk(ps, loc, disp, later) && TraceOk(trace, ps, later)
  {
    forall i: nat | i < |ps|
      ensures ProcessOk(ps[i], loc[i], disp[i], later)
    {
      LaterOk(ps[i], loc[i], disp[i], now, later);
    }
    hide ProcessOk;
  }

  lemma SameJobsTrans(a: seq<Process>, b: seq<Process>, c: seq<Process>)
    requires SameJobs(a, b) && SameJobs(b, c)
    ensures SameJobs(a, c)
  {
  }

  /** When no queue holds anyone, every process is finished or was dropped. */
  lemma NobodyWaits(ps: seq<Process>, loc: seq<Loc>, disp: seq<nat>, now: int, qs: seq<seq<nat>>, i: nat)
    requires ProcessesOk(ps, loc, disp, now) && AllHold(qs, loc) && qs[0] == [] && qs[1] == [] && qs[2] == []
    requires i < |ps|
    ensures !loc[i].At? && ProcessOk(ps[i], loc[i], disp[i], now)
  {
    assert ProcessOk(ps[i], loc[i], disp[i], now);
    assert Holds(qs[0], loc, 0) && Holds(qs[1], loc, 1) && Holds(qs[2], loc, 2);
  }
}
