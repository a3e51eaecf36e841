/** The lottery scheduler simulator of sched_algo_lottery_existing.c; rand() is an arbitrary sequence of numbers. */
module Lottery {

  datatype Process = Process(pid: int, tt: int, at: int, bt: int, ct: int, tat: int, wt: int, rt: int, remaining: int,
                             completed: bool)

  predicate Eligible(p: Process, now: int) {
    !p.completed && p.at <= now
  }

  function TicketsOf(p: Process, now: int): int {
    if Eligible(p, now) then p.tt else 0
  }

  /** Tickets of the eligible processes before position k. */
  function Below(ps: seq<Process>, now: int, k: nat): int
    requires k <= |ps|
  {
    if k == 0 then 0 else Below(ps, now, k - 1) + TicketsOf(ps[k - 1], now)
  }

  /** It holds a ticket and has something to do. */
  predicate Sensible(p: Process) {
    p.tt > 0 && p.bt > 0
  }

  ghost predicate AllSensible(ps: seq<Process>) {
    forall i :: 0 <= i < |ps| ==> Sensible(ps[i])
  }

  lemma {:induction false} BelowGrows(ps: seq<Process>, now: int, i: nat, k: nat)
    requires AllSensible(ps) && i <= k <= |ps|
    ensures 0 <= Below(ps, now, i) <= Below(ps, now, k)
    decreases k
  {
    if k > 0 {
      BelowGrows(ps, now, if i < k then i else k - 1, k - 1);
    }
  }

  // ---------------------------------------------------------------- the draw

  method CalculateTotalTickets(ps: seq<Process>, now: int) returns (total: int)
    ensures total == Below(ps, now, |ps|)
  {
    total := 0;
    var k := 0;
    while k < |ps|
      invariant k <= |ps| && total == Below(ps, now, k)
    {
      if !ps[k].completed && ps[k].at <= now {
        total := total + ps[k].tt;
      }
      k := k + 1;
    }
  }

  /** Process i holds ticket w. */
  predicate Wins(ps: seq<Process>, now: int, w: int, i: nat) {
    i < |ps| && Eligible(ps[i], now) && Below(ps, now, i) < w <= Below(ps, now, i) + ps[i].tt
  }

  ghost predicate Held(ps: seq<Process>, now: int, w: int) {
    exists i: nat :: Wins(ps, now, w, i)
  }

  /** lottery_draw: nobody when there are no tickets, else the holder of ticket draw % total + 1. */
  method LotteryDraw(ps: seq<Process>, total: int, now: int, draw: nat) returns (found: bool, k: nat)
    requires total == Below(ps, now, |ps|)
    ensures found ==> total != 0 && Wins(ps, now, draw % total + 1, k)
    ensures !found ==> total == 0 || !Held(ps, now, draw % total + 1)
    ensures AllSensible(ps) ==> (found <==> total != 0)
  {
    if AllSensible(ps) {
      BelowGrows(ps, now, 0, |ps|);
    }
    if total == 0 {
      return false, 0;
    }
    var winning := draw % total + 1;
    var count := 0;
    k := 0;
    while k < |ps|
      invariant k <= |ps| && count == Below(ps, now, k) < winning
      invariant forall j: nat :: j < k ==> !Wins(ps, now, winning, j)
    {
      if !ps[k].completed && ps[k].at <= now {
        count := count + ps[k].tt;
        if count >= winning {
          return true, k;
        }
      }
      k := k + 1;
    }
    return false, 0;
  }

  /** One ticket has at most one holder. */
  lemma OneWinner(ps: seq<Process>, now: int, w: int, i: nat, j: nat)
    requires AllSensible(ps) && Wins(ps, now, w, i) && Wins(ps, now, w, j)
    ensures i == j
  {
    if i < j {
      BelowGrows(ps, now, i + 1, j);
    }
    if j < i {
      BelowGrows(ps, now, j + 1, i);
    }
  }

  /** An eligible process wins on exactly as many of the ticket numbers as it has tickets. */
  lemma {:induction false} FairShare(ps: seq<Process>, now: int, i: nat)
    requires AllSensible(ps) && i < |ps| && Eligible(ps[i], now)
    ensures |set w: int | 1 <= w <= Below(ps, now, |ps|) && Wins(ps, now, w, i)| == ps[i].tt
  {
    var lo, total := Below(ps, now, i), Below(ps, now, |ps|);
    BelowGrows(ps, now, 0, i);
    BelowGrows(ps, now, i + 1, |ps|);
    var wins := set w: int | 1 <= w <= total && Wins(ps, now, w, i);
    var range := set w: int | lo < w <= lo + ps[i].tt && Wins(ps, now, w, i);
    assert wins == range;
    IntervalSize(ps, now, i, lo + ps[i].tt);
    assert range == Interval(ps, now, i, lo + ps[i].tt);
  }

  /** The winning tickets of i up to hi. */
  ghost function Interval(ps: seq<Process>, now: int, i: nat, hi: int): set<int>
    requires i < |ps|
  {
    set w: int | Below(ps, now, i) < w <= hi && Wins(ps, now, w, i)
  }

  lemma {:induction false} IntervalSize(ps: seq<Process>, now: int, i: nat, hi: int)
    requires i < |ps| && Eligible(ps[i], now) && Below(ps, now, i) <= hi <= Below(ps, now, i) + ps[i].tt
    ensures |Interval(ps, now, i, hi)| == hi - Below(ps, now, i)
    decreases hi - Below(ps, now, i)
  {
    if hi == Below(ps, now, i) {
      assert Interval(ps, now, i, hi) == {};
    } else {
      IntervalSize(ps, now, i, hi - 1);
      assert Interval(ps, now, i, hi) == Interval(ps, now, i, hi - 1) + {hi};
    }
  }

  // ---------------------------------------------------------------- the run

  /** What a run keeps of each process. */
  predicate ProcessOk(p: Process, now: int) {
    && Sensible(p) && 0 <= p.remaining <= p.bt && (p.completed <==> p.remaining == 0)
    && (if p.rt == -1 then p.remaining == p.bt
        else p.rt >= 0 && p.remaining < p.bt && now >= p.at + p.rt + (p.bt - p.remaining))
    && (p.completed ==> p.ct >= p.at + p.rt + p.bt && p.ct <= now)
  }

  ghost predicate AllOk(ps: seq<Process>, now: int) {
    forall i :: 0 <= i < |ps| ==> ProcessOk(ps[i], now)
  }

  ghost predicate SameJobs(ps0: seq<Process>, ps: seq<Process>) {
    && |ps| == |ps0|
    && (forall i :: 0 <= i < |ps| ==>
          ps[i].pid == ps0[i].pid && ps[i].tt == ps0[i].tt && ps[i].at == ps0[i].at && ps[i].bt == ps0[i].bt)
  }

  function SumLeft(ps: seq<Process>): int {
    if ps == [] then 0 else SumLeft(ps[..|ps| - 1]) + ps[|ps| - 1].remaining
  }

  function SumBursts(ps: seq<Process>): int {
    if ps == [] then 0 else SumBursts(ps[..|ps| - 1]) + ps[|ps| - 1].bt
  }

  function Active(ps: seq<Process>): nat {
    if ps == [] then 0 else Active(ps[..|ps| - 1]) + if ps[|ps| - 1].completed then 0 else 1
  }

  lemma {:induction false} Updated(ps: seq<Process>, i: nat, p: Process)
    requires i < |ps|
    ensures SumLeft(ps[i := p]) == SumLeft(ps) - ps[i].remaining + p.remaining
    ensures Active(ps[i := p]) == Active(ps) + (if ps[i].completed then 1 else 0) - (if p.completed then 1 else 0)
  {
    var n := |ps| - 1;
    if i == n {
      assert ps[i := p][..n] == ps[..n];
    } else {
      assert ps[i := p][..n] == ps[..n][i := p];
      Updated(ps[..n], i, p);
    }
  }

  lemma {:induction false} NoneActive(ps: seq<Process>)
    ensures Active(ps) == 0 <==> forall i :: 0 <= i < |ps| ==> ps[i].completed
  {
    if ps != [] {
      NoneActive(ps[..|ps| - 1]);
      assert forall i :: 0 <= i < |ps| - 1 ==> ps[..|ps| - 1][i] == ps[i];
    }
  }

  lemma {:induction false} LeftIsBetween(ps: seq<Process>, now: int)
    requires AllOk(ps, now)
    ensures 0 <= SumLeft(ps) <= SumBursts(ps)
  {
    if ps != [] {
      LeftIsBetween(ps[..|ps| - 1], now);
      assert ProcessOk(ps[|ps| - 1], now);
    }
  }

  lemma {:induction false} BurstsSame(ps0: seq<Process>, ps: seq<Process>)
    requires SameJobs(ps0, ps)
    ensures SumBursts(ps0) == SumBursts(ps)
  {
    if ps != [] {
      BurstsSame(ps0[..|ps| - 1], ps[..|ps| - 1]);
    }
  }

  /** With no tickets out, every process still to finish arrives later. */
  lemma {:induction false} NobodyEligible(ps: seq<Process>, now: int, i: nat)
    requires AllSensible(ps) && Below(ps, now, |ps|) == 0 && i < |ps|
    ensures !Eligible(ps[i], now)
  {
    BelowGrows(ps, now, 0, i);
    BelowGrows(ps, now, i + 1, |ps|);
  }

  /** max is the latest arrival, and no arrival is later. */
  ghost predicate Latest(ps: seq<Process>, max: int) {
    max >= 0 && forall i :: 0 <= i < |ps| ==> ps[i].at <= max
  }

  lemma LaterOk(ps: seq<Process>, now: int)
    requires AllOk(ps, now)
    ensures AllOk(ps, now + 1)
  {
    forall i | 0 <= i < |ps|
      ensures ProcessOk(ps[i], now + 1)
    {
      assert ProcessOk(ps[i], now);
    }
  }

  lemma OkIsSensible(ps: seq<Process>, now: int)
    requires AllOk(ps, now)
    ensures AllSensible(ps)
  {
    forall i | 0 <= i < |ps|
      ensures Sensible(ps[i])
    {
      assert ProcessOk(ps[i], now);
    }
  }

  /** As create_process leaves it. */
  predicate New(p: Process) {
    p.remaining == p.bt && p.rt == -1 && !p.completed
  }

  /** One tick for a process that may run. */
  function Ticked(p: Process, now: int): Process {
    var rt := if p.rt == -1 then now - p.at else p.rt;
    if p.remaining - 1 == 0 then p.(rt := rt, remaining := 0, completed := true, ct := now + 1)
    else p.(rt := rt, remaining := p.remaining - 1)
  }

  lemma TickedOk(p: Process, now: int)
    requires ProcessOk(p, now) && Eligible(p, now)
    ensures ProcessOk(Ticked(p, now), now + 1)
  {
  }

  /** One round of the main loop, with the drawn number d: the holder of the ticket runs, or nobody does. */
  ghost predicate Turned(ps0: seq<Process>, now: int, d: nat, ps: seq<Process>) {
    var total := Below(ps0, now, |ps0|);
    if total != 0 && Held(ps0, now, d % total + 1) then Served(ps0, now, d % total + 1, ps) else ps == ps0
  }

  /** A holder of ticket w has run for one tick. */
  ghost predicate Served(ps0: seq<Process>, now: int, w: int, ps: seq<Process>) {
    exists k: nat :: Wins(ps0, now, w, k) && ps == ps0[k := Ticked(ps0[k], now)]
  }

  /** Without a ticket it never runs, and with nothing to do it never gets to nothing left. */
  predicate Stuck(p: Process) {
    !p.completed && (p.tt <= 0 || p.remaining <= 0)
  }

  /** A stuck process stays stuck. */
  lemma TurnedStuck(ps0: seq<Process>, now: int, d: nat, ps: seq<Process>, i: nat)
    requires Turned(ps0, now, d, ps) && i < |ps0| && Stuck(ps0[i])
    ensures i < |ps| && Stuck(ps[i])
  {
    hide Below, Wins, Served;
    var total := Below(ps0, now, |ps0|);
    if total != 0 && Held(ps0, now, d % total + 1) {
      var w := d % total + 1;
      var k := ServedBy(ps0, now, w, ps);
    }
  }

  lemma ServedBy(ps0: seq<Process>, now: int, w: int, ps: seq<Process>) returns (k: nat)
    requires Served(ps0, now, w, ps)
    ensures k < |ps0| && ps0[k].tt > 0 && Wins(ps0, now, w, k) && Eligible(ps0[k], now)
    ensures ps == ps0[k := Ticked(ps0[k], now)]
  {
    k :| Wins(ps0, now, w, k) && ps == ps0[k := Ticked(ps0[k], now)];
  }

  /** With sensible processes a round serves one tick, or finds that nobody has arrived. */
  lemma TurnedOk(ps0: seq<Process>, now: int, d: nat, ps: seq<Process>)
    requires Turned(ps0, now, d, ps) && AllOk(ps0, now)
    ensures AllOk(ps, now + 1) && SameJobs(ps0, ps)
    ensures if Below(ps0, now, |ps0|) == 0 then SumLeft(ps) == SumLeft(ps0) else SumLeft(ps) == SumLeft(ps0) - 1
  {
    hide ProcessOk, Below, SumLeft, Wins, Served;
    var total := Below(ps0, now, |ps0|);
    OkIsSensible(ps0, now);
    LaterOk(ps0, now);
    if total != 0 {
      var w := d % total + 1;
      SomeoneWins(ps0, now, d);
      var k := ServedBy(ps0, now, w, ps);
      TickedOk(ps0[k], now);
      TickLeft(ps0, k, now);
    }
  }

  /** Sensible processes hold all the numbers the draw can give. */
  lemma SomeoneWins(ps: seq<Process>, now: int, d: nat)
    requires AllSensible(ps) && Below(ps, now, |ps|) != 0
    ensures Held(ps, now, d % Below(ps, now, |ps|) + 1)
  {
    BelowGrows(ps, now, 0, |ps|);
    var k := HolderOf(ps, now, d % Below(ps, now, |ps|) + 1, |ps|);
  }

  lemma {:induction false} HolderOf(ps: seq<Process>, now: int, w: int, n: nat) returns (k: nat)
    requires n <= |ps| && 0 < w <= Below(ps, now, n)
    ensures Wins(ps, now, w, k)
  {
    if w <= Below(ps, now, n - 1) {
      k := HolderOf(ps, now, w, n - 1);
    } else {
      k := n - 1;
    }
  }

  // ---------------------------------------------------------------- the ticks and who they went to

  /** served says which process each tick went to, -1 for none: how many went to i, and which was first and last. */
  function Count(served: seq<int>, i: nat): nat {
    if served == [] then 0 else Count(served[..|served| - 1], i) + if served[|served| - 1] == i then 1 else 0
  }

  function FirstOf(served: seq<int>, i: nat): int {
    if Count(served, i) == 0 then -1
    else if Count(served[..|served| - 1], i) == 0 then |served| - 1 else FirstOf(served[..|served| - 1], i)
  }

  function LastOf(served: seq<int>, i: nat): int {
    if served == [] then -1 else if served[|served| - 1] == i then |served| - 1 else LastOf(served[..|served| - 1], i)
  }

  /** The figures of process i are those of its ticks. */
  predicate Record(p: Process, served: seq<int>, i: nat) {
    var n := Count(served, i);
    && p.remaining == p.bt - n && (p.completed <==> n == p.bt)
    && p.rt == (if n == 0 then -1 else FirstOf(served, i) - p.at)
    && (p.completed ==> p.ct == LastOf(served, i) + 1)
  }

  /** The processes, completed as far as the ticks so far go. */
  function Pending(ps: seq<Process>, served: seq<int>): (r: seq<Process>)
    ensures |r| == |ps|
  {
    seq(|ps|, i requires 0 <= i < |ps| => ps[i].(completed := Count(served, i) == ps[i].bt))
  }

  /** The next tick goes to x: the holder of the ticket drawn, or nobody if nobody holds any. */
  ghost predicate Draws(ps: seq<Process>, served: seq<int>, d: nat, x: int) {
    var left, now := Pending(ps, served), |served|;
    var total := Below(left, now, |left|);
    if total == 0 then x == -1 else x >= 0 && Wins(left, now, d % total + 1, x)
  }

  /** Every tick went like that. */
  ghost predicate Drawn(ps: seq<Process>, served: seq<int>, draw: int -> nat) {
    forall t: nat :: t < |served| ==> Draws(ps, served[..t], draw(t), served[t])
  }

  ghost predicate Recorded(ps: seq<Process>, served: seq<int>) {
    forall i: nat :: i < |ps| ==> Record(ps[i], served, i)
  }

  lemma NothingRecorded(ps: seq<Process>)
    requires forall i :: 0 <= i < |ps| ==> Sensible(ps[i]) && New(ps[i])
    ensures Recorded(ps, [])
  {
    forall i: nat | i < |ps|
      ensures Record(ps[i], [], i)
    {
    }
  }

  lemma CountMore(served: seq<int>, x: int, i: nat)
    ensures Count(served + [x], i) == Count(served, i) + if x == i then 1 else 0
    ensures LastOf(served + [x], i) == if x == i then |served| else LastOf(served, i)
    ensures FirstOf(served + [x], i) ==
            if Count(served, i) > 0 then FirstOf(served, i) else if x == i then |served| else -1
  {
    assert (served + [x])[..|served|] == served;
  }

  lemma RecordMore(ps: seq<Process>, served: seq<int>, k: nat)
    requires Recorded(ps, served) && k < |ps| && ProcessOk(ps[k], |served|) && Eligible(ps[k], |served|)
    ensures Recorded(ps[k := Ticked(ps[k], |served|)], served + [k])
  {
    assert Record(ps[k], served, k);
    var ps' := ps[k := Ticked(ps[k], |served|)];
    forall i: nat | i < |ps'|
      ensures Record(ps'[i], served + [k], i)
    {
      CountMore(served, k, i);
      assert Record(ps[i], served, i);
    }
  }

  lemma RecordIdle(ps: seq<Process>, served: seq<int>)
    requires Recorded(ps, served)
    ensures Recorded(ps, served + [-1])
  {
    forall i: nat | i < |ps|
      ensures Record(ps[i], served + [-1], i)
    {
      CountMore(served, -1, i);
      assert Record(ps[i], served, i);
    }
  }

  /** The draw sees the same tickets in the processes and in the ticks. */
  lemma {:induction false} SameTickets(ps: seq<Process>, ps0: seq<Process>, served: seq<int>, now: int, k: nat)
    requires Recorded(ps, served) && SameJobs(ps0, ps) && k <= |ps|
    ensures Below(Pending(ps0, served), now, k) == Below(ps, now, k)
  {
    if k > 0 {
      SameTickets(ps, ps0, served, now, k - 1);
      assert Record(ps[k - 1], served, k - 1);
    }
  }

  lemma SameWinner(ps: seq<Process>, ps0: seq<Process>, served: seq<int>, now: int, w: int, k: nat)
    requires Recorded(ps, served) && SameJobs(ps0, ps) && Wins(ps, now, w, k)
    ensures Wins(Pending(ps0, served), now, w, k)
  {
    SameTickets(ps, ps0, served, now, k);
    assert Record(ps[k], served, k);
    hide Below;
  }

  lemma NothingDrawn(ps: seq<Process>, draw: int -> nat)
    ensures Drawn(ps, [], draw)
  {
  }

  lemma DrawnMore(ps: seq<Process>, served: seq<int>, draw: int -> nat, x: int)
    requires Drawn(ps, served, draw) && Draws(ps, served, draw(|served|), x)
    ensures Drawn(ps, served + [x], draw)
  {
    hide Draws;
    var served' := served + [x];
    forall t: nat | t < |served'|
      ensures Draws(ps, served'[..t], draw(t), served'[t])
    {
      assert served'[..t] == served[..t];
      assert served[..|served|] == served;
    }
  }

  /** A round is one more tick. */
  lemma RoundIsTick(ps0: seq<Process>, ps1: seq<Process>, served: seq<int>, draw: int -> nat, ps: seq<Process>)
    returns (x: int)
    requires Recorded(ps1, served) && Drawn(ps0, served, draw) && SameJobs(ps0, ps1) && AllOk(ps1, |served|)
    requires Turned(ps1, |served|, draw(|served|), ps)
    ensures Recorded(ps, served + [x]) && Drawn(ps0, served + [x], draw)
  {
    hide Recorded, Below, Wins, Drawn, ProcessOk, Eligible;
    var now := |served|;
    OkIsSensible(ps1, now);
    SameTickets(ps1, ps0, served, now, |ps1|);
    var total := Below(ps1, now, |ps1|);
    if total == 0 {
      x := -1;
      RecordIdle(ps1, served);
    } else {
      SomeoneWins(ps1, now, draw(now));
      var k := ServedBy(ps1, now, draw(now) % total + 1, ps);
      x := k;
      WinnerIs(ps1, now, draw(now) % total + 1, k);
      SameWinner(ps1, ps0, served, now, draw(now) % total + 1, k);
      RecordMore(ps1, served, k);
    }
    DrawnMore(ps0, served, draw, x);
  }

  lemma WinnerIs(ps: seq<Process>, now: int, w: int, k: nat)
    requires Wins(ps, now, w, k) && AllOk(ps, now)
    ensures k < |ps| && Eligible(ps[k], now) && ProcessOk(ps[k], now)
  {
  }

  class Simulation {
    var ps: seq<Process>
    var now: int
    var active: int
    var round: nat

    constructor (procs: seq<Process>)
      ensures ps == procs && now == 0 && active == |procs| && round == 1
    {
      ps, now, active, round := procs, 0, |procs|, 1;
    }

    /** One round of the main loop; draw is what rand() answers. */
    method Round(draw: nat)
      requires active == Active(ps)
      modifies this
      ensures Turned(old(ps), old(now), draw, ps) && now == old(now) + 1 && active == Active(ps)
    {
      hide Below, Active;
      var total := CalculateTotalTickets(ps, now);
      var found, k := LotteryDraw(ps, total, now, draw);
      if !found {
        now := now + 1;
        return;
      }
      Updated(ps, k, Ticked(ps[k], now));
      var p := ps[k];
      if p.rt == -1 {
        p := p.(rt := now - p.at);
      }
      p := p.(remaining := p.remaining - 1);
      now := now + 1;
      if p.remaining == 0 {
        p := p.(completed := true, ct := now);
        active := active - 1;
      }
      ps := ps[k := p];
      round := round + 1;
    }

    /** The main loop: draw says what rand() answers at each time, and max is no earlier than any arrival. */
    method Run(draw: int -> nat, ghost max: int) returns (ghost served: seq<int>)
      requires forall i :: 0 <= i < |ps| ==> Sensible(ps[i]) && New(ps[i])
      requires now == 0 && active == |ps| && Latest(ps, max)
      modifies this
      ensures AllOk(ps, now) && SameJobs(old(ps), ps) && forall i :: 0 <= i < |ps| ==> ps[i].completed
      ensures now <= max + SumBursts(old(ps))
      ensures |served| == now && Recorded(ps, served) && Drawn(old(ps), served, draw)
    {
      hide ProcessOk, Eligible, SumLeft, SumBursts, Active, Turned, Below, Recorded, Drawn;
      FreshOk(ps);
      NothingRecorded(ps);
      ghost var ps0 := ps;
      served := [];
      NothingDrawn(ps, draw);
      while active > 0
        invariant AllOk(ps, now) && active == Active(ps) && SameJobs(ps0, ps) && Latest(ps, max) && 0 <= SumLeft(ps)
        invariant 0 <= now <= max + SumBursts(ps0) - SumLeft(ps)
        invariant |served| == now && Recorded(ps, served) && Drawn(ps0, served, draw)
        decreases SumLeft(ps), max - now
      {
        ghost var ps1, now1 := ps, now;
        Round(draw(now));
        TurnedOk(ps1, now1, draw(now1), ps);
        ghost var x := RoundIsTick(ps0, ps1, served, draw, ps);
        served := served + [x];
        LeftIsBetween(ps, now);
        BurstsSame(ps0, ps);
        if Below(ps1, now1, |ps1|) == 0 {
          OkIsSensible(ps1, now1);
          LeftIsBetween(ps1, now1);
          SomeoneIsLater(ps1, now1, max);
        }
      }
      NoneActive(ps);
    }

    /** The first n rounds of the main loop: it has not ended if some process is not sensible, whatever is drawn. */
    method RunFor(draw: int -> nat, n: nat, ghost i: nat)
      requires (forall j :: 0 <= j < |ps| ==> New(ps[j])) && active == |ps|
      requires i < |ps| && !Sensible(ps[i])
      modifies this
      ensures active > 0 && |ps| == old(|ps|) && !ps[i].completed && now == old(now) + n
    {
      hide Active, Turned;
      NewActive(ps);
      var k := 0;
      while k < n && active > 0
        invariant k <= n && |ps| == old(|ps|) && Stuck(ps[i]) && active == Active(ps) && now == old(now) + k
      {
        ghost var ps1, now1 := ps, now;
        Round(draw(now));
        TurnedStuck(ps1, now1, draw(now1), ps, i);
        TurnedSize(ps1, now1, draw(now1), ps);
        k := k + 1;
        assert active > 0 by {
          NoneActive(ps);
        }
      }
      NoneActive(ps);
    }

    method CalculateMetrics()
      requires AllOk(ps, now) && forall i :: 0 <= i < |ps| ==> ps[i].completed
      modifies this`ps
      ensures SameJobs(old(ps), ps)
      ensures forall i :: 0 <= i < |ps| ==>
                && ps[i].ct == old(ps)[i].ct == ps[i].at + ps[i].bt + ps[i].wt
                && ps[i].tat == ps[i].ct - ps[i].at && 0 <= ps[i].rt <= ps[i].wt
    {
      ghost var ps0 := ps;
      forall i | 0 <= i < |ps|
        ensures ps[i].rt >= 0 && ps[i].ct >= ps[i].at + ps[i].rt + ps[i].bt
      {
        assert ProcessOk(ps[i], now);
      }
      hide ProcessOk;
      var k := 0;
      while k < |ps|
        invariant k <= |ps| == |ps0| && SameJobs(ps0, ps)
        invariant forall i :: k <= i < |ps| ==> ps[i] == ps0[i]
        invariant forall i :: 0 <= i < k ==>
                    && ps[i].ct == ps0[i].ct == ps[i].at + ps[i].bt + ps[i].wt
                    && ps[i].tat == ps[i].ct - ps[i].at && 0 <= ps[i].rt <= ps[i].wt
      {
        var p := ps[k];
        p := p.(tat := p.ct - p.at);
        p := p.(wt := p.tat - p.bt);
        if p.rt == -1 {
          p := p.(rt := p.at);
        }
        ps := ps[k := p];
        k := k + 1;
      }
    }
  }

  lemma TurnedSize(ps0: seq<Process>, now: int, d: nat, ps: seq<Process>)
    requires Turned(ps0, now, d, ps)
    ensures |ps| == |ps0|
  {
  }

  lemma {:induction false} NewActive(ps: seq<Process>)
    requires forall i :: 0 <= i < |ps| ==> New(ps[i])
    ensures Active(ps) == |ps|
  {
    if ps != [] {
      NewActive(ps[..|ps| - 1]);
    }
  }

  lemma {:induction false} FreshOk(ps: seq<Process>)
    requires forall i :: 0 <= i < |ps| ==> Sensible(ps[i]) && New(ps[i])
    ensures AllOk(ps, 0) && SumLeft(ps) == SumBursts(ps) >= 0 && Active(ps) == |ps|
  {
    if ps != [] {
      FreshOk(ps[..|ps| - 1]);
    }
  }

  /** When the draw finds nobody, some process has yet to arrive. */
  lemma SomeoneIsLater(ps: seq<Process>, now: int, max: int)
    requires AllSensible(ps) && Below(ps, now, |ps|) == 0 && Active(ps) > 0 && Latest(ps, max)
    ensures now < max
  {
    NoneActive(ps);
    var i :| 0 <= i < |ps| && !ps[i].completed;
    NobodyEligible(ps, now, i);
  }

  lemma TickLeft(ps: seq<Process>, k: nat, now: int)
    requires k < |ps| && AllOk(ps, now) && Eligible(ps[k], now)
    ensures SumLeft(ps[k := Ticked(ps[k], now)]) == SumLeft(ps) - 1
    ensures SameJobs(ps, ps[k := Ticked(ps[k], now)])
  {
    assert ProcessOk(ps[k], now);
    Updated(ps, k, Ticked(ps[k], now));
  }
}
