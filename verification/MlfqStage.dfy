/** Where a run of mlfq() stands, and why a queue overflows exactly when its peak does not fit. */
module MlfqStage {
  import opened Mlfq
  import opened MlfqPeak

  /** Turns a burst needs at the last level. */
  function Turns(bt: nat): nat {
    if bt <= 6 then 0 else Dispatches(bt) - 2
  }

  function Bursts(ps: seq<Process>): (s: seq<nat>)
    ensures |s| == |ps|
  {
    seq(|ps|, i requires 0 <= i < |ps| => ps[i].bt)
  }

  function AllTurns(ps: seq<Process>): (s: seq<nat>)
    ensures |s| == |ps|
  {
    seq(|ps|, i requires 0 <= i < |ps| => Turns(ps[i].bt))
  }

  /** Too many processes, or too many enqueues to the last level before it first becomes empty. */
  predicate TooMuch(ps: seq<Process>) {
    |ps| > MAX || Peak(AllTurns(ps)) > MAX
  }

  /**
    First(a) and Second(a): the processes before a have had their turn at level 0, at level 1.
    Third(r, pos): at level 2, round r has got as far as pos. Alone: level 2 has been empty once.
   */
  datatype Stage = First(a: nat) | Second(a: nat) | Third(r: nat, pos: nat) | Alone

  /** Dispatches a process in a queue has had. */
  ghost predicate Counts(q: seq<nat>, disp: seq<nat>, r: nat, pos: nat) {
    forall i :: i in q ==> i < |disp| && disp[i] == if i < pos then r + 2 else r + 1
  }

  /** The queues and how far their arrays are used, stage by stage. */
  ghost predicate Stands(stage: Stage, bs: seq<nat>, es: seq<nat>, qs: seq<seq<nat>>, rear: seq<int>, disp: seq<nat>) {
    && |bs| == |es| == |disp| <= MAX && |qs| == |rear| == LEVELS
    && match stage
       case First(a) =>
         && a <= |bs| && qs[0] == Filter(bs, a, |bs|, 0) && qs[1] == Filter(bs, 0, a, 3) && qs[2] == []
         && rear[1] == |qs[1]| - 1 && rear[2] == -1
       case Second(a) =>
         && a <= |bs| && qs[0] == [] && qs[1] == Filter(bs, a, |bs|, 3) && qs[2] == Filter(es, 0, a, 1)
         && rear[2] == |qs[2]| - 1 && Counts(qs[2], disp, 1, 0)
       case Third(r, pos) =>
         && r >= 1 && pos <= |es| && qs[0] == [] && qs[1] == [] && qs[2] == Waiting(es, r, pos)
         && rear[2] + 1 == Sum(Made(es, r, pos)) && Before(es, r, pos) && Counts(qs[2], disp, r, pos)
       case Alone =>
         qs[0] == [] && qs[1] == [] && |qs[2]| <= 1 && rear[2] == |qs[2]| - 1 && Peak(es) <= MAX
  }

  /** The stage that dispatches at this level. */
  predicate Serves(stage: Stage, es: seq<nat>, level: nat) {
    match stage
    case First(_) => level == 0
    case Second(_) => level == 1
    case Third(r, pos) => level == 2 && pos <= |es| && Filter(es, pos, |es|, r) != []
    case Alone => level == 2
  }

  lemma SecondStarts(bs: seq<nat>, es: seq<nat>, qs: seq<seq<nat>>, rear: seq<int>, disp: seq<nat>, a: nat)
    requires Stands(First(a), bs, es, qs, rear, disp) && qs[0] == []
    ensures Stands(Second(0), bs, es, qs, rear, disp)
  {
    assert Filter(es, 0, 0, 1) == [];
  }

  /** Every process with turns is past level 1: round 1 of level 2 begins. */
  lemma ThirdStarts(bs: seq<nat>, es: seq<nat>, qs: seq<seq<nat>>, rear: seq<int>, disp: seq<nat>, a: nat)
    requires Stands(Second(a), bs, es, qs, rear, disp) && qs[1] == [] && Agree(bs, es)
    ensures Stands(Third(1, 0), bs, es, qs, rear, disp)
  {
    FilterNone(bs, a, |bs|, 3);
    assert forall i :: a <= i < |es| ==> es[i] < 1;
    FilterSkips(es, 0, a, |es|, 1);
    assert Filter(es, 0, 0, 2) == [];
    assert Waiting(es, 1, 0) == Filter(es, 0, |es|, 1) + [] == Filter(es, 0, |es|, 1);
    FirstRound(es, |es|);
    assert Made(es, 1, 0)[..|es|] == Made(es, 1, 0);
  }

  ghost predicate Agree(bs: seq<nat>, es: seq<nat>) {
    |bs| == |es| && forall i :: 0 <= i < |bs| ==> es[i] == Turns(bs[i])
  }

  /** At the start of round 1 each process with turns has been enqueued once. */
  lemma {:induction false} FirstRound(es: seq<nat>, k: nat)
    requires k <= |es|
    ensures Sum(Made(es, 1, 0)[..k]) == |Filter(es, 0, k, 1)|
  {
    if k > 0 {
      FirstRound(es, k - 1);
      FilterSnoc(es, 0, k - 1, 1);
      var s := Made(es, 1, 0);
      assert s[..k][..k - 1] == s[..k - 1];
    } else {
      assert Made(es, 1, 0)[..0] == [];
    }
  }

  lemma RoundTurns(bs: seq<nat>, es: seq<nat>, qs: seq<seq<nat>>, rear: seq<int>, disp: seq<nat>, r: nat, pos: nat)
    requires Stands(Third(r, pos), bs, es, qs, rear, disp) && Filter(es, pos, |es|, r) == [] && qs[2] != []
    ensures Stands(Third(r + 1, 0), bs, es, qs, rear, disp) && Filter(es, 0, |es|, r + 1) != []
  {
    hide Filter, Sum, Made, Before;
    RoundEnds(es, r, pos);
    LateRound(es, r, pos);
    var x := Waiting(es, r, pos)[0];
    assert x in Waiting(es, r, pos);
    BeforeNext(es, r, pos, x);
    NextRound(es, r);
  }

  lemma NextRound(es: seq<nat>, r: nat)
    ensures Waiting(es, r + 1, 0) == Filter(es, 0, |es|, r + 1)
  {
    assert Filter(es, 0, 0, r + 2) == [];
  }

  /** At the end of a round everyone waiting has been dispatched in it and has turns left. */
  lemma LateRound(es: seq<nat>, r: nat, pos: nat)
    requires pos <= |es| && Filter(es, pos, |es|, r) == []
    ensures forall x :: x in Waiting(es, r, pos) ==> x < pos && es[x] >= r + 1
  {
    FilterShort(es, 0, pos, r + 1);
    hide Filter;
  }

  lemma BeforeNext(es: seq<nat>, r: nat, pos: nat, x: nat)
    requires Before(es, r, pos) && pos <= |es| && Filter(es, pos, |es|, r) == [] && r >= 1 && x < pos && es[x] >= r + 1
    ensures Before(es, r + 1, 0)
  {
    Survives(es);
    FilterNone(es, pos, |es|, r);
    var m := Survivor(es, |es|);
    hide Filter, Survivor, LastRound;
  }

  /** The bookkeeping before a dispatch at this level. */
  lemma Settle(stage: Stage, bs: seq<nat>, es: seq<nat>, qs: seq<seq<nat>>, rear: seq<int>, disp: seq<nat>,
               level: nat) returns (stage': Stage)
    requires Stands(stage, bs, es, qs, rear, disp) && Agree(bs, es) && level < LEVELS && qs[level] != []
    requires forall m: nat :: m < level ==> qs[m] == []
    ensures Stands(stage', bs, es, qs, rear, disp) && Serves(stage', es, level)
  {
    hide Filter, Waiting, Made, Sum, Before, Counts, Peak, Agree;
    stage' := stage;
    if stage'.First? && level > 0 {
      SecondStarts(bs, es, qs, rear, disp, stage'.a);
      stage' := Second(0);
    }
    if stage'.Second? && level > 1 {
      ThirdStarts(bs, es, qs, rear, disp, stage'.a);
      stage' := Third(1, 0);
    }
    if stage'.Third? && Filter(es, stage'.pos, |es|, stage'.r) == [] {
      RoundTurns(bs, es, qs, rear, disp, stage'.r, stage'.pos);
      stage' := Third(stage'.r + 1, 0);
    }
  }

  // ---------------------------------------------------------------- one dispatch

  /** rear after a dequeue. */
  function Popped(rear: seq<int>, qs: seq<seq<nat>>, level: nat): (r: seq<int>)
    requires |rear| == |qs| == LEVELS && level < LEVELS
    ensures |r| == LEVELS
  {
    if |qs[level]| == 1 then rear[level := -1] else rear
  }

  function Pushed(rear: seq<int>, level: nat): (r: seq<int>)
    requires |rear| == LEVELS && level < LEVELS
    ensures |r| == LEVELS
  {
    rear[level := rear[level] + 1]
  }

  /** What a dispatch does to stage, queues and counts. */
  ghost predicate Ready(stage: Stage, bs: seq<nat>, es: seq<nat>, qs: seq<seq<nat>>, rear: seq<int>, disp: seq<nat>,
                        level: nat, i: nat) {
    && Stands(stage, bs, es, qs, rear, disp) && Agree(bs, es) && Serves(stage, es, level) && level < LEVELS
    && qs[level] != [] && i == qs[level][0] && i < |bs|
  }

  lemma FirstHead(bs: seq<nat>, a: nat, t: nat)
    requires a <= |bs| && Filter(bs, a, |bs|, t) != []
    ensures var j := Filter(bs, a, |bs|, t)[0];
            && a <= j < |bs| && bs[j] >= t && Filter(bs, a, |bs|, t)[1..] == Filter(bs, j + 1, |bs|, t)
            && (forall t' :: t' >= t ==>
                  Filter(bs, 0, j + 1, t') == Filter(bs, 0, a, t') + (if bs[j] >= t' then [j] else []))
  {
    FilterFirst(bs, a, |bs|, t);
    var j := Filter(bs, a, |bs|, t)[0];
    forall t' | t' >= t
      ensures Filter(bs, 0, j + 1, t') == Filter(bs, 0, a, t') + (if bs[j] >= t' then [j] else [])
    {
      FilterSkips(bs, 0, a, j, t');
      FilterSnoc(bs, 0, j, t');
    }
  }

  lemma FirstDispatch(bs: seq<nat>, es: seq<nat>, qs: seq<seq<nat>>, rear: seq<int>, disp: seq<nat>, a: nat, i: nat)
    requires Ready(First(a), bs, es, qs, rear, disp, 0, i)
    ensures bs[i] <= 2 ==>
              Stands(First(i + 1), bs, es, qs[0 := qs[0][1..]], Popped(rear, qs, 0), disp[i := disp[i] + 1])
    ensures bs[i] > 2 ==>
              && Popped(rear, qs, 0)[1] < MAX - 1
              && Stands(First(i + 1), bs, es, qs[0 := qs[0][1..]][1 := qs[1] + [i]], Pushed(Popped(rear, qs, 0), 1),
                        disp[i := disp[i] + 1])
  {
    FirstHead(bs, a, 0);
    FilterShort(bs, 0, a, 3);
    hide Filter;
  }

  lemma SecondDispatch(bs: seq<nat>, es: seq<nat>, qs: seq<seq<nat>>, rear: seq<int>, disp: seq<nat>, a: nat, i: nat)
    requires Ready(Second(a), bs, es, qs, rear, disp, 1, i) && disp[i] == 1
    ensures bs[i] <= 6 ==>
              Stands(Second(i + 1), bs, es, qs[1 := qs[1][1..]], Popped(rear, qs, 1), disp[i := disp[i] + 1])
    ensures bs[i] > 6 ==>
              && Popped(rear, qs, 1)[2] < MAX - 1
              && Stands(Second(i + 1), bs, es, qs[1 := qs[1][1..]][2 := qs[2] + [i]], Pushed(Popped(rear, qs, 1), 2),
                        disp[i := disp[i] + 1])
  {
    hide Filter, Agree, Sum, Peak, Made, Waiting, Before;
    SecondHead(bs, es, a);
  }

  lemma SecondHead(bs: seq<nat>, es: seq<nat>, a: nat)
    requires Agree(bs, es) && a <= |bs| && Filter(bs, a, |bs|, 3) != []
    ensures var i := Filter(bs, a, |bs|, 3)[0];
            && a <= i < |bs| && Filter(bs, a, |bs|, 3)[1..] == Filter(bs, i + 1, |bs|, 3)
            && |Filter(es, 0, a, 1)| <= i
            && Filter(es, 0, i + 1, 1) == (if bs[i] > 6 then Filter(es, 0, a, 1) + [i] else Filter(es, 0, a, 1))
  {
    FilterFirst(bs, a, |bs|, 3);
    var i := Filter(bs, a, |bs|, 3)[0];
    FilterShort(es, 0, a, 1);
    forall k | a <= k < i
      ensures es[k] < 1
    {
      assert es[k] == Turns(bs[k]);
    }
    FilterSkips(es, 0, a, i, 1);
    FilterSnoc(es, 0, i, 1);
    hide Filter;
    assert es[i] == Turns(bs[i]);
  }

  /** Level 2 while others wait. */
  lemma ThirdDispatch(bs: seq<nat>, es: seq<nat>, qs: seq<seq<nat>>, rear: seq<int>, disp: seq<nat>, r: nat, pos: nat,
                      i: nat)
    requires Ready(Third(r, pos), bs, es, qs, rear, disp, 2, i) && |qs[2]| > 1
    requires forall x, y :: 0 <= x < y < |qs[2]| ==> qs[2][x] != qs[2][y]
    ensures es[i] >= r
    ensures es[i] == r ==> Stands(Third(r, i + 1), bs, es, qs[2 := qs[2][1..]], rear, disp[i := disp[i] + 1])
    ensures es[i] > r && rear[2] < MAX - 1 ==>
              Stands(Third(r, i + 1), bs, es, qs[2 := qs[2][1..] + [i]], Pushed(rear, 2), disp[i := disp[i] + 1])
    ensures es[i] > r && rear[2] >= MAX - 1 ==> Peak(es) > MAX
  {
    hide Waiting, Before, Peak, Sum, Made, Filter, Counts;
    var q := qs[2];
    ThirdFacts(es, r, pos, i, q);
    LateCounts(es, q, disp, r, pos, i);
    if es[i] == r {
      assert q[1..] + [] == q[1..];
    }
  }

  lemma ThirdFacts(es: seq<nat>, r: nat, pos: nat, i: nat, q: seq<nat>)
    requires Midway(es, r, pos) && Before(es, r, pos) && q == Waiting(es, r, pos) && |q| > 1 && i == q[0]
    ensures i < |es| && es[i] >= r && Waiting(es, r, i + 1) == q[1..] + (if es[i] > r then [i] else [])
    ensures Before(es, r, i + 1)
    ensures Sum(Made(es, r, i + 1)) == Sum(Made(es, r, pos)) + (if es[i] > r then 1 else 0)
    ensures es[i] > r ==> Sum(Made(es, r, pos)) + 1 <= Peak(es)
  {
    hide Waiting, Before, Peak, Sum, Made, Filter;
    Dispatched(es, r, pos);
    CrowdedHead(es, r, pos);
    SumUpdate(Made(es, r, pos), i, Min(es[i], r + 1));
  }

  /** The counts of those waiting once i has been dispatched. */
  lemma LateCounts(es: seq<nat>, q: seq<nat>, disp: seq<nat>, r: nat, pos: nat, i: nat)
    requires Midway(es, r, pos) && q == Waiting(es, r, pos) && Counts(q, disp, r, pos) && q != [] && i == q[0]
    requires i < |disp|
    requires forall x, y :: 0 <= x < y < |q| ==> q[x] != q[y]
    ensures Counts(q[1..], disp[i := disp[i] + 1], r, i + 1) && disp[i] == r + 1
    ensures Counts(q[1..] + [i], disp[i := disp[i] + 1], r, i + 1)
  {
    hide Filter;
    RestOf(es, r, pos);
    assert i in q;
    forall x | x in q[1..] + [i]
      ensures x < |disp| && disp[i := disp[i] + 1][x] == if x < i + 1 then r + 2 else r + 1
    {
      assert x in q;
      if x in q[1..] {
        var k :| 1 <= k < |q| && q[k] == x;
      }
    }
    forall x | x in q[1..]
      ensures x in q[1..] + [i]
    {
    }
  }

  /** Those behind the head either come later in the round or had their turn in it. */
  lemma RestOf(es: seq<nat>, r: nat, pos: nat)
    requires Midway(es, r, pos)
    ensures var q := Waiting(es, r, pos);
            && q != [] && pos <= q[0] < |es| && forall x :: x in q[1..] ==> x > q[0] || x < pos
  {
    FilterFirst(es, pos, |es|, r);
    var i := Filter(es, pos, |es|, r)[0];
    FilterShort(es, i + 1, |es|, r);
    FilterShort(es, 0, pos, r + 1);
    hide Filter;
    assert Waiting(es, r, pos)[1..] == Filter(es, i + 1, |es|, r) + Filter(es, 0, pos, r + 1);
  }

  /** Level 2 with one process waiting: the queue starts over. */
  lemma LoneDispatch(stage: Stage, bs: seq<nat>, es: seq<nat>, qs: seq<seq<nat>>, rear: seq<int>, disp: seq<nat>,
                     i: nat)
    requires Ready(stage, bs, es, qs, rear, disp, 2, i) && |qs[2]| == 1 && rear[2] < MAX
    ensures Popped(rear, qs, 2)[2] < MAX - 1
    ensures Stands(Alone, bs, es, qs[2 := qs[2][1..]], Popped(rear, qs, 2), disp[i := disp[i] + 1])
    ensures Stands(Alone, bs, es, qs[2 := qs[2][1..] + [i]], Pushed(Popped(rear, qs, 2), 2), disp[i := disp[i] + 1])
  {
    if stage.Third? {
      LoneHead(es, stage.r, stage.pos);
    }
    hide Waiting, Before, Peak, Sum, Made, Filter;
  }

  // ---------------------------------------------------------------- the run

  ghost predicate SomeLost(loc: seq<Loc>) {
    exists i: nat :: i < |loc| && loc[i] == Lost
  }

  /**
    A process is lost exactly if a queue has overflowed, and then the load was too much; until then the stages hold.
   */
  ghost predicate Room(ps: seq<Process>, stage: Stage, qs: seq<seq<nat>>, rear: seq<int>, loc: seq<Loc>, disp: seq<nat>,
                       overflow: bool) {
    && |loc| == |disp| == |ps|
    && (overflow <==> SomeLost(loc))
    && (overflow ==> TooMuch(ps))
    && (!overflow ==> Stands(stage, Bursts(ps), AllTurns(ps), qs, rear, disp))
  }

  lemma SameLoad(ps: seq<Process>, ps': seq<Process>)
    requires SameJobs(ps, ps')
    ensures Bursts(ps') == Bursts(ps) && AllTurns(ps') == AllTurns(ps) && (TooMuch(ps') <==> TooMuch(ps))
    ensures Agree(Bursts(ps), AllTurns(ps))
  {
    assert Bursts(ps') == Bursts(ps) && AllTurns(ps') == AllTurns(ps);
  }

  lemma LostStays(loc: seq<Loc>, i: nat, x: Loc)
    requires i < |loc| && loc[i] != Lost
    ensures SomeLost(loc[i := x]) <==> SomeLost(loc) || x == Lost
  {
    var loc' := loc[i := x];
    if SomeLost(loc) {
      var k: nat :| k < |loc| && loc[k] == Lost;
      assert loc'[k] == Lost;
    }
    if x == Lost {
      assert loc'[i] == Lost;
    }
    if SomeLost(loc') {
      var k: nat :| k < |loc'| && loc'[k] == Lost;
      assert k != i ==> loc[k] == Lost;
    }
  }

  /** A dispatch at level 2 is a burst's last exactly if its turns are up. */
  lemma LastTurn(p: Process, disp: nat, now: int, r: nat)
    requires ProcessOk(p, At(2), disp, now) && disp == r + 1 && r >= 1
    ensures Turns(p.bt) >= r && (p.remain <= 8 <==> Turns(p.bt) == r)
  {
  }

  /** Everything that is known when i, the head of the queue at this level, is dispatched. */
  ghost predicate Due(ps: seq<Process>, stage: Stage, qs: seq<seq<nat>>, rear: seq<int>, loc: seq<Loc>, disp: seq<nat>,
                      now: int,
                      level: nat, i: nat) {
    && ProcessesOk(ps, loc, disp, now) && level < LEVELS && |qs| == |rear| == LEVELS && qs[level] != []
    && i == qs[level][0]
    && i < |ps| && loc[i] == At(level) && rear[2] < MAX && NoRepeats(qs[2])
    && (forall m: nat :: m < level ==> qs[m] == [])
  }

  lemma DispatchEnds(ps: seq<Process>, stage: Stage, qs: seq<seq<nat>>, rear: seq<int>, loc: seq<Loc>, disp: seq<nat>,
                     now: int, level: nat, i: nat)
    returns (stage': Stage)
    requires Due(ps, stage, qs, rear, loc, disp, now, level, i) && ps[i].remain <= Quantum(level)
    requires Stands(stage, Bursts(ps), AllTurns(ps), qs, rear, disp)
    ensures Stands(stage', Bursts(ps), AllTurns(ps), qs[level := qs[level][1..]], Popped(rear, qs, level),
                   disp[i := disp[i] + 1])
  {
    hide Stands, Filter, Peak, Dispatches;
    var bs, es := Bursts(ps), AllTurns(ps);
    SameLoad(ps, ps);
    assert ProcessOk(ps[i], At(level), disp[i], now);
    var st := Settle(stage, bs, es, qs, rear, disp, level);
    Heads(st, bs, es, qs, rear, disp, level, i);
    if st.First? {
      FirstDispatch(bs, es, qs, rear, disp, st.a, i);
      stage' := First(i + 1);
    } else if st.Second? {
      SecondDispatch(bs, es, qs, rear, disp, st.a, i);
      stage' := Second(i + 1);
    } else if |qs[2]| == 1 {
      LoneDispatch(st, bs, es, qs, rear, disp, i);
      stage' := Alone;
    } else {
      ThirdDispatch(bs, es, qs, rear, disp, st.r, st.pos, i);
      LastTurn(ps[i], disp[i], now, st.r);
      stage' := Third(st.r, i + 1);
    }
  }

  lemma DispatchGoesOn(ps: seq<Process>, stage: Stage, qs: seq<seq<nat>>, rear: seq<int>, loc: seq<Loc>, disp: seq<nat>,
                       now: int, level: nat, i: nat)
    returns (stage': Stage)
    requires Due(ps, stage, qs, rear, loc, disp, now, level, i) && ps[i].remain > Quantum(level)
    requires Stands(stage, Bursts(ps), AllTurns(ps), qs, rear, disp)
    ensures var next, rear1 := NextLevel(level), Popped(rear, qs, level);
            if rear1[next] >= MAX - 1 then Peak(AllTurns(ps)) > MAX
            else Stands(stage', Bursts(ps), AllTurns(ps), Moved(qs, level, At(next)), Pushed(rear1, next),
                        disp[i := disp[i] + 1])
  {
    hide Stands, Filter, Peak, Dispatches;
    var bs, es := Bursts(ps), AllTurns(ps);
    SameLoad(ps, ps);
    assert ProcessOk(ps[i], At(level), disp[i], now);
    MovedOn(qs, level);
    var st := Settle(stage, bs, es, qs, rear, disp, level);
    Heads(st, bs, es, qs, rear, disp, level, i);
    if st.First? {
      FirstDispatch(bs, es, qs, rear, disp, st.a, i);
      stage' := First(i + 1);
    } else if st.Second? {
      SecondDispatch(bs, es, qs, rear, disp, st.a, i);
      stage' := Second(i + 1);
    } else if |qs[2]| == 1 {
      LoneDispatch(st, bs, es, qs, rear, disp, i);
      stage' := Alone;
    } else {
      ThirdDispatch(bs, es, qs, rear, disp, st.r, st.pos, i);
      LastTurn(ps[i], disp[i], now, st.r);
      stage' := Third(st.r, i + 1);
    }
  }

  /** The queues after the head of one has moved on. */
  lemma MovedOn(qs: seq<seq<nat>>, level: nat)
    requires |qs| == LEVELS && level < LEVELS && qs[level] != []
    ensures level < 2 ==>
              Moved(qs, level, At(NextLevel(level))) ==
              qs[level := qs[level][1..]][level + 1 := qs[level + 1] + [qs[level][0]]]
    ensures level == 2 ==> Moved(qs, level, At(NextLevel(level))) == qs[2 := qs[2][1..] + [qs[2][0]]]
  {
  }

  /** Small facts about the stage that serves a level. */
  lemma Heads(st: Stage, bs: seq<nat>, es: seq<nat>, qs: seq<seq<nat>>, rear: seq<int>, disp: seq<nat>, level: nat,
              i: nat)
    requires Stands(st, bs, es, qs, rear, disp) && Serves(st, es, level) && Agree(bs, es)
    requires level < LEVELS && |qs| == LEVELS && qs[level] != [] && i == qs[level][0] && i < |bs|
    ensures Ready(st, bs, es, qs, rear, disp, level, i) && |disp| == |bs|
    ensures st.Alone? ==> |qs[2]| == 1
    ensures st.Third? && |qs[2]| > 1 ==> disp[i] == st.r + 1 && st.r >= 1
  {
    if st.Third? {
      Dispatched(es, st.r, st.pos);
      assert i in qs[2];
    }
    hide Filter, Peak, Sum, Made, Before;
  }

  /** What a finishing dispatch leaves. */
  lemma RoomEnds(ps: seq<Process>, ps': seq<Process>, stage: Stage, qs: seq<seq<nat>>, rear: seq<int>, loc: seq<Loc>,
                 disp: seq<nat>, now: int,
                 overflow: bool, level: nat, i: nat) returns (stage': Stage)
    requires Due(ps, stage, qs, rear, loc, disp, now, level, i) && ps[i].remain <= Quantum(level)
    requires Room(ps, stage, qs, rear, loc, disp, overflow) && SameJobs(ps, ps')
    ensures Room(ps', stage', Moved(qs, level, Done), Popped(rear, qs, level), loc[i := Done], disp[i := disp[i] + 1],
                 overflow)
  {
    hide Stands, SomeLost, TooMuch, ProcessesOk;
    SameLoad(ps, ps');
    LostStays(loc, i, Done);
    stage' := stage;
    if !overflow {
      stage' := DispatchEnds(ps, stage, qs, rear, loc, disp, now, level, i);
    }
  }

  /**
    What a dispatch leaves that uses up its quantum: overflow, and only then someone lost, exactly if the next queue
    is full.
   */
  lemma RoomGoesOn(ps: seq<Process>, ps': seq<Process>, stage: Stage, qs: seq<seq<nat>>, rear: seq<int>, loc: seq<Loc>,
                   disp: seq<nat>, now: int,
                   overflow: bool, level: nat, i: nat) returns (stage': Stage)
    requires Due(ps, stage, qs, rear, loc, disp, now, level, i) && ps[i].remain > Quantum(level)
    requires Room(ps, stage, qs, rear, loc, disp, overflow) && SameJobs(ps, ps')
    ensures var next, rear1 := NextLevel(level), Popped(rear, qs, level);
            var x := if rear1[next] < MAX - 1 then At(next) else Lost;
            Room(ps', stage', Moved(qs, level, x), if x.At? then Pushed(rear1, next) else rear1,
                 loc[i := x], disp[i := disp[i] + 1], overflow || x.Lost?)
  {
    hide Stands, SomeLost, Peak, ProcessesOk, Moved, AllTurns;
    SameLoad(ps, ps');
    LostStays(loc, i, Lost);
    LostStays(loc, i, At(NextLevel(level)));
    stage' := stage;
    if !overflow {
      stage' := DispatchGoesOn(ps, stage, qs, rear, loc, disp, now, level, i);
    }
  }

  /** With every queue empty and nobody lost, the load fitted. */
  lemma EmptyFits(stage: Stage, bs: seq<nat>, es: seq<nat>, qs: seq<seq<nat>>, rear: seq<int>, disp: seq<nat>)
    requires Stands(stage, bs, es, qs, rear, disp) && Agree(bs, es) && qs[0] == [] && qs[1] == [] && qs[2] == []
    ensures |bs| <= MAX && Peak(es) <= MAX
  {
    match stage
    case First(a) =>
      SecondStarts(bs, es, qs, rear, disp, a);
      ThirdStarts(bs, es, qs, rear, disp, 0);
      NobodyLeft(es, 1, 0);
    case Second(a) =>
      ThirdStarts(bs, es, qs, rear, disp, a);
      NobodyLeft(es, 1, 0);
    case Third(r, pos) =>
      NobodyLeft(es, r, pos);
    case Alone =>
  }

  lemma NobodyLeft(es: seq<nat>, r: nat, pos: nat)
    requires r >= 1 && pos <= |es| && Waiting(es, r, pos) == [] && Before(es, r, pos)
    ensures Peak(es) == 0
  {
    FilterNone(es, pos, |es|, r);
    FilterNone(es, 0, pos, r + 1);
    if es != [] {
      Survives(es);
    }
    hide Filter, Survivor, LastRound, Sum;
  }

  /** The start of a run. */
  lemma RoomStarts(ps: seq<Process>, qs: seq<seq<nat>>, rear: seq<int>, disp: seq<nat>)
    requires |ps| == |disp| <= MAX && |qs| == |rear| == LEVELS && qs[0] == seq(|ps|, i => i) && qs[1] == []
    requires qs[2] == []
    requires rear[1] == -1 && rear[2] == -1
    ensures Stands(First(0), Bursts(ps), AllTurns(ps), qs, rear, disp)
  {
    FilterAll(Bursts(ps), |ps|);
    assert Filter(Bursts(ps), 0, 0, 3) == [];
  }

  lemma {:induction false} FilterAll(bs: seq<nat>, k: nat)
    requires k <= |bs|
    ensures Filter(bs, 0, k, 0) == seq(k, i => i)
  {
    if k > 0 {
      FilterAll(bs, k - 1);
      FilterSnoc(bs, 0, k - 1, 0);
    }
  }
}
