/** In which order mlfq() serves the processes, when each slice begins and ends, and what ct is. */
module MlfqOrder {
  import opened Mlfq

  /** Time served before a turn. */
  function Used(turn: nat): nat {
    if turn == 0 then 0 else if turn == 1 then 2 else 6 + 8 * (turn - 2)
  }

  /** A turn lasts for the quantum of its level or to the end of the burst. */
  function Length(bt: nat, turn: nat): int {
    var quantum := if turn == 0 then 2 else if turn == 1 then 4 else 8;
    if bt - Used(turn) <= quantum then bt - Used(turn) else quantum
  }

  /** Turn a of process i comes before turn b of process j: rounds in order, each in the order of the list. */
  predicate Precedes(a: int, i: nat, b: int, j: nat) {
    a < b || (a == b && i < j)
  }

  /** When the processor becomes free. */
  function End(trace: seq<Slice>, base: int): int {
    if trace == [] then base else trace[|trace| - 1].upto
  }

  /** The end of the last slice of process i. */
  function LastEnd(trace: seq<Slice>, i: nat): int {
    if trace == [] then 0
    else if trace[|trace| - 1].i == i then trace[|trace| - 1].upto else LastEnd(trace[..|trace| - 1], i)
  }

  /** Slice x comes right after trace: the next turn of its process, as soon as both are ready, for its full length. */
  ghost predicate Follows(trace: seq<Slice>, x: Slice, ps: seq<Process>, base: int) {
    && x.i < |ps| && x.turn == Times(trace, x.i)
    && x.from == (if ps[x.i].at > End(trace, base) then ps[x.i].at else End(trace, base))
    && x.upto == x.from + Length(ps[x.i].bt, x.turn)
    && (trace != [] ==> Precedes(trace[|trace| - 1].turn, trace[|trace| - 1].i, x.turn, x.i))
  }

  /** The whole trace is made like that. */
  ghost predicate Scheduled(trace: seq<Slice>, ps: seq<Process>, base: int) {
    forall t: nat :: t < |trace| ==> Follows(trace[..t], trace[t], ps, base)
  }

  ghost predicate Completed(ps: seq<Process>, loc: seq<Loc>, trace: seq<Slice>) {
    |loc| == |ps| && forall i: nat :: i < |ps| && loc[i] == Done ==> ps[i].ct == LastEnd(trace, i)
  }

  /** All queues, the first level first. */
  function Line(qs: seq<seq<nat>>): seq<nat>
    requires |qs| == LEVELS
  {
    qs[0] + qs[1] + qs[2]
  }

  function LastTurn(trace: seq<Slice>): int {
    if trace == [] then -1 else trace[|trace| - 1].turn
  }

  function LastOf(trace: seq<Slice>, n: nat): nat {
    if trace == [] then n else trace[|trace| - 1].i
  }

  /** Everyone in the queues has the next turn within one round of turn a of process i, in the order of the queues. */
  ghost predicate Round(q: seq<nat>, disp: seq<nat>, a: int, i: nat) {
    && InRange(q, |disp|)
    && (forall x: nat, y: nat :: x < y < |q| ==> Precedes(disp[q[x]], q[x], disp[q[y]], q[y]))
    && (forall x: nat :: x < |q| ==> Precedes(a, i, disp[q[x]], q[x]) && !Precedes(a + 1, i, disp[q[x]], q[x]))
  }

  ghost predicate InOrder(ps: seq<Process>, loc: seq<Loc>, disp: seq<nat>, qs: seq<seq<nat>>, trace: seq<Slice>,
                          now: int, base: int) {
    && |qs| == LEVELS && |disp| == |ps|
    && Scheduled(trace, ps, base) && Completed(ps, loc, trace)
    && (Line(qs) != [] ==> now == End(trace, base))
    && Round(Line(qs), disp, LastTurn(trace), LastOf(trace, |ps|))
  }

  lemma OrderStarts(ps: seq<Process>, loc: seq<Loc>, disp: seq<nat>, qs: seq<seq<nat>>, n: nat, now: int)
    requires n <= |ps| == |loc| == |disp| && |qs| == LEVELS && qs[1] == [] && qs[2] == []
    requires |qs[0]| == n && (forall x: nat :: x < n ==> qs[0][x] == x)
    requires forall i :: 0 <= i < |ps| ==> disp[i] == 0 && loc[i] != Done
    ensures InOrder(ps, loc, disp, qs, [], now, now)
  {
    assert Line(qs) == qs[0];
  }

  lemma OrderLater(ps: seq<Process>, loc: seq<Loc>, disp: seq<nat>, qs: seq<seq<nat>>, trace: seq<Slice>,
                   now: int, base: int, later: int)
    requires InOrder(ps, loc, disp, qs, trace, now, base) && qs[0] == [] && qs[1] == [] && qs[2] == []
    ensures InOrder(ps, loc, disp, qs, trace, later, base)
  {
    hide Scheduled, Completed, Round;
  }

  /** The head of the first queue that is not empty has turn disp[k]; it is the first of all. */
  lemma HeadOfLine(qs: seq<seq<nat>>, level: nat)
    requires |qs| == LEVELS && level < LEVELS && qs[level] != [] && forall m: nat :: m < level ==> qs[m] == []
    ensures Line(qs) != [] && Line(qs)[0] == qs[level][0]
    ensures Line(qs[level := qs[level][1..]]) == Line(qs)[1..]
  {
  }

  /** Where the process that was served is queued again. */
  lemma LineMoved(qs: seq<seq<nat>>, level: nat, x: Loc)
    requires |qs| == LEVELS && level < LEVELS && qs[level] != [] && forall m: nat :: m < level ==> qs[m] == []
    requires x in {Done, Lost, At(NextLevel(level))} && (level == 0 ==> qs[2] == [])
    ensures |Moved(qs, level, x)| == LEVELS
    ensures Line(Moved(qs, level, x)) == if x.At? then Line(qs)[1..] + [qs[level][0]] else Line(qs)[1..]
  {
    HeadOfLine(qs, level);
    var popped := qs[level := qs[level][1..]];
    if x.At? {
      assert popped[2] == [] || x.level == 2;
    }
  }

  lemma RoundGoesOn(q: seq<nat>, disp: seq<nat>, a: int, i: nat)
    requires Round(q, disp, a, i) && q != [] && NoRepeats(q)
    ensures var k := q[0];
            var disp' := disp[k := disp[k] + 1];
            && Round(q[1..], disp', disp[k], k) && Round(q[1..] + [k], disp', disp[k], k)
            && Precedes(a, i, disp[k], k)
  {
  }

  lemma ScheduledMore(trace: seq<Slice>, x: Slice, ps: seq<Process>, ps': seq<Process>, base: int)
    requires Scheduled(trace, ps, base) && Follows(trace, x, ps, base) && SameJobs(ps, ps')
    ensures Scheduled(trace + [x], ps', base)
  {
    hide Follows, SameJobs;
    var trace' := trace + [x];
    forall t: nat | t < |trace'|
      ensures Follows(trace'[..t], trace'[t], ps', base)
    {
      if t < |trace| {
        assert trace'[..t] == trace[..t];
        FollowsSame(trace[..t], trace[t], ps, ps', base);
      } else {
        assert trace'[..t] == trace;
        FollowsSame(trace, x, ps, ps', base);
      }
    }
  }

  lemma FollowsSame(trace: seq<Slice>, x: Slice, ps: seq<Process>, ps': seq<Process>, base: int)
    requires Follows(trace, x, ps, base) && SameJobs(ps, ps')
    ensures Follows(trace, x, ps', base)
  {
  }

  lemma CompletedMore(ps: seq<Process>, loc: seq<Loc>, trace: seq<Slice>, x: Slice, p: Process, l: Loc)
    requires Completed(ps, loc, trace) && x.i < |ps| && loc[x.i] != Done && (l == Done ==> p.ct == x.upto)
    ensures Completed(ps[x.i := p], loc[x.i := l], trace + [x])
  {
    assert (trace + [x])[..|trace|] == trace;
  }

  /** The head of the queues takes the next turn, for as long as that lasts. */
  lemma NextTurn(ps: seq<Process>, loc: seq<Loc>, disp: seq<nat>, qs: seq<seq<nat>>, trace: seq<Slice>,
                 now: int, base: int, level: nat, k: nat)
    requires InOrder(ps, loc, disp, qs, trace, now, base) && Counted(trace, disp)
    requires ProcessesOk(ps, loc, disp, now) && AllHold(qs, loc) && level < LEVELS && qs[level] != []
    requires k == qs[level][0] && (forall m: nat :: m < level ==> qs[m] == [])
    ensures |qs| == LEVELS && k < |ps| == |loc| == |disp| && loc[k] == At(level)
    ensures NoRepeats(Line(qs)) && (level == 0 ==> qs[2] == [])
    ensures Length(ps[k].bt, disp[k]) == if ps[k].remain <= Quantum(level) then ps[k].remain else Quantum(level)
    ensures Times(trace, k) == disp[k] && Line(qs) != [] && Line(qs)[0] == k
  {
    HeadAt(ps, loc, disp, qs, now, level);
    HeadOfLine(qs, level);
    NoOneTwice(qs, loc);
    RoundSpan(Line(qs), disp, LastTurn(trace), LastOf(trace, |ps|));
    if qs[2] != [] {
      HeadAt(ps, loc, disp, qs, now, 2);
      assert qs[2][0] in Line(qs);
    }
    hide ProcessesOk, AllHold, Round, Scheduled, Completed, Line, Times;
  }

  lemma HeadAt(ps: seq<Process>, loc: seq<Loc>, disp: seq<nat>, qs: seq<seq<nat>>, now: int, level: nat)
    requires ProcessesOk(ps, loc, disp, now) && AllHold(qs, loc) && level < LEVELS && qs[level] != []
    ensures var k := qs[level][0];
            k < |ps| == |loc| == |disp| && loc[k] == At(level) && ProcessOk(ps[k], At(level), disp[k], now)
  {
    IsAt(qs[level], loc, level);
    hide Holds, ProcessOk;
  }

  lemma RoundSpan(q: seq<nat>, disp: seq<nat>, a: int, i: nat)
    requires Round(q, disp, a, i) && q != []
    ensures forall j :: j in q ==> j < |disp| && disp[j] <= disp[q[0]] + 1
  {
    forall j | j in q
      ensures j < |disp| && disp[j] <= disp[q[0]] + 1
    {
      var x: nat :| x < |q| && q[x] == j;
    }
  }

  lemma NoOneTwice(qs: seq<seq<nat>>, loc: seq<Loc>)
    requires AllHold(qs, loc)
    ensures NoRepeats(Line(qs))
  {
    var q := Line(qs);
    forall x, y | 0 <= x < y < |q|
      ensures q[x] != q[y]
    {
      var a, b := |qs[0]|, |qs[0]| + |qs[1]|;
      var lx := if x < a then 0 else if x < b then 1 else 2;
      var ly := if y < a then 0 else if y < b then 1 else 2;
      var x', y' := if lx == 0 then x else if lx == 1 then x - a else x - b,
                    if ly == 0 then y else if ly == 1 then y - a else y - b;
      assert q[x] == qs[lx][x'] && q[y] == qs[ly][y'];
      assert Holds(qs[lx], loc, lx) && Holds(qs[ly], loc, ly);
      assert q[x] in qs[lx] && q[y] in qs[ly];
    }
  }

  /** A dispatch keeps the order. */
  lemma OrderStep(ps: seq<Process>, loc: seq<Loc>, disp: seq<nat>, qs: seq<seq<nat>>, trace: seq<Slice>,
                  now: int, base: int, level: nat, k: nat, p: Process, x: Loc, upto: int)
    requires InOrder(ps, loc, disp, qs, trace, now, base) && Counted(trace, disp)
    requires ProcessesOk(ps, loc, disp, now) && AllHold(qs, loc) && level < LEVELS && qs[level] != []
    requires k == qs[level][0] && (forall m: nat :: m < level ==> qs[m] == [])
    requires k < |ps| == |loc| == |disp| && SameJobs(ps, ps[k := p])
    requires upto == Start(ps[k], now) + if ps[k].remain <= Quantum(level) then ps[k].remain else Quantum(level)
    requires x in {Done, Lost, At(NextLevel(level))} && (x == Done ==> p.ct == upto)
    ensures InOrder(ps[k := p], loc[k := x], disp[k := disp[k] + 1], Moved(qs, level, x),
                    trace + [Slice(k, disp[k], Start(ps[k], now), upto)], upto, base)
  {
    hide *;
    var s := Slice(k, disp[k], Start(ps[k], now), upto);
    NextTurn(ps, loc, disp, qs, trace, now, base, level, k);
    LineMoved(qs, level, x);
    OrderNext(ps, loc, disp, qs, Moved(qs, level, x), trace, s, p, x, now, base);
  }

  /** Slice s of the first process in the queues is next, and then the process is last in the queues or gone. */
  lemma OrderNext(ps: seq<Process>, loc: seq<Loc>, disp: seq<nat>, qs: seq<seq<nat>>, qs': seq<seq<nat>>,
                  trace: seq<Slice>, s: Slice, p: Process, x: Loc, now: int, base: int)
    requires InOrder(ps, loc, disp, qs, trace, now, base) && Line(qs) != [] && NoRepeats(Line(qs)) && |qs'| == LEVELS
    requires s.i == Line(qs)[0] && (Line(qs') == Line(qs)[1..] || Line(qs') == Line(qs)[1..] + [s.i])
    requires s.i < |ps| == |loc| == |disp| && loc[s.i] != Done && SameJobs(ps, ps[s.i := p])
    requires x == Done ==> p.ct == s.upto
    requires s.turn == disp[s.i] == Times(trace, s.i) && s.from == Start(ps[s.i], now)
    requires s.upto == s.from + Length(ps[s.i].bt, s.turn)
    ensures InOrder(ps[s.i := p], loc[s.i := x], disp[s.i := disp[s.i] + 1], qs', trace + [s], s.upto, base)
  {
    hide Scheduled, Completed, Times, Length, SameJobs, Follows, Line, Round, NoRepeats, Precedes;
    hide LastTurn, LastOf, End;
    RoundGoesOn(Line(qs), disp, LastTurn(trace), LastOf(trace, |ps|));
    NextFollows(ps, disp, trace, now, base, s);
    ScheduledMore(trace, s, ps, ps[s.i := p], base);
    CompletedMore(ps, loc, trace, s, p, x);
    LastIs(trace, s, base, |ps|);
  }

  lemma NextFollows(ps: seq<Process>, disp: seq<nat>, trace: seq<Slice>, now: int, base: int, s: Slice)
    requires s.i < |ps| == |disp| && s.turn == disp[s.i] == Times(trace, s.i) && now == End(trace, base)
    requires s.from == Start(ps[s.i], now) && s.upto == s.from + Length(ps[s.i].bt, s.turn)
    requires Precedes(LastTurn(trace), LastOf(trace, |ps|), s.turn, s.i)
    ensures Follows(trace, s, ps, base)
  {
    hide Times, Length;
  }

  lemma LastIs(trace: seq<Slice>, x: Slice, base: int, n: nat)
    ensures LastTurn(trace + [x]) == x.turn && LastOf(trace + [x], n) == x.i && End(trace + [x], base) == x.upto
  {
    assert (trace + [x])[|trace + [x]| - 1] == x;
  }
}
