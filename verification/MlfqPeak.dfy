/**
  How full the last queue of the MLFQ simulator gets: round robin over processes that need es[i] turns there.
  The queue starts over at index 0 only when it becomes empty, so what counts are the enqueues before that.
 */
module MlfqPeak {

  function Min(a: nat, b: nat): nat {
    if a < b then a else b
  }

  function Sum(s: seq<nat>): nat {
    if s == [] then 0 else Sum(s[..|s| - 1]) + s[|s| - 1]
  }

  lemma {:induction false} SumUpdate(s: seq<nat>, i: nat, v: nat)
    requires i < |s|
    ensures Sum(s[i := v]) == Sum(s) - s[i] + v
  {
    var n := |s| - 1;
    if i == n {
      assert s[i := v][..n] == s[..n];
    } else {
      assert s[i := v][..n] == s[..n][i := v];
      SumUpdate(s[..n], i, v);
    }
  }

  lemma {:induction false} SumMonotone(s: seq<nat>, t: seq<nat>)
    requires |s| == |t| && forall i :: 0 <= i < |s| ==> s[i] <= t[i]
    ensures Sum(s) <= Sum(t)
  {
    if s != [] {
      SumMonotone(s[..|s| - 1], t[..|s| - 1]);
    }
  }

  // ---------------------------------------------------------------- the closed form

  /** The last of the processes that need the most turns: the one that ends up alone. */
  function Survivor(es: seq<nat>, k: nat): (m: nat)
    requires 0 < k <= |es|
    ensures m < k
  {
    if k == 1 then 0
    else
      var m := Survivor(es, k - 1);
      if es[k - 1] >= es[m] then k - 1 else m
  }

  lemma {:induction false} SurvivorIsMost(es: seq<nat>, k: nat, i: nat)
    requires 0 < k <= |es| && i < k
    ensures es[i] <= es[Survivor(es, k)] && (i > Survivor(es, k) ==> es[i] < es[Survivor(es, k)])
  {
    if k > 1 && i < k - 1 {
      SurvivorIsMost(es, k - 1, i);
    } else if k > 1 {
      SurvivorIsMost(es, k - 1, Survivor(es, k - 1));
    }
  }

  /**
    The round in which process m finds itself alone: those before it had to finish by then, those after it a round
    earlier.
   */
  function LastRound(es: seq<nat>, m: nat, k: nat): (r: nat)
    requires k <= |es|
    ensures r >= 1
  {
    if k == 0 then 1
    else
      var r := LastRound(es, m, k - 1);
      var x := if k - 1 < m then es[k - 1] else if k - 1 > m then es[k - 1] + 1 else 1;
      if x > r then x else r
  }

  /** Processes other than m are done when m is dispatched in round r. */
  ghost predicate AloneBy(es: seq<nat>, m: nat, k: nat, r: nat)
    requires k <= |es|
  {
    r >= 1 && forall i: nat :: i < k ==> (i < m ==> es[i] <= r) && (i > m ==> es[i] < r)
  }

  lemma {:induction false} LastRoundIs(es: seq<nat>, m: nat, k: nat, r: nat)
    requires k <= |es|
    ensures LastRound(es, m, k) <= r <==> AloneBy(es, m, k, r)
  {
    if k > 0 {
      LastRoundIs(es, m, k - 1, r);
    }
  }

  /** Enqueues before the queue first becomes empty: all turns, except that the survivor counts up to its last round. */
  function Peak(es: seq<nat>): nat {
    if es == [] then 0
    else
      var m := Survivor(es, |es|);
      if es[m] == 0 then 0 else Sum(es[m := LastRound(es, m, |es|)])
  }

  // ---------------------------------------------------------------- round robin

  /** The positions in [lo, hi) with value at least t, in order. */
  function Filter(v: seq<nat>, lo: nat, hi: nat, t: nat): seq<nat>
    requires lo <= hi <= |v|
    decreases hi - lo
  {
    if lo == hi then [] else (if v[lo] >= t then [lo] else []) + Filter(v, lo + 1, hi, t)
  }

  lemma {:induction false} FilterSnoc(v: seq<nat>, lo: nat, hi: nat, t: nat)
    requires lo <= hi < |v|
    ensures Filter(v, lo, hi + 1, t) == Filter(v, lo, hi, t) + (if v[hi] >= t then [hi] else [])
    decreases hi - lo
  {
    if lo < hi {
      FilterSnoc(v, lo + 1, hi, t);
    } else {
      assert Filter(v, lo + 1, hi + 1, t) == [];
    }
  }

  lemma {:induction false} FilterNone(v: seq<nat>, lo: nat, hi: nat, t: nat)
    requires lo <= hi <= |v|
    ensures Filter(v, lo, hi, t) == [] <==> forall i :: lo <= i < hi ==> v[i] < t
    decreases hi - lo
  {
    if lo < hi {
      FilterNone(v, lo + 1, hi, t);
    }
  }

  /** The first position that passes, and what follows it. */
  lemma {:induction false} FilterFirst(v: seq<nat>, lo: nat, hi: nat, t: nat)
    requires lo <= hi <= |v| && Filter(v, lo, hi, t) != []
    ensures var j := Filter(v, lo, hi, t)[0];
            && lo <= j < hi && v[j] >= t && (forall i :: lo <= i < j ==> v[i] < t)
            && Filter(v, lo, hi, t)[1..] == Filter(v, j + 1, hi, t)
    decreases hi - lo
  {
    if v[lo] < t {
      FilterFirst(v, lo + 1, hi, t);
    }
  }

  /** Positions that do not pass add nothing. */
  lemma {:induction false} FilterSkips(v: seq<nat>, lo: nat, mid: nat, hi: nat, t: nat)
    requires lo <= mid <= hi <= |v| && forall i :: mid <= i < hi ==> v[i] < t
    ensures Filter(v, lo, hi, t) == Filter(v, lo, mid, t)
    decreases hi - mid
  {
    if mid < hi {
      FilterSkips(v, lo, mid, hi - 1, t);
      FilterSnoc(v, lo, hi - 1, t);
    }
  }

  lemma {:induction false} FilterShort(v: seq<nat>, lo: nat, hi: nat, t: nat)
    requires lo <= hi <= |v|
    ensures |Filter(v, lo, hi, t)| <= hi - lo
    ensures forall x :: x in Filter(v, lo, hi, t) ==> lo <= x < hi && v[x] >= t
    decreases hi - lo
  {
    if lo < hi {
      FilterShort(v, lo + 1, hi, t);
    }
  }

  /** In round r, with the processes before pos dispatched: who is waiting, in order. */
  function Waiting(es: seq<nat>, r: nat, pos: nat): seq<nat>
    requires pos <= |es|
  {
    Filter(es, pos, |es|, r) + Filter(es, 0, pos, r + 1)
  }

  /** Enqueues of each process so far. */
  function Made(es: seq<nat>, r: nat, pos: nat): (s: seq<nat>)
    ensures |s| == |es|
  {
    seq(|es|, i requires 0 <= i < |es| => Min(es[i], if i < pos then r + 1 else r))
  }

  /** Someone before the end of the round is still to be dispatched in it. */
  ghost predicate Midway(es: seq<nat>, r: nat, pos: nat) {
    r >= 1 && pos <= |es| && Filter(es, pos, |es|, r) != []
  }

  /** A finished round is the start of the next. */
  lemma RoundEnds(es: seq<nat>, r: nat, pos: nat)
    requires pos <= |es| && Filter(es, pos, |es|, r) == []
    ensures Waiting(es, r, pos) == Waiting(es, r + 1, 0) && Made(es, r, pos) == Made(es, r + 1, 0)
  {
    FilterNone(es, pos, |es|, r);
    FilterSkips(es, 0, pos, |es|, r + 1);
    assert Filter(es, 0, 0, r + 2) == [];
  }

  /** The dispatch of the head j: it goes to the end if it has turns left. */
  lemma Dispatched(es: seq<nat>, r: nat, pos: nat)
    requires Midway(es, r, pos)
    ensures var q := Waiting(es, r, pos);
            && q != [] && pos <= q[0] < |es| && es[q[0]] >= r
            && Waiting(es, r, q[0] + 1) == q[1..] + (if es[q[0]] > r then [q[0]] else [])
            && Made(es, r, pos)[q[0]] == r && Made(es, r, q[0] + 1) == Made(es, r, pos)[q[0] := Min(es[q[0]], r + 1)]
  {
    FilterFirst(es, pos, |es|, r);
    var j := Filter(es, pos, |es|, r)[0];
    FilterSkips(es, 0, pos, j, r + 1);
    FilterSnoc(es, 0, j, r + 1);
    hide Filter;
  }

  /** The survivor has not been dispatched alone yet. */
  ghost predicate Before(es: seq<nat>, r: nat, pos: nat) {
    es != [] ==>
      var m := Survivor(es, |es|);
      r < LastRound(es, m, |es|) || (r == LastRound(es, m, |es|) && pos <= m)
  }

  /** What is known of the survivor. */
  lemma Survives(es: seq<nat>)
    requires es != []
    ensures var m := Survivor(es, |es|);
            && (forall i: nat :: i < |es| ==> es[i] <= es[m] && (i > m ==> es[i] < es[m]))
            && AloneBy(es, m, |es|, LastRound(es, m, |es|))
            && (es[m] > 0 ==> LastRound(es, m, |es|) <= es[m])
  {
    var m := Survivor(es, |es|);
    forall i: nat | i < |es|
      ensures es[i] <= es[m] && (i > m ==> es[i] < es[m])
    {
      SurvivorIsMost(es, |es|, i);
    }
    LastRoundIs(es, m, |es|, LastRound(es, m, |es|));
    LastRoundIs(es, m, |es|, es[m]);
  }

  /** A lone head is the survivor, in its last round, and the enqueues so far are the peak. */
  lemma LoneHead(es: seq<nat>, r: nat, pos: nat)
    requires Midway(es, r, pos) && Before(es, r, pos) && |Waiting(es, r, pos)| == 1
    ensures Sum(Made(es, r, pos)) == Peak(es)
  {
    Survives(es);
    FilterFirst(es, pos, |es|, r);
    var j := Filter(es, pos, |es|, r)[0];
    assert Filter(es, j + 1, |es|, r) == [] && Filter(es, 0, pos, r + 1) == [];
    FilterNone(es, j + 1, |es|, r);
    FilterNone(es, 0, pos, r + 1);
    var m := Survivor(es, |es|);
    hide Filter, Survivor, LastRound;
    assert j == m;
    LastRoundIs(es, m, |es|, r);
    assert Made(es, r, pos) == es[m := LastRound(es, m, |es|)];
  }

  /** When the survivor is dispatched in its last round, nobody else waits. */
  lemma SurvivorIsAlone(es: seq<nat>, pos: nat)
    requires es != [] && pos <= Survivor(es, |es|)
    requires Midway(es, LastRound(es, Survivor(es, |es|), |es|), pos)
    ensures var m, r := Survivor(es, |es|), LastRound(es, Survivor(es, |es|), |es|);
            Waiting(es, r, pos)[0] == m ==> |Waiting(es, r, pos)| == 1
  {
    Survives(es);
    var m, r := Survivor(es, |es|), LastRound(es, Survivor(es, |es|), |es|);
    FilterFirst(es, pos, |es|, r);
    FilterNone(es, m + 1, |es|, r);
    FilterNone(es, 0, pos, r + 1);
    hide Filter, Survivor, LastRound;
  }

  /**
    While others wait, a dispatch does not pass the survivor's last round, and one more enqueue stays within the
    peak.
   */
  lemma CrowdedHead(es: seq<nat>, r: nat, pos: nat)
    requires Midway(es, r, pos) && Before(es, r, pos) && |Waiting(es, r, pos)| > 1
    ensures var j := Waiting(es, r, pos)[0];
            Before(es, r, j + 1) && Sum(Made(es, r, j + 1)) <= Peak(es)
  {
    Survives(es);
    Dispatched(es, r, pos);
    var j, m := Waiting(es, r, pos)[0], Survivor(es, |es|);
    var last := LastRound(es, m, |es|);
    if r == last {
      SurvivorIsAlone(es, pos);
      FilterFirst(es, pos, |es|, r);
    }
    hide Filter, Survivor, LastRound, Waiting;
    SumMonotone(Made(es, r, j + 1), es[m := last]);
  }
}
