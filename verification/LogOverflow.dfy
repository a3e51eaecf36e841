/**
  Runs that fill the log: process 0 keeps an operation open, process 1 does one operation of one block after the
  other as long as begin_op lets it, and then both log all they may.
 */
module LogOverflow {
  import opened Common
  import opened RedoLog
  import opened LogMachine

  lemma Extend(g: Geometry, s: State, step: Step)
    requires Reachable(g, s) && Enabled(g, s, step)
    ensures Reachable(g, Do(g, s, step))
  {
    hide Enabled, Do, Init;
    var states: seq<State>, steps: seq<Step> :| IsRun(g, states, steps) && states[|steps|] == s;
    var states' := states + [Do(g, s, step)];
    var steps' := steps + [step];
    assert IsRun(g, states', steps') && states'[|steps'|] == Do(g, s, step);
  }

  /**
    A configuration in which two operations can run at once and log something, with room for n blocks in the cache and
    behind the log.
   */
  ghost predicate Roomy(g: Geometry, n: nat) {
    && g.Valid() && 1 <= g.budget && 2 * g.maxOp <= g.logSize && 2 <= g.nproc && 1 <= g.held
    && 1 <= n <= g.nbuf && g.start + g.size + n <= g.nblocks
  }

  /** The most blocks a transaction gets to: two operations are open when the last one begins, each logs all it may. */
  function Peak(g: Geometry): int {
    g.logSize - 2 * (g.maxOp - g.budget)
  }

  // ---------------------------------------------------------------- boot

  function Blank(g: Geometry): State {
    var disk := seq(g.nblocks, _ => seq(g.words, _ => 0));
    State(disk, seq(g.nbuf, _ => EmptyBuf), [], 0, BootRead(0), seq(g.nproc, _ => Idle), {}, false, false, disk, disk,
          disk, [], 0, 0)
  }

  lemma BlankStarts(g: Geometry)
    requires g.Valid()
    ensures Reachable(g, Blank(g))
  {
    var s := Blank(g);
    assert HeadOf(g, s.disk) == [];
    assert LegalImage(g, s.disk);
    assert BootsTo(g, s.disk, s.durable);
    var steps: seq<Step> := [];
    assert IsRun(g, [s], steps) && [s][|steps|] == s;
  }

  /** A buffer no process holds or waits for. */
  predicate Untaken(u: Buf) {
    u.holder.None? && u.waiting == {}
  }

  /** A buffer nobody uses, and that holds no block but the log header. */
  predicate Spare(g: Geometry, u: Buf) {
    u.refcnt == 0 && Untaken(u) && (u.dev != ROOTDEV || u.bno == g.start)
  }

  lemma {:induction false} NobodyTakes(bufs: seq<Buf>, t: nat)
    requires forall i :: 0 <= i < |bufs| ==> Untaken(bufs[i])
    ensures Takes(bufs, t) == 0
  {
    if bufs != [] {
      NobodyTakes(bufs[..|bufs| - 1], t);
    }
  }

  /** bread of an uncached block by process t into an unused buffer. */
  function Fetched(s: State, i: nat, b: nat, t: nat): State
    requires i < |s.bufs| && b < |s.disk|
  {
    s.(bufs := s.bufs[i := Buf(ROOTDEV, b, true, 1, Some(t), {}, s.disk[b])])
  }

  lemma Fetch(g: Geometry, s: State, i: nat, b: nat, t: nat)
    requires Reachable(g, s) && !s.panicked && !s.starved && CanMiss(g, s, t, i, b) && Untaken(s.bufs[i])
    requires b < |s.disk|
    ensures Reachable(g, Fetched(s, i, b, t))
  {
    hide Reachable, Takes, Absent;
    Extend(g, s, MissStep(t, i, b));
    var s1 := Miss(g, s, t, i, b);
    Extend(g, s1, LockStep(t, i));
    var s2 := Lock(s1, t, i);
    Extend(g, s2, FillStep(t, i));
    assert Fill(s2, t, i) == Fetched(s, i, b, t);
  }

  /** What boot leaves: an empty log, nobody running, one unused buffer with the header block, the others never used. */
  ghost predicate Up(g: Geometry, s: State) {
    && Reachable(g, s) && !s.panicked && !s.starved && s.phase.Running? && s.lh == [] && s.asleep == {}
    && |s.disk| == g.nblocks && |s.bufs| == g.nbuf && |s.ops| == g.nproc
    && forall i :: 0 <= i < |s.bufs| ==> Spare(g, s.bufs[i])
  }

  lemma Boot(g: Geometry) returns (s: State)
    requires g.Valid() && 1 <= g.nbuf && 1 <= g.nproc && 1 <= g.held
    ensures Up(g, s) && s.outstanding == 0 && forall t :: 0 <= t < |s.ops| ==> s.ops[t].Idle?
  {
    hide Reachable, Takes;
    BlankStarts(g);
    s := Blank(g);
    NobodyTakes(s.bufs, 0);
    Fetch(g, s, 0, g.start, 0);
    s := Fetched(s, 0, g.start, 0);
    assert HeadOf(g, s.disk) == [];
    Extend(g, s, ReadHeadStep(0));
    s := ReadHead(g, s, 0);
    Extend(g, s, BootClearStep(0));
    s := BootClear(g, s, 0);
    Extend(g, s, ReleaseStep(0, 0));
    s := Release(s, 0, 0);
  }

  // ---------------------------------------------------------------- filling the log

  /** Block number j of those that get logged. */
  function Home(g: Geometry, j: nat): nat {
    g.start + g.size + j
  }

  /** A buffer with block b in it, pinned by the log and otherwise unused. */
  predicate Pinned(u: Buf, b: nat) {
    u.Has(b) && u.valid && u.refcnt == 1 && Untaken(u)
  }

  /** n blocks are logged and pinned, each in the buffer of its number. */
  ghost predicate Filled(g: Geometry, s: State, n: nat) {
    && Reachable(g, s) && !s.panicked && !s.starved && s.phase.Running? && s.asleep == {}
    && |s.disk| == g.nblocks && |s.bufs| == g.nbuf && |s.ops| == g.nproc && n <= |s.bufs|
    && s.lh == seq(n, j requires 0 <= j < n => Home(g, j))
    && (forall i :: 0 <= i < n ==> Pinned(s.bufs[i], Home(g, i)))
    && (forall i :: n <= i < |s.bufs| ==> Spare(g, s.bufs[i]))
  }

  /** An operation that has logged `logged` and has nothing left to log. */
  predicate Open(op: Op, logged: set<nat>) {
    op.InOp? && op.logged == logged && op.unlogged == {}
  }

  lemma FilledAsks(g: Geometry, s: State, n: nat, t: nat)
    requires Filled(g, s, n) && Roomy(g, 1) && t < 2
    ensures CanAsk(g, s, t)
  {
    NobodyTakes(s.bufs, t);
  }

  lemma NextIsAbsent(g: Geometry, s: State, n: nat)
    requires Filled(g, s, n) && g.Valid()
    ensures Absent(s.bufs, Home(g, n)) && Home(g, n) !in s.lh
  {
  }

  /** Process t holds the next block. */
  lemma Next(g: Geometry, s: State, n: nat, t: nat) returns (s': State)
    requires Filled(g, s, n) && Roomy(g, n + 1) && t < 2
    ensures Reachable(g, s') && s' == Fetched(s, n, Home(g, n), t)
  {
    hide Reachable, Takes, Absent;
    FilledAsks(g, s, n, t);
    NextIsAbsent(g, s, n);
    Fetch(g, s, n, Home(g, n), t);
    s' := Fetched(s, n, Home(g, n), t);
  }

  /** Process t logs one more block. */
  lemma LogOne(g: Geometry, s: State, n: nat, t: nat, logged: set<nat>) returns (s': State)
    requires Filled(g, s, n) && Roomy(g, n + 1) && n < g.Capacity() && t < 2 && s.outstanding >= 1
    requires Open(s.ops[t], logged) && |logged + {Home(g, n)}| <= g.budget
    ensures Filled(g, s', n + 1) && s'.outstanding == s.outstanding
    ensures s'.ops == s.ops[t := s.ops[t].(logged := logged + {Home(g, n)}, unlogged := {})]
  {
    hide Reachable, Takes, Absent;
    s' := Next(g, s, n, t);
    NextIsAbsent(g, s, n);
    Extend(g, s', LogWriteStep(t, n));
    s' := LogWrite(g, s', t, n);
    assert {} - {Home(g, n)} == {};
    Extend(g, s', ReleaseStep(t, n));
    s' := Release(s', t, n);
    assert s.bufs[n := s'.bufs[n]] == s'.bufs;
  }

  /** Process 0 is in an operation that has logged nothing, and alone. */
  ghost predicate Alone(g: Geometry, s: State, n: nat) {
    && Filled(g, s, n) && s.outstanding == 1 && 2 <= |s.ops| && Open(s.ops[0], {})
    && forall t :: 1 <= t < |s.ops| ==> s.ops[t].Idle?
  }

  /** One short operation of process 1. */
  lemma ShortOp(g: Geometry, s: State, n: nat) returns (s': State)
    requires Alone(g, s, n) && Roomy(g, n + 1) && n < g.Capacity() && n + 2 * g.maxOp <= g.logSize
    ensures Alone(g, s', n + 1)
  {
    hide Reachable;
    s' := Second(g, s, n);
    s' := LogOne(g, s', n, 1, {});
    Extend(g, s', EndStep(1));
    s' := End(s', 1);
  }

  /** Process 1 begins beside process 0. */
  lemma Second(g: Geometry, s: State, n: nat) returns (s': State)
    requires Alone(g, s, n) && Roomy(g, 1) && n + 2 * g.maxOp <= g.logSize
    ensures Filled(g, s', n) && s'.outstanding == 2 && |s'.ops| == g.nproc
    ensures Open(s'.ops[0], {}) && Open(s'.ops[1], {}) && forall t :: 2 <= t < |s'.ops| ==> s'.ops[t].Idle?
  {
    hide Reachable;
    Extend(g, s, BeginStep(1));
    s' := Begin(g, s, 1);
  }

  lemma {:induction false} ShortOps(g: Geometry, n: nat) returns (s: State)
    requires Roomy(g, if n == 0 then 1 else n) && n <= g.Capacity() && n + 2 * g.maxOp <= g.logSize
    ensures Alone(g, s, n)
  {
    hide Reachable;
    if n == 0 {
      s := Boot(g);
      Extend(g, s, BeginStep(0));
      s := Begin(g, s, 0);
    } else {
      s := ShortOps(g, n - 1);
      s := ShortOp(g, s, n - 1);
    }
  }

  /** The blocks numbered from lo up to hi. */
  function Homes(g: Geometry, lo: nat, hi: nat): set<nat>
    requires lo <= hi
  {
    if lo == hi then {} else Homes(g, lo, hi - 1) + {Home(g, hi - 1)}
  }

  lemma {:induction false} HomesSize(g: Geometry, lo: nat, hi: nat)
    requires lo <= hi
    ensures |Homes(g, lo, hi)| == hi - lo && forall b :: b in Homes(g, lo, hi) <==> Home(g, lo) <= b < Home(g, hi)
  {
    if lo < hi {
      HomesSize(g, lo, hi - 1);
    }
  }

  /** Both processes are in an operation; after n0 blocks process 1 has logged up to n1 and process 0 the rest. */
  ghost predicate Both(g: Geometry, s: State, n0: nat, n1: nat, n: nat) {
    && n0 <= n1 <= n && Filled(g, s, n) && s.outstanding == 2 && 2 <= |s.ops|
    && Open(s.ops[1], Homes(g, n0, n1)) && Open(s.ops[0], Homes(g, n1, n))
  }

  /** The last two operations log up to their budgets, process 1 first. */
  lemma {:induction false} LogBoth(g: Geometry, n0: nat, n: nat) returns (s: State, n1: nat)
    requires n0 <= n <= n0 + 2 * g.budget && n0 + 2 * g.maxOp <= g.logSize
    requires Roomy(g, if n == 0 then 1 else n) && n <= g.Capacity()
    ensures Both(g, s, n0, n1, n) && n1 - n0 <= g.budget && n - n1 <= g.budget && (n1 < n ==> n1 == n0 + g.budget)
    decreases n
  {
    hide Filled;
    if n == n0 {
      s := ShortOps(g, n);
      s := Second(g, s, n);
      n1 := n;
    } else {
      s, n1 := LogBoth(g, n0, n - 1);
      if n1 == n - 1 < n0 + g.budget {
        s := FirstLogs(g, s, n0, n - 1);
        n1 := n;
      } else {
        s := OtherLogs(g, s, n0, n1, n - 1);
      }
    }
  }

  lemma FirstLogs(g: Geometry, s: State, n0: nat, n: nat) returns (s': State)
    requires Both(g, s, n0, n, n) && Roomy(g, n + 1) && n < g.Capacity() && n + 1 - n0 <= g.budget
    ensures Both(g, s', n0, n + 1, n + 1)
  {
    hide Filled;
    HomesSize(g, n0, n + 1);
    s' := LogOne(g, s, n, 1, Homes(g, n0, n));
  }

  lemma OtherLogs(g: Geometry, s: State, n0: nat, n1: nat, n: nat) returns (s': State)
    requires Both(g, s, n0, n1, n) && Roomy(g, n + 1) && n < g.Capacity() && n + 1 - n1 <= g.budget
    ensures Both(g, s', n0, n1, n + 1)
  {
    hide Filled;
    HomesSize(g, n1, n + 1);
    s' := LogOne(g, s, n, 0, Homes(g, n1, n));
  }

  /** Any number of blocks up to the peak and the capacity can be logged at once, with process t able to log Home(j). */
  lemma FillUp(g: Geometry, n: nat) returns (s: State, t: nat, j: nat)
    requires Roomy(g, if n == 0 then 1 else n) && n <= Peak(g) && n <= g.Capacity()
    ensures Filled(g, s, n) && s.outstanding >= 1 && t < 2 && s.ops[t].InOp? && s.ops[t].unlogged == {}
    ensures if n == 0 then j == 0 else j < n
    ensures |s.ops[t].logged + {Home(g, j)}| <= g.budget
  {
    if n + 2 * g.maxOp <= g.logSize {
      s := ShortOps(g, n);
      t, j := 0, if n == 0 then 0 else n - 1;
      assert {} + {Home(g, j)} == {Home(g, j)};
    } else {
      var n0, n1 := g.logSize - 2 * g.maxOp, 0;
      s, n1 := LogBoth(g, n0, n);
      HomesSize(g, n0, n1);
      t, j := 1, n0;
      assert Home(g, n0) in Homes(g, n0, n1);
      assert Homes(g, n0, n1) + {Home(g, n0)} == Homes(g, n0, n1);
    }
  }

  // ---------------------------------------------------------------- the panic

  /** log_write is refused at a full log, be it to a block that is already in it. */
  lemma Refused(g: Geometry, s: State, n: nat, t: nat, j: nat) returns (s': State)
    requires Filled(g, s, n) && n == g.Capacity() && n > 0 && Roomy(g, n)
    requires t < 2 && s.ops[t].InOp? && j < n && |s.ops[t].logged + {Home(g, j)}| <= g.budget
    ensures Reachable(g, s') && CanLogWrite(g, s', t, j) && s'.bufs[j].bno in s'.lh && |s'.lh| == n
    ensures !s'.panicked && !s'.starved
  {
    hide Reachable, Takes;
    FilledAsks(g, s, n, t);
    Extend(g, s, HitStep(t, j));
    s' := Hit(g, s, t, j);
    Extend(g, s', LockStep(t, j));
    s' := Lock(s', t, j);
    assert s'.lh[j] == Home(g, j);
  }

  /** If the peak reaches the capacity, log_write panics in some run. */
  lemma FullLogPanics(g: Geometry) returns (s: State)
    requires g.Valid() && Roomy(g, if g.Capacity() == 0 then 1 else g.Capacity()) && Peak(g) >= g.Capacity()
    ensures Reachable(g, s) && s.panicked
  {
    hide Reachable, Takes;
    var n, t, j := g.Capacity(), 0, 0;
    s, t, j := FillUp(g, n);
    if n == 0 {
      s := Next(g, s, 0, t);
    } else {
      s := Refused(g, s, n, t, j);
    }
    Extend(g, s, LogWriteStep(t, j));
    s := LogWrite(g, s, t, j);
  }

  /** Operations may not count on what begin_op reserved: with log area to spare, a logged block is refused. */
  lemma FullLogRefusesAbsorption(g: Geometry) returns (s: State, t: nat, i: nat)
    requires g.Valid() && g.logSize > 0 && Roomy(g, g.logSize) && g.logSize <= g.size - 1 && g.budget == g.maxOp
    ensures Reachable(g, s) && CanLogWrite(g, s, t, i) && s.bufs[i].bno in s.lh && LogWrite(g, s, t, i).panicked
  {
    s, t, i := FillUp(g, g.logSize);
    s := Refused(g, s, g.logSize, t, i);
  }

  /**
    xv6 as it is built: LOGSIZE 30, MAXOPBLOCKS 10, NBUF 30, 64 processes, 2000 blocks with 30 log blocks from block
    2 on, and processes that hold up to two buffers, as bmap does with an indirect block and the bitmap.
   */
  function Stock(): Geometry {
    Geometry(2000, 256, 2, 30, 30, 10, 10, 30, 64, 2)
  }

  /** Operations within what begin_op reserved for them make it panic. */
  lemma MkfsLogIsOneShort() returns (s: State)
    ensures Stock().Valid() && Reachable(Stock(), s) && s.panicked
  {
    s := FullLogPanics(Stock());
  }
}
