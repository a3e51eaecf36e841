/** When bget can panic for want of a buffer: in some run, or in none. */
module LogStarve {
  import opened Common
  import opened RedoLog
  import opened LogMachine
  import opened LogInvariant
  import opened LogSafety
  import opened LogTheorems
  import opened LogOverflow
  import opened LogSlack

  // ---------------------------------------------------------------- who has which buffer

  lemma {:induction false} TakesUpdate(bufs: seq<Buf>, i: nat, u: Buf, t: nat)
    requires i < |bufs|
    ensures Takes(bufs[i := u], t) == Takes(bufs, t) - TakesOne(bufs[i], t) + TakesOne(u, t)
  {
    var n := |bufs| - 1;
    if i == n {
      assert bufs[i := u][..n] == bufs[..n];
    } else {
      assert bufs[i := u][..n] == bufs[..n][i := u];
      TakesUpdate(bufs[..n], i, u, t);
    }
  }

  predicate Within(u: Buf, n: nat) {
    (u.holder.Some? ==> u.holder.value < n) && forall t :: t in u.waiting ==> t < n
  }

  /** Only processes have buffers, and each within its bound. */
  ghost predicate Modest(g: Geometry, bufs: seq<Buf>) {
    && (forall i :: 0 <= i < |bufs| ==> Within(bufs[i], g.nproc))
    && (forall t: nat :: t < g.nproc ==> Takes(bufs, t) <= g.held)
  }

  lemma ModestUpdate(g: Geometry, bufs: seq<Buf>, i: nat, u: Buf)
    requires Modest(g, bufs) && i < |bufs| && Within(u, g.nproc)
    requires forall t: nat :: t < g.nproc && Takes(bufs, t) == g.held ==> TakesOne(u, t) <= TakesOne(bufs[i], t)
    requires forall t: nat :: t < g.nproc ==> TakesOne(u, t) <= TakesOne(bufs[i], t) + 1
    ensures Modest(g, bufs[i := u])
  {
    var bufs' := bufs[i := u];
    forall t: nat | t < g.nproc
      ensures Takes(bufs', t) <= g.held
    {
      TakesUpdate(bufs, i, u, t);
    }
  }

  lemma EmptyIsModest(g: Geometry)
    ensures Modest(g, seq(g.nbuf, _ => EmptyBuf))
  {
    var bufs := seq(g.nbuf, _ => EmptyBuf);
    forall t: nat | t < g.nproc
      ensures Takes(bufs, t) == 0
    {
      NobodyTakes(bufs, t);
    }
  }

  /** The number of the buffer a step changes, if it changes one. */
  function ChangedBy(step: Step): nat {
    match step
    case HitStep(_, i) => i
    case MissStep(_, i, _) => i
    case LockStep(_, i) => i
    case FillStep(_, i) => i
    case ReleaseStep(_, i) => i
    case ModifyStep(_, i, _) => i
    case LogWriteStep(_, i) => i
    case CopyStep(i, _) => i
    case CommitHeadStep(i) => i
    case InstallStep(_, j) => j
    case ClearHeadStep(i) => i
    case ReplayStep(_, j) => j
    case BootClearStep(i) => i
    case _ => 0
  }

  /** The buffer a step changes, if any, and how. */
  lemma StepBufs(g: Geometry, s: State, step: Step) returns (i: nat, u: Buf)
    requires Enabled(g, s, step) && !step.CrashStep? && Modest(g, s.bufs)
    ensures var bufs' := Do(g, s, step).bufs;
            || bufs' == s.bufs
            || (&& i < |s.bufs| && bufs' == s.bufs[i := u] && Within(u, g.nproc)
                && (forall t: nat :: TakesOne(u, t) <= TakesOne(s.bufs[i], t)
                                     || (CanAsk(g, s, t) && TakesOne(u, t) == TakesOne(s.bufs[i], t) + 1)))
  {
    hide Takes, EncodeHead, DecodeHead, ReadableHead;
    i := ChangedBy(step);
    u := if i < |s.bufs| then Do(g, s, step).bufs[i] else EmptyBuf;
  }

  lemma StepModest(g: Geometry, s: State, step: Step)
    requires Enabled(g, s, step) && Modest(g, s.bufs)
    ensures Modest(g, Do(g, s, step).bufs)
  {
    if step.CrashStep? {
      EmptyIsModest(g);
    } else {
      var i, u := StepBufs(g, s, step);
      hide Do, Enabled;
      if Do(g, s, step).bufs != s.bufs {
        ModestUpdate(g, s.bufs, i, u);
      }
    }
  }

  lemma {:induction false} RunModest(g: Geometry, states: seq<State>, steps: seq<Step>, k: nat)
    requires IsRun(g, states, steps) && k < |states|
    ensures Modest(g, states[k].bufs)
  {
    hide Enabled, Do, Modest;
    if k == 0 {
      EmptyIsModest(g);
    } else {
      RunModest(g, states, steps, k - 1);
      StepModest(g, states[k - 1], steps[k - 1]);
    }
  }

  // ---------------------------------------------------------------- counting references twice

  /** What the first n processes hold or wait for. */
  function TakesAll(bufs: seq<Buf>, n: nat): nat {
    if n == 0 then 0 else TakesAll(bufs, n - 1) + Takes(bufs, n - 1)
  }

  function TakesAllOne(u: Buf, n: nat): nat {
    if n == 0 then 0 else TakesAllOne(u, n - 1) + TakesOne(u, n - 1)
  }

  lemma {:induction false} TakesAllSnoc(bufs: seq<Buf>, n: nat)
    requires bufs != []
    ensures TakesAll(bufs, n) == TakesAll(bufs[..|bufs| - 1], n) + TakesAllOne(bufs[|bufs| - 1], n)
  {
    if n > 0 {
      TakesAllSnoc(bufs, n - 1);
    }
  }

  lemma {:induction false} NoBufs(n: nat)
    ensures TakesAll([], n) == 0
  {
    if n > 0 {
      NoBufs(n - 1);
    }
  }

  /** The members of s below n, one by one. */
  function CountBelow(s: set<nat>, n: nat): nat {
    if n == 0 then 0 else CountBelow(s, n - 1) + if n - 1 in s then 1 else 0
  }

  lemma {:induction false} CountAll(s: set<nat>, n: nat)
    requires forall t :: t in s ==> t < n
    ensures |s| == CountBelow(s, n)
  {
    if n == 0 {
      assert s == {};
    } else {
      CountAll(s - {n - 1}, n - 1);
      CountSame(s, s - {n - 1}, n - 1);
    }
  }

  lemma {:induction false} CountSame(s: set<nat>, s': set<nat>, n: nat)
    requires forall t: nat :: t < n ==> (t in s <==> t in s')
    ensures CountBelow(s, n) == CountBelow(s', n)
  {
    if n > 0 {
      CountSame(s, s', n - 1);
    }
  }

  lemma {:induction false} OneBuf(u: Buf, n: nat)
    ensures TakesAllOne(u, n) == CountBelow(u.waiting, n) + if u.holder.Some? && u.holder.value < n then 1 else 0
  {
    if n > 0 {
      OneBuf(u, n - 1);
    }
  }

  /** References by buffer and by process are the same references. */
  lemma {:induction false} RefsAreTakes(bufs: seq<Buf>, n: nat)
    requires forall i :: 0 <= i < |bufs| ==> Within(bufs[i], n)
    ensures TotalRefs(bufs) == TakesAll(bufs, n)
  {
    if bufs == [] {
      NoBufs(n);
    } else {
      var u := bufs[|bufs| - 1];
      RefsAreTakes(bufs[..|bufs| - 1], n);
      TakesAllSnoc(bufs, n);
      OneBuf(u, n);
      CountAll(u.waiting, n);
    }
  }

  lemma {:induction false} TakesBound(bufs: seq<Buf>, held: nat, n: nat, t: nat)
    requires forall x: nat :: x < n ==> Takes(bufs, x) <= held
    ensures TakesAll(bufs, n) <= n * held
    ensures t < n && Takes(bufs, t) < held ==> TakesAll(bufs, n) < n * held
  {
    if n > 0 {
      TakesBound(bufs, held, n - 1, t);
      assert n * held == (n - 1) * held + held;
    }
  }

  // ---------------------------------------------------------------- no run starves

  /** The most blocks the log can have pinned. */
  function MaxPins(g: Geometry): int {
    if Peak(g) < g.Capacity() then Peak(g) else g.Capacity()
  }

  lemma PinsFit(g: Geometry, s: State)
    requires Inv(g, s) && (!Booting(s.phase) ==> |s.lh| <= Peak(g)) && 2 * g.maxOp <= g.logSize
    ensures |Pins(s.phase, s.lh)| <= MaxPins(g)
  {
    hide CacheInv, DiskSpells, HistOk, Synced, OpsOk, Covered, OpsWhole, Unused, Active;
    if !Booting(s.phase) {
      SpareCovers(g, s);
    }
  }

  /** With a buffer for every pin and every reference there can be, bget finds one. */
  lemma StarveIsOut(g: Geometry, s: State, t: nat, b: nat)
    requires Inv(g, s) && Modest(g, s.bufs) && |Pins(s.phase, s.lh)| <= MaxPins(g) && CanAsk(g, s, t)
    requires g.nproc * g.held + MaxPins(g) <= g.nbuf
    ensures !CanStarve(g, s, t, b)
  {
    hide Takes, Pins, MaxPins;
    RefsAreTakes(s.bufs, g.nproc);
    TakesBound(s.bufs, g.held, g.nproc, t);
    SomeUnreferenced(s.bufs, Pins(s.phase, s.lh));
  }

  lemma {:induction false} EnoughBuffers(g: Geometry, states: seq<State>, steps: seq<Step>, k: nat)
    requires IsRun(g, states, steps) && k < |states| && 2 * g.maxOp <= g.logSize
    requires g.nproc * g.held + MaxPins(g) <= g.nbuf
    ensures !states[k].starved
  {
    hide Inv, Modest, MaxPins;
    if k > 0 {
      var s, step := states[k - 1], steps[k - 1];
      EnoughBuffers(g, states, steps, k - 1);
      RunKeeps(g, states, steps, k - 1);
      RunModest(g, states, steps, k - 1);
      RunPeak(g, states, steps, k - 1);
      PinsFit(g, s);
      if step.StarveStep? {
        StarveIsOut(g, s, step.t, step.b);
      }
      OnlyStarveStarves(g, s, step);
      assert states[k] == Do(g, s, step);
    }
  }

  lemma OnlyStarveStarves(g: Geometry, s: State, step: Step)
    requires Enabled(g, s, step)
    ensures Do(g, s, step).starved ==> s.starved || step.StarveStep?
  {
  }

  // ---------------------------------------------------------------- some run starves

  /** n blocks are pinned, r more buffers held: `held` of them by each process before t, and c by process t. */
  ghost predicate Taken(g: Geometry, s: State, n: nat, r: nat, t: nat, c: nat) {
    && Reachable(g, s) && !s.panicked && !s.starved
    && |s.disk| == g.nblocks && |s.bufs| == g.nbuf && n + r <= |s.bufs|
    && (forall i :: 0 <= i < n + r ==> s.bufs[i].Has(Home(g, i)) && s.bufs[i].refcnt > 0 && s.bufs[i].waiting == {})
    && (forall i :: n + r <= i < |s.bufs| ==> Spare(g, s.bufs[i]))
    && r == t * g.held + c && c < g.held
    && Takes(s.bufs, t) == c && forall u: nat :: u > t ==> Takes(s.bufs, u) == 0
  }

  lemma SomeoneLeft(g: Geometry, r: nat, t: nat, c: nat)
    requires r == t * g.held + c && r < g.nproc * g.held
    ensures t < g.nproc
  {
    if t >= g.nproc {
      AtLeast(t, g.nproc, g.held);
    }
  }

  lemma AtLeast(a: nat, b: nat, m: nat)
    requires a >= b
    ensures a * m >= b * m
  {
  }

  lemma TakeOne(g: Geometry, s: State, n: nat, r: nat, t: nat, c: nat) returns (s': State, t': nat, c': nat)
    requires Taken(g, s, n, r, t, c) && g.Valid() && n + r < g.nbuf && r < g.nproc * g.held
    requires g.start + g.size + g.nbuf < g.nblocks
    ensures Taken(g, s', n, r + 1, t', c')
  {
    hide Reachable, Takes;
    SomeoneLeft(g, r, t, c);
    var i := n + r;
    assert Absent(s.bufs, Home(g, i));
    Fetch(g, s, i, Home(g, i), t);
    s' := Fetched(s, i, Home(g, i), t);
    forall u: nat
      ensures Takes(s'.bufs, u) == Takes(s.bufs, u) + if u == t then 1 else 0
    {
      TakesUpdate(s.bufs, i, s'.bufs[i], u);
    }
    if c + 1 < g.held {
      t', c' := t, c + 1;
    } else {
      t', c' := t + 1, 0;
      assert t' * g.held == t * g.held + g.held;
    }
  }

  lemma NoneTaken(g: Geometry, n: nat) returns (s: State)
    requires Roomy(g, g.nbuf) && n <= MaxPins(g) && n <= g.nbuf
    ensures Taken(g, s, n, 0, 0, 0)
  {
    hide Takes;
    var t, j;
    s, t, j := FillUp(g, n);
    forall u: nat
      ensures Takes(s.bufs, u) == 0
    {
      NobodyTakes(s.bufs, u);
    }
  }

  lemma {:induction false} TakeAll(g: Geometry, n: nat, r: nat) returns (s: State, t: nat, c: nat)
    requires Roomy(g, g.nbuf) && g.start + g.size + g.nbuf < g.nblocks && n <= MaxPins(g) && n + r <= g.nbuf
    requires r <= g.nproc * g.held
    ensures Taken(g, s, n, r, t, c)
  {
    hide Taken;
    if r == 0 {
      s := NoneTaken(g, n);
      t, c := 0, 0;
    } else {
      s, t, c := TakeAll(g, n, r - 1);
      s, t, c := TakeOne(g, s, n, r - 1, t, c);
    }
  }

  /** With fewer buffers than that, processes that hold what they may while the log is at its peak use them all up. */
  lemma TooFewBuffers(g: Geometry) returns (s: State)
    requires Roomy(g, g.nbuf) && g.start + g.size + g.nbuf < g.nblocks
    requires g.nproc * g.held + MaxPins(g) > g.nbuf
    ensures Reachable(g, s) && s.starved
  {
    hide Reachable, Takes;
    var n := if MaxPins(g) < g.nbuf then MaxPins(g) else g.nbuf;
    var r, t, c := g.nbuf - n, 0, 0;
    assert g.nproc * g.held >= 2 by {
      assert g.nproc * g.held >= 2 * g.held;
    }
    s, t, c := TakeAll(g, n, r);
    SomeoneLeft(g, r, t, c);
    Extend(g, s, StarveStep(t, Home(g, g.nbuf)));
    s := Starve(s);
  }

  /**
    bget panics in some run exactly if the buffers processes hold or wait for at a time, and the blocks the log pins,
    can be more than NBUF.
   */
  lemma StarvesIff(g: Geometry)
    requires Roomy(g, g.nbuf) && g.start + g.size + g.nbuf < g.nblocks
    ensures (exists s :: Reachable(g, s) && s.starved) <==> g.nproc * g.held + MaxPins(g) > g.nbuf
  {
    hide Reachable, MaxPins;
    if g.nproc * g.held + MaxPins(g) > g.nbuf {
      var s := TooFewBuffers(g);
    } else {
      forall s | Reachable(g, s)
        ensures !s.starved
      {
        NoStarving(g, s);
      }
    }
  }

  lemma NoStarving(g: Geometry, s: State)
    requires Reachable(g, s) && 2 * g.maxOp <= g.logSize && g.nproc * g.held + MaxPins(g) <= g.nbuf
    ensures !s.starved
  {
    var states: seq<State>, steps: seq<Step> :| IsRun(g, states, steps) && states[|steps|] == s;
    hide IsRun;
    EnoughBuffers(g, states, steps, |steps|);
  }

  /** xv6 as built, with another number of buffers. */
  function StockBuffers(budget: nat, nbuf: nat): Geometry {
    StockWith(budget).(nbuf := nbuf)
  }

  /** At xv6's other numbers bget can panic exactly with fewer buffers than 128 plus the peak of the log. NBUF is 30. */
  lemma StockStarvesIff(budget: nat, nbuf: nat)
    requires 1 <= budget <= 10 && 1 <= nbuf < 1968
    ensures (exists s :: Reachable(StockBuffers(budget, nbuf), s) && s.starved) <==>
            nbuf < 128 + if budget == 10 then 29 else 10 + 2 * budget
  {
    StarvesIff(StockBuffers(budget, nbuf));
  }
}
