/**
  commit() and recover_from_log() of kernel/log.c as imperative code over the buffer cache.
  The methods are proved to issue exactly the block writes of RedoLog's plans, in order, even
  when bget panics half-way, so the crash theorems apply to every disk they ever produce.
 */
module LogCode {
  import opened Common
  import opened RedoLog
  import opened BufferCache
  import opened CrashAtomicity

  /** write_head's loop: n and the entries overwrite the front of the header block. */
  method PackHead(prev: Block, lh: seq<nat>) returns (v: Block)
    requires 1 + |lh| <= |prev|
    ensures v == EncodeHead(prev, lh)
  {
    v := prev[0 := |lh|];
    for i := 0 to |lh|
      invariant |v| == |prev| && v[0] == |lh|
      invariant forall j :: 0 <= j < i ==> v[1 + j] == lh[j]
      invariant forall j :: i + 1 <= j < |v| ==> v[j] == prev[j]
    {
      v := v[1 + i := lh[i]];
    }
  }

  /** read_head's loop. */
  method UnpackHead(b: Block) returns (lh: seq<nat>)
    requires ReadableHead(b)
    ensures lh == DecodeHead(b)
  {
    lh := [];
    for i := 0 to b[0]
      invariant lh == b[1..1 + i]
    {
      lh := lh + [b[1 + i]];
    }
  }

  /** Between cache c and the start of a sequence of planned writes from disk d0: k are done. */
  ghost predicate Progress(c: Cache, d0: Disk, w0: seq<Write>, plan: seq<Write>, k: nat)
    reads c
  {
    && k <= |plan| && InRange(d0, plan)
    && c.disk == AfterWrites(d0, plan, k)
    && c.writes == w0 + plan[..k]
  }

  /** The disk holds the current value of every block outside `dirty`. */
  ghost predicate CleanBut(disk: Disk, view: Disk, dirty: seq<nat>) {
    |disk| == |view| && forall b: nat :: b < |disk| && b !in dirty ==> disk[b] == view[b]
  }

  lemma CleanWrite(disk: Disk, view: Disk, dirty: seq<nat>, b: nat, v: Block)
    requires CleanBut(disk, view, dirty) && b < |disk|
    ensures CleanBut(disk[b := v], view[b := v], dirty)
  {
  }

  lemma CleanInstalled(disk: Disk, view: Disk, lh: seq<nat>, k: nat, v: Block)
    requires k < |lh| && lh[k] < |disk| && CleanBut(disk, view, lh[k..])
    ensures CleanBut(disk[lh[k] := v], view[lh[k] := v], lh[k + 1..])
  {
    assert lh[k..] == [lh[k]] + lh[k + 1..];
  }

  // ---------------------------------------------------------------- when bread succeeds

  /** Two blocks can be had at once, one after the other. */
  ghost predicate PairGets(refs: seq<nat>, n: nat, p: nat, b: nat) {
    Gets(refs, n, p) && Gets(refs[p := refs[p] + 1], n, b)
  }

  /** The first k log blocks can be had, one at a time. */
  ghost predicate LogGets(g: Geometry, refs: seq<nat>, n: nat, k: nat) {
    forall b: nat :: g.start < b <= g.start + k ==> Gets(refs, n, b)
  }

  /** Each of the first k log blocks can be had together with its home block. */
  ghost predicate PairsGet(g: Geometry, refs: seq<nat>, n: nat, lh: seq<nat>, k: nat) {
    forall j: nat :: j < k && j < |lh| ==> PairGets(refs, n, g.start + 1 + j, lh[j])
  }

  /** A pinned block can be had whatever else is held. */
  lemma PinnedGets(refs: seq<nat>, n: nat, p: nat, b: nat)
    requires p < |refs| && b < |refs| && p != b && refs[b] > 0
    ensures PairGets(refs, n, p, b) <==> Gets(refs, n, p)
  {
  }

  /** Fewer references leave more to be had. */
  lemma FewerGets(refs: seq<nat>, refs': seq<nat>, n: nat, b: nat)
    requires |refs'| == |refs| && (forall c :: 0 <= c < |refs| ==> refs'[c] <= refs[c])
    requires b < |refs| && refs'[b] == refs[b]
    ensures Gets(refs, n, b) ==> Gets(refs', n, b)
  {
    assert Busy(refs') <= Busy(refs);
    SubsetSize(Busy(refs'), Busy(refs));
  }

  lemma SentGets(refs0: seq<nat>, refs: seq<nat>, view0: Disk, view: Disk, sent: seq<nat>, recovering: bool, n: nat,
                 b: nat)
    requires Sent(refs0, refs, view0, view, sent, recovering) && b < |refs0| && b !in sent
    ensures Gets(refs0, n, b) ==> Gets(refs, n, b)
  {
    FewerGets(refs0, refs, n, b);
  }

  /** With two unreferenced buffers any two blocks can be had. */
  lemma UnreferencedGet(bufs: seq<Buf>, disk: Disk, view: Disk, refs: seq<nat>, p: nat, b: nat)
    requires Consistent(bufs, disk, view, refs) && p < |refs| && b < |refs| && p != b
    ensures |Unreferenced(bufs)| >= 2 ==> PairGets(refs, |bufs|, p, b)
  {
    BusyIs(bufs, disk, view, refs);
    BusyMore(refs, p);
    hide Busy, Unreferenced, Consistent;
    assert |Busy(refs) + {p}| <= |Busy(refs)| + 1;
  }

  class Log {
    const g: Geometry
    const cache: Cache
    var lh: seq<nat>       // log.lh.block[0..log.lh.n]
    var outstanding: nat   // log.outstanding

    constructor (g: Geometry, cache: Cache)
      ensures this.g == g && this.cache == cache && lh == [] && outstanding == 0
    {
      this.g := g;
      this.cache := cache;
      lh, outstanding := [], 0;
    }

    ghost predicate Valid()
      reads this, cache
    {
      && g.Valid() && cache.Valid()
      && ValidDisk(g, cache.view) && |cache.disk| == |cache.refs| == g.nblocks
      && LegalHead(g, lh) && |lh| <= g.logSize && Settled(cache.disk, cache.view, cache.refs)
    }

    /** Every logged block is pinned: it has a reference of its own. */
    ghost predicate Pinned(k: nat)
      reads this, cache
      requires Valid()
    {
      forall j :: k <= j < |lh| ==> cache.refs[lh[j]] >= 1
    }

    /** Everything outside the entries of the log from k on is on disk. */
    ghost predicate Clean(k: nat)
      reads this, cache
      requires k <= |lh|
    {
      CleanBut(cache.disk, cache.view, lh[k..])
    }

    /** One bread / modify / bwrite / brelse of block p, the next write of the plan. */
    method WriteBlock(r: nat, p: nat, v: Block, ghost d0: Disk, ghost w0: seq<Write>, ghost plan: seq<Write>,
                      ghost k: nat)
      requires Valid() && r < |cache.bufs| && cache.bufs[r].Has(p) && cache.bufs[r].valid && cache.bufs[r].refcnt > 0
      requires p < g.nblocks && |v| == g.words
      requires Progress(cache, d0, w0, plan, k) && k < |plan| && plan[k] == Write(p, v)
      modifies cache`bufs, cache`view, cache`disk, cache`writes
      ensures Valid() && Progress(cache, d0, w0, plan, k + 1)
      ensures cache.view == old(cache.view)[p := v] && cache.disk == old(cache.disk)[p := v]
      ensures cache.bufs == old(cache.bufs)[r := old(cache.bufs)[r].(data := v)]
    {
      hide Busy;
      cache.Fill(r, v);
      cache.Bwrite(r);
      assert plan[..k + 1] == plan[..k] + [plan[k]];
    }

    /** The two breads at the top of write_log's and install_trans's loops. */
    method BreadPair(p: nat, b: nat) returns (ok: bool, i: nat, j: nat)
      requires Valid() && p < g.nblocks && b < g.nblocks && p != b
      modifies cache`bufs, cache`refs, cache`view
      ensures Valid() && cache.view == old(cache.view) && |cache.bufs| == old(|cache.bufs|)
      ensures ok <==> PairGets(old(cache.refs), |cache.bufs|, p, b)
      ensures ok ==> cache.refs == old(cache.refs)[p := old(cache.refs)[p] + 1][b := old(cache.refs)[b] + 1]
      ensures ok ==> Holds(i, p) && Holds(j, b) && i != j
    {
      hide Recent, Consistent, Settled, Traced, LegalHead, Gets;
      j := 0;
      ok, i := cache.Bread(p);
      if !ok { return; }
      ok, j := cache.Bread(b);
    }

    /** Buffer i is a referenced buffer with the current contents of block p. */
    ghost predicate Holds(i: nat, p: nat)
      reads this, cache
    {
      && i < |cache.bufs| && p < |cache.refs| && p < |cache.view|
      && cache.bufs[i].Has(p) && cache.bufs[i].valid
      && cache.bufs[i].data == cache.view[p] && cache.bufs[i].refcnt == cache.refs[p] > 0
    }

    /** The two brelses at the end of those loops. */
    method BrelsePair(i: nat, p: nat, j: nat, b: nat)
      requires Valid() && p < g.nblocks && b < g.nblocks && p != b
      requires Holds(i, p) && Holds(j, b) && i != j
      requires cache.refs[p] == 1 ==> cache.disk[p] == cache.view[p]
      requires cache.refs[b] == 1 ==> cache.disk[b] == cache.view[b]
      modifies cache`bufs, cache`refs, cache`next, cache`prev, cache`order, cache`stamp, cache`clock
      ensures Valid() && |cache.bufs| == old(|cache.bufs|)
      ensures cache.refs == old(cache.refs)[p := old(cache.refs)[p] - 1][b := old(cache.refs)[b] - 1]
    {
      hide Recent, Consistent, Settled, Traced, LegalHead;
      cache.Brelse(i);
      cache.Brelse(j);
    }

    /** One turn of write_log: log block `tail` receives the cached contents of its home block. */
    method CopyOut(tail: nat, ghost d0: Disk, ghost w0: seq<Write>, ghost plan: seq<Write>) returns (ok: bool)
      requires Valid() && Pinned(0) && Clean(0) && tail < |lh|
      requires Progress(cache, d0, w0, plan, tail) && tail < |plan|
      requires plan[tail] == Write(g.start + 1 + tail, cache.view[lh[tail]])
      modifies cache
      ensures Valid() && (ok ==> Clean(0) && cache.refs == old(cache.refs)) && |cache.bufs| == old(|cache.bufs|)
      ensures ok <==> Gets(old(cache.refs), |cache.bufs|, g.start + 1 + tail)
      ensures Progress(cache, d0, w0, plan, if ok then tail + 1 else tail)
      ensures ok ==> cache.view == old(cache.view)[g.start + 1 + tail := old(cache.view)[lh[tail]]]
    {
      hide Recent, Consistent, Settled, Traced, AfterWrites, InRange, LegalHead, Gets, PairGets;
      LogSlot(g, lh, tail);
      var p, b := g.start + 1 + tail, lh[tail];
      PinnedGets(cache.refs, |cache.bufs|, p, b);
      var to, from;
      ok, to, from := BreadPair(p, b);
      if !ok { return; }
      var v := cache.bufs[from].data;
      WriteBlock(to, p, v, d0, w0, plan, tail);
      CleanWrite(old(cache.disk), old(cache.view), lh[0..], p, v);
      hide CleanBut;
      BrelsePair(from, b, to, p);
      assert cache.refs == old(cache.refs);
    }

    /** One turn of install_trans: the log block goes home, and outside recovery its pin goes away. */
    method CopyHome(tail: nat, recovering: bool, ghost d0: Disk, ghost w0: seq<Write>, ghost plan: seq<Write>,
                    ghost k: nat)
      returns (ok: bool)
      requires Valid() && tail < |lh| && Clean(if recovering then |lh| else tail)
      requires !recovering ==> cache.refs[lh[tail]] >= 1
      requires Progress(cache, d0, w0, plan, k) && k < |plan|
      requires plan[k] == Write(lh[tail], cache.view[g.start + 1 + tail])
      modifies cache
      ensures Valid() && (ok ==> Clean(if recovering then |lh| else tail + 1)) && |cache.bufs| == old(|cache.bufs|)
      ensures recovering ==> (ok <==> PairGets(old(cache.refs), |cache.bufs|, g.start + 1 + tail, lh[tail]))
      ensures !recovering ==> (ok <==> Gets(old(cache.refs), |cache.bufs|, g.start + 1 + tail))
      ensures Progress(cache, d0, w0, plan, if ok then k + 1 else k)
      ensures ok ==> cache.view == old(cache.view)[lh[tail] := old(cache.view)[g.start + 1 + tail]]
      ensures ok ==> cache.refs == if recovering then old(cache.refs)
                                   else old(cache.refs)[lh[tail] := old(cache.refs)[lh[tail]] - 1]
    {
      hide Recent, Consistent, Settled, Traced, AfterWrites, InRange, LegalHead, Gets, PairGets;
      LogSlot(g, lh, tail);
      LogIsNotHome(g, lh, g.start + 1 + tail);
      var p, b := g.start + 1 + tail, lh[tail];
      if !recovering {
        PinnedGets(cache.refs, |cache.bufs|, p, b);
      }
      var lbuf, dbuf;
      ok, lbuf, dbuf := BreadPair(p, b);
      if !ok { return; }
      var v := cache.bufs[lbuf].data;
      WriteBlock(dbuf, b, v, d0, w0, plan, k);
      if recovering {
        CleanWrite(old(cache.disk), old(cache.view), lh[|lh|..], b, v);
      } else {
        CleanInstalled(old(cache.disk), old(cache.view), lh, tail, v);
      }
      hide CleanBut;
      DropPair(lbuf, p, dbuf, b, recovering);
    }

    /** The end of install_trans's loop body: the pin, outside recovery, and both references go. */
    method DropPair(lbuf: nat, p: nat, dbuf: nat, b: nat, recovering: bool)
      requires Valid() && p < g.nblocks && b < g.nblocks && p != b
      requires Holds(lbuf, p) && Holds(dbuf, b) && lbuf != dbuf && (!recovering ==> cache.refs[b] >= 2)
      requires cache.disk[b] == cache.view[b] && (cache.refs[p] == 1 ==> cache.disk[p] == cache.view[p])
      modifies cache`bufs, cache`refs, cache`next, cache`prev, cache`order, cache`stamp, cache`clock
      ensures Valid() && |cache.bufs| == old(|cache.bufs|)
      ensures cache.refs ==
              old(cache.refs)[p := old(cache.refs)[p] - 1][b := old(cache.refs)[b] - (if recovering then 1 else 2)]
    {
      hide Recent, Consistent, Settled, Traced, LegalHead, ValidDisk;
      if !recovering {
        cache.Bunpin(dbuf);
      }
      BrelsePair(lbuf, p, dbuf, b);
    }

    /** write_head. */
    method WriteHead(ghost dirty: nat, ghost d0: Disk, ghost w0: seq<Write>, ghost plan: seq<Write>, ghost k: nat)
      returns (ok: bool)
      requires Valid() && dirty <= |lh| && Clean(dirty)
      requires Progress(cache, d0, w0, plan, k) && k < |plan|
      requires |cache.view[g.start]| == g.words && plan[k] == Write(g.start, EncodeHead(cache.view[g.start], lh))
      modifies cache
      ensures Valid() && (ok ==> Clean(dirty) && cache.refs == old(cache.refs)) && |cache.bufs| == old(|cache.bufs|)
      ensures ok <==> Gets(old(cache.refs), |cache.bufs|, g.start)
      ensures Progress(cache, d0, w0, plan, if ok then k + 1 else k)
      ensures ok ==> cache.view == old(cache.view)[g.start := EncodeHead(old(cache.view)[g.start], lh)]
    {
      hide Recent, Consistent, Settled, Traced, AfterWrites, InRange, LegalHead, EncodeHead, CleanBut, Gets;
      var buf;
      ok, buf := cache.Bread(g.start);
      if !ok { return; }
      var v := PackHead(cache.bufs[buf].data, lh);
      HeadSize(cache.bufs[buf].data, lh);
      CleanWrite(cache.disk, cache.view, lh[dirty..], g.start, v);
      WriteBlock(buf, g.start, v, d0, w0, plan, k);
      cache.Brelse(buf);
    }

    /** write_log: on success the first |lh| writes of the plan are done. */
    method WriteLog(ghost d0: Disk, ghost w0: seq<Write>, ghost plan: seq<Write>) returns (ok: bool, ghost k: nat)
      requires Valid() && Pinned(0) && Clean(0)
      requires Progress(cache, d0, w0, plan, 0) && |lh| <= |plan|
      requires forall j :: 0 <= j < |lh| ==> plan[j] == Write(g.start + 1 + j, cache.view[lh[j]])
      modifies cache
      ensures Valid() && k <= |lh| && Progress(cache, d0, w0, plan, k) && |cache.bufs| == old(|cache.bufs|)
      ensures ok <==> LogGets(g, old(cache.refs), |cache.bufs|, |lh|)
      ensures ok ==> k == |lh| && Clean(0) && cache.refs == old(cache.refs)
      ensures ok ==> Logged(old(cache.view), cache.view, |lh|)
    {
      hide Recent, Consistent, Settled, Traced, AfterWrites, InRange, LegalHead, CleanBut, Gets;
      k := 0;
      ok := true;
      var tail := 0;
      LogIsHome(g, lh);
      while tail < |lh|
        invariant tail <= |lh| && ok && k == tail
        invariant Valid() && Clean(0) && cache.refs == old(cache.refs) && |cache.bufs| == old(|cache.bufs|)
        invariant Progress(cache, d0, w0, plan, tail) && LogGets(g, cache.refs, |cache.bufs|, tail)
        invariant Logged(old(cache.view), cache.view, tail)
      {
        LogSlot(g, lh, tail);
        ok := CopyOut(tail, d0, w0, plan);
        if !ok { return; }
        tail := tail + 1;
        k := tail;
      }
    }

    /** The first n log blocks hold the contents of the logged blocks; nothing else changed. */
    ghost predicate Logged(was: Disk, now: Disk, n: nat)
      reads this
    {
      && |was| == |now| == g.nblocks && n <= |lh| && g.start + n < g.nblocks
      && (forall j :: 0 <= j < |lh| ==> lh[j] < g.nblocks)
      && (forall j :: 0 <= j < n ==> now[g.start + 1 + j] == was[lh[j]])
      && (forall b: nat :: b < g.nblocks && !(g.start < b <= g.start + n) ==> now[b] == was[b])
    }

    /** install_trans: on success the next |lh| writes of the plan are done and the pins are gone. */
    method InstallTrans(recovering: bool, ghost d0: Disk, ghost w0: seq<Write>, ghost plan: seq<Write>, ghost k0: nat)
      returns (ok: bool, ghost k: nat)
      requires Valid() && Clean(if recovering then |lh| else 0)
      requires !recovering ==> Distinct(lh) && Pinned(0)
      requires Progress(cache, d0, w0, plan, k0) && k0 + |lh| <= |plan|
      requires forall j :: 0 <= j < |lh| ==> plan[k0 + j] == Write(lh[j], cache.view[g.start + 1 + j])
      modifies cache
      ensures Valid() && k0 <= k <= k0 + |lh| && Progress(cache, d0, w0, plan, k) && |cache.bufs| == old(|cache.bufs|)
      ensures recovering ==> (ok <==> PairsGet(g, old(cache.refs), |cache.bufs|, lh, |lh|))
      ensures !recovering && LogGets(g, old(cache.refs), |cache.bufs|, |lh|) ==> ok
      ensures ok ==> k == k0 + |lh| && Clean(|lh|)
      ensures ok ==> Sent(old(cache.refs), cache.refs, old(cache.view), cache.view, lh, recovering)
    {
      hide Recent, Consistent, Settled, Traced, AfterWrites, InRange, LegalHead, CleanBut, Sent, Gets, PairGets;
      k := k0;
      ok := true;
      var tail := 0;
      LogIsHome(g, lh);
      NothingSent(cache.refs, cache.view, recovering);
      assert lh[..0] == [];
      while tail < |lh|
        invariant tail <= |lh| && ok && k == k0 + tail && |cache.bufs| == old(|cache.bufs|)
        invariant recovering ==> PairsGet(g, old(cache.refs), |cache.bufs|, lh, tail)
        invariant Valid() && Clean(if recovering then |lh| else tail)
        invariant Progress(cache, d0, w0, plan, k)
        invariant Sent(old(cache.refs), cache.refs, old(cache.view), cache.view, lh[..tail], recovering)
      {
        LogSlot(g, lh, tail);
        LogIsNotHome(g, lh, g.start + 1 + tail);
        NotYet(lh, tail, g.start + 1 + tail);
        SentAt(old(cache.refs), cache.refs, old(cache.view), cache.view, lh[..tail], recovering, g.start + 1 + tail);
        SentGets(old(cache.refs), cache.refs, old(cache.view), cache.view, lh[..tail], recovering, |cache.bufs|,
                 g.start + 1 + tail);
        if recovering {
          SentSame(old(cache.refs), cache.refs, old(cache.view), cache.view, lh[..tail]);
        }
        if !recovering {
          SentAt(old(cache.refs), cache.refs, old(cache.view), cache.view, lh[..tail], recovering, lh[tail]);
        }
        ghost var refs, view := cache.refs, cache.view;
        ok := CopyHome(tail, recovering, d0, w0, plan, k);
        if !ok { return; }
        SentOne(old(cache.refs), refs, old(cache.view), view, lh, tail, recovering, view[g.start + 1 + tail]);
        tail := tail + 1;
        k := k + 1;
      }
      assert lh[..tail] == lh;
    }

    /** What a finished or interrupted commit may have written, and what each prefix boots to. */
    ghost predicate CommitOutcome(d0: Disk, w0: seq<Write>, lh0: seq<nat>, vals: seq<Block>, k: nat)
      reads this, cache
    {
      && Ready(g, d0, lh0, vals)
      && var plan := CommitWrites(g, d0, lh0, vals);
      && Progress(cache, d0, w0, plan, k)
      && forall j: nat :: j <= k ==>
           BootsTo(g, AfterWrites(d0, plan, j), if j <= |lh0| then d0 else Committed(d0, lh0, vals))
    }

    /**
      commit(): whatever happens, the writes issued are a prefix of the plan, so the disk boots to
      the old or the new file system at every moment; on success it is the new one, in place.
     */
    method Commit() returns (ok: bool, ghost k: nat)
      requires Valid() && Distinct(lh) && Pinned(0) && Clean(0)
      requires LegalImage(g, cache.disk) && HeadOf(g, cache.disk) == []
      modifies this`lh, cache
      ensures Valid()
      ensures CommitOutcome(old(cache.disk), old(cache.writes), old(lh), Values(old(cache.view), old(lh)), k)
      ensures ok ==> lh == [] && Clean(0) && SameHome(g, cache.disk, old(cache.view))
      ensures ok ==> LegalImage(g, cache.disk) && HeadOf(g, cache.disk) == []
      ensures |cache.bufs| == old(|cache.bufs|)
      ensures ok <==> old(lh) == [] || (LogGets(g, old(cache.refs), |cache.bufs|, old(|lh|))
                                        && Gets(old(cache.refs), |cache.bufs|, g.start))
      ensures old(|Unreferenced(cache.bufs)|) >= 1 ==> ok
    {
      hide Recent, Consistent, Settled, Traced, AfterWrites, InRange, LegalHead, CleanBut, EncodeHead, CommitWrites;
      hide IsCommitPlan, Ready, LegalImage, HeadOf, CommitOutcome, SameHome, ValidDisk, Gets, LogGets, Unreferenced;
      LogInRange(g, cache.view, lh);
      OneIsEnough(g, cache.bufs, cache.disk, cache.view, cache.refs, lh);
      ghost var d0, w0, lh0, vals := cache.disk, cache.writes, lh, Values(cache.view, lh);
      CommitReady(g, d0, cache.view, lh);
      ghost var plan := CommitWrites(g, d0, lh0, vals);
      CommitInRange(g, d0, lh0, vals, plan);
      NoWrites(d0, plan);
      assert Progress(cache, d0, w0, plan, 0);
      k := 0;
      if |lh| == 0 {
        ok := true;
        NoPlan(g, d0, vals);
        Outcome(d0, w0, lh0, vals, 0);
        CommitDone(g, d0, cache.view, lh0, vals, plan, d0);
        return;
      }
      PlanShape(g, d0, lh, vals, plan);
      HeaderIsClean(g, d0, cache.view, lh);
      ok, k := LogTransaction(d0, w0, plan, vals);
      if ok {
        LogInRange(g, cache.view, lh);
        PlanSecondHalf(g, d0, lh, vals, plan, cache.view);
        ok, k := EraseTransaction(d0, w0, plan);
      }
      Outcome(d0, w0, lh0, vals, k);
      if ok {
        CommitDone(g, d0, old(cache.view), lh0, vals, plan, cache.disk);
      }
    }

    lemma Outcome(d0: Disk, w0: seq<Write>, lh0: seq<nat>, vals: seq<Block>, k: nat)
      requires Ready(g, d0, lh0, vals)
      requires Progress(cache, d0, w0, CommitWrites(g, d0, lh0, vals), k)
      ensures CommitOutcome(d0, w0, lh0, vals, k)
    {
      hide BootsTo, AfterWrites;
      var plan := CommitWrites(g, d0, lh0, vals);
      forall j: nat | j <= k
        ensures BootsTo(g, AfterWrites(d0, plan, j), if j <= |lh0| then d0 else Committed(d0, lh0, vals))
      {
        CommitIsAtomic(g, d0, lh0, vals, plan, j);
      }
    }

    /** The first half of a non-empty commit: the log blocks, then the header that commits them. */
    method LogTransaction(ghost d0: Disk, ghost w0: seq<Write>, ghost plan: seq<Write>, ghost vals: seq<Block>)
      returns (ok: bool, ghost k: nat)
      requires Valid() && Pinned(0) && Clean(0)
      requires IsCommitPlan(g, d0, lh, vals, plan) && Progress(cache, d0, w0, plan, 0)
      requires vals == Values(cache.view, lh) && cache.view[g.start] == d0[g.start]
      modifies cache
      ensures Valid() && Progress(cache, d0, w0, plan, k) && |cache.bufs| == old(|cache.bufs|)
      ensures ok <==> LogGets(g, old(cache.refs), |cache.bufs|, |lh|) && Gets(old(cache.refs), |cache.bufs|, g.start)
      ensures ok ==> k == |lh| + 1 && Clean(0) && cache.refs == old(cache.refs)
      ensures ok ==> cache.view[g.start] == EncodeHead(d0[g.start], lh)
      ensures ok ==> forall j :: 0 <= j < |lh| ==> cache.view[g.start + 1 + j] == vals[j]
    {
      hide Recent, Consistent, Settled, Traced, AfterWrites, InRange, LegalHead, CleanBut, EncodeHead, Gets, LogGets;
      ok, k := WriteLog(d0, w0, plan);
      if !ok { return; }
      ok := WriteHead(0, d0, w0, plan, |lh|);
      if ok {
        k := |lh| + 1;
      }
    }

    /** lh.n = 0 and write_head, the last act of both commit and recovery. */
    method ClearLog(ghost d0: Disk, ghost w0: seq<Write>, ghost plan: seq<Write>, ghost k: nat) returns (ok: bool)
      requires Valid() && Clean(|lh|)
      requires Progress(cache, d0, w0, plan, k) && k < |plan|
      requires |cache.view[g.start]| == g.words && plan[k] == Write(g.start, EncodeHead(cache.view[g.start], []))
      modifies this`lh, cache
      ensures Valid() && Progress(cache, d0, w0, plan, if ok then k + 1 else k) && |cache.bufs| == old(|cache.bufs|)
      ensures lh == [] && (ok ==> Clean(0)) && (ok <==> Gets(old(cache.refs), |cache.bufs|, g.start))
    {
      hide Recent, Consistent, Settled, Traced, AfterWrites, InRange, LegalHead, CleanBut, EncodeHead, Gets;
      NothingDirty(cache.disk, cache.view, lh);
      NoEntries(g);
      lh := [];
      ok := WriteHead(0, d0, w0, plan, k);
    }

    /** The second half: the blocks go home, then the header is emptied. */
    method EraseTransaction(ghost d0: Disk, ghost w0: seq<Write>, ghost plan: seq<Write>)
      returns (ok: bool, ghost k: nat)
      requires Valid() && Distinct(lh) && Pinned(0) && Clean(0)
      requires ErasePlan(g, lh, cache.view, plan) && Progress(cache, d0, w0, plan, |lh| + 1)
      modifies this`lh, cache
      ensures Valid() && Progress(cache, d0, w0, plan, k) && |cache.bufs| == old(|cache.bufs|)
      ensures LogGets(g, old(cache.refs), |cache.bufs|, old(|lh|)) && Gets(old(cache.refs), |cache.bufs|, g.start) ==>
                ok
      ensures ok ==> k == |plan| && lh == [] && Clean(0)
    {
      hide Recent, Consistent, Settled, Traced, AfterWrites, InRange, LegalHead, CleanBut, EncodeHead, Sent;
      hide Gets, LogGets, ValidDisk;
      LogIsNotHome(g, lh, g.start);
      ok, k := InstallTrans(false, d0, w0, plan, |lh| + 1);
      if !ok { return; }
      SentAt(old(cache.refs), cache.refs, old(cache.view), cache.view, lh, false, g.start);
      SentGets(old(cache.refs), cache.refs, old(cache.view), cache.view, lh, false, |cache.bufs|, g.start);
      ok := ClearLog(d0, w0, plan, k);
      if ok {
        k := k + 1;
      }
    }

    /**
      log_write by the holder of buffer r: refuse a full log or a call outside of any operation, absorb a
      block that is already logged, else append it and pin its buffer.
     */
    method LogWrite(r: nat) returns (ok: bool)
      requires Valid() && r < |cache.bufs| && Holds(r, cache.bufs[r].bno) && g.IsHome(cache.bufs[r].bno)
      modifies this`lh, cache`bufs, cache`refs
      ensures Valid() && (old(Distinct(lh)) ==> Distinct(lh))
      ensures ok <==> |old(lh)| < g.Capacity() && outstanding >= 1
      ensures lh == if ok && cache.bufs[r].bno !in old(lh) then old(lh) + [cache.bufs[r].bno] else old(lh)
      ensures cache.bufs == if lh == old(lh) then old(cache.bufs)
                            else old(cache.bufs)[r := old(cache.bufs)[r].(refcnt := old(cache.bufs)[r].refcnt + 1)]
      ensures cache.refs == if lh == old(lh) then old(cache.refs)
                            else old(cache.refs)[cache.bufs[r].bno := old(cache.refs)[cache.bufs[r].bno] + 1]
    {
      hide Recent, Consistent, Settled, Traced;
      ok := true;
      if |lh| >= g.logSize || |lh| >= g.size - 1 {
        return false;
      }
      if outstanding < 1 {
        return false;
      }
      var b := cache.bufs[r].bno;
      var i := 0;
      while i < |lh| && lh[i] != b
        invariant 0 <= i <= |lh| && b !in lh[..i]
      {
        i := i + 1;
      }
      if i == |lh| {
        assert lh[..i] == lh;
        cache.Bpin(r);
        lh := lh + [b];
      }
    }

    /** read_head. */
    method ReadHead() returns (ok: bool)
      requires Valid() && cache.view == cache.disk && LegalImage(g, cache.disk)
      requires |HeadOf(g, cache.disk)| <= g.logSize
      modifies this`lh, cache`bufs, cache`refs, cache`view, cache`next, cache`prev, cache`order, cache`stamp,
               cache`clock
      ensures Valid() && cache.view == old(cache.view) && (ok ==> lh == HeadOf(g, cache.disk))
      ensures |cache.bufs| == old(|cache.bufs|) && (ok <==> Gets(old(cache.refs), |cache.bufs|, g.start))
      ensures ok ==> cache.refs == old(cache.refs)
    {
      hide Recent, Consistent, Settled, Traced, Gets;
      var buf;
      ok, buf := cache.Bread(g.start);
      if ok {
        lh := UnpackHead(cache.bufs[buf].data);
        cache.Brelse(buf);
      }
    }

    /** install_trans(1), then the emptied header. */
    method ReplayLog(ghost d0: Disk, ghost w0: seq<Write>, ghost plan: seq<Write>) returns (ok: bool, ghost k: nat)
      requires Valid() && Clean(|lh|) && Progress(cache, d0, w0, plan, 0)
      requires |plan| == |lh| + 1 && |cache.view[g.start]| == g.words
      requires plan[|lh|] == Write(g.start, EncodeHead(cache.view[g.start], []))
      requires forall j :: 0 <= j < |lh| ==> plan[0 + j] == Write(lh[j], cache.view[g.start + 1 + j])
      modifies this`lh, cache
      ensures Valid() && Progress(cache, d0, w0, plan, k) && |cache.bufs| == old(|cache.bufs|)
      ensures ok <==> PairsGet(g, old(cache.refs), |cache.bufs|, old(lh), old(|lh|))
                      && Gets(old(cache.refs), |cache.bufs|, g.start)
      ensures ok ==> k == |plan| && lh == [] && Clean(0)
    {
      LogIsNotHome(g, lh, g.start);
      hide Recent, Consistent, Settled, Traced, AfterWrites, InRange, LegalHead, CleanBut, EncodeHead, Sent;
      hide ValidDisk, Gets, PairsGet;
      ok, k := InstallTrans(true, d0, w0, plan, 0);
      if !ok { return; }
      SentSame(old(cache.refs), cache.refs, old(cache.view), cache.view, lh);
      SentAt(old(cache.refs), cache.refs, old(cache.view), cache.view, lh, true, g.start);
      ok := ClearLog(d0, w0, plan, k);
      if ok {
        k := k + 1;
      }
    }

    /**
      recover_from_log(), on a cache that agrees with the disk: whatever happens, the writes are a
      prefix of the recovery plan, so the next boot finds the same file system; on success that
      file system is in place and the log is empty.
     */
    method Recover() returns (ok: bool, ghost k: nat)
      requires Valid() && LegalImage(g, cache.disk) && cache.view == cache.disk
      requires |HeadOf(g, cache.disk)| <= g.logSize
      modifies this`lh, cache
      ensures Valid()
      ensures Progress(cache, old(cache.disk), old(cache.writes),
                       RecoverWrites(g, old(cache.disk), HeadOf(g, old(cache.disk))), k)
      ensures LegalImage(g, cache.disk) && forall b: nat :: g.IsHome(b) ==>
                AfterBoot(g, cache.disk, b) == AfterBoot(g, old(cache.disk), b)
      ensures ok ==> lh == [] && HeadOf(g, cache.disk) == [] && Clean(0)
      ensures ok ==> forall b: nat :: g.IsHome(b) ==> cache.disk[b] == AfterBoot(g, old(cache.disk), b)
      ensures |cache.bufs| == old(|cache.bufs|)
      ensures var head := HeadOf(g, old(cache.disk));
              ok <==> PairsGet(g, old(cache.refs), |cache.bufs|, head, |head|)
                      && Gets(old(cache.refs), |cache.bufs|, g.start)
      ensures old(|Unreferenced(cache.bufs)|) >= 2 ==> ok
    {
      hide Recent, Consistent, Settled, Traced, AfterWrites, InRange, CleanBut, EncodeHead, RecoverWrites, AfterBoot;
      hide Gets, PairsGet, Unreferenced;
      ghost var d0, w0, head := cache.disk, cache.writes, HeadOf(g, cache.disk);
      TwoAreEnough(g, cache.bufs, cache.disk, cache.view, cache.refs, head);
      ghost var plan := RecoverWrites(g, d0, head);
      RecoverInRange(g, d0, plan);
      RecoveryIsRestartable(g, d0, plan, 0);
      NoWrites(d0, plan);
      RecoverShape(g, d0, head, plan);
      k := 0;
      ok := ReadHead();
      if !ok { return; }
      AllClean(cache.disk, cache.view, lh);
      ok, k := ReplayLog(d0, w0, plan);
      RecoveryIsRestartable(g, d0, plan, k);
      if ok {
        RecoveryCompletes(g, d0, plan);
      }
    }
  }

  /** One unreferenced buffer is enough for log blocks and header. */
  lemma OneIsEnough(g: Geometry, bufs: seq<Buf>, disk: Disk, view: Disk, refs: seq<nat>, lh: seq<nat>)
    requires Consistent(bufs, disk, view, refs) && g.Valid() && LegalHead(g, lh) && |refs| == g.nblocks
    ensures |Unreferenced(bufs)| >= 1 ==> LogGets(g, refs, |bufs|, |lh|) && Gets(refs, |bufs|, g.start)
  {
    hide Consistent;
    BusyIs(bufs, disk, view, refs);
  }

  /** Two are enough for log blocks with their home blocks. */
  lemma TwoAreEnough(g: Geometry, bufs: seq<Buf>, disk: Disk, view: Disk, refs: seq<nat>, lh: seq<nat>)
    requires Consistent(bufs, disk, view, refs) && g.Valid() && LegalHead(g, lh) && |refs| == g.nblocks
    ensures |Unreferenced(bufs)| >= 2 ==> PairsGet(g, refs, |bufs|, lh, |lh|) && Gets(refs, |bufs|, g.start)
  {
    OneIsEnough(g, bufs, disk, view, refs, lh);
    hide Consistent, Gets, Unreferenced, PairGets;
    forall j: nat | j < |lh|
      ensures |Unreferenced(bufs)| >= 2 ==> PairGets(refs, |bufs|, g.start + 1 + j, lh[j])
    {
      LogSlot(g, lh, j);
      UnreferencedGet(bufs, disk, view, refs, g.start + 1 + j, lh[j]);
    }
  }

  /** A fresh cache can be read from exactly with as many buffers as blocks are wanted at a time. */
  lemma FreshGets(g: Geometry, n: nat, nbuf: nat, lh: seq<nat>)
    requires g.Valid() && LegalHead(g, lh) && n == g.nblocks
    ensures var refs := seq(n, _ => 0);
            && (Gets(refs, nbuf, g.start) <==> nbuf >= 1)
            && (PairsGet(g, refs, nbuf, lh, |lh|) <==> lh == [] || nbuf >= 2)
  {
    var refs := seq(n, _ => 0);
    assert Busy(refs) == {};
    forall j: nat | j < |lh|
      ensures PairGets(refs, nbuf, g.start + 1 + j, lh[j]) <==> nbuf >= 2
    {
      LogSlot(g, lh, j);
      var p := g.start + 1 + j;
      BusyMore(refs, p);
      assert Busy(refs[p := refs[p] + 1]) == {p};
    }
    if lh != [] && PairsGet(g, refs, nbuf, lh, |lh|) {
      assert PairGets(refs, nbuf, g.start + 1 + 0, lh[0]);
    }
  }

  /** binit, initlog and recover_from_log: with two buffers they always get done, and with one unless there is a log. */
  method BootAndRecover(g: Geometry, nbuf: nat, d: Disk) returns (ok: bool, log: Log)
    requires g.Valid() && ValidDisk(g, d) && LegalImage(g, d) && |HeadOf(g, d)| <= g.logSize
    ensures ok <==> nbuf >= 2 || (nbuf == 1 && HeadOf(g, d) == [])
    ensures ok ==> LegalImage(g, log.cache.disk) && log.lh == [] && HeadOf(g, log.cache.disk) == []
    ensures ok ==> log.Clean(0) && forall b: nat :: g.IsHome(b) ==> log.cache.disk[b] == AfterBoot(g, d, b)
  {
    hide Recent, Consistent, Traced, AfterBoot, Gets, PairsGet;
    var cache := new Cache(nbuf, d);
    log := new Log(g, cache);
    FreshGets(g, |d|, nbuf, HeadOf(g, d));
    ghost var k;
    ok, k := log.Recover();
  }

  lemma AllClean(disk: Disk, view: Disk, lh: seq<nat>)
    requires disk == view
    ensures CleanBut(disk, view, lh[|lh|..])
  {
  }

  lemma RecoverShape(g: Geometry, d0: Disk, lh: seq<nat>, plan: seq<Write>)
    requires LegalImage(g, d0) && lh == HeadOf(g, d0) && plan == RecoverWrites(g, d0, lh)
    ensures |plan| == |lh| + 1
    ensures forall j :: 0 <= j < |lh| ==> plan[j] == Write(lh[j], d0[g.start + 1 + j])
    ensures plan[|lh|] == Write(g.start, EncodeHead(d0[g.start], []))
  {
  }

  /** References and contents after the blocks `sent` were written home. */
  ghost predicate Sent(refs0: seq<nat>, refs: seq<nat>, view0: Disk, view: Disk, sent: seq<nat>, recovering: bool) {
    && |refs0| == |refs| == |view0| == |view|
    && (forall b: nat :: b < |refs| && b !in sent ==> refs[b] == refs0[b] && view[b] == view0[b])
    && (forall b: nat :: b < |refs| && b in sent ==> refs[b] + (if recovering then 0 else 1) == refs0[b])
  }

  lemma NothingSent(refs: seq<nat>, view: Disk, recovering: bool)
    requires |refs| == |view|
    ensures Sent(refs, refs, view, view, [], recovering)
  {
  }

  lemma SentAt(refs0: seq<nat>, refs: seq<nat>, view0: Disk, view: Disk, sent: seq<nat>, recovering: bool, b: nat)
    requires Sent(refs0, refs, view0, view, sent, recovering) && b < |refs0| && b !in sent
    ensures |refs| == |view| == |view0| == |refs0| && refs[b] == refs0[b] && view[b] == view0[b]
  {
  }

  /** Recovery gives back every reference it takes. */
  lemma SentSame(refs0: seq<nat>, refs: seq<nat>, view0: Disk, view: Disk, sent: seq<nat>)
    requires Sent(refs0, refs, view0, view, sent, true)
    ensures refs == refs0
  {
  }

  lemma SentOne(refs0: seq<nat>, refs: seq<nat>, view0: Disk, view: Disk, lh: seq<nat>, k: nat, recovering: bool,
                v: Block)
    requires k < |lh| && lh[k] < |refs0| && (recovering || Distinct(lh))
    requires Sent(refs0, refs, view0, view, lh[..k], recovering)
    requires !recovering ==> refs0[lh[k]] >= 1
    ensures |refs| == |view| == |refs0|
    ensures !recovering ==> refs[lh[k]] >= 1
    ensures recovering ==> Sent(refs0, refs, view0, view[lh[k] := v], lh[..k + 1], recovering)
    ensures !recovering ==>
              Sent(refs0, refs[lh[k] := refs[lh[k]] - 1], view0, view[lh[k] := v], lh[..k + 1], recovering)
  {
    assert lh[..k + 1] == lh[..k] + [lh[k]];
    NotYet(lh, k, lh[k]);
  }

  /** The cached contents of the logged blocks. */
  ghost function Values(view: Disk, lh: seq<nat>): (vals: seq<Block>)
    requires forall j :: 0 <= j < |lh| ==> lh[j] < |view|
    ensures |vals| == |lh| && forall j :: 0 <= j < |lh| ==> vals[j] == view[lh[j]]
  {
    seq(|lh|, j requires 0 <= j < |lh| => view[lh[j]])
  }

  lemma LogInRange(g: Geometry, view: Disk, lh: seq<nat>)
    requires g.Valid() && ValidDisk(g, view) && LegalHead(g, lh)
    ensures |view| == g.nblocks && forall j :: 0 <= j < |lh| ==> lh[j] < |view|
    ensures g.start + |lh| < |view|
  {
  }

  lemma CommitReady(g: Geometry, d0: Disk, view: Disk, lh: seq<nat>)
    requires LegalImage(g, d0) && HeadOf(g, d0) == [] && ValidDisk(g, view)
    requires LegalHead(g, lh) && |lh| <= g.logSize
    ensures Ready(g, d0, lh, Values(view, lh))
    ensures g.start < |d0| && 1 + |lh| <= |d0[g.start]|
  {
  }

  /** The writes of a non-empty commit, stage by stage. */
  ghost predicate IsCommitPlan(g: Geometry, d0: Disk, lh: seq<nat>, vals: seq<Block>, plan: seq<Write>) {
    && |plan| == 2 * |lh| + 2 && |vals| == |lh|
    && g.start < |d0| && 1 + |lh| <= |d0[g.start]| == g.words
    && (forall j :: 0 <= j < |lh| ==> plan[j] == Write(g.start + 1 + j, vals[j]))
    && plan[|lh|] == Write(g.start, EncodeHead(d0[g.start], lh))
    && (forall j :: 0 <= j < |lh| ==> plan[|lh| + 1 + j] == Write(lh[j], vals[j]))
    && |EncodeHead(d0[g.start], lh)| == g.words
    && plan[2 * |lh| + 1] == Write(g.start, EncodeHead(EncodeHead(d0[g.start], lh), []))
  }

  /** The second half of a commit plan, in terms of what the cache holds by then. */
  ghost predicate ErasePlan(g: Geometry, lh: seq<nat>, view: Disk, plan: seq<Write>) {
    && |plan| == 2 * |lh| + 2 && g.start + |lh| < |view| && 0 < |view[g.start]| == g.words
    && (forall j :: 0 <= j < |lh| ==> plan[|lh| + 1 + j] == Write(lh[j], view[g.start + 1 + j]))
    && plan[2 * |lh| + 1] == Write(g.start, EncodeHead(view[g.start], []))
  }

  lemma PlanSecondHalf(g: Geometry, d0: Disk, lh: seq<nat>, vals: seq<Block>, plan: seq<Write>, view: Disk)
    requires IsCommitPlan(g, d0, lh, vals, plan) && g.start + |lh| < |view|
    requires view[g.start] == EncodeHead(d0[g.start], lh)
    requires forall j :: 0 <= j < |lh| ==> view[g.start + 1 + j] == vals[j]
    ensures ErasePlan(g, lh, view, plan)
  {
    hide EncodeHead;
  }

  lemma PlanShape(g: Geometry, d0: Disk, lh: seq<nat>, vals: seq<Block>, plan: seq<Write>)
    requires Ready(g, d0, lh, vals) && plan == CommitWrites(g, d0, lh, vals) && lh != []
    ensures IsCommitPlan(g, d0, lh, vals, plan)
  {
  }

  lemma NoPlan(g: Geometry, d0: Disk, vals: seq<Block>)
    requires vals == [] && g.start < |d0| && 1 <= |d0[g.start]|
    ensures CommitWrites(g, d0, [], vals) == []
  {
  }

  lemma HeaderIsClean(g: Geometry, disk: Disk, view: Disk, lh: seq<nat>)
    requires g.Valid() && LegalHead(g, lh) && g.start < |disk| && CleanBut(disk, view, lh[0..])
    ensures disk[g.start] == view[g.start]
  {
    LogIsNotHome(g, lh, g.start);
  }

  lemma NothingDirty(disk: Disk, view: Disk, lh: seq<nat>)
    requires CleanBut(disk, view, lh[|lh|..])
    ensures CleanBut(disk, view, [][0..])
  {
  }

  lemma NoEntries(g: Geometry)
    requires g.Valid()
    ensures LegalHead(g, [])
  {
  }

  lemma CommitDone(g: Geometry, d0: Disk, view: Disk, lh: seq<nat>, vals: seq<Block>, plan: seq<Write>, e: Disk)
    requires Ready(g, d0, lh, vals) && plan == CommitWrites(g, d0, lh, vals) && InRange(d0, plan)
    requires |view| == g.nblocks && (forall j :: 0 <= j < |lh| ==> vals[j] == view[lh[j]])
    requires CleanBut(d0, view, lh[0..]) && e == AfterWrites(d0, plan, |plan|)
    ensures SameHome(g, e, view) && LegalImage(g, e) && HeadOf(g, e) == []
  {
    CommitCompletes(g, d0, lh, vals, plan);
    assert lh[0..] == lh;
    hide AfterWrites, CommitWrites;
    forall b: nat | g.IsHome(b) ensures e[b] == view[b] {
      if b in lh {
        assert lh[LastIndex(lh, b)] == b;
      }
    }
  }

  lemma LogIsHome(g: Geometry, lh: seq<nat>)
    requires LegalHead(g, lh)
    ensures forall j :: 0 <= j < |lh| ==> g.IsHome(lh[j])
  {
  }

  lemma NotYet(lh: seq<nat>, n: nat, p: nat)
    requires n < |lh|
    ensures (forall j :: 0 <= j < |lh| ==> lh[j] != p) ==> p !in lh[..n]
    ensures Distinct(lh) ==> lh[n] !in lh[..n]
  {
  }

  lemma HeadSize(prev: Block, lh: seq<nat>)
    requires 1 + |lh| <= |prev|
    ensures |EncodeHead(prev, lh)| == |prev|
  {
  }

  lemma LogIsNotHome(g: Geometry, lh: seq<nat>, p: nat)
    requires LegalHead(g, lh) && g.start <= p < g.start + g.size
    ensures forall j :: 0 <= j < |lh| ==> lh[j] != p
    ensures forall k: nat :: k <= |lh| ==> p !in lh[k..]
  {
  }

  lemma LogSlot(g: Geometry, lh: seq<nat>, k: nat)
    requires g.Valid() && LegalHead(g, lh) && k < |lh|
    ensures g.IsHome(lh[k]) && g.start + 1 + k < g.start + g.size <= g.nblocks
    ensures lh[k] != g.start + 1 + k && lh[k] != g.start
  {
  }
}
