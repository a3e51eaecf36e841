/** Every step of the cache-and-log machine keeps the invariant. */
module LogSafety {
  import opened RedoLog
  import opened LogMachine
  import opened LogInvariant

  // ---------------------------------------------------------------- counting operations

  lemma {:induction false} ActiveUpdate(ops: seq<Op>, t: nat, op: Op)
    requires t < |ops|
    ensures Active(ops[t := op]) == Active(ops) - (if ops[t].InOp? then 1 else 0) + (if op.InOp? then 1 else 0)
  {
    var n := |ops| - 1;
    if t < n {
      ActiveUpdate(ops[..n], t, op);
      assert ops[t := op][..n] == ops[..n][t := op];
    } else {
      assert ops[t := op][..n] == ops[..n];
    }
  }

  lemma {:induction false} UnusedUpdate(limit: nat, ops: seq<Op>, t: nat, op: Op)
    requires t < |ops|
    ensures Unused(limit, ops[t := op]) ==
            Unused(limit, ops) - (if ops[t].InOp? then limit - |ops[t].logged| else 0)
            + (if op.InOp? then limit - |op.logged| else 0)
  {
    var n := |ops| - 1;
    if t < n {
      UnusedUpdate(limit, ops[..n], t, op);
      assert ops[t := op][..n] == ops[..n][t := op];
    } else {
      assert ops[t := op][..n] == ops[..n];
    }
  }

  lemma {:induction false} NoneActive(ops: seq<Op>)
    ensures Active(ops) == 0 <==> forall u :: 0 <= u < |ops| ==> ops[u].Idle?
  {
    if ops != [] {
      var n := |ops| - 1;
      NoneActive(ops[..n]);
      assert forall u :: 0 <= u < n ==> ops[..n][u] == ops[u];
    }
  }

  /** Each running operation keeps at least `spare` of its share unused, and at most all of it. */
  lemma {:induction false} UnusedCovers(limit: nat, spare: nat, ops: seq<Op>)
    requires forall t :: 0 <= t < |ops| && ops[t].InOp? ==> |ops[t].logged| + spare <= limit
    ensures spare * Active(ops) <= Unused(limit, ops) <= limit * Active(ops)
  {
    if ops != [] {
      var n := |ops| - 1;
      assert forall t :: 0 <= t < n ==> ops[..n][t] == ops[t];
      UnusedCovers(limit, spare, ops[..n]);
      if ops[n].InOp? {
        OneMore(spare, limit, Active(ops[..n]), Unused(limit, ops[..n]), limit - |ops[n].logged|);
      }
    }
  }

  lemma OneMore(spare: nat, limit: nat, n: nat, sum: int, own: int)
    requires spare * n <= sum <= limit * n && spare <= own <= limit
    ensures spare * (n + 1) <= sum + own <= limit * (n + 1)
  {
  }

  // ---------------------------------------------------------------- steps on the cache alone

  /** Replacing buffer i keeps the buffers that running operations hold modified. */
  lemma HoldsKept(g: Geometry, bufs: seq<Buf>, i: nat, u: Buf, lh: seq<nat>, nextId: nat, ops: seq<Op>)
    requires OpsOk(g, bufs, lh, nextId, ops) && i < |bufs|
    requires forall t: nat, b: nat :: t < |ops| && HasUnlogged(ops[t], b) && bufs[i].Ready(t, b) ==> u.Ready(t, b)
    ensures OpsOk(g, bufs[i := u], lh, nextId, ops)
  {
    forall t | 0 <= t < |ops| && ops[t].InOp?
      ensures forall b :: b in ops[t].unlogged ==> HeldValid(bufs[i := u], t, b)
    {
      assert OpOk(g, bufs, lh, nextId, t, ops[t]);
      forall b | b in ops[t].unlogged ensures HeldValid(bufs[i := u], t, b) {
        var k :| 0 <= k < |bufs| && bufs[k].Ready(t, b);
        assert HasUnlogged(ops[t], b);
        assert bufs[i := u][k].Ready(t, b);
      }
    }
    forall t | 0 <= t < |ops| ensures OpOk(g, bufs[i := u], lh, nextId, t, ops[t]) {
      assert OpOk(g, bufs, lh, nextId, t, ops[t]);
    }
  }

  lemma StaysCached(bufs: seq<Buf>, i: nat, u: Buf, pins: seq<nat>)
    requires PinsCached(bufs, pins) && i < |bufs|
    requires forall b :: b in pins && bufs[i].Has(b) && bufs[i].valid ==> u.Has(b) && u.valid
    ensures PinsCached(bufs[i := u], pins)
  {
    forall b | b in pins ensures Cached(bufs[i := u], b) {
      var j :| 0 <= j < |bufs| && bufs[j].Has(b) && bufs[j].valid;
      assert bufs[i := u][j].Has(b) && bufs[i := u][j].valid;
    }
  }

  /** A step that changes one buffer: what has to be said about that buffer. */
  lemma BufKeeps(g: Geometry, s: State, i: nat, u: Buf)
    requires Inv(g, s) && i < |s.bufs|
    requires CacheInv(s.bufs[i := u], s.cur, Pins(s.phase, s.lh)) && OpsOk(g, s.bufs[i := u], s.lh, s.nextId, s.ops)
    ensures Inv(g, s.(bufs := s.bufs[i := u]))
  {
    hide CacheInv, Synced, DiskSpells, PhaseOk, Reflects, OpsWhole, Covered, OpsOk, ValidDisk, SpaceOk, SleepersWait;
    hide Pins;
  }

  /** A buffer that keeps its block, contents and holder's rights, with its count right. */
  lemma CacheKeeps(bufs: seq<Buf>, cur: Disk, pins: seq<nat>, i: nat, u: Buf)
    requires CacheInv(bufs, cur, pins) && i < |bufs|
    requires bufs[i].dev == ROOTDEV && u.dev == ROOTDEV && u.bno == bufs[i].bno && u.valid == bufs[i].valid
    requires u.data == bufs[i].data
    requires u.refcnt - bufs[i].refcnt == Refs(u) - Refs(bufs[i])
    ensures CacheInv(bufs[i := u], cur, pins)
  {
    hide Cached;
    StaysCached(bufs, i, u, pins);
  }

  lemma HitKeeps(g: Geometry, s: State, t: nat, i: nat)
    requires Inv(g, s) && CanHit(g, s, t, i)
    ensures Inv(g, Hit(g, s, t, i))
  {
    hide CacheInv, Synced, DiskSpells, PhaseOk, HistOk, OpsWhole, Covered, OpsOk, ValidDisk;
    var u := Hit(g, s, t, i).bufs[i];
    HoldsKept(g, s.bufs, i, u, s.lh, s.nextId, s.ops);
    CacheKeeps(s.bufs, s.cur, Pins(s.phase, s.lh), i, u);
    BufKeeps(g, s, i, u);
  }

  lemma MissKeeps(g: Geometry, s: State, t: nat, i: nat, b: nat)
    requires Inv(g, s) && CanMiss(g, s, t, i, b)
    ensures Inv(g, Miss(g, s, t, i, b))
  {
    hide CacheInv, Synced, DiskSpells, PhaseOk, HistOk, OpsWhole, Covered, OpsOk, ValidDisk, Pins;
    var u := Miss(g, s, t, i, b).bufs[i];
    MissCache(g, s, t, i, b);
    BufKeeps(g, s, i, u);
  }

  lemma MissCache(g: Geometry, s: State, t: nat, i: nat, b: nat)
    requires Inv(g, s) && CanMiss(g, s, t, i, b)
    ensures var bufs' := Miss(g, s, t, i, b).bufs;
            CacheInv(bufs', s.cur, Pins(s.phase, s.lh)) && OpsOk(g, bufs', s.lh, s.nextId, s.ops)
  {
    hide Synced, DiskSpells, PhaseOk, HistOk, OpsWhole, Covered, OpsOk, Pins;
    var u := Miss(g, s, t, i, b).bufs[i];
    HoldsKept(g, s.bufs, i, u, s.lh, s.nextId, s.ops);
    assert b in Pins(s.phase, s.lh) ==> Cached(s.bufs, b);
    StaysCached(s.bufs, i, u, Pins(s.phase, s.lh));
  }

  lemma StarveKeeps(g: Geometry, s: State)
    requires Inv(g, s)
    ensures Inv(g, Starve(s))
  {
    hide CacheInv, Synced, DiskSpells, PhaseOk, Reflects, OpsWhole, Covered, OpsOk, ValidDisk, SpaceOk, SleepersWait;
    hide Pins;
  }

  lemma LockKeeps(g: Geometry, s: State, t: nat, i: nat)
    requires Inv(g, s) && CanLock(s, t, i)
    ensures Inv(g, Lock(s, t, i))
  {
    hide Synced, DiskSpells, PhaseOk, HistOk, OpsWhole, Covered, OpsOk, ValidDisk, Unique, PinsCached;
    var u := Lock(s, t, i).bufs[i];
    HoldsKept(g, s.bufs, i, u, s.lh, s.nextId, s.ops);
    CacheKeeps(s.bufs, s.cur, Pins(s.phase, s.lh), i, u);
    BufKeeps(g, s, i, u);
  }

  lemma ReleaseKeeps(g: Geometry, s: State, t: nat, i: nat)
    requires Inv(g, s) && CanRelease(s, t, i)
    ensures Inv(g, Release(s, t, i))
  {
    hide Synced, DiskSpells, PhaseOk, HistOk, OpsWhole, Covered, OpsOk, ValidDisk, Unique, PinsCached;
    var u := Release(s, t, i).bufs[i];
    HoldsKept(g, s.bufs, i, u, s.lh, s.nextId, s.ops);
    CacheKeeps(s.bufs, s.cur, Pins(s.phase, s.lh), i, u);
    BufKeeps(g, s, i, u);
  }

  lemma UnloggedIsCached(g: Geometry, s: State, b: nat)
    requires OpsOk(g, s.bufs, s.lh, s.nextId, s.ops)
    ensures Unlogged(s.ops, b) ==> g.IsHome(b) && Cached(s.bufs, b)
  {
    if Unlogged(s.ops, b) {
      var t :| 0 <= t < |s.ops| && HasUnlogged(s.ops[t], b);
      assert OpOk(g, s.bufs, s.lh, s.nextId, t, s.ops[t]);
      assert HeldValid(s.bufs, t, b);
    }
  }

  /** A block that is not in the cache has its last written value on disk. */
  lemma UncachedIsSynced(g: Geometry, s: State, i: nat)
    requires Inv(g, s) && i < |s.bufs| && s.bufs[i].dev == ROOTDEV && !s.bufs[i].valid
    ensures s.disk[s.bufs[i].bno] == s.cur[s.bufs[i].bno]
  {
    hide DiskSpells, PhaseOk, HistOk, OpsWhole, Covered, SpaceOk, SleepersWait, OpsOk, Pins, Counted, Cached, Unlogged;
    hide Unique;
    var b := s.bufs[i].bno;
    NotCached(s.bufs, i);
    UnloggedIsCached(g, s, b);
  }

  lemma NotCached(bufs: seq<Buf>, i: nat)
    requires Unique(bufs) && i < |bufs| && bufs[i].dev == ROOTDEV && !bufs[i].valid
    ensures !Cached(bufs, bufs[i].bno)
  {
  }

  lemma FillKeeps(g: Geometry, s: State, t: nat, i: nat)
    requires Inv(g, s) && CanFill(s, t, i)
    ensures Inv(g, Fill(s, t, i))
  {
    hide Synced, DiskSpells, PhaseOk, HistOk, OpsWhole, Covered, OpsOk, ValidDisk, Cached;
    var u := Fill(s, t, i).bufs[i];
    assert s.bufs[i].refcnt > 0;
    UncachedIsSynced(g, s, i);
    HoldsKept(g, s.bufs, i, u, s.lh, s.nextId, s.ops);
    StaysCached(s.bufs, i, u, Pins(s.phase, s.lh));
    BufKeeps(g, s, i, u);
  }

  // ---------------------------------------------------------------- operations

  /** While any operation runs, the machine is in its running phase. */
  lemma OpMeansRunning(g: Geometry, s: State, t: nat)
    requires Inv(g, s) && t < |s.ops| && s.ops[t].InOp?
    ensures s.phase.Running? && s.outstanding >= 1
  {
    NoneActive(s.ops);
  }

  lemma LatestSnoc(hist: seq<Update>, u: Update, b: nat, under: Block)
    ensures Latest(hist + [u], b, under) == if u.bno == b then u.data else Latest(hist, b, under)
  {
    assert (hist + [u])[..|hist|] == hist;
  }

  /** Changing one operation keeps the unlogged blocks of the others, and those it keeps itself. */
  lemma UnloggedKept(ops: seq<Op>, t: nat, op: Op, b: nat)
    requires t < |ops|
    requires HasUnlogged(ops[t], b) ==> HasUnlogged(op, b)
    ensures Unlogged(ops, b) ==> Unlogged(ops[t := op], b)
  {
    if Unlogged(ops, b) {
      var r :| 0 <= r < |ops| && HasUnlogged(ops[r], b);
      assert HasUnlogged(ops[t := op][r], b);
    }
  }

  lemma ModifyOps(g: Geometry, s: State, t: nat, i: nat, v: Block)
    requires Inv(g, s) && CanModify(g, s, t, i, v)
    ensures OpsInv(g, Modify(g, s, t, i, v))
  {
    var s' := Modify(g, s, t, i, v);
    OpMeansRunning(g, s, t);
    ActiveUpdate(s.ops, t, s'.ops[t]);
    UnusedUpdate(g.maxOp, s.ops, t, s'.ops[t]);
    HoldsKept(g, s.bufs, i, s'.bufs[i], s.lh, s.nextId, s.ops);
    assert OpOk(g, s'.bufs, s.lh, s.nextId, t, s.ops[t]);
    assert s'.bufs[i].Ready(t, s.bufs[i].bno);
    assert OpOk(g, s'.bufs, s.lh, s.nextId, t, s'.ops[t]);
    forall r | 0 <= r < |s'.ops| ensures OpOk(g, s'.bufs, s.lh, s.nextId, r, s'.ops[r]) {
      assert OpOk(g, s'.bufs, s.lh, s.nextId, r, s.ops[r]);
    }
  }

  lemma ModifySynced(g: Geometry, s: State, t: nat, i: nat, v: Block)
    requires Inv(g, s) && CanModify(g, s, t, i, v)
    ensures var s' := Modify(g, s, t, i, v);
            Synced(s'.disk, s'.cur, Pins(s.phase, s.lh), s'.ops) && Covered(s'.hist, s'.cut, s'.lh, s'.ops)
  {
    var s' := Modify(g, s, t, i, v);
    assert HasUnlogged(s'.ops[t], s.bufs[i].bno);
    forall b: nat ensures Unlogged(s.ops, b) ==> Unlogged(s'.ops, b) {
      UnloggedKept(s.ops, t, s'.ops[t], b);
    }
  }

  lemma ModifyHist(g: Geometry, s: State, t: nat, i: nat, v: Block)
    requires Inv(g, s) && CanModify(g, s, t, i, v)
    ensures var s' := Modify(g, s, t, i, v); HistOk(g, s') && OpsWhole(s'.hist, s'.cut, s'.ops, s'.nextId)
  {
    hide CacheInv, Synced, DiskSpells, PhaseOk, Covered, SpaceOk, SleepersWait, Latest;
    var s' := Modify(g, s, t, i, v);
    OpMeansRunning(g, s, t);
    assert OpOk(g, s.bufs, s.lh, s.nextId, t, s.ops[t]);
    hide OpsOk;
    assert s'.hist[..s.cut] == s.hist[..s.cut];
    forall b: nat | g.IsHome(b) ensures s'.cur[b] == Latest(s'.hist, b, s'.base[b]) {
      LatestSnoc(s.hist, s'.hist[|s.hist|], b, s.base[b]);
    }
  }

  lemma ModifyKeeps(g: Geometry, s: State, t: nat, i: nat, v: Block)
    requires Inv(g, s) && CanModify(g, s, t, i, v)
    ensures Inv(g, Modify(g, s, t, i, v))
  {
    hide CacheInv, Synced, DiskSpells, PhaseOk, HistOk, OpsInv, OpsWhole, Covered;
    OpMeansRunning(g, s, t);
    ModifyOps(g, s, t, i, v);
    ModifySynced(g, s, t, i, v);
    ModifyHist(g, s, t, i, v);
    WriteThrough(s.bufs, s.cur, Pins(s.phase, s.lh), i, v);
    ModifyPhase(g, s, t, i, v);
  }

  lemma ModifyPhase(g: Geometry, s: State, t: nat, i: nat, v: Block)
    requires Shape(g, s) && CanModify(g, s, t, i, v) && s.phase.Running?
    requires PhaseOk(g, s.disk, s.cur, s.phase, s.lh)
    ensures var s' := Modify(g, s, t, i, v); Shape(g, s') && PhaseOk(g, s'.disk, s'.cur, s'.phase, s'.lh)
  {
  }

  /** A log_write that is not refused keeps space within bounds: the new block was promised. */
  lemma LogWriteSpace(g: Geometry, s: State, t: nat, i: nat)
    requires g.Valid() && OpsInv(g, s) && CanLogWrite(g, s, t, i) && !LogFull(g, s) && s.phase.Running?
    ensures var s' := LogWrite(g, s, t, i); SpaceOk(g, s'.phase, s'.lh, s'.ops)
  {
    var s' := LogWrite(g, s, t, i);
    var c := s.bufs[i].bno;
    UnusedUpdate(g.maxOp, s.ops, t, s'.ops[t]);
    assert OpOk(g, s.bufs, s.lh, s.nextId, t, s.ops[t]);
    assert c in s.ops[t].logged ==> s.ops[t].logged + {c} == s.ops[t].logged;
  }

  /** Operation t has logged block c, which is now in the log lh'. */
  function Logging(op: Op, c: nat): Op
    requires op.InOp?
  {
    op.(logged := op.logged + {c}, unlogged := op.unlogged - {c})
  }

  lemma OpsAfterLog(g: Geometry, bufs: seq<Buf>, lh: seq<nat>, lh': seq<nat>, nextId: nat, ops: seq<Op>, t: nat, c: nat)
    requires OpsOk(g, bufs, lh, nextId, ops)
    requires forall b :: b in lh ==> b in lh'
    requires c in lh' && t < |ops| && ops[t].InOp? && |ops[t].logged + {c}| <= g.budget
    ensures OpsOk(g, bufs, lh', nextId, ops[t := Logging(ops[t], c)])
  {
    var ops' := ops[t := Logging(ops[t], c)];
    forall r | 0 <= r < |ops| ensures OpOk(g, bufs, lh', nextId, r, ops'[r]) {
      assert OpOk(g, bufs, lh, nextId, r, ops[r]);
    }
  }

  lemma LogWriteOps(g: Geometry, s: State, t: nat, i: nat)
    requires OpsInv(g, s) && CanLogWrite(g, s, t, i) && !LogFull(g, s) && s.phase.Running?
    requires SpaceOk(g, s.phase, LogWrite(g, s, t, i).lh, LogWrite(g, s, t, i).ops)
    ensures OpsInv(g, LogWrite(g, s, t, i))
  {
    var c := s.bufs[i].bno;
    var ops' := s.ops[t := Logging(s.ops[t], c)];
    ActiveUpdate(s.ops, t, Logging(s.ops[t], c));
    if c in s.lh {
      OpsAfterLog(g, s.bufs, s.lh, s.lh, s.nextId, s.ops, t, c);
    } else {
      OpsAfterLog(g, s.bufs, s.lh, s.lh + [c], s.nextId, s.ops, t, c);
      HoldsKept(g, s.bufs, i, s.bufs[i].(refcnt := s.bufs[i].refcnt + 1), s.lh + [c], s.nextId, ops');
    }
  }

  /** Appending the block of a held buffer to the log and taking one more reference to it. */
  lemma PinNew(bufs: seq<Buf>, cur: Disk, pins: seq<nat>, i: nat)
    requires CacheInv(bufs, cur, pins)
    requires i < |bufs| && bufs[i].valid && bufs[i].bno !in pins
    ensures CacheInv(bufs[i := bufs[i].(refcnt := bufs[i].refcnt + 1)], cur, pins + [bufs[i].bno])
  {
    var bufs' := bufs[i := bufs[i].(refcnt := bufs[i].refcnt + 1)];
    StaysCached(bufs, i, bufs'[i], pins);
    assert bufs'[i].Has(bufs[i].bno);
    assert Cached(bufs', bufs[i].bno);
  }

  lemma LogWriteSynced(g: Geometry, s: State, t: nat, i: nat)
    requires Inv(g, s) && CanLogWrite(g, s, t, i) && !LogFull(g, s) && s.phase.Running?
    ensures var s' := LogWrite(g, s, t, i);
            Synced(s'.disk, s'.cur, s'.lh, s'.ops) && Covered(s'.hist, s'.cut, s'.lh, s'.ops)
  {
    var s' := LogWrite(g, s, t, i);
    forall b: nat ensures Unlogged(s.ops, b) ==> Unlogged(s'.ops, b) || b in s'.lh {
      if b != s.bufs[i].bno {
        UnloggedKept(s.ops, t, s'.ops[t], b);
      }
    }
  }

  lemma LogGrows(g: Geometry, disk: Disk, cur: Disk, lh: seq<nat>, c: nat)
    requires PhaseOk(g, disk, cur, Running, lh) && c !in lh && g.IsHome(c) && |lh| < g.size - 1
    ensures PhaseOk(g, disk, cur, Running, lh + [c])
  {
  }

  lemma LogWriteKeeps(g: Geometry, s: State, t: nat, i: nat)
    requires Inv(g, s) && CanLogWrite(g, s, t, i)
    ensures Inv(g, LogWrite(g, s, t, i))
  {
    if !LogFull(g, s) {
      OpMeansRunning(g, s, t);
      LogWriteSpace(g, s, t, i);
      LogWriteOps(g, s, t, i);
      LogWriteSynced(g, s, t, i);
      LogWriteWhole(g, s, t, i);
      LogWriteLog(g, s, t, i);
      LogWriteRest(g, s, t, i);
    }
  }

  lemma LogWriteLog(g: Geometry, s: State, t: nat, i: nat)
    requires CacheInv(s.bufs, s.cur, s.lh) && PhaseOk(g, s.disk, s.cur, Running, s.lh)
    requires CanLogWrite(g, s, t, i) && !LogFull(g, s)
    ensures var s' := LogWrite(g, s, t, i);
            CacheInv(s'.bufs, s.cur, s'.lh) && PhaseOk(g, s.disk, s.cur, Running, s'.lh)
  {
    var c := s.bufs[i].bno;
    if c !in s.lh {
      PinNew(s.bufs, s.cur, s.lh, i);
      LogGrows(g, s.disk, s.cur, s.lh, c);
    }
  }

  lemma LogWriteRest(g: Geometry, s: State, t: nat, i: nat)
    requires Shape(g, s) && CanLogWrite(g, s, t, i) && HistOk(g, s)
    ensures var s' := LogWrite(g, s, t, i); Shape(g, s') && HistOk(g, s')
    ensures LogWrite(g, s, t, i).(lh := s.lh, ops := s.ops, bufs := s.bufs, panicked := s.panicked) == s
  {
  }

  lemma LogWriteWhole(g: Geometry, s: State, t: nat, i: nat)
    requires CanLogWrite(g, s, t, i) && OpsWhole(s.hist, s.cut, s.ops, s.nextId)
    ensures var s' := LogWrite(g, s, t, i); OpsWhole(s'.hist, s'.cut, s'.ops, s'.nextId)
  {
  }

  /** begin_op admits only when a whole MAXOPBLOCKS still fits beside every earlier promise. */
  lemma BeginAdmits(g: Geometry, s: State, t: nat)
    requires Inv(g, s) && CanBegin(s, t) && !MustWait(g, s.phase, s.lh, s.outstanding)
    ensures OpsInv(g, Begin(g, s, t))
  {
    hide CacheInv, Synced, DiskSpells, PhaseOk, HistOk, OpsWhole, Covered, Active, Unused, OpsOk;
    var s' := Begin(g, s, t);
    ActiveUpdate(s.ops, t, s'.ops[t]);
    SharesHold(g, s);
    BeginSpace(g.maxOp, g.logSize, |s.lh|, s.ops, s.outstanding, t, s.nextId);
    BeginOps(g, s, t);
  }

  /** No operation has logged more than its share. */
  lemma SharesHold(g: Geometry, s: State)
    requires g.Valid() && OpsOk(g, s.bufs, s.lh, s.nextId, s.ops)
    ensures forall r :: 0 <= r < |s.ops| && s.ops[r].InOp? ==> |s.ops[r].logged| <= g.maxOp
  {
    forall r | 0 <= r < |s.ops| && s.ops[r].InOp?
      ensures |s.ops[r].logged| <= g.maxOp
    {
      assert OpOk(g, s.bufs, s.lh, s.nextId, r, s.ops[r]);
    }
  }

  lemma BeginSpace(share: nat, room: nat, n: nat, ops: seq<Op>, running: nat, t: nat, id: nat)
    requires n + (running + 1) * share <= room && running == Active(ops) && t < |ops| && ops[t].Idle?
    requires forall r :: 0 <= r < |ops| && ops[r].InOp? ==> |ops[r].logged| <= share
    ensures n + Unused(share, ops[t := InOp(id, {}, {})]) <= room
  {
    hide Active, Unused;
    UnusedUpdate(share, ops, t, InOp(id, {}, {}));
    UnusedCovers(share, 0, ops);
    OneMoreShare(n, running, share, Unused(share, ops), room);
  }

  lemma OneMoreShare(n: nat, running: nat, share: nat, unused: int, room: nat)
    requires n + (running + 1) * share <= room && unused <= share * running
    ensures n + unused + share <= room
  {
    assert (running + 1) * share == share * running + share;
  }

  lemma BeginOps(g: Geometry, s: State, t: nat)
    requires Inv(g, s) && CanBegin(s, t) && !MustWait(g, s.phase, s.lh, s.outstanding)
    ensures var s' := Begin(g, s, t); OpsOk(g, s'.bufs, s'.lh, s'.nextId, s'.ops)
  {
    hide CacheInv, Synced, DiskSpells, PhaseOk, HistOk, OpsWhole, Covered, Active, Unused;
    var s' := Begin(g, s, t);
    forall r | 0 <= r < |s'.ops| ensures OpOk(g, s'.bufs, s'.lh, s'.nextId, r, s'.ops[r]) {
      assert OpOk(g, s.bufs, s.lh, s.nextId, r, s.ops[r]);
    }
    forall r | 0 <= r < |s.ops| && s.ops[r].InOp? ensures s.ops[r].id < s.nextId {
      assert OpOk(g, s.bufs, s.lh, s.nextId, r, s.ops[r]);
    }
    hide OpOk;
  }

  /** Entering or leaving an operation with nothing unlogged. */
  lemma CleanSwitch(ops: seq<Op>, t: nat, op: Op)
    requires t < |ops| && forall b :: !HasUnlogged(ops[t], b)
    ensures forall b: nat :: Unlogged(ops, b) ==> Unlogged(ops[t := op], b)
  {
    forall b: nat ensures Unlogged(ops, b) ==> Unlogged(ops[t := op], b) {
      UnloggedKept(ops, t, op, b);
    }
  }

  lemma BeginSleeps(g: Geometry, s: State, t: nat)
    requires Inv(g, s) && CanBegin(s, t) && MustWait(g, s.phase, s.lh, s.outstanding)
    ensures Inv(g, Begin(g, s, t))
  {
    hide CacheInv, Synced, DiskSpells, PhaseOk, Reflects, OpsWhole, Covered, Active, Unused, OpsOk, SpaceOk;
  }

  lemma BeginHist(g: Geometry, s: State, t: nat)
    requires Inv(g, s) && CanBegin(s, t) && !MustWait(g, s.phase, s.lh, s.outstanding)
    ensures var s' := Begin(g, s, t);
            && OpsWhole(s'.hist, s'.cut, s'.ops, s'.nextId) && Covered(s'.hist, s'.cut, s'.lh, s'.ops)
            && Synced(s'.disk, s'.cur, Pins(s'.phase, s'.lh), s'.ops)
  {
    hide CacheInv, DiskSpells, PhaseOk, HistOk, OpsInv, Unlogged, Pins, MustWait;
    CleanSwitch(s.ops, t, Begin(g, s, t).ops[t]);
  }

  lemma BeginKeeps(g: Geometry, s: State, t: nat)
    requires Inv(g, s) && CanBegin(s, t)
    ensures Inv(g, Begin(g, s, t))
  {
    hide CacheInv, Synced, DiskSpells, PhaseOk, Reflects, OpsWhole, Covered, OpsInv, MustWait;
    if MustWait(g, s.phase, s.lh, s.outstanding) {
      BeginSleeps(g, s, t);
    } else {
      BeginAdmits(g, s, t);
      BeginHist(g, s, t);
    }
  }

  lemma EndOps(g: Geometry, s: State, t: nat)
    requires g.Valid() && OpsInv(g, s) && CanEnd(s, t) && s.phase.Running?
    ensures OpsInv(g, End(s, t))
  {
    var s' := End(s, t);
    ActiveUpdate(s.ops, t, Idle);
    UnusedUpdate(g.maxOp, s.ops, t, Idle);
    forall r | 0 <= r < |s'.ops|
      ensures OpOk(g, s'.bufs, s'.lh, s'.nextId, r, s'.ops[r]) && (r == t || s'.ops[r] == s.ops[r])
    {
      assert OpOk(g, s.bufs, s.lh, s.nextId, r, s.ops[r]);
    }
  }

  /** With an empty log and nobody running, every update so far is in the committed prefix. */
  lemma NothingLeft(hist: seq<Update>, cut: nat, ops: seq<Op>)
    requires Covered(hist, cut, [], ops) && cut <= |hist|
    requires Active(ops) == 0
    ensures cut == |hist|
  {
    NoneActive(ops);
    assert forall b: nat :: !Unlogged(ops, b);
    assert forall i :: cut <= i < |hist| ==> Unlogged(ops, hist[i].bno);
    assert cut < |hist| ==> Unlogged(ops, hist[cut].bno);
  }

  lemma EndKeeps(g: Geometry, s: State, t: nat)
    requires Inv(g, s) && CanEnd(s, t)
    ensures Inv(g, End(s, t)) && End(s, t).panicked == s.panicked
  {
    hide CacheInv, Synced, DiskSpells, PhaseOk, HistOk, OpsInv, OpsWhole, Covered;
    OpMeansRunning(g, s, t);
    EndOps(g, s, t);
    EndDisk(g, s, t);
    EndHist(g, s, t);
  }

  lemma EndDisk(g: Geometry, s: State, t: nat)
    requires CanEnd(s, t) && s.phase.Running?
    requires Synced(s.disk, s.cur, s.lh, s.ops) && PhaseOk(g, s.disk, s.cur, s.phase, s.lh)
    ensures var s' := End(s, t);
            && Pins(s'.phase, s'.lh) == s.lh
            && Synced(s'.disk, s'.cur, s.lh, s'.ops) && PhaseOk(g, s'.disk, s'.cur, s'.phase, s'.lh)
  {
    CleanSwitch(s.ops, t, Idle);
  }

  lemma EndHist(g: Geometry, s: State, t: nat)
    requires CanEnd(s, t) && s.phase.Running? && HistOk(g, s) && OpsInv(g, End(s, t))
    requires OpsWhole(s.hist, s.cut, s.ops, s.nextId) && Covered(s.hist, s.cut, s.lh, s.ops)
    ensures var s' := End(s, t);
            HistOk(g, s') && OpsWhole(s'.hist, s'.cut, s'.ops, s'.nextId) && Covered(s'.hist, s'.cut, s'.lh, s'.ops)
  {
    var s' := End(s, t);
    CleanSwitch(s.ops, t, Idle);
    if s'.phase.Finish? {
      NothingLeft(s'.hist, s'.cut, s'.ops);
    }
  }

  // ---------------------------------------------------------------- commit

  /** With no operation running, every block outside the pinned ones is on disk. */
  lemma QuietDisk(g: Geometry, s: State)
    requires Inv(g, s) && !s.phase.Running?
    ensures forall t :: 0 <= t < |s.ops| ==> s.ops[t].Idle?
    ensures forall b: nat :: !Unlogged(s.ops, b)
    ensures Unused(g.maxOp, s.ops) == 0
  {
    NoneActive(s.ops);
    UnusedCovers(g.maxOp, 0, s.ops);
  }

  /** Writing value v to block p through buffer i, which holds p. */
  lemma WriteThrough(bufs: seq<Buf>, cur: Disk, pins: seq<nat>, i: nat, v: Block)
    requires CacheInv(bufs, cur, pins) && i < |bufs| && bufs[i].valid
    ensures CacheInv(bufs[i := bufs[i].(data := v)], cur[bufs[i].bno := v], pins)
  {
    StaysCached(bufs, i, bufs[i].(data := v), pins);
  }

  lemma CopyDisk(g: Geometry, disk: Disk, cur: Disk, durable: Disk, lh: seq<nat>, who: nat, k: nat, p: nat, v: Block)
    requires g.Valid() && ValidDisk(g, disk) && ValidDisk(g, cur)
    requires DiskSpells(g, disk, durable) && PhaseOk(g, disk, cur, WriteLog(who, k), lh)
    requires k < |lh| && p == g.start + 1 + k && v == cur[lh[k]]
    ensures ValidDisk(g, disk[p := v]) && ValidDisk(g, cur[p := v])
    ensures DiskSpells(g, disk[p := v], durable)
    ensures PhaseOk(g, disk[p := v], cur[p := v], WriteLog(who, k + 1), lh)
  {
    assert HeadOf(g, disk[p := v]) == [];
  }

  lemma CopyKeeps(g: Geometry, s: State, i: nat, j: nat)
    requires Inv(g, s) && CanCopy(g, s, i, j)
    ensures Inv(g, Copy(g, s, i, j))
  {
    hide CacheInv, Synced, DiskSpells, PhaseOk, HistOk, OpsInv, OpsWhole, Covered, ValidDisk;
    CopyBlocks(g, s, i, j);
    TailOk(g, s);
    QuietOps(g, s, Copy(g, s, i, j));
    CopyHist(g, s, i, j);
  }

  /** What is known when a block is copied to the log. */
  lemma CopyFacts(g: Geometry, s: State, i: nat, j: nat)
    requires Inv(g, s) && CanCopy(g, s, i, j)
    ensures s.phase.WriteLog? && s.phase.tail < |s.lh| && i < |s.bufs| && j < |s.bufs|
    ensures s.bufs[i].valid && s.bufs[i].bno == g.start + 1 + s.phase.tail < |s.disk| == |s.cur|
    ensures s.lh[s.phase.tail] < |s.cur| && s.bufs[j].data == s.cur[s.lh[s.phase.tail]]
    ensures CacheInv(s.bufs, s.cur, s.lh) && Synced(s.disk, s.cur, s.lh, s.ops)
  {
    BufValue(g, s, j);
    hide CacheInv, Synced, DiskSpells, HistOk, OpsInv, OpsWhole, Covered, Copy;
  }

  lemma CopyBlocks(g: Geometry, s: State, i: nat, j: nat)
    requires Inv(g, s) && CanCopy(g, s, i, j)
    ensures var s' := Copy(g, s, i, j);
            && Shape(g, s') && CacheInv(s'.bufs, s'.cur, s.lh) && Synced(s'.disk, s'.cur, s.lh, s'.ops)
            && DiskSpells(g, s'.disk, s'.durable) && PhaseOk(g, s'.disk, s'.cur, s'.phase, s'.lh)
  {
    hide CacheInv, Synced, DiskSpells, PhaseOk, HistOk, OpsInv, OpsWhole, Covered, ValidDisk, Copy, CanCopy, Pins;
    CopyIs(g, s, i, j);
    CopyFacts(g, s, i, j);
    var p, v := g.start + 1 + s.phase.tail, s.bufs[j].data;
    CopyDisk(g, s.disk, s.cur, s.durable, s.lh, s.phase.who, s.phase.tail, p, v);
    WriteThrough(s.bufs, s.cur, s.lh, i, v);
    CopySynced(s.disk, s.cur, s.lh, s.ops, p, v);
  }

  lemma CopyIs(g: Geometry, s: State, i: nat, j: nat)
    requires CanCopy(g, s, i, j)
    ensures var p, v := g.start + 1 + s.phase.tail, s.bufs[j].data;
            Copy(g, s, i, j) == s.(disk := s.disk[p := v], cur := s.cur[p := v],
              bufs := s.bufs[i := s.bufs[i].(data := v)], phase := WriteLog(s.phase.who, s.phase.tail + 1))
  {
  }

  /** A valid buffer holds the current value; the entries of the log are home blocks that fit it. */
  lemma BufValue(g: Geometry, s: State, i: nat)
    requires Inv(g, s) && i < |s.bufs| && s.bufs[i].valid
    ensures s.bufs[i].bno < |s.cur| && s.bufs[i].data == s.cur[s.bufs[i].bno]
  {
  }

  lemma TailOk(g: Geometry, s: State)
    requires Inv(g, s)
    ensures |s.lh| <= g.size - 1 && forall k :: 0 <= k < |s.lh| ==> g.IsHome(s.lh[k])
  {
  }

  /** With nobody in an operation, a step of commit or recovery cannot disturb one. */
  lemma QuietOps(g: Geometry, s: State, s': State)
    requires g.Valid() && OpsInv(g, s) && !s.phase.Running?
    requires s'.ops == s.ops && s'.outstanding == s.outstanding && s'.nextId == s.nextId && s'.asleep == s.asleep
    requires s'.lh == s.lh || s'.lh == []
    requires if Booting(s.phase) then Booting(s'.phase) || s'.lh == [] else Committing(s'.phase)
    ensures OpsInv(g, s')
  {
    NoneActive(s.ops);
    UnusedCovers(g.maxOp, 0, s.ops);
  }

  lemma CopySynced(disk: Disk, cur: Disk, pins: seq<nat>, ops: seq<Op>, p: nat, v: Block)
    requires Synced(disk, cur, pins, ops) && p < |disk|
    ensures Synced(disk[p := v], cur[p := v], pins, ops)
  {
  }

  lemma CopyHist(g: Geometry, s: State, i: nat, j: nat)
    requires HistOk(g, s) && CanCopy(g, s, i, j) && s.phase.tail < g.size - 1
    ensures HistOk(g, Copy(g, s, i, j))
  {
  }

  lemma CommitHeadDisk(g: Geometry, disk: Disk, cur: Disk, lh: seq<nat>, who: nat, ops: seq<Op>)
    requires g.Valid() && ValidDisk(g, disk) && ValidDisk(g, cur)
    requires PhaseOk(g, disk, cur, WriteLog(who, |lh|), lh)
    requires Synced(disk, cur, lh, ops) && forall b: nat :: !Unlogged(ops, b)
    requires 1 + |lh| <= g.words
    ensures var v := EncodeHead(disk[g.start], lh);
            && DiskSpells(g, disk[g.start := v], cur)
            && PhaseOk(g, disk[g.start := v], cur[g.start := v], Install(who, 0), lh)
  {
    assert HeadOf(g, disk[g.start := EncodeHead(disk[g.start], lh)]) == lh;
  }

  lemma CommitHeadKeeps(g: Geometry, s: State, i: nat)
    requires Inv(g, s) && CanCommitHead(g, s, i)
    ensures Inv(g, CommitHead(g, s, i))
  {
    hide CacheInv, Synced, DiskSpells, PhaseOk, HistOk, OpsInv, OpsWhole, Covered, EncodeHead, Pins;
    QuietDisk(g, s);
    HeaderValue(g, s, i);
    assert |s.disk[g.start]| == g.words;
    CommitHeadCache(g, s, i);
    hide ValidDisk;
    CommitHeadDisk(g, s.disk, s.cur, s.lh, s.phase.who, s.ops);
    QuietOps(g, s, CommitHead(g, s, i));
    CommitHeadHist(g, s, i);
  }

  /** The pins stay as they are, and the header is written through. */
  lemma CommitHeadCache(g: Geometry, s: State, i: nat)
    requires CacheInv(s.bufs, s.cur, Pins(s.phase, s.lh)) && Synced(s.disk, s.cur, Pins(s.phase, s.lh), s.ops)
    requires CanCommitHead(g, s, i)
    ensures var s' := CommitHead(g, s, i);
            && CacheInv(s'.bufs, s'.cur, Pins(s'.phase, s'.lh))
            && Synced(s'.disk, s'.cur, Pins(s'.phase, s'.lh), s'.ops)
            && Pins(s.phase, s.lh) == s.lh
  {
    hide CacheInv, Synced, EncodeHead;
    var s' := CommitHead(g, s, i);
    var v := EncodeHead(s.bufs[i].data, s.lh);
    WriteThrough(s.bufs, s.cur, s.lh, i, v);
    CopySynced(s.disk, s.cur, s.lh, s.ops, g.start, v);
    assert Pins(s'.phase, s.lh) == s.lh;
  }

  /** A buffer holding the header block agrees with the header on disk. */
  lemma HeaderValue(g: Geometry, s: State, i: nat)
    requires Inv(g, s) && !s.phase.Running? && i < |s.bufs| && s.bufs[i].valid && s.bufs[i].bno == g.start
    ensures s.bufs[i].data == s.disk[g.start]
  {
    QuietDisk(g, s);
    assert g.start !in Pins(s.phase, s.lh);
  }

  lemma CommitHeadHist(g: Geometry, s: State, i: nat)
    requires g.Valid() && HistOk(g, s) && CanCommitHead(g, s, i) && OpsWhole(s.hist, s.cut, s.ops, s.nextId)
    requires forall t :: 0 <= t < |s.ops| ==> s.ops[t].Idle?
    ensures var s' := CommitHead(g, s, i);
            && HistOk(g, s') && OpsWhole(s'.hist, s'.cut, s'.ops, s'.nextId)
            && Covered(s'.hist, s'.cut, s'.lh, s'.ops)
  {
    var s' := CommitHead(g, s, i);
    assert s'.hist[..s'.cut] == s.hist;
  }

  /** Installing entry k writes back what the cache already holds. */
  lemma InstallDisk(g: Geometry, disk: Disk, cur: Disk, durable: Disk, lh: seq<nat>, who: nat, k: nat)
    requires g.Valid() && ValidDisk(g, disk) && ValidDisk(g, cur)
    requires DiskSpells(g, disk, durable) && PhaseOk(g, disk, cur, Install(who, k), lh)
    requires k < |lh|
    ensures var v := cur[lh[k]];
            && ValidDisk(g, disk[lh[k] := v])
            && DiskSpells(g, disk[lh[k] := v], durable)
            && PhaseOk(g, disk[lh[k] := v], cur, Install(who, k + 1), lh)
  {
    assert disk[g.start + 1 + k] == cur[lh[k]];
    assert HeadOf(g, disk[lh[k] := cur[lh[k]]]) == lh;
  }

  lemma Unpin(bufs: seq<Buf>, cur: Disk, pins: seq<nat>, j: nat)
    requires CacheInv(bufs, cur, pins) && Distinct(pins)
    requires j < |bufs| && bufs[j].valid && 0 < |pins| && bufs[j].bno == pins[0] && bufs[j].refcnt > 0
    ensures CacheInv(bufs[j := bufs[j].(refcnt := bufs[j].refcnt - 1)], cur, pins[1..])
  {
    var bufs' := bufs[j := bufs[j].(refcnt := bufs[j].refcnt - 1)];
    assert pins == [pins[0]] + pins[1..];
    assert PinsCached(bufs, pins[1..]);
    assert pins[0] !in pins[1..];
    hide Cached;
    StaysCached(bufs, j, bufs'[j], pins[1..]);
  }

  /** The log block being installed holds what the cache holds for its home block. */
  lemma InstallValue(g: Geometry, s: State, i: nat, j: nat)
    requires g.Valid() && PhaseOk(g, s.disk, s.cur, s.phase, s.lh) && Coherent(s.bufs, s.cur)
    requires CanInstall(g, s, i, j)
    requires Synced(s.disk, s.cur, Pins(s.phase, s.lh), s.ops) && forall b: nat :: !Unlogged(s.ops, b)
    ensures s.bufs[i].data == s.disk[g.start + 1 + s.phase.tail] == s.cur[s.lh[s.phase.tail]] == s.bufs[j].data
  {
    hide PhaseOk, Coherent, Synced, Unlogged, Pins;
    var p, b := g.start + 1 + s.phase.tail, s.lh[s.phase.tail];
    HoldsCurrent(s.bufs, s.cur, i);
    HoldsCurrent(s.bufs, s.cur, j);
    LoggedValue(g, s.disk, s.cur, s.phase, s.lh);
    SyncedAt(s.disk, s.cur, Pins(s.phase, s.lh), s.ops, p);
  }

  lemma HoldsCurrent(bufs: seq<Buf>, cur: Disk, i: nat)
    requires Coherent(bufs, cur) && i < |bufs| && bufs[i].valid
    ensures bufs[i].bno < |cur| && bufs[i].data == cur[bufs[i].bno]
  {
  }

  lemma SyncedAt(disk: Disk, cur: Disk, pins: seq<nat>, ops: seq<Op>, p: nat)
    requires Synced(disk, cur, pins, ops) && p < |disk| && p !in pins && forall b: nat :: !Unlogged(ops, b)
    ensures disk[p] == cur[p]
  {
  }

  /** While installing, the next log block holds the current value of its home block and is itself not logged. */
  lemma LoggedValue(g: Geometry, disk: Disk, cur: Disk, phase: Phase, lh: seq<nat>)
    requires g.Valid() && PhaseOk(g, disk, cur, phase, lh) && phase.Install? && phase.tail < |lh|
    ensures var p := g.start + 1 + phase.tail;
            p < |disk| && lh[phase.tail] < |cur| && disk[p] == cur[lh[phase.tail]] && p !in Pins(phase, lh)
  {
  }

  lemma InstallForm(g: Geometry, s: State, i: nat, j: nat, u: Buf)
    requires CanInstall(g, s, i, j)
    requires s.bufs[i].data == s.cur[s.lh[s.phase.tail]] == s.bufs[j].data
    requires u == s.bufs[j].(refcnt := s.bufs[j].refcnt - 1)
    ensures InstallOne(g, s, i, j) == Installing(s, s.lh[s.phase.tail], j, u)
  {
  }

  /** The effect of an install turn when the value written is the cached one. */
  function Installing(s: State, b: nat, j: nat, u: Buf): State
    requires b < |s.disk| == |s.cur| && j < |s.bufs| && s.phase.Install?
  {
    s.(disk := s.disk[b := s.cur[b]], bufs := s.bufs[j := u], phase := Install(s.phase.who, s.phase.tail + 1))
  }

  lemma InstallKeeps(g: Geometry, s: State, i: nat, j: nat)
    requires Inv(g, s) && CanInstall(g, s, i, j)
    ensures Inv(g, InstallOne(g, s, i, j))
  {
    var u := s.bufs[j].(refcnt := s.bufs[j].refcnt - 1);
    QuietDisk(g, s);
    InstallValue(g, s, i, j);
    InstallForm(g, s, i, j, u);
    InstallingKeeps(g, s, j, u);
  }

  lemma InstallingKeeps(g: Geometry, s: State, j: nat, u: Buf)
    requires Inv(g, s) && s.phase.Install? && s.phase.tail < |s.lh|
    requires j < |s.bufs| && s.bufs[j].valid && s.bufs[j].bno == s.lh[s.phase.tail]
    requires s.bufs[j].refcnt > 0 && u == s.bufs[j].(refcnt := s.bufs[j].refcnt - 1)
    ensures Inv(g, Installing(s, s.lh[s.phase.tail], j, u))
  {
    hide CacheInv, Synced, DiskSpells, PhaseOk, HistOk, OpsInv, OpsWhole, Covered, ValidDisk, Distinct, Pins;
    InstallLog(g, s);
    InstallPins(g, s, j, u);
    InstallDisk(g, s.disk, s.cur, s.durable, s.lh, s.phase.who, s.phase.tail);
    QuietOps(g, s, Installing(s, s.lh[s.phase.tail], j, u));
    InstallHist(g, s, j, u);
  }

  lemma InstallLog(g: Geometry, s: State)
    requires Inv(g, s) && s.phase.Install? && s.phase.tail < |s.lh|
    ensures Distinct(s.lh) && s.lh[s.phase.tail] < |s.disk| == |s.cur|
  {
  }

  lemma InstallHist(g: Geometry, s: State, j: nat, u: Buf)
    requires HistOk(g, s) && s.phase.Install? && s.phase.tail < |s.lh| && j < |s.bufs|
    requires s.lh[s.phase.tail] < |s.disk| == |s.cur|
    ensures HistOk(g, Installing(s, s.lh[s.phase.tail], j, u))
  {
  }

  lemma InstallPins(g: Geometry, s: State, j: nat, u: Buf)
    requires CacheInv(s.bufs, s.cur, Pins(s.phase, s.lh)) && Synced(s.disk, s.cur, Pins(s.phase, s.lh), s.ops)
    requires s.phase.Install? && s.phase.tail < |s.lh| && Distinct(s.lh) && s.lh[s.phase.tail] < |s.disk|
    requires j < |s.bufs| && s.bufs[j].valid && s.bufs[j].bno == s.lh[s.phase.tail] && s.bufs[j].refcnt > 0
    requires u == s.bufs[j].(refcnt := s.bufs[j].refcnt - 1)
    ensures var b := s.lh[s.phase.tail];
            var pins' := Pins(Install(s.phase.who, s.phase.tail + 1), s.lh);
            && CacheInv(s.bufs[j := u], s.cur, pins')
            && Synced(s.disk[b := s.cur[b]], s.cur, pins', s.ops)
  {
    hide CacheInv, Synced, Distinct;
    var k := s.phase.tail;
    var pins := s.lh[k..];
    DistinctTail(s.lh, k);
    assert pins[0] == s.lh[k] && pins[1..] == s.lh[k + 1..];
    Unpin(s.bufs, s.cur, pins, j);
    InstallSynced(s.disk, s.cur, pins, s.ops, s.lh[k]);
  }

  lemma DistinctTail(lh: seq<nat>, k: nat)
    requires Distinct(lh) && k <= |lh|
    ensures Distinct(lh[k..])
  {
  }

  lemma InstallSynced(disk: Disk, cur: Disk, pins: seq<nat>, ops: seq<Op>, b: nat)
    requires Synced(disk, cur, pins, ops) && 0 < |pins| && pins[0] == b < |disk|
    ensures Synced(disk[b := cur[b]], cur, pins[1..], ops)
  {
    assert pins == [b] + pins[1..];
  }

  lemma ClearDisk(g: Geometry, disk: Disk, cur: Disk, durable: Disk, lh: seq<nat>, who: nat, ops: seq<Op>)
    requires g.Valid() && ValidDisk(g, disk) && ValidDisk(g, cur)
    requires DiskSpells(g, disk, durable) && PhaseOk(g, disk, cur, Install(who, |lh|), lh)
    requires Synced(disk, cur, [], ops) && forall b: nat :: !Unlogged(ops, b)
    ensures var v := EncodeHead(disk[g.start], []);
            && DiskSpells(g, disk[g.start := v], durable)
            && PhaseOk(g, disk[g.start := v], cur[g.start := v], Finish(who), [])
  {
    var v := EncodeHead(disk[g.start], []);
    assert HeadOf(g, disk[g.start := v]) == [];
    forall b: nat | g.IsHome(b) ensures durable[b] == disk[b] {
      if b in lh {
        var j :| 0 <= j < |lh| && lh[j] == b;
        assert durable[lh[j]] == disk[g.start + 1 + j] == cur[lh[j]];
      }
    }
  }

  lemma ClearHeadKeeps(g: Geometry, s: State, i: nat)
    requires Inv(g, s) && CanClearHead(g, s, i)
    ensures Inv(g, ClearHead(g, s, i))
  {
    var s' := ClearHead(g, s, i);
    var v := EncodeHead(s.bufs[i].data, []);
    hide CacheInv, Synced, DiskSpells, PhaseOk, HistOk, OpsInv, OpsWhole, Covered, EncodeHead;
    QuietDisk(g, s);
    HeaderValue(g, s, i);
    assert Pins(s.phase, s.lh) == [];
    ClearDisk(g, s.disk, s.cur, s.durable, s.lh, s.phase.who, s.ops);
    WriteThrough(s.bufs, s.cur, [], i, v);
    QuietOps(g, s, s');
    CopySynced(s.disk, s.cur, [], s.ops, g.start, v);
    ClearHist(g, s, i);
  }

  lemma ClearHist(g: Geometry, s: State, i: nat)
    requires g.Valid() && HistOk(g, s) && CanClearHead(g, s, i)
    ensures var s' := ClearHead(g, s, i); HistOk(g, s') && Covered(s'.hist, s'.cut, s'.lh, s'.ops)
  {
  }

  lemma FinishKeeps(g: Geometry, s: State)
    requires Inv(g, s) && s.phase.Finish?
    ensures Inv(g, FinishCommit(s))
  {
    QuietDisk(g, s);
  }

  // ---------------------------------------------------------------- crash and boot

  lemma CrashKeeps(g: Geometry, s: State)
    requires Inv(g, s)
    ensures Inv(g, Crash(g, s))
  {
    var s' := Crash(g, s);
    NoneActive(s'.ops);
    assert s'.hist[..s'.cut] == s.hist[..s.cut];
  }

  lemma ReadHeadKeeps(g: Geometry, s: State, i: nat)
    requires Inv(g, s) && CanReadHead(g, s, i)
    ensures Inv(g, ReadHead(g, s, i))
  {
    QuietDisk(g, s);
    assert s.bufs[i].data == s.disk[g.start];
  }

  lemma ReplayDisk(g: Geometry, disk: Disk, cur: Disk, durable: Disk, lh: seq<nat>, who: nat, k: nat, b: nat, v: Block)
    requires g.Valid() && ValidDisk(g, disk) && ValidDisk(g, cur)
    requires DiskSpells(g, disk, durable) && PhaseOk(g, disk, cur, Replay(who, k), lh)
    requires k < |lh| && b == lh[k] && v == disk[g.start + 1 + k]
    ensures ValidDisk(g, disk[b := v]) && ValidDisk(g, cur[b := v])
    ensures DiskSpells(g, disk[b := v], durable)
    ensures PhaseOk(g, disk[b := v], cur[b := v], Replay(who, k + 1), lh)
  {
    var d := disk[b := v];
    assert HeadOf(g, d) == lh && d[g.start] == disk[g.start];
    assert b != g.start && b < |disk| && g.IsHome(b);
    hide HeadOf;
    ReplayValid(g, disk, b, v);
    ReplayValid(g, cur, b, v);
    hide ValidDisk;
  }

  lemma ReplayValid(g: Geometry, d: Disk, b: nat, v: Block)
    requires ValidDisk(g, d) && b < |d| && |v| == g.words
    ensures ValidDisk(g, d[b := v])
  {
  }

  lemma ReplayKeeps(g: Geometry, s: State, i: nat, j: nat)
    requires Inv(g, s) && CanReplay(g, s, i, j)
    ensures Inv(g, ReplayOne(g, s, i, j))
  {
    hide CacheInv, Synced, DiskSpells, PhaseOk, HistOk, OpsInv, OpsWhole, Covered, ValidDisk;
    ReplayBlocks(g, s, i, j);
    QuietOps(g, s, ReplayOne(g, s, i, j));
    ReplayHist(g, s, i, j);
  }

  lemma ReplayBlocks(g: Geometry, s: State, i: nat, j: nat)
    requires Inv(g, s) && CanReplay(g, s, i, j)
    ensures var s' := ReplayOne(g, s, i, j);
            && Shape(g, s') && CacheInv(s'.bufs, s'.cur, []) && Synced(s'.disk, s'.cur, [], s'.ops)
            && DiskSpells(g, s'.disk, s'.durable) && PhaseOk(g, s'.disk, s'.cur, s'.phase, s'.lh)
  {
    hide CacheInv, Synced, DiskSpells, PhaseOk, HistOk, OpsInv, OpsWhole, Covered, ValidDisk;
    LogValue(g, s, i);
    ReplayDisk(g, s.disk, s.cur, s.durable, s.lh, s.phase.who, s.phase.tail, s.lh[s.phase.tail], s.bufs[i].data);
    ReplayCache(g, s, i, j);
  }

  lemma ReplayCache(g: Geometry, s: State, i: nat, j: nat)
    requires CacheInv(s.bufs, s.cur, []) && Synced(s.disk, s.cur, [], s.ops) && CanReplay(g, s, i, j)
    ensures var s' := ReplayOne(g, s, i, j);
            CacheInv(s'.bufs, s'.cur, []) && Synced(s'.disk, s'.cur, [], s'.ops)
  {
    hide CacheInv, Synced;
    WriteThrough(s.bufs, s.cur, [], j, s.bufs[i].data);
    CopySynced(s.disk, s.cur, [], s.ops, s.lh[s.phase.tail], s.bufs[i].data);
  }

  /** During recovery every buffer agrees with the disk. */
  lemma LogValue(g: Geometry, s: State, i: nat)
    requires Inv(g, s) && Booting(s.phase) && i < |s.bufs| && s.bufs[i].valid
    ensures s.bufs[i].bno < |s.disk| && s.bufs[i].data == s.disk[s.bufs[i].bno]
  {
    QuietDisk(g, s);
  }

  lemma ReplayHist(g: Geometry, s: State, i: nat, j: nat)
    requires HistOk(g, s) && CanReplay(g, s, i, j)
    ensures HistOk(g, ReplayOne(g, s, i, j))
  {
  }

  lemma BootDone(g: Geometry, disk: Disk, cur: Disk, durable: Disk, lh: seq<nat>, who: nat)
    requires g.Valid() && ValidDisk(g, disk) && ValidDisk(g, cur)
    requires DiskSpells(g, disk, durable) && PhaseOk(g, disk, cur, Replay(who, |lh|), lh)
    ensures var v := EncodeHead(disk[g.start], []);
            && SameHome(g, disk, durable)
            && DiskSpells(g, disk[g.start := v], durable)
            && PhaseOk(g, disk[g.start := v], cur[g.start := v], Running, [])
  {
    var v := EncodeHead(disk[g.start], []);
    assert HeadOf(g, disk[g.start := v]) == [];
    forall b: nat | g.IsHome(b) ensures durable[b] == disk[b] {
      if b in lh {
        var j :| 0 <= j < |lh| && lh[j] == b;
        assert durable[lh[j]] == disk[g.start + 1 + j] == disk[lh[j]];
      }
    }
  }

  lemma BootClearKeeps(g: Geometry, s: State, i: nat)
    requires Inv(g, s) && CanBootClear(g, s, i)
    ensures Inv(g, BootClear(g, s, i))
  {
    var s' := BootClear(g, s, i);
    var v := EncodeHead(s.bufs[i].data, []);
    hide CacheInv, Synced, DiskSpells, PhaseOk, HistOk, OpsInv, OpsWhole, Covered, EncodeHead;
    QuietDisk(g, s);
    LogValue(g, s, i);
    BootDone(g, s.disk, s.cur, s.durable, s.lh, s.phase.who);
    WriteThrough(s.bufs, s.cur, [], i, v);
    QuietOps(g, s, s');
    CopySynced(s.disk, s.cur, [], s.ops, g.start, v);
    BootHist(g, s, i);
  }

  lemma BootHist(g: Geometry, s: State, i: nat)
    requires g.Valid() && HistOk(g, s) && CanBootClear(g, s, i) && SameHome(g, s.disk, s.durable)
    requires Synced(s.disk, s.cur, [], s.ops) && forall b: nat :: !Unlogged(s.ops, b)
    ensures var s' := BootClear(g, s, i); HistOk(g, s') && Covered(s'.hist, s'.cut, s'.lh, s'.ops)
  {
    assert s.hist[..s.cut] == s.hist;
  }
}
