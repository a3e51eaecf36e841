/** The inductive invariant of the cache-and-log machine. */
module LogInvariant {
  import opened RedoLog
  import opened LogMachine

  ghost predicate Shape(g: Geometry, s: State) {
    && g.Valid()
    && ValidDisk(g, s.disk) && ValidDisk(g, s.cur) && |s.durable| == |s.base| == g.nblocks
    && |s.bufs| == g.nbuf && |s.ops| == g.nproc
  }

  // ---------------------------------------------------------------- cache

  /** Blocks whose buffer carries the extra reference taken by log_write's bpin. */
  ghost function Pins(phase: Phase, lh: seq<nat>): seq<nat> {
    match phase
    case Running => lh
    case WriteLog(_, _) => lh
    case Install(_, k) => if k <= |lh| then lh[k..] else []
    case _ => []
  }

  ghost predicate Cached(bufs: seq<Buf>, b: nat) {
    exists i :: 0 <= i < |bufs| && bufs[i].Has(b) && bufs[i].valid
  }

  /** No two buffers hold the same block of the file-system device. */
  ghost predicate Unique(bufs: seq<Buf>) {
    forall i, j :: 0 <= i < j < |bufs| && bufs[i].dev == ROOTDEV && bufs[j].dev == ROOTDEV ==>
      bufs[i].bno != bufs[j].bno
  }

  function Refs(u: Buf): nat {
    |u.waiting| + if u.holder.Some? then 1 else 0
  }

  /** A reference count is exactly the holder, the waiters and the pin. */
  ghost predicate Counted(bufs: seq<Buf>, pins: seq<nat>) {
    forall i :: 0 <= i < |bufs| ==>
      bufs[i].refcnt == Refs(bufs[i]) + if bufs[i].dev == ROOTDEV && bufs[i].bno in pins then 1 else 0
  }

  /** A valid buffer holds the last value written to its block. */
  ghost predicate Coherent(bufs: seq<Buf>, cur: Disk) {
    forall i :: 0 <= i < |bufs| ==>
      && (bufs[i].dev == ROOTDEV ==> bufs[i].bno < |cur|)
      && (bufs[i].dev != ROOTDEV ==> bufs[i].refcnt == 0)
      && (bufs[i].valid ==> bufs[i].dev == ROOTDEV && bufs[i].data == cur[bufs[i].bno])
  }

  /** A logged block that is not yet installed stays cached. */
  ghost predicate PinsCached(bufs: seq<Buf>, pins: seq<nat>) {
    forall b :: b in pins ==> Cached(bufs, b)
  }

  ghost predicate CacheInv(bufs: seq<Buf>, cur: Disk, pins: seq<nat>) {
    Unique(bufs) && Counted(bufs, pins) && Coherent(bufs, cur) && PinsCached(bufs, pins)
  }

  ghost predicate HasUnlogged(op: Op, b: nat) {
    op.InOp? && b in op.unlogged
  }

  ghost predicate Unlogged(ops: seq<Op>, b: nat) {
    exists t :: 0 <= t < |ops| && HasUnlogged(ops[t], b)
  }

  /** The disk holds the last value written, except for pinned blocks and ones being modified. */
  ghost predicate Synced(disk: Disk, cur: Disk, pins: seq<nat>, ops: seq<Op>) {
    && |disk| == |cur|
    && forall b: nat :: b < |disk| ==> disk[b] == cur[b] || b in pins || Unlogged(ops, b)
  }

  // ---------------------------------------------------------------- operations and log

  ghost predicate HeldValid(bufs: seq<Buf>, t: nat, b: nat) {
    exists i :: 0 <= i < |bufs| && bufs[i].Ready(t, b)
  }

  ghost predicate OpOk(g: Geometry, bufs: seq<Buf>, lh: seq<nat>, nextId: nat, t: nat, op: Op) {
    op.InOp? ==>
      && op.id < nextId
      && |op.logged| <= g.budget
      && (forall b :: b in op.logged ==> b in lh)
      && (forall b :: b in op.unlogged ==> g.IsHome(b) && HeldValid(bufs, t, b))
  }

  ghost predicate OpsOk(g: Geometry, bufs: seq<Buf>, lh: seq<nat>, nextId: nat, ops: seq<Op>) {
    && (forall t :: 0 <= t < |ops| ==> OpOk(g, bufs, lh, nextId, t, ops[t]))
    && (forall t, u :: 0 <= t < u < |ops| && ops[t].InOp? && ops[u].InOp? ==> ops[t].id != ops[u].id)
  }

  /** Number of processes inside an operation. */
  function Active(ops: seq<Op>): nat {
    if ops == [] then 0
    else Active(ops[..|ops| - 1]) + if ops[|ops| - 1].InOp? then 1 else 0
  }

  /** Log space the running operations have reserved and not used. */
  function Unused(limit: nat, ops: seq<Op>): int {
    if ops == [] then 0
    else
      var op := ops[|ops| - 1];
      Unused(limit, ops[..|ops| - 1]) + if op.InOp? then limit - |op.logged| else 0
  }

  ghost predicate LogOk(g: Geometry, lh: seq<nat>) {
    LegalHead(g, lh) && Distinct(lh)
  }

  /** Space admission: what is logged plus what is still promised fits LOGSIZE. */
  ghost predicate SpaceOk(g: Geometry, phase: Phase, lh: seq<nat>, ops: seq<Op>) {
    !Booting(phase) ==> |lh| + Unused(g.maxOp, ops) <= g.logSize
  }

  /** Nobody sleeps on &log without reason. */
  ghost predicate SleepersWait(g: Geometry, phase: Phase, lh: seq<nat>, outstanding: nat, ops: seq<Op>,
                               asleep: set<nat>) {
    && (asleep != {} ==> MustWait(g, phase, lh, outstanding) && !Booting(phase))
    && (forall t :: t in asleep ==> t < |ops| && ops[t].Idle?)
  }

  ghost predicate OpsInv(g: Geometry, s: State) {
    && s.outstanding == Active(s.ops)
    && (!s.phase.Running? ==> s.outstanding == 0)
    && OpsOk(g, s.bufs, s.lh, s.nextId, s.ops)
    && SpaceOk(g, s.phase, s.lh, s.ops)
    && SleepersWait(g, s.phase, s.lh, s.outstanding, s.ops, s.asleep)
  }

  // ---------------------------------------------------------------- disk contents

  /** The header on disk and its log blocks, over the home blocks, spell out `durable`. */
  ghost predicate DiskSpells(g: Geometry, disk: Disk, durable: Disk) {
    && LegalImage(g, disk) && |durable| == g.nblocks
    && Distinct(HeadOf(g, disk))
    && (forall j :: 0 <= j < |HeadOf(g, disk)| ==> durable[HeadOf(g, disk)[j]] == disk[g.start + 1 + j])
    && (forall b: nat :: g.IsHome(b) && b !in HeadOf(g, disk) ==> durable[b] == disk[b])
  }

  ghost predicate PhaseOk(g: Geometry, disk: Disk, cur: Disk, phase: Phase, lh: seq<nat>) {
    && LegalImage(g, disk) && |cur| == g.nblocks && LogOk(g, lh)
    && match phase
       case Running => HeadOf(g, disk) == []
       case WriteLog(_, k) =>
         && HeadOf(g, disk) == [] && k <= |lh| && lh != []
         && (forall j :: 0 <= j < k ==> disk[g.start + 1 + j] == cur[lh[j]])
       case Install(_, k) =>
         && HeadOf(g, disk) == lh && k <= |lh|
         && (forall j :: 0 <= j < |lh| ==> disk[g.start + 1 + j] == cur[lh[j]])
       case Finish(_) => HeadOf(g, disk) == [] && lh == []
       case BootRead(_) => lh == []
       case Replay(_, k) =>
         && HeadOf(g, disk) == lh && k <= |lh|
         && (forall j :: 0 <= j < k ==> disk[lh[j]] == disk[g.start + 1 + j])
  }

  // ---------------------------------------------------------------- history

  /** Block b after a sequence of updates. */
  function Latest(hist: seq<Update>, b: nat, under: Block): Block {
    if hist == [] then under
    else if hist[|hist| - 1].bno == b then hist[|hist| - 1].data
    else Latest(hist[..|hist| - 1], b, under)
  }

  /** Disk d is what the updates hist make of base, on every home block. */
  ghost predicate Reflects(g: Geometry, d: Disk, base: Disk, hist: seq<Update>) {
    && |d| == |base| == g.nblocks
    && forall b: nat :: g.IsHome(b) ==> d[b] == Latest(hist, b, base[b])
  }

  ghost predicate HistOk(g: Geometry, s: State) {
    && s.cut <= |s.hist|
    && (Booting(s.phase) || s.phase.Install? || s.phase.Finish? ==> s.cut == |s.hist|)
    && Reflects(g, s.durable, s.base, s.hist[..s.cut])
    && (!Booting(s.phase) ==> Reflects(g, s.cur, s.base, s.hist))
  }

  /** No operation has updates on both sides of the committed prefix. */
  ghost predicate OpsWhole(hist: seq<Update>, cut: nat, ops: seq<Op>, nextId: nat) {
    && cut <= |hist|
    && (forall i :: 0 <= i < |hist| ==> hist[i].op < nextId)
    && (forall i, j :: 0 <= i < cut <= j < |hist| ==> hist[i].op != hist[j].op)
    && (forall i, t :: 0 <= i < cut && 0 <= t < |ops| && ops[t].InOp? ==> hist[i].op != ops[t].id)
  }

  /** Updates after the committed prefix are in the current transaction or about to be. */
  ghost predicate Covered(hist: seq<Update>, cut: nat, lh: seq<nat>, ops: seq<Op>) {
    forall i :: cut <= i < |hist| ==> hist[i].bno in lh || Unlogged(ops, hist[i].bno)
  }

  ghost predicate Inv(g: Geometry, s: State) {
    && Shape(g, s)
    && CacheInv(s.bufs, s.cur, Pins(s.phase, s.lh))
    && OpsInv(g, s)
    && Synced(s.disk, s.cur, Pins(s.phase, s.lh), s.ops)
    && DiskSpells(g, s.disk, s.durable)
    && PhaseOk(g, s.disk, s.cur, s.phase, s.lh)
    && HistOk(g, s)
    && OpsWhole(s.hist, s.cut, s.ops, s.nextId)
    && Covered(s.hist, s.cut, s.lh, s.ops)
  }
}
