/**
  The buffer cache (kernel/bio.c) and the log (kernel/log.c) as one interleaved state
  machine: any number of processes take steps in any order, each step is one critical
  section, one buffer access or one atomic disk block write, and the machine can lose
  power between any two steps.
 */
module LogMachine {
  import opened Common
  import opened RedoLog

  /** struct buf; `waiting` are the processes that took a reference and now wait for the sleep lock. */
  datatype Buf = Buf(dev: nat, bno: nat, valid: bool, refcnt: nat, holder: Option<nat>, waiting: set<nat>, data: Block)
  {
    predicate Has(b: nat) {
      dev == ROOTDEV && bno == b
    }

    predicate HeldBy(t: nat) {
      holder == Some(t)
    }

    /** Locked by t and holding the contents of block b. */
    predicate Ready(t: nat, b: nat) {
      Has(b) && HeldBy(t) && valid
    }
  }

  /**
    A process between begin_op and end_op: the blocks it has logged so far, and those it has
    modified in the cache but not logged yet.
   */
  datatype Op = Idle | InOp(id: nat, logged: set<nat>, unlogged: set<nat>)

  datatype Update = Update(op: nat, bno: nat, data: Block)

  /** Where the committing process, or the booting one, stands. */
  datatype Phase =
    | Running
    | WriteLog(who: nat, tail: nat)
    | Install(who: nat, tail: nat)
    | Finish(who: nat)
    | BootRead(who: nat)
    | Replay(who: nat, tail: nat)

  datatype State = State(
    disk: Disk,
    bufs: seq<Buf>,
    lh: seq<nat>,        // log.lh.block[0..log.lh.n]
    outstanding: nat,    // log.outstanding
    phase: Phase,        // log.committing, and the program counter of commit and recovery
    ops: seq<Op>,        // per process
    asleep: set<nat>,    // processes asleep on &log in begin_op
    panicked: bool,      // log_write or end_op has panicked
    starved: bool,       // bget has panicked
    // what an observer records
    cur: Disk,           // the last value written to each block, by anyone
    durable: Disk,       // the file system the last committed transaction produced
    base: Disk,          // the file system the run started from
    hist: seq<Update>,   // every modification of a home block since then, in order
    cut: nat,            // how many of them the last committed transaction covers
    nextId: nat)

  predicate Committing(p: Phase) {
    p.WriteLog? || p.Install? || p.Finish?
  }

  predicate Booting(p: Phase) {
    p.BootRead? || p.Replay?
  }

  // ---------------------------------------------------------------- bio.c

  /** How often process t holds or waits for this buffer. */
  function TakesOne(u: Buf, t: nat): nat {
    (if u.holder == Some(t) then 1 else 0) + if t in u.waiting then 1 else 0
  }

  /** How many buffers process t holds or waits for. */
  function Takes(bufs: seq<Buf>, t: nat): nat {
    if bufs == [] then 0 else Takes(bufs[..|bufs| - 1], t) + TakesOne(bufs[|bufs| - 1], t)
  }

  /** Process t may call bget: it is not asleep in another one, and it has not got all it ever has at a time. */
  predicate CanAsk(g: Geometry, s: State, t: nat) {
    t < g.nproc && Takes(s.bufs, t) < g.held && forall i :: 0 <= i < |s.bufs| ==> t !in s.bufs[i].waiting
  }

  predicate CanHit(g: Geometry, s: State, t: nat, i: nat) {
    CanAsk(g, s, t) && i < |s.bufs| && s.bufs[i].dev == ROOTDEV
  }

  /** bget finds the block cached: take a reference, go and wait for the lock. */
  function Hit(g: Geometry, s: State, t: nat, i: nat): State
    requires CanHit(g, s, t, i)
  {
    var u := s.bufs[i];
    s.(bufs := s.bufs[i := u.(refcnt := u.refcnt + 1, waiting := u.waiting + {t})])
  }

  /** No buffer holds block b. */
  predicate Absent(bufs: seq<Buf>, b: nat) {
    forall j :: 0 <= j < |bufs| ==> !bufs[j].Has(b)
  }

  predicate CanMiss(g: Geometry, s: State, t: nat, i: nat, b: nat) {
    && CanAsk(g, s, t) && b < g.nblocks
    && i < |s.bufs| && s.bufs[i].refcnt == 0
    && Absent(s.bufs, b)
  }

  /** bget recycles an unreferenced buffer. */
  function Miss(g: Geometry, s: State, t: nat, i: nat, b: nat): State
    requires CanMiss(g, s, t, i, b)
  {
    var u := s.bufs[i];
    s.(bufs := s.bufs[i := u.(dev := ROOTDEV, bno := b, valid := false, refcnt := 1, waiting := u.waiting + {t})])
  }

  /** bget finds neither the block nor a buffer to recycle, and panics. */
  predicate CanStarve(g: Geometry, s: State, t: nat, b: nat) {
    && CanAsk(g, s, t) && b < g.nblocks && Absent(s.bufs, b)
    && forall i :: 0 <= i < |s.bufs| ==> s.bufs[i].refcnt > 0
  }

  function Starve(s: State): State {
    s.(starved := true)
  }

  predicate CanLock(s: State, t: nat, i: nat) {
    i < |s.bufs| && s.bufs[i].holder.None? && t in s.bufs[i].waiting
  }

  /** acquiresleep at the end of bget. */
  function Lock(s: State, t: nat, i: nat): State
    requires CanLock(s, t, i)
  {
    var u := s.bufs[i];
    s.(bufs := s.bufs[i := u.(holder := Some(t), waiting := u.waiting - {t})])
  }

  predicate CanFill(s: State, t: nat, i: nat) {
    i < |s.bufs| && s.bufs[i].HeldBy(t) && !s.bufs[i].valid && s.bufs[i].bno < |s.disk|
  }

  /** bread: read the block from disk if the buffer is not valid yet. */
  function Fill(s: State, t: nat, i: nat): State
    requires CanFill(s, t, i)
  {
    var u := s.bufs[i];
    s.(bufs := s.bufs[i := u.(valid := true, data := s.disk[u.bno])])
  }

  /** The rule of log.c's callers: a modified buffer is logged before it is released. */
  predicate CanRelease(s: State, t: nat, i: nat) {
    && i < |s.bufs| && t < |s.ops| && s.bufs[i].HeldBy(t)
    && s.bufs[i].refcnt > 0
    && (s.ops[t].InOp? ==> s.bufs[i].bno !in s.ops[t].unlogged)
  }

  function Release(s: State, t: nat, i: nat): State
    requires CanRelease(s, t, i)
  {
    var u := s.bufs[i];
    s.(bufs := s.bufs[i := u.(holder := None, refcnt := u.refcnt - 1)])
  }

  // ---------------------------------------------------------------- operations

  predicate CanModify(g: Geometry, s: State, t: nat, i: nat, v: Block) {
    && t < |s.ops| && s.ops[t].InOp?
    && i < |s.bufs| && s.bufs[i].Ready(t, s.bufs[i].bno)
    && g.IsHome(s.bufs[i].bno) && s.bufs[i].bno < |s.cur|
    && |v| == g.words
  }

  /** A process inside an operation changes the contents of a buffer it holds. */
  function Modify(g: Geometry, s: State, t: nat, i: nat, v: Block): State
    requires CanModify(g, s, t, i, v)
  {
    var u := s.bufs[i];
    var op := s.ops[t];
    s.(bufs := s.bufs[i := u.(data := v)],
       ops := s.ops[t := op.(unlogged := op.unlogged + {u.bno})],
       cur := s.cur[u.bno := v],
       hist := s.hist + [Update(op.id, u.bno, v)])
  }

  /** The refusals of log_write. */
  predicate LogFull(g: Geometry, s: State) {
    |s.lh| >= g.logSize || |s.lh| >= g.size - 1 || s.outstanding < 1
  }

  predicate CanLogWrite(g: Geometry, s: State, t: nat, i: nat) {
    && t < |s.ops| && s.ops[t].InOp?
    && i < |s.bufs| && s.bufs[i].Ready(t, s.bufs[i].bno)
    && g.IsHome(s.bufs[i].bno)
    && |s.ops[t].logged + {s.bufs[i].bno}| <= g.budget
  }

  function LogWrite(g: Geometry, s: State, t: nat, i: nat): State
    requires CanLogWrite(g, s, t, i)
  {
    var u := s.bufs[i];
    var op := s.ops[t];
    if LogFull(g, s) then s.(panicked := true)
    else
      var ops' := s.ops[t := op.(logged := op.logged + {u.bno}, unlogged := op.unlogged - {u.bno})];
      if u.bno in s.lh then s.(ops := ops')   // log absorption
      else s.(ops := ops', lh := s.lh + [u.bno], bufs := s.bufs[i := u.(refcnt := u.refcnt + 1)])
  }

  /** Why begin_op sleeps: a commit is running, or another MAXOPBLOCKS might not fit. */
  predicate MustWait(g: Geometry, phase: Phase, lh: seq<nat>, outstanding: nat) {
    Committing(phase) || |lh| + (outstanding + 1) * g.maxOp > g.logSize
  }

  predicate CanBegin(s: State, t: nat) {
    t < |s.ops| && s.ops[t].Idle? && t !in s.asleep && !Booting(s.phase)
  }

  /** One pass of begin_op's loop under log.lock. */
  function Begin(g: Geometry, s: State, t: nat): State
    requires CanBegin(s, t)
  {
    if MustWait(g, s.phase, s.lh, s.outstanding) then s.(asleep := s.asleep + {t})
    else s.(outstanding := s.outstanding + 1, ops := s.ops[t := InOp(s.nextId, {}, {})], nextId := s.nextId + 1)
  }

  predicate CanEnd(s: State, t: nat) {
    t < |s.ops| && s.ops[t].InOp? && s.ops[t].unlogged == {} && s.outstanding > 0
  }

  /** end_op's first critical section; the last operation out becomes the committer. */
  function End(s: State, t: nat): State
    requires CanEnd(s, t)
  {
    var s1 := s.(outstanding := s.outstanding - 1, ops := s.ops[t := Idle]);
    if Committing(s.phase) then s1.(panicked := true)
    else if s.outstanding == 1 then s1.(phase := if s.lh == [] then Finish(t) else WriteLog(t, 0))
    else s1.(asleep := {})
  }

  // ---------------------------------------------------------------- commit

  predicate CanCopy(g: Geometry, s: State, i: nat, j: nat) {
    && s.phase.WriteLog? && s.phase.tail < |s.lh|
    && i < |s.bufs| && j < |s.bufs|
    && s.bufs[i].Ready(s.phase.who, g.start + 1 + s.phase.tail)
    && s.bufs[j].Ready(s.phase.who, s.lh[s.phase.tail])
    && g.start + 1 + s.phase.tail < |s.disk| == |s.cur|
  }

  /** One turn of write_log: copy a cached block into its log block and write that. */
  function Copy(g: Geometry, s: State, i: nat, j: nat): State
    requires CanCopy(g, s, i, j)
  {
    var p := g.start + 1 + s.phase.tail;
    var v := s.bufs[j].data;
    s.(disk := s.disk[p := v], cur := s.cur[p := v],
       bufs := s.bufs[i := s.bufs[i].(data := v)],
       phase := WriteLog(s.phase.who, s.phase.tail + 1))
  }

  predicate CanCommitHead(g: Geometry, s: State, i: nat) {
    && s.phase.WriteLog? && s.phase.tail == |s.lh|
    && i < |s.bufs| && s.bufs[i].Ready(s.phase.who, g.start)
    && g.start < |s.disk| == |s.cur|
    && 1 + |s.lh| <= |s.bufs[i].data|
  }

  /** write_head with a non-empty header: the commit point. */
  function CommitHead(g: Geometry, s: State, i: nat): State
    requires CanCommitHead(g, s, i)
  {
    var v := EncodeHead(s.bufs[i].data, s.lh);
    s.(disk := s.disk[g.start := v], cur := s.cur[g.start := v],
       bufs := s.bufs[i := s.bufs[i].(data := v)],
       phase := Install(s.phase.who, 0),
       durable := s.cur, cut := |s.hist|)
  }

  predicate CanInstall(g: Geometry, s: State, i: nat, j: nat) {
    && s.phase.Install? && s.phase.tail < |s.lh|
    && i < |s.bufs| && j < |s.bufs|
    && s.bufs[i].Ready(s.phase.who, g.start + 1 + s.phase.tail)
    && s.bufs[j].Ready(s.phase.who, s.lh[s.phase.tail])
    && s.bufs[j].refcnt > 0
    && s.lh[s.phase.tail] < |s.disk| == |s.cur|
  }

  /** One turn of install_trans(0): copy a log block home, write it there and unpin it. */
  function InstallOne(g: Geometry, s: State, i: nat, j: nat): State
    requires CanInstall(g, s, i, j)
  {
    var b := s.lh[s.phase.tail];
    var v := s.bufs[i].data;
    s.(disk := s.disk[b := v], cur := s.cur[b := v],
       bufs := s.bufs[j := s.bufs[j].(data := v, refcnt := s.bufs[j].refcnt - 1)],
       phase := Install(s.phase.who, s.phase.tail + 1))
  }

  predicate CanClearHead(g: Geometry, s: State, i: nat) {
    && s.phase.Install? && s.phase.tail == |s.lh|
    && i < |s.bufs| && s.bufs[i].Ready(s.phase.who, g.start)
    && g.start < |s.disk| == |s.cur| && 0 < |s.bufs[i].data|
  }

  /** commit() sets lh.n to 0 and writes the header again. */
  function ClearHead(g: Geometry, s: State, i: nat): State
    requires CanClearHead(g, s, i)
  {
    var v := EncodeHead(s.bufs[i].data, []);
    s.(disk := s.disk[g.start := v], cur := s.cur[g.start := v],
       bufs := s.bufs[i := s.bufs[i].(data := v)],
       lh := [], phase := Finish(s.phase.who))
  }

  /** end_op's second critical section. */
  function FinishCommit(s: State): State
    requires s.phase.Finish?
  {
    s.(phase := Running, asleep := {})
  }

  // ---------------------------------------------------------------- crash and boot

  const EmptyBuf: Buf := Buf(0, 0, false, 0, None, {}, [])

  /** Power loss: memory is gone, the disk stays, and process 0 starts recovery. */
  function Crash(g: Geometry, s: State): State
    requires s.cut <= |s.hist|
  {
    s.(bufs := seq(g.nbuf, _ => EmptyBuf), lh := [], outstanding := 0, phase := BootRead(0),
       ops := seq(g.nproc, _ => Idle), asleep := {}, panicked := false, starved := false,
       cur := s.disk, hist := s.hist[..s.cut])
  }

  predicate CanReadHead(g: Geometry, s: State, i: nat) {
    && s.phase.BootRead?
    && i < |s.bufs| && s.bufs[i].Ready(s.phase.who, g.start)
    && ReadableHead(s.bufs[i].data)
  }

  function ReadHead(g: Geometry, s: State, i: nat): State
    requires CanReadHead(g, s, i)
  {
    s.(lh := DecodeHead(s.bufs[i].data), phase := Replay(s.phase.who, 0))
  }

  predicate CanReplay(g: Geometry, s: State, i: nat, j: nat) {
    && s.phase.Replay? && s.phase.tail < |s.lh|
    && i < |s.bufs| && j < |s.bufs|
    && s.bufs[i].Ready(s.phase.who, g.start + 1 + s.phase.tail)
    && s.bufs[j].Ready(s.phase.who, s.lh[s.phase.tail])
    && s.lh[s.phase.tail] < |s.disk| == |s.cur|
  }

  /** One turn of install_trans(1). */
  function ReplayOne(g: Geometry, s: State, i: nat, j: nat): State
    requires CanReplay(g, s, i, j)
  {
    var b := s.lh[s.phase.tail];
    var v := s.bufs[i].data;
    s.(disk := s.disk[b := v], cur := s.cur[b := v],
       bufs := s.bufs[j := s.bufs[j].(data := v)],
       phase := Replay(s.phase.who, s.phase.tail + 1))
  }

  predicate CanBootClear(g: Geometry, s: State, i: nat) {
    && s.phase.Replay? && s.phase.tail == |s.lh|
    && i < |s.bufs| && s.bufs[i].Ready(s.phase.who, g.start)
    && g.start < |s.disk| == |s.cur| && 0 < |s.bufs[i].data|
  }

  function BootClear(g: Geometry, s: State, i: nat): State
    requires CanBootClear(g, s, i)
  {
    var v := EncodeHead(s.bufs[i].data, []);
    s.(disk := s.disk[g.start := v], cur := s.cur[g.start := v],
       bufs := s.bufs[i := s.bufs[i].(data := v)],
       lh := [], phase := Running)
  }

  // ---------------------------------------------------------------- the machine

  datatype Step =
    | HitStep(t: nat, i: nat)
    | MissStep(t: nat, i: nat, b: nat)
    | StarveStep(t: nat, b: nat)
    | LockStep(t: nat, i: nat)
    | FillStep(t: nat, i: nat)
    | ReleaseStep(t: nat, i: nat)
    | ModifyStep(t: nat, i: nat, v: Block)
    | LogWriteStep(t: nat, i: nat)
    | BeginStep(t: nat)
    | EndStep(t: nat)
    | CopyStep(i: nat, j: nat)
    | CommitHeadStep(i: nat)
    | InstallStep(i: nat, j: nat)
    | ClearHeadStep(i: nat)
    | FinishStep
    | ReadHeadStep(i: nat)
    | ReplayStep(i: nat, j: nat)
    | BootClearStep(i: nat)
    | CrashStep

  predicate Enabled(g: Geometry, s: State, step: Step) {
    if step.CrashStep? then s.cut <= |s.hist|
    else !s.panicked && !s.starved && match step
      case HitStep(t, i) => CanHit(g, s, t, i)
      case MissStep(t, i, b) => CanMiss(g, s, t, i, b)
      case StarveStep(t, b) => CanStarve(g, s, t, b)
      case LockStep(t, i) => CanLock(s, t, i)
      case FillStep(t, i) => CanFill(s, t, i)
      case ReleaseStep(t, i) => CanRelease(s, t, i)
      case ModifyStep(t, i, v) => CanModify(g, s, t, i, v)
      case LogWriteStep(t, i) => CanLogWrite(g, s, t, i)
      case BeginStep(t) => CanBegin(s, t)
      case EndStep(t) => CanEnd(s, t)
      case CopyStep(i, j) => CanCopy(g, s, i, j)
      case CommitHeadStep(i) => CanCommitHead(g, s, i)
      case InstallStep(i, j) => CanInstall(g, s, i, j)
      case ClearHeadStep(i) => CanClearHead(g, s, i)
      case FinishStep => s.phase.Finish?
      case ReadHeadStep(i) => CanReadHead(g, s, i)
      case ReplayStep(i, j) => CanReplay(g, s, i, j)
      case BootClearStep(i) => CanBootClear(g, s, i)
  }

  function Do(g: Geometry, s: State, step: Step): State
    requires Enabled(g, s, step)
  {
    match step
    case HitStep(t, i) => Hit(g, s, t, i)
    case MissStep(t, i, b) => Miss(g, s, t, i, b)
    case StarveStep(_, _) => Starve(s)
    case LockStep(t, i) => Lock(s, t, i)
    case FillStep(t, i) => Fill(s, t, i)
    case ReleaseStep(t, i) => Release(s, t, i)
    case ModifyStep(t, i, v) => Modify(g, s, t, i, v)
    case LogWriteStep(t, i) => LogWrite(g, s, t, i)
    case BeginStep(t) => Begin(g, s, t)
    case EndStep(t) => End(s, t)
    case CopyStep(i, j) => Copy(g, s, i, j)
    case CommitHeadStep(i) => CommitHead(g, s, i)
    case InstallStep(i, j) => InstallOne(g, s, i, j)
    case ClearHeadStep(i) => ClearHead(g, s, i)
    case FinishStep => FinishCommit(s)
    case ReadHeadStep(i) => ReadHead(g, s, i)
    case ReplayStep(i, j) => ReplayOne(g, s, i, j)
    case BootClearStep(i) => BootClear(g, s, i)
    case CrashStep => Crash(g, s)
  }

  /** A freshly powered machine on a disk whose log header is legal and names each block once. */
  ghost predicate Init(g: Geometry, s: State) {
    && LegalImage(g, s.disk)
    && Distinct(HeadOf(g, s.disk))
    && s.bufs == seq(g.nbuf, _ => EmptyBuf)
    && s.lh == [] && s.outstanding == 0 && s.phase == BootRead(0)
    && s.ops == seq(g.nproc, _ => Idle) && s.asleep == {} && !s.panicked && !s.starved
    && s.cur == s.disk
    && BootsTo(g, s.disk, s.durable) && s.base == s.durable
    && s.hist == [] && s.cut == 0 && s.nextId == 0
  }

  /** A finite run: states[k+1] follows states[k] by steps[k]. */
  ghost predicate IsRun(g: Geometry, states: seq<State>, steps: seq<Step>) {
    && |states| == |steps| + 1
    && Init(g, states[0])
    && forall k :: 0 <= k < |steps| ==>
         Enabled(g, states[k], steps[k]) && states[k + 1] == Do(g, states[k], steps[k])
  }

  /** The states runs lead to. */
  ghost predicate Reachable(g: Geometry, s: State) {
    exists states: seq<State>, steps: seq<Step> :: IsRun(g, states, steps) && states[|steps|] == s
  }
}
