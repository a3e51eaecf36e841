/**
  The on-disk redo log of kernel/log.c, as functions of the disk contents.

  A disk is a vector of blocks and a block a vector of words.  The log area is
  [start, start + size): a header block followed by the log blocks.  A crash can
  fall between any two block writes, so everything here is stated for an
  arbitrary number of completed writes.
 */
module RedoLog {

  type Block = seq<nat>
  type Disk = seq<Block>

  /** The device the file system is on. */
  const ROOTDEV: nat := 1

  /** The superblock and param.h numbers the log depends on; all symbolic. */
  datatype Geometry = Geometry(
    nblocks: nat,  // blocks on the disk
    words: nat,    // words per block
    start: nat,    // log.start
    size: nat,     // log.size
    logSize: nat,  // LOGSIZE
    maxOp: nat,    // MAXOPBLOCKS
    budget: nat,   // distinct blocks an operation really logs
    nbuf: nat,     // NBUF
    nproc: nat,    // NPROC
    held: nat)     // buffers one process holds or waits for at a time
  {
    /** initlog's header-size check, a log area inside the disk, and ops within MAXOPBLOCKS. */
    ghost predicate Valid() {
      && logSize + 1 < words
      && 1 <= size
      && start + size <= nblocks
      && budget <= maxOp
    }

    /** Blocks outside the log area: the only ones a file-system operation logs. */
    predicate IsHome(b: nat) {
      b < nblocks && !(start <= b < start + size)
    }

    /** The most blocks a transaction can hold before log_write refuses. */
    function Capacity(): int {
      if logSize < size - 1 then logSize else size - 1
    }
  }

  ghost predicate ValidDisk(g: Geometry, d: Disk) {
    |d| == g.nblocks && forall b :: 0 <= b < |d| ==> |d[b]| == g.words
  }

  // ---------------------------------------------------------------- header block

  predicate ReadableHead(b: Block) {
    0 < |b| && 1 + b[0] <= |b|
  }

  /** read_head: word 0 is n, the next n words are the home block numbers. */
  function DecodeHead(b: Block): seq<nat>
    requires ReadableHead(b)
  {
    b[1..1 + b[0]]
  }

  /** write_head: overwrite n and the first n entries, leave the rest of the block as it was. */
  function EncodeHead(prev: Block, lh: seq<nat>): (b: Block)
    requires 1 + |lh| <= |prev|
    ensures |b| == |prev|
    ensures ReadableHead(b) && DecodeHead(b) == lh
  {
    [|lh|] + lh + prev[1 + |lh|..]
  }

  /** A header a boot can act on: it fits the log and names only home blocks. */
  ghost predicate LegalHead(g: Geometry, lh: seq<nat>) {
    && |lh| <= g.size - 1
    && forall k :: 0 <= k < |lh| ==> g.IsHome(lh[k])
  }

  ghost predicate Distinct(lh: seq<nat>) {
    forall i, j :: 0 <= i < j < |lh| ==> lh[i] != lh[j]
  }

  ghost predicate LegalImage(g: Geometry, d: Disk) {
    && g.Valid() && ValidDisk(g, d)
    && ReadableHead(d[g.start])
    && LegalHead(g, HeadOf(g, d))
  }

  // ---------------------------------------------------------------- replay

  function LastIndex(lh: seq<nat>, b: nat): (k: nat)
    requires b in lh
    ensures k < |lh| && lh[k] == b && b !in lh[k + 1..]
  {
    if lh[|lh| - 1] == b then |lh| - 1 else LastIndex(lh[..|lh| - 1], b)
  }

  /** Block b after the writes lh[0] := vals[0], lh[1] := vals[1], ...: the last one to b wins. */
  ghost function Overlay(lh: seq<nat>, vals: seq<Block>, b: nat, under: Block): Block
    requires |lh| == |vals|
  {
    if b in lh then vals[LastIndex(lh, b)] else under
  }

  lemma OverlaySnoc(lh: seq<nat>, vals: seq<Block>, x: nat, v: Block, b: nat, under: Block)
    requires |lh| == |vals|
    ensures Overlay(lh + [x], vals + [v], b, under) == if b == x then v else Overlay(lh, vals, b, under)
  {
    assert (lh + [x])[..|lh|] == lh;
    assert b in lh + [x] <==> b in lh || b == x;
  }

  /** The logged contents of the first n log blocks of d. */
  function LoggedValues(g: Geometry, d: Disk, n: nat): (vals: seq<Block>)
    requires g.start + n < |d|
    ensures |vals| == n
    ensures forall k :: 0 <= k < n ==> vals[k] == d[g.start + 1 + k]
  {
    d[g.start + 1..g.start + 1 + n]
  }

  function HeadOf(g: Geometry, d: Disk): seq<nat>
    requires g.start < |d| && ReadableHead(d[g.start])
  {
    DecodeHead(d[g.start])
  }

  /** What a boot would make of home block b, reading the header found on d. */
  ghost function AfterBoot(g: Geometry, d: Disk, b: nat): Block
    requires LegalImage(g, d) && b < g.nblocks
  {
    var lh := HeadOf(g, d);
    Overlay(lh, LoggedValues(g, d, |lh|), b, d[b])
  }

  /** The home file system a boot of d yields is exactly `want`. */
  ghost predicate BootsTo(g: Geometry, d: Disk, want: Disk) {
    && LegalImage(g, d)
    && |want| == g.nblocks
    && forall b: nat :: g.IsHome(b) ==> AfterBoot(g, d, b) == want[b]
  }

  /** Two disks hold the same home file system. */
  ghost predicate SameHome(g: Geometry, d: Disk, e: Disk) {
    && |d| == |e| == g.nblocks
    && forall b: nat :: g.IsHome(b) ==> d[b] == e[b]
  }

  // ---------------------------------------------------------------- block writes

  datatype Write = Write(bno: nat, data: Block)

  ghost predicate InRange(d: Disk, ws: seq<Write>) {
    forall i :: 0 <= i < |ws| ==> ws[i].bno < |d|
  }

  /** The disk after the first k block writes. */
  ghost function AfterWrites(d: Disk, ws: seq<Write>, k: nat): (r: Disk)
    requires k <= |ws| && InRange(d, ws)
    ensures |r| == |d|
  {
    if k == 0 then d
    else AfterWrites(d, ws, k - 1)[ws[k - 1].bno := ws[k - 1].data]
  }

  lemma {:induction false} AfterWritesOfPrefix(d: Disk, ws: seq<Write>, more: seq<Write>, k: nat)
    requires k <= |ws| && InRange(d, ws) && InRange(d, ws + more)
    ensures AfterWrites(d, ws + more, k) == AfterWrites(d, ws, k)
  {
    if k > 0 {
      AfterWritesOfPrefix(d, ws, more, k - 1);
    }
  }

  /** Disk d is what the writes ws made of `initial`. */
  ghost predicate Traced(initial: Disk, ws: seq<Write>, d: Disk) {
    InRange(initial, ws) && d == AfterWrites(initial, ws, |ws|)
  }

  lemma TraceGrows(initial: Disk, ws: seq<Write>, d: Disk, w: Write)
    requires Traced(initial, ws, d) && w.bno < |d|
    ensures Traced(initial, ws + [w], d[w.bno := w.data])
  {
    AfterWritesOfPrefix(initial, ws, [w], |ws|);
  }

  /** The header block commit() writes at its commit point, and the one it writes at the end. */
  function FullHead(g: Geometry, d: Disk, lh: seq<nat>): Block
    requires g.start < |d| && 1 + |lh| <= |d[g.start]|
  {
    EncodeHead(d[g.start], lh)
  }

  function EmptyHead(g: Geometry, d: Disk, lh: seq<nat>): Block
    requires g.start < |d| && 1 + |lh| <= |d[g.start]|
  {
    EncodeHead(FullHead(g, d, lh), [])
  }

  /** Block write number k of commit(): write_log, write_head, install_trans, write_head again. */
  function CommitWrite(g: Geometry, d: Disk, lh: seq<nat>, vals: seq<Block>, k: nat): Write
    requires |lh| == |vals| && k < 2 * |lh| + 2
    requires g.start < |d| && 1 + |lh| <= |d[g.start]|
  {
    if k < |lh| then Write(g.start + 1 + k, vals[k])
    else if k == |lh| then Write(g.start, FullHead(g, d, lh))
    else if k <= 2 * |lh| then Write(lh[k - |lh| - 1], vals[k - |lh| - 1])
    else Write(g.start, EmptyHead(g, d, lh))
  }

  /** Every block write of commit(), in order, on disk d; none for an empty transaction. */
  function CommitWrites(g: Geometry, d: Disk, lh: seq<nat>, vals: seq<Block>): (ws: seq<Write>)
    requires |lh| == |vals|
    requires g.start < |d| && 1 + |lh| <= |d[g.start]|
  {
    if |lh| == 0 then []
    else seq(2 * |lh| + 2, k requires 0 <= k < 2 * |lh| + 2 => CommitWrite(g, d, lh, vals, k))
  }

  /** Block write number k of recover_from_log(): install_trans, then the emptied header. */
  function RecoverWrite(g: Geometry, d: Disk, lh: seq<nat>, k: nat): Write
    requires k <= |lh| && g.start + |lh| < |d| && 0 < |d[g.start]|
  {
    if k < |lh| then Write(lh[k], d[g.start + 1 + k])
    else Write(g.start, EncodeHead(d[g.start], []))
  }

  /** Every block write of recover_from_log(), in order, on disk d with logged header lh. */
  function RecoverWrites(g: Geometry, d: Disk, lh: seq<nat>): seq<Write>
    requires g.start + |lh| < |d| && 0 < |d[g.start]|
  {
    seq(|lh| + 1, k requires 0 <= k <= |lh| => RecoverWrite(g, d, lh, k))
  }
}
