/** What each step of kernel/fs.c does to slots, bytes, bitmap and logged blocks. */
module FsSteps {
  import opened Common
  import opened FsLayout

  /** The superblock; nmeta is the number of blocks before the data blocks. */
  datatype Super = Super(size: nat, inodestart: nat, bmapstart: nat, nmeta: nat)

  type uint = x: nat | x < 0x1_0000_0000

  function BBLOCK(sb: Super, b: nat): nat {
    b / BPB + sb.bmapstart
  }

  function IBLOCK(sb: Super, inum: nat): nat {
    inum / IPB + sb.inodestart
  }

  function Min(a: nat, b: nat): nat {
    if a < b then a else b
  }

  ghost predicate Shape(sb: Super, ino: Inodes, dino: Inodes, data: Data, used: seq<bool>) {
    && 0 < sb.nmeta <= sb.size <= 0x1_0000_0000
    && |data| == sb.size && |used| == sb.size && |dino| == |ino|
    && Sized(ino)
  }

  /** No free block is left. */
  ghost predicate Full(used: seq<bool>) {
    forall b :: 0 <= b < |used| ==> used[b]
  }

  ghost predicate FirstFree(used: seq<bool>, b: nat) {
    b < |used| && !used[b] && (forall c :: 0 <= c < b ==> used[c])
  }

  /** No bit has been cleared. */
  ghost predicate Grew(used0: seq<bool>, used: seq<bool>) {
    |used| == |used0| && forall b :: 0 <= b < |used| && used0[b] ==> used[b]
  }

  lemma GrewSame(used: seq<bool>)
    ensures Grew(used, used)
  {
  }

  /** One more bit. */
  lemma GrewOne(used0: seq<bool>, used1: seq<bool>, b: nat, used: seq<bool>)
    requires Grew(used0, used1) && b < |used1| && !used1[b] && used == used1[b := true]
    ensures Grew(used0, used) && used != used0
  {
    assert used[b] && !used0[b];
  }

  /** Once a bit has been set the bitmap stays different. */
  lemma GrewOn(used0: seq<bool>, used1: seq<bool>, used: seq<bool>)
    requires Grew(used0, used1) && Grew(used1, used)
    ensures Grew(used0, used) && (used1 != used0 ==> used != used0)
  {
    if used1 != used0 {
      var b :| 0 <= b < |used1| && used1[b] != used0[b];
      assert used[b] && !used0[b];
    }
  }

  /** Slots in use stay, and only the slots bmap(i, bn) is about may become used. */
  ghost predicate SlotsGrow(ino: Inodes, data: Data, ino': Inodes, data': Data, i: nat, k: nat) {
    && |ino'| == |ino|
    && (forall x: nat, y: nat ::
          x < |ino| && y < NSLOT && (Slot(ino, data, x, y) != 0 || !(x == i && (y == k || y == 12))) ==>
          Slot(ino', data', x, y) == Slot(ino, data, x, y))
  }

  ghost predicate SizesSame(ino: Inodes, ino': Inodes) {
    |ino'| == |ino| && forall x: nat :: x < |ino| ==> ino'[x].size == ino[x].size
  }

  /** A block of the free bitmap. */
  predicate IsBitmap(sb: Super, l: nat) {
    0 < sb.size && sb.bmapstart <= l <= sb.bmapstart + (sb.size - 1) / BPB
  }

  /** bmap logs bitmap blocks, the indirect block and the block it returns, nothing else. */
  ghost predicate BmapLogs(sb: Super, logged: set<nat>, logged': set<nat>, table: nat, addr: nat) {
    forall l :: l in logged' ==>
      l in logged || IsBitmap(sb, l) || (l == table && table != 0) || (l == addr && addr != 0)
  }

  // ---------------------------------------------------------------- filewrite

  const MAXOPBLOCKS: nat := 10

  ghost predicate OthersKept(ino0: Inodes, data0: Data, ino: Inodes, data: Data, i: nat)
    requires Sized(ino0) && Sized(ino)
  {
    && |ino| == |ino0|
    && (forall x: nat :: x < |ino| && x != i ==> Content(ino, data, x) == Content(ino0, data0, x))
    && (forall x: nat :: x < |ino| && Mapped(ino0, data0, x) ==> Mapped(ino, data, x))
  }

  function Put(c: seq<byte>, off: nat, s: seq<byte>): seq<byte> {
    if s == [] || off > |c| then c else Overwrite(c, off, s)
  }

  ghost predicate OpsFit(ops: seq<set<nat>>) {
    forall k :: 0 <= k < |ops| ==> |ops[k]| <= 7 && 7 < MAXOPBLOCKS
  }

  /** filewrite has written the first k bytes of src. */
  ghost predicate Chunks(ino0: Inodes, data0: Data, ino: Inodes, data: Data, i: nat, off: nat, src: seq<byte>, k: nat)
    requires Sized(ino0) && Sized(ino)
  {
    && i < |ino0| && i < |ino| && k <= |src|
    && (k > 0 ==> off <= ino0[i].size && off + k <= ino[i].size)
    && Content(ino, data, i) == Put(Content(ino0, data0, i), off, src[..k])
    && OthersKept(ino0, data0, ino, data, i)
  }

  lemma NoChunkYet(ino: Inodes, data: Data, i: nat, off: nat, src: seq<byte>)
    requires Sized(ino) && i < |ino|
    ensures Chunks(ino, data, ino, data, i, off, src, 0) && OpsFit([])
  {
    hide Content, Mapped;
  }

  /** A chunk of an acceptable range is acceptable, and positions fit a uint. */
  lemma ChunkRange(ino0: Inodes, data0: Data, ino: Inodes, data: Data, i: nat, off: uint, src: seq<byte>, k: nat,
                   n1: nat)
    requires Sized(ino0) && Sized(ino) && Chunks(ino0, data0, ino, data, i, off, src, k) && k + n1 <= |src|
    ensures off + k < 0x1_0000_0000
    ensures Writable(ino0[i].size, off, |src|) ==> Writable(ino[i].size, off + k, n1)
  {
    var c := Content(ino, data, i);
    assert |c| == ino[i].size;
    var c0 := Content(ino0, data0, i);
    assert |c0| == ino0[i].size;
    hide Content, OthersKept;
  }

  /** What has been written lies inside the file and inside what a file can be. */
  lemma ChunksInside(ino0: Inodes, data0: Data, ino: Inodes, data: Data, i: nat, off: nat, src: seq<byte>, k: nat)
    requires Sized(ino0) && Sized(ino) && Chunks(ino0, data0, ino, data, i, off, src, k)
    ensures k > 0 ==> off <= ino0[i].size && off + k <= MAXFILE * BSIZE
  {
    hide Content, Mapped;
  }

  lemma ChunkWritten(ino0: Inodes, data0: Data, ino1: Inodes, data1: Data, ino: Inodes, data: Data,
                     i: nat, off: nat, src: seq<byte>, k: nat, n1: nat, r: nat)
    requires Sized(ino0) && Sized(ino1) && Sized(ino) && Chunks(ino0, data0, ino1, data1, i, off, src, k)
    requires k + n1 <= |src| && r <= n1 && |ino| == |ino1| && off + k <= ino1[i].size
    requires Content(ino, data, i) == Overwrite(Content(ino1, data1, i), off + k, src[k..k + n1][..r])
    requires forall x: nat :: x < |ino| && x != i ==>
               ino[x].size == ino1[x].size && Content(ino, data, x) == Content(ino1, data1, x)
    requires forall x: nat :: x < |ino| && Mapped(ino1, data1, x) ==> Mapped(ino, data, x)
    ensures Chunks(ino0, data0, ino, data, i, off, src, k + r)
  {
    var c0, c1, c := Content(ino0, data0, i), Content(ino1, data1, i), Content(ino, data, i);
    assert |c0| == ino0[i].size && |c1| == ino1[i].size && |c| == ino[i].size;
    hide Content, Mapped;
    PutMore(c0, c1, off, src, k, n1, r);
  }

  lemma PutMore(c0: seq<byte>, c1: seq<byte>, off: nat, src: seq<byte>, k: nat, n1: nat, r: nat)
    requires k + n1 <= |src| && r <= n1 && c1 == Put(c0, off, src[..k]) && off + k <= |c1| && (k > 0 ==> off <= |c0|)
    ensures off <= |c0| && Overwrite(c1, off + k, src[k..k + n1][..r]) == Put(c0, off, src[..k + r])
    ensures off + k + r <= |Overwrite(c1, off + k, src[k..k + n1][..r])|
  {
    assert src[k..k + n1][..r] == src[k..k + r];
    assert src[..k] + src[k..k + r] == src[..k + r];
    assert off <= |c0|;
    if k == 0 && r == 0 {
      assert Overwrite(c1, off, []) == c1;
    } else {
      OverwriteTwice(c0, off, src[..k], src[k..k + r]);
    }
  }

  /** Writing a and then b behind it is writing a + b. */
  lemma OverwriteTwice(c: seq<byte>, off: nat, a: seq<byte>, b: seq<byte>)
    requires off <= |c|
    ensures off + |a| <= |Put(c, off, a)|
    ensures Overwrite(Put(c, off, a), off + |a|, b) == Overwrite(c, off, a + b)
  {
    var x, y := Overwrite(Put(c, off, a), off + |a|, b), Overwrite(c, off, a + b);
    assert |x| == |y|;
    forall o | 0 <= o < |x|
      ensures x[o] == y[o]
    {
    }
  }

  /** One chunk of filewrite logs at most seven blocks when the bitmap is one block. */
  lemma OpIsSmall(sb: Super, logged: set<nat>, i: nat, table: nat, touched: set<nat>, off: nat, n: nat)
    requires sb.size <= BPB && n <= 3 * BSIZE && |touched| <= Span(off, n)
    requires WriteLogs(sb, {}, logged, i, table, touched)
    ensures |logged| <= 7
  {
    assert Span(off, n) <= 4;
    var all := touched + {sb.bmapstart} + {table} + {IBLOCK(sb, i)};
    forall l | l in logged
      ensures l in all
    {
      if IsBitmap(sb, l) {
        assert l == sb.bmapstart;
      }
    }
    assert logged <= all;
    SubsetSize(logged, all);
    assert |all| <= |touched| + 3;
  }

  lemma OpAdded(ops: seq<set<nat>>, op: set<nat>)
    ensures OpsFit(ops) && |op| <= 7 ==> OpsFit(ops + [op])
  {
  }

  // ---------------------------------------------------------------- reading

  function ReadLength(size: nat, off: nat, n: nat): nat {
    if off > size || off + n >= 0x1_0000_0000 then 0 else if off + n > size then size - off else n
  }

  ghost predicate ReadSoFar(ino: Inodes, data: Data, i: nat, off: nat, r: seq<byte>)
    requires i < |ino|
  {
    forall t: nat :: t < |r| ==> (off + t) / BSIZE < MAXFILE && r[t] == ByteAt(ino, data, i, off + t)
  }

  lemma Compose(ino0: Inodes, data0: Data, ino1: Inodes, data1: Data, ino2: Inodes, data2: Data)
    requires BytesSame(ino0, data0, ino1, data1) && BytesSame(ino1, data1, ino2, data2)
    requires SizesSame(ino0, ino1) && SizesSame(ino1, ino2)
    ensures BytesSame(ino0, data0, ino2, data2) && SizesSame(ino0, ino2)
  {
    hide ByteAt;
  }

  /** Every block that len bytes at off lie in is mapped. */
  ghost predicate RangeMapped(ino: Inodes, data: Data, i: nat, off: nat, len: nat)
    requires i < |ino|
  {
    forall bn: nat :: bn < MAXFILE && off / BSIZE <= bn && bn * BSIZE < off + len && 0 < len ==>
      Slot(ino, data, i, SlotOf(bn)) != 0
  }

  /** The next m bytes add the block they are in. */
  lemma RangeMore(ino: Inodes, data: Data, i: nat, off: nat, len: nat, m: nat)
    requires i < |ino| && (off + len) / BSIZE < MAXFILE && 0 < m && (off + len) % BSIZE + m <= BSIZE
    ensures RangeMapped(ino, data, i, off, len + m) <==>
              RangeMapped(ino, data, i, off, len) && Slot(ino, data, i, SlotOf((off + len) / BSIZE)) != 0
  {
    hide Slot;
    var here: nat := (off + len) / BSIZE;
    assert off / BSIZE <= here && here * BSIZE < off + len + m;
    forall bn: nat | bn < MAXFILE && bn * BSIZE < off + len + m && bn != here && off / BSIZE <= bn
      ensures bn * BSIZE < off + len && 0 < len
    {
    }
  }

  lemma RangeNone(ino: Inodes, data: Data, i: nat, off: nat)
    requires i < |ino|
    ensures RangeMapped(ino, data, i, off, 0)
  {
  }

  /** A file mapped below its size is mapped wherever it can be read. */
  lemma MappedEverywhere(ino: Inodes, data: Data, i: nat, off: nat, n: nat)
    requires i < |ino| && Mapped(ino, data, i)
    ensures RangeMapped(ino, data, i, off, ReadLength(ino[i].size, off, n))
  {
    hide Slot;
  }

  /** One block is free and no more. */
  ghost predicate OneLeft(used: seq<bool>) {
    exists b :: 0 <= b < |used| && !used[b] && Full(used[b := true])
  }

  /** bmap fails for block bn: it is not mapped, and there are fewer free blocks than it takes to map it. */
  ghost predicate RunsOut(ino: Inodes, data: Data, used: seq<bool>, i: nat, bn: nat)
    requires i < |ino| && bn < MAXFILE
  {
    && Slot(ino, data, i, SlotOf(bn)) == 0
    && (Full(used) || (bn >= NDIRECT && ino[i].addrs[NDIRECT] == 0 && OneLeft(used)))
  }

  lemma OneLeftIs(used: seq<bool>, t: nat)
    requires t < |used| && !used[t]
    ensures Full(used[t := true]) <==> OneLeft(used)
  {
    if OneLeft(used) {
      var b :| 0 <= b < |used| && !used[b] && Full(used[b := true]);
      assert used[b := true][t];
    }
  }

  // ---------------------------------------------------------------- pointers kept in the inode

  /** The pointer of the inode that leads to block bn. */
  function PointerOf(bn: nat): nat {
    if bn < NDIRECT then bn else NDIRECT
  }

  /** What bmap does to the pointers of inode i: pointer p is filled exactly if it was empty and a block was free. */
  ghost predicate Pointed(ino0: Inodes, used0: seq<bool>, ino: Inodes, i: nat, p: nat) {
    && i < |ino0| == |ino| && p <= NDIRECT
    && (forall k :: 0 <= k <= NDIRECT && ino0[i].addrs[k] != 0 ==> ino[i].addrs[k] == ino0[i].addrs[k])
    && (ino[i].addrs == ino0[i].addrs <==> ino0[i].addrs[p] != 0 || Full(used0))
  }

  lemma PointedSame(ino: Inodes, used: seq<bool>, i: nat, p: nat)
    requires i < |ino| && p <= NDIRECT && (ino[i].addrs[p] != 0 || Full(used))
    ensures Pointed(ino, used, ino, i, p)
  {
  }

  lemma PointedSet(ino: Inodes, used: seq<bool>, i: nat, p: nat, b: nat)
    requires i < |ino| && p <= NDIRECT && ino[i].addrs[p] == 0 && !Full(used) && b != 0
    ensures Pointed(ino, used, SetAddr(ino, i, p, b), i, p)
  {
    assert ino[i].addrs[p := b][p] != ino[i].addrs[p];
  }

  /** The inode's pointers to every block that len bytes at off lie in are there. */
  ghost predicate PointersThere(ino: Inodes, i: nat, off: nat, len: nat)
    requires i < |ino|
  {
    forall bn: nat :: bn < MAXFILE && off / BSIZE <= bn && bn * BSIZE < off + len && 0 < len ==>
      ino[i].addrs[PointerOf(bn)] != 0
  }

  /** Reading so far has filled a pointer of the inode exactly if it met an empty one and a block was free. */
  ghost predicate Pointing(ino0: Inodes, i: nat, off: nat, len: nat, used0: seq<bool>, ino: Inodes)
    requires i < |ino0|
  {
    && |ino| == |ino0|
    && (forall k :: 0 <= k <= NDIRECT && ino0[i].addrs[k] != 0 ==> ino[i].addrs[k] == ino0[i].addrs[k])
    && (ino[i].addrs == ino0[i].addrs <==> PointersThere(ino0, i, off, len) || Full(used0))
  }

  /** The same after the pointer to the block bn that follows has been followed. */
  ghost predicate Followed(ino0: Inodes, i: nat, off: nat, len: nat, bn: nat, used0: seq<bool>, ino: Inodes)
    requires i < |ino0|
  {
    && |ino| == |ino0|
    && (forall k :: 0 <= k <= NDIRECT && ino0[i].addrs[k] != 0 ==> ino[i].addrs[k] == ino0[i].addrs[k])
    && (ino[i].addrs == ino0[i].addrs <==>
        (PointersThere(ino0, i, off, len) && ino0[i].addrs[PointerOf(bn)] != 0) || Full(used0))
  }

  lemma PointingNone(ino: Inodes, i: nat, off: nat, used: seq<bool>)
    requires i < |ino|
    ensures Pointing(ino, i, off, 0, used, ino)
  {
  }

  /** Up to an empty pointer, everything behind pointers that are there was mapped. */
  lemma NothingBefore(ino: Inodes, data: Data, i: nat, off: nat, len: nat, bn: nat)
    requires i < |ino| && bn == (off + len) / BSIZE && PointersThere(ino, i, off, len)
    requires ino[i].addrs[PointerOf(bn)] == 0
    ensures RangeMapped(ino, data, i, off, len)
  {
    forall b: nat | b < MAXFILE && off / BSIZE <= b && b * BSIZE < off + len && 0 < len
      ensures Slot(ino, data, i, SlotOf(b)) != 0
    {
      assert b <= bn;
      assert ino[i].addrs[PointerOf(b)] != 0;
      DirectSlot(ino, data, i, PointerOf(b));
    }
  }

  lemma AddrsStayApart(a0: Addrs, a1: Addrs, a: Addrs)
    requires forall k :: 0 <= k <= NDIRECT && a0[k] != 0 ==> a1[k] == a0[k]
    requires forall k :: 0 <= k <= NDIRECT && a1[k] != 0 ==> a[k] == a1[k]
    ensures a1 != a0 ==> a != a0
    ensures forall k :: 0 <= k <= NDIRECT && a0[k] != 0 ==> a[k] == a0[k]
  {
    if a1 != a0 {
      var k :| 0 <= k < 13 && a1[k] != a0[k];
      assert a[k] != a0[k];
    }
  }

  lemma FollowedUp(ino0: Inodes, data0: Data, i: nat, off: nat, len: nat, bn: nat, used0: seq<bool>, ino1: Inodes,
                   used1: seq<bool>, ino: Inodes)
    requires i < |ino0| == |ino1| && bn == (off + len) / BSIZE && Quiet(ino0, data0, i, off, len, used0, used1)
    requires Pointing(ino0, i, off, len, used0, ino1) && Pointed(ino1, used1, ino, i, PointerOf(bn))
    requires used1 == used0 ==> ino1 == ino0
    ensures Followed(ino0, i, off, len, bn, used0, ino)
  {
    hide RangeMapped, Grew, Full, PointersThere;
    AddrsStayApart(ino0[i].addrs, ino1[i].addrs, ino[i].addrs);
    if PointersThere(ino0, i, off, len) && ino0[i].addrs[PointerOf(bn)] == 0 {
      NothingBefore(ino0, data0, i, off, len, bn);
    }
  }

  lemma PointingOn(ino0: Inodes, i: nat, off: nat, len: nat, m: nat, used0: seq<bool>, ino: Inodes)
    requires i < |ino0| && (off + len) / BSIZE < MAXFILE && 0 < m && (off + len) % BSIZE + m <= BSIZE
    requires Followed(ino0, i, off, len, (off + len) / BSIZE, used0, ino)
    ensures Pointing(ino0, i, off, len + m, used0, ino)
  {
    hide Full;
    PointersMore(ino0, i, off, len, m);
    hide PointersThere;
  }

  lemma PointersMore(ino: Inodes, i: nat, off: nat, len: nat, m: nat)
    requires i < |ino| && (off + len) / BSIZE < MAXFILE && 0 < m && (off + len) % BSIZE + m <= BSIZE
    ensures PointersThere(ino, i, off, len + m) <==>
            PointersThere(ino, i, off, len) && ino[i].addrs[PointerOf((off + len) / BSIZE)] != 0
  {
    hide PointerOf;
    var here: nat := (off + len) / BSIZE;
    assert off / BSIZE <= here && here * BSIZE < off + len + m;
    forall bn: nat | bn < MAXFILE && bn * BSIZE < off + len + m && bn != here && off / BSIZE <= bn
      ensures bn * BSIZE < off + len && 0 < len
    {
    }
  }

  /** Where the loop ends early all the pointers had been followed. */
  lemma PointingStops(ino0: Inodes, data0: Data, i: nat, off: nat, len: nat, want: nat, used0: seq<bool>, ino: Inodes)
    requires i < |ino0| && (off + len) / BSIZE < MAXFILE && len < want
    requires Followed(ino0, i, off, len, (off + len) / BSIZE, used0, ino)
    requires Slot(ino0, data0, i, SlotOf((off + len) / BSIZE)) == 0
    ensures Pointing(ino0, i, off, want, used0, ino)
  {
    hide Full;
    var bn: nat := (off + len) / BSIZE;
    assert off / BSIZE <= bn && bn * BSIZE < off + want;
    DirectSlot(ino0, data0, i, PointerOf(bn));
    if PointersThere(ino0, i, off, len) && ino0[i].addrs[PointerOf(bn)] != 0 {
      assert bn >= NDIRECT;
      forall b: nat | b < MAXFILE && off / BSIZE <= b && b * BSIZE < off + want
        ensures ino0[i].addrs[PointerOf(b)] != 0
      {
        assert b < bn ==> b * BSIZE < off + len && 0 < len;
      }
    }
  }

  /** Reading so far has set a bit exactly if it met a block that was not mapped and one was free. */
  ghost predicate Quiet(ino0: Inodes, data0: Data, i: nat, off: nat, len: nat, used0: seq<bool>, used: seq<bool>)
    requires i < |ino0|
  {
    Grew(used0, used) && (used == used0 <==> RangeMapped(ino0, data0, i, off, len) || Full(used0))
  }

  /** The same after the block bn that follows has been looked up. */
  ghost predicate Looked(ino0: Inodes, data0: Data, i: nat, off: nat, len: nat, bn: nat, used0: seq<bool>,
                         used: seq<bool>)
    requires i < |ino0| && bn < MAXFILE
  {
    && Grew(used0, used)
    && (used == used0 <==> (RangeMapped(ino0, data0, i, off, len) && Slot(ino0, data0, i,
                                                                          SlotOf(bn)) != 0) || Full(used0))
  }

  lemma LookedUp(ino0: Inodes, data0: Data, i: nat, off: nat, len: nat, bn: nat, used0: seq<bool>,
                 ino1: Inodes, data1: Data, used1: seq<bool>, used: seq<bool>)
    requires i < |ino0| == |ino1| && bn < MAXFILE && Quiet(ino0, data0, i, off, len, used0, used1)
    requires used1 == used0 ==> ino1 == ino0 && data1 == data0
    requires Grew(used1, used) && (used == used1 <==> Slot(ino1, data1, i, SlotOf(bn)) != 0 || Full(used1))
    ensures Looked(ino0, data0, i, off, len, bn, used0, used)
  {
    hide Slot, Grew, RangeMapped, Full;
    GrewOn(used0, used1, used);
  }

  lemma QuietNothing(ino0: Inodes, data0: Data, i: nat, off: nat, used0: seq<bool>, used: seq<bool>)
    requires i < |ino0| && Quiet(ino0, data0, i, off, 0, used0, used)
    ensures used == used0
  {
  }

  lemma QuietGrew(ino0: Inodes, data0: Data, i: nat, off: nat, len: nat, used0: seq<bool>, used1: seq<bool>,
                  used: seq<bool>)
    requires i < |ino0| && Quiet(ino0, data0, i, off, len, used0, used1) && Grew(used1, used)
    ensures used == used0 ==> used1 == used0
  {
    GrewOn(used0, used1, used);
  }

  lemma QuietOn(ino0: Inodes, data0: Data, i: nat, off: nat, len: nat, m: nat, used0: seq<bool>, used: seq<bool>)
    requires i < |ino0| && (off + len) / BSIZE < MAXFILE && 0 < m && (off + len) % BSIZE + m <= BSIZE
    requires Looked(ino0, data0, i, off, len, (off + len) / BSIZE, used0, used)
    ensures Quiet(ino0, data0, i, off, len + m, used0, used)
  {
    hide Slot, Grew, RangeMapped, Full;
    RangeMore(ino0, data0, i, off, len, m);
  }

  /** The loop ends early at a block that was not mapped. */
  lemma ReadStops(ino0: Inodes, data0: Data, i: nat, off: nat, len: nat, want: nat, used0: seq<bool>, used: seq<bool>)
    requires i < |ino0| && (off + len) / BSIZE < MAXFILE && len < want
    requires Looked(ino0, data0, i, off, len, (off + len) / BSIZE, used0, used)
    requires Slot(ino0, data0, i, SlotOf((off + len) / BSIZE)) == 0
    ensures Quiet(ino0, data0, i, off, want, used0, used) && !RangeMapped(ino0, data0, i, off, want)
  {
    hide Slot, Grew, Full;
    var bn: nat := (off + len) / BSIZE;
    assert off / BSIZE <= bn && bn * BSIZE < off + want;
  }

  /** Slots in use keep their blocks. */
  ghost predicate SlotsKept(ino0: Inodes, data0: Data, ino: Inodes, data: Data) {
    && |ino| == |ino0|
    && (forall x: nat, y: nat :: x < |ino0| && y < NSLOT && Slot(ino0, data0, x, y) != 0 ==>
          Slot(ino, data, x, y) == Slot(ino0, data0, x, y))
  }

  lemma SlotsKeptOn(ino0: Inodes, data0: Data, ino1: Inodes, data1: Data, ino: Inodes, data: Data, i: nat, k: nat)
    requires SlotsKept(ino0, data0, ino1, data1) && SlotsGrow(ino1, data1, ino, data, i, k)
    ensures SlotsKept(ino0, data0, ino, data)
  {
    hide Slot;
  }

  lemma NothingLost(ino: Inodes, data: Data)
    ensures SlotsKept(ino, data, ino, data)
  {
  }

  lemma KeptHere(ino0: Inodes, data0: Data, ino: Inodes, data: Data, i: nat, k: nat)
    requires SlotsKept(ino0, data0, ino, data) && i < |ino0| && k < NSLOT
    ensures Slot(ino, data, i, k) == 0 ==> Slot(ino0, data0, i, k) == 0
  {
    hide Slot;
  }

  lemma ChunkIsContent(ino0: Inodes, data0: Data, ino: Inodes, data: Data, i: nat, off: nat, r: seq<byte>,
                       chunk: seq<byte>)
    requires i < |ino0| && BytesSame(ino0, data0, ino, data) && ReadSoFar(ino0, data0, i, off, r)
    requires var pos := off + |r|;
             && pos / BSIZE < MAXFILE && pos % BSIZE + |chunk| <= BSIZE
             && var a := Slot(ino, data, i, SlotOf(pos / BSIZE));
                0 < a < |data| && chunk == data[a][pos % BSIZE..pos % BSIZE + |chunk|]
    ensures ReadSoFar(ino0, data0, i, off, r + chunk)
  {
    hide Slot;
    var pos := off + |r|;
    var r' := r + chunk;
    forall t: nat | t < |r'|
      ensures (off + t) / BSIZE < MAXFILE && r'[t] == ByteAt(ino0, data0, i, off + t)
    {
      if t >= |r| {
        var o := off + t;
        assert o / BSIZE == pos / BSIZE && o % BSIZE == pos % BSIZE + (t - |r|);
        assert ByteAt(ino, data, i, o) == chunk[t - |r|];
      }
    }
  }

  lemma IsContent(ino: Inodes, data: Data, i: nat, off: nat, r: seq<byte>)
    requires i < |ino| && ReadSoFar(ino, data, i, off, r) && off + |r| <= ino[i].size <= MAXFILE * BSIZE
    ensures r == Content(ino, data, i)[off..off + |r|]
  {
    hide ByteAt;
  }

  // ---------------------------------------------------------------- writing

  /** writei accepts the range. */
  predicate Writable(size: nat, off: nat, n: nat) {
    off <= size && off + n < 0x1_0000_0000 && off + n <= MAXFILE * BSIZE
  }

  /** s with t put over it at off, longer if t sticks out. */
  function Overwrite(s: seq<byte>, off: nat, t: seq<byte>): seq<byte>
    requires off <= |s|
  {
    s[..off] + t + (if off + |t| < |s| then s[off + |t|..] else [])
  }

  /** Number of file blocks that n bytes at off lie in. */
  function Span(off: nat, n: nat): nat {
    if n == 0 then 0 else (off + n - 1) / BSIZE - off / BSIZE + 1
  }

  /** The bytes are as before, but for s at off in file i. */
  ghost predicate Wrote(ino0: Inodes, data0: Data, ino: Inodes, data: Data, i: nat, off: nat, s: seq<byte>) {
    && |ino| == |ino0|
    && (forall x: nat, o: nat :: x < |ino0| && o / BSIZE < MAXFILE ==>
          ByteAt(ino, data, x, o) == if x == i && off <= o < off + |s| then s[o - off] else ByteAt(ino0, data0, x, o))
  }

  /** Sizes are as before, no slot in use changed, and the blocks from off up to pos are mapped. */
  ghost predicate Progress(ino0: Inodes, data0: Data, ino: Inodes, data: Data, i: nat, off: nat, pos: nat) {
    && SizesSame(ino0, ino) && i < |ino|
    && (forall x: nat, y: nat :: x < |ino0| && y < NSLOT && Slot(ino0, data0, x, y) != 0 ==>
          Slot(ino, data, x, y) == Slot(ino0, data0, x, y))
    && (forall bn: nat :: bn < MAXFILE && off / BSIZE <= bn && bn * BSIZE < pos && off < pos ==>
          Slot(ino, data, i, SlotOf(bn)) != 0)
  }

  ghost predicate LogBound(sb: Super, log0: set<nat>, log: set<nat>, table: nat, touched: set<nat>) {
    forall l :: l in log ==> l in log0 || IsBitmap(sb, l) || (l == table && table != 0) || l in touched
  }

  ghost predicate WriteLogs(sb: Super, log0: set<nat>, log: set<nat>, i: nat, table: nat, touched: set<nat>) {
    forall l :: l in log ==>
      l in log0 || IsBitmap(sb, l) || (l == table && table != 0) || l in touched || l == IBLOCK(sb, i)
  }

  lemma BmapShape(sb: Super, ino: Inodes, dino: Inodes, data: Data, used: seq<bool>, ino1: Inodes)
    requires Shape(sb, ino, dino, data, used) && SizesSame(ino1, ino)
    ensures |ino| == |ino1| && |data| == sb.size
  {
  }

  lemma ShapeOfData(sb: Super, ino: Inodes, dino: Inodes, data1: Data, data: Data, used: seq<bool>)
    requires Shape(sb, ino, dino, data1, used) && |data| == |data1|
    ensures Shape(sb, ino, dino, data, used)
  {
  }

  lemma NothingWritten(sb: Super, ino: Inodes, data: Data, log: set<nat>, i: nat, off: nat, src: seq<byte>)
    requires i < |ino|
    ensures Wrote(ino, data, ino, data, i, off, src[..0]) && Progress(ino, data, ino, data, i, off, off)
    ensures LogBound(sb, log, log, ino[i].addrs[12], {})
  {
  }

  lemma MapStep(ino0: Inodes, data0: Data, ino1: Inodes, data1: Data, ino: Inodes, data: Data, i: nat, off: nat,
                pos: nat, s: seq<byte>)
    requires Wrote(ino0, data0, ino1, data1, i, off, s) && Progress(ino0, data0, ino1, data1, i, off, pos)
    requires pos / BSIZE < MAXFILE && off <= pos
    requires BytesSame(ino1, data1, ino, data) && SlotsGrow(ino1, data1, ino, data, i, SlotOf(pos / BSIZE))
    requires SizesSame(ino1, ino)
    ensures Wrote(ino0, data0, ino, data, i, off, s) && Progress(ino0, data0, ino, data, i, off, pos)
  {
    hide Slot, ByteAt;
  }

  lemma WriteStep(ino0: Inodes, data0: Data, ino: Inodes, data1: Data, data: Data, owner: Owner, lo: nat,
                  i: nat, off: nat, src: seq<byte>, tot: nat, m: nat)
    requires i < |ino| && Owned(ino, data1, owner, lo, |data1|) && tot + m <= |src| && 0 < m
    requires Wrote(ino0, data0, ino, data1, i, off, src[..tot]) && Progress(ino0, data0, ino, data1, i, off, off + tot)
    requires var pos := off + tot;
             && pos / BSIZE < MAXFILE && pos % BSIZE + m <= BSIZE
             && var a := Slot(ino, data1, i, SlotOf(pos / BSIZE));
                0 < a < |data1| && data == data1[a := Patch(data1[a], pos % BSIZE, src[tot..tot + m])]
    ensures Owned(ino, data, owner, lo, |data|)
    ensures Wrote(ino0, data0, ino, data, i, off, src[..tot + m])
    ensures Progress(ino0, data0, ino, data, i, off, off + tot + m)
  {
    hide Owned, Slot, Patch, ByteAt, Wrote, Progress;
    var pos := off + tot;
    var k := SlotOf(pos / BSIZE);
    var a := Slot(ino, data1, i, k);
    WriteData(ino, data1, owner, lo, i, k, data[a]);
    OwnedSame(ino, data1, ino, data, owner, lo, |data|);
    WroteMore(ino0, data0, ino, data1, data, owner, lo, i, off, src, tot, m);
    MoreProgress(ino0, data0, ino, data1, data, i, off, pos, m);
  }

  lemma WroteMore(ino0: Inodes, data0: Data, ino: Inodes, data1: Data, data: Data, owner: Owner, lo: nat,
                  i: nat, off: nat, src: seq<byte>, tot: nat, m: nat)
    requires i < |ino| && Owned(ino, data1, owner, lo, |data1|) && tot + m <= |src|
    requires Wrote(ino0, data0, ino, data1, i, off, src[..tot])
    requires var pos := off + tot;
             && pos / BSIZE < MAXFILE && pos % BSIZE + m <= BSIZE
             && var a := Slot(ino, data1, i, SlotOf(pos / BSIZE));
                0 < a < |data1| && data == data1[a := Patch(data1[a], pos % BSIZE, src[tot..tot + m])]
    ensures Wrote(ino0, data0, ino, data, i, off, src[..tot + m])
  {
    hide Owned, Slot, Patch, ByteAt;
    forall x: nat, o: nat | x < |ino0| && o / BSIZE < MAXFILE
      ensures ByteAt(ino, data, x, o) ==
              if x == i && off <= o < off + tot + m then src[..tot + m][o - off] else ByteAt(ino0, data0, x, o)
    {
      WriteBytes(ino, data1, owner, lo, i, off + tot, src[tot..tot + m], x, o);
    }
  }

  lemma MoreProgress(ino0: Inodes, data0: Data, ino: Inodes, data1: Data, data: Data, i: nat, off: nat, pos: nat,
                     m: nat)
    requires Progress(ino0, data0, ino, data1, i, off, pos) && SlotsSame(ino, data1, ino, data) && off <= pos && 0 < m
    requires pos / BSIZE < MAXFILE && pos % BSIZE + m <= BSIZE && i < |ino|
    requires Slot(ino, data1, i, SlotOf(pos / BSIZE)) != 0
    ensures Progress(ino0, data0, ino, data, i, off, pos + m)
  {
    hide Slot;
    forall bn: nat | bn < MAXFILE && off / BSIZE <= bn && bn * BSIZE < pos + m
      ensures Slot(ino, data, i, SlotOf(bn)) != 0
    {
      if bn != pos / BSIZE {
        assert bn * BSIZE < pos;
      }
    }
  }

  /** The end of writei: the size grows to cover what was written. */
  lemma SizeStep(ino0: Inodes, data0: Data, ino1: Inodes, ino: Inodes, data: Data, owner: Owner, lo: nat, hi: nat,
                 i: nat, off: nat, s: seq<byte>)
    requires i < |ino0| && off <= ino0[i].size && off + |s| <= MAXFILE * BSIZE
    requires Wrote(ino0, data0, ino1, data, i, off, s) && Progress(ino0, data0, ino1, data, i, off, off + |s|)
    requires Owned(ino1, data, owner, lo, hi) && i < |ino1| && Sized(ino0)
    requires ino == if off + |s| > ino1[i].size then ino1[i := Inode(off + |s|, ino1[i].addrs)] else ino1
    ensures Owned(ino, data, owner, lo, hi) && |ino| == |ino0| && ino[i].addrs == ino1[i].addrs && Sized(ino)
    ensures forall y: nat :: y < NSLOT ==> Slot(ino, data, i, y) == Slot(ino1, data, i, y)
    ensures Content(ino, data, i) == Overwrite(Content(ino0, data0, i), off, s)
    ensures forall x: nat :: x < |ino| && x != i ==>
              ino[x].size == ino0[x].size && Content(ino, data, x) == Content(ino0, data0, x)
    ensures forall x: nat :: x < |ino| && Mapped(ino0, data0, x) ==> Mapped(ino, data, x)
  {
    hide Owned, ByteAt, Slot, Content, Mapped, Wrote, Overwrite;
    SlotsOfAddrs(ino1, ino, data);
    OwnedSame(ino1, data, ino, data, owner, lo, hi);
    WroteSame(ino0, data0, ino1, ino, data, i, off, s);
    WrittenContent(ino0, data0, ino, data, i, off, s);
    forall x: nat | x < |ino|
      ensures x != i ==> Content(ino, data, x) == Content(ino0, data0, x)
      ensures Mapped(ino0, data0, x) ==> Mapped(ino, data, x)
    {
      if x != i {
        OtherContent(ino0, data0, ino, data, i, off, s, x);
      }
      StillMapped(ino0, data0, ino1, ino, data, i, off, |s|, x);
    }
  }

  ghost predicate Sized(ino: Inodes) {
    forall i: nat :: i < |ino| ==> ino[i].size <= MAXFILE * BSIZE
  }

  lemma SlotsOfAddrs(ino1: Inodes, ino: Inodes, data: Data)
    requires |ino| == |ino1| && forall x: nat :: x < |ino| ==> ino[x].addrs == ino1[x].addrs
    ensures SlotsSame(ino1, data, ino, data)
  {
  }

  lemma WroteSame(ino0: Inodes, data0: Data, ino1: Inodes, ino: Inodes, data: Data, i: nat, off: nat, s: seq<byte>)
    requires Wrote(ino0, data0, ino1, data, i, off, s) && SlotsSame(ino1, data, ino, data)
    ensures Wrote(ino0, data0, ino, data, i, off, s)
  {
    hide Slot;
    forall x: nat, o: nat | x < |ino0| && o / BSIZE < MAXFILE
      ensures ByteAt(ino, data, x, o) == ByteAt(ino1, data, x, o)
    {
    }
  }

  lemma WrittenContent(ino0: Inodes, data0: Data, ino: Inodes, data: Data, i: nat, off: nat, s: seq<byte>)
    requires Wrote(ino0, data0, ino, data, i, off, s) && i < |ino0| && Sized(ino0) && Sized(ino)
    requires off <= ino0[i].size && ino[i].size == if off + |s| > ino0[i].size then off + |s| else ino0[i].size
    ensures Content(ino, data, i) == Overwrite(Content(ino0, data0, i), off, s)
  {
    hide ByteAt;
    var c, d := Content(ino, data, i), Overwrite(Content(ino0, data0, i), off, s);
    assert |c| == |d|;
    forall o | 0 <= o < |c|
      ensures c[o] == d[o]
    {
      assert o / BSIZE < MAXFILE;
    }
  }

  lemma OtherContent(ino0: Inodes, data0: Data, ino: Inodes, data: Data, i: nat, off: nat, s: seq<byte>, x: nat)
    requires Wrote(ino0, data0, ino, data, i, off, s) && x < |ino0| && x != i && Sized(ino0)
    requires ino[x].size == ino0[x].size
    ensures Content(ino, data, x) == Content(ino0, data0, x)
  {
    hide ByteAt;
    var c, d := Content(ino, data, x), Content(ino0, data0, x);
    forall o | 0 <= o < |c|
      ensures c[o] == d[o]
    {
      assert o / BSIZE < MAXFILE;
    }
  }

  lemma StillMapped(ino0: Inodes, data0: Data, ino1: Inodes, ino: Inodes, data: Data, i: nat, off: nat, n: nat, x: nat)
    requires Progress(ino0, data0, ino1, data, i, off, off + n) && SlotsSame(ino1, data, ino, data) && x < |ino0|
    requires i < |ino0|
    requires off <= ino0[i].size && ino[x].size <= if x == i && off + n > ino0[i].size then off + n else ino0[x].size
    ensures Mapped(ino0, data0, x) ==> Mapped(ino, data, x)
  {
    hide Slot;
    if Mapped(ino0, data0, x) {
      forall bn: nat | bn < MAXFILE && bn * BSIZE < ino[x].size
        ensures Slot(ino, data, x, SlotOf(bn)) != 0
      {
        if bn * BSIZE < ino0[x].size {
          assert Slot(ino0, data0, x, SlotOf(bn)) != 0;
        } else {
          assert Slot(ino1, data, x, SlotOf(bn)) != 0;
        }
      }
    }
  }

  lemma LogStep(sb: Super, log0: set<nat>, log1: set<nat>, log: set<nat>, ino1: Inodes, data1: Data, ino: Inodes,
                data: Data,
                i: nat, k: nat, addr: nat, touched: set<nat>)
    requires i < |ino1| == |ino| && k < NSLOT && k != 12
    requires LogBound(sb, log0, log1, ino1[i].addrs[12], touched) && BmapLogs(sb, log1, log, ino[i].addrs[12], addr)
    requires SlotsGrow(ino1, data1, ino, data, i, k)
    ensures LogBound(sb, log0, log, ino[i].addrs[12], if addr == 0 then touched else touched + {addr})
  {
    DirectSlot(ino1, data1, i, 12);
    DirectSlot(ino, data, i, 12);
    hide Slot;
  }

  lemma LogMore(sb: Super, log0: set<nat>, log1: set<nat>, log: set<nat>, table: nat, touched: set<nat>, addr: nat)
    requires addr in touched && log <= log1 + {addr} && LogBound(sb, log0, log1, table, touched)
    ensures LogBound(sb, log0, log, table, touched)
  {
  }

  lemma LogEnd(sb: Super, log0: set<nat>, log1: set<nat>, log: set<nat>, i: nat, table: nat, touched: set<nat>)
    requires LogBound(sb, log0, log1, table, touched) && log == log1 + {IBLOCK(sb, i)}
    ensures WriteLogs(sb, log0, log, i, table, touched)
  {
  }

  lemma SpanStep(off: nat, tot: nat, m: nat)
    requires (off + tot) % BSIZE == 0 || tot == 0
    requires 0 < m && (off + tot) % BSIZE + m <= BSIZE
    ensures Span(off, tot + m) == Span(off, tot) + 1
  {
  }

  lemma SpanGrows(off: nat, tot: nat, n: nat)
    requires tot <= n
    ensures Span(off, tot) <= Span(off, n)
  {
  }

  /** A step that changes nothing. */
  lemma Unchanged(sb: Super, ino: Inodes, data: Data, logged: set<nat>, i: nat, k: nat, table: nat)
    ensures BytesSame(ino, data, ino, data) && SlotsGrow(ino, data, ino, data, i, k) && SizesSame(ino, ino)
    ensures forall a :: BmapLogs(sb, logged, logged, table, a)
  {
  }

  lemma NoTableNoEntry(ino: Inodes, data: Data, i: nat, k: nat)
    requires i < |ino| && 12 < k < NSLOT && ino[i].addrs[12] == 0
    ensures Slot(ino, data, i, k) == 0
  {
  }

  lemma TableSlot(ino: Inodes, data: Data, i: nat, e: nat)
    requires i < |ino| && e < NINDIRECT && 0 < ino[i].addrs[12] < |data|
    ensures Slot(ino, data, i, 13 + e) == Entry(data[ino[i].addrs[12]], e)
  {
  }

  lemma AfterPointer(sb: Super, ino: Inodes, data: Data, ino': Inodes, data': Data, log: set<nat>, log': set<nat>,
                     i: nat, k: nat, addr: nat, bk: nat)
    requires i < |ino| && k <= 12 && bk < NSLOT && (k == bk || k == 12) && 0 < addr < sb.size
    requires ino' == SetAddr(ino, i, k, addr) && Slot(ino, data, i, k) == 0
    requires SlotSet(ino, data, ino', data', i, k, addr) && log' == log + {BBLOCK(sb, addr), addr}
    ensures SlotsGrow(ino, data, ino', data', i, bk) && SizesSame(ino, ino')
    ensures Slot(ino', data', i, k) == addr
    ensures BmapLogs(sb, log, log', ino'[i].addrs[12], addr)
    ensures k == 12 ==> ino'[i].addrs[12] == addr && forall a :: BmapLogs(sb, log, log', addr, a)
  {
    hide Slot;
    BitmapBlock(sb, addr);
  }

  lemma AfterEntry(sb: Super, ino0: Inodes, data0: Data, ino: Inodes, data1: Data, data: Data,
                   log0: set<nat>, log1: set<nat>, log: set<nat>, i: nat, k: nat, addr: nat)
    requires i < |ino| && 12 < k < NSLOT && 0 < addr < sb.size && Slot(ino, data1, i, k) == 0 && ino[i].addrs[12] != 0
    requires SlotsGrow(ino0, data0, ino, data1, i, k) && BytesSame(ino0, data0, ino, data1)
    requires BytesSame(ino, data1, ino, data)
    requires BmapLogs(sb, log0, log1, ino[i].addrs[12], 0)
    requires SlotSet(ino, data1, ino, data, i, k, addr) && log == log1 + {BBLOCK(sb, addr), addr, ino[i].addrs[12]}
    ensures SlotsGrow(ino0, data0, ino, data, i, k) && BytesSame(ino0, data0, ino, data)
    ensures Slot(ino, data, i, k) == addr
    ensures BmapLogs(sb, log0, log, ino[i].addrs[12], addr)
  {
    hide Slot, ByteAt;
    BitmapBlock(sb, addr);
  }

  /**
    What bmap does for slot k of file i: it ends up holding addr, nothing a file reads changes, only bitmap
    blocks, the indirect block and addr are logged, and a bit is set exactly if the slot was empty and a block free.
   */
  ghost predicate Mapping(sb: Super, ino0: Inodes, data0: Data, used0: seq<bool>, log0: set<nat>,
                          ino: Inodes, data: Data, used: seq<bool>, log: set<nat>, i: nat, k: nat, addr: nat) {
    && i < |ino0| == |ino| && k < NSLOT && |data| == |data0|
    && addr == Slot(ino, data, i, k) && addr < sb.size && (addr == 0 ==> Full(used))
    && ino == ino0[i := ino[i]] && SizesSame(ino0, ino)
    && SlotsGrow(ino0, data0, ino, data, i, k) && BytesSame(ino0, data0, ino, data)
    && BmapLogs(sb, log0, log, ino[i].addrs[12], addr)
    && Grew(used0, used) && (used == used0 <==> Slot(ino0, data0, i, k) != 0 || Full(used0))
    && (used == used0 ==> ino == ino0 && data == data0 && log == log0)
  }

  /** The same for the indirect block t, with slot k still to be looked at. */
  ghost predicate Tabled(sb: Super, ino0: Inodes, data0: Data, used0: seq<bool>, log0: set<nat>,
                         ino: Inodes, data: Data, used: seq<bool>, log: set<nat>, i: nat, k: nat, t: nat) {
    && i < |ino0| == |ino| && 12 < k < NSLOT && |data| == |data0|
    && t == ino[i].addrs[12] != 0 && ino == ino0[i := ino[i]] && SizesSame(ino0, ino)
    && SlotsGrow(ino0, data0, ino, data, i, k) && BytesSame(ino0, data0, ino, data)
    && (forall a :: BmapLogs(sb, log0, log, t, a))
    && Grew(used0, used) && (used == used0 ==> ino == ino0 && data == data0 && log == log0)
    && (used != used0 ==> Slot(ino0, data0, i, k) == 0 && !Full(used0))
    && Slot(ino, data, i, k) == Slot(ino0, data0, i, k)
  }

  lemma SlotInside(ino: Inodes, data: Data, owner: Owner, lo: nat, hi: nat, i: nat, k: nat)
    requires Owned(ino, data, owner, lo, hi) && i < |ino| && k < NSLOT && 0 < hi
    ensures Slot(ino, data, i, k) < hi && (k <= 12 ==> Slot(ino, data, i, k) == ino[i].addrs[k])
  {
    if Slot(ino, data, i, k) != 0 {
      SlotHasOwner(ino, data, owner, lo, hi, i, k);
    }
  }

  lemma MappingSame(sb: Super, ino: Inodes, data: Data, used: seq<bool>, log: set<nat>, i: nat, k: nat, addr: nat)
    requires i < |ino| && k < NSLOT && addr == Slot(ino, data, i, k) < sb.size && (addr == 0 ==> Full(used))
    ensures Mapping(sb, ino, data, used, log, ino, data, used, log, i, k, addr)
  {
    Unchanged(sb, ino, data, log, i, k, ino[i].addrs[12]);
    hide Slot, SizesSame, SlotsGrow, BytesSame, BmapLogs, Full;
  }

  lemma SetsOne(ino: Inodes, i: nat, k: nat, b: nat)
    requires i < |ino| && k <= 12
    ensures |SetAddr(ino, i, k, b)| == |ino| && SetAddr(ino, i, k, b) == ino[i := SetAddr(ino, i, k, b)[i]]
  {
  }

  lemma NotFull(used: seq<bool>, b: nat)
    requires b < |used| && !used[b]
    ensures !Full(used)
  {
  }

  lemma MappingPointer(sb: Super, ino0: Inodes, data0: Data, used0: seq<bool>, log0: set<nat>,
                       ino: Inodes, data: Data, used: seq<bool>, log: set<nat>, i: nat, k: nat, addr: nat)
    requires i < |ino0| && k < 12 && 0 < addr < sb.size && |data| == |data0| && Slot(ino0, data0, i, k) == 0
    requires ino == SetAddr(ino0, i, k, addr) && SlotSet(ino0, data0, ino, data, i, k, addr)
    requires BytesSame(ino0, data0, ino, data)
    requires log == log0 + {BBLOCK(sb, addr), addr} && addr < |used0| && !used0[addr] && used == used0[addr := true]
    ensures Mapping(sb, ino0, data0, used0, log0, ino, data, used, log, i, k, addr)
  {
    hide Slot, SlotSet, SetAddr, SizesSame, SlotsGrow, BytesSame, BmapLogs, Full, Grew;
    AfterPointer(sb, ino0, data0, ino, data, log0, log, i, k, addr, k);
    SetsOne(ino0, i, k, addr);
    GrewSame(used0);
    GrewOne(used0, used0, addr, used);
    NotFull(used0, addr);
  }

  lemma TabledSame(sb: Super, ino: Inodes, data: Data, used: seq<bool>, log: set<nat>, i: nat, k: nat, t: nat)
    requires i < |ino| && 12 < k < NSLOT && t == ino[i].addrs[12] != 0
    ensures Tabled(sb, ino, data, used, log, ino, data, used, log, i, k, t)
  {
    Unchanged(sb, ino, data, log, i, k, t);
    hide Slot, SizesSame, SlotsGrow, BytesSame, BmapLogs;
  }

  lemma TabledNew(sb: Super, ino0: Inodes, data0: Data, used0: seq<bool>, log0: set<nat>,
                  ino: Inodes, data: Data, used: seq<bool>, log: set<nat>, i: nat, k: nat, t: nat)
    requires i < |ino0| && 12 < k < NSLOT && 0 < t < sb.size && |data| == |data0| && Slot(ino0, data0, i, 12) == 0
    requires Slot(ino0, data0, i, k) == 0
    requires ino == SetAddr(ino0, i, 12, t) && SlotSet(ino0, data0, ino, data, i, 12, t)
    requires BytesSame(ino0, data0, ino, data)
    requires log == log0 + {BBLOCK(sb, t), t} && t < |used0| && !used0[t] && used == used0[t := true]
    ensures Tabled(sb, ino0, data0, used0, log0, ino, data, used, log, i, k, t)
  {
    assert Slot(ino, data, i, k) == Slot(ino0, data0, i, k);
    hide Slot, SlotSet, SetAddr, SizesSame, SlotsGrow, BytesSame, BmapLogs, Full, Grew;
    AfterPointer(sb, ino0, data0, ino, data, log0, log, i, 12, t, k);
    SetsOne(ino0, i, 12, t);
    GrewSame(used0);
    GrewOne(used0, used0, t, used);
    NotFull(used0, t);
  }

  lemma TabledFacts(sb: Super, ino0: Inodes, data0: Data, used0: seq<bool>, log0: set<nat>,
                    ino: Inodes, data: Data, used: seq<bool>, log: set<nat>, i: nat, k: nat, t: nat)
    requires Tabled(sb, ino0, data0, used0, log0, ino, data, used, log, i, k, t)
    ensures t == ino[i].addrs[12] != 0 && |data| == |data0| && Slot(ino, data, i, k) == Slot(ino0, data0, i, k)
  {
  }

  /** The entry was there, or the disk is full. */
  lemma TabledIsMapping(sb: Super, ino0: Inodes, data0: Data, used0: seq<bool>, log0: set<nat>,
                        ino: Inodes, data: Data, used: seq<bool>, log: set<nat>, i: nat, k: nat, t: nat, addr: nat)
    requires Tabled(sb, ino0, data0, used0, log0, ino, data, used, log, i, k, t)
    requires addr == Slot(ino, data, i, k) < sb.size && (addr == 0 ==> Full(used))
    ensures Mapping(sb, ino0, data0, used0, log0, ino, data, used, log, i, k, addr)
  {
    hide Slot, SizesSame, SlotsGrow, BytesSame, BmapLogs, Full, Grew;
  }

  /** The entry was added. */
  lemma TabledThenEntry(sb: Super, ino0: Inodes, data0: Data, used0: seq<bool>, log0: set<nat>,
                        ino: Inodes, data1: Data, used1: seq<bool>, log1: set<nat>,
                        data: Data, used: seq<bool>, log: set<nat>, i: nat, k: nat, t: nat, addr: nat)
    requires Tabled(sb, ino0, data0, used0, log0, ino, data1, used1, log1, i, k, t) && Slot(ino, data1, i, k) == 0
    requires 0 < addr < sb.size && |data| == |data1| && SlotSet(ino, data1, ino, data, i, k, addr)
    requires BytesSame(ino, data1, ino, data)
    requires log == log1 + {BBLOCK(sb, addr), addr, t} && addr < |used1| && !used1[addr] && used == used1[addr := true]
    ensures Mapping(sb, ino0, data0, used0, log0, ino, data, used, log, i, k, addr) && used != used0
  {
    hide Slot, SlotSet, SizesSame, SlotsGrow, BytesSame, BmapLogs, Full, Grew;
    AfterEntry(sb, ino0, data0, ino, data1, data, log0, log1, log, i, k, addr);
    GrewOne(used0, used1, addr, used);
    FullStays(used0, used1, addr);
  }

  lemma FullStays(used0: seq<bool>, used1: seq<bool>, b: nat)
    requires Grew(used0, used1) && b < |used1| && !used1[b]
    ensures !Full(used0)
  {
  }

  lemma BitmapBlock(sb: Super, b: nat)
    requires b < sb.size
    ensures IsBitmap(sb, BBLOCK(sb, b))
  {
  }

  // ---------------------------------------------------------------- truncation

  function NoAddrs(): Addrs {
    seq(13, _ => 0)
  }

  /** The owner map without the blocks of file i. */
  ghost function Without(owner: Owner, i: nat): Owner {
    map b | b in owner && owner[b].0 != i :: owner[b]
  }

  ghost predicate Dropped(a0: Addrs, a: Addrs, n: nat) {
    forall k :: 0 <= k < 13 ==> a[k] == if k < n then 0 else a0[k]
  }

  ghost predicate LogsBitmap(sb: Super, log0: set<nat>, log: set<nat>) {
    forall l :: l in log ==> l in log0 || IsBitmap(sb, l)
  }

  /** The bitmap with the blocks in the first n slots of file i given back. */
  ghost predicate Released(used: seq<bool>, owner: Owner, lo: nat, i: nat, n: nat) {
    forall b: nat :: b < |used| ==> (used[b] <==> b < lo || (b in owner && !(owner[b].0 == i && owner[b].1 < n)))
  }

  /** As Released, but for the indirect block itself. */
  ghost predicate ReleasedBut(used: seq<bool>, owner: Owner, lo: nat, i: nat, n: nat) {
    forall b: nat :: b < |used| ==>
      (used[b] <==> b < lo || (b in owner && !(owner[b].0 == i && owner[b].1 < n && owner[b].1 != 12)))
  }

  lemma BitsAreReleased(used: seq<bool>, owner: Owner, lo: nat, i: nat)
    requires Bits(used, owner, lo)
    ensures Released(used, owner, lo, i, 0)
  {
  }

  /** A block is owned by slot (i, n) exactly when that slot holds it. */
  lemma OwnerIsSlot(ino: Inodes, data: Data, owner: Owner, lo: nat, hi: nat, i: nat, n: nat)
    requires Owned(ino, data, owner, lo, hi) && i < |ino| && n < NSLOT && 0 < lo
    ensures var a := Slot(ino, data, i, n);
            && (a != 0 ==> lo <= a < hi && a in owner && owner[a] == (i, n))
            && (forall b :: b in owner && owner[b] == (i, n) ==> b == a && a != 0)
  {
    hide Slot;
    var a := Slot(ino, data, i, n);
    forall b | b in owner && owner[b] == (i, n)
      ensures b == a && a != 0
    {
      assert RefersTo(ino, data, owner[b], b);
    }
  }

  lemma ReleaseOne(ino: Inodes, data: Data, used: seq<bool>, owner: Owner, lo: nat, hi: nat, i: nat, n: nat)
    requires Owned(ino, data, owner, lo, hi) && i < |ino| && n < NSLOT && 0 < lo && |used| == hi
    requires Released(used, owner, lo, i, n)
    ensures var a := Slot(ino, data, i, n);
            if a == 0 then Released(used, owner, lo, i, n + 1)
            else lo <= a < hi && used[a] && Released(used[a := false], owner, lo, i, n + 1)
  {
    OwnerIsSlot(ino, data, owner, lo, hi, i, n);
    hide Owned, Slot;
  }

  lemma ReleaseEntry(ino: Inodes, data: Data, used: seq<bool>, owner: Owner, lo: nat, hi: nat, i: nat, n: nat)
    requires Owned(ino, data, owner, lo, hi) && i < |ino| && 12 < n < NSLOT && 0 < lo && |used| == hi
    requires ReleasedBut(used, owner, lo, i, n)
    ensures var a := Slot(ino, data, i, n);
            if a == 0 then ReleasedBut(used, owner, lo, i, n + 1)
            else lo <= a < hi && used[a] && ReleasedBut(used[a := false], owner, lo, i, n + 1)
  {
    OwnerIsSlot(ino, data, owner, lo, hi, i, n);
    hide Owned, Slot;
  }

  lemma SkipTable(used: seq<bool>, owner: Owner, lo: nat, i: nat, t: nat)
    requires Released(used, owner, lo, i, 12) && t in owner && owner[t] == (i, 12)
    ensures ReleasedBut(used, owner, lo, i, 13)
  {
  }

  lemma ReleaseTable(ino: Inodes, data: Data, used: seq<bool>, owner: Owner, lo: nat, hi: nat, i: nat, t: nat)
    requires Owned(ino, data, owner, lo, hi) && i < |ino| && 0 < lo && |used| == hi
    requires ReleasedBut(used, owner, lo, i, NSLOT) && t == Slot(ino, data, i, 12) != 0
    ensures lo <= t < hi && used[t] && Released(used[t := false], owner, lo, i, NSLOT)
  {
    OwnerIsSlot(ino, data, owner, lo, hi, i, 12);
    hide Owned, Slot;
  }

  lemma NothingIndirect(ino: Inodes, data: Data, used: seq<bool>, owner: Owner, lo: nat, hi: nat, i: nat)
    requires Owned(ino, data, owner, lo, hi) && i < |ino| && 0 < lo && Released(used, owner, lo, i, 12)
    requires ino[i].addrs[12] == 0
    ensures Released(used, owner, lo, i, NSLOT)
  {
    forall b | b in owner && owner[b].0 == i
      ensures owner[b].1 < 12
    {
      assert RefersTo(ino, data, owner[b], b);
    }
  }

  /** After itrunc the remaining blocks have their owners and the bitmap agrees. */
  lemma Truncated(ino0: Inodes, ino: Inodes, data: Data, used: seq<bool>, owner: Owner, lo: nat, hi: nat, i: nat)
    requires Owned(ino0, data, owner, lo, hi) && i < |ino0| && Sized(ino0) && ino == ino0[i := Inode(0, NoAddrs())]
    requires 0 < lo
    requires Released(used, owner, lo, i, NSLOT)
    ensures Owned(ino, data, Without(owner, i), lo, hi) && Bits(used, Without(owner, i), lo) && Sized(ino)
    ensures forall x: nat :: x < |ino| && x != i ==> Content(ino, data, x) == Content(ino0, data, x)
  {
    var owner' := Without(owner, i);
    forall x: nat, y: nat | x < |ino| && y < NSLOT
      ensures Slot(ino, data, x, y) == if x == i then 0 else Slot(ino0, data, x, y)
    {
    }
    hide Slot;
    forall b | b in owner
      ensures owner[b].1 < NSLOT
      ensures owner[b].0 != i ==> RefersTo(ino, data, owner[b], b)
    {
      assert RefersTo(ino0, data, owner[b], b);
    }
    hide Content;
    forall x: nat | x < |ino| && x != i
      ensures Content(ino, data, x) == Content(ino0, data, x)
    {
      KeptContent(ino0, ino, data, x);
    }
  }

  lemma KeptContent(ino0: Inodes, ino: Inodes, data: Data, x: nat)
    requires x < |ino0| && x < |ino| && ino[x] == ino0[x] && ino[x].size <= MAXFILE * BSIZE
    ensures Content(ino, data, x) == Content(ino0, data, x)
  {
    forall o | 0 <= o < ino[x].size
      ensures ByteAt(ino, data, x, o) == ByteAt(ino0, data, x, o)
    {
    }
  }

  lemma NullIsFull(used: seq<bool>, owner: Owner, lo: nat, r: nat)
    requires Bits(used, owner, lo) && 0 < lo <= |used| && (FirstFree(used, r) || (r == 0 && Full(used)))
    ensures r == 0 <==> Full(used)
  {
    assert used[0];
  }

  lemma FreeBlock(used: seq<bool>, owner: Owner, lo: nat, r: nat, s: SlotId)
    requires Bits(used, owner, lo) && FirstFree(used, r) && lo <= |used|
    ensures lo <= r && r !in owner
    ensures Bits(used[r := true], owner[r := s], lo)
  {
  }

  lemma BytesStay(ino: Inodes, data: Data)
    ensures BytesSame(ino, data, ino, data)
  {
  }

  lemma DirectSlot(ino: Inodes, data: Data, i: nat, k: nat)
    requires i < |ino| && k <= 12
    ensures Slot(ino, data, i, k) == ino[i].addrs[k]
  {
  }
}
