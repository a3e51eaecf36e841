/**
  Inodes, indirect blocks and block ownership of kernel/fs.c as values.
  A slot is a place that can hold a block number: a direct pointer (0..11), the indirect pointer (12),
  or an entry of the indirect block (13..268).
 */
module FsLayout {

  const BSIZE: nat := 1024
  const NDIRECT: nat := 12
  const NINDIRECT: nat := 256
  const MAXFILE: nat := 268
  const NSLOT: nat := 269
  const BPB: nat := 8192
  const IPB: nat := 16

  type byte = b: nat | b < 256
  type Block = s: seq<byte> | |s| == 1024 witness seq(1024, _ => 0)
  type Addrs = s: seq<nat> | |s| == 13 witness seq(13, _ => 0)

  datatype Inode = Inode(size: nat, addrs: Addrs)

  type Inodes = seq<Inode>
  type Data = seq<Block>
  type SlotId = (nat, nat)
  type Owner = map<nat, SlotId>

  function Zero(): Block {
    seq(1024, _ => 0)
  }

  // ---------------------------------------------------------------- indirect blocks

  /** a[k] where a is the block read as an array of little-endian uints. */
  function Entry(b: Block, k: nat): nat
    requires k < NINDIRECT
  {
    var b0: nat, b1: nat, b2: nat, b3: nat := b[4 * k], b[4 * k + 1], b[4 * k + 2], b[4 * k + 3];
    b0 + 0x100 * b1 + 0x1_0000 * b2 + 0x100_0000 * b3
  }

  function SetEntry(b: Block, k: nat, v: nat): Block
    requires k < NINDIRECT
  {
    b[4 * k := v % 0x100][4 * k + 1 := v / 0x100 % 0x100]
     [4 * k + 2 := v / 0x1_0000 % 0x100][4 * k + 3 := v / 0x100_0000 % 0x100]
  }

  lemma BytesOfWord(v: nat)
    requires v < 0x1_0000_0000
    ensures v % 0x100 + 0x100 * (v / 0x100 % 0x100) + 0x1_0000 * (v / 0x1_0000 % 0x100)
            + 0x100_0000 * (v / 0x100_0000 % 0x100) == v
  {
    assert v / 0x1_0000 == v / 0x100 / 0x100;
    assert v / 0x100_0000 == v / 0x1_0000 / 0x100;
  }

  lemma EntryAfterSet(b: Block, k: nat, v: nat, j: nat)
    requires k < NINDIRECT && j < NINDIRECT && v < 0x1_0000_0000
    ensures Entry(SetEntry(b, k, v), j) == if j == k then v else Entry(b, j)
  {
    BytesOfWord(v);
  }

  // ---------------------------------------------------------------- slots

  function Slot(ino: Inodes, data: Data, i: nat, k: nat): nat
    requires i < |ino| && k < NSLOT
  {
    var a := ino[i].addrs;
    if k <= 12 then a[k]
    else if a[12] == 0 || a[12] >= |data| then 0
    else Entry(data[a[12]], k - 13)
  }

  /** The slot of block bn of a file. */
  function SlotOf(bn: nat): (k: nat)
    requires bn < MAXFILE
    ensures k < NSLOT && k != 12
  {
    if bn < NDIRECT then bn else bn + 1
  }

  /** owner names, for every block some slot refers to, the one slot that does. */
  ghost predicate Owned(ino: Inodes, data: Data, owner: Owner, lo: nat, hi: nat) {
    && (forall i: nat, k: nat :: i < |ino| && k < NSLOT && Slot(ino, data, i, k) != 0 ==>
          Slot(ino, data, i, k) in owner && owner[Slot(ino, data, i, k)] == (i, k))
    && (forall b :: b in owner ==> lo <= b < hi && RefersTo(ino, data, owner[b], b))
  }

  ghost predicate RefersTo(ino: Inodes, data: Data, s: SlotId, b: nat) {
    s.0 < |ino| && s.1 < NSLOT && Slot(ino, data, s.0, s.1) == b
  }

  /** The bitmap: a bit is set iff the block is metadata or owned. */
  ghost predicate Bits(used: seq<bool>, owner: Owner, lo: nat) {
    forall b: nat :: b < |used| ==> (used[b] <==> b < lo || b in owner)
  }

  lemma SlotHasOwner(ino: Inodes, data: Data, owner: Owner, lo: nat, hi: nat, i: nat, k: nat)
    requires Owned(ino, data, owner, lo, hi) && i < |ino| && k < NSLOT && Slot(ino, data, i, k) != 0
    ensures Slot(ino, data, i, k) in owner && owner[Slot(ino, data, i, k)] == (i, k)
    ensures lo <= Slot(ino, data, i, k) < hi
  {
  }

  /** The ownership invariant in plain words: metadata, or exactly one reference. */
  lemma {:induction false} BitMeansOneReference(ino: Inodes, data: Data, used: seq<bool>, owner: Owner, lo: nat, b: nat)
    requires Owned(ino, data, owner, lo, |used|) && Bits(used, owner, lo) && 0 < lo <= b < |used|
    ensures used[b] <==> exists s: SlotId :: RefersTo(ino, data, s, b)
    ensures forall s: SlotId, t: SlotId :: RefersTo(ino, data, s, b) && RefersTo(ino, data, t, b) ==> s == t
  {
    if used[b] {
      assert RefersTo(ino, data, owner[b], b);
    }
    forall s: SlotId | RefersTo(ino, data, s, b)
      ensures b in owner && owner[b] == s
    {
      SlotHasOwner(ino, data, owner, lo, |used|, s.0, s.1);
    }
  }

  // ---------------------------------------------------------------- how slots change

  /** Slots are those of (ino, data), except that slot (i, k) now holds b. */
  ghost predicate SlotSet(ino: Inodes, data: Data, ino': Inodes, data': Data, i: nat, k: nat, b: nat) {
    && |ino'| == |ino|
    && (forall x: nat, y: nat :: x < |ino| && y < NSLOT ==>
          Slot(ino', data', x, y) == if x == i && y == k then b else Slot(ino, data, x, y))
  }

  ghost predicate SlotsSame(ino: Inodes, data: Data, ino': Inodes, data': Data) {
    && |ino'| == |ino|
    && (forall x: nat, y: nat :: x < |ino| && y < NSLOT ==> Slot(ino', data', x, y) == Slot(ino, data, x, y))
  }

  lemma OwnedSame(ino: Inodes, data: Data, ino': Inodes, data': Data, owner: Owner, lo: nat, hi: nat)
    requires Owned(ino, data, owner, lo, hi) && SlotsSame(ino, data, ino', data')
    ensures Owned(ino', data', owner, lo, hi)
  {
    hide Slot;
    forall b | b in owner
      ensures RefersTo(ino', data', owner[b], b)
    {
      assert RefersTo(ino, data, owner[b], b);
    }
  }

  lemma OwnedAdd(ino: Inodes, data: Data, ino': Inodes, data': Data, owner: Owner, lo: nat, hi: nat, i: nat, k: nat,
                 b: nat)
    requires Owned(ino, data, owner, lo, hi) && 0 < lo <= b < hi && b !in owner
    requires i < |ino| && k < NSLOT && Slot(ino, data, i, k) == 0 && SlotSet(ino, data, ino', data', i, k, b)
    ensures Owned(ino', data', owner[b := (i, k)], lo, hi)
  {
    hide Slot;
    var owner' := owner[b := (i, k)];
    forall c | c in owner'
      ensures lo <= c < hi && RefersTo(ino', data', owner'[c], c)
    {
      if c != b {
        assert RefersTo(ino, data, owner[c], c);
      }
    }
  }

  /** A block no slot refers to is nobody's indirect block. */
  lemma FreeIsNoTable(ino: Inodes, data: Data, owner: Owner, lo: nat, hi: nat, b: nat, x: nat)
    requires Owned(ino, data, owner, lo, hi) && 0 < lo && x < |ino| && b !in owner && b != 0
    ensures ino[x].addrs[12] != b
  {
    assert Slot(ino, data, x, 12) == ino[x].addrs[12];
  }

  /** A block that holds file data is nobody's indirect block. */
  lemma DataIsNoTable(ino: Inodes, data: Data, owner: Owner, lo: nat, hi: nat, i: nat, k: nat, x: nat)
    requires Owned(ino, data, owner, lo, hi) && i < |ino| && k < NSLOT && k != 12 && Slot(ino, data, i, k) != 0
    requires x < |ino|
    ensures ino[x].addrs[12] != Slot(ino, data, i, k)
  {
    assert Slot(ino, data, x, 12) == ino[x].addrs[12];
    SlotHasOwner(ino, data, owner, lo, hi, i, k);
  }

  function SetAddr(ino: Inodes, i: nat, k: nat, b: nat): Inodes
    requires i < |ino| && k <= 12
  {
    ino[i := Inode(ino[i].size, ino[i].addrs[k := b])]
  }

  lemma ZeroEntries(k: nat)
    requires k < NINDIRECT
    ensures Entry(Zero(), k) == 0
  {
  }

  /** A fresh zero block in a pointer of the inode itself. */
  lemma AddPointer(ino: Inodes, data: Data, owner: Owner, lo: nat, i: nat, k: nat, b: nat)
    requires Owned(ino, data, owner, lo, |data|) && 0 < lo <= b < |data| && b !in owner
    requires i < |ino| && k <= 12 && Slot(ino, data, i, k) == 0
    ensures SlotSet(ino, data, SetAddr(ino, i, k, b), data[b := Zero()], i, k, b)
  {
    var ino', data' := SetAddr(ino, i, k, b), data[b := Zero()];
    forall x: nat, y: nat | x < |ino| && y < NSLOT
      ensures Slot(ino', data', x, y) == if x == i && y == k then b else Slot(ino, data, x, y)
    {
      FreeIsNoTable(ino, data, owner, lo, |data|, b, x);
      if y > 12 {
        ZeroEntries(y - 13);
      }
      hide Owned, Entry;
    }
  }

  /** A fresh zero block in an entry of the indirect block. */
  lemma AddEntry(ino: Inodes, data: Data, owner: Owner, lo: nat, i: nat, k: nat, b: nat)
    requires Owned(ino, data, owner, lo, |data|) && 0 < lo <= b < |data| && b !in owner && |data| <= 0x1_0000_0000
    requires i < |ino| && 12 < k < NSLOT && Slot(ino, data, i, k) == 0 && Slot(ino, data, i, 12) != 0
    ensures var t := ino[i].addrs[12];
            && t < |data| && t != b
            && SlotSet(ino, data, ino, data[b := Zero()][t := SetEntry(data[t], k - 13, b)], i, k, b)
  {
    SlotHasOwner(ino, data, owner, lo, |data|, i, 12);
    var t := ino[i].addrs[12];
    var data' := data[b := Zero()][t := SetEntry(data[t], k - 13, b)];
    forall x: nat, y: nat | x < |ino| && y < NSLOT
      ensures Slot(ino, data', x, y) == if x == i && y == k then b else Slot(ino, data, x, y)
    {
      FreeIsNoTable(ino, data, owner, lo, |data|, b, x);
      if y > 12 {
        EntryAfterSet(data[t], k - 13, b, y - 13);
      }
      if x != i && Slot(ino, data, x, 12) != 0 {
        SlotHasOwner(ino, data, owner, lo, |data|, x, 12);
      }
      hide Owned, Entry, SetEntry;
    }
  }

  /** Writing a file's data moves no slot. */
  lemma WriteData(ino: Inodes, data: Data, owner: Owner, lo: nat, i: nat, k: nat, blk: Block)
    requires Owned(ino, data, owner, lo, |data|) && i < |ino| && k < NSLOT && k != 12
    requires 0 < Slot(ino, data, i, k) < |data|
    ensures SlotsSame(ino, data, ino, data[Slot(ino, data, i, k) := blk])
  {
    var a := Slot(ino, data, i, k);
    var data' := data[a := blk];
    forall x: nat, y: nat | x < |ino| && y < NSLOT
      ensures Slot(ino, data', x, y) == Slot(ino, data, x, y)
    {
      DataIsNoTable(ino, data, owner, lo, |data|, i, k, x);
      hide Owned, Entry;
    }
  }

  // ---------------------------------------------------------------- files as bytes

  /** Byte o of file i; a hole reads as zero. */
  function ByteAt(ino: Inodes, data: Data, i: nat, o: nat): byte
    requires i < |ino| && o / BSIZE < MAXFILE
  {
    var a := Slot(ino, data, i, SlotOf(o / BSIZE));
    if a == 0 || a >= |data| then 0 else data[a][o % BSIZE]
  }

  function Content(ino: Inodes, data: Data, i: nat): (s: seq<byte>)
    requires i < |ino| && ino[i].size <= MAXFILE * BSIZE
    ensures |s| == ino[i].size
  {
    seq(ino[i].size, o requires 0 <= o < ino[i].size => ByteAt(ino, data, i, o))
  }

  /** All blocks below the size are mapped. */
  ghost predicate Mapped(ino: Inodes, data: Data, i: nat)
    requires i < |ino|
  {
    forall bn: nat :: bn < MAXFILE && bn * BSIZE < ino[i].size ==> Slot(ino, data, i, SlotOf(bn)) != 0
  }

  ghost predicate BytesSame(ino: Inodes, data: Data, ino': Inodes, data': Data) {
    && |ino'| == |ino|
    && (forall x: nat, o: nat :: x < |ino| && o / BSIZE < MAXFILE ==>
          ByteAt(ino', data', x, o) == ByteAt(ino, data, x, o))
  }

  lemma AddPointerBytes(ino: Inodes, data: Data, owner: Owner, lo: nat, i: nat, k: nat, b: nat)
    requires Owned(ino, data, owner, lo, |data|) && 0 < lo <= b < |data| && b !in owner
    requires i < |ino| && k <= 12 && Slot(ino, data, i, k) == 0
    ensures BytesSame(ino, data, SetAddr(ino, i, k, b), data[b := Zero()])
  {
    var ino', data' := SetAddr(ino, i, k, b), data[b := Zero()];
    AddPointer(ino, data, owner, lo, i, k, b);
    forall x: nat, o: nat | x < |ino| && o / BSIZE < MAXFILE
      ensures ByteAt(ino', data', x, o) == ByteAt(ino, data, x, o)
    {
      var y := SlotOf(o / BSIZE);
      assert Slot(ino, data, x, y) != b;
      hide Owned, Slot;
    }
  }

  lemma AddEntryBytes(ino: Inodes, data: Data, owner: Owner, lo: nat, i: nat, k: nat, b: nat)
    requires Owned(ino, data, owner, lo, |data|) && 0 < lo <= b < |data| && b !in owner && |data| <= 0x1_0000_0000
    requires i < |ino| && 12 < k < NSLOT && Slot(ino, data, i, k) == 0 && Slot(ino, data, i, 12) != 0
    ensures var t := ino[i].addrs[12];
            t < |data| && BytesSame(ino, data, ino, data[b := Zero()][t := SetEntry(data[t], k - 13, b)])
  {
    var t := ino[i].addrs[12];
    AddEntry(ino, data, owner, lo, i, k, b);
    SlotHasOwner(ino, data, owner, lo, |data|, i, 12);
    var data' := data[b := Zero()][t := SetEntry(data[t], k - 13, b)];
    forall x: nat, o: nat | x < |ino| && o / BSIZE < MAXFILE
      ensures ByteAt(ino, data', x, o) == ByteAt(ino, data, x, o)
    {
      var y := SlotOf(o / BSIZE);
      assert Slot(ino, data, x, y) != b;
      if Slot(ino, data, x, y) != 0 {
        DataIsNoTable(ino, data, owner, lo, |data|, x, y, i);
      }
      hide Owned, Slot, SetEntry;
    }
  }

  /** m bytes of src put into a block at offset p. */
  function Patch(b: Block, p: nat, src: seq<byte>): Block
    requires p + |src| <= BSIZE
  {
    b[..p] + src + b[p + |src|..]
  }

  /** Writing bytes into block bn of file i changes exactly those bytes of that file. */
  lemma WriteBytes(ino: Inodes, data: Data, owner: Owner, lo: nat, i: nat, off: nat, src: seq<byte>, x: nat, o: nat)
    requires Owned(ino, data, owner, lo, |data|) && i < |ino| && off / BSIZE < MAXFILE && off % BSIZE + |src| <= BSIZE
    requires 0 < Slot(ino, data, i, SlotOf(off / BSIZE)) < |data|
    requires x < |ino| && o / BSIZE < MAXFILE
    ensures var a := Slot(ino, data, i, SlotOf(off / BSIZE));
            ByteAt(ino, data[a := Patch(data[a], off % BSIZE, src)], x, o)
            == if x == i && off <= o < off + |src| then src[o - off] else ByteAt(ino, data, x, o)
  {
    var k := SlotOf(off / BSIZE);
    var a := Slot(ino, data, i, k);
    var y := SlotOf(o / BSIZE);
    WriteData(ino, data, owner, lo, i, k, Patch(data[a], off % BSIZE, src));
    SlotHasOwner(ino, data, owner, lo, |data|, i, k);
    if Slot(ino, data, x, y) != 0 {
      SlotHasOwner(ino, data, owner, lo, |data|, x, y);
    }
    hide Owned, Slot;
    var s := data[a][..off % BSIZE] + src + data[a][off % BSIZE + |src|..];
    assert Patch(data[a], off % BSIZE, src) == s;
  }
}
