/** The image mkfs/mkfs.c builds: files appended block after block, and the bitmap written last. */
module Mkfs {
  import opened FsLayout
  import opened FsSteps

  /** The blocks from nmeta up to freeblock are owned, the rest are untouched zero blocks. */
  ghost predicate ImageOk(ino: Inodes, data: Data, owner: Owner, nmeta: nat, freeblock: nat) {
    && 0 < nmeta <= freeblock <= |data| <= 0x1_0000_0000
    && Owned(ino, data, owner, nmeta, |data|)
    && (forall b: nat :: b in owner <==> nmeta <= b < freeblock)
    && (forall b: nat :: freeblock <= b < |data| ==> data[b] == Zero())
  }

  /** File x has a block for exactly the blocks below size, and an indirect block exactly if one of them needs it. */
  ghost predicate ExactFile(ino: Inodes, data: Data, x: nat, size: nat)
    requires x < |ino|
  {
    && (forall bn: nat :: bn < MAXFILE ==> (Slot(ino, data, x, SlotOf(bn)) != 0 <==> bn * BSIZE < size))
    && (Slot(ino, data, x, 12) != 0 <==> NDIRECT * BSIZE < size)
  }

  /** The blocks a file of this size takes, its indirect block included. */
  function Need(size: nat): nat {
    var n := (size + BSIZE - 1) / BSIZE;
    if n > NDIRECT then n + 1 else n
  }

  /** The blocks all files take. */
  function Blocks(ino: Inodes): nat {
    if ino == [] then 0 else Blocks(ino[..|ino| - 1]) + Need(ino[|ino| - 1].size)
  }

  lemma {:induction false} BlocksUpdate(ino: Inodes, i: nat, v: Inode)
    requires i < |ino|
    ensures Blocks(ino[i := v]) == Blocks(ino) - Need(ino[i].size) + Need(v.size)
  {
    var n := |ino| - 1;
    if i == n {
      assert ino[i := v][..n] == ino[..n];
    } else {
      assert ino[i := v][..n] == ino[..n][i := v];
      BlocksUpdate(ino[..n], i, v);
    }
  }

  lemma {:induction false} BlocksSame(ino: Inodes, ino': Inodes)
    requires |ino| == |ino'| && forall x :: 0 <= x < |ino| ==> ino'[x].size == ino[x].size
    ensures Blocks(ino) == Blocks(ino')
  {
    if ino != [] {
      BlocksSame(ino[..|ino| - 1], ino'[..|ino| - 1]);
    }
  }

  /** Slots still to be filled before block bn of file i is there. */
  ghost function Missing(ino: Inodes, data: Data, i: nat, bn: nat): nat
    requires i < |ino| && bn < MAXFILE
  {
    (if Slot(ino, data, i, SlotOf(bn)) == 0 then 1 else 0)
    + if bn >= NDIRECT && Slot(ino, data, i, 12) == 0 then 1 else 0
  }

  /** What is missing at the end of a file is what the next byte adds to its need. */
  lemma MissingIs(ino: Inodes, data: Data, i: nat, pos: nat, m: nat)
    requires i < |ino| && pos / BSIZE < MAXFILE && 0 < m && pos % BSIZE + m <= BSIZE && ExactFile(ino, data, i, pos)
    ensures Need(pos + m) == Need(pos) + Missing(ino, data, i, pos / BSIZE)
  {
    hide Slot, SlotOf;
    var bn: nat := pos / BSIZE;
    assert Slot(ino, data, i, SlotOf(bn)) != 0 <==> bn * BSIZE < pos;
    NeedStep(pos, m);
  }

  lemma NeedStep(pos: nat, m: nat)
    requires 0 < m && pos % BSIZE + m <= BSIZE
    ensures Need(pos + m) ==
            Need(pos) + (if pos % BSIZE == 0 then 1 else 0) + if pos == NDIRECT * BSIZE then 1 else 0
  {
    var bn := pos / BSIZE;
    assert pos == bn * BSIZE + pos % BSIZE;
    assert (pos + m + BSIZE - 1) / BSIZE == bn + 1;
    assert (pos + BSIZE - 1) / BSIZE == if pos % BSIZE == 0 then bn else bn + 1;
  }

  lemma NeedGrows(a: nat, b: nat)
    requires a <= b
    ensures Need(a) <= Need(b)
  {
    assert (a + BSIZE - 1) / BSIZE <= (b + BSIZE - 1) / BSIZE;
  }

  /** Every file has exactly the blocks its size needs. */
  ghost predicate ExactAll(ino: Inodes, data: Data) {
    forall x: nat :: x < |ino| ==> ExactFile(ino, data, x, ino[x].size)
  }

  /** The same, but file i is taken to be pos bytes long. */
  ghost predicate Exact(ino: Inodes, data: Data, i: nat, pos: nat) {
    && i < |ino| && ExactFile(ino, data, i, pos)
    && forall x: nat :: x < |ino| && x != i ==> ExactFile(ino, data, x, ino[x].size)
  }

  lemma FreshImage(nmeta: nat, size: nat, ninodes: nat)
    requires 0 < nmeta <= size <= 0x1_0000_0000
    ensures var ino, data := seq(ninodes, _ => Inode(0, NoAddrs())), seq(size, _ => Zero());
            ImageOk(ino, data, map[], nmeta, nmeta) && Sized(ino) && ExactAll(ino, data)
  {
  }

  lemma {:induction false} NoBlocks(n: nat)
    ensures Blocks(seq(n, _ => Inode(0, NoAddrs()))) == 0
  {
    if n > 0 {
      assert seq(n, _ => Inode(0, NoAddrs()))[..n - 1] == seq(n - 1, _ => Inode(0, NoAddrs()));
      NoBlocks(n - 1);
    }
  }

  lemma GrewBy(ino: Inodes, data: Data, ino': Inodes, data': Data, owner: Owner, nmeta: nat, freeblock: nat, i: nat,
               k: nat)
    requires ImageOk(ino, data, owner, nmeta, freeblock) && freeblock < |data| == |data'|
    requires i < |ino| && k < NSLOT && Slot(ino, data, i, k) == 0 && SlotSet(ino, data, ino', data', i, k, freeblock)
    requires forall b: nat :: freeblock < b < |data| ==> data'[b] == data[b]
    ensures ImageOk(ino', data', owner[freeblock := (i, k)], nmeta, freeblock + 1)
  {
    hide Slot, SlotSet;
    OwnedAdd(ino, data, ino', data', owner, nmeta, |data|, i, k, freeblock);
    hide Owned;
  }

  /** What writing the next free block into an entry of the indirect block does. */
  lemma EntryTaken(ino: Inodes, data: Data, owner: Owner, nmeta: nat, b: nat, i: nat, e: nat)
    requires ImageOk(ino, data, owner, nmeta, b) && b < |data| && i < |ino| && e < NINDIRECT
    requires Slot(ino, data, i, 12) != 0 && Slot(ino, data, i, 13 + e) == 0
    ensures ino[i].addrs[12] < |data|
    ensures var t := ino[i].addrs[12];
            var data' := data[t := SetEntry(data[t], e, b)];
            && ImageOk(ino, data', owner[b := (i, 13 + e)], nmeta, b + 1) && Slot(ino, data', i, 13 + e) == b
            && SlotSet(ino, data, ino, data', i, 13 + e, b) && BytesSame(ino, data, ino, data')
  {
    hide Slot, BytesSame;
    assert data[b := Zero()] == data;
    AddEntry(ino, data, owner, nmeta, i, 13 + e, b);
    AddEntryBytes(ino, data, owner, nmeta, i, 13 + e, b);
    DirectSlot(ino, data, i, 12);
    SlotHasOwner(ino, data, owner, nmeta, |data|, i, 12);
    hide Owned;
    GrewBy(ino, data, ino, data[ino[i].addrs[12] := SetEntry(data[ino[i].addrs[12]], e, b)], owner, nmeta, b, i,
           13 + e);
  }

  /** bmap-like growth followed by a write of m bytes keeps Exact. */
  lemma ExactStep(ino1: Inodes, data1: Data, ino: Inodes, data2: Data, data: Data, i: nat, pos: nat, m: nat)
    requires i < |ino1| && pos / BSIZE < MAXFILE && 0 < m && pos % BSIZE + m <= BSIZE && Exact(ino1, data1, i, pos)
    requires SlotsGrow(ino1, data1, ino, data2, i, SlotOf(pos / BSIZE)) && SizesSame(ino1, ino)
    requires SlotsSame(ino, data2, ino, data)
    requires Slot(ino, data2, i, SlotOf(pos / BSIZE)) != 0
    requires Slot(ino, data2, i, 12) != 0 <==> Slot(ino1, data1, i, 12) != 0 || pos / BSIZE >= NDIRECT
    ensures Exact(ino, data, i, pos + m)
  {
    hide Slot, SlotOf;
    ExactGrown(ino1, data1, ino, data2, data, i, pos, m);
    forall x: nat | x < |ino| && x != i
      ensures ExactFile(ino, data, x, ino[x].size)
    {
      assert ExactFile(ino1, data1, x, ino1[x].size);
      ExactSame(ino1, data1, ino, data, x, ino[x].size);
    }
  }

  lemma ExactSame(ino: Inodes, data: Data, ino': Inodes, data': Data, x: nat, size: nat)
    requires x < |ino| == |ino'| && ExactFile(ino, data, x, size)
    requires forall y: nat :: y < NSLOT ==> Slot(ino', data', x, y) == Slot(ino, data, x, y)
    ensures ExactFile(ino', data', x, size)
  {
    hide Slot;
  }

  /** The file that grew. */
  lemma ExactGrown(ino1: Inodes, data1: Data, ino: Inodes, data2: Data, data: Data, i: nat, pos: nat, m: nat)
    requires i < |ino1| && pos / BSIZE < MAXFILE && 0 < m && pos % BSIZE + m <= BSIZE && ExactFile(ino1, data1, i, pos)
    requires SlotsGrow(ino1, data1, ino, data2, i, SlotOf(pos / BSIZE)) && SlotsSame(ino, data2, ino, data)
    requires Slot(ino, data2, i, SlotOf(pos / BSIZE)) != 0
    requires Slot(ino, data2, i, 12) != 0 <==> Slot(ino1, data1, i, 12) != 0 || pos / BSIZE >= NDIRECT
    ensures ExactFile(ino, data, i, pos + m)
  {
    hide Slot;
    forall bn: nat | bn < MAXFILE
      ensures Slot(ino, data, i, SlotOf(bn)) != 0 <==> bn * BSIZE < pos + m
    {
      var y := SlotOf(bn);
      assert Slot(ino, data, i, y) == Slot(ino, data2, i, y);
      assert Slot(ino1, data1, i, y) != 0 <==> bn * BSIZE < pos;
      if bn != pos / BSIZE {
        assert bn * BSIZE < pos <==> bn * BSIZE < pos + m;
      }
    }
    assert Slot(ino, data, i, 12) == Slot(ino, data2, i, 12);
  }

  /** Taking at most one slot after what went before. */
  lemma Grown(ino0: Inodes, data0: Data, ino1: Inodes, data1: Data, ino: Inodes, data: Data, i: nat, k: nat, bk: nat,
              x: nat)
    requires i < |ino0| == |ino1| == |ino| && k < NSLOT && bk < NSLOT && (k == bk || k == 12)
    requires ino0 != ino1 || data0 != data1 ==> SlotsGrow(ino0, data0, ino1, data1, i, bk) && SizesSame(ino0, ino1)
    requires ino0 != ino1 || data0 != data1 ==> BytesSame(ino0, data0, ino1, data1)
    requires ino != ino1 || data != data1 ==> Slot(ino1, data1, i, k) == 0 && SlotSet(ino1, data1, ino, data, i, k, x)
    requires ino != ino1 || data != data1 ==> BytesSame(ino1, data1, ino, data) && SizesSame(ino1, ino)
    ensures SlotsGrow(ino0, data0, ino, data, i, bk) && BytesSame(ino0, data0, ino, data) && SizesSame(ino0, ino)
  {
    hide Slot, ByteAt;
  }

  /** Without an indirect block there is no entry in it. */
  lemma NoTable(ino: Inodes, data: Data, i: nat, e: nat)
    requires i < |ino| && e < NINDIRECT
    ensures Slot(ino, data, i, 12) == 0 ==> Slot(ino, data, i, 13 + e) == 0
  {
  }

  lemma OtherSlot(ino: Inodes, data: Data, ino': Inodes, data': Data, i: nat, k: nat, b: nat, y: nat)
    requires i < |ino| && k < NSLOT && y < NSLOT && y != k && SlotSet(ino, data, ino', data', i, k, b)
    ensures i < |ino'| && Slot(ino', data', i, y) == Slot(ino, data, i, y)
  {
    hide Slot;
  }

  class Image {
    const nmeta: nat
    var ino: Inodes
    var data: Data
    var freeblock: nat
    ghost var owner: Owner

    ghost predicate Valid()
      reads this
    {
      ImageOk(ino, data, owner, nmeta, freeblock) && Sized(ino)
    }

    constructor (nmeta: nat, size: nat, ninodes: nat)
      requires 0 < nmeta <= size <= 0x1_0000_0000
      ensures Valid() && this.nmeta == nmeta && |data| == size && |ino| == ninodes && freeblock == nmeta
      ensures ExactAll(ino, data) && forall x: nat :: x < |ino| ==> ino[x].size == 0
      ensures freeblock == nmeta + Blocks(ino)
    {
      FreshImage(nmeta, size, ninodes);
      NoBlocks(ninodes);
      this.nmeta, freeblock, owner := nmeta, nmeta, map[];
      ino, data := seq(ninodes, _ => Inode(0, NoAddrs())), seq(size, _ => Zero());
    }

    method TakePointer(i: nat, k: nat) returns (ok: bool)
      requires Valid() && i < |ino| && k <= 12 && ino[i].addrs[k] == 0
      modifies this
      ensures |data| == old(|data|) && (ok <==> old(freeblock) < |data|) && (!ok ==> freeblock == |data|)
      ensures ok ==> Valid() && freeblock == old(freeblock) + 1 && |ino| == old(|ino|)
      ensures ok ==> Slot(ino, data, i, k) == old(freeblock)
      ensures ok ==> SlotSet(old(ino), old(data), ino, data, i, k, old(freeblock))
      ensures ok ==> BytesSame(old(ino), old(data), ino, data)
      ensures ok ==> ino == SetAddr(old(ino), i, k, old(freeblock)) && SizesSame(old(ino), ino)
    {
      var b := freeblock;
      if b >= |data| {
        return false;
      }
      ghost var ino0, data0 := ino, data;
      assert data[b := Zero()] == data;
      DirectSlot(ino, data, i, k);
      AddPointer(ino, data, owner, nmeta, i, k, b);
      AddPointerBytes(ino, data, owner, nmeta, i, k, b);
      hide Slot, SlotSet, BytesSame, Owned;
      ino := ino[i := Inode(ino[i].size, ino[i].addrs[k := b])];
      freeblock := freeblock + 1;
      GrewBy(ino0, data0, ino, data, owner, nmeta, b, i, k);
      owner := owner[b := (i, k)];
      return true;
    }

    method TakeEntry(i: nat, e: nat) returns (ok: bool)
      requires Valid() && i < |ino| && e < NINDIRECT && Slot(ino, data, i, 12) != 0 && Slot(ino, data, i, 13 + e) == 0
      modifies this
      ensures |data| == old(|data|) && ino == old(ino) && (ok <==> old(freeblock) < |data|)
      ensures (!ok ==> freeblock == |data|)
      ensures ok ==> Valid() && freeblock == old(freeblock) + 1 && Slot(ino, data, i, 13 + e) == old(freeblock)
      ensures ok ==> SizesSame(old(ino), ino)
      ensures ok ==> SlotSet(old(ino), old(data), ino, data, i, 13 + e, old(freeblock))
      ensures ok ==> BytesSame(old(ino), old(data), ino, data)
    {
      var b := freeblock;
      if b >= |data| {
        return false;
      }
      hide Slot, SlotSet, BytesSame, ImageOk;
      ghost var data0 := data;
      var t := ino[i].addrs[12];
      EntryTaken(ino, data, owner, nmeta, b, i, e);
      data := data[t := SetEntry(data[t], e, b)];
      freeblock := freeblock + 1;
      owner := owner[b := (i, 13 + e)];
      return true;
    }

    /** The block of block fbn of file i, taken from the free ones if need be; mkfs dies when it runs out. */
    method FileBlock(i: nat, fbn: nat) returns (ok: bool, x: nat)
      requires Valid() && i < |ino| && fbn < MAXFILE
      modifies this
      ensures |data| == old(|data|) && (ok <==> old(freeblock) + old(Missing(ino, data, i, fbn)) <= |data|)
      ensures ok ==> freeblock == old(freeblock) + old(Missing(ino, data, i, fbn))
      ensures ok ==> Valid() && |ino| == old(|ino|) && x == Slot(ino, data, i, SlotOf(fbn)) && 0 < x < |data|
      ensures ok ==> x < freeblock
      ensures ok ==> (Slot(ino, data, i, 12) != 0 <==> old(Slot(ino, data, i, 12)) != 0 || fbn >= NDIRECT)
      ensures ok ==> SlotsGrow(old(ino), old(data), ino, data, i, SlotOf(fbn)) && SizesSame(old(ino), ino)
      ensures ok ==> BytesSame(old(ino), old(data), ino, data)
    {
      hide Slot, BytesSame, SlotsGrow, SizesSame, ImageOk;
      if fbn < NDIRECT {
        ok, x := DirectBlock(i, fbn);
      } else {
        ok, x := IndirectBlock(i, fbn - NDIRECT);
      }
    }

    method DirectBlock(i: nat, k: nat) returns (ok: bool, x: nat)
      requires Valid() && i < |ino| && k < NDIRECT
      modifies this
      ensures |data| == old(|data|) && (ok <==> old(freeblock) + old(Missing(ino, data, i, k)) <= |data|)
      ensures ok ==> freeblock == old(freeblock) + old(Missing(ino, data, i, k))
      ensures ok ==> Valid() && |ino| == old(|ino|) && x == Slot(ino, data, i, k) && 0 < x < |data| && x < freeblock
      ensures ok ==> Slot(ino, data, i, 12) == old(Slot(ino, data, i, 12))
      ensures ok ==> SlotsGrow(old(ino), old(data), ino, data, i, k) && SizesSame(old(ino), ino)
      ensures ok ==> BytesSame(old(ino), old(data), ino, data)
    {
      hide Slot, SlotSet, BytesSame, Owned, SlotsGrow, SizesSame, Sized;
      ghost var ino0, data0 := ino, data;
      ok, x := true, 0;
      DirectSlot(ino, data, i, k);
      DirectSlot(ino, data, i, 12);
      if ino[i].addrs[k] == 0 {
        ok := TakePointer(i, k);
        if !ok {
          return;
        }
      }
      x := ino[i].addrs[k];
      DirectSlot(ino, data, i, k);
      DirectSlot(ino, data, i, 12);
      Grown(ino0, data0, ino0, data0, ino, data, i, k, k, x);
      SlotHasOwner(ino, data, owner, nmeta, |data|, i, k);
    }

    method IndirectBlock(i: nat, e: nat) returns (ok: bool, x: nat)
      requires Valid() && i < |ino| && e < NINDIRECT
      modifies this
      ensures |data| == old(|data|) && (ok <==> old(freeblock) + old(Missing(ino, data, i, NDIRECT + e)) <= |data|)
      ensures ok ==> freeblock == old(freeblock) + old(Missing(ino, data, i, NDIRECT + e))
      ensures ok ==> Valid() && |ino| == old(|ino|) && x == Slot(ino, data, i, 13 + e) && 0 < x < |data|
      ensures ok ==> x < freeblock && Slot(ino, data, i, 12) != 0
      ensures ok ==> SlotsGrow(old(ino), old(data), ino, data, i, 13 + e) && SizesSame(old(ino), ino)
      ensures ok ==> BytesSame(old(ino), old(data), ino, data)
    {
      hide Slot, SlotSet, BytesSame, Owned, SlotsGrow, SizesSame, Sized, Entry, SetEntry;
      ghost var ino0, data0 := ino, data;
      x := 0;
      ok := TableBlock(i, e);
      if !ok {
        return;
      }
      ghost var ino1, data1 := ino, data;
      DirectSlot(ino, data, i, 12);
      SlotHasOwner(ino, data, owner, nmeta, |data|, i, 12);
      TableSlot(ino, data, i, e);
      if Entry(data[ino[i].addrs[NDIRECT]], e) == 0 {
        ok := TakeEntry(i, e);
        if !ok {
          return;
        }
      }
      DirectSlot(ino, data, i, 12);
      TableSlot(ino, data, i, e);
      x := Entry(data[ino[i].addrs[NDIRECT]], e);
      Grown(ino0, data0, ino1, data1, ino, data, i, 13 + e, 13 + e, x);
      SlotHasOwner(ino, data, owner, nmeta, |data|, i, 13 + e);
    }

    /** The indirect block of file i, taken if need be; entry e of it is as it was. */
    method TableBlock(i: nat, ghost e: nat) returns (ok: bool)
      requires Valid() && i < |ino| && e < NINDIRECT
      modifies this
      ensures |data| == old(|data|)
      ensures var more := if old(Slot(ino, data, i, 12)) == 0 then 1 else 0;
              (ok <==> old(freeblock) + more <= |data|) && (ok ==> freeblock == old(freeblock) + more)
      ensures ok ==> Valid() && |ino| == old(|ino|) && Slot(ino, data, i, 12) != 0
      ensures ok ==> Slot(ino, data, i, 13 + e) == old(Slot(ino, data, i, 13 + e))
      ensures !ok ==> old(Slot(ino, data, i, 13 + e)) == 0
      ensures ok ==> SlotsGrow(old(ino), old(data), ino, data, i, 13 + e) && SizesSame(old(ino), ino)
      ensures ok ==> BytesSame(old(ino), old(data), ino, data)
    {
      hide Slot, SlotSet, BytesSame, Owned, SlotsGrow, SizesSame, Sized;
      ghost var ino0, data0 := ino, data;
      ok := true;
      DirectSlot(ino, data, i, 12);
      NoTable(ino, data, i, e);
      if ino[i].addrs[NDIRECT] == 0 {
        ok := TakePointer(i, NDIRECT);
        if !ok {
          return;
        }
        OtherSlot(ino0, data0, ino, data, i, 12, ino[i].addrs[12], 13 + e);
      }
      DirectSlot(ino, data, i, 12);
      Grown(ino0, data0, ino0, data0, ino, data, i, 12, 13 + e, ino[i].addrs[12]);
    }

    /** iappend is part-way: the first k bytes of p are in place behind the old end off. */
    ghost predicate Appending(ino0: Inodes, data0: Data, i: nat, off: nat, p: seq<byte>, k: nat)
      reads this
    {
      && k <= |p| && i < |ino| && |ino| == |ino0|
      && Wrote(ino0, data0, ino, data, i, off, p[..k]) && Progress(ino0, data0, ino, data, i, off, off + k)
      && Exact(ino, data, i, off + k) && |ino| == |ino0| && off == ino0[i].size
      && freeblock == nmeta + Blocks(ino0) - Need(off) + Need(off + k)
    }

    /** One turn of iappend's loop. */
    method AppendChunk(i: nat, off: nat, p: seq<byte>, k: nat, ghost ino0: Inodes, ghost data0: Data)
      returns (ok: bool, n1: nat)
      requires Valid() && Appending(ino0, data0, i, off, p, k) && k < |p|
      modifies this
      ensures |data| == old(|data|)
      ensures !ok ==> off + |p| > MAXFILE * BSIZE || nmeta + Blocks(ino0) - Need(off) + Need(off + |p|) > |data|
      ensures ok ==> Valid() && 0 < n1 && k + n1 <= |p| && off + k + n1 <= MAXFILE * BSIZE
      ensures ok ==> Appending(ino0, data0, i, off, p, k + n1)
    {
      hide Slot, BytesSame, Owned, SlotsGrow, SizesSame, Sized, Wrote, Progress, Exact, Patch, SlotOf, Need, Blocks;
      hide Missing;
      n1 := 0;
      var pos := off + k;
      var fbn := pos / BSIZE;
      if fbn >= MAXFILE {
        return false, n1;
      }
      ghost var ino1, data1 := ino, data;
      n1 := Min(|p| - k, (fbn + 1) * BSIZE - pos);
      MissingAt(ino, data, i, pos, n1);
      NeedGrows(pos + n1, off + |p|);
      var x;
      ok, x := FileBlock(i, fbn);
      if !ok {
        return;
      }
      ghost var data2 := data;
      data := data[x := Patch(data[x], pos % BSIZE, p[k..k + n1])];
      MapStep(ino0, data0, ino1, data1, ino, data2, i, off, pos, p[..k]);
      ChunkAppended(ino0, data0, ino1, data1, ino, data2, data, owner, nmeta, i, off, p, k, n1);
    }

    /** Appends p to file i; false where mkfs dies (file too large, image full). */
    method Iappend(i: nat, p: seq<byte>) returns (ok: bool)
      requires Valid() && i < |ino| && ExactAll(ino, data) && freeblock == nmeta + Blocks(ino)
      modifies this
      ensures |data| == old(|data|)
      ensures ok <==>
              && old(ino)[i].size + |p| <= MAXFILE * BSIZE
              && nmeta + old(Blocks(ino)) - Need(old(ino)[i].size) + Need(old(ino)[i].size + |p|) <= |data|
      ensures ok ==> Valid() && |ino| == old(|ino|) && ExactAll(ino, data)
      ensures ok ==> ino[i].size == old(ino)[i].size + |p| && freeblock == nmeta + Blocks(ino)
      ensures ok ==> Content(ino, data, i) == old(Content(ino, data, i)) + p
      ensures ok ==> forall x: nat :: x < |ino| && x != i ==>
                ino[x].size == old(ino)[x].size && Content(ino, data, x) == old(Content(ino, data, x))
    {
      hide Slot, Owned, Wrote, Progress, Exact, Content, Blocks, Need;
      ghost var ino0, data0 := ino, data;
      var off := ino[i].size;
      var k := 0;
      StartAppend(ino, data, i, p);
      while k < |p|
        invariant Valid() && Appending(ino0, data0, i, off, p, k) && |data| == old(|data|)
        invariant off + k <= MAXFILE * BSIZE
      {
        var n1;
        ok, n1 := AppendChunk(i, off, p, k, ino0, data0);
        if !ok {
          return;
        }
        k := k + n1;
      }
      ghost var ino1 := ino;
      SizeIs(ino0, data0, ino, data, i, off, off + k);
      BlocksSame(ino0, ino);
      BlocksUpdate(ino, i, Inode(off + k, ino[i].addrs));
      ino := ino[i := Inode(off + k, ino[i].addrs)];
      EndAppend(ino0, data0, ino1, ino, data, owner, nmeta, i, off, p);
      ok := true;
    }

    /** The fix of the root directory's size: up to the next whole block, a whole block more if it was whole. */
    method FixRoot(i: nat)
      requires Valid() && i < |ino| && ExactAll(ino, data)
      modifies this`ino
      ensures ImageOk(ino, data, owner, nmeta, freeblock) && |ino| == old(|ino|)
      ensures ino[i] == Inode((old(ino)[i].size / BSIZE + 1) * BSIZE, old(ino)[i].addrs)
      ensures Valid() <==> old(ino)[i].size < MAXFILE * BSIZE
      ensures Valid() ==> (Mapped(ino, data, i) <==> old(ino)[i].size % BSIZE != 0)
      ensures Valid() ==> old(Content(ino, data, i)) <= Content(ino, data, i)
      ensures forall x: nat :: x < |ino| && x != i ==>
                ino[x] == old(ino)[x] && Content(ino, data, x) == old(Content(ino, data, x))
    {
      hide Owned, Exact, Mapped;
      ghost var ino0 := ino;
      var off := ino[i].size;
      off := (off / BSIZE + 1) * BSIZE;
      ino := ino[i := Inode(off, ino[i].addrs)];
      Rounded(ino0, ino, data, owner, nmeta, i);
    }

    /** balloc: the bitmap, all blocks below freeblock in use; mkfs dies unless these fit one bitmap block. */
    method Balloc() returns (ok: bool, used: seq<bool>)
      requires Valid()
      ensures ok == (freeblock < BPB)
      ensures ok ==> |used| == |data| && Bits(used, owner, nmeta)
      ensures ok ==> forall b: nat :: b < |used| ==> (used[b] <==> b < freeblock)
    {
      hide Owned, Sized;
      used := seq(|data|, _ => false);
      if freeblock >= BPB {
        return false, used;
      }
      var b := 0;
      while b < freeblock
        invariant b <= freeblock && |used| == |data|
        invariant forall c :: 0 <= c < |used| ==> (used[c] <==> c < b)
      {
        used := used[b := true];
        b := b + 1;
      }
      ok := true;
    }
  }

  lemma Rounded(ino: Inodes, ino': Inodes, data: Data, owner: Owner, nmeta: nat, i: nat)
    requires i < |ino| && Owned(ino, data, owner, nmeta, |data|) && Sized(ino) && ExactAll(ino, data)
    requires ino' == ino[i := Inode((ino[i].size / BSIZE + 1) * BSIZE, ino[i].addrs)]
    ensures Owned(ino', data, owner, nmeta, |data|) && (Sized(ino') <==> ino[i].size < MAXFILE * BSIZE)
    ensures Sized(ino') ==> (Mapped(ino', data, i) <==> ino[i].size % BSIZE != 0)
    ensures Sized(ino') ==> Content(ino, data, i) <= Content(ino', data, i)
    ensures forall x: nat :: x < |ino| && x != i ==> Content(ino', data, x) == Content(ino, data, x)
  {
    hide Owned, Exact, Mapped, Slot;
    SlotsOfAddrs(ino, ino', data);
    OwnedSame(ino, data, ino', data, owner, nmeta, |data|);
    assert Sized(ino') <==> ino'[i].size <= MAXFILE * BSIZE;
    if Sized(ino') {
      RoundedRootIsMapped(ino, data, i, ino[i].size);
    }
  }

  lemma StartAppend(ino: Inodes, data: Data, i: nat, p: seq<byte>)
    requires i < |ino| && ExactAll(ino, data)
    ensures Exact(ino, data, i, ino[i].size) && Wrote(ino, data, ino, data, i, ino[i].size, p[..0])
    ensures Progress(ino, data, ino, data, i, ino[i].size, ino[i].size)
  {
    hide Slot, ByteAt;
  }

  lemma SizeIs(ino0: Inodes, data0: Data, ino: Inodes, data: Data, i: nat, off: nat, pos: nat)
    requires Progress(ino0, data0, ino, data, i, off, pos)
    ensures i < |ino0| == |ino| && forall x :: 0 <= x < |ino| ==> ino[x].size == ino0[x].size
  {
  }

  lemma ChunkAppended(ino0: Inodes, data0: Data, ino1: Inodes, data1: Data, ino: Inodes, data2: Data, data: Data,
                     owner: Owner, nmeta: nat, i: nat, off: nat, p: seq<byte>, k: nat, m: nat)
    requires i < |ino| && Owned(ino, data2, owner, nmeta, |data2|) && k + m <= |p| && 0 < m
    requires Wrote(ino0, data0, ino, data2, i, off, p[..k]) && Progress(ino0, data0, ino, data2, i, off, off + k)
    requires var pos := off + k;
             && pos / BSIZE < MAXFILE && pos % BSIZE + m <= BSIZE && Exact(ino1, data1, i, pos)
             && SlotsGrow(ino1, data1, ino, data2, i, SlotOf(pos / BSIZE)) && SizesSame(ino1, ino)
             && var a := Slot(ino, data2, i, SlotOf(pos / BSIZE));
                0 < a < |data2| && data == data2[a := Patch(data2[a], pos % BSIZE, p[k..k + m])]
    requires i < |ino1|
    requires Slot(ino, data2, i, 12) != 0 <==> Slot(ino1, data1, i, 12) != 0 || (off + k) / BSIZE >= NDIRECT
    ensures Owned(ino, data, owner, nmeta, |data|) && Wrote(ino0, data0, ino, data, i, off, p[..k + m])
    ensures Progress(ino0, data0, ino, data, i, off, off + k + m) && Exact(ino, data, i, off + k + m)
  {
    hide Owned, Slot, Patch, Wrote, Progress, SlotsGrow, SizesSame, Exact;
    var pos := off + k;
    WriteStep(ino0, data0, ino, data2, data, owner, nmeta, i, off, p, k, m);
    WriteData(ino, data2, owner, nmeta, i, SlotOf(pos / BSIZE), data[Slot(ino, data2, i, SlotOf(pos / BSIZE))]);
    ExactStep(ino1, data1, ino, data2, data, i, pos, m);
  }

  lemma MissingAt(ino: Inodes, data: Data, i: nat, pos: nat, m: nat)
    requires i < |ino| && pos / BSIZE < MAXFILE && 0 < m && pos % BSIZE + m <= BSIZE && Exact(ino, data, i, pos)
    ensures Need(pos + m) == Need(pos) + Missing(ino, data, i, pos / BSIZE)
  {
    hide ExactFile, Missing;
    MissingIs(ino, data, i, pos, m);
  }

  lemma EndAppend(ino0: Inodes, data0: Data, ino1: Inodes, ino: Inodes, data: Data, owner: Owner, nmeta: nat, i: nat,
                  off: nat, p: seq<byte>)
    requires i < |ino0| && off == ino0[i].size && off + |p| <= MAXFILE * BSIZE && Sized(ino0) && i < |ino1|
    requires Wrote(ino0, data0, ino1, data, i, off, p[..|p|]) && Progress(ino0, data0, ino1, data, i, off, off + |p|)
    requires Owned(ino1, data, owner, nmeta, |data|) && Exact(ino1, data, i, off + |p|)
    requires ino1[i].size == off && ino == ino1[i := Inode(off + |p|, ino1[i].addrs)]
    ensures Owned(ino, data, owner, nmeta, |data|) && |ino| == |ino0| && Sized(ino) && ExactAll(ino, data)
    ensures Content(ino, data, i) == Content(ino0, data0, i) + p
    ensures forall x: nat :: x < |ino| && x != i ==>
              ino[x].size == ino0[x].size && Content(ino, data, x) == Content(ino0, data0, x)
  {
    hide Slot, Owned, Wrote, Progress, Content, ByteAt, Mapped;
    assert p[..|p|] == p;
    SizeStep(ino0, data0, ino1, ino, data, owner, nmeta, |data|, i, off, p);
    SlotsOfAddrs(ino1, ino, data);
    forall x: nat | x < |ino|
      ensures ExactFile(ino, data, x, ino[x].size)
    {
      assert ExactFile(ino1, data, x, ino[x].size);
      ExactSame(ino1, data, ino, data, x, ino[x].size);
    }
    assert Overwrite(Content(ino0, data0, i), off, p) == Content(ino0, data0, i) + p;
  }

  /** What fsinit finds: the kernel's invariant holds of the image, with the inodes on disk. */
  lemma ImageIsValid(sb: Super, ino: Inodes, data: Data, used: seq<bool>, owner: Owner, freeblock: nat)
    requires ImageOk(ino, data, owner, sb.nmeta, freeblock) && Sized(ino) && sb.size == |data| == |used|
    requires Bits(used, owner, sb.nmeta)
    ensures Shape(sb, ino, ino, data, used) && Owned(ino, data, owner, sb.nmeta, sb.size)
  {
    hide Owned, Sized, Bits;
  }

  /** Rounding up the root directory leaves a hole exactly when its size was already whole blocks. */
  lemma {:induction false} RoundedRootIsMapped(ino: Inodes, data: Data, i: nat, size: nat)
    requires i < |ino| && size == ino[i].size && ExactAll(ino, data) && size / BSIZE < MAXFILE
    ensures var ino' := ino[i := Inode((size / BSIZE + 1) * BSIZE, ino[i].addrs)];
            Mapped(ino', data, i) <==> size % BSIZE != 0
  {
    hide Slot;
    var ino' := ino[i := Inode((size / BSIZE + 1) * BSIZE, ino[i].addrs)];
    SlotsOfAddrs(ino, ino', data);
    var last: nat := size / BSIZE;
    assert ExactFile(ino, data, i, size);
    assert Slot(ino, data, i, SlotOf(last)) != 0 <==> last * BSIZE < size;
    assert Slot(ino', data, i, SlotOf(last)) == Slot(ino, data, i, SlotOf(last));
    if size % BSIZE != 0 {
      forall bn: nat | bn < MAXFILE && bn * BSIZE < ino'[i].size
        ensures Slot(ino', data, i, SlotOf(bn)) != 0
      {
        assert bn * BSIZE < size;
      }
    } else {
      assert last * BSIZE < ino'[i].size;
    }
  }
}
