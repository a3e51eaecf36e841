/** The block allocator, block map and file read and write of kernel/fs.c, and filewrite of kernel/file.c. */
module FsCode {
  import opened FsLayout
  import opened FsSteps

  /**
    The file system: in-core inodes, their copies on disk, blocks, free bitmap and the blocks this operation has
    logged.
   */
  class FileSystem {
    const sb: Super
    var ino: Inodes
    var dino: Inodes
    var data: Data
    var used: seq<bool>
    var logged: set<nat>
    var outstanding: nat      // log.outstanding
    var stray: bool           // log_write has been called outside of a transaction, which is a panic
    ghost var owner: Owner

    ghost predicate Valid()
      reads this
    {
      && Shape(sb, ino, dino, data, used)
      && Owned(ino, data, owner, sb.nmeta, sb.size)
      && Bits(used, owner, sb.nmeta)
    }

    /** The first half of fsinit: inodes as read from disk, and no operation running. */
    constructor (sb: Super, dino: Inodes, data: Data, used: seq<bool>, ghost owner: Owner)
      requires Shape(sb, dino, dino, data, used) && Owned(dino, data, owner, sb.nmeta, sb.size)
      requires Bits(used, owner, sb.nmeta)
      ensures Valid() && this.sb == sb && ino == this.dino == dino && this.data == data && this.used == used
      ensures outstanding == 0 && !stray && logged == {} && this.owner == owner
    {
      this.sb, this.ino, this.dino, this.data, this.used := sb, dino, dino, data, used;
      this.logged, this.outstanding, this.stray, this.owner := {}, 0, false, owner;
    }

    /** log_write as its callers see it. */
    method LogWrite(b: nat)
      modifies this`logged, this`stray
      ensures logged == old(logged) + {b} && stray == (old(stray) || outstanding < 1)
    {
      if outstanding < 1 {
        stray := true;
      }
      logged := logged + {b};
    }

    /** Marks and zeroes the first free block; 0 if there is none. */
    method Balloc() returns (r: nat)
      requires Shape(sb, ino, dino, data, used)
      modifies this`data, this`used, this`logged, this`stray
      ensures stray == (old(stray) || (outstanding < 1 && !Full(old(used))))
      ensures FirstFree(old(used), r) || (r == 0 && Full(old(used)))
      ensures Full(old(used)) ==> used == old(used) && data == old(data) && logged == old(logged)
      ensures !Full(old(used)) ==> used == old(used)[r := true] && data == old(data)[r := Zero()]
      ensures !Full(old(used)) ==> logged == old(logged) + {BBLOCK(sb, r), r}
    {
      var b := 0;
      while b < sb.size
        invariant b % BPB == 0 && used == old(used) && data == old(data) && logged == old(logged) && stray == old(stray)
        invariant forall c :: 0 <= c < b && c < sb.size ==> used[c]
        decreases sb.size + BPB - b
      {
        var bi := 0;
        while bi < BPB && b + bi < sb.size
          invariant bi <= BPB && used == old(used) && data == old(data) && logged == old(logged) && stray == old(stray)
          invariant forall c :: 0 <= c < b + bi && c < sb.size ==> used[c]
          decreases BPB - bi
        {
          if !used[b + bi] {
            used := used[b + bi := true];
            LogWrite(BBLOCK(sb, b));
            Bzero(b + bi);
            assert (b + bi) / BPB == b / BPB;
            return b + bi;
          }
          bi := bi + 1;
        }
        b := b + BPB;
      }
      return 0;
    }

    method Bzero(b: nat)
      requires b < |data|
      modifies this`data, this`logged, this`stray
      ensures data == old(data)[b := Zero()] && logged == old(logged) + {b} && stray == (old(stray) || outstanding < 1)
    {
      data := data[b := Zero()];
      LogWrite(b);
    }

    /** The precondition is the "freeing free block" panic. */
    method Bfree(b: nat)
      requires b < |used| && used[b]
      modifies this`used, this`logged, this`stray
      ensures used == old(used)[b := false] && logged == old(logged) + {BBLOCK(sb, b)}
      ensures stray == (old(stray) || outstanding < 1)
    {
      used := used[b := false];
      LogWrite(BBLOCK(sb, b));
    }

    /** Copies the in-core inode to disk. */
    method Iupdate(i: nat)
      requires i < |ino| == |dino|
      modifies this`dino, this`logged, this`stray
      ensures dino == old(dino)[i := ino[i]] && logged == old(logged) + {IBLOCK(sb, i)}
      ensures stray == (old(stray) || outstanding < 1)
    {
      dino := dino[i := ino[i]];
      LogWrite(IBLOCK(sb, i));
    }

    /** balloc for a pointer kept in the inode. */
    method FillPointer(i: nat, k: nat) returns (addr: nat)
      requires Valid() && i < |ino| && k <= 12 && ino[i].addrs[k] == 0
      modifies this`ino, this`data, this`used, this`logged, this`stray, this`owner
      ensures Valid()
      ensures stray == (old(stray) || (outstanding < 1 && addr != 0))
      ensures (addr != 0 ==> addr < |old(used)| && !old(used)[addr] && used == old(used)[addr := true])
      ensures (addr == 0 <==> Full(old(used))) && addr < sb.size && |ino| == old(|ino|)
      ensures addr == 0 ==> ino == old(ino) && data == old(data) && used == old(used) && owner == old(owner)
      ensures addr == 0 ==> logged == old(logged)
      ensures addr != 0 ==> |data| == old(|data|) && ino == SetAddr(old(ino), i, k, addr)
      ensures addr != 0 ==>
                SlotSet(old(ino), old(data), ino, data, i, k, addr) && logged == old(logged) + {BBLOCK(sb, addr), addr}
      ensures BytesSame(old(ino), old(data), ino, data)
    {
      hide Owned, Slot, SlotSet, BytesSame, Bits;
      ghost var ino0, data0, used0 := ino, data, used;
      addr := Balloc();
      NullIsFull(used0, owner, sb.nmeta, addr);
      if addr == 0 {
        BytesStay(ino, data);
        return;
      }
      FreeBlock(used0, owner, sb.nmeta, addr, (i, k));
      DirectSlot(ino, data0, i, k);
      AddPointer(ino, data0, owner, sb.nmeta, i, k, addr);
      AddPointerBytes(ino, data0, owner, sb.nmeta, i, k, addr);
      ino := ino[i := Inode(ino[i].size, ino[i].addrs[k := addr])];
      OwnedAdd(ino0, data0, ino, data, owner, sb.nmeta, sb.size, i, k, addr);
      owner := owner[addr := (i, k)];
    }

    /** balloc for an entry of the indirect block. */
    method FillEntry(i: nat, e: nat) returns (addr: nat)
      requires Valid() && i < |ino| && e < NINDIRECT && Slot(ino, data, i, 12) != 0 && Slot(ino, data, i, 13 + e) == 0
      modifies this`data, this`used, this`logged, this`stray, this`owner
      ensures Valid()
      ensures stray == (old(stray) || (outstanding < 1 && addr != 0))
      ensures (addr != 0 ==> addr < |old(used)| && !old(used)[addr] && used == old(used)[addr := true])
      ensures (addr == 0 <==> Full(old(used))) && addr < sb.size && |ino| == old(|ino|)
      ensures addr == 0 ==> data == old(data) && used == old(used) && owner == old(owner) && logged == old(logged)
      ensures addr != 0 ==> |data| == old(|data|) && SlotSet(old(ino), old(data), ino, data, i, 13 + e, addr)
      ensures addr != 0 ==> logged == old(logged) + {BBLOCK(sb, addr), addr, ino[i].addrs[12]}
      ensures BytesSame(old(ino), old(data), ino, data)
    {
      hide Owned, Slot, SlotSet, BytesSame, Bits, SetEntry;
      ghost var data0, used0 := data, used;
      var t := ino[i].addrs[12];
      addr := Balloc();
      NullIsFull(used0, owner, sb.nmeta, addr);
      if addr == 0 {
        BytesStay(ino, data);
        return;
      }
      FreeBlock(used0, owner, sb.nmeta, addr, (i, 13 + e));
      AddEntry(ino, data0, owner, sb.nmeta, i, 13 + e, addr);
      AddEntryBytes(ino, data0, owner, sb.nmeta, i, 13 + e, addr);
      assert data[t] == data0[t];
      data := data[t := SetEntry(data[t], e, addr)];
      LogWrite(t);
      OwnedAdd(ino, data0, ino, data, owner, sb.nmeta, sb.size, i, 13 + e, addr);
      owner := owner[addr := (i, 13 + e)];
    }

    /** The block of block bn of file i, allocated if need be; 0 if the disk is full. bn < MAXFILE is the panic. */
    method Bmap(i: nat, bn: nat) returns (addr: nat)
      requires Valid() && i < |ino| && bn < MAXFILE
      modifies this`ino, this`data, this`used, this`logged, this`stray, this`owner
      ensures Valid()
      ensures Mapping(sb, old(ino), old(data), old(used), old(logged), ino, data, used, logged, i, SlotOf(bn), addr)
      ensures addr == 0 <==> RunsOut(old(ino), old(data), old(used), i, bn)
      ensures Pointed(old(ino), old(used), ino, i, PointerOf(bn))
      ensures used == old(used) ==> owner == old(owner)
      ensures stray == (old(stray) || (outstanding < 1 && used != old(used)))
    {
      if bn < NDIRECT {
        addr := BmapDirect(i, bn);
      } else {
        addr := BmapIndirect(i, bn - NDIRECT);
      }
    }

    method BmapDirect(i: nat, bn: nat) returns (addr: nat)
      requires Valid() && i < |ino| && bn < NDIRECT
      modifies this`ino, this`data, this`used, this`logged, this`stray, this`owner
      ensures Valid()
      ensures Mapping(sb, old(ino), old(data), old(used), old(logged), ino, data, used, logged, i, bn, addr)
      ensures addr == 0 <==> old(Slot(ino, data, i, bn)) == 0 && Full(old(used))
      ensures Pointed(old(ino), old(used), ino, i, bn)
      ensures used == old(used) ==> owner == old(owner)
      ensures stray == (old(stray) || (outstanding < 1 && used != old(used)))
    {
      hide Owned, Slot, SlotSet, BytesSame, Bits, SetAddr, Mapping, Full, Pointed;
      ghost var ino0, data0, log0, used0 := ino, data, logged, used;
      DirectSlot(ino, data, i, bn);
      addr := ino[i].addrs[bn];
      if addr == 0 {
        addr := FillPointer(i, bn);
      }
      if addr == 0 || ino0[i].addrs[bn] != 0 {
        PointedSame(ino0, used0, i, bn);
      } else {
        PointedSet(ino0, used0, i, bn, addr);
      }
      if used == used0 {
        SlotInside(ino, data, owner, sb.nmeta, sb.size, i, bn);
        MappingSame(sb, ino, data, used, logged, i, bn, addr);
      } else {
        MappingPointer(sb, ino0, data0, used0, log0, ino, data, used, logged, i, bn, addr);
      }
    }

    method BmapIndirect(i: nat, e: nat) returns (addr: nat)
      requires Valid() && i < |ino| && e < NINDIRECT
      modifies this`ino, this`data, this`used, this`logged, this`stray, this`owner
      ensures Valid()
      ensures Mapping(sb, old(ino), old(data), old(used), old(logged), ino, data, used, logged, i, 13 + e, addr)
      ensures addr == 0 <==> old(Slot(ino, data, i, 13 + e)) == 0
                             && (Full(old(used)) || (old(ino)[i].addrs[NDIRECT] == 0 && OneLeft(old(used))))
      ensures Pointed(old(ino), old(used), ino, i, NDIRECT)
      ensures used == old(used) ==> owner == old(owner)
      ensures stray == (old(stray) || (outstanding < 1 && used != old(used)))
    {
      hide Owned, Slot, SlotSet, BytesSame, Bits, SetAddr, Mapping, Full, Tabled, Pointed;
      hide OneLeft;
      if ino[i].addrs[NDIRECT] == 0 {
        NoTableNoEntry(ino, data, i, 13 + e);
      }
      ghost var used0 := used;
      var t;
      t := LoadTable(i, 13 + e);
      if t == 0 {
        return 0;
      }
      if used != used0 {
        OneLeftIs(used0, t);
      }
      ghost var ino1, data1, log1, used1 := ino, data, logged, used;
      SlotInside(ino, data, owner, sb.nmeta, sb.size, i, 12);
      TabledFacts(sb, old(ino), old(data), old(used), old(logged), ino, data, used, logged, i, 13 + e, t);
      TableSlot(ino, data, i, e);
      addr := Entry(data[t], e);
      if addr == 0 {
        addr := FillEntry(i, e);
      }
      SlotInside(ino, data, owner, sb.nmeta, sb.size, i, 13 + e);
      if used == used1 {
        TabledIsMapping(sb, old(ino), old(data), old(used), old(logged), ino, data, used, logged, i, 13 + e, t, addr);
      } else {
        TabledThenEntry(sb, old(ino), old(data), old(used), old(logged), ino, data1, used1, log1, data, used, logged, i,
                        13 + e, t, addr);
      }
    }

    /** The first half of bmap's indirect case: the indirect block, allocated if need be. */
    method LoadTable(i: nat, ghost k: nat) returns (t: nat)
      requires Valid() && i < |ino| && 12 < k < NSLOT
      modifies this`ino, this`data, this`used, this`logged, this`stray, this`owner
      ensures Valid() && |ino| == old(|ino|) && Pointed(old(ino), old(used), ino, i, NDIRECT)
      ensures t == 0 <==> old(ino)[i].addrs[NDIRECT] == 0 && Full(old(used))
      ensures t != 0 && old(ino)[i].addrs[NDIRECT] != 0 ==> used == old(used)
      ensures t != 0 && old(ino)[i].addrs[NDIRECT] == 0 ==>
                t < |old(used)| && !old(used)[t] && used == old(used)[t := true]
      ensures t == 0 ==> Mapping(sb, old(ino), old(data), old(used), old(logged), ino, data, used, logged, i, k, 0)
      ensures t != 0 ==> Tabled(sb, old(ino), old(data), old(used), old(logged), ino, data, used, logged, i, k, t)
      ensures used == old(used) ==> owner == old(owner)
      ensures stray == (old(stray) || (outstanding < 1 && used != old(used)))
    {
      hide Owned, Slot, SlotSet, BytesSame, Bits, SetAddr, Mapping, Full, Tabled, Pointed;
      ghost var ino0, data0, log0, used0 := ino, data, logged, used;
      DirectSlot(ino, data, i, 12);
      t := ino[i].addrs[12];
      if t != 0 {
        PointedSame(ino, used, i, 12);
        TabledSame(sb, ino, data, used, logged, i, k, t);
        return;
      }
      NoTableNoEntry(ino, data, i, k);
      t := FillPointer(i, 12);
      if t == 0 {
        PointedSame(ino, used, i, 12);
        SlotInside(ino, data, owner, sb.nmeta, sb.size, i, k);
        MappingSame(sb, ino, data, used, logged, i, k, 0);
      } else {
        PointedSet(ino0, used0, i, 12, t);
        TabledNew(sb, ino0, data0, used0, log0, ino, data, used, logged, i, k, t);
      }
    }

    /**
      Up to n bytes of file i from off on. It changes nothing exactly if every block it reads is mapped or the
      disk is full; otherwise it allocates, and that is a panic if no operation is running.
     */
    method Readi(i: nat, off: uint, n: uint) returns (r: seq<byte>)
      requires Valid() && i < |ino|
      modifies this`ino, this`data, this`used, this`logged, this`stray, this`owner
      ensures Valid() && SizesSame(old(ino), ino) && BytesSame(old(ino), old(data), ino, data)
      ensures |r| <= ReadLength(old(ino)[i].size, off, n)
      ensures off + |r| <= old(ino)[i].size || r == []
      ensures r == [] || r == Content(old(ino), old(data), i)[off..off + |r|]
      ensures |r| <= n && (off + |r| < old(ino)[i].size && |r| < n && off + n < 0x1_0000_0000 ==>
                             Full(used) && Slot(ino, data, i, SlotOf((off + |r|) / BSIZE)) == 0)
      ensures var quiet := RangeMapped(old(ino), old(data), i, off,
                                       ReadLength(old(ino)[i].size, off, n)) || Full(old(used));
              && (used == old(used) <==> quiet) && stray == (old(stray) || (outstanding < 1 && !quiet))
      ensures used == old(used) ==> ino == old(ino) && data == old(data) && logged == old(logged) && owner == old(owner)
      ensures RangeMapped(old(ino), old(data), i, off, ReadLength(old(ino)[i].size, off, n)) ==>
                |r| == ReadLength(old(ino)[i].size, off, n)
      ensures off + n <= old(ino)[i].size && RangeMapped(old(ino), old(data), i, off, n) ==> |r| == n
      ensures off <= old(ino)[i].size < off + n < 0x1_0000_0000
              && RangeMapped(old(ino), old(data), i, off, old(ino)[i].size - off) ==>
                off + |r| == old(ino)[i].size
      ensures r == [] <==>
              n == 0 || off >= old(ino)[i].size || off + n >= 0x1_0000_0000
              || RunsOut(old(ino), old(data), old(used), i, off / BSIZE)
      ensures ino == old(ino)[i := ino[i]]
      ensures Pointing(old(ino), i, off, ReadLength(old(ino)[i].size, off, n), old(used), ino)
    {
      hide Owned, Slot, BytesSame, Bits, SizesSame, Full, Content, ByteAt, RangeMapped, Grew, SlotsKept, Looked;
      hide Pointing, Followed, RunsOut;
      ghost var ino0, data0, want0 := ino, data, ReadLength(ino[i].size, off, n);
      Unchanged(sb, ino, data, logged, i, 0, 0);
      GrewSame(used);
      RangeNone(ino, data, i, off);
      NothingLost(ino, data);
      PointingNone(ino, i, off, used);
      r := [];
      if off > ino[i].size || (off + n) % 0x1_0000_0000 < off {
        return;
      }
      var want := n;
      if off + n > ino[i].size {
        want := ino[i].size - off;
      }
      var tot, pos := 0, off;
      assert ino[i].size <= MAXFILE * BSIZE && want == want0;
      while tot < want
        invariant Valid() && |ino| == |ino0| && SizesSame(ino0, ino) && BytesSame(ino0, data0, ino, data)
        invariant SlotsKept(ino0, data0, ino, data)
        invariant tot <= want && pos == off + tot && |r| == tot
        invariant ReadSoFar(ino0, data0, i, off, r)
        invariant Quiet(ino0, data0, i, off, tot, old(used), used)
        invariant stray == (old(stray) || (outstanding < 1 && used != old(used)))
        invariant used == old(used) ==> ino == ino0 && data == data0 && logged == old(logged) && owner == old(owner)
        invariant ino == ino0[i := ino[i]] && Pointing(ino0, i, off, tot, old(used), ino)
        invariant tot > 0 ==> !RunsOut(ino0, data0, old(used), i, off / BSIZE)
      {
        assert pos / BSIZE < MAXFILE;
        if tot == 0 {
          QuietNothing(ino0, data0, i, off, old(used), used);
        }
        var addr := ReadBlock(i, pos / BSIZE, ino0, data0, old(used), off, tot);
        if addr == 0 {
          ReadStops(ino0, data0, i, off, tot, want, old(used), used);
          PointingStops(ino0, data0, i, off, tot, want, old(used), ino);
          break;
        }
        var m := Min(want - tot, BSIZE - pos % BSIZE);
        QuietOn(ino0, data0, i, off, tot, m, old(used), used);
        PointingOn(ino0, i, off, tot, m, old(used), ino);
        var chunk := data[addr][pos % BSIZE..pos % BSIZE + m];
        ChunkIsContent(ino0, data0, ino, data, i, off, r, chunk);
        r := r + chunk;
        tot, pos := tot + m, pos + m;
      }
      IsContent(ino0, data0, i, off, r);
    }

    /** The bmap call of readi's loop. */
    method ReadBlock(i: nat, bn: nat, ghost ino0: Inodes, ghost data0: Data, ghost used0: seq<bool>, ghost off: nat,
                     ghost tot: nat)
      returns (addr: nat)
      requires Valid() && i < |ino| == |ino0| && bn < MAXFILE && Quiet(ino0, data0, i, off, tot, used0, used)
      requires SizesSame(ino0, ino) && BytesSame(ino0, data0, ino, data) && SlotsKept(ino0, data0, ino, data)
      requires used == used0 ==> ino == ino0 && data == data0
      requires bn == (off + tot) / BSIZE && ino == ino0[i := ino[i]] && Pointing(ino0, i, off, tot, used0, ino)
      modifies this`ino, this`data, this`used, this`logged, this`stray, this`owner
      ensures Valid() && |ino| == |ino0|
      ensures SizesSame(ino0, ino) && BytesSame(ino0, data0, ino, data) && SlotsKept(ino0, data0, ino, data)
      ensures Looked(ino0, data0, i, off, tot, bn, used0, used)
      ensures ino == ino0[i := ino[i]] && Followed(ino0, i, off, tot, bn, used0, ino)
      ensures addr == Slot(ino, data, i, SlotOf(bn)) && addr < sb.size
      ensures addr == 0 ==> Full(used) && Slot(ino0, data0, i, SlotOf(bn)) == 0
      ensures addr == 0 <==> RunsOut(old(ino), old(data), old(used), i, bn)
      ensures used == old(used) ==> ino == old(ino) && data == old(data) && logged == old(logged) && owner == old(owner)
      ensures (used == used0 ==> old(used) == used0) && stray == (old(stray) || (outstanding < 1 && used != old(used)))
    {
      hide Owned, Slot, BytesSame, Bits, SizesSame, Full, RangeMapped, Grew, Quiet, Looked, SlotsKept, SlotsGrow;
      hide Pointed, Pointing, Followed, RunsOut;
      ghost var ino1, data1, used1 := ino, data, used;
      addr := Bmap(i, bn);
      Compose(ino0, data0, ino1, data1, ino, data);
      LookedUp(ino0, data0, i, off, tot, bn, used0, ino1, data1, used1, used);
      SlotsKeptOn(ino0, data0, ino1, data1, ino, data, i, SlotOf(bn));
      KeptHere(ino0, data0, ino, data, i, SlotOf(bn));
      QuietGrew(ino0, data0, i, off, tot, used0, used1, used);
      FollowedUp(ino0, data0, i, off, tot, bn, used0, ino1, used1, ino);
    }

    /** writei has written the first tot bytes of src. */
    ghost predicate Writing(ino0: Inodes, data0: Data, log0: set<nat>, i: nat, off: nat, src: seq<byte>, tot: nat,
                            touched: set<nat>)
      reads this
    {
      && tot <= |src| && i < |ino| == |ino0| && ino == ino0[i := ino[i]]
      && Wrote(ino0, data0, ino, data, i, off, src[..tot]) && Progress(ino0, data0, ino, data, i, off, off + tot)
      && |touched| <= Span(off, tot) && LogBound(sb, log0, logged, ino[i].addrs[12], touched)
    }

    /** One turn of writei's loop: the bytes that go into one block; m == 0 if the disk is full. */
    method WriteChunk(i: nat, off: nat, src: seq<byte>, tot: nat, ghost ino0: Inodes, ghost data0: Data,
                      ghost log0: set<nat>, ghost touched0: set<nat>)
      returns (m: nat, ghost touched: set<nat>)
      requires Valid() && Writing(ino0, data0, log0, i, off, src, tot, touched0)
      requires tot < |src| && (tot == 0 || (off + tot) % BSIZE == 0) && off + |src| <= MAXFILE * BSIZE
      modifies this`ino, this`data, this`used, this`logged, this`stray, this`owner
      ensures Valid() && tot + m <= |src| && (stray ==> old(stray) || outstanding < 1) && (old(stray) ==> stray)
      ensures Writing(ino0, data0, log0, i, off, src, tot + m, touched)
      ensures m == 0 ==> Full(used) && Slot(ino, data, i, SlotOf((off + tot) / BSIZE)) == 0
      ensures m > 0 ==> tot + m == |src| || (off + tot + m) % BSIZE == 0
    {
      hide Owned, Slot, BytesSame, Bits, SlotsGrow, BmapLogs, SizesSame, Full, ByteAt, Mapped, Wrote, Progress, Patch;
      hide LogBound, Shape, SlotOf;
      ghost var ino1, data1, log1 := ino, data, logged;
      var pos := off + tot;
      touched := touched0;
      var addr := Bmap(i, pos / BSIZE);
      BmapShape(sb, ino, dino, data, used, ino1);
      MapStep(ino0, data0, ino1, data1, ino, data, i, off, pos, src[..tot]);
      LogStep(sb, log0, log1, logged, ino1, data1, ino, data, i, SlotOf(pos / BSIZE), addr, touched);
      m := 0;
      if addr == 0 {
        return;
      }
      m := Min(|src| - tot, BSIZE - pos % BSIZE);
      ghost var data2, log2 := data, logged;
      data := data[addr := Patch(data[addr], pos % BSIZE, src[tot..tot + m])];
      WriteStep(ino0, data0, ino, data2, data, owner, sb.nmeta, i, off, src, tot, m);
      ShapeOfData(sb, ino, dino, data2, data, used);
      LogWrite(addr);
      touched := touched + {addr};
      LogMore(sb, log0, log2, logged, ino[i].addrs[12], touched, addr);
      SpanStep(off, tot, m);
    }

    /** Writes src into file i at off; -1 for a bad range, else the number of bytes written. */
    method Writei(i: nat, off: uint, src: seq<byte>) returns (r: int, ghost touched: set<nat>)
      requires Valid() && i < |ino| && |src| < 0x1_0000_0000
      modifies this`ino, this`dino, this`data, this`used, this`logged, this`stray, this`owner
      ensures Valid() && stray == (old(stray) || (r != -1 && outstanding < 1))
      ensures r == -1 <==> off > old(ino)[i].size || off + |src| > 268 * 1024
      ensures r == -1 ==>
                ino == old(ino) && data == old(data) && used == old(used) && dino == old(dino) && logged == old(logged)
      ensures r != -1 ==> 0 <= r <= |src|
      ensures r != -1 ==> |ino| == old(|ino|) && ino == old(ino)[i := ino[i]] && dino == old(dino)[i := ino[i]]
      ensures 0 <= r < |src| ==> Full(used) && Slot(ino, data, i, SlotOf((off + r) / BSIZE)) == 0
      ensures r != -1 ==> Content(ino, data, i) == Overwrite(old(Content(ino, data, i)), off, src[..r])
      ensures r != -1 ==> forall x: nat :: x < |ino| && x != i ==>
                ino[x].size == old(ino)[x].size && Content(ino, data, x) == old(Content(ino, data, x))
      ensures r != -1 ==> forall x: nat :: x < |ino| && old(Mapped(ino, data, x)) ==> Mapped(ino, data, x)
      ensures r != -1 ==>
                |touched| <= Span(off, |src|) && WriteLogs(sb, old(logged), logged, i, ino[i].addrs[12], touched)
    {
      hide Owned, Slot, BytesSame, Bits, SlotsGrow, BmapLogs, SizesSame, Full, Content, ByteAt, Mapped, Wrote, Progress;
      hide Patch, LogBound, WriteLogs;
      ghost var ino0, data0 := ino, data;
      touched := {};
      var n := |src|;
      if off > ino[i].size || (off + n) % 0x1_0000_0000 < off {
        return -1, touched;
      }
      if (off + n) % 0x1_0000_0000 > MAXFILE * BSIZE {
        return -1, touched;
      }
      var tot, pos := 0, off;
      NothingWritten(sb, ino, data, logged, i, off, src);
      while tot < n
        invariant Valid() && dino == old(dino) && tot <= n && pos == off + tot
        invariant (stray ==> old(stray) || outstanding < 1) && (old(stray) ==> stray)
        invariant tot == 0 || tot == n || pos % BSIZE == 0
        invariant Writing(ino0, data0, old(logged), i, off, src, tot, touched)
      {
        assert pos / BSIZE < MAXFILE;
        var m;
        m, touched := WriteChunk(i, off, src, tot, ino0, data0, old(logged), touched);
        if m == 0 {
          break;
        }
        tot, pos := tot + m, pos + m;
      }
      ghost var ino2 := ino;
      if pos > ino[i].size {
        ino := ino[i := Inode(pos, ino[i].addrs)];
      }
      SizeStep(ino0, data0, ino2, ino, data, owner, sb.nmeta, sb.size, i, off, src[..tot]);
      SpanGrows(off, tot, n);
      ghost var log3 := logged;
      Iupdate(i);
      LogEnd(sb, old(logged), log3, logged, i, ino[i].addrs[12], touched);
      r := tot;
    }

    /** Gives back every block of file i and makes it empty. */
    method Itrunc(i: nat)
      requires Valid() && i < |ino|
      modifies this`ino, this`dino, this`used, this`logged, this`stray, this`owner
      ensures Valid() && stray == (old(stray) || outstanding < 1)
      ensures ino == old(ino)[i := Inode(0, NoAddrs())] && dino == old(dino)[i := ino[i]]
      ensures owner == Without(old(owner), i)
      ensures forall x: nat :: x < |ino| && x != i ==> Content(ino, data, x) == old(Content(ino, data, x))
      ensures forall l :: l in logged ==> l in old(logged) || IsBitmap(sb, l) || l == IBLOCK(sb, i)
    {
      hide Owned, Slot, Bits, Content, Sized, Released, Dropped;
      ghost var ino0 := ino;
      BitsAreReleased(used, owner, sb.nmeta, i);
      FreeDirect(i);
      FreeIndirect(i, ino0);
      ino := ino[i := Inode(0, ino[i].addrs)];
      Iupdate(i);
      Truncated(ino0, ino, data, used, owner, sb.nmeta, sb.size, i);
      owner := Without(owner, i);
    }

    /** itrunc's loop over the direct pointers. */
    method FreeDirect(i: nat)
      requires Shape(sb, ino, dino, data, used) && Owned(ino, data, owner, sb.nmeta, sb.size) && i < |ino|
      requires Released(used, owner, sb.nmeta, i, 0)
      modifies this`ino, this`used, this`logged, this`stray
      ensures |ino| == old(|ino|) && |used| == sb.size && Released(used, owner, sb.nmeta, i, 12)
      ensures ino == old(ino)[i := Inode(old(ino)[i].size, ino[i].addrs)]
      ensures Dropped(old(ino)[i].addrs, ino[i].addrs, 12)
      ensures LogsBitmap(sb, old(logged), logged) && (stray ==> old(stray) || outstanding < 1) && (old(stray) ==> stray)
    {
      hide Owned, Slot, Sized, Released;
      ghost var ino0 := ino;
      var n := 0;
      while n < NDIRECT
        invariant n <= NDIRECT && |ino| == |ino0| && |used| == sb.size
        invariant (stray ==> old(stray) || outstanding < 1) && (old(stray) ==> stray)
        invariant ino == ino0[i := Inode(ino0[i].size, ino[i].addrs)] && Dropped(ino0[i].addrs, ino[i].addrs, n)
        invariant Released(used, owner, sb.nmeta, i, n) && LogsBitmap(sb, old(logged), logged)
      {
        DirectSlot(ino0, data, i, n);
        ReleaseOne(ino0, data, used, owner, sb.nmeta, sb.size, i, n);
        if ino[i].addrs[n] != 0 {
          BitmapBlock(sb, ino[i].addrs[n]);
          Bfree(ino[i].addrs[n]);
          ino := ino[i := Inode(ino[i].size, ino[i].addrs[n := 0])];
        }
        n := n + 1;
      }
    }

    /** The rest of itrunc: the indirect block and what it lists. */
    method FreeIndirect(i: nat, ghost ino0: Inodes)
      requires Shape(sb, ino0, dino, data, used) && Owned(ino0, data, owner, sb.nmeta, sb.size) && i < |ino0| == |ino|
      requires ino == ino0[i := Inode(ino0[i].size, ino[i].addrs)] && Dropped(ino0[i].addrs, ino[i].addrs, 12)
      requires Released(used, owner, sb.nmeta, i, 12)
      modifies this`ino, this`used, this`logged, this`stray
      ensures |used| == sb.size && Released(used, owner, sb.nmeta, i, NSLOT)
      ensures ino == ino0[i := Inode(ino0[i].size, NoAddrs())]
      ensures LogsBitmap(sb, old(logged), logged) && (stray ==> old(stray) || outstanding < 1) && (old(stray) ==> stray)
    {
      hide Owned, Slot, Sized, Entry, Released, ReleasedBut;
      DirectSlot(ino0, data, i, 12);
      if ino[i].addrs[NDIRECT] == 0 {
        NothingIndirect(ino0, data, used, owner, sb.nmeta, sb.size, i);
        assert ino[i].addrs == NoAddrs();
        return;
      }
      var t := ino[i].addrs[NDIRECT];
      SlotHasOwner(ino0, data, owner, sb.nmeta, sb.size, i, 12);
      SkipTable(used, owner, sb.nmeta, i, t);
      var j := 0;
      while j < NINDIRECT
        invariant j <= NINDIRECT && |used| == sb.size && ino == old(ino)
        invariant (stray ==> old(stray) || outstanding < 1) && (old(stray) ==> stray)
        invariant ReleasedBut(used, owner, sb.nmeta, i, 13 + j) && LogsBitmap(sb, old(logged), logged)
      {
        TableSlot(ino0, data, i, j);
        ReleaseEntry(ino0, data, used, owner, sb.nmeta, sb.size, i, 13 + j);
        if Entry(data[t], j) != 0 {
          BitmapBlock(sb, Entry(data[t], j));
          Bfree(Entry(data[t], j));
        }
        j := j + 1;
      }
      BitmapBlock(sb, t);
      ReleaseTable(ino0, data, used, owner, sb.nmeta, sb.size, i, t);
      Bfree(t);
      ino := ino[i := Inode(ino[i].size, ino[i].addrs[NDIRECT := 0])];
      assert ino[i].addrs == NoAddrs();
    }

    /** fileread on an inode file, which begins no operation. pos is the new f->off. */
    method FileRead(i: nat, off: uint, n: uint) returns (r: seq<byte>, pos: nat)
      requires Valid() && i < |ino|
      modifies this`ino, this`data, this`used, this`logged, this`stray, this`owner
      ensures Valid() && BytesSame(old(ino), old(data), ino, data) && pos == off + |r|
      ensures old(Mapped(ino, data, i)) ==> |r| == ReadLength(old(ino)[i].size, off, n)
      ensures old(Mapped(ino, data, i)) && off + n <= old(ino)[i].size ==> |r| == n
      ensures old(Mapped(ino, data, i)) && off <= old(ino)[i].size < off + n < 0x1_0000_0000 ==>
                off + |r| == old(ino)[i].size
      ensures r == [] <==>
              n == 0 || off >= old(ino)[i].size || off + n >= 0x1_0000_0000
              || RunsOut(old(ino), old(data), old(used), i, off / BSIZE)
      ensures r == [] || (off + |r| <= old(ino)[i].size && r == Content(old(ino), old(data), i)[off..off + |r|])
      ensures var quiet := RangeMapped(old(ino), old(data), i, off,
                                       ReadLength(old(ino)[i].size, off, n)) || Full(old(used));
              stray == (old(stray) || (outstanding == 0 && !quiet))
    {
      hide Owned, Bits, Full, Content, Mapped, RangeMapped, Slot;
      if Mapped(ino, data, i) {
        MappedEverywhere(ino, data, i, off, n);
      }
      r := Readi(i, off, n);
      pos := off + |r|;
    }

    /**
      filewrite on an inode file: the bytes go out in chunks, one log operation each. pos is the new f->off;
      ops is, for each operation, the set of blocks it logged.
     */
    method FileWrite(i: nat, off: uint, src: seq<byte>) returns (ret: int, pos: nat, ghost ops: seq<set<nat>>)
      requires Valid() && i < |ino| && |src| < 0x8000_0000
      modifies this
      ensures Valid() && |ino| == old(|ino|) && outstanding == old(outstanding) && stray == old(stray)
      ensures old(dino) == old(ino) ==> dino == ino
      ensures off <= pos <= off + |src| && (pos != off ==> off <= old(ino)[i].size)
      ensures Content(ino, data, i) == Put(old(Content(ino, data, i)), off, src[..pos - off])
      ensures OthersKept(old(ino), old(data), ino, data, i)
      ensures ret == if pos == off + |src| then |src| else -1
      ensures ret == -1 ==> Full(used) || off > old(ino)[i].size || off + |src| > 268 * 1024
      ensures src != [] && (off > old(ino)[i].size || off + |src| > 268 * 1024) ==> ret == -1
      ensures sb.size <= BPB ==> OpsFit(ops)
    {
      hide Owned, Bits, Full, Content, Mapped, Overwrite, WriteLogs, OthersKept, Put, OpsFit, Sized, Span, BBLOCK;
      hide IBLOCK;
      ghost var ino0, data0 := ino, data;
      ops, pos := [], off;
      var n := |src|;
      var max := (MAXOPBLOCKS - 1 - 1 - 2) / 2 * BSIZE;
      var k := 0;
      NoChunkYet(ino, data, i, off, src);
      while k < n
        invariant 0 <= k <= n && pos == off + k && Valid() && |ino| == |ino0|
        invariant outstanding == old(outstanding) && stray == old(stray) && (old(dino) == ino0 ==> dino == ino)
        invariant Chunks(ino0, data0, ino, data, i, off, src, k)
        invariant sb.size <= BPB ==> OpsFit(ops)
      {
        var n1 := n - k;
        if n1 > max {
          n1 := max;
        }
        ghost var ino1, data1 := ino, data;
        outstanding, logged := outstanding + 1, {};
        ChunkRange(ino0, data0, ino, data, i, off, src, k, n1);
        ghost var touched;
        var r;
        r, touched := Writei(i, pos, src[k..k + n1]);
        if r > 0 {
          pos := pos + r;
        }
        if r >= 0 {
          if sb.size <= BPB {
            OpIsSmall(sb, logged, i, ino[i].addrs[12], touched, off + k, n1);
          }
          ChunkWritten(ino0, data0, ino1, data1, ino, data, i, off, src, k, n1, r);
        }
        OpAdded(ops, logged);
        outstanding, ops := outstanding - 1, ops + [logged];
        if r != n1 {
          ret := -1;
          return;
        }
        k := k + r;
      }
      ChunksInside(ino0, data0, ino, data, i, off, src, n);
      ret := n;
    }
  }
}
