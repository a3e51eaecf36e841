/** What calls of the file system leave on disk: soundness of the image, call by call. */
module FsCalls {
  import opened FsLayout
  import opened FsSteps
  import opened FsCode

  /** The file system: inodes in memory and on disk, blocks and bitmap. */
  datatype Fs = Fs(ino: Inodes, dino: Inodes, data: Data, used: seq<bool>)

  /** What is on disk: inodes, data blocks and bitmap. */
  datatype OnDisk = OnDisk(ino: Inodes, data: Data, used: seq<bool>)

  /** The blocks below lo, which are no data blocks, blanked out. */
  function Masked(lo: nat, data: Data): Data {
    seq(|data|, b requires 0 <= b < |data| => MaskedBlock(lo, data, b))
  }

  function MaskedBlock(lo: nat, data: Data, b: nat): Block
    requires b < |data|
  {
    if b < lo then Zero() else data[b]
  }

  function DiskOf(sb: Super, f: Fs): OnDisk {
    OnDisk(f.dino, Masked(sb.nmeta, f.data), f.used)
  }

  ghost predicate SoundBy(sb: Super, im: OnDisk, owner: Owner) {
    && Shape(sb, im.ino, im.ino, im.data, im.used)
    && Owned(im.ino, im.data, owner, sb.nmeta, sb.size)
    && Bits(im.used, owner, sb.nmeta)
  }

  /** On disk every block has at most one owner, and the bitmap marks exactly metadata and owned blocks. */
  ghost predicate Sound(sb: Super, im: OnDisk) {
    exists owner :: SoundBy(sb, im, owner)
  }

  /** A pointer of an inode on disk is the one in memory, or still empty. */
  ghost predicate Lags(dino: Inodes, ino: Inodes) {
    |dino| == |ino| && forall x: nat, k: nat :: x < |ino| && k <= NDIRECT ==> PointerLags(dino, ino, x, k)
  }

  predicate PointerLags(dino: Inodes, ino: Inodes, x: nat, k: nat)
    requires x < |ino| == |dino| && k <= NDIRECT
  {
    dino[x].addrs[k] == ino[x].addrs[k] || dino[x].addrs[k] == 0
  }

  ghost predicate GoodBy(sb: Super, f: Fs, owner: Owner) {
    && Shape(sb, f.ino, f.dino, f.data, f.used) && Owned(f.ino, f.data, owner, sb.nmeta, sb.size)
    && Bits(f.used, owner, sb.nmeta) && Lags(f.dino, f.ino) && Sized(f.dino)
  }

  /** The invariant in memory, with the disk not ahead of it. */
  ghost predicate Good(sb: Super, f: Fs) {
    exists owner :: GoodBy(sb, f, owner)
  }

  /** The inodes of which a pointer has been filled in memory and not yet on disk. */
  ghost function Behind(f: Fs): set<nat>
    requires |f.dino| == |f.ino|
  {
    set x | 0 <= x < |f.ino| && f.dino[x].addrs != f.ino[x].addrs
  }

  // ---------------------------------------------------------------- when the image is sound

  lemma MaskedSlot(ino: Inodes, data: Data, lo: nat, x: nat, y: nat)
    requires x < |ino| && y < NSLOT && (ino[x].addrs[12] != 0 ==> lo <= ino[x].addrs[12])
    ensures Slot(ino, Masked(lo, data), x, y) == Slot(ino, data, x, y)
  {
  }

  /** Blanking out blocks that hold no table changes no slot. */
  lemma MaskedSlots(ino: Inodes, data: Data, lo: nat)
    requires forall x: nat :: x < |ino| && ino[x].addrs[12] != 0 ==> lo <= ino[x].addrs[12]
    ensures SlotsSame(ino, data, ino, Masked(lo, data)) && SlotsSame(ino, Masked(lo, data), ino, data)
  {
    hide Slot, Masked;
    forall x: nat, y: nat | x < |ino| && y < NSLOT
      ensures Slot(ino, Masked(lo, data), x, y) == Slot(ino, data, x, y)
    {
      MaskedSlot(ino, data, lo, x, y);
    }
  }

  lemma TablesAreData(ino: Inodes, data: Data, owner: Owner, lo: nat, hi: nat, x: nat)
    requires Owned(ino, data, owner, lo, hi) && x < |ino| && ino[x].addrs[12] != 0
    ensures lo <= ino[x].addrs[12]
  {
    DirectSlot(ino, data, x, 12);
    SlotHasOwner(ino, data, owner, lo, hi, x, 12);
  }

  lemma MaskedOwned(ino: Inodes, data: Data, owner: Owner, lo: nat, hi: nat)
    ensures Owned(ino, data, owner, lo, hi) ==> Owned(ino, Masked(lo, data), owner, lo, hi)
    ensures Owned(ino, Masked(lo, data), owner, lo, hi) ==> Owned(ino, data, owner, lo, hi)
  {
    hide Owned, Masked;
    if Owned(ino, data, owner, lo, hi) || Owned(ino, Masked(lo, data), owner, lo, hi) {
      forall x: nat | x < |ino| && ino[x].addrs[12] != 0
        ensures lo <= ino[x].addrs[12]
      {
        if Owned(ino, data, owner, lo, hi) {
          TablesAreData(ino, data, owner, lo, hi, x);
        } else {
          TablesAreData(ino, Masked(lo, data), owner, lo, hi, x);
        }
      }
      MaskedSlots(ino, data, lo);
      if Owned(ino, data, owner, lo, hi) {
        OwnedSame(ino, data, ino, Masked(lo, data), owner, lo, hi);
      } else {
        OwnedSame(ino, Masked(lo, data), ino, data, owner, lo, hi);
      }
    }
  }

  /** With all inodes written back the image is sound. */
  lemma WrittenIsSound(sb: Super, f: Fs)
    requires Good(sb, f) && |f.dino| == |f.ino| && Behind(f) == {}
    ensures Sound(sb, DiskOf(sb, f))
  {
    var owner :| GoodBy(sb, f, owner);
    hide Owned, Bits, Masked, Slot;
    forall x: nat | x < |f.ino|
      ensures f.dino[x].addrs == f.ino[x].addrs
    {
      assert x !in Behind(f);
    }
    SlotsOfAddrs(f.ino, f.dino, f.data);
    OwnedSame(f.ino, f.data, f.dino, f.data, owner, sb.nmeta, sb.size);
    MaskedOwned(f.dino, f.data, owner, sb.nmeta, sb.size);
    MaskedSize(sb.nmeta, f.data);
    assert SoundBy(sb, DiskOf(sb, f), owner);
  }

  lemma MaskedSize(lo: nat, data: Data)
    ensures |Masked(lo, data)| == |data|
  {
  }

  /** A slot on disk is the one in memory, or empty. */
  lemma SlotLags(dino: Inodes, ino: Inodes, data: Data, x: nat, y: nat)
    requires Lags(dino, ino) && x < |ino| && y < NSLOT
    ensures Slot(dino, data, x, y) == Slot(ino, data, x, y) || Slot(dino, data, x, y) == 0
  {
    assert PointerLags(dino, ino, x, if y <= 12 then y else 12);
  }

  /** An inode that is behind leaves a block marked that nothing on disk refers to. */
  lemma BehindIsUnsound(sb: Super, f: Fs, x: nat)
    requires Good(sb, f) && |f.dino| == |f.ino| && x in Behind(f)
    ensures !Sound(sb, DiskOf(sb, f))
  {
    var owner :| GoodBy(sb, f, owner);
    hide Bits, Masked, Slot, Owned;
    var k :| 0 <= k < 13 && f.dino[x].addrs[k] != f.ino[x].addrs[k];
    assert PointerLags(f.dino, f.ino, x, k);
    var b := f.ino[x].addrs[k];
    DirectSlot(f.ino, f.data, x, k);
    DirectSlot(f.dino, f.data, x, k);
    SlotHasOwner(f.ino, f.data, owner, sb.nmeta, sb.size, x, k);
    OwnedRange(f.ino, f.data, owner, sb.nmeta, sb.size, b);
    OwnedIsMarked(f.used, owner, sb.nmeta, b);
    if Sound(sb, DiskOf(sb, f)) {
      var o: Owner :| SoundBy(sb, DiskOf(sb, f), o);
      MaskedOwned(f.dino, f.data, o, sb.nmeta, sb.size);
      MarkedIsOwned(f.used, o, sb.nmeta, b);
      OwnerRefers(f.dino, f.data, o, sb.nmeta, sb.size, b);
      var s: SlotId := o[b];
      SlotLags(f.dino, f.ino, f.data, s.0, s.1);
      SlotHasOwner(f.ino, f.data, owner, sb.nmeta, sb.size, s.0, s.1);
    }
  }

  lemma OwnedRange(ino: Inodes, data: Data, owner: Owner, lo: nat, hi: nat, b: nat)
    requires Owned(ino, data, owner, lo, hi) && b in owner
    ensures lo <= b < hi
  {
  }

  lemma OwnerRefers(ino: Inodes, data: Data, owner: Owner, lo: nat, hi: nat, b: nat)
    requires Owned(ino, data, owner, lo, hi) && b in owner
    ensures RefersTo(ino, data, owner[b], b)
  {
  }

  lemma OwnedIsMarked(used: seq<bool>, owner: Owner, lo: nat, b: nat)
    requires Bits(used, owner, lo) && b in owner && b < |used|
    ensures used[b]
  {
  }

  lemma MarkedIsOwned(used: seq<bool>, owner: Owner, lo: nat, b: nat)
    requires Bits(used, owner, lo) && lo <= b < |used| && used[b]
    ensures b in owner
  {
  }

  /** The image on disk is sound exactly if no inode is behind. */
  lemma SoundIff(sb: Super, f: Fs)
    requires Good(sb, f)
    ensures |f.dino| == |f.ino| && (Sound(sb, DiskOf(sb, f)) <==> Behind(f) == {})
  {
    assert |f.dino| == |f.ino| by {
      var owner :| GoodBy(sb, f, owner);
    }
    hide Good, Sound;
    if Behind(f) == {} {
      WrittenIsSound(sb, f);
    } else {
      var x :| x in Behind(f);
      BehindIsUnsound(sb, f, x);
    }
  }

  /** What a boot makes of a sound image is good, and nothing is behind. */
  lemma BootedIsGood(sb: Super, f: Fs)
    requires Sound(sb, DiskOf(sb, f)) && f.ino == f.dino
    ensures Good(sb, f) && Behind(f) == {}
  {
    var owner :| SoundBy(sb, DiskOf(sb, f), owner);
    hide Bits, Masked, Slot, Owned;
    MaskedOwned(f.dino, f.data, owner, sb.nmeta, sb.size);
    MaskedSize(sb.nmeta, f.data);
    assert GoodBy(sb, f, owner);
  }

  // ---------------------------------------------------------------- calls

  /** A call an operation makes between begin_op and end_op: readi, writei or itrunc. */
  datatype Call = Read(i: nat, off: uint, n: uint) | Write(i: nat, off: uint, src: seq<byte>) | Truncate(i: nat)

  /** The call fills a pointer of an inode that it does not write back. */
  ghost predicate Fills(f: Fs, c: Call)
    requires c.i < |f.ino|
  {
    c.Read? && !PointersThere(f.ino, c.i, c.off, ReadLength(f.ino[c.i].size, c.off, c.n)) && !Full(f.used)
  }

  /** The call writes the inode back. */
  predicate Flushes(f: Fs, c: Call)
    requires c.i < |f.ino|
  {
    c.Truncate? || (c.Write? && Writable(f.ino[c.i].size, c.off, |c.src|))
  }

  /** What a call does to inodes in memory and on disk. */
  ghost predicate Called(sb: Super, a: Fs, c: Call, b: Fs) {
    && c.i < |a.ino| == |b.ino| == |a.dino| == |b.dino| && (Good(sb, a) ==> Good(sb, b))
    && b.ino == a.ino[c.i := b.ino[c.i]]
    && b.dino == (if Flushes(a, c) then a.dino[c.i := b.ino[c.i]] else a.dino)
    && (!Flushes(a, c) ==> KeepsPointers(a.ino[c.i].addrs, b.ino[c.i].addrs))
    && (!Flushes(a, c) ==> (b.ino[c.i].addrs != a.ino[c.i].addrs <==> Fills(a, c)))
    && (c.Read? && RangeMapped(a.ino, a.data, c.i, c.off, ReadLength(a.ino[c.i].size, c.off, c.n)) ==> b == a)
  }

  ghost predicate KeepsPointers(a: Addrs, b: Addrs) {
    forall k :: 0 <= k <= NDIRECT && a[k] != 0 ==> b[k] == a[k]
  }

  /** Which inodes are behind after a call. */
  ghost function BehindNext(f: Fs, c: Call, behind: set<nat>): set<nat>
    requires c.i < |f.ino|
  {
    if Fills(f, c) then behind + {c.i} else if Flushes(f, c) then behind - {c.i} else behind
  }

  /** A pointer once filled in memory stays ahead of the disk. */
  lemma StaysBehind(d: Addrs, a: Addrs, b: Addrs)
    requires KeepsPointers(a, b) && forall k :: 0 <= k <= NDIRECT ==> d[k] == a[k] || d[k] == 0
    ensures d != a ==> d != b
  {
    if d != a {
      var k :| 0 <= k < 13 && d[k] != a[k];
      assert b[k] != d[k];
    }
  }

  lemma BehindAfter(sb: Super, a: Fs, c: Call, b: Fs)
    requires Called(sb, a, c, b) && Good(sb, a)
    ensures Behind(b) == BehindNext(a, c, Behind(a))
  {
    hide Fills, Flushes, KeepsPointers, Good, RangeMapped, Behind;
    FillsOrFlushes(a, c);
    CalledInode(sb, a, c, b);
    forall x: nat
      ensures x in Behind(b) <==> x in BehindNext(a, c, Behind(a))
    {
      IsBehind(a, x);
      IsBehind(b, x);
    }
  }

  lemma IsBehind(f: Fs, x: nat)
    requires |f.dino| == |f.ino|
    ensures x in Behind(f) <==> x < |f.ino| && f.dino[x].addrs != f.ino[x].addrs
  {
  }

  /** Whether the inode of a call is behind after it. */
  lemma CalledInode(sb: Super, a: Fs, c: Call, b: Fs)
    requires Called(sb, a, c, b) && Good(sb, a)
    ensures var i := c.i;
            b.dino[i].addrs != b.ino[i].addrs <==>
            !Flushes(a, c) && (Fills(a, c) || a.dino[i].addrs != a.ino[i].addrs)
  {
    var i := c.i;
    if !Flushes(a, c) {
      var owner :| GoodBy(sb, a, owner);
      hide Fills, Flushes, KeepsPointers, Good, Owned, Bits, Shape, Sized, RangeMapped;
      forall k: nat | k <= NDIRECT
        ensures a.dino[i].addrs[k] == a.ino[i].addrs[k] || a.dino[i].addrs[k] == 0
      {
        assert PointerLags(a.dino, a.ino, i, k);
      }
      StaysBehind(a.dino[i].addrs, a.ino[i].addrs, b.ino[i].addrs);
    }
  }

  lemma FillsOrFlushes(f: Fs, c: Call)
    requires c.i < |f.ino|
    ensures !(Fills(f, c) && Flushes(f, c))
  {
  }

  /** From a disk that is not behind, a call leaves a sound image exactly if it is no read that fills a pointer. */
  lemma OneCall(sb: Super, a: Fs, c: Call, b: Fs)
    requires Called(sb, a, c, b) && Good(sb, a) && Behind(a) == {}
    ensures Sound(sb, DiskOf(sb, b)) <==> !Fills(a, c)
  {
    hide Good, Sound, Fills, Flushes;
    BehindAfter(sb, a, c, b);
    assert Good(sb, b);
    SoundIff(sb, b);
    assert c.i in {c.i};
  }

  // ---------------------------------------------------------------- sequences of calls

  /** fs[k + 1] is what the call calls[k] makes of fs[k]. */
  ghost predicate Chain(sb: Super, fs: seq<Fs>, calls: seq<Call>) {
    |fs| == |calls| + 1 && forall k: nat :: k < |calls| ==> Called(sb, fs[k], calls[k], fs[k + 1])
  }

  /** The inodes behind after the first k calls: those filled by a read and not written back since. */
  ghost function Left(sb: Super, fs: seq<Fs>, calls: seq<Call>, k: nat): set<nat>
    requires Chain(sb, fs, calls) && k <= |calls|
  {
    if k == 0 then (if |fs[0].dino| == |fs[0].ino| then Behind(fs[0]) else {})
    else
      assert Called(sb, fs[k - 1], calls[k - 1], fs[k]);
      BehindNext(fs[k - 1], calls[k - 1], Left(sb, fs, calls, k - 1))
  }

  /** However many calls, the image is sound exactly if every inode a read has filled has been written back since. */
  lemma {:induction false} SoundAfter(sb: Super, fs: seq<Fs>, calls: seq<Call>, k: nat)
    requires Chain(sb, fs, calls) && k <= |calls| && Good(sb, fs[0])
    ensures Good(sb, fs[k]) && |fs[k].dino| == |fs[k].ino| && Behind(fs[k]) == Left(sb, fs, calls, k)
    ensures Sound(sb, DiskOf(sb, fs[k])) <==> Left(sb, fs, calls, k) == {}
  {
    hide Good, Sound, BehindNext;
    if k > 0 {
      SoundAfter(sb, fs, calls, k - 1);
      assert Called(sb, fs[k - 1], calls[k - 1], fs[k]);
      BehindAfter(sb, fs[k - 1], calls[k - 1], fs[k]);
    }
    SoundIff(sb, fs[k]);
  }

  // ---------------------------------------------------------------- the code

  function FsOf(fs: FileSystem): Fs
    reads fs
  {
    Fs(fs.ino, fs.dino, fs.data, fs.used)
  }

  /** The invariant of the object, with the disk not ahead of memory. */
  ghost predicate Steady(fs: FileSystem)
    reads fs
  {
    GoodBy(fs.sb, FsOf(fs), fs.owner)
  }

  lemma SteadyIsGood(fs: FileSystem)
    requires Steady(fs)
    ensures Good(fs.sb, FsOf(fs)) && fs.Valid()
  {
  }

  lemma FlushedLags(dino: Inodes, ino: Inodes, ino': Inodes, i: nat)
    requires Lags(dino, ino) && i < |ino| == |ino'| && ino' == ino[i := ino'[i]] && Sized(dino) && Sized(ino')
    ensures Lags(dino[i := ino'[i]], ino') && Sized(dino[i := ino'[i]])
  {
    var dino' := dino[i := ino'[i]];
    forall x: nat, k: nat | x < |ino'| && k <= NDIRECT
      ensures PointerLags(dino', ino', x, k)
    {
      assert PointerLags(dino, ino, x, k);
    }
  }

  lemma ReadLags(dino: Inodes, ino: Inodes, ino': Inodes, i: nat)
    requires Lags(dino, ino) && i < |ino| == |ino'| && ino' == ino[i := ino'[i]]
    requires KeepsPointers(ino[i].addrs, ino'[i].addrs)
    ensures Lags(dino, ino')
  {
    forall x: nat, k: nat | x < |ino'| && k <= NDIRECT
      ensures PointerLags(dino, ino', x, k)
    {
      assert PointerLags(dino, ino, x, k);
    }
  }

  predicate CallOk(c: Call, n: nat) {
    c.i < n && (c.Write? ==> |c.src| < 0x1_0000_0000)
  }

  method PerformRead(fs: FileSystem, i: nat, off: uint, n: uint)
    requires Steady(fs) && i < |fs.ino| && fs.outstanding >= 1
    modifies fs
    ensures Steady(fs) && fs.outstanding == old(fs.outstanding) && fs.stray == old(fs.stray)
    ensures Called(fs.sb, old(FsOf(fs)), Read(i, off, n), FsOf(fs))
  {
    hide Owned, Bits, Sized, Content, Mapped, Full, RangeMapped, Slot, BytesSame, PointersThere, Lags;
    ghost var a := FsOf(fs);
    var r := fs.Readi(i, off, n);
    ReadLags(a.dino, a.ino, fs.ino, i);
    SteadyIsGood(fs);
    assert Called(fs.sb, a, Read(i, off, n), FsOf(fs)) by {
      hide Good;
    }
  }

  method PerformWrite(fs: FileSystem, i: nat, off: uint, src: seq<byte>)
    requires Steady(fs) && i < |fs.ino| && fs.outstanding >= 1 && |src| < 0x1_0000_0000
    modifies fs
    ensures Steady(fs) && fs.outstanding == old(fs.outstanding) && fs.stray == old(fs.stray)
    ensures Called(fs.sb, old(FsOf(fs)), Write(i, off, src), FsOf(fs))
  {
    hide Owned, Bits, Sized, Content, Mapped, Full, RangeMapped, Slot, PointersThere, Lags, WriteLogs, Overwrite, Span;
    ghost var a := FsOf(fs);
    var r, touched := fs.Writei(i, off, src);
    if r != -1 {
      FlushedLags(a.dino, a.ino, fs.ino, i);
    }
    SteadyIsGood(fs);
  }

  method PerformTruncate(fs: FileSystem, i: nat)
    requires Steady(fs) && i < |fs.ino| && fs.outstanding >= 1
    modifies fs
    ensures Steady(fs) && fs.outstanding == old(fs.outstanding) && fs.stray == old(fs.stray)
    ensures Called(fs.sb, old(FsOf(fs)), Truncate(i), FsOf(fs))
  {
    hide Owned, Bits, Sized, Content, Mapped, Full, RangeMapped, Slot, PointersThere, Lags, Without;
    ghost var a := FsOf(fs);
    fs.Itrunc(i);
    FlushedLags(a.dino, a.ino, fs.ino, i);
    SteadyIsGood(fs);
  }

  /** readi, writei and itrunc, as an operation calls them, do what Called says. */
  method Perform(fs: FileSystem, c: Call)
    requires Steady(fs) && CallOk(c, |fs.ino|) && fs.outstanding >= 1
    modifies fs
    ensures Steady(fs) && fs.outstanding == old(fs.outstanding) && fs.stray == old(fs.stray)
    ensures Called(fs.sb, old(FsOf(fs)), c, FsOf(fs))
  {
    hide GoodBy, Called;
    match c {
      case Read(i, off, n) => PerformRead(fs, i, off, n);
      case Write(i, off, src) => PerformWrite(fs, i, off, src);
      case Truncate(i) => PerformTruncate(fs, i);
    }
  }

  /**
    One operation: begin_op, its calls, end_op. The image it leaves is sound exactly if every inode in which one of its
    reads filled a pointer was written back by a later call.
   */
  method Operation(fs: FileSystem, calls: seq<Call>) returns (ghost states: seq<Fs>)
    requires Steady(fs) && Behind(FsOf(fs)) == {} && forall k :: 0 <= k < |calls| ==> CallOk(calls[k], |fs.ino|)
    modifies fs
    ensures Steady(fs) && fs.outstanding == old(fs.outstanding) && fs.stray == old(fs.stray)
    ensures Chain(fs.sb, states, calls) && states[0] == old(FsOf(fs)) && states[|calls|] == FsOf(fs)
    ensures Sound(fs.sb, DiskOf(fs.sb, FsOf(fs))) <==> Left(fs.sb, states, calls, |calls|) == {}
  {
    hide GoodBy, Called, Sound;
    fs.outstanding := fs.outstanding + 1;
    states := [FsOf(fs)];
    ghost var n := |fs.ino|;
    SteadyIsGood(fs);
    ghost var sb := fs.sb;
    var k := 0;
    while k < |calls|
      invariant k <= |calls| && Steady(fs) && |fs.ino| == n && fs.sb == sb && |states| == k + 1
      invariant fs.outstanding == old(fs.outstanding) + 1 && fs.stray == old(fs.stray)
      invariant states[0] == old(FsOf(fs)) && states[k] == FsOf(fs) && Chain(sb, states, calls[..k])
    {
      Perform(fs, calls[k]);
      CalledSize(sb, states[k], calls[k], FsOf(fs));
      ChainMore(sb, states, calls, k, FsOf(fs));
      states := states + [FsOf(fs)];
      k := k + 1;
    }
    assert calls[..k] == calls;
    fs.outstanding := fs.outstanding - 1;
    SoundAfter(sb, states, calls, |calls|);
  }

  lemma CalledSize(sb: Super, a: Fs, c: Call, b: Fs)
    requires Called(sb, a, c, b)
    ensures |b.ino| == |a.ino|
  {
  }

  lemma ChainMore(sb: Super, fs: seq<Fs>, calls: seq<Call>, k: nat, f: Fs)
    requires k < |calls| && Chain(sb, fs, calls[..k]) && Called(sb, fs[k], calls[k], f)
    ensures Chain(sb, fs + [f], calls[..k + 1])
  {
    hide Called;
    forall j: nat | j < k + 1
      ensures Called(sb, (fs + [f])[j], calls[..k + 1][j], (fs + [f])[j + 1])
    {
      if j < k {
        assert Called(sb, fs[j], calls[..k][j], fs[j + 1]);
      }
    }
  }
}
