/** A root directory that fills its blocks: what mkfs makes of it, and what reading it then does. */
module RootHole {
  import opened FsLayout
  import opened FsSteps
  import opened FsCode
  import opened FsCalls
  import opened Mkfs
  import opened Mount

  /** The numbers of param.h and mkfs.c: 2000 blocks, of which 2 + 30 + 13 + 1 hold no data, and 200 inodes. */
  const Stock: Super := Super(2000, 32, 45, 46)
  const NINODES: nat := 200
  const ROOTINO: nat := 1

  /** 64 directory entries of 16 bytes, such as mkfs writes for 62 files, dot and dot-dot. */
  ghost predicate Names(names: seq<seq<byte>>) {
    |names| == 64 && forall k :: 0 <= k < |names| ==> |names[k]| == 16
  }

  function Entries(names: seq<seq<byte>>): seq<Append> {
    seq(|names|, k requires 0 <= k < |names| => Append(ROOTINO, names[k]))
  }

  lemma {:induction false} RootSize(names: seq<seq<byte>>, k: nat, x: nat)
    requires k <= |names| && forall j :: 0 <= j < |names| ==> |names[j]| == 16
    ensures |Appended(Entries(names)[..k], x)| == if x == ROOTINO then 16 * k else 0
  {
    if k > 0 {
      RootSize(names, k - 1, x);
      AppendedStep(Entries(names), k - 1, x);
    }
  }

  lemma {:induction false} RootBlocks(names: seq<seq<byte>>, n: nat)
    requires Names(names)
    ensures BlocksOf(Entries(names), n) == if n > ROOTINO then 1 else 0
  {
    if n > 0 {
      RootBlocks(names, n - 1);
      RootSize(names, 64, n - 1);
      assert Entries(names)[..64] == Entries(names);
      assert Need(1024) == 1 && Need(0) == 0;
    }
  }

  lemma RootFits(names: seq<seq<byte>>)
    requires Names(names)
    ensures Makes(Stock, NINODES, ROOTINO, Entries(names)) && |Appended(Entries(names), ROOTINO)| == 1024
  {
    hide BlocksOf, Appended;
    RootBlocks(names, NINODES);
    assert Entries(names)[..64] == Entries(names);
    forall x: nat | x < NINODES
      ensures |Appended(Entries(names), x)| <= 1024
    {
      RootSize(names, 64, x);
    }
    RootSize(names, 64, ROOTINO);
  }

  /** The root directory is two blocks long, and only the first is there. */
  ghost predicate Hole(f: Fs) {
    && ROOTINO < |f.ino| && f.ino[ROOTINO].size == 2048 && !Full(f.used)
    && Slot(f.ino, f.data, ROOTINO, SlotOf(0)) != 0 && f.ino[ROOTINO].addrs[1] == 0
  }

  /** mkfs with these entries, and fsinit. */
  method WholeBlockRoot(names: seq<seq<byte>>) returns (fs: FileSystem)
    requires Names(names)
    ensures fresh(fs) && Steady(fs) && fs.sb == Stock && |fs.ino| == NINODES && fs.outstanding == 0 && !fs.stray
    ensures Behind(FsOf(fs)) == {} && Hole(FsOf(fs))
  {
    hide Makes, BlocksOf, Appended, Content, Mapped, Owned, Bits, Slot, Sound;
    RootFits(names);
    RootBlocks(names, NINODES);
    var made := MakeAndMount(Stock, NINODES, ROOTINO, Entries(names));
    fs := made;
    assert !fs.used[1999];
    assert 0 * BSIZE < 1024 && !(1 * BSIZE < 1024);
    DirectSlot(fs.ino, fs.data, ROOTINO, 1);
    assert Slot(fs.ino, fs.data, ROOTINO, SlotOf(1)) == 0;
  }

  /** The hole is in the way of a read behind the first block. */
  lemma HoleInRange(f: Fs)
    requires Hole(f)
    ensures !RangeMapped(f.ino, f.data, ROOTINO, 1024, 16) && !PointersThere(f.ino, ROOTINO, 1024, 16)
    ensures ReadLength(f.ino[ROOTINO].size, 1024, 16) == 16
  {
    DirectSlot(f.ino, f.data, ROOTINO, 1);
    hide Slot;
    var bn: nat := 1;
    assert 1024 / BSIZE <= bn && bn * BSIZE < 1024 + 16;
    assert SlotOf(bn) == 1 && PointerOf(bn) == 1;
  }

  /** Reading the directory with no operation running makes log_write panic. */
  method ReadPanics(names: seq<seq<byte>>) returns (panicked: bool)
    requires Names(names)
    ensures panicked
  {
    hide Full, RangeMapped, Owned, Bits, Slot, Content;
    var fs := WholeBlockRoot(names);
    HoleInRange(FsOf(fs));
    SteadyIsGood(fs);
    var r, pos := fs.FileRead(ROOTINO, 1024, 16);
    panicked := fs.stray;
  }

  /** The reads of dirlookup for a name that is not there: 16 bytes at a time, up to the size. */
  function Lookup(): seq<Call> {
    seq(128, k requires 0 <= k < 128 => ReadEntry(k))
  }

  function ReadEntry(k: nat): Call
    requires k < 128
  {
    Read(ROOTINO, 16 * k, 16)
  }

  lemma EntryIsMapped(f: Fs, k: nat)
    requires Hole(f) && k < 64
    ensures RangeMapped(f.ino, f.data, ROOTINO, 16 * k, ReadLength(f.ino[ROOTINO].size, 16 * k, 16))
  {
    hide Slot, SlotOf;
    forall bn: nat | bn < MAXFILE && bn * BSIZE < 16 * k + 16
      ensures bn == 0
    {
    }
  }

  /** Up to the hole nothing happens ... */
  lemma {:induction false} UpToHole(sb: Super, fs: seq<Fs>, k: nat)
    requires Chain(sb, fs, Lookup()) && Hole(fs[0]) && k <= 64
    ensures fs[k] == fs[0]
  {
    hide Called, Hole;
    if k > 0 {
      UpToHole(sb, fs, k - 1);
      assert Called(sb, fs[k - 1], Lookup()[k - 1], fs[k]);
      EntryIsMapped(fs[0], k - 1);
      QuietCall(sb, fs[k - 1], Lookup()[k - 1], fs[k]);
    }
  }

  lemma QuietCall(sb: Super, a: Fs, c: Call, b: Fs)
    requires Called(sb, a, c, b) && c.Read?
    requires RangeMapped(a.ino, a.data, c.i, c.off, ReadLength(a.ino[c.i].size, c.off, c.n))
    ensures b == a
  {
  }

  /** ... and behind it the inode in memory is ahead of the one on disk. */
  lemma {:induction false} BehindTheHole(sb: Super, fs: seq<Fs>, k: nat)
    requires Chain(sb, fs, Lookup()) && Hole(fs[0]) && 64 < k <= 128
    ensures ROOTINO in Left(sb, fs, Lookup(), k)
  {
    hide Hole;
    assert Called(sb, fs[k - 1], Lookup()[k - 1], fs[k]);
    assert Lookup()[k - 1] == ReadEntry(k - 1);
    if k == 65 {
      UpToHole(sb, fs, 64);
      HoleFills(fs[64]);
    } else {
      BehindTheHole(sb, fs, k - 1);
    }
  }

  lemma HoleFills(f: Fs)
    requires Hole(f)
    ensures Fills(f, ReadEntry(64))
  {
    HoleInRange(f);
  }

  /** Looking up a name that is not there commits a block marked in use that nothing on disk refers to. */
  method LookupLeaks(names: seq<seq<byte>>) returns (fs: FileSystem)
    requires Names(names)
    ensures fresh(fs) && !fs.stray && !Sound(fs.sb, DiskOf(fs.sb, FsOf(fs)))
  {
    hide Sound, GoodBy, Hole, Called;
    fs := WholeBlockRoot(names);
    ghost var states := Operation(fs, Lookup());
    BehindTheHole(fs.sb, states, 128);
  }
}
