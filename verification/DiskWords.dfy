/** The layout of kernel/fs.h: inodes, data blocks and bitmap in the 32-bit words of a disk. */
module DiskWords {
  import opened FsLayout
  import opened FsSteps
  import opened FsCalls
  import R = RedoLog

  function BlockAt(d: R.Disk, b: nat): R.Block {
    if b < |d| then d[b] else []
  }

  function Word(blk: R.Block, k: nat): nat {
    if k < |blk| then blk[k] % 0x1_0000_0000 else 0
  }

  function Pow(base: nat, n: nat): (p: nat)
    ensures base > 0 ==> p > 0
  {
    if n == 0 then 1 else base * Pow(base, n - 1)
  }

  /** n words from word o on. */
  function WordsFrom(blk: R.Block, o: nat, n: nat): (a: seq<nat>)
    ensures |a| == n && forall k :: 0 <= k < n ==> a[k] == Word(blk, o + k)
  {
    if n == 0 then [] else WordsFrom(blk, o, n - 1) + [Word(blk, o + n - 1)]
  }

  /** struct dinode x: type, major, minor and nlink in two words, then size and addrs. */
  function InodeAt(sb: Super, d: R.Disk, x: nat): Inode {
    var blk, o := BlockAt(d, sb.inodestart + x / IPB), 16 * (x % IPB);
    Inode(Word(blk, o + 2), WordsFrom(blk, o + 3, 13))
  }

  /** Byte k of a block; words are little-endian. */
  function ByteOf(blk: R.Block, k: nat): byte {
    Word(blk, k / 4) / Pow(256, k % 4) % 256
  }

  function DataAt(sb: Super, d: R.Disk, b: nat): Block {
    if b < sb.nmeta then Zero() else seq(1024, k requires 0 <= k < 1024 => ByteOf(BlockAt(d, b), k))
  }

  /** Bit b of the bitmap, which is bit b % 8 of byte b / 8. */
  function BitAt(sb: Super, d: R.Disk, b: nat): bool {
    Word(BlockAt(d, sb.bmapstart + b / BPB), b % BPB / 32) / Pow(2, b % 32) % 2 == 1
  }

  function ReadDisk(sb: Super, ninodes: nat, d: R.Disk): OnDisk {
    OnDisk(seq(ninodes, x requires 0 <= x < ninodes => InodeAt(sb, d, x)),
           seq(sb.size, b requires 0 <= b < sb.size => DataAt(sb, d, b)),
           seq(sb.size, b requires 0 <= b < sb.size => BitAt(sb, d, b)))
  }

  /** The log comes before inodes, bitmap and data. */
  ghost predicate LaidOut(g: R.Geometry, sb: Super) {
    g.start + g.size <= sb.inodestart && g.start + g.size <= sb.bmapstart && g.start + g.size <= sb.nmeta
  }

  lemma SameBlock(g: R.Geometry, d: R.Disk, e: R.Disk, b: nat)
    requires R.SameHome(g, d, e) && g.start + g.size <= b
    ensures BlockAt(d, b) == BlockAt(e, b)
  {
  }

  /** What is read depends on home blocks alone. */
  lemma ReadsHome(g: R.Geometry, sb: Super, ninodes: nat, d: R.Disk, e: R.Disk)
    requires R.SameHome(g, d, e) && LaidOut(g, sb)
    ensures ReadDisk(sb, ninodes, d) == ReadDisk(sb, ninodes, e)
  {
    hide R.SameHome;
    forall x: nat | x < ninodes
      ensures InodeAt(sb, d, x) == InodeAt(sb, e, x)
    {
      SameBlock(g, d, e, sb.inodestart + x / IPB);
    }
    forall b: nat | b < sb.size
      ensures DataAt(sb, d, b) == DataAt(sb, e, b)
    {
      if b >= sb.nmeta {
        SameBlock(g, d, e, b);
      }
    }
    forall b: nat | b < sb.size
      ensures BitAt(sb, d, b) == BitAt(sb, e, b)
    {
      SameBlock(g, d, e, sb.bmapstart + b / BPB);
    }
  }

  // ---------------------------------------------------------------- writing it down

  function Blocks(n: nat, per: nat): nat
    requires per > 0
  {
    (n + per - 1) / per
  }

  /** Inodes, then the bitmap, then data, each in blocks of their own. */
  ghost predicate Regions(sb: Super, ninodes: nat, nblocks: nat) {
    && sb.inodestart + Blocks(ninodes, IPB) <= sb.bmapstart && sb.bmapstart + Blocks(sb.size, BPB) <= sb.nmeta
    && sb.nmeta <= sb.size <= nblocks
  }

  /** n bits of the bitmap from bit b on as a number. */
  function BitsFrom(used: seq<bool>, b: nat, n: nat): nat
    decreases n
  {
    if n == 0 then 0 else (if b < |used| && used[b] then 1 else 0) + 2 * BitsFrom(used, b + 1, n - 1)
  }

  function InodeWord(ino: Inode, f: nat): nat {
    if f == 2 then ino.size else if 3 <= f < 16 then ino.addrs[f - 3] else 0
  }

  /** Word w of block b of a disk with this image. */
  function WordAt(sb: Super, im: OnDisk, b: nat, w: nat): nat
    requires w < 256
  {
    if sb.inodestart <= b < sb.bmapstart then
      var x := IPB * (b - sb.inodestart) + w / 16;
      if x < |im.ino| then InodeWord(im.ino[x], w % 16) else 0
    else if sb.bmapstart <= b < sb.nmeta then
      BitsFrom(im.used, BPB * (b - sb.bmapstart) + 32 * w, 32)
    else if sb.nmeta <= b < |im.data| then
      Entry(im.data[b], w)
    else 0
  }

  function BlockOf(sb: Super, im: OnDisk, b: nat): R.Block {
    seq(256, w requires 0 <= w < 256 => WordAt(sb, im, b, w))
  }

  function WriteDisk(sb: Super, im: OnDisk, nblocks: nat): R.Disk {
    seq(nblocks, b requires 0 <= b < nblocks => BlockOf(sb, im, b))
  }

  /** The numbers fit their fields, and there is nothing where no data is. */
  ghost predicate Writable32(sb: Super, ninodes: nat, im: OnDisk) {
    && |im.ino| == ninodes && |im.data| == |im.used| == sb.size
    && (forall x: nat :: x < ninodes ==> im.ino[x].size < 0x1_0000_0000)
    && (forall x: nat, k: nat :: x < ninodes && k < 13 ==> im.ino[x].addrs[k] < 0x1_0000_0000)
    && (forall b: nat :: b < sb.nmeta && b < sb.size ==> im.data[b] == Zero())
  }

  lemma WordBack(sb: Super, im: OnDisk, nblocks: nat, b: nat, w: nat)
    requires b < nblocks && w < 256
    ensures Word(BlockAt(WriteDisk(sb, im, nblocks), b), w) == WordAt(sb, im, b, w) % 0x1_0000_0000
  {
  }

  lemma InodeBack(sb: Super, ninodes: nat, im: OnDisk, nblocks: nat, x: nat)
    requires Regions(sb, ninodes, nblocks) && Writable32(sb, ninodes, im) && x < ninodes
    ensures InodeAt(sb, WriteDisk(sb, im, nblocks), x) == im.ino[x]
  {
    hide WordAt, Word, WriteDisk;
    var b, o := sb.inodestart + x / IPB, 16 * (x % IPB);
    var blk, got := BlockAt(WriteDisk(sb, im, nblocks), b), InodeAt(sb, WriteDisk(sb, im, nblocks), x);
    FieldBack(sb, ninodes, im, nblocks, x, 2);
    forall k: nat | k < 13
      ensures got.addrs[k] == im.ino[x].addrs[k]
    {
      FieldBack(sb, ninodes, im, nblocks, x, k + 3);
      assert got.addrs[k] == Word(blk, o + (k + 3));
    }
    assert got.addrs == im.ino[x].addrs;
  }

  lemma FieldBack(sb: Super, ninodes: nat, im: OnDisk, nblocks: nat, x: nat, f: nat)
    requires Regions(sb, ninodes, nblocks) && Writable32(sb, ninodes, im) && x < ninodes && 2 <= f < 16
    ensures Word(BlockAt(WriteDisk(sb, im, nblocks), sb.inodestart + x / IPB), 16 * (x % IPB) + f) ==
            InodeWord(im.ino[x], f)
  {
    hide WordAt, Word, WriteDisk;
    assert x / IPB < Blocks(ninodes, IPB);
    InodeField(sb, im, x, f);
    WordBack(sb, im, nblocks, sb.inodestart + x / IPB, 16 * (x % IPB) + f);
    if f >= 3 {
      var k := f - 3;
      assert im.ino[x].addrs[k] < 0x1_0000_0000;
    }
  }

  lemma InodeField(sb: Super, im: OnDisk, x: nat, f: nat)
    requires f < 16 && x < |im.ino| && sb.inodestart + x / IPB < sb.bmapstart
    ensures 16 * (x % IPB) + f < 256
    ensures WordAt(sb, im, sb.inodestart + x / IPB, 16 * (x % IPB) + f) == InodeWord(im.ino[x], f)
  {
    assert (16 * (x % IPB) + f) / 16 == x % IPB && (16 * (x % IPB) + f) % 16 == f;
  }

  lemma EntryDigits(b: Block, w: nat)
    requires w < NINDIRECT
    ensures var v := Entry(b, w);
            && v < 0x1_0000_0000 && v % 0x100 == b[4 * w] && v / 0x100 % 0x100 == b[4 * w + 1]
            && v / 0x1_0000 % 0x100 == b[4 * w + 2] && v / 0x100_0000 % 0x100 == b[4 * w + 3]
  {
    Digits(b[4 * w], b[4 * w + 1], b[4 * w + 2], b[4 * w + 3]);
  }

  lemma ByteOfEntry(b: Block, w: nat, j: nat)
    requires w < NINDIRECT && j < 4
    ensures Entry(b, w) < 0x1_0000_0000 && Entry(b, w) / Pow(256, j) % 256 == b[4 * w + j]
  {
    EntryDigits(b, w);
    Powers();
    hide Pow, Entry;
    assert j == 0 || j == 1 || j == 2 || j == 3;
  }

  lemma Powers()
    ensures Pow(256, 0) == 1 && Pow(256, 1) == 0x100 && Pow(256, 2) == 0x1_0000 && Pow(256, 3) == 0x100_0000
  {
    assert Pow(256, 1) == 256 * Pow(256, 0);
    assert Pow(256, 2) == 256 * Pow(256, 1);
    assert Pow(256, 3) == 256 * Pow(256, 2);
  }

  lemma Digits(b0: byte, b1: byte, b2: byte, b3: byte)
    ensures var v := b0 + 0x100 * b1 + 0x1_0000 * b2 + 0x100_0000 * b3;
            && v < 0x1_0000_0000 && v % 0x100 == b0 && v / 0x100 % 0x100 == b1 && v / 0x1_0000 % 0x100 == b2
            && v / 0x100_0000 % 0x100 == b3
  {
    var v := b0 + 0x100 * b1 + 0x1_0000 * b2 + 0x100_0000 * b3;
    LastDigit(b0, b1 + 0x100 * b2 + 0x1_0000 * b3);
    LastDigit(b1, b2 + 0x100 * b3);
    LastDigit(b2, b3);
    assert v / 0x1_0000 == v / 0x100 / 0x100;
    assert v / 0x100_0000 == v / 0x1_0000 / 0x100;
  }

  lemma LastDigit(b: byte, rest: nat)
    ensures (b + 0x100 * rest) % 0x100 == b && (b + 0x100 * rest) / 0x100 == rest
  {
  }

  lemma DataWord(sb: Super, im: OnDisk, nblocks: nat, b: nat, w: nat)
    requires sb.bmapstart <= sb.nmeta <= b < |im.data| && b < nblocks && w < 256
    ensures Word(BlockAt(WriteDisk(sb, im, nblocks), b), w) == Entry(im.data[b], w) % 0x1_0000_0000
  {
    hide Entry;
    WordBack(sb, im, nblocks, b, w);
  }

  lemma ByteBack(sb: Super, im: OnDisk, nblocks: nat, b: nat, k: nat)
    requires sb.bmapstart <= sb.nmeta <= b < |im.data| && b < nblocks && k < 1024
    ensures ByteOf(BlockAt(WriteDisk(sb, im, nblocks), b), k) == im.data[b][k]
  {
    hide Word, WriteDisk, Entry, Pow, BlockAt;
    DataWord(sb, im, nblocks, b, k / 4);
    ByteOfEntry(im.data[b], k / 4, k % 4);
    assert 4 * (k / 4) + k % 4 == k;
  }

  lemma DataBack(sb: Super, ninodes: nat, im: OnDisk, nblocks: nat, b: nat)
    requires Regions(sb, ninodes, nblocks) && Writable32(sb, ninodes, im) && b < sb.size
    ensures DataAt(sb, WriteDisk(sb, im, nblocks), b) == im.data[b]
  {
    hide WriteDisk, ByteOf;
    if b >= sb.nmeta {
      var got := DataAt(sb, WriteDisk(sb, im, nblocks), b);
      forall k: nat | k < 1024
        ensures got[k] == im.data[b][k]
      {
        ByteBack(sb, im, nblocks, b, k);
      }
      assert got == im.data[b];
    }
  }

  lemma {:induction false} BitsBelow(used: seq<bool>, b: nat, n: nat)
    ensures BitsFrom(used, b, n) < Pow(2, n)
    decreases n
  {
    if n > 0 {
      BitsBelow(used, b + 1, n - 1);
    }
  }

  lemma BitsHalve(used: seq<bool>, b: nat, n: nat)
    requires n > 0
    ensures BitsFrom(used, b, n) % 2 == if b < |used| && used[b] then 1 else 0
    ensures BitsFrom(used, b, n) / 2 == BitsFrom(used, b + 1, n - 1)
  {
  }

  lemma {:induction false} BitBack(used: seq<bool>, b: nat, n: nat, j: nat)
    requires j < n
    ensures BitsFrom(used, b, n) / Pow(2, j) % 2 == if b + j < |used| && used[b + j] then 1 else 0
    decreases n
  {
    hide BitsFrom;
    BitsHalve(used, b, n);
    if j > 0 {
      BitBack(used, b + 1, n - 1, j - 1);
      Halve(BitsFrom(used, b, n), Pow(2, j - 1));
      assert Pow(2, j) == 2 * Pow(2, j - 1);
    }
  }

  lemma Halve(v: nat, p: nat)
    requires p > 0
    ensures v / (2 * p) == v / 2 / p
  {
    var q, r := v / 2 / p, v / 2 % p;
    assert v / 2 == q * p + r;
    assert v == 2 * (q * p + r) + v % 2;
    assert v == q * (2 * p) + (2 * r + v % 2);
    QuotientIs(v, 2 * p, q, 2 * r + v % 2);
  }

  lemma QuotientIs(v: nat, p: nat, q: nat, r: nat)
    requires p > 0 && v == q * p + r && r < p
    ensures v / p == q
  {
    var d := v / p - q;
    assert v == (v / p) * p + v % p;
    assert d * p == (v / p) * p - q * p;
    Multiple(d, p);
  }

  lemma Multiple(d: int, p: nat)
    ensures d >= 1 ==> d * p >= p
    ensures d <= -1 ==> d * p + p <= 0
  {
  }

  lemma MapBack(sb: Super, ninodes: nat, im: OnDisk, nblocks: nat, b: nat)
    requires Regions(sb, ninodes, nblocks) && Writable32(sb, ninodes, im) && b < sb.size
    ensures BitAt(sb, WriteDisk(sb, im, nblocks), b) == im.used[b]
  {
    hide BitsFrom, Pow, Word, BlockAt, WriteDisk;
    MapWord(sb, ninodes, im, nblocks, b);
    WhereBit(b);
    var from := BPB * (b / BPB) + 32 * (b % BPB / 32);
    BitBack(im.used, from, 32, b % 32);
    BitsBelow(im.used, from, 32);
    TwoTo32();
  }

  lemma WhereBit(b: nat)
    ensures BPB * (b / BPB) + 32 * (b % BPB / 32) + b % 32 == b
  {
    assert b == BPB * (b / BPB) + b % BPB;
    assert b % BPB == 32 * (b % BPB / 32) + b % BPB % 32;
    assert b % BPB % 32 == b % 32;
  }

  lemma MapWord(sb: Super, ninodes: nat, im: OnDisk, nblocks: nat, b: nat)
    requires Regions(sb, ninodes, nblocks) && b < sb.size
    ensures Word(BlockAt(WriteDisk(sb, im, nblocks), sb.bmapstart + b / BPB), b % BPB / 32) ==
            BitsFrom(im.used, BPB * (b / BPB) + 32 * (b % BPB / 32), 32) % 0x1_0000_0000
  {
    hide BitsFrom;
    assert b / BPB < Blocks(sb.size, BPB);
    WordBack(sb, im, nblocks, sb.bmapstart + b / BPB, b % BPB / 32);
  }

  lemma TwoTo32()
    ensures Pow(2, 32) == 0x1_0000_0000
  {
    assert Pow(2, 8) == 256;
    assert Pow(2, 16) == 256 * Pow(2, 8);
    assert Pow(2, 24) == 256 * Pow(2, 16);
  }

  /** Every image whose numbers fit 32 bits is on some disk. */
  lemma ReadBack(sb: Super, ninodes: nat, im: OnDisk, nblocks: nat)
    requires Regions(sb, ninodes, nblocks) && Writable32(sb, ninodes, im)
    ensures ReadDisk(sb, ninodes, WriteDisk(sb, im, nblocks)) == im
  {
    hide InodeAt, DataAt, BitAt, WriteDisk, Regions;
    var got := ReadDisk(sb, ninodes, WriteDisk(sb, im, nblocks));
    forall x: nat | x < ninodes
      ensures got.ino[x] == im.ino[x]
    {
      InodeBack(sb, ninodes, im, nblocks, x);
    }
    forall b: nat | b < sb.size
      ensures got.data[b] == im.data[b] && got.used[b] == im.used[b]
    {
      DataBack(sb, ninodes, im, nblocks, b);
      MapBack(sb, ninodes, im, nblocks, b);
    }
    assert got.ino == im.ino && got.data == im.data && got.used == im.used;
  }
}
