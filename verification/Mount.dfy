/** From an empty disk to a mounted file system: the run of mkfs/mkfs.c and fsinit of kernel/fs.c. */
module Mount {
  import opened FsLayout
  import opened FsSteps
  import opened FsCode
  import opened FsCalls
  import opened Mkfs

  /** One call of iappend: the file and the bytes. */
  datatype Append = Append(file: nat, bytes: seq<byte>)

  /** The bytes appended to file x, in order. */
  function Appended(todo: seq<Append>, x: nat): seq<byte> {
    if todo == [] then [] else
      var last := todo[|todo| - 1];
      Appended(todo[..|todo| - 1], x) + if last.file == x then last.bytes else []
  }

  /** Every file holds what has been appended to it. */
  ghost predicate Holds(ino: Inodes, data: Data, todo: seq<Append>) {
    forall x: nat :: x < |ino| ==> ino[x].size <= MAXFILE * BSIZE && Content(ino, data, x) == Appended(todo, x)
  }

  lemma FreshHolds(ino: Inodes, data: Data)
    requires forall x: nat :: x < |ino| ==> ino[x].size == 0
    ensures Holds(ino, data, [])
  {
  }

  lemma HoldsMore(ino0: Inodes, data0: Data, ino: Inodes, data: Data, todo: seq<Append>, k: nat)
    requires k < |todo| && todo[k].file < |ino| == |ino0| && Holds(ino0, data0, todo[..k]) && Sized(ino)
    requires Content(ino, data, todo[k].file) == Content(ino0, data0, todo[k].file) + todo[k].bytes
    requires forall x: nat :: x < |ino| && x != todo[k].file ==> Content(ino, data, x) == Content(ino0, data0, x)
    ensures Holds(ino, data, todo[..k + 1])
  {
    hide Content;
    assert todo[..k + 1][..k] == todo[..k];
  }

  lemma {:induction false} AppendedGrows(todo: seq<Append>, k: nat, x: nat)
    requires k <= |todo|
    ensures |Appended(todo[..k], x)| <= |Appended(todo, x)|
    decreases |todo|
  {
    if k < |todo| {
      AppendedGrows(todo[..|todo| - 1], k, x);
      assert todo[..|todo| - 1][..k] == todo[..k];
    } else {
      assert todo[..k] == todo;
    }
  }

  /** The blocks the first n files take once everything is appended. */
  function BlocksOf(todo: seq<Append>, n: nat): nat {
    if n == 0 then 0 else BlocksOf(todo, n - 1) + Need(|Appended(todo, n - 1)|)
  }

  /** No file gets too large, and all of them fit the image. */
  predicate Fits(todo: seq<Append>, ninodes: nat, nmeta: nat, size: nat) {
    && (forall x: nat :: x < ninodes ==> |Appended(todo, x)| <= MAXFILE * BSIZE)
    && nmeta + BlocksOf(todo, ninodes) <= size
  }

  lemma {:induction false} BlocksGrow(todo: seq<Append>, k: nat, n: nat)
    requires k <= |todo|
    ensures BlocksOf(todo[..k], n) <= BlocksOf(todo, n)
  {
    if n > 0 {
      BlocksGrow(todo, k, n - 1);
      AppendedGrows(todo, k, n - 1);
      NeedGrows(|Appended(todo[..k], n - 1)|, |Appended(todo, n - 1)|);
    }
  }

  /** What fits fits part-way. */
  lemma FitsBefore(todo: seq<Append>, k: nat, ninodes: nat, nmeta: nat, size: nat)
    requires k <= |todo| && Fits(todo, ninodes, nmeta, size)
    ensures Fits(todo[..k], ninodes, nmeta, size)
  {
    hide BlocksOf, Appended;
    BlocksGrow(todo, k, ninodes);
    forall x: nat | x < ninodes
      ensures |Appended(todo[..k], x)| <= MAXFILE * BSIZE
    {
      AppendedGrows(todo, k, x);
    }
  }

  /** Counting the blocks by inode or by what was appended is the same. */
  lemma {:induction false} BlocksAre(ino: Inodes, todo: seq<Append>, n: nat)
    requires n <= |ino| && forall x: nat :: x < n ==> ino[x].size == |Appended(todo, x)|
    ensures Blocks(ino[..n]) == BlocksOf(todo, n)
  {
    if n > 0 {
      assert ino[..n][..n - 1] == ino[..n - 1];
      BlocksAre(ino, todo, n - 1);
    }
  }

  lemma SizesAre(ino: Inodes, data: Data, todo: seq<Append>)
    requires Holds(ino, data, todo)
    ensures (forall x: nat :: x < |ino| ==> ino[x].size == |Appended(todo, x)|) && Blocks(ino) == BlocksOf(todo, |ino|)
  {
    hide Blocks, BlocksOf, Appended;
    forall x: nat | x < |ino|
      ensures ino[x].size == |Appended(todo, x)|
    {
      assert ino[x].size == |Content(ino, data, x)|;
    }
    BlocksAre(ino, todo, |ino|);
    assert ino[..|ino|] == ino;
  }

  /** The next append goes through exactly if what there is then fits. */
  lemma NextFits(ino: Inodes, data: Data, todo: seq<Append>, k: nat, nmeta: nat, size: nat)
    requires k < |todo| && todo[k].file < |ino| && Holds(ino, data, todo[..k])
    ensures var from, upto := ino[todo[k].file].size, ino[todo[k].file].size + |todo[k].bytes|;
            Fits(todo[..k + 1], |ino|, nmeta, size) <==>
            upto <= MAXFILE * BSIZE && nmeta + Blocks(ino) - Need(from) + Need(upto) <= size
  {
    hide Blocks, BlocksOf, Appended, Need, Fits, Sized, Holds;
    var i := todo[k].file;
    var ino' := ino[i := Inode(ino[i].size + |todo[k].bytes|, ino[i].addrs)];
    SizesNext(ino, data, todo, k, ino');
    BlocksAre(ino', todo[..k + 1], |ino|);
    assert ino'[..|ino|] == ino';
    BlocksUpdate(ino, i, ino'[i]);
    FitsBySizes(ino', todo[..k + 1], nmeta, size);
    SizedBut(ino, i, ino'[i]);
  }

  lemma SizedBut(ino: Inodes, i: nat, v: Inode)
    requires i < |ino| && Sized(ino)
    ensures Sized(ino[i := v]) <==> v.size <= MAXFILE * BSIZE
  {
    assert ino[i := v][i] == v;
  }

  lemma SizesNext(ino: Inodes, data: Data, todo: seq<Append>, k: nat, ino': Inodes)
    requires k < |todo| && todo[k].file < |ino| && Holds(ino, data, todo[..k])
    requires var i := todo[k].file; ino' == ino[i := Inode(ino[i].size + |todo[k].bytes|, ino[i].addrs)]
    ensures forall x: nat :: x < |ino'| ==> ino'[x].size == |Appended(todo[..k + 1], x)|
    ensures Sized(ino)
  {
    hide Appended, Content;
    forall x: nat | x < |ino'|
      ensures ino'[x].size == |Appended(todo[..k + 1], x)|
    {
      assert ino[x].size == |Content(ino, data, x)|;
      AppendedStep(todo, k, x);
    }
  }

  lemma FitsBySizes(ino: Inodes, todo: seq<Append>, nmeta: nat, size: nat)
    requires forall x: nat :: x < |ino| ==> ino[x].size == |Appended(todo, x)|
    ensures Fits(todo, |ino|, nmeta, size) <==> Sized(ino) && nmeta + BlocksOf(todo, |ino|) <= size
  {
    hide Appended, BlocksOf;
  }

  lemma AppendedStep(todo: seq<Append>, k: nat, x: nat)
    requires k < |todo|
    ensures Appended(todo[..k + 1], x) == Appended(todo[..k], x) + if todo[k].file == x then todo[k].bytes else []
  {
    assert todo[..k + 1][..k] == todo[..k];
  }

  /** All the calls of iappend; false where mkfs dies, which is exactly if they do not fit. */
  method Populate(img: Image, todo: seq<Append>) returns (ok: bool)
    requires img.Valid() && ExactAll(img.ino, img.data)
    requires forall x: nat :: x < |img.ino| ==> img.ino[x].size == 0
    requires img.freeblock == img.nmeta + Blocks(img.ino)
    requires forall k :: 0 <= k < |todo| ==> todo[k].file < |img.ino|
    modifies img
    ensures |img.data| == old(|img.data|)
    ensures ok <==> Fits(todo, old(|img.ino|), img.nmeta, |img.data|)
    ensures ok ==> img.Valid() && |img.ino| == old(|img.ino|) && Holds(img.ino, img.data, todo)
    ensures ok ==> ExactAll(img.ino, img.data) && img.freeblock == img.nmeta + BlocksOf(todo, |img.ino|)
  {
    hide Content, Owned, ExactFile, Blocks, BlocksOf, Need, Fits;
    FreshHolds(img.ino, img.data);
    FreshFits(img.ino, img.data, img.nmeta, img.freeblock, |img.data|);
    var k := 0;
    assert todo[..0] == [];
    while k < |todo|
      invariant k <= |todo| && img.Valid() && |img.ino| == old(|img.ino|) && |img.data| == old(|img.data|)
      invariant Holds(img.ino, img.data, todo[..k]) && ExactAll(img.ino, img.data)
      invariant img.freeblock == img.nmeta + Blocks(img.ino) && Fits(todo[..k], |img.ino|, img.nmeta, |img.data|)
    {
      ghost var ino0, data0 := img.ino, img.data;
      NextFits(ino0, data0, todo, k, img.nmeta, |img.data|);
      ok := img.Iappend(todo[k].file, todo[k].bytes);
      if !ok {
        if Fits(todo, old(|img.ino|), img.nmeta, |img.data|) {
          FitsBefore(todo, k + 1, |ino0|, img.nmeta, |img.data|);
        }
        return;
      }
      HoldsMore(ino0, data0, img.ino, img.data, todo, k);
      k := k + 1;
    }
    assert todo[..k] == todo;
    SizesAre(img.ino, img.data, todo);
    ok := true;
  }

  lemma FreshFits(ino: Inodes, data: Data, nmeta: nat, freeblock: nat, size: nat)
    requires Holds(ino, data, []) && freeblock == nmeta + Blocks(ino) <= size
    ensures Fits([], |ino|, nmeta, size)
  {
    hide Blocks, BlocksOf;
    SizesAre(ino, data, []);
  }

  lemma ExactIsMapped(ino: Inodes, data: Data, x: nat)
    requires x < |ino| && ExactFile(ino, data, x, ino[x].size)
    ensures Mapped(ino, data, x)
  {
    hide Slot;
  }

  /** A file of which nothing changed but that another inode's size was rounded. */
  lemma StillMapped(ino: Inodes, ino': Inodes, data: Data, x: nat)
    requires x < |ino| == |ino'| && ino'[x] == ino[x] && Mapped(ino, data, x)
    ensures Mapped(ino', data, x)
  {
  }

  lemma OthersMapped(ino: Inodes, ino': Inodes, data: Data, root: nat)
    requires |ino| == |ino'| && ExactAll(ino, data) && forall x: nat :: x < |ino| && x != root ==> ino'[x] == ino[x]
    ensures forall x: nat :: x < |ino| && x != root ==> Mapped(ino', data, x)
  {
    hide Mapped, ExactFile;
    forall x: nat | x < |ino| && x != root
      ensures Mapped(ino', data, x)
    {
      ExactIsMapped(ino, data, x);
      StillMapped(ino, ino', data, x);
    }
  }

  /** fsinit: the inodes, blocks and bitmap of a finished image as the kernel finds them. */
  method Fsinit(sb: Super, img: Image, used: seq<bool>) returns (fs: FileSystem)
    requires img.Valid() && sb.nmeta == img.nmeta && sb.size == |img.data| == |used| && Bits(used, img.owner, img.nmeta)
    ensures fresh(fs) && fs.Valid() && fs.sb == sb && fs.ino == fs.dino == img.ino && fs.data == img.data
    ensures fs.used == used
    ensures fs.outstanding == 0 && !fs.stray
  {
    hide Owned, Sized, Bits;
    ImageIsValid(sb, img.ino, img.data, used, img.owner, img.freeblock);
    fs := new FileSystem(sb, img.ino, img.data, used, img.owner);
  }

  /** When mkfs gets through: all fits, the root directory stays below the limit, and one bitmap block is enough. */
  predicate Makes(sb: Super, ninodes: nat, root: nat, todo: seq<Append>) {
    && Fits(todo, ninodes, sb.nmeta, sb.size) && |Appended(todo, root)| < MAXFILE * BSIZE
    && sb.nmeta + BlocksOf(todo, ninodes) < BPB
  }

  /**
    mkfs and then fsinit: exactly if all that is appended fits, the kernel starts on a valid file system that holds
    it; only the root directory can have a hole. A root directory at the maximal file size is no file system.
   */
  method MakeAndMount(sb: Super, ninodes: nat, root: nat, todo: seq<Append>) returns (fs: FileSystem?)
    requires 0 < sb.nmeta <= sb.size <= 0x1_0000_0000 && root < ninodes
    requires forall k :: 0 <= k < |todo| ==> todo[k].file < ninodes
    ensures fs != null <==> Makes(sb, ninodes, root, todo)
    ensures fs != null ==> fresh(fs) && fs.Valid() && fs.sb == sb && fs.dino == fs.ino && |fs.ino| == ninodes
    ensures fs != null ==> Steady(fs) && Behind(FsOf(fs)) == {} && Sound(sb, DiskOf(sb, FsOf(fs)))
    ensures fs != null ==> fs.outstanding == 0 && !fs.stray && Appended(todo, root) <= Content(fs.ino, fs.data, root)
    ensures fs != null ==> forall x: nat :: x < ninodes && x != root ==>
              Content(fs.ino, fs.data, x) == Appended(todo, x) && Mapped(fs.ino, fs.data, x)
    ensures fs != null ==> fs.ino[root].size == (|Appended(todo, root)| / BSIZE + 1) * BSIZE
    ensures fs != null ==> forall bn: nat :: bn < MAXFILE ==>
              (Slot(fs.ino, fs.data, root, SlotOf(bn)) != 0 <==> bn * BSIZE < |Appended(todo, root)|)
    ensures fs != null ==> forall b: nat :: b < sb.size ==> (fs.used[b] <==> b < sb.nmeta + BlocksOf(todo, ninodes))
  {
    hide Content, ImageOk, ExactFile, Mapped, Owned, Bits, Fits, BlocksOf, Blocks, Slot, GoodBy, Sound;
    var img := new Image(sb.nmeta, sb.size, ninodes);
    var ok := Populate(img, todo);
    if !ok {
      return null;
    }
    ghost var ino0, size0 := img.ino, img.ino[root].size;
    var full := img.ino[root].size >= MAXFILE * BSIZE;
    assert |Appended(todo, root)| == img.ino[root].size;
    RootSlots(img.ino, img.data, root);
    img.FixRoot(root);
    if full {
      return null;
    }
    OthersMapped(ino0, img.ino, img.data, root);
    RootSlotsStay(ino0, img.ino, img.data, root, size0);
    var used;
    ok, used := img.Balloc();
    if !ok {
      return null;
    }
    fs := Fsinit(sb, img, used);
    MountedIsSound(fs);
  }

  /** A mounted image is sound on disk, with nothing in memory ahead of it. */
  lemma MountedIsSound(fs: FileSystem)
    requires fs.Valid() && fs.dino == fs.ino
    ensures Steady(fs) && Behind(FsOf(fs)) == {} && Sound(fs.sb, DiskOf(fs.sb, FsOf(fs)))
  {
    hide Owned, Bits;
    assert Lags(fs.ino, fs.ino);
    SteadyIsGood(fs);
    WrittenIsSound(fs.sb, FsOf(fs));
  }

  /** Which blocks of the root directory are there. */
  ghost predicate SlotsBelow(ino: Inodes, data: Data, root: nat, size: nat) {
    root < |ino| && forall bn: nat :: bn < MAXFILE ==> (Slot(ino, data, root, SlotOf(bn)) != 0 <==> bn * BSIZE < size)
  }

  lemma RootSlots(ino: Inodes, data: Data, root: nat)
    requires root < |ino| && ExactAll(ino, data)
    ensures SlotsBelow(ino, data, root, ino[root].size)
  {
    hide Slot;
    assert ExactFile(ino, data, root, ino[root].size);
  }

  lemma RootSlotsStay(ino: Inodes, ino': Inodes, data: Data, root: nat, size: nat)
    requires SlotsBelow(ino, data, root, size) && |ino'| == |ino| && ino'[root].addrs == ino[root].addrs
    ensures SlotsBelow(ino', data, root, size)
  {
  }
}
