/**
  Sv39 page tables in physical memory (kernel/vm.c, kernel/riscv.h; section 4.4 of the RISC-V
  Privileged Architecture, version 20211203): what the hardware walk finds, and what a
  well-formed tree of table pages is.
 */
module PageTable {
  import opened Common

  const PGSIZE: nat := 4096
  /** MAXVA in pages: one bit less than the 39 bits of Sv39. */
  const MAXVPN: nat := 0x400_0000

  datatype Pte = Pte(ppn: nat, v: bool, r: bool, w: bool, x: bool, u: bool)
  {
    /** A valid entry with none of R, W, X points to the next table. */
    predicate Pointer() {
      v && !r && !w && !x
    }

    predicate Leaf() {
      v && (r || w || x)
    }
  }

  const Zero: Pte := Pte(0, false, false, false, false, false)

  /** A physical page in use: a table of 512 entries, or a page of bytes. */
  datatype Frame = Table(entries: seq<Pte>) | Data(bytes: seq<nat>)

  type Frames = map<nat, Frame>

  predicate IsTable(f: Frames, p: nat) {
    p in f && f[p].Table? && |f[p].entries| == 512
  }

  // ---------------------------------------------------------------- virtual page numbers

  /** PX(level, va), of the virtual page number va / PGSIZE. */
  function Px(l: nat, vpn: nat): (i: nat)
    requires l <= 2
    ensures i < 512
  {
    if l == 0 then vpn % 512 else if l == 1 then vpn / 512 % 512 else vpn / 0x4_0000 % 512
  }

  /** PX as riscv.h computes it from an address. */
  lemma PxOfAddress(va: nat)
    ensures Px(0, va / PGSIZE) == va / 0x1000 % 512
    ensures Px(1, va / PGSIZE) == va / 0x20_0000 % 512
    ensures Px(2, va / PGSIZE) == va / 0x4000_0000 % 512
  {
    assert va / 4096 / 512 == va / 0x20_0000;
    assert va / 4096 / 0x4_0000 == va / 0x4000_0000;
  }

  /** Below MAXVA only the lower half of the root table is used. */
  lemma PxTop(vpn: nat)
    requires vpn < MAXVPN
    ensures Px(2, vpn) < 256
  {
  }

  /** Every combination of indices with a lower-half first one is some page. */
  lemma PxSurjective(a: nat, b: nat, i: nat)
    requires a < 256 && b < 512 && i < 512
    ensures var vpn := a * 0x4_0000 + b * 512 + i;
            vpn < MAXVPN && Px(2, vpn) == a && Px(1, vpn) == b && Px(0, vpn) == i
  {
    var vpn := a * 0x4_0000 + b * 512 + i;
    assert vpn / 512 == a * 512 + b;
    assert vpn / 0x4_0000 == a;
  }

  /** The three indices determine the page. */
  lemma PxInjective(vpn: nat, other: nat)
    requires vpn < MAXVPN && other < MAXVPN
    requires Px(0, vpn) == Px(0, other) && Px(1, vpn) == Px(1, other) && Px(2, vpn) == Px(2, other)
    ensures vpn == other
  {
    assert vpn / 512 / 512 == vpn / 0x4_0000 && other / 512 / 512 == other / 0x4_0000;
  }

  // ---------------------------------------------------------------- the hardware walk

  /** Follow pointers from table p at level l down to the level-0 table for vpn. */
  function Descend(f: Frames, p: nat, l: nat, vpn: nat): Option<nat>
    requires l <= 2
    decreases l
  {
    if !IsTable(f, p) then None
    else if l == 0 then Some(p)
    else
      var e := f[p].entries[Px(l, vpn)];
      if e.v then Descend(f, e.ppn, l - 1, vpn) else None
  }

  /** The leaf entry for vpn, or an invalid one. */
  function Lookup(f: Frames, root: nat, vpn: nat): Pte {
    var d := Descend(f, root, 2, vpn);
    if d.Some? && IsTable(f, d.value) then f[d.value].entries[Px(0, vpn)] else Zero
  }

  /** The page map the tree denotes. */
  ghost function View(f: Frames, root: nat): map<nat, Pte> {
    map vpn: nat | vpn < MAXVPN && Lookup(f, root, vpn).v :: Lookup(f, root, vpn)
  }

  // ---------------------------------------------------------------- well-formed trees

  /** Where a table page sits: at the root, or below the entries with these indices. */
  datatype Pos = Top | Mid(a: nat) | Low(a: nat, b: nat)
  {
    function Level(): nat {
      if Top? then 2 else if Mid? then 1 else 0
    }

    function Child(i: nat): Pos
      requires !Low?
    {
      if Top? then Mid(i) else Low(a, i)
    }
  }

  type Shape = map<nat, Pos>

  /** The place of the table at level l on the way to vpn. */
  function Place(l: nat, vpn: nat): Pos
    requires l <= 2
  {
    if l == 2 then Top else if l == 1 then Mid(Px(2, vpn)) else Low(Px(2, vpn), Px(1, vpn))
  }

  /** Entry i of table p leads to table q, and q sits there. */
  ghost predicate LinksTo(f: Frames, pos: Shape, p: nat, i: nat, q: nat) {
    && p in pos && q in pos && IsTable(f, p) && !pos[p].Low? && i < (if pos[p].Top? then 256 else 512)
    && pos[q] == pos[p].Child(i)
    && f[p].entries[i].Pointer() && f[p].entries[i].ppn == q
  }

  ghost predicate EntryOk(f: Frames, pos: Shape, p: nat, i: nat)
    requires p in pos && IsTable(f, p) && i < 512
  {
    f[p].entries[i].v ==>
      if pos[p].Low? then f[p].entries[i].Leaf() else LinksTo(f, pos, p, i, f[p].entries[i].ppn)
  }

  ghost predicate EntriesOk(f: Frames, pos: Shape, p: nat)
    requires p in pos && IsTable(f, p)
  {
    forall i: nat :: i < 512 ==> EntryOk(f, pos, p, i)
  }

  ghost predicate HasParent(f: Frames, pos: Shape, q: nat) {
    exists p: nat, i: nat :: LinksTo(f, pos, p, i, q)
  }

  /** No two pages sit at the same place. */
  ghost predicate Apart(pos: Shape) {
    forall p, q :: p in pos && q in pos && pos[p] == pos[q] ==> p == q
  }

  /** The pages in pos form one three-level tree under root, each at its own place. */
  ghost predicate Tree(f: Frames, root: nat, pos: Shape) {
    && root in pos && pos[root] == Top
    && Apart(pos)
    && (forall p :: p in pos ==> IsTable(f, p) && EntriesOk(f, pos, p))
    && (forall q :: q in pos && q != root ==> HasParent(f, pos, q))
  }

  /** Page p is the table at level l on the way to vpn. */
  ghost predicate OnPath(pos: Shape, p: nat, l: nat, vpn: nat)
    requires l <= 2
  {
    p in pos && pos[p] == Place(l, vpn)
  }

  lemma {:induction false} DescendFinds(f: Frames, root: nat, pos: Shape, p: nat, l: nat, vpn: nat)
    requires Tree(f, root, pos) && l <= 2 && OnPath(pos, p, l, vpn)
    ensures Descend(f, p, l, vpn).Some? ==> OnPath(pos, Descend(f, p, l, vpn).value, 0, vpn)
    decreases l
  {
    hide Px;
    if l > 0 {
      var e := f[p].entries[Px(l, vpn)];
      assert EntryOk(f, pos, p, Px(l, vpn));
      if e.v {
        DescendFinds(f, root, pos, e.ppn, l - 1, vpn);
      }
    }
  }

  /** A table on the way to vpn is the one the entry for vpn in the table above leads to. */
  lemma ParentOf(f: Frames, root: nat, pos: Shape, q: nat, l: nat, vpn: nat) returns (p: nat)
    requires Tree(f, root, pos) && l < 2 && OnPath(pos, q, l, vpn)
    ensures OnPath(pos, p, l + 1, vpn) && IsTable(f, p)
    ensures f[p].entries[Px(l + 1, vpn)].Pointer() && f[p].entries[Px(l + 1, vpn)].ppn == q
  {
    hide Px;
    assert q != root;
    assert HasParent(f, pos, q);
    hide Tree, EntriesOk;
    var r: nat, i: nat :| LinksTo(f, pos, r, i, q);
    p := r;
  }

  lemma DescendReaches(f: Frames, root: nat, pos: Shape, q: nat, vpn: nat)
    requires Tree(f, root, pos) && OnPath(pos, q, 0, vpn)
    ensures Descend(f, root, 2, vpn) == Some(q)
  {
    hide Px;
    var p1 := ParentOf(f, root, pos, q, 0, vpn);
    var p2 := ParentOf(f, root, pos, p1, 1, vpn);
    assert p2 == root && IsTable(f, q);
    hide Tree;
    assert Descend(f, q, 0, vpn) == Some(q);
    assert Descend(f, p1, 1, vpn) == Descend(f, q, 0, vpn);
  }

  /** In a well-formed tree a page is mapped exactly by the entry of the level-0 table at its place. */
  lemma LookupIsEntry(f: Frames, root: nat, pos: Shape, vpn: nat)
    requires Tree(f, root, pos)
    ensures forall q :: OnPath(pos, q, 0, vpn) ==> IsTable(f, q) && Lookup(f, root, vpn) == f[q].entries[Px(0, vpn)]
    ensures (forall q :: !OnPath(pos, q, 0, vpn)) ==> Lookup(f, root, vpn) == Zero
  {
    assert OnPath(pos, root, 2, vpn);
    DescendFinds(f, root, pos, root, 2, vpn);
    forall q | OnPath(pos, q, 0, vpn)
      ensures IsTable(f, q) && Lookup(f, root, vpn) == f[q].entries[Px(0, vpn)]
    {
      DescendReaches(f, root, pos, q, vpn);
    }
  }

  // ---------------------------------------------------------------- changing a tree

  function SetEntry(f: Frames, p: nat, i: nat, e: Pte): Frames
    requires IsTable(f, p) && i < 512
  {
    f[p := Table(f[p].entries[i := e])]
  }

  /** Writing a leaf (or an invalid entry) into a level-0 table. */
  lemma SetLeafTree(f: Frames, root: nat, pos: Shape, p: nat, i: nat, e: Pte)
    requires Tree(f, root, pos) && p in pos && pos[p].Low? && i < 512
    requires e.v ==> e.Leaf()
    ensures Tree(SetEntry(f, p, i, e), root, pos)
  {
    var f' := SetEntry(f, p, i, e);
    forall q | q in pos ensures IsTable(f', q) && EntriesOk(f', pos, q) {
      assert EntriesOk(f, pos, q);
      forall j: nat | j < 512 ensures EntryOk(f', pos, q, j) {
        assert EntryOk(f, pos, q, j);
      }
    }
    forall q | q in pos && q != root ensures HasParent(f', pos, q) {
      var r: nat, j: nat :| LinksTo(f, pos, r, j, q);
      assert LinksTo(f', pos, r, j, q);
    }
  }

  lemma SetLeafLookup(f: Frames, root: nat, pos: Shape, p: nat, vpn: nat, e: Pte, other: nat)
    requires Tree(f, root, pos) && OnPath(pos, p, 0, vpn) && vpn < MAXVPN && other < MAXVPN
    requires Tree(SetEntry(f, p, Px(0, vpn), e), root, pos)
    ensures Lookup(SetEntry(f, p, Px(0, vpn), e), root, other) == if other == vpn then e else Lookup(f, root, other)
  {
    hide Lookup, Px;
    var f' := SetEntry(f, p, Px(0, vpn), e);
    LookupIsEntry(f, root, pos, other);
    LookupIsEntry(f', root, pos, other);
    hide Tree;
    if q :| OnPath(pos, q, 0, other) {
      if q == p && Px(0, other) == Px(0, vpn) {
        PxInjective(vpn, other);
      }
    }
  }

  /** ... changes exactly the one page it stands for. */
  lemma SetLeafView(f: Frames, root: nat, pos: Shape, p: nat, vpn: nat, e: Pte)
    requires Tree(f, root, pos) && OnPath(pos, p, 0, vpn) && vpn < MAXVPN
    requires e.v ==> e.Leaf()
    ensures Tree(SetEntry(f, p, Px(0, vpn), e), root, pos)
    ensures View(SetEntry(f, p, Px(0, vpn), e), root) ==
            if e.v then View(f, root)[vpn := e] else View(f, root) - {vpn}
  {
    hide Tree, Lookup, Px, View;
    TreeFacts(f, root, pos);
    var f' := SetEntry(f, p, Px(0, vpn), e);
    SetLeafTree(f, root, pos, p, Px(0, vpn), e);
    forall other: nat | other < MAXVPN
      ensures Lookup(f', root, other) == if other == vpn then e else Lookup(f, root, other)
    {
      SetLeafLookup(f, root, pos, p, vpn, e, other);
    }
    ViewSet(f, f', root, vpn, e);
  }

  lemma ViewSet(f: Frames, f': Frames, root: nat, vpn: nat, e: Pte)
    requires vpn < MAXVPN
    requires forall other: nat :: other < MAXVPN ==>
               Lookup(f', root, other) == if other == vpn then e else Lookup(f, root, other)
    ensures View(f', root) == if e.v then View(f, root)[vpn := e] else View(f, root) - {vpn}
  {
    hide Lookup;
  }

  lemma ViewSame(f: Frames, f': Frames, root: nat)
    requires forall vpn: nat :: vpn < MAXVPN ==> Agrees(Lookup(f, root, vpn), Lookup(f', root, vpn))
    ensures View(f', root) == View(f, root)
  {
    hide Lookup;
  }

  lemma TreeFacts(f: Frames, root: nat, pos: Shape)
    requires Tree(f, root, pos)
    ensures root in pos && pos[root] == Top && Apart(pos)
    ensures forall p :: p in pos ==> IsTable(f, p)
  {
  }

  function EmptyTable(): (t: Frame)
    ensures t.Table? && |t.entries| == 512 && forall i :: 0 <= i < 512 ==> t.entries[i] == Zero
  {
    Table(seq(512, _ => Zero))
  }

  function PointerTo(t: nat): Pte {
    Pte(t, true, false, false, false, false)
  }

  /** Table p with a pointer to the fresh, empty table t in its entry i. */
  function Hang(f: Frames, p: nat, i: nat, t: nat): Frames
    requires IsTable(f, p) && i < 512
  {
    SetEntry(f, p, i, PointerTo(t))[t := EmptyTable()]
  }

  ghost predicate CanHang(f: Frames, root: nat, pos: Shape, p: nat, i: nat, t: nat, pos': Shape) {
    && Tree(f, root, pos) && p in pos && !pos[p].Low? && i < (if pos[p].Top? then 256 else 512) && t !in f
    && IsTable(f, p) && !f[p].entries[i].v
    && pos' == pos[t := pos[p].Child(i)]
  }

  lemma HangEntries(f: Frames, root: nat, pos: Shape, p: nat, i: nat, t: nat, pos': Shape, q: nat)
    requires CanHang(f, root, pos, p, i, t, pos') && q in pos'
    ensures IsTable(Hang(f, p, i, t), q) && EntriesOk(Hang(f, p, i, t), pos', q)
  {
    var f' := Hang(f, p, i, t);
    assert t !in pos;
    if q != t {
      assert EntriesOk(f, pos, q);
      forall j: nat | j < 512 ensures EntryOk(f', pos', q, j) {
        assert EntryOk(f, pos, q, j);
      }
    }
  }

  /** A link that was there before still is. */
  lemma HangLink(f: Frames, pos: Shape, p: nat, i: nat, t: nat, r: nat, j: nat, q: nat)
    requires LinksTo(f, pos, r, j, q) && IsTable(f, p) && i < 512 && !f[p].entries[i].v && t !in f && t !in pos
    requires p in pos && !pos[p].Low?
    ensures LinksTo(Hang(f, p, i, t), pos[t := pos[p].Child(i)], r, j, q)
  {
  }

  lemma HangParent(f: Frames, root: nat, pos: Shape, p: nat, i: nat, t: nat, pos': Shape, q: nat)
    requires CanHang(f, root, pos, p, i, t, pos') && q in pos' && q != root
    ensures HasParent(Hang(f, p, i, t), pos', q)
  {
    hide EntriesOk, Apart, LinksTo, EmptyTable, PointerTo;
    assert t !in pos;
    if q == t {
      HangNew(f, root, pos, p, i, t, pos');
    } else {
      assert HasParent(f, pos, q);
      hide Tree;
      var r: nat, j: nat :| LinksTo(f, pos, r, j, q);
      HangLink(f, pos, p, i, t, r, j, q);
    }
  }

  lemma HangNew(f: Frames, root: nat, pos: Shape, p: nat, i: nat, t: nat, pos': Shape)
    requires CanHang(f, root, pos, p, i, t, pos')
    ensures LinksTo(Hang(f, p, i, t), pos', p, i, t)
  {
    hide EntriesOk, Apart, HasParent;
  }

  /** The place below an invalid entry is vacant. */
  lemma HangApart(f: Frames, root: nat, pos: Shape, p: nat, i: nat, q: nat)
    requires Tree(f, root, pos) && p in pos && !pos[p].Low? && i < 512 && !f[p].entries[i].v && q in pos
    ensures pos[q] != pos[p].Child(i)
  {
  }

  lemma HangPlaces(f: Frames, root: nat, pos: Shape, p: nat, i: nat, t: nat, pos': Shape)
    requires CanHang(f, root, pos, p, i, t, pos')
    ensures Apart(pos') && root in pos' && pos'[root] == Top
  {
    TreeFacts(f, root, pos);
    hide Tree;
    forall q | q in pos ensures pos[q] != pos'[t] {
      HangApart(f, root, pos, p, i, q);
    }
  }

  /** Hanging a fresh, empty table into an invalid entry keeps the tree ... */
  lemma HangTree(f: Frames, root: nat, pos: Shape, p: nat, i: nat, t: nat, pos': Shape)
    requires CanHang(f, root, pos, p, i, t, pos')
    ensures Tree(Hang(f, p, i, t), root, pos')
  {
    hide EntriesOk, HasParent, Hang, Apart;
    HangPlaces(f, root, pos, p, i, t, pos');
    forall q | q in pos' ensures IsTable(Hang(f, p, i, t), q) && EntriesOk(Hang(f, p, i, t), pos', q) {
      HangEntries(f, root, pos, p, i, t, pos', q);
    }
    forall q | q in pos' && q != root ensures HasParent(Hang(f, p, i, t), pos', q) {
      HangParent(f, root, pos, p, i, t, pos', q);
    }
  }

  /** Two entries that mean the same to the hardware. */
  predicate Agrees(e: Pte, e': Pte) {
    e.v == e'.v && (e.v ==> e == e')
  }

  lemma HangLookup(f: Frames, root: nat, pos: Shape, p: nat, i: nat, t: nat, pos': Shape, vpn: nat)
    requires CanHang(f, root, pos, p, i, t, pos')
    requires Tree(Hang(f, p, i, t), root, pos')
    ensures Agrees(Lookup(f, root, vpn), Lookup(Hang(f, p, i, t), root, vpn))
  {
    hide Lookup, Px, Tree;
    TreeFacts(f, root, pos);
    TreeFacts(Hang(f, p, i, t), root, pos');
    LookupIsEntry(f, root, pos, vpn);
    LookupIsEntry(Hang(f, p, i, t), root, pos', vpn);
    assert forall r :: OnPath(pos, r, 0, vpn) ==> OnPath(pos', r, 0, vpn);
    if q :| OnPath(pos', q, 0, vpn) {
      if q != t {
        assert OnPath(pos, q, 0, vpn);
      }
    }
  }

  /** ... and maps nothing new. */
  lemma HangView(f: Frames, root: nat, pos: Shape, p: nat, i: nat, t: nat, pos': Shape)
    requires CanHang(f, root, pos, p, i, t, pos')
    ensures Tree(Hang(f, p, i, t), root, pos')
    ensures View(Hang(f, p, i, t), root) == View(f, root)
  {
    hide Tree, Lookup, Hang, View, Agrees;
    HangTree(f, root, pos, p, i, t, pos');
    forall vpn: nat | vpn < MAXVPN
      ensures Agrees(Lookup(f, root, vpn), Lookup(Hang(f, p, i, t), root, vpn))
    {
      HangLookup(f, root, pos, p, i, t, pos', vpn);
    }
    ViewSame(f, Hang(f, p, i, t), root);
  }

  /** A tree depends only on its own pages. */
  lemma TreeFrame(f: Frames, f': Frames, root: nat, pos: Shape)
    requires Tree(f, root, pos)
    requires forall p :: p in pos ==> p in f' && f'[p] == f[p]
    ensures Tree(f', root, pos) && View(f', root) == View(f, root)
  {
    forall q | q in pos ensures IsTable(f', q) && EntriesOk(f', pos, q) {
      assert EntriesOk(f, pos, q);
      forall j: nat | j < 512 ensures EntryOk(f', pos, q, j) {
        assert EntryOk(f, pos, q, j);
      }
    }
    forall q | q in pos && q != root ensures HasParent(f', pos, q) {
      var r: nat, j: nat :| LinksTo(f, pos, r, j, q);
      assert LinksTo(f', pos, r, j, q);
    }
    forall vpn: nat | vpn < MAXVPN ensures Agrees(Lookup(f, root, vpn), Lookup(f', root, vpn)) {
      SameLookup(f, f', root, pos, vpn);
    }
    ViewSame(f, f', root);
  }

  lemma SameLookup(f: Frames, f': Frames, root: nat, pos: Shape, vpn: nat)
    requires Tree(f, root, pos) && Tree(f', root, pos)
    requires forall p :: p in pos ==> p in f' && f'[p] == f[p]
    ensures Lookup(f', root, vpn) == Lookup(f, root, vpn)
  {
    hide Lookup, Px, Tree;
    TreeFacts(f, root, pos);
    LookupIsEntry(f, root, pos, vpn);
    LookupIsEntry(f', root, pos, vpn);
    if q :| OnPath(pos, q, 0, vpn) {
    }
  }

  /** What a mapped page's entry looks like: a leaf, in the level-0 table at its place. */
  lemma MappedEntry(f: Frames, root: nat, pos: Shape, p: nat, vpn: nat)
    requires Tree(f, root, pos) && OnPath(pos, p, 0, vpn) && vpn < MAXVPN
    ensures IsTable(f, p)
    ensures vpn in View(f, root) <==> f[p].entries[Px(0, vpn)].v
    ensures vpn in View(f, root) ==> View(f, root)[vpn] == f[p].entries[Px(0, vpn)] && View(f, root)[vpn].Leaf()
  {
    LookupIsEntry(f, root, pos, vpn);
    assert EntryOk(f, pos, p, Px(0, vpn));
  }
}
