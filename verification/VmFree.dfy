/** Tearing an address space down (kernel/vm.c freewalk and uvmfree, kernel/proc.c proc_freepagetable). */
module VmFree {
  import opened PageTable
  import opened VmCode
  import opened VmGrow

  /** Place q is place a or below it. */
  predicate Under(a: Pos, q: Pos) {
    match a
    case Top => true
    case Mid(i) => !q.Top? && q.a == i
    case Low(_, _) => q == a
  }

  /** The tables at or below a place. */
  ghost function Sub(pos: Shape, a: Pos): set<nat> {
    set q | q in pos && Under(a, pos[q])
  }

  /** The tables strictly below place a, through an entry with index less than i. */
  ghost function SubBelow(pos: Shape, a: Pos, i: nat): set<nat> {
    set q | q in pos && q in Sub(pos, a) && pos[q] != a && Branch(a, pos[q]) < i
  }

  /** Through which entry of the table at a one reaches q. */
  function Branch(a: Pos, q: Pos): nat {
    if q.Top? then 0 else if a.Top? then q.a else if q.Low? then q.b else 0
  }

  /** No page is mapped any more. */
  ghost predicate NoLeaves(f: Frames, pos: Shape) {
    forall p :: p in pos && pos[p].Low? && IsTable(f, p) ==> forall i :: 0 <= i < 512 ==> !f[p].entries[i].v
  }

  lemma SubChild(pos: Shape, a: Pos, i: nat)
    requires !a.Low?
    ensures SubBelow(pos, a, i + 1) == SubBelow(pos, a, i) + Sub(pos, a.Child(i))
    ensures Sub(pos, a.Child(i)) !! SubBelow(pos, a, i)
  {
  }

  /** Every place in a tree is reached through entries 0 to 511. */
  lemma BranchBound(f: Frames, root: nat, pos: Shape, q: nat)
    requires Tree(f, root, pos) && q in pos
    ensures pos[q].Mid? ==> pos[q].a < 256
    ensures pos[q].Low? ==> pos[q].a < 256 && pos[q].b < 512
    ensures pos[q].Low? ==> exists r :: r in pos && pos[r] == Mid(pos[q].a)
    ensures pos[q].Top? ==> q == root
  {
    hide EntriesOk;
    if q != root {
      assert HasParent(f, pos, q);
      var r: nat, i: nat :| LinksTo(f, pos, r, i, q);
      if pos[q].Low? {
        assert pos[r] == Mid(pos[q].a) && r != root;
        assert HasParent(f, pos, r);
        var r2: nat, i2: nat :| LinksTo(f, pos, r2, i2, r);
      }
    }
  }

  /** Below an invalid entry there is no table. */
  lemma SubEmpty(f: Frames, root: nat, pos: Shape, p: nat, i: nat)
    requires Tree(f, root, pos) && p in pos && !pos[p].Low? && i < 512 && IsTable(f, p) && !f[p].entries[i].v
    ensures Sub(pos, pos[p].Child(i)) == {}
  {
    forall q | q in pos ensures !Under(pos[p].Child(i), pos[q]) {
      HangApart(f, root, pos, p, i, q);
      BranchBound(f, root, pos, q);
      if pos[q].Low? && pos[p].Top? && pos[q].a == i {
        var r :| r in pos && pos[r] == Mid(pos[q].a);
        HangApart(f, root, pos, p, i, r);
      }
    }
  }

  /** After all 512 entries only the table itself is left. */
  lemma SubAll(f: Frames, root: nat, pos: Shape, p: nat)
    requires Tree(f, root, pos) && p in pos
    ensures !pos[p].Low? ==> SubBelow(pos, pos[p], 512) == Sub(pos, pos[p]) - {p}
    ensures pos[p].Low? ==> Sub(pos, pos[p]) == {p}
    ensures p in Sub(pos, pos[p])
    ensures SubBelow(pos, pos[p], 0) == {} && p !in SubBelow(pos, pos[p], 512)
  {
    TreeFacts(f, root, pos);
    forall q | q in pos ensures pos[q].Mid? ==> pos[q].a < 512
      ensures pos[q].Low? ==> pos[q].a < 512 && pos[q].b < 512
    {
      BranchBound(f, root, pos, q);
    }
  }

  /** freewalk: give back the tables at and below p, all of whose leaves are gone. */
  method FreeWalk(mem: Memory, p: nat, ghost f0: Frames, ghost root: nat, ghost pos: Shape)
    requires mem.Valid() && Tree(f0, root, pos) && NoLeaves(f0, pos) && p in pos
    requires forall q :: q in Sub(pos, pos[p]) ==> q in f0 && q in mem.frames && mem.frames[q] == f0[q]
    modifies mem
    ensures mem.Valid() && mem.frames == old(mem.frames) - Sub(pos, pos[p])
    ensures Pages(mem.free) == Pages(old(mem.free)) + Sub(pos, pos[p])
    decreases pos[p].Level()
  {
    hide Tree, Sub, SubBelow, Pages;
    TreeFacts(f0, root, pos);
    SubAll(f0, root, pos, p);
    ghost var gone: set<nat> := {};
    var i := 0;
    while i < 512
      invariant 0 <= i <= 512 && mem.Valid()
      invariant gone == if pos[p].Low? then {} else SubBelow(pos, pos[p], i)
      invariant Freeing(old(mem.frames), mem.frames, gone, p, i)
      invariant Pages(mem.free) == Pages(old(mem.free)) + gone
      decreases 512 - i
    {
      var pte := mem.frames[p].entries[i];
      assert pte == f0[p].entries[i];
      if pte.v {
        ghost var fr := mem.frames;
        ChildOf(f0, root, pos, p, i);
        assert pte.Pointer(); // else freewalk panics: leaf
        ghost var sub := Sub(pos, pos[pte.ppn]);
        SubChild(pos, pos[p], i);
        SubInside(pos, p, i, gone);
        ChildIntact(old(mem.frames), mem.frames, gone, p, i, sub, pos, f0);
        FreeWalk(mem, pte.ppn, f0, root, pos);
        FreedChild(old(mem.frames), fr, gone, p, i, sub);
        gone := gone + sub;
        mem.frames := SetEntry(mem.frames, p, i, Zero);
      } else if !pos[p].Low? {
        SubChild(pos, pos[p], i);
        SubEmpty(f0, root, pos, p, i);
      }
      i := i + 1;
    }
    Finished(old(mem.frames), mem.frames, gone, p, Sub(pos, pos[p]));
    mem.Kfree(p);
    PagesPlus(p, old(mem.free), gone, Sub(pos, pos[p]), mem.free);
  }

  /** Half-way through freewalk at p: the tables in gone are freed, p's first i entries dealt with. */
  ghost predicate Freeing(f0: Frames, f: Frames, gone: set<nat>, p: nat, i: nat) {
    && p in f0 && p !in gone && IsTable(f0, p) && IsTable(f, p) && i <= 512
    && f.Keys == f0.Keys - gone
    && (forall q :: q in f && q != p ==> f[q] == f0[q])
    && (forall j :: i <= j < 512 ==> f[p].entries[j] == f0[p].entries[j])
  }

  lemma ChildOf(f: Frames, root: nat, pos: Shape, p: nat, i: nat)
    requires Tree(f, root, pos) && NoLeaves(f, pos) && p in pos && i < 512 && IsTable(f, p) && f[p].entries[i].v
    ensures !pos[p].Low? && f[p].entries[i].ppn in pos && pos[f[p].entries[i].ppn] == pos[p].Child(i)
    ensures f[p].entries[i].Pointer()
  {
    assert EntryOk(f, pos, p, i);
  }

  lemma SubInside(pos: Shape, p: nat, i: nat, gone: set<nat>)
    requires p in pos && !pos[p].Low? && gone == SubBelow(pos, pos[p], i)
    ensures Sub(pos, pos[p].Child(i)) <= Sub(pos, pos[p]) && p !in Sub(pos, pos[p].Child(i))
    ensures Sub(pos, pos[p].Child(i)) !! gone
  {
  }

  lemma ChildIntact(f1: Frames, f: Frames, gone: set<nat>, p: nat, i: nat, sub: set<nat>, pos: Shape, f0: Frames)
    requires Freeing(f1, f, gone, p, i) && sub !! gone && p !in sub
    requires forall q :: q in sub ==> q in f0 && q in f1 && f1[q] == f0[q]
    ensures forall q :: q in sub ==> q in f0 && q in f && f[q] == f0[q]
  {
  }

  lemma FreedChild(f1: Frames, f: Frames, gone: set<nat>, p: nat, i: nat, sub: set<nat>)
    requires Freeing(f1, f, gone, p, i) && p !in sub && i < 512
    ensures IsTable(f - sub, p) && Freeing(f1, SetEntry(f - sub, p, i, Zero), gone + sub, p, i + 1)
  {
  }

  lemma Finished(f1: Frames, f: Frames, gone: set<nat>, p: nat, all: set<nat>)
    requires Freeing(f1, f, gone, p, 512) && gone == all - {p} && p in all
    ensures f - {p} == f1 - all
  {
  }

  lemma PagesPlus(p: nat, free0: seq<nat>, gone: set<nat>, all: set<nat>, free: seq<nat>)
    requires |free| > 0 && free[0] == p && Pages(free[1..]) == Pages(free0) + gone && gone == all - {p} && p in all
    ensures Pages(free) == Pages(free0) + all
  {
    assert free == [p] + free[1..];
    assert Pages(free) == Pages(free[1..]) + {p};
  }

  /** An empty page map means no leaf entry is left in any table. */
  lemma EmptyMeansNoLeaves(f: Frames, root: nat, pos: Shape)
    requires Tree(f, root, pos) && View(f, root) == map[]
    ensures NoLeaves(f, pos)
  {
    forall p, i | p in pos && pos[p].Low? && IsTable(f, p) && 0 <= i < 512 ensures !f[p].entries[i].v {
      NoLeafAt(f, root, pos, p, i);
    }
  }

  lemma NoLeafAt(f: Frames, root: nat, pos: Shape, p: nat, i: nat)
    requires Tree(f, root, pos) && View(f, root) == map[] && p in pos && pos[p].Low? && i < 512 && IsTable(f, p)
    ensures !f[p].entries[i].v
  {
    hide Tree, View, Px;
    BranchBound(f, root, pos, p);
    var a, b := pos[p].a, pos[p].b;
    PxSurjective(a, b, i);
    var vpn := a * 0x4_0000 + b * 512 + i;
    assert OnPath(pos, p, 0, vpn);
    MappedEntry(f, root, pos, p, vpn);
  }

  /** TRAMPOLINE and TRAPFRAME, in pages. */
  const TRAMPOLINE: nat := MAXVPN - 1
  const TRAPFRAME: nat := MAXVPN - 2

  /** The page map of a process: its memory, its trapframe and the trampoline, nothing else. */
  ghost predicate ProcMap(f: Frames, m: map<nat, Pte>, n: nat) {
    && n <= TRAPFRAME
    && m.Keys == Range(0, n) + {TRAPFRAME, TRAMPOLINE}
    && OwnsRange(f, m, 0, n)
  }

  /**
    proc_freepagetable (with uvmfree): no panic, and every data page and every table page of the
    process, and no other, goes back to the free list.
   */
  method ProcFreePagetable(mem: Memory, root: nat, sz: nat, ghost pos: Shape)
    requires mem.Valid() && Tree(mem.frames, root, pos)
    requires ProcMap(mem.frames, View(mem.frames, root), PagesFor(sz))
    modifies mem
    ensures mem.Valid()
    ensures var data := RangePages(old(View(mem.frames, root)), 0, PagesFor(sz));
            && data !! pos.Keys
            && mem.frames == old(mem.frames) - (data + pos.Keys)
            && Pages(mem.free) == Pages(old(mem.free)) + data + pos.Keys
  {
    hide Tree, View, Gave, OwnsRange, RangePages, Pages, ProcMap, Range;
    ghost var f0, free0, m, n := mem.frames, mem.free, View(mem.frames, root), PagesFor(sz);
    TopPages(f0, m, n);
    mem.UnmapPages(root, TRAMPOLINE, 1, false, pos);
    ghost var fa, freea := mem.frames, mem.free;
    mem.UnmapPages(root, TRAPFRAME, 1, false, pos);
    ghost var f1, free1 := mem.frames, mem.free;
    GaveTwice(f0, free0, fa, freea, f1, free1, pos);
    TreeFacts(f0, root, pos);
    UserMap(f0, f1, free0, free1, m, n, pos);
    UvmFree(mem, root, sz, pos);
    GaveThenAll(f0, free0, f1, free1, pos, RangePages(m, 0, n), mem.frames, mem.free);
  }

  /** uvmfree: the pages of an address space that maps its memory and nothing else go back, and its tables. */
  method UvmFree(mem: Memory, root: nat, sz: nat, ghost pos: Shape)
    requires mem.Valid() && Tree(mem.frames, root, pos) && PagesFor(sz) <= MAXVPN
    requires View(mem.frames, root).Keys == Range(0, PagesFor(sz))
    requires OwnsRange(mem.frames, View(mem.frames, root), 0, PagesFor(sz))
    modifies mem
    ensures mem.Valid()
    ensures var data := RangePages(old(View(mem.frames, root)), 0, PagesFor(sz));
            && data !! pos.Keys
            && mem.frames == old(mem.frames) - (data + pos.Keys)
            && Pages(mem.free) == Pages(old(mem.free)) + data + pos.Keys
  {
    hide Tree, View, Gave, OwnsRange, RangePages, Pages, Sub, NoLeaves, Range;
    ghost var f1, free1, m, n := mem.frames, mem.free, View(mem.frames, root), PagesFor(sz);
    ghost var data := RangePages(m, 0, n);
    TreeFacts(f1, root, pos);
    if sz > 0 {
      mem.UnmapPages(root, 0, PagesFor(sz), true, pos);
    } else {
      NoUser(f1, free1, m, pos);
    }
    ghost var f2, free2 := mem.frames, mem.free;
    assert View(f2, root) == map[];
    UserGone(f1, free1, m, n, pos, f2, free2, data);
    EmptyMeansNoLeaves(f2, root, pos);
    TreeFacts(f2, root, pos);
    SubOfRoot(pos, root);
    FreeWalk(mem, root, f2, root, pos);
    AllGone(f1, f2, pos, data, mem.frames);
  }

  lemma GaveThenAll(f0: Frames, free0: seq<nat>, f1: Frames, free1: seq<nat>, pos: Shape, data: set<nat>, f: Frames,
                    free: seq<nat>)
    requires Gave(f0, free0, pos, f1, free1, {}, 0)
    requires f == f1 - (data + pos.Keys) && Pages(free) == Pages(free1) + data + pos.Keys
    ensures f == f0 - (data + pos.Keys) && Pages(free) == Pages(free0) + data + pos.Keys
  {
  }

  /** The trapframe and the trampoline are mapped, above the process's memory. */
  lemma TopPages(f: Frames, m: map<nat, Pte>, n: nat)
    requires ProcMap(f, m, n)
    ensures Range(TRAMPOLINE, 1) <= m.Keys && Range(TRAPFRAME, 1) <= (m - Range(TRAMPOLINE, 1)).Keys
    ensures n <= TRAPFRAME
  {
    RangeIs(TRAMPOLINE, 1);
    RangeIs(TRAPFRAME, 1);
  }

  lemma GaveTwice(f0: Frames, free0: seq<nat>, fa: Frames, freea: seq<nat>, f1: Frames, free1: seq<nat>, pos: Shape)
    requires Gave(f0, free0, pos, fa, freea, {}, 0) && Gave(fa, freea, pos, f1, free1, {}, 0)
    ensures Gave(f0, free0, pos, f1, free1, {}, 0)
  {
  }

  /** Without them the page map is the process's memory, still on pages of its own. */
  lemma UserMap(f0: Frames, f1: Frames, free0: seq<nat>, free1: seq<nat>, m: map<nat, Pte>, n: nat, pos: Shape)
    requires ProcMap(f0, m, n) && Gave(f0, free0, pos, f1, free1, {}, 0) && forall p :: p in pos ==> IsTable(f0, p)
    ensures var user := m - Range(TRAMPOLINE, 1) - Range(TRAPFRAME, 1);
            && n <= MAXVPN && user.Keys == Range(0, n) && OwnsRange(f1, user, 0, n)
            && RangePages(user, 0, n) == RangePages(m, 0, n)
            && user - Range(0, n) == map[]
  {
    RangeIs(TRAMPOLINE, 1);
    RangeIs(TRAPFRAME, 1);
    RangeIs(0, n);
  }

  lemma NoUser(f1: Frames, free1: seq<nat>, m: map<nat, Pte>, pos: Shape)
    ensures Range(0, 0) == {} && RangePages(m, 0, 0) == {} && Gave(f1, free1, pos, f1, free1, {}, 0)
  {
    RangeNone(m, 0);
  }

  /** The data pages are neither tables nor still in use. */
  lemma UserGone(f1: Frames, free1: seq<nat>, m: map<nat, Pte>, n: nat, pos: Shape, f2: Frames, free2: seq<nat>,
                 data: set<nat>)
    requires OwnsRange(f1, m, 0, n) && data == RangePages(m, 0, n) && forall p :: p in pos ==> IsTable(f1, p)
    requires Gave(f1, free1, pos, f2, free2, data, n)
    ensures data !! pos.Keys
    ensures f2.Keys == f1.Keys - data && Pages(free2) == Pages(free1) + data
    ensures forall p :: p in f2 && p !in pos ==> f2[p] == f1[p]
  {
    forall x | x in m && 0 <= x < n ensures m[x].ppn !in pos {
      assert IsData(f1, m[x].ppn);
    }
  }

  lemma SubOfRoot(pos: Shape, root: nat)
    requires root in pos && pos[root] == Top
    ensures Sub(pos, pos[root]) == pos.Keys
  {
  }

  lemma AllGone(f0: Frames, f2: Frames, pos: Shape, data: set<nat>, f: Frames)
    requires f2.Keys == f0.Keys - data && f == f2 - pos.Keys
    requires forall p :: p in f2 && p !in pos ==> f2[p] == f0[p]
    ensures f == f0 - (data + pos.Keys)
  {
  }
}
