/** The page table of a new process (kernel/vm.c uvmcreate, kernel/proc.c proc_pagetable). */
module VmProc {
  import opened Common
  import opened PageTable
  import opened VmCode
  import opened VmGrow
  import opened VmFree

  /** A table page alone is a tree that maps nothing. */
  lemma LoneTree(f: Frames, root: nat)
    requires root in f && f[root] == EmptyTable()
    ensures Tree(f, root, map[root := Top]) && View(f, root) == map[]
  {
    var pos := map[root := Top];
    forall vpn: nat | vpn < MAXVPN
      ensures !Lookup(f, root, vpn).v
    {
      LookupIsEntry(f, root, pos, vpn);
    }
  }

  /** uvmcreate: an empty page table, unless there is no page. */
  method UvmCreate(mem: Memory) returns (r: Option<nat>)
    requires mem.Valid()
    modifies mem
    ensures mem.Valid() && (r.None? <==> old(mem.free) == [])
    ensures (r.None? ==> mem.frames == old(mem.frames) && mem.free == old(mem.free))
    ensures r.Some? ==> Tree(mem.frames, r.value, map[r.value := Top]) && View(mem.frames, r.value) == map[]
    ensures r.Some? ==> old(mem.free) == [r.value] + mem.free && r.value !in old(mem.frames)
    ensures r.Some? ==> mem.frames == old(mem.frames)[r.value := EmptyTable()]
  {
    hide Tree, View;
    r := mem.Kalloc();
    if r.Some? {
      mem.frames := mem.frames[r.value := EmptyTable()];
      LoneTree(mem.frames, r.value);
    }
  }

  /** Since (f0, free0) exactly the tables in pos were taken, all from the free list. */
  ghost predicate Built(f0: Frames, free0: seq<nat>, pos: Shape, f: Frames, free: seq<nat>) {
    && f0.Keys !! pos.Keys && f.Keys == f0.Keys + pos.Keys && (forall p :: p in f0 ==> f[p] == f0[p])
    && Pages(free0) == Pages(free) + pos.Keys
  }

  lemma BuiltMore(f0: Frames, free0: seq<nat>, pos: Shape, f: Frames, free: seq<nat>, pos': Shape, f': Frames,
                  free': seq<nat>)
    requires Built(f0, free0, pos, f, free) && Took(f, free, pos, f', free', pos')
    ensures Built(f0, free0, pos', f', free')
  {
    assert pos'.Keys == pos.Keys + (pos'.Keys - pos.Keys);
  }

  lemma BuiltFirst(f0: Frames, free0: seq<nat>, root: nat, f: Frames, free: seq<nat>)
    requires root !in f0 && f == f0[root := EmptyTable()] && free0 == [root] + free
    ensures Built(f0, free0, map[root := Top], f, free)
  {
    assert Pages(free0) == Pages(free) + {root};
  }

  /** Forgetting mappings in the tables changes nothing outside them. */
  lemma BuiltGave(f0: Frames, free0: seq<nat>, pos: Shape, f: Frames, free: seq<nat>, f': Frames, free': seq<nat>)
    requires Built(f0, free0, pos, f, free) && Gave(f, free, pos, f', free', {}, 0)
    ensures Built(f0, free0, pos, f', free')
  {
  }

  /** Giving the tables back leaves everything as it was. */
  lemma BuiltUndone(f0: Frames, free0: seq<nat>, pos: Shape, f: Frames, free: seq<nat>, f': Frames, free': seq<nat>)
    requires Built(f0, free0, pos, f, free) && f' == f - ({} + pos.Keys) && Pages(free') == Pages(free) + {} + pos.Keys
    ensures f' == f0 && Pages(free') == Pages(free0)
  {
  }

  /** TRAPFRAME and TRAMPOLINE share their level-0 table. */
  lemma SameTable(pos: Shape)
    requires HasTable(pos, TRAMPOLINE)
    ensures Tabled(pos, TRAPFRAME, 1)
  {
    var q :| OnPath(pos, q, 0, TRAMPOLINE);
    assert OnPath(pos, q, 0, TRAPFRAME);
  }

  lemma ThreeOf(s: seq<nat>, a: nat, b: nat, c: nat)
    requires a in s && b in s && c in s && a != b && a != c && b != c
    ensures |s| >= 3
  {
    var i, j, k :| 0 <= i < |s| && 0 <= j < |s| && 0 <= k < |s| && s[i] == a && s[j] == b && s[k] == c;
  }

  lemma BuiltFrom(f0: Frames, free0: seq<nat>, pos: Shape, f: Frames, free: seq<nat>, p: nat)
    requires Built(f0, free0, pos, f, free) && p in pos
    ensures p in free0
  {
    assert p in Pages(free0);
  }

  /** A page table with a page mapped has three tables at least. */
  lemma ThreeTables(f0: Frames, free0: seq<nat>, f: Frames, root: nat, pos: Shape, vpn: nat, free: seq<nat>)
    requires Tree(f, root, pos) && vpn in View(f, root) && Built(f0, free0, pos, f, free)
    ensures |free0| >= 3
  {
    hide Tree, View, Px, Built;
    MappedHasTable(f, root, pos, vpn);
    TreeFacts(f, root, pos);
    var q :| OnPath(pos, q, 0, vpn);
    var p := ParentOf(f, root, pos, q, 0, vpn);
    BuiltFrom(f0, free0, pos, f, free, q);
    BuiltFrom(f0, free0, pos, f, free, p);
    BuiltFrom(f0, free0, pos, f, free, root);
    ThreeOf(free0, q, p, root);
  }

  /** Once the trampoline is mapped the trapframe needs no page: the second rollback is never taken. */
  lemma TrapframeFits(f: Frames, root: nat, pos: Shape)
    requires Tree(f, root, pos) && TRAMPOLINE in View(f, root)
    ensures Tabled(pos, TRAPFRAME, 1)
  {
    MappedHasTable(f, root, pos, TRAMPOLINE);
    SameTable(pos);
  }

  /** Under a root alone a page needs two tables. */
  lemma FreshCost(root: nat, vpn: nat)
    ensures Cost(map[root := Top], Paths(vpn, 1)) == 2
  {
    OnePath(vpn);
    var pos := map[root := Top];
    assert pos[root] == Top && Top in Places(pos);
    assert Places(pos) == {Top};
    assert Path(vpn) - {Top} == Path(vpn);
  }

  lemma NothingMapped(f: Frames, root: nat)
    requires View(f, root) == map[]
    ensures View(f, root).Keys == Range(0, PagesFor(0)) && OwnsRange(f, View(f, root), 0, PagesFor(0))
    ensures RangePages(View(f, root), 0, PagesFor(0)) == {}
  {
    hide View;
    RangeNone(View(f, root), 0);
  }

  const RX: Pte := Zero.(r := true, x := true)
  const RW: Pte := Zero.(r := true, w := true)

  /** The two pages above a new process's memory. */
  ghost function TopMap(trampoline: nat, trapframe: nat): map<nat, Pte> {
    map[TRAMPOLINE := RX.(v := true, ppn := trampoline), TRAPFRAME := RW.(v := true, ppn := trapframe)]
  }

  lemma TopMapIsProcMap(f: Frames, trampoline: nat, trapframe: nat)
    ensures ProcMap(f, TopMap(trampoline, trapframe), 0)
  {
  }

  lemma OneOf(m: map<nat, Pte>, vpn: nat)
    requires m.Keys == {vpn}
    ensures Range(vpn, 1) <= m.Keys && m - Range(vpn, 1) == map[]
  {
    RangeIs(vpn, 1);
  }

  /** The rollback of proc_pagetable: an empty address space is freed. */
  method FreeEmpty(mem: Memory, root: nat, ghost pos: Shape, ghost f0: Frames, ghost free0: seq<nat>)
    requires mem.Valid() && Tree(mem.frames, root, pos) && View(mem.frames, root) == map[]
    requires Built(f0, free0, pos, mem.frames, mem.free)
    modifies mem
    ensures mem.Valid() && mem.frames == f0 && Pages(mem.free) == Pages(free0)
  {
    hide Tree, View, Built, Pages, Range, OwnsRange, RangePages;
    NothingMapped(mem.frames, root);
    ghost var f, free := mem.frames, mem.free;
    UvmFree(mem, root, 0, pos);
    BuiltUndone(f0, free0, pos, f, free, mem.frames, mem.free);
  }

  /**
    proc_pagetable: trampoline and trapframe mapped, no user memory.  Out of memory, which is with fewer than three
    pages left, every page taken is back on the free list.
   */
  method ProcPagetable(mem: Memory, trampoline: nat, trapframe: nat) returns (r: Option<nat>, ghost pos: Shape)
    requires mem.Valid()
    modifies mem
    ensures mem.Valid() && (r.None? <==> |old(mem.free)| < 3)
    ensures r.None? ==> mem.frames == old(mem.frames) && Pages(mem.free) == Pages(old(mem.free))
    ensures r.Some? ==> Tree(mem.frames, r.value, pos) && View(mem.frames, r.value) == TopMap(trampoline, trapframe)
    ensures r.Some? ==> ProcMap(mem.frames, View(mem.frames, r.value), 0)
    ensures r.Some? ==> Built(old(mem.frames), old(mem.free), pos, mem.frames, mem.free)
  {
    hide Tree, View, Built, Pages, Range, Took, ProcMap, MapRange, Gave, HasTable, Tabled, Cost, Paid, Paths;
    ghost var f0, free0, k := mem.frames, mem.free, 0;
    r := UvmCreate(mem);
    if r.None? {
      return r, map[];
    }
    var root := r.value;
    pos := map[root := Top];
    BuiltFirst(f0, free0, root, mem.frames, mem.free);
    ghost var f1, free1, pos1 := mem.frames, mem.free, pos;
    OneUnmapped(map[], TRAMPOLINE);
    var ok;
    ok, k, pos := mem.MapPages(root, TRAMPOLINE, 1, trampoline, RX, pos);
    MapOnePage(map[], TRAMPOLINE, k, trampoline, RX);
    FreshCost(root, TRAMPOLINE);
    BuiltMore(f0, free0, pos1, f1, free1, pos, mem.frames, mem.free);
    if !ok {
      FreeEmpty(mem, root, pos, f0, free0);
      return None, pos;
    }
    ghost var f2, free2, pos2, m := mem.frames, mem.free, pos, View(mem.frames, root);
    OneUnmapped(m, TRAPFRAME);
    ok, k, pos := mem.MapPages(root, TRAPFRAME, 1, trapframe, RW, pos);
    MapOnePage(m, TRAPFRAME, k, trapframe, RW);
    BuiltMore(f0, free0, pos2, f2, free2, pos, mem.frames, mem.free);
    if !ok {
      ghost var f3, free3 := mem.frames, mem.free;
      OneOf(m, TRAMPOLINE);
      mem.UnmapPages(root, TRAMPOLINE, 1, false, pos);
      BuiltGave(f0, free0, pos, f3, free3, mem.frames, mem.free);
      FreeEmpty(mem, root, pos, f0, free0);
      r := None;
    }
    TrapframeFits(f2, root, pos2);
    ThreeTables(f0, free0, f2, root, pos2, TRAMPOLINE, free2);
    TopMapIsProcMap(mem.frames, trampoline, trapframe);
  }

  // ---------------------------------------------------------------- the life of the page map

  /** Where a page of the larger address space is: an old page as it was, a new one on a frame taken for it. */
  lemma GrownPage(f0: Frames, free0: seq<nat>, pos0: Shape, m: map<nat, Pte>, n: nat, want: seq<Wanted>,
                  taken: seq<nat>, f: Frames, free: seq<nat>, pos: Shape, v: map<nat, Pte>, x: nat)
    requires ProcMap(f0, m, n) && Grown(f0, free0, pos0, m, n, want, taken, f, free, pos, v)
    requires x < n + |want| <= TRAPFRAME && forall p :: p in pos0 ==> IsTable(f0, p)
    ensures |taken| == |want| && x in v && IsData(f, v[x].ppn)
    ensures x < n ==> x in m && v[x] == m[x] && v[x].ppn in f0
    ensures x >= n ==> v[x].ppn == taken[x - n] && v[x].ppn !in f0
  {
    hide Range;
    RangeIs(0, n);
    LedgerApart(f0, free0, pos0, f, free, pos, taken);
    hide Ledger;
    if x < n {
      assert x in m && IsData(f0, m[x].ppn);
    } else {
      assert NewPage(f, v, n, want, taken, x - n);
    }
  }

  lemma GrownKeys(m: map<nat, Pte>, n: nat, k: nat, v: map<nat, Pte>)
    requires m.Keys == Range(0, n) + {TRAPFRAME, TRAMPOLINE} && v.Keys == m.Keys + Range(n, k)
    ensures v.Keys == Range(0, n + k) + {TRAPFRAME, TRAMPOLINE}
  {
    RangeIs(0, n);
    RangeIs(n, k);
    RangeIs(0, n + k);
  }

  /** What uvmalloc and uvmcopy add on top of n pages leaves the page map of a larger process. */
  lemma GrownIsProcMap(f0: Frames, free0: seq<nat>, pos0: Shape, m: map<nat, Pte>, n: nat, want: seq<Wanted>,
                       taken: seq<nat>, f: Frames, free: seq<nat>, pos: Shape, v: map<nat, Pte>)
    requires ProcMap(f0, m, n) && Grown(f0, free0, pos0, m, n, want, taken, f, free, pos, v)
    requires n + |want| <= TRAPFRAME && forall p :: p in pos0 ==> IsTable(f0, p)
    ensures ProcMap(f, v, n + |want|)
  {
    hide Range, Ledger, OthersKept, Extends;
    GrownKeys(m, n, |want|, v);
    forall x: nat | x in v && x < n + |want|
      ensures IsData(f, v[x].ppn)
    {
      GrownPage(f0, free0, pos0, m, n, want, taken, f, free, pos, v, x);
    }
    forall x: nat, y: nat | x in v && y in v && x < y < n + |want|
      ensures v[x].ppn != v[y].ppn
    {
      GrownPage(f0, free0, pos0, m, n, want, taken, f, free, pos, v, x);
      GrownPage(f0, free0, pos0, m, n, want, taken, f, free, pos, v, y);
    }
  }

  lemma ShrunkKeys(m: map<nat, Pte>, n: nat, n': nat)
    requires m.Keys == Range(0, n) + {TRAPFRAME, TRAMPOLINE} && n' <= n <= TRAPFRAME
    ensures (m - Range(n', n - n')).Keys == Range(0, n') + {TRAPFRAME, TRAMPOLINE}
  {
    RangeIs(0, n);
    RangeIs(n', n - n');
    RangeIs(0, n');
  }

  /** A page below the new end keeps its frame. */
  lemma ShrunkPage(f0: Frames, free0: seq<nat>, pos: Shape, m: map<nat, Pte>, n: nat, n': nat, f: Frames,
                   free: seq<nat>, x: nat)
    requires OwnsRange(f0, m, 0, n) && n' <= n && Gave(f0, free0, pos, f, free, RangePages(m, n', n - n'), n - n')
    requires x < n' && x in m && forall p :: p in pos ==> IsTable(f0, p)
    ensures IsData(f, m[x].ppn)
  {
    assert IsData(f0, m[x].ppn);
    assert m[x].ppn !in RangePages(m, n', n - n');
  }

  /** What uvmdealloc leaves is the page map of a smaller process. */
  lemma ShrunkIsProcMap(f0: Frames, free0: seq<nat>, pos: Shape, m: map<nat, Pte>, n: nat, n': nat, f: Frames,
                        free: seq<nat>)
    requires ProcMap(f0, m, n) && n' <= n && Gave(f0, free0, pos, f, free, RangePages(m, n', n - n'), n - n')
    requires forall p :: p in pos ==> IsTable(f0, p)
    ensures ProcMap(f, m - Range(n', n - n'), n')
  {
    hide Range, Gave, RangePages;
    ShrunkKeys(m, n, n');
    forall x: nat | x in m && x < n'
      ensures IsData(f, m[x].ppn)
    {
      ShrunkPage(f0, free0, pos, m, n, n', f, free, x);
    }
  }
}
