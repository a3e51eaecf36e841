/** The page allocator (kernel/kalloc.c) and the page-table code (kernel/vm.c, kernel/proc.c). */
module VmCode {
  import opened Common
  import opened PageTable

  function Pages(s: seq<nat>): set<nat> {
    set p | p in s
  }

  /** pos' has every table of pos where it was. */
  ghost predicate Extends(pos: Shape, pos': Shape) {
    forall p :: p in pos ==> p in pos' && pos'[p] == pos[p]
  }

  /** Frames outside the tree pos are as they were. */
  ghost predicate OthersKept(f: Frames, f': Frames, pos: Shape) {
    forall p :: p in f && p !in pos ==> p in f' && f'[p] == f[p]
  }

  ghost predicate ValidPool(frames: Frames, free: seq<nat>) {
    && (forall i, j :: 0 <= i < j < |free| ==> free[i] != free[j])
    && (forall i :: 0 <= i < |free| ==> free[i] !in frames)
  }

  /** The table pages added between pos and pos' came from the free list. */
  ghost predicate Took(frames: Frames, free: seq<nat>, pos: Shape, frames': Frames, free': seq<nat>, pos': Shape) {
    && Extends(pos, pos') && OthersKept(frames, frames', pos)
    && frames'.Keys == frames.Keys + (pos'.Keys - pos.Keys)
    && frames.Keys !! pos'.Keys - pos.Keys
    && Pages(free) == Pages(free') + (pos'.Keys - pos.Keys)
  }

  lemma TookNothing(frames: Frames, free: seq<nat>, pos: Shape)
    ensures Took(frames, free, pos, frames, free, pos)
  {
    assert pos.Keys - pos.Keys == {};
  }

  lemma TookMore(f0: Frames, free0: seq<nat>, pos0: Shape, f1: Frames, free1: seq<nat>, pos1: Shape,
                 f2: Frames, free2: seq<nat>, pos2: Shape)
    requires Took(f0, free0, pos0, f1, free1, pos1) && Took(f1, free1, pos1, f2, free2, pos2)
    ensures Took(f0, free0, pos0, f2, free2, pos2)
  {
    assert pos2.Keys - pos0.Keys == (pos2.Keys - pos1.Keys) + (pos1.Keys - pos0.Keys);
  }

  /** The level-0 table on the way to vpn is there. */
  ghost predicate HasTable(pos: Shape, vpn: nat) {
    exists q :: OnPath(pos, q, 0, vpn)
  }

  /** The level-0 tables for n pages from vpn on are there. */
  ghost predicate Tabled(pos: Shape, vpn: nat, n: nat) {
    forall x: nat :: vpn <= x < vpn + n ==> HasTable(pos, x)
  }

  /** Below an invalid entry on the way to vpn there is no table for vpn. */
  lemma NoTableBelow(f: Frames, root: nat, pos: Shape, p: nat, level: nat, vpn: nat)
    requires Tree(f, root, pos) && 0 < level <= 2 && OnPath(pos, p, level, vpn) && IsTable(f, p)
    requires !f[p].entries[Px(level, vpn)].v
    ensures !HasTable(pos, vpn)
  {
    TreeFacts(f, root, pos);
    hide Tree, Px;
    if q :| OnPath(pos, q, 0, vpn) {
      var p1 := ParentOf(f, root, pos, q, 0, vpn);
      var p2 := ParentOf(f, root, pos, p1, 1, vpn);
    }
  }

  /** A mapped page has its table. */
  lemma MappedHasTable(f: Frames, root: nat, pos: Shape, vpn: nat)
    requires Tree(f, root, pos) && vpn in View(f, root)
    ensures HasTable(pos, vpn)
  {
    LookupIsEntry(f, root, pos, vpn);
  }

  // ---------------------------------------------------------------- what tables cost

  /** The places of the two tables below the root on the way to vpn. */
  function Path(vpn: nat): set<Pos> {
    {Place(1, vpn), Place(0, vpn)}
  }

  /** The same for n pages from vpn on. */
  function Paths(vpn: nat, n: nat): set<Pos> {
    if n == 0 then {} else Paths(vpn, n - 1) + Path(vpn + n - 1)
  }

  /** The places on the way to vpn from the root down to this level. */
  function Passed(level: nat, vpn: nat): set<Pos> {
    if level >= 2 then {} else if level == 1 then {Place(1, vpn)} else Path(vpn)
  }

  /** The places that have a table. */
  ghost function Places(pos: Shape): set<Pos> {
    pos.Values
  }

  /** How many of these places have no table yet. */
  ghost function Cost(pos: Shape, need: set<Pos>): nat {
    |need - Places(pos)|
  }

  /** From n0 free pages to n: `pages` went into data, the others into tables at the places needed and not there. */
  ghost predicate Paid(pos0: Shape, need: set<Pos>, pages: nat, n0: nat, pos: Shape, n: nat) {
    Places(pos) == Places(pos0) + need && n + Cost(pos0, need) + pages == n0
  }

  lemma PaidNothing(pos: Shape, n: nat)
    ensures Paid(pos, {}, 0, n, pos, n)
  {
    assert {} - Places(pos) == {};
  }

  lemma TwoParts(a: set<Pos>, b: set<Pos>, v: set<Pos>)
    ensures |a + b - v| == |a - v| + |b - (v + a)|
  {
    assert a + b - v == (a - v) + (b - (v + a));
  }

  lemma PaidMore(pos0: Shape, need: set<Pos>, pages: nat, n0: nat, pos1: Shape, n1: nat,
                 need': set<Pos>, pages': nat, pos2: Shape, n2: nat)
    requires Paid(pos0, need, pages, n0, pos1, n1) && Paid(pos1, need', pages', n1, pos2, n2)
    ensures Paid(pos0, need + need', pages + pages', n0, pos2, n2)
  {
    hide Places;
    TwoParts(need, need', Places(pos0));
    assert Places(pos0) + need + need' == Places(pos0) + (need + need');
  }

  lemma PaidShort(pos0: Shape, need: set<Pos>, pages: nat, n0: nat, pos1: Shape, n1: nat, need': set<Pos>, pages': nat)
    requires Paid(pos0, need, pages, n0, pos1, n1)
    ensures n1 < Cost(pos1, need') + pages' <==> n0 < Cost(pos0, need + need') + pages + pages'
  {
    hide Places;
    TwoParts(need, need', Places(pos0));
  }

  /** More places cost no less. */
  lemma CostGrows(pos: Shape, part: set<Pos>, all: set<Pos>)
    requires part <= all
    ensures Cost(pos, part) <= Cost(pos, all) <= |all|
  {
    hide Places;
    SubsetSize(part - Places(pos), all - Places(pos));
    SubsetSize(all - Places(pos), all);
  }

  lemma {:induction false} PathsGrow(vpn: nat, k: nat, n: nat)
    requires k <= n
    ensures Paths(vpn, k) <= Paths(vpn, n) && |Paths(vpn, n)| <= 2 * n
  {
    if n > 0 {
      PathsGrow(vpn, if k < n then k else n - 1, n - 1);
      PlusTwo(Paths(vpn, n - 1), Path(vpn + n - 1));
    }
  }

  lemma PlusTwo(a: set<Pos>, b: set<Pos>)
    requires |b| <= 2
    ensures |a + b| <= |a| + 2
  {
    assert a + b == a + (b - a);
    SubsetSize(b - a, b);
  }

  /** Two tables for each page are always enough. */
  lemma TwoEach(pos: Shape, vpn: nat, n: nat)
    ensures Cost(pos, Paths(vpn, n)) <= 2 * n
  {
    PathsGrow(vpn, n, n);
    CostGrows(pos, Paths(vpn, n), Paths(vpn, n));
  }

  /** With too little left for the next page there was too little for all; each page costs 0 or 1 besides its tables. */
  lemma MapCost(pos0: Shape, vpn: nat, a: nat, n: nat, each: nat, n0: nat, pos1: Shape, n1: nat)
    requires a < n && each <= 1 && Paid(pos0, Paths(vpn, a), each * a, n0, pos1, n1)
    ensures n1 < Cost(pos1, Path(vpn + a)) + each ==> n0 < Cost(pos0, Paths(vpn, n)) + each * n
  {
    hide Cost, Paid, Path;
    PaidShort(pos0, Paths(vpn, a), each * a, n0, pos1, n1, Path(vpn + a), each);
    PathsGrow(vpn, a + 1, n);
    assert Paths(vpn, a + 1) == Paths(vpn, a) + Path(vpn + a);
    hide Paths;
    CostGrows(pos0, Paths(vpn, a + 1), Paths(vpn, n));
    OneEach(each, a, n);
  }

  lemma OneEach(each: nat, a: nat, n: nat)
    requires a < n && each <= 1
    ensures each * a + each <= each * n
  {
    assert each == 0 || each == 1;
  }

  /** One step of walk: the table at place x is there. */
  lemma StepFound(pos0: Shape, passed: set<Pos>, n0: nat, pos: Shape, n: nat, x: Pos, q: nat)
    requires Paid(pos0, passed, 0, n0, pos, n) && q in pos && pos[q] == x && x !in passed
    ensures Paid(pos0, passed + {x}, 0, n0, pos, n)
  {
    assert x in Places(pos);
    hide Places;
    assert passed + {x} - Places(pos0) == passed - Places(pos0);
    assert Places(pos0) + (passed + {x}) == Places(pos0) + passed;
  }

  lemma OneMorePlace(v: set<Pos>, passed: set<Pos>, x: Pos)
    requires x !in v + passed
    ensures |passed + {x} - v| == |passed - v| + 1 && v + (passed + {x}) == v + passed + {x}
  {
    assert passed + {x} - v == (passed - v) + {x};
  }

  /** Or it has to be taken, */
  lemma StepTaken(pos0: Shape, passed: set<Pos>, n0: nat, pos: Shape, n: nat, x: Pos, t: nat)
    requires Paid(pos0, passed, 0, n0, pos, n) && x !in Places(pos) && n > 0 && t !in pos
    ensures Paid(pos0, passed + {x}, 0, n0, pos[t := x], n - 1)
  {
    hide Places;
    ValuesMore(pos, t, x);
    OneMorePlace(Places(pos0), passed, x);
  }

  /** which is not possible with no page left. */
  lemma StepShort(pos0: Shape, passed: set<Pos>, n0: nat, pos: Shape, x: Pos, all: set<Pos>)
    requires Paid(pos0, passed, 0, n0, pos, 0) && x !in Places(pos) && passed + {x} <= all
    ensures n0 < Cost(pos0, all)
  {
    hide Places;
    OneMorePlace(Places(pos0), passed, x);
    CostGrows(pos0, passed + {x}, all);
  }

  lemma NotThere(pos: Shape, x: Pos)
    requires forall q :: q in pos ==> pos[q] != x
    ensures x !in Places(pos)
  {
  }

  lemma PassedNext(level: nat, vpn: nat)
    requires 0 < level <= 2
    ensures Place(level - 1, vpn) !in Passed(level, vpn)
    ensures Passed(level - 1, vpn) == Passed(level, vpn) + {Place(level - 1, vpn)} <= Path(vpn)
  {
    hide Px;
  }

  /** A walk that gets to level 0 has paid for its path. */
  lemma PaidPath(pos0: Shape, vpn: nat, n0: nat, pos: Shape, n: nat)
    ensures Paid(pos0, Path(vpn), 0, n0, pos, n) ==> Cost(pos0, Path(vpn)) <= n0
  {
  }

  lemma PaidPaths(pos0: Shape, vpn: nat, n: nat, n0: nat, pos: Shape, n1: nat)
    ensures Paid(pos0, Paths(vpn, n), 0, n0, pos, n1) ==> Cost(pos0, Paths(vpn, n)) <= n0
  {
  }

  lemma PassedEnds(vpn: nat)
    ensures Passed(2, vpn) == {} && Passed(0, vpn) == Path(vpn)
  {
  }

  lemma ValuesMore(pos: Shape, t: nat, x: Pos)
    requires t !in pos
    ensures Places(pos[t := x]) == Places(pos) + {x}
  {
    var pos' := pos[t := x];
    forall y | y in pos.Values
      ensures y in pos'.Values
    {
      var q :| q in pos && pos[q] == y;
      assert pos'[q] == y;
    }
    assert pos'[t] == x;
  }

  /** The place below an invalid entry on the way is vacant. */
  lemma Vacant(f: Frames, root: nat, pos: Shape, p: nat, level: nat, vpn: nat)
    requires Tree(f, root, pos) && 0 < level <= 2 && OnPath(pos, p, level, vpn) && IsTable(f, p)
    requires !f[p].entries[Px(level, vpn)].v
    ensures pos[p].Child(Px(level, vpn)) == Place(level - 1, vpn)
    ensures Place(level - 1, vpn) !in Places(pos)
  {
    hide Px;
    forall q | q in pos
      ensures pos[q] != Place(level - 1, vpn)
    {
      HangApart(f, root, pos, p, Px(level, vpn), q);
    }
    NotThere(pos, Place(level - 1, vpn));
  }

  class Memory {
    var frames: Frames    // pages in use and what they hold
    var free: seq<nat>    // kmem.freelist, most recently freed first

    ghost predicate Valid()
      reads this
    {
      ValidPool(frames, free)
    }

    /** kinit and freerange: every whole page between the end of the kernel and PHYSTOP is free. */
    constructor (end: nat, phystop: nat)
      ensures Valid() && frames == map[]
      ensures forall p: nat :: p in free <==> end <= p * PGSIZE && (p + 1) * PGSIZE <= phystop
    {
      frames, free := map[], [];
      new;
      var first := (end + PGSIZE - 1) / PGSIZE;
      var p := first;
      while (p + 1) * PGSIZE <= phystop
        invariant Valid() && frames == map[] && first <= p
        invariant forall q: nat :: q in free <==> first <= q < p
        invariant first < p ==> p * PGSIZE <= phystop
        decreases phystop + PGSIZE - p * PGSIZE
      {
        Kfree(p);
        p := p + 1;
      }
    }

    /** kalloc: take the first page of the free list. */
    method Kalloc() returns (r: Option<nat>)
      requires Valid()
      modifies this`free
      ensures Valid()
      ensures r.None? <==> old(free) == []
      ensures r.None? ==> free == []
      ensures r.Some? ==> old(free) == [r.value] + free && r.value !in frames && r.value !in free
    {
      if free == [] {
        r := None;
      } else {
        r := Some(free[0]);
        free := free[1..];
      }
    }

    /** kfree: an allocated page goes back to the front of the list. */
    method Kfree(p: nat)
      requires Valid() && p !in free
      modifies this
      ensures Valid() && frames == old(frames) - {p} && free == [p] + old(free)
    {
      frames := frames - {p};
      free := [p] + free;
    }

    /**
      walk: the level-0 table for vpn.  With alloc it may add empty tables, which map nothing,
      and fails only when the free list is empty; without alloc it changes nothing.
     */
    method Walk(root: nat, vpn: nat, alloc: bool, ghost pos: Shape) returns (r: Option<nat>, ghost pos': Shape)
      requires Valid() && Tree(frames, root, pos) && vpn < MAXVPN
      modifies this
      ensures Valid() && Tree(frames, root, pos') && View(frames, root) == old(View(frames, root))
      ensures Took(old(frames), old(free), pos, frames, free, pos')
      ensures r.Some? ==> OnPath(pos', r.value, 0, vpn)
      ensures r.None? ==> if alloc then free == [] else vpn !in View(frames, root)
      ensures HasTable(pos, vpn) ==> r.Some? && frames == old(frames) && free == old(free) && pos' == pos
      ensures alloc ==> (r.Some? <==> Cost(pos, Path(vpn)) <= |old(free)|)
      ensures alloc && r.Some? ==> Paid(pos, Path(vpn), 0, |old(free)|, pos', |free|)
      ensures !alloc ==> frames == old(frames) && free == old(free) && pos' == pos
    {
      hide Tree, View, Took, ValidPool, Px, HasTable, Paid, Path, Passed, Cost;
      PassedEnds(vpn);
      PaidNothing(pos, |free|);
      r := Some(root);
      var level := 2;
      pos' := pos;
      TookNothing(frames, free, pos);
      TreeFacts(frames, root, pos);
      while level > 0
        invariant 0 <= level <= 2 && r.Some?
        invariant Valid() && Tree(frames, root, pos') && View(frames, root) == old(View(frames, root))
        invariant Took(old(frames), old(free), pos, frames, free, pos') && OnPath(pos', r.value, level, vpn)
        invariant !alloc || HasTable(pos, vpn) ==> frames == old(frames) && free == old(free) && pos' == pos
        invariant alloc ==> Paid(pos, Passed(level, vpn), 0, |old(free)|, pos', |free|)
        decreases level
      {
        r, pos' := WalkStep(root, r.value, level, vpn, alloc, old(frames), old(free), pos, pos');
        if r.None? {
          return;
        }
        level := level - 1;
      }
      PaidPath(pos, vpn, |old(free)|, pos', |free|);
    }

    /** One turn of walk's loop: from the table at this level to the next, which may have to be added. */
    method WalkStep(root: nat, p: nat, level: nat, vpn: nat, alloc: bool, ghost f0: Frames, ghost free0: seq<nat>,
                    ghost pos0: Shape, ghost pos: Shape)
      returns (r: Option<nat>, ghost pos': Shape)
      requires Valid() && Tree(frames, root, pos) && vpn < MAXVPN && 0 < level <= 2 && OnPath(pos, p, level, vpn)
      requires Took(f0, free0, pos0, frames, free, pos)
      requires alloc ==> Paid(pos0, Passed(level, vpn), 0, |free0|, pos, |free|)
      modifies this
      ensures Valid() && Tree(frames, root, pos') && View(frames, root) == old(View(frames, root))
      ensures Took(f0, free0, pos0, frames, free, pos') && (r.Some? ==> OnPath(pos', r.value, level - 1, vpn))
      ensures r.None? ==> if alloc then free == [] else vpn !in View(frames, root)
      ensures !alloc || HasTable(pos, vpn) ==> frames == old(frames) && free == old(free) && pos' == pos
      ensures HasTable(pos, vpn) ==> r.Some?
      ensures alloc && r.Some? ==> Paid(pos0, Passed(level - 1, vpn), 0, |free0|, pos', |free|)
      ensures alloc && r.None? ==> |free0| < Cost(pos0, Path(vpn))
    {
      hide Tree, View, Took, ValidPool, Px, HasTable, Paid, Path, Passed, Cost, Places;
      pos' := pos;
      TreeFacts(frames, root, pos);
      PassedNext(level, vpn);
      PxTop(vpn);
      ghost var x := Place(level - 1, vpn);
      var i := Px(level, vpn);
      var e := frames[p].entries[i];
      if e.v {
        Follow(frames, root, pos, p, level, vpn);
        if alloc {
          StepFound(pos0, Passed(level, vpn), |free0|, pos, |free|, x, e.ppn);
        }
        return Some(e.ppn), pos';
      }
      NoTableBelow(frames, root, pos, p, level, vpn);
      if !alloc {
        Unmapped(frames, root, pos, p, level, vpn);
        return None, pos';
      }
      Vacant(frames, root, pos, p, level, vpn);
      ghost var n := |free|;
      var t := Kalloc();
      if t.None? {
        StepShort(pos0, Passed(level, vpn), |free0|, pos, x, Path(vpn));
        return None, pos';
      }
      StepTaken(pos0, Passed(level, vpn), |free0|, pos, n, x, t.value);
      var q;
      q, pos' := AddTable(root, p, i, t.value, f0, free0, pos0, pos);
      r := Some(q);
    }

    /** The allocating branch of walk: a zeroed table hung into entry i of p. */
    method AddTable(root: nat, p: nat, i: nat, t: nat, ghost f0: Frames, ghost free0: seq<nat>, ghost pos0: Shape,
                    ghost pos: Shape)
      returns (q: nat, ghost pos': Shape)
      requires Tree(frames, root, pos) && p in pos && !pos[p].Low? && i < (if pos[p].Top? then 256 else 512)
      requires IsTable(frames, p) && !frames[p].entries[i].v
      requires ValidPool(frames, [t] + free)
      requires Took(f0, free0, pos0, frames, [t] + free, pos)
      modifies this`frames
      ensures q == t && Valid() && Tree(frames, root, pos') && View(frames, root) == old(View(frames, root))
      ensures pos' == pos[t := pos[p].Child(i)]
      ensures Took(f0, free0, pos0, frames, free, pos')
    {
      hide Tree, View, Took;
      q := t;
      pos' := pos[t := pos[p].Child(i)];
      assert ([t] + free)[0] == t;
      HangView(frames, root, pos, p, i, t, pos');
      TreeFacts(frames, root, pos);
      HangTook(f0, free0, pos0, frames, free, pos, root, p, i, t);
      frames := frames[p := Table(frames[p].entries[i := PointerTo(t)])];
      frames := frames[t := EmptyTable()];
      assert forall k :: 0 <= k < |free| ==> free[k] == ([t] + free)[k + 1];
    }

    /**
      mappages: n pages from vpn on, to consecutive physical pages.  On failure (no page for a
      table) the first k are mapped; every other page's translation is as it was.
     */
    method MapPages(root: nat, vpn: nat, n: nat, ppn: nat, perm: Pte, ghost pos: Shape)
      returns (ok: bool, ghost k: nat, ghost pos': Shape)
      requires Valid() && Tree(frames, root, pos)
      requires 0 < n && vpn + n <= MAXVPN && (perm.r || perm.w || perm.x)
      requires Range(vpn, n) !! View(frames, root).Keys
      modifies this
      ensures Valid() && Tree(frames, root, pos') && Took(old(frames), old(free), pos, frames, free, pos')
      ensures k <= n && View(frames, root) == MapRange(old(View(frames, root)), vpn, k, ppn, perm)
      ensures ok <==> k == n
      ensures !ok ==> free == []
      ensures Tabled(pos, vpn, n) ==> ok && free == old(free) && pos' == pos
      ensures ok <==> Cost(pos, Paths(vpn, n)) <= |old(free)|
      ensures ok ==> Paid(pos, Paths(vpn, n), 0, |old(free)|, pos', |free|)
    {
      hide Tree, View, Took, ValidPool, Px, Range, MapRange, HasTable, Paid, Path, Cost;
      PaidNothing(pos, |free|);
      PathsGrow(vpn, 0, n);
      ok := false;
      k := 0;
      MapNone(View(frames, root), vpn, ppn, perm);
      pos' := pos;
      TookNothing(frames, free, pos);
      ghost var m := View(frames, root);
      var a := 0;
      while a < n
        invariant a <= n && k == a
        invariant Valid() && Tree(frames, root, pos') && Took(old(frames), old(free), pos, frames, free, pos')
        invariant View(frames, root) == MapRange(m, vpn, a, ppn, perm)
        invariant Tabled(pos, vpn, n) ==> free == old(free) && pos' == pos
        invariant Paid(pos, Paths(vpn, a), 0, |old(free)|, pos', |free|)
      {
        ghost var pos1, n1 := pos', |free|;
        MapCost(pos, vpn, a, n, 0, |old(free)|, pos1, n1);
        MapNext(m, vpn, n, a, ppn, perm);
        ok, pos' := MapOne(root, vpn + a, perm.(v := true, ppn := ppn + a), pos, pos', old(frames), old(free));
        if !ok {
          return;
        }
        PaidMore(pos, Paths(vpn, a), 0, |old(free)|, pos1, n1, Path(vpn + a), 0, pos', |free|);
        a := a + 1;
        k := a;
      }
      PaidPaths(pos, vpn, n, |old(free)|, pos', |free|);
      ok := true;
    }

    /** One turn of mappages: walk, then write the entry. */
    method MapOne(root: nat, vpn: nat, e: Pte, ghost pos0: Shape, ghost pos: Shape, ghost f0: Frames,
                  ghost free0: seq<nat>)
      returns (ok: bool, ghost pos': Shape)
      requires Valid() && Tree(frames, root, pos) && vpn < MAXVPN && vpn !in View(frames, root) && e.Leaf()
      requires Took(f0, free0, pos0, frames, free, pos)
      modifies this
      ensures Valid() && Tree(frames, root, pos') && Took(f0, free0, pos0, frames, free, pos')
      ensures View(frames, root) == if ok then old(View(frames, root))[vpn := e] else old(View(frames, root))
      ensures !ok ==> free == []
      ensures HasTable(pos, vpn) ==> ok && free == old(free) && pos' == pos
      ensures ok <==> Cost(pos, Path(vpn)) <= |old(free)|
      ensures ok ==> Paid(pos, Path(vpn), 0, |old(free)|, pos', |free|)
    {
      hide Tree, View, Took, Px, HasTable, Paid, Path, Cost;
      var r;
      r, pos' := Walk(root, vpn, true, pos);
      TookMore(f0, free0, pos0, old(frames), old(free), pos, frames, free, pos');
      if r.None? {
        return false, pos';
      }
      TreeFacts(frames, root, pos');
      SetLeafView(frames, root, pos', r.value, vpn, e);
      SetTook(f0, free0, pos0, frames, free, pos', r.value, Px(0, vpn), e);
      frames := SetEntry(frames, r.value, Px(0, vpn), e);
      ok := true;
    }

    /** uvmunmap: forget n mapped pages, and give their physical pages back if doFree. */
    method UnmapPages(root: nat, vpn: nat, n: nat, doFree: bool, ghost pos: Shape)
      requires Valid() && Tree(frames, root, pos) && vpn + n <= MAXVPN
      requires Range(vpn, n) <= View(frames, root).Keys
      requires doFree ==> OwnsRange(frames, View(frames, root), vpn, n)
      modifies this
      ensures Valid() && Tree(frames, root, pos)
      ensures View(frames, root) == old(View(frames, root)) - Range(vpn, n)
      ensures doFree ==> Gave(old(frames), old(free), pos, frames, free, RangePages(old(View(frames, root)), vpn, n), n)
      ensures !doFree ==> Gave(old(frames), old(free), pos, frames, free, {}, 0)
    {
      hide Tree, View, ValidPool, Px, Gave, OwnsRange, Range, Unmapping, RangePages;
      ghost var m := View(frames, root);
      ghost var left := m;
      var a := 0;
      UnmapStart(frames, free, m, pos, vpn, n, doFree);
      while a < n
        invariant a <= n
        invariant Valid() && Tree(frames, root, pos)
        invariant View(frames, root) == left && left == m - Range(vpn, a)
        invariant Unmapping(old(frames), old(free), m, pos, vpn, n, a, doFree, frames, free)
      {
        UnmapNext(old(frames), old(free), m, pos, vpn, n, a, doFree, frames, free);
        TreeFacts(frames, root, pos);
        ghost var f, fr := frames, free;
        var b := vpn + a;
        assert b in left && left[b] == m[b];
        UnmapOne(root, b, doFree, pos);
        UnmapTurn(old(frames), old(free), m, pos, vpn, n, a, doFree, f, fr, frames, free);
        left := left - {b};
        a := a + 1;
      }
      UnmapEnd(old(frames), old(free), m, pos, vpn, n, doFree, frames, free);
    }

    /** One turn of uvmunmap. */
    method UnmapOne(root: nat, vpn: nat, doFree: bool, ghost pos: Shape)
      requires Valid() && Tree(frames, root, pos) && vpn < MAXVPN && vpn in View(frames, root)
      requires doFree ==> IsData(frames, View(frames, root)[vpn].ppn)
      modifies this
      ensures Valid() && Tree(frames, root, pos) && View(frames, root) == old(View(frames, root)) - {vpn}
      ensures var p := old(View(frames, root))[vpn].ppn;
              && free == (if doFree then [p] + old(free) else old(free))
              && frames.Keys == (if doFree then old(frames).Keys - {p} else old(frames).Keys)
      ensures forall p :: p in frames && p !in pos ==> frames[p] == old(frames)[p]
    {
      hide Tree, View, Took, Px;
      ghost var pos';
      var r;
      r, pos' := Walk(root, vpn, false, pos);
      var t := r.value;
      TreeFacts(frames, root, pos);
      MappedEntry(frames, root, pos, t, vpn);
      var p := frames[t].entries[Px(0, vpn)].ppn;
      if doFree {
        assert forall q :: q in pos ==> q != p;
        TreeFrame(frames, frames - {p}, root, pos);
        Kfree(p);
      }
      SetLeafView(frames, root, pos, t, vpn, Zero);
      frames := SetEntry(frames, t, Px(0, vpn), Zero);
    }
  }

  /** m with n more pages from vpn on. */
  ghost function MapRange(m: map<nat, Pte>, vpn: nat, n: nat, ppn: nat, perm: Pte): map<nat, Pte> {
    if n == 0 then m
    else MapRange(m, vpn, n - 1, ppn, perm)[vpn + n - 1 := perm.(v := true, ppn := ppn + n - 1)]
  }

  /** MapRange maps exactly the range. */
  lemma {:induction false} MapRangeAt(m: map<nat, Pte>, vpn: nat, n: nat, ppn: nat, perm: Pte, x: nat)
    ensures x in MapRange(m, vpn, n, ppn, perm) <==> x in m || vpn <= x < vpn + n
    ensures x in MapRange(m, vpn, n, ppn, perm) ==>
              MapRange(m, vpn, n, ppn, perm)[x] == if vpn <= x < vpn + n then perm.(v := true,
                                                                                    ppn := ppn + (x - vpn)) else m[x]
  {
    if n > 0 {
      MapRangeAt(m, vpn, n - 1, ppn, perm, x);
    }
  }

  lemma MapNone(m: map<nat, Pte>, vpn: nat, ppn: nat, perm: Pte)
    ensures MapRange(m, vpn, 0, ppn, perm) == m
  {
  }

  lemma MapNext(m: map<nat, Pte>, vpn: nat, n: nat, a: nat, ppn: nat, perm: Pte)
    requires Range(vpn, n) !! m.Keys && a < n
    ensures vpn + a !in MapRange(m, vpn, a, ppn, perm)
    ensures MapRange(m, vpn, a + 1, ppn, perm) ==
            MapRange(m, vpn, a, ppn, perm)[vpn + a := perm.(v := true, ppn := ppn + a)]
  {
    RangeIs(vpn, n);
    MapRangeAt(m, vpn, a, ppn, perm, vpn + a);
  }

  function Range(vpn: nat, n: nat): set<nat> {
    if n == 0 then {} else Range(vpn, n - 1) + {vpn + n - 1}
  }

  lemma {:induction false} RangeIs(vpn: nat, n: nat)
    ensures forall x: nat :: x in Range(vpn, n) <==> vpn <= x < vpn + n
  {
    if n > 0 {
      RangeIs(vpn, n - 1);
    }
  }

  predicate IsData(f: Frames, p: nat) {
    p in f && f[p].Data?
  }

  /** The physical pages behind a range. */
  ghost function RangePages(m: map<nat, Pte>, vpn: nat, n: nat): set<nat> {
    set x | x in m && vpn <= x < vpn + n :: m[x].ppn
  }

  /** Every page of the range is mapped to a data page of its own. */
  ghost predicate OwnsRange(f: Frames, m: map<nat, Pte>, vpn: nat, n: nat) {
    && (forall x :: x in m && vpn <= x < vpn + n ==> IsData(f, m[x].ppn))
    && (forall x, y :: x in m && y in m && vpn <= x < y < vpn + n ==> m[x].ppn != m[y].ppn)
  }

  /** The pages `gone` went back to the free list; frames outside the tree pos are as they were. */
  ghost predicate Gave(f0: Frames, free0: seq<nat>, pos: Shape, f: Frames, free: seq<nat>, gone: set<nat>, n: nat) {
    && f.Keys == f0.Keys - gone && Pages(free) == Pages(free0) + gone && |free| == |free0| + n
    && (forall p :: p in f && p !in pos ==> f[p] == f0[p])
  }

  lemma GaveNothing(f: Frames, free: seq<nat>, pos: Shape)
    ensures Gave(f, free, pos, f, free, {}, 0)
  {
  }

  lemma GaveOne(f0: Frames, free0: seq<nat>, f: Frames, free: seq<nat>, f': Frames, free': seq<nat>, pos: Shape,
                gone: set<nat>, n: nat, p: nat)
    requires Gave(f0, free0, pos, f, free, gone, n)
    requires f'.Keys == f.Keys - {p} && free' == [p] + free && forall q :: q in f' && q !in pos ==> f'[q] == f[q]
    ensures Gave(f0, free0, pos, f', free', gone + {p}, n + 1)
  {
    assert Pages(free') == Pages(free) + {p};
  }

  lemma GaveSame(f0: Frames, free0: seq<nat>, f: Frames, free: seq<nat>, f': Frames, free': seq<nat>, pos: Shape)
    requires Gave(f0, free0, pos, f, free, {}, 0)
    requires f'.Keys == f.Keys && free' == free && forall q :: q in f' && q !in pos ==> f'[q] == f[q]
    ensures Gave(f0, free0, pos, f', free', {}, 0)
  {
  }

  lemma InRange(m: map<nat, Pte>, vpn: nat, n: nat, a: nat)
    requires Range(vpn, n) <= m.Keys && a < n
    ensures vpn + a in m
  {
    RangeIs(vpn, n);
  }

  lemma OwnsFirst(f: Frames, m: map<nat, Pte>, vpn: nat, n: nat)
    requires 0 < n && vpn in m && OwnsRange(f, m, vpn, n)
    ensures IsData(f, m[vpn].ppn)
  {
  }

  /** Half-way through uvmunmap: a of the n pages are done. */
  ghost predicate Unmapping(f0: Frames, free0: seq<nat>, m: map<nat, Pte>, pos: Shape, vpn: nat, n: nat, a: nat,
                            doFree: bool, f: Frames, free: seq<nat>) {
    && a <= n && Range(vpn, n) <= m.Keys
    && (doFree ==> OwnsRange(f, m, vpn + a, n - a) && Gave(f0, free0, pos, f, free, RangePages(m, vpn, a), a))
    && (!doFree ==> Gave(f0, free0, pos, f, free, {}, 0))
  }

  lemma UnmapStart(f: Frames, free: seq<nat>, m: map<nat, Pte>, pos: Shape, vpn: nat, n: nat, doFree: bool)
    requires Range(vpn, n) <= m.Keys && (doFree ==> OwnsRange(f, m, vpn, n))
    ensures Unmapping(f, free, m, pos, vpn, n, 0, doFree, f, free) && m - Range(vpn, 0) == m
  {
    RangeNone(m, vpn);
    GaveNothing(f, free, pos);
  }

  lemma UnmapNext(f0: Frames, free0: seq<nat>, m: map<nat, Pte>, pos: Shape, vpn: nat, n: nat, a: nat,
                  doFree: bool, f: Frames, free: seq<nat>)
    requires Unmapping(f0, free0, m, pos, vpn, n, a, doFree, f, free) && a < n
    ensures vpn + a in m && vpn + a in m - Range(vpn, a) && (m - Range(vpn, a))[vpn + a] == m[vpn + a]
    ensures doFree ==> IsData(f, m[vpn + a].ppn)
    ensures m - Range(vpn, a + 1) == (m - Range(vpn, a)) - {vpn + a}
  {
    InRange(m, vpn, n, a);
    RangeSnoc(m, vpn, a);
    hide Gave, Range;
    if doFree {
      OwnsFirst(f, m, vpn + a, n - a);
    }
  }

  lemma UnmapTurn(f0: Frames, free0: seq<nat>, m: map<nat, Pte>, pos: Shape, vpn: nat, n: nat, a: nat,
                  doFree: bool, f: Frames, free: seq<nat>, f': Frames, free': seq<nat>)
    requires Unmapping(f0, free0, m, pos, vpn, n, a, doFree, f, free) && a < n && vpn + a in m
    requires free' == (if doFree then [m[vpn + a].ppn] + free else free)
    requires f'.Keys == (if doFree then f.Keys - {m[vpn + a].ppn} else f.Keys)
    requires forall p :: p in f' && p !in pos ==> f'[p] == f[p]
    requires forall p :: p in pos ==> IsTable(f, p)
    ensures Unmapping(f0, free0, m, pos, vpn, n, a + 1, doFree, f', free')
  {
    hide Gave, OwnsRange, Range;
    RangeSnoc(m, vpn, a);
    if doFree {
      OwnsRest(f, f', m, vpn + a, n - a, pos);
      GaveOne(f0, free0, f, free, f', free', pos, RangePages(m, vpn, a), a, m[vpn + a].ppn);
    } else {
      GaveSame(f0, free0, f, free, f', free', pos);
    }
  }

  lemma UnmapEnd(f0: Frames, free0: seq<nat>, m: map<nat, Pte>, pos: Shape, vpn: nat, n: nat, doFree: bool,
                 f: Frames, free: seq<nat>)
    requires Unmapping(f0, free0, m, pos, vpn, n, n, doFree, f, free)
    ensures doFree ==> Gave(f0, free0, pos, f, free, RangePages(m, vpn, n), n)
    ensures !doFree ==> Gave(f0, free0, pos, f, free, {}, 0)
  {
  }

  lemma RangeNone(m: map<nat, Pte>, vpn: nat)
    ensures Range(vpn, 0) == {} && m - Range(vpn, 0) == m && RangePages(m, vpn, 0) == {}
  {
  }

  lemma RangeSnoc(m: map<nat, Pte>, vpn: nat, n: nat)
    requires vpn + n in m
    ensures Range(vpn, n + 1) == Range(vpn, n) + {vpn + n}
    ensures m - Range(vpn, n + 1) == (m - Range(vpn, n)) - {vpn + n}
    ensures RangePages(m, vpn, n + 1) == RangePages(m, vpn, n) + {m[vpn + n].ppn}
    ensures vpn + n in m - Range(vpn, n) && (m - Range(vpn, n))[vpn + n] == m[vpn + n]
  {
    RangeIs(vpn, n);
  }

  lemma OwnsRest(f0: Frames, f: Frames, m: map<nat, Pte>, vpn: nat, n: nat, pos: Shape)
    requires 0 < n && vpn in m && OwnsRange(f0, m, vpn, n)
    requires f.Keys == f0.Keys - {m[vpn].ppn}
    requires forall p :: p in f && p !in pos ==> f[p] == f0[p]
    requires forall p :: p in pos ==> p in f0 && f0[p].Table?
    ensures OwnsRange(f, m, vpn + 1, n - 1)
  {
  }

  lemma SetTook(f0: Frames, free0: seq<nat>, pos0: Shape, f: Frames, free: seq<nat>, pos: Shape, p: nat, i: nat, e: Pte)
    requires Took(f0, free0, pos0, f, free, pos) && p in pos && IsTable(f, p) && i < 512
    ensures Took(f0, free0, pos0, SetEntry(f, p, i, e), free, pos)
  {
  }

  /** A valid entry above level 0 leads to the next table on the way. */
  lemma Follow(f: Frames, root: nat, pos: Shape, p: nat, l: nat, vpn: nat)
    requires Tree(f, root, pos) && 0 < l <= 2 && OnPath(pos, p, l, vpn) && IsTable(f, p)
    requires f[p].entries[Px(l, vpn)].v
    ensures OnPath(pos, f[p].entries[Px(l, vpn)].ppn, l - 1, vpn)
  {
    assert EntryOk(f, pos, p, Px(l, vpn));
  }

  /** An invalid entry above level 0 means the page is not mapped. */
  lemma Unmapped(f: Frames, root: nat, pos: Shape, p: nat, l: nat, vpn: nat)
    requires Tree(f, root, pos) && 0 < l <= 2 && OnPath(pos, p, l, vpn) && vpn < MAXVPN && IsTable(f, p)
    requires !f[p].entries[Px(l, vpn)].v
    ensures vpn !in View(f, root)
  {
    hide Lookup;
    LookupIsEntry(f, root, pos, vpn);
    if q :| OnPath(pos, q, 0, vpn) {
      var p1 := ParentOf(f, root, pos, q, 0, vpn);
      var p2 := ParentOf(f, root, pos, p1, 1, vpn);
    }
  }

  lemma HangTook(f0: Frames, free0: seq<nat>, pos0: Shape, f: Frames, free: seq<nat>, pos: Shape, root: nat, p: nat,
                 i: nat, t: nat)
    requires Took(f0, free0, pos0, f, [t] + free, pos) && ValidPool(f, [t] + free)
    requires p in pos && !pos[p].Low? && i < 512 && IsTable(f, p) && forall q :: q in pos ==> q in f
    ensures Took(f0, free0, pos0, Hang(f, p, i, t), free, pos[t := pos[p].Child(i)])
  {
    assert ([t] + free)[0] == t;
    assert t !in f && t !in pos && t !in f0;
    assert t in Pages([t] + free);
    assert t in Pages(free0);
    var pos' := pos[t := pos[p].Child(i)];
    assert pos'.Keys - pos0.Keys == (pos.Keys - pos0.Keys) + {t};
    assert Pages([t] + free) == Pages(free) + {t};
  }
}
