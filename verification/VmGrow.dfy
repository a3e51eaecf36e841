/** Growing, shrinking and copying user memory (kernel/vm.c, kernel/proc.c): conservation and rollback. */
module VmGrow {
  import opened Common
  import opened PageTable
  import opened VmCode

  function Blank(): seq<nat> {
    seq(PGSIZE, _ => 0)
  }

  /** PGROUNDUP(sz) / PGSIZE. */
  function PagesFor(sz: nat): nat {
    (sz + PGSIZE - 1) / PGSIZE
  }

  /** What a page of a new range should hold and allow. */
  datatype Wanted = Wanted(bytes: seq<nat>, perm: Pte)

  /** Page number j of the range is a leaf of the wanted kind on the frame taken[j]. */
  ghost predicate NewPage(f: Frames, v: map<nat, Pte>, first: nat, want: seq<Wanted>, taken: seq<nat>, j: nat)
    requires j < |want| == |taken|
  {
    && first + j in v && v[first + j] == want[j].perm.(v := true, ppn := taken[j])
    && taken[j] in f && f[taken[j]] == Data(want[j].bytes)
  }

  /** The set part of the accounting: frames in use and free list, between then and now. */
  ghost predicate Ledger(used0: set<nat>, free0: set<nat>, used: set<nat>, free: set<nat>, tables: set<nat>,
                         data: set<nat>) {
    && used0 !! tables && used0 !! data && tables !! data
    && used == used0 + tables + data
    && free0 == free + tables + data
  }

  /**
    Since (f0, free0, pos0, m) the pages of `want` were mapped from `first` on, each on a frame of its
    own from the free list; nothing that was there changed, and every other frame taken is a table.
   */
  ghost predicate Grown(f0: Frames, free0: seq<nat>, pos0: Shape, m: map<nat, Pte>, first: nat, want: seq<Wanted>,
                        taken: seq<nat>, f: Frames, free: seq<nat>, pos: Shape, v: map<nat, Pte>) {
    && |taken| == |want|
    && v.Keys == m.Keys + Range(first, |want|)
    && (forall x :: x in m ==> v[x] == m[x])
    && (forall j: nat :: j < |want| ==> NewPage(f, v, first, want, taken, j))
    && (forall i, j :: 0 <= i < j < |taken| ==> taken[i] != taken[j])
    && Extends(pos0, pos) && OthersKept(f0, f, pos0) && pos0.Keys <= f0.Keys
    && Ledger(f0.Keys, Pages(free0), f.Keys, Pages(free), pos.Keys - pos0.Keys, Pages(taken))
  }

  lemma GrownNone(f: Frames, free: seq<nat>, pos: Shape, m: map<nat, Pte>, first: nat)
    requires pos.Keys <= f.Keys
    ensures Grown(f, free, pos, m, first, [], [], f, free, pos, m)
  {
    RangeNone(m, first);
    assert pos.Keys - pos.Keys == {};
  }

  // ---------------------------------------------------------------- one more page

  lemma LedgerTook(used0: set<nat>, free0: set<nat>, used: set<nat>, free: set<nat>, tables: set<nat>, data: set<nat>,
                   t: nat, free1: set<nat>, more: set<nat>, used2: set<nat>, free2: set<nat>)
    requires Ledger(used0, free0, used, free, tables, data)
    requires free == free1 + {t} && t !in used
    requires more !! used + {t} && used2 == used + {t} + more && free1 == free2 + more
    ensures Ledger(used0, free0, used2, free2, tables + more, data + {t})
    ensures Ledger(used0, free0, used2 - {t}, free2 + {t}, tables + more, data)
  {
  }

  /** What kalloc, the new page and mappages leave behind, whether mappages succeeded or not. */
  ghost predicate Mapped(f: Frames, free: seq<nat>, pos: Shape, t: nat, b: seq<nat>, f2: Frames, free2: seq<nat>,
                         pos2: Shape) {
    && |free| > 0 && free[0] == t && t !in f && pos.Keys <= f.Keys
    && Took(f[t := Data(b)], free[1..], pos, f2, free2, pos2)
  }

  lemma MappedLedger(f0: Frames, free0: seq<nat>, pos0: Shape, f: Frames, free: seq<nat>, pos: Shape, data: set<nat>,
                     t: nat, b: seq<nat>, f2: Frames, free2: seq<nat>, pos2: Shape)
    requires Ledger(f0.Keys, Pages(free0), f.Keys, Pages(free), pos.Keys - pos0.Keys, data) && Extends(pos0, pos)
    requires Mapped(f, free, pos, t, b, f2, free2, pos2)
    ensures Extends(pos0, pos2)
    ensures Ledger(f0.Keys, Pages(free0), f2.Keys, Pages(free2), pos2.Keys - pos0.Keys, data + {t})
    ensures Ledger(f0.Keys, Pages(free0), (f2 - {t}).Keys, Pages([t] + free2), pos2.Keys - pos0.Keys, data)
  {
    hide Ledger, OthersKept;
    var more := pos2.Keys - pos.Keys;
    assert free == [t] + free[1..];
    assert Pages(free) == Pages(free[1..]) + {t};
    assert Pages([t] + free2) == Pages(free2) + {t};
    assert f[t := Data(b)].Keys == f.Keys + {t};
    LedgerTook(f0.Keys, Pages(free0), f.Keys, Pages(free), pos.Keys - pos0.Keys, data,
               t, Pages(free[1..]), more, f2.Keys, Pages(free2));
    assert pos2.Keys - pos0.Keys == (pos.Keys - pos0.Keys) + more;
    assert (f2 - {t}).Keys == f2.Keys - {t};
  }

  /** A frame outside the tree is untouched. */
  lemma MappedKeeps(f: Frames, free: seq<nat>, pos: Shape, t: nat, b: seq<nat>, f2: Frames, free2: seq<nat>,
                    pos2: Shape, p: nat)
    requires Mapped(f, free, pos, t, b, f2, free2, pos2) && p in f && p !in pos
    ensures p in f2 && f2[p] == f[p] && p != t
    ensures t in f2 && f2[t] == Data(b)
  {
  }

  lemma MappedOthers(f0: Frames, pos0: Shape, f: Frames, free: seq<nat>, pos: Shape, t: nat, b: seq<nat>,
                     f2: Frames, free2: seq<nat>, pos2: Shape)
    requires Extends(pos0, pos) && OthersKept(f0, f, pos0) && f0.Keys !! (pos.Keys - pos0.Keys)
    requires Mapped(f, free, pos, t, b, f2, free2, pos2)
    ensures OthersKept(f0, f2, pos0) && OthersKept(f0, f2 - {t}, pos0)
  {
    forall p | p in f0 && p !in pos0 ensures p in f2 && f2[p] == f0[p] && p != t {
      MappedKeeps(f, free, pos, t, b, f2, free2, pos2, p);
    }
  }

  lemma GrownTurn(f0: Frames, free0: seq<nat>, pos0: Shape, m: map<nat, Pte>, first: nat, want: seq<Wanted>,
                  taken: seq<nat>, f: Frames, free: seq<nat>, pos: Shape, v: map<nat, Pte>,
                  t: nat, w: Wanted, f2: Frames, free2: seq<nat>, pos2: Shape)
    requires Grown(f0, free0, pos0, m, first, want, taken, f, free, pos, v)
    requires Mapped(f, free, pos, t, w.bytes, f2, free2, pos2) && first + |want| !in v
    ensures Grown(f0, free0, pos0, m, first, want + [w], taken + [t], f2, free2, pos2,
                  v[first + |want| := w.perm.(v := true, ppn := t)])
  {
    hide Ledger, OthersKept, Extends;
    var k := |want|;
    var v2 := v[first + k := w.perm.(v := true, ppn := t)];
    var want2, taken2 := want + [w], taken + [t];
    LedgerApart(f0, free0, pos0, f, free, pos, taken);
    MappedOthers(f0, pos0, f, free, pos, t, w.bytes, f2, free2, pos2);
    MappedLedger(f0, free0, pos0, f, free, pos, Pages(taken), t, w.bytes, f2, free2, pos2);
    assert Pages(taken2) == Pages(taken) + {t};
    forall j: nat | j < |want2| ensures NewPage(f2, v2, first, want2, taken2, j) {
      if j < k {
        assert NewPage(f, v, first, want, taken, j);
        MappedKeeps(f, free, pos, t, w.bytes, f2, free2, pos2, taken[j]);
      } else {
        assert t in f2 && f2[t] == Data(w.bytes) by { MappedPage(f, free, pos, t, w.bytes, f2, free2, pos2); }
      }
    }
    forall j: nat | j < k ensures taken[j] != t {
      assert NewPage(f, v, first, want, taken, j);
    }
    assert Range(first, k + 1) == Range(first, k) + {first + k};
    assert v2.Keys == v.Keys + {first + k};
    GrownOld(m, v, v2, first, k);
  }

  lemma GrownOld(m: map<nat, Pte>, v: map<nat, Pte>, v2: map<nat, Pte>, first: nat, k: nat)
    requires v.Keys == m.Keys + Range(first, k) && first + k !in v && v2.Keys == v.Keys + {first + k}
    requires (forall x :: x in m ==> v[x] == m[x]) && forall x :: x in v ==> v2[x] == v[x]
    ensures forall x :: x in m ==> x in v2 && v2[x] == m[x]
  {
  }

  lemma MappedPage(f: Frames, free: seq<nat>, pos: Shape, t: nat, b: seq<nat>, f2: Frames, free2: seq<nat>, pos2: Shape)
    requires Mapped(f, free, pos, t, b, f2, free2, pos2)
    ensures t in f2 && f2[t] == Data(b)
  {
    assert t in f[t := Data(b)] && t !in pos;
  }

  /** The pages taken so far are outside the tree and apart from everything old. */
  lemma LedgerApart(f0: Frames, free0: seq<nat>, pos0: Shape, f: Frames, free: seq<nat>, pos: Shape, taken: seq<nat>)
    requires Ledger(f0.Keys, Pages(free0), f.Keys, Pages(free), pos.Keys - pos0.Keys, Pages(taken))
    requires Extends(pos0, pos) && pos0.Keys <= f0.Keys
    ensures forall j :: 0 <= j < |taken| ==> taken[j] in f && taken[j] !in pos && taken[j] !in f0
    ensures f0.Keys !! (pos.Keys - pos0.Keys)
  {
    forall j | 0 <= j < |taken| ensures taken[j] in f && taken[j] !in pos && taken[j] !in f0 {
      assert taken[j] in Pages(taken);
    }
  }

  /** kalloc worked but mappages did not: the page goes back, only tables stay. */
  lemma GrownFail(f0: Frames, free0: seq<nat>, pos0: Shape, m: map<nat, Pte>, first: nat, want: seq<Wanted>,
                  taken: seq<nat>, f: Frames, free: seq<nat>, pos: Shape, v: map<nat, Pte>,
                  t: nat, b: seq<nat>, f2: Frames, free2: seq<nat>, pos2: Shape)
    requires Grown(f0, free0, pos0, m, first, want, taken, f, free, pos, v)
    requires Mapped(f, free, pos, t, b, f2, free2, pos2)
    ensures Grown(f0, free0, pos0, m, first, want, taken, f2 - {t}, [t] + free2, pos2, v)
  {
    hide Ledger, OthersKept, Extends;
    LedgerApart(f0, free0, pos0, f, free, pos, taken);
    MappedOthers(f0, pos0, f, free, pos, t, b, f2, free2, pos2);
    MappedLedger(f0, free0, pos0, f, free, pos, Pages(taken), t, b, f2, free2, pos2);
    forall j: nat | j < |want| ensures NewPage(f2 - {t}, v, first, want, taken, j) {
      assert NewPage(f, v, first, want, taken, j);
      MappedKeeps(f, free, pos, t, b, f2, free2, pos2, taken[j]);
    }
  }

  // ---------------------------------------------------------------- rollback

  /** The pages behind the new range are exactly the ones taken, each used once. */
  lemma GrownOwns(f0: Frames, free0: seq<nat>, pos0: Shape, m: map<nat, Pte>, first: nat, want: seq<Wanted>,
                  taken: seq<nat>, f: Frames, free: seq<nat>, pos: Shape, v: map<nat, Pte>)
    requires Grown(f0, free0, pos0, m, first, want, taken, f, free, pos, v)
    ensures Range(first, |want|) <= v.Keys
    ensures OwnsRange(f, v, first, |want|) && RangePages(v, first, |want|) == Pages(taken)
  {
    hide Ledger, OthersKept, Extends, Range;
    forall x | x in v && first <= x < first + |want| ensures IsData(f, v[x].ppn) && v[x].ppn == taken[x - first] {
      assert NewPage(f, v, first, want, taken, x - first);
    }
    forall j | 0 <= j < |taken| ensures taken[j] in RangePages(v, first, |want|) {
      assert NewPage(f, v, first, want, taken, j);
      assert v[first + j].ppn == taken[j];
    }
  }

  lemma GrownUndo(f0: Frames, free0: seq<nat>, pos0: Shape, m: map<nat, Pte>, first: nat, want: seq<Wanted>,
                  taken: seq<nat>, f: Frames, free: seq<nat>, pos: Shape, v: map<nat, Pte>, f2: Frames, free2: seq<nat>)
    requires Grown(f0, free0, pos0, m, first, want, taken, f, free, pos, v)
    requires Range(first, |want|) !! m.Keys
    requires Gave(f, free, pos, f2, free2, Pages(taken), |want|)
    ensures v - Range(first, |want|) == m
    ensures Took(f0, free0, pos0, f2, free2, pos)
  {
    hide Range;
    LedgerApart(f0, free0, pos0, f, free, pos, taken);
    UndoLedger(f0.Keys, Pages(free0), f.Keys, Pages(free), pos.Keys - pos0.Keys, Pages(taken), f2.Keys, Pages(free2));
    forall p | p in f0 && p !in pos0 ensures p in f2 && f2[p] == f0[p] {
    }
  }

  lemma UndoLedger(used0: set<nat>, free0: set<nat>, used: set<nat>, free: set<nat>, tables: set<nat>, data: set<nat>,
                   used2: set<nat>, free2: set<nat>)
    requires Ledger(used0, free0, used, free, tables, data)
    requires used2 == used - data && free2 == free + data
    ensures used2 == used0 + tables && free0 == free2 + tables && used0 !! tables
  {
  }

  // ---------------------------------------------------------------- uvmalloc

  /** One page of uvmalloc's or uvmcopy's loop; on failure the page is given back. */
  method AddPage(mem: Memory, root: nat, vpn: nat, w: Wanted, ghost pos: Shape)
    returns (ok: bool, ghost t: nat, ghost free1: seq<nat>, ghost f2: Frames, ghost pos': Shape)
    requires mem.Valid() && Tree(mem.frames, root, pos) && vpn < MAXVPN && vpn !in View(mem.frames, root)
    requires w.perm.r || w.perm.w || w.perm.x
    modifies mem
    ensures mem.Valid() && Tree(mem.frames, root, pos')
    ensures ok ==> Mapped(old(mem.frames), old(mem.free), pos, t, w.bytes, mem.frames, mem.free, pos')
    ensures ok ==> View(mem.frames, root) == old(View(mem.frames, root))[vpn := w.perm.(v := true, ppn := t)]
    ensures !ok ==> View(mem.frames, root) == old(View(mem.frames, root))
    ensures !ok && old(mem.free) == [] ==> mem.frames == old(mem.frames) && mem.free == [] && pos' == pos
    ensures !ok && old(mem.free) != [] ==> mem.frames == f2 - {t} && mem.free == [t] + free1
    ensures !ok && old(mem.free) != [] ==> Mapped(old(mem.frames), old(mem.free), pos, t, w.bytes, f2, free1, pos')
    ensures ok <==> Cost(pos, Path(vpn)) + 1 <= |old(mem.free)|
    ensures ok ==> Paid(pos, Path(vpn), 1, |old(mem.free)|, pos', |mem.free|)
  {
    hide Tree, View, Took, MapRange, Range, Cost, Paid, Path;
    OnePath(vpn);
    pos' := pos;
    t, free1, f2 := 0, [], map[];
    TreeFacts(mem.frames, root, pos);
    var page := mem.Kalloc();
    if page.None? {
      return false, t, free1, f2, pos';
    }
    t := page.value;
    ghost var f := mem.frames;
    TreeFrame(f, f[t := Data(w.bytes)], root, pos);
    mem.frames := mem.frames[page.value := Data(w.bytes)];
    ghost var k;
    OneUnmapped(View(mem.frames, root), vpn);
    ok, k, pos' := mem.MapPages(root, vpn, 1, page.value, w.perm, pos);
    MapOnePage(old(View(mem.frames, root)), vpn, k, page.value, w.perm);
    PaidPage(pos, Path(vpn), |old(mem.free)|, pos', |mem.free|);
    if !ok {
      free1, f2 := mem.free, mem.frames;
      PageOutside(f, root, pos, t, w.bytes, mem.frames, mem.free, pos', old(mem.free));
      TreeFacts(f2, root, pos');
      TreeFrame(f2, f2 - {t}, root, pos');
      mem.Kfree(page.value);
    }
  }

  lemma OnePath(vpn: nat)
    ensures Paths(vpn, 1) == Path(vpn)
  {
    assert Paths(vpn, 1) == Paths(vpn, 0) + Path(vpn);
  }

  /** A page besides the tables. */
  lemma PaidPage(pos0: Shape, need: set<Pos>, n0: nat, pos: Shape, n: nat)
    requires n0 > 0
    ensures Paid(pos0, need, 0, n0 - 1, pos, n) ==> Paid(pos0, need, 1, n0, pos, n)
  {
  }

  lemma PaidAll(pos0: Shape, first: nat, k: nat, n0: nat, pos: Shape, n: nat)
    ensures Paid(pos0, Paths(first, k), k, n0, pos, n) ==> Cost(pos0, Paths(first, k)) + k <= n0
  {
  }

  lemma OneUnmapped(m: map<nat, Pte>, vpn: nat)
    requires vpn !in m
    ensures Range(vpn, 1) !! m.Keys
  {
    RangeIs(vpn, 1);
  }

  lemma MapOnePage(m: map<nat, Pte>, vpn: nat, k: nat, ppn: nat, perm: Pte)
    requires k <= 1
    ensures MapRange(m, vpn, k, ppn, perm) == if k == 0 then m else m[vpn := perm.(v := true, ppn := ppn)]
  {
    if k == 1 {
      MapNone(m, vpn, ppn, perm);
    }
  }

  lemma PageOutside(f: Frames, root: nat, pos: Shape, t: nat, b: seq<nat>, f2: Frames, free2: seq<nat>, pos2: Shape,
                    free: seq<nat>)
    requires t !in f && pos.Keys <= f.Keys && |free| > 0 && free[0] == t
    requires Took(f[t := Data(b)], free[1..], pos, f2, free2, pos2)
    requires ValidPool(f, free)
    ensures t !in pos2 && t !in free2
  {
    assert t in f[t := Data(b)];
    assert t in free2 ==> t in Pages(free2);
    assert t !in free[1..];
  }

  /** With too little for the next page there was too little for all. */
  lemma PageCost(pos0: Shape, first: nat, a: nat, n: nat, n0: nat, pos1: Shape, n1: nat)
    requires a < n && Paid(pos0, Paths(first, a), a, n0, pos1, n1)
    ensures n1 < Cost(pos1, Path(first + a)) + 1 ==> n0 < Cost(pos0, Paths(first, n)) + n
  {
    hide Cost, Paid;
    MapCost(pos0, first, a, n, 1, n0, pos1, n1);
  }

  lemma PagePaid(pos0: Shape, first: nat, a: nat, n0: nat, pos1: Shape, n1: nat, pos2: Shape, n2: nat)
    requires Paid(pos0, Paths(first, a), a, n0, pos1, n1) && Paid(pos1, Path(first + a), 1, n1, pos2, n2)
    ensures Paid(pos0, Paths(first, a + 1), a + 1, n0, pos2, n2)
  {
    hide Cost, Paid;
    PaidMore(pos0, Paths(first, a), a, n0, pos1, n1, Path(first + a), 1, pos2, n2);
  }

  /**
    uvmalloc: grow from oldsz to newsz bytes with zeroed user pages.  When a page or a table cannot
    be had, the translation and every data page taken are as before; only empty tables stay.
   */
  method UvmAlloc(mem: Memory, root: nat, oldsz: nat, newsz: nat, xperm: Pte, ghost pos: Shape)
    returns (sz: nat, ghost ok: bool, ghost taken: seq<nat>, ghost pos': Shape)
    requires mem.Valid() && Tree(mem.frames, root, pos)
    requires oldsz <= newsz ==> PagesFor(newsz) <= MAXVPN
    requires oldsz <= newsz ==> Range(PagesFor(oldsz), PagesFor(newsz) - PagesFor(oldsz)) !! View(mem.frames, root).Keys
    modifies mem
    ensures mem.Valid() && Tree(mem.frames, root, pos')
    ensures newsz < oldsz ==> sz == oldsz && mem.frames == old(mem.frames) && mem.free == old(mem.free) && pos' == pos
    ensures oldsz <= newsz ==> sz == if ok then newsz else 0
    ensures oldsz <= newsz && ok ==>
              Grown(old(mem.frames), old(mem.free), pos, old(View(mem.frames, root)), PagesFor(oldsz),
                    UserPages(PagesFor(newsz) - PagesFor(oldsz), xperm), taken,
                    mem.frames, mem.free, pos', View(mem.frames, root))
    ensures oldsz <= newsz && !ok ==>
              && View(mem.frames, root) == old(View(mem.frames, root))
              && Took(old(mem.frames), old(mem.free), pos, mem.frames, mem.free, pos')
    ensures oldsz <= newsz ==>
              var n := PagesFor(newsz) - PagesFor(oldsz);
              && (ok <==> n + Cost(pos, Paths(PagesFor(oldsz), n)) <= |old(mem.free)|)
              && (|old(mem.free)| >= 3 * n ==> ok)
  {
    hide Tree, View, Took, Range, Grown, Mapped, UserPages, Gave, OwnsRange, RangePages, Pages, Cost, Paid, Path;
    pos', taken, ok := pos, [], true;
    if newsz < oldsz {
      return oldsz, ok, taken, pos';
    }
    ghost var f0, free0, m := mem.frames, mem.free, View(mem.frames, root);
    var first := PagesFor(oldsz);
    ghost var n := PagesFor(newsz) - first;
    var a := first;
    TreeFacts(f0, root, pos);
    GrownNone(f0, free0, pos, m, first);
    NoUserPages(xperm);
    PaidNothing(pos, |free0|);
    TwoEach(pos, first, n);
    while a * PGSIZE < newsz
      invariant first <= a <= first + n
      invariant mem.Valid() && Tree(mem.frames, root, pos')
      invariant Grown(f0, free0, pos, m, first, UserPages(a - first, xperm), taken, mem.frames, mem.free, pos',
                      View(mem.frames, root))
      invariant Paid(pos, Paths(first, a - first), a - first, |free0|, pos', |mem.free|)
    {
      assert a - first < n;
      ghost var n1 := |mem.free|;
      PageCost(pos, first, a - first, n, |free0|, pos', n1);
      MoreUserPages(a - first, xperm);
      GrownNext(f0, free0, pos, m, first, UserPages(a - first, xperm), taken, mem.frames, mem.free, pos',
                View(mem.frames, root), n);
      ghost var f, free, v, p0 := mem.frames, mem.free, View(mem.frames, root), pos';
      ghost var t, free1, f2;
      var done;
      done, t, free1, f2, pos' := AddPage(mem, root, a, UserPage(xperm), pos');
      if !done {
        ok := false;
        if free != [] {
          GrownFail(f0, free0, pos, m, first, UserPages(a - first, xperm), taken, f, free, p0, v, t,
                    UserPage(xperm).bytes, f2, free1, pos');
        }
        UvmUndo(mem, root, first, a - first, f0, free0, pos, m, UserPages(a - first, xperm), taken, pos', n);
        return 0, ok, taken, pos';
      }
      GrownTurn(f0, free0, pos, m, first, UserPages(a - first, xperm), taken, f, free, p0, v, t, UserPage(xperm),
                mem.frames, mem.free, pos');
      PagePaid(pos, first, a - first, |free0|, p0, n1, pos', |mem.free|);
      taken := taken + [t];
      a := a + 1;
    }
    PaidAll(pos, first, n, |free0|, pos', |mem.free|);
    return newsz, ok, taken, pos';
  }

  /** uvmdealloc: shrink from oldsz to newsz bytes; the pages above newsz are unmapped and given back. */
  method UvmDealloc(mem: Memory, root: nat, oldsz: nat, newsz: nat, ghost pos: Shape) returns (sz: nat)
    requires mem.Valid() && Tree(mem.frames, root, pos) && PagesFor(oldsz) <= MAXVPN
    requires newsz < oldsz ==>
               OwnsRange(mem.frames, View(mem.frames, root), PagesFor(newsz), PagesFor(oldsz) - PagesFor(newsz))
    requires newsz < oldsz ==> Range(PagesFor(newsz), PagesFor(oldsz) - PagesFor(newsz)) <= View(mem.frames, root).Keys
    modifies mem
    ensures mem.Valid() && Tree(mem.frames, root, pos) && sz == if newsz < oldsz then newsz else oldsz
    ensures newsz >= oldsz ==> mem.frames == old(mem.frames) && mem.free == old(mem.free)
    ensures newsz < oldsz ==>
              var n := PagesFor(oldsz) - PagesFor(newsz);
              && View(mem.frames, root) == old(View(mem.frames, root)) - Range(PagesFor(newsz), n)
              && Gave(old(mem.frames), old(mem.free), pos, mem.frames, mem.free,
                      RangePages(old(View(mem.frames, root)), PagesFor(newsz), n), n)
  {
    hide Tree, View, Range, Gave, OwnsRange, RangePages, Pages;
    if newsz >= oldsz {
      return oldsz;
    }
    if PagesFor(newsz) < PagesFor(oldsz) {
      mem.UnmapPages(root, PagesFor(newsz), PagesFor(oldsz) - PagesFor(newsz), true, pos);
    } else {
      GaveNone(mem.frames, mem.free, pos, View(mem.frames, root), PagesFor(newsz));
    }
    return newsz;
  }

  lemma GaveNone(f: Frames, free: seq<nat>, pos: Shape, m: map<nat, Pte>, first: nat)
    ensures Gave(f, free, pos, f, free, RangePages(m, first, 0), 0) && m - Range(first, 0) == m
  {
    RangeNone(m, first);
    GaveNothing(f, free, pos);
    assert RangePages(m, first, 0) == {};
  }

  /** uvmdealloc as the error paths use it: unmap and free the pages added so far. */
  method UvmUndo(mem: Memory, root: nat, first: nat, k: nat, ghost f0: Frames, ghost free0: seq<nat>, ghost pos0: Shape,
                 ghost m: map<nat, Pte>, ghost want: seq<Wanted>, ghost taken: seq<nat>, ghost pos: Shape, ghost n: nat)
    requires mem.Valid() && Tree(mem.frames, root, pos) && k == |want| <= n && first + n <= MAXVPN
    requires Grown(f0, free0, pos0, m, first, want, taken, mem.frames, mem.free, pos, View(mem.frames, root))
    requires Range(first, n) !! m.Keys
    modifies mem
    ensures mem.Valid() && Tree(mem.frames, root, pos)
    ensures View(mem.frames, root) == m && Took(f0, free0, pos0, mem.frames, mem.free, pos)
  {
    hide Tree, View, Took, Range, Grown, Gave, OwnsRange, RangePages, Pages;
    ghost var f, free, v := mem.frames, mem.free, View(mem.frames, root);
    GrownOwns(f0, free0, pos0, m, first, want, taken, f, free, pos, v);
    PrefixApart(m, first, k, n);
    mem.UnmapPages(root, first, k, true, pos);
    GrownUndo(f0, free0, pos0, m, first, want, taken, f, free, pos, v, mem.frames, mem.free);
  }

  lemma PrefixApart(m: map<nat, Pte>, first: nat, k: nat, n: nat)
    requires k <= n && Range(first, n) !! m.Keys
    ensures Range(first, k) !! m.Keys
  {
    RangeIs(first, n);
    RangeIs(first, k);
  }

  lemma GrownNext(f0: Frames, free0: seq<nat>, pos0: Shape, m: map<nat, Pte>, first: nat, want: seq<Wanted>,
                  taken: seq<nat>, f: Frames, free: seq<nat>, pos: Shape, v: map<nat, Pte>, n: nat)
    requires Grown(f0, free0, pos0, m, first, want, taken, f, free, pos, v)
    requires |want| < n && Range(first, n) !! m.Keys
    ensures first + |want| !in v
  {
    RangeIs(first, n);
    RangeIs(first, |want|);
  }

  /** mappages(..., PTE_R|PTE_U|xperm) of a zeroed page. */
  function UserPage(xperm: Pte): Wanted {
    Wanted(Blank(), xperm.(r := true, u := true))
  }

  function UserPages(n: nat, xperm: Pte): (ws: seq<Wanted>)
    ensures |ws| == n
  {
    seq(n, _ => UserPage(xperm))
  }

  lemma NoUserPages(xperm: Pte)
    ensures UserPages(0, xperm) == []
  {
  }

  lemma MoreUserPages(n: nat, xperm: Pte)
    ensures UserPages(n + 1, xperm) == UserPages(n, xperm) + [UserPage(xperm)]
  {
  }

  // ---------------------------------------------------------------- uvmcopy

  /** What the child's first n pages should be: the parent's bytes and flags. */
  ghost function Copies(f: Frames, m: map<nat, Pte>, n: nat): (ws: seq<Wanted>)
    requires Readable(f, m, n)
    ensures |ws| == n
  {
    if n == 0 then []
    else
      assert Readable(f, m, n - 1);
      Copies(f, m, n - 1) + [Wanted(f[m[n - 1].ppn].bytes, m[n - 1])]
  }

  /** Pages [0, n) are mapped to data pages. */
  ghost predicate Readable(f: Frames, m: map<nat, Pte>, n: nat) {
    forall x: nat :: x < n ==> x in m && IsData(f, m[x].ppn)
  }

  /** The parent's side of uvmcopy: pages [0, n) are mapped to data pages. */
  ghost predicate Parent(f: Frames, root: nat, pos: Shape, n: nat) {
    Tree(f, root, pos) && n <= MAXVPN && Readable(f, View(f, root), n)
  }

  /**
    uvmcopy: give the child the parent's first sz bytes, page by page, on frames of its own.  The
    parent is untouched; on failure so is the child's translation, and every data page is returned.
   */
  method UvmCopy(mem: Memory, parent: nat, child: nat, sz: nat, ghost ppos: Shape, ghost cpos: Shape)
    returns (ok: bool, ghost taken: seq<nat>, ghost cpos': Shape)
    requires mem.Valid() && Parent(mem.frames, parent, ppos, PagesFor(sz))
    requires Tree(mem.frames, child, cpos) && ppos.Keys !! cpos.Keys
    requires Range(0, PagesFor(sz)) !! View(mem.frames, child).Keys
    modifies mem
    ensures mem.Valid() && Tree(mem.frames, child, cpos')
    ensures Tree(mem.frames, parent, ppos) && View(mem.frames, parent) == old(View(mem.frames, parent))
    ensures ok ==>
              Grown(old(mem.frames), old(mem.free), cpos, old(View(mem.frames, child)), 0,
                    old(Copies(mem.frames, View(mem.frames, parent), PagesFor(sz))), taken,
                    mem.frames, mem.free, cpos', View(mem.frames, child))
    ensures !ok ==>
              && View(mem.frames, child) == old(View(mem.frames, child))
              && Took(old(mem.frames), old(mem.free), cpos, mem.frames, mem.free, cpos')
    ensures ok <==> PagesFor(sz) + Cost(cpos, Paths(0, PagesFor(sz))) <= |old(mem.free)|
    ensures |old(mem.free)| >= 3 * PagesFor(sz) ==> ok
  {
    hide Tree, View, Took, Range, Grown, Mapped, Gave, OwnsRange, RangePages, Pages, Copies, Parent, Readable;
    hide Cost, Paid, Path;
    cpos', taken, ok := cpos, [], true;
    ghost var f0, free0, m := mem.frames, mem.free, View(mem.frames, child);
    ghost var pm := View(mem.frames, parent);
    ghost var n := PagesFor(sz);
    ParentFacts(f0, parent, ppos, n);
    TreeFacts(f0, child, cpos);
    GrownNone(f0, free0, cpos, m, 0);
    ghost var want: seq<Wanted> := [];
    CopyNone(f0, pm);
    PaidNothing(cpos, |free0|);
    TwoEach(cpos, 0, n);
    var i := 0;
    while i * PGSIZE < sz
      invariant i <= n && Readable(f0, pm, i) && want == Copies(f0, pm, i)
      invariant mem.Valid() && Tree(mem.frames, child, cpos')
      invariant Grown(f0, free0, cpos, m, 0, want, taken, mem.frames, mem.free, cpos', View(mem.frames, child))
      invariant Paid(cpos, Paths(0, i), i, |free0|, cpos', |mem.free|)
    {
      assert i < n;
      ghost var n1 := |mem.free|;
      PageCost(cpos, 0, i, n, |free0|, cpos', n1);
      GrownNext(f0, free0, cpos, m, 0, want, taken, mem.frames, mem.free, cpos', View(mem.frames, child), n);
      ParentKept(f0, free0, cpos, m, want, taken, mem.frames, mem.free, cpos', View(mem.frames, child), parent, ppos,
                 n);
      var bytes, flags := ReadPage(mem, parent, i, ppos);
      var w := Wanted(bytes, flags);
      CopyNext(f0, pm, n, i);
      ghost var f, free, v, p0 := mem.frames, mem.free, View(mem.frames, child), cpos';
      ghost var t, free1, f2;
      var done;
      done, t, free1, f2, cpos' := AddPage(mem, child, i, w, cpos');
      if !done {
        ok := false;
        if free != [] {
          GrownFail(f0, free0, cpos, m, 0, want, taken, f, free, p0, v, t, w.bytes, f2, free1, cpos');
        }
        UvmUndo(mem, child, 0, i, f0, free0, cpos, m, want, taken, cpos', n);
        TookKeeps(f0, free0, cpos, mem.frames, mem.free, cpos', parent, ppos);
        return;
      }
      GrownTurn(f0, free0, cpos, m, 0, want, taken, f, free, p0, v, t, w, mem.frames, mem.free, cpos');
      PagePaid(cpos, 0, i, |free0|, p0, n1, cpos', |mem.free|);
      want, taken := want + [w], taken + [t];
      i := i + 1;
    }
    PaidAll(cpos, 0, n, |free0|, cpos', |mem.free|);
    ParentKept(f0, free0, cpos, m, want, taken, mem.frames, mem.free, cpos', View(mem.frames, child), parent, ppos, n);
    ParentFacts(mem.frames, parent, ppos, n);
  }

  /** walk(old, i, 0) and the page behind the entry it finds. */
  method ReadPage(mem: Memory, root: nat, vpn: nat, ghost pos: Shape) returns (bytes: seq<nat>, flags: Pte)
    requires mem.Valid() && Parent(mem.frames, root, pos, vpn + 1)
    modifies mem
    ensures mem.frames == old(mem.frames) && mem.free == old(mem.free)
    ensures var m := View(mem.frames, root);
            vpn in m && IsData(mem.frames, m[vpn].ppn) && bytes == mem.frames[m[vpn].ppn].bytes && flags == m[vpn]
    ensures flags.r || flags.w || flags.x
  {
    hide Tree, View, Took, Px;
    ghost var pos';
    var r;
    assert vpn in View(mem.frames, root) && IsData(mem.frames, View(mem.frames, root)[vpn].ppn);
    r, pos' := mem.Walk(root, vpn, false, pos);
    MappedEntry(mem.frames, root, pos, r.value, vpn);
    flags := mem.frames[r.value].entries[Px(0, vpn)];
    bytes := mem.frames[flags.ppn].bytes;
  }

  lemma ParentFacts(f: Frames, root: nat, pos: Shape, n: nat)
    requires Parent(f, root, pos, n)
    ensures Tree(f, root, pos) && n <= MAXVPN && Readable(f, View(f, root), n)
    ensures forall k: nat :: k <= n ==> Parent(f, root, pos, k)
  {
  }

  lemma CopyNone(f: Frames, m: map<nat, Pte>)
    ensures Readable(f, m, 0) && Copies(f, m, 0) == []
  {
  }

  lemma CopyNext(f: Frames, m: map<nat, Pte>, n: nat, i: nat)
    requires Readable(f, m, n) && i < n
    ensures Readable(f, m, i) && Readable(f, m, i + 1)
    ensures i in m && IsData(f, m[i].ppn)
    ensures Copies(f, m, i + 1) == Copies(f, m, i) + [Wanted(f[m[i].ppn].bytes, m[i])]
  {
  }

  /** Everything outside the child's tree, so the parent, is as it was. */
  lemma ParentKept(f0: Frames, free0: seq<nat>, cpos: Shape, m: map<nat, Pte>, want: seq<Wanted>, taken: seq<nat>,
                   f: Frames, free: seq<nat>, cpos': Shape, v: map<nat, Pte>, root: nat, pos: Shape, n: nat)
    requires Grown(f0, free0, cpos, m, 0, want, taken, f, free, cpos', v)
    requires Parent(f0, root, pos, n) && pos.Keys !! cpos.Keys && forall p :: p in cpos ==> IsTable(f0, p)
    ensures Parent(f, root, pos, n) && View(f, root) == View(f0, root)
    ensures forall k: nat :: k <= n ==> Parent(f, root, pos, k)
    ensures forall x: nat :: x < n ==>
              x in View(f, root) && View(f, root)[x].ppn in f && View(f, root)[x].ppn in f0
              && f[View(f, root)[x].ppn] == f0[View(f, root)[x].ppn]
  {
    hide Tree, View, Range, Ledger, NewPage, Extends;
    TreeFacts(f0, root, pos);
    TreeFrame(f0, f, root, pos);
    forall x: nat | x < n
      ensures x in View(f, root) && IsData(f, View(f, root)[x].ppn)
      ensures f[View(f, root)[x].ppn] == f0[View(f, root)[x].ppn]
    {
      assert IsData(f0, View(f0, root)[x].ppn);
    }
  }

  lemma TookKeeps(f0: Frames, free0: seq<nat>, cpos: Shape, f: Frames, free: seq<nat>, cpos': Shape, root: nat,
                  pos: Shape)
    requires Took(f0, free0, cpos, f, free, cpos') && Tree(f0, root, pos) && pos.Keys !! cpos.Keys
    ensures Tree(f, root, pos) && View(f, root) == View(f0, root)
  {
    hide Tree, View;
    TreeFacts(f0, root, pos);
    TreeFrame(f0, f, root, pos);
  }
}
