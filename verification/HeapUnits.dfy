/** Counting the units of the user heap: free plus in use is what sbrk gave. */
module HeapUnits {
  import opened FreeList
  import opened Umalloc

  /** Units in the first k free blocks. */
  function FreeTotal(bs: seq<Block>, k: nat): nat
    requires k <= |bs|
  {
    if k == 0 then 0 else FreeTotal(bs, k - 1) + bs[k - 1].size
  }

  /** Units in the blocks in use. */
  ghost function UsedTotal(alloc: map<nat, nat>): nat
    decreases |alloc|
  {
    if alloc == map[] then 0
    else
      var a := Pick(alloc);
      Shrinks(alloc, a);
      UsedTotal(alloc - {a}) + alloc[a]
  }

  ghost function Pick(alloc: map<nat, nat>): (a: nat)
    requires alloc != map[]
    ensures a in alloc
  {
    var a :| a in alloc;
    a
  }

  lemma Shrinks(alloc: map<nat, nat>, a: nat)
    requires a in alloc
    ensures |alloc - {a}| == |alloc| - 1
  {
    assert alloc == (alloc - {a})[a := alloc[a]];
  }

  lemma {:induction false} UnitsSize(a: nat, n: nat)
    ensures |Units(a, n)| == n
    decreases n
  {
    if n == 0 {
      assert Units(a, 0) == {};
    } else {
      UnitsSize(a, n - 1);
      UnitsSnoc(a, n);
    }
  }

  lemma UnitsSnoc(a: nat, n: nat)
    requires n > 0
    ensures Units(a, n) == Units(a, n - 1) + {a + n - 1} && a + n - 1 !in Units(a, n - 1)
  {
    forall u: nat
      ensures u in Units(a, n) <==> a <= u < a + n
      ensures u in Units(a, n - 1) <==> a <= u < a + n - 1
    {
      UnitsHas(a, n, u);
      UnitsHas(a, n - 1, u);
    }
  }

  lemma UnitsHas(a: nat, n: nat, u: nat)
    ensures u in Units(a, n) <==> Block(a, n).Has(u)
  {
    assert Block(a, n).Has(u) ==> u in Units(a, n);
  }

  function FreeUnits(bs: seq<Block>, k: nat): set<nat>
    requires k <= |bs|
  {
    if k == 0 then {} else FreeUnits(bs, k - 1) + Units(bs[k - 1].addr, bs[k - 1].size)
  }

  lemma {:induction false} FreeUnitsHas(bs: seq<Block>, k: nat, u: nat)
    requires k <= |bs|
    ensures u in FreeUnits(bs, k) <==> exists i :: 0 <= i < k && bs[i].Has(u)
  {
    if k > 0 {
      FreeUnitsHas(bs, k - 1, u);
      UnitsHas(bs[k - 1].addr, bs[k - 1].size, u);
    }
  }

  /** A block shares no unit with those before it. */
  lemma FreeUnitsApart(bs: seq<Block>, k: nat, u: nat)
    requires Canonical(bs) && k < |bs| && u in FreeUnits(bs, k)
    ensures u !in Units(bs[k].addr, bs[k].size)
  {
    hide Canonical, FreeUnits, Units;
    FreeUnitsHas(bs, k, u);
    UnitsHas(bs[k].addr, bs[k].size, u);
    var i :| 0 <= i < k && bs[i].Has(u);
    HasOne(bs, k, i, u);
  }

  lemma {:induction false} FreeUnitsSize(bs: seq<Block>, k: nat)
    requires Canonical(bs) && k <= |bs|
    ensures |FreeUnits(bs, k)| == FreeTotal(bs, k)
  {
    hide Canonical, Units;
    if k > 0 {
      FreeUnitsSize(bs, k - 1);
      var before, mine := FreeUnits(bs, k - 1), Units(bs[k - 1].addr, bs[k - 1].size);
      UnitsSize(bs[k - 1].addr, bs[k - 1].size);
      forall u | u in before
        ensures u !in mine
      {
        FreeUnitsApart(bs, k - 1, u);
      }
      SumSize(before, mine);
    }
  }

  lemma SumSize(a: set<nat>, b: set<nat>)
    requires forall u :: u in a ==> u !in b
    ensures |a + b| == |a| + |b|
  {
    assert a !! b;
  }

  /** A set that holds exactly the units in use has as many as their blocks add up to. */
  lemma {:induction false} UsedSize(alloc: map<nat, nat>, size: Fields, units: set<nat>)
    requires AllocOk(alloc, size) && forall u: nat :: u in units <==> InUse(alloc, u)
    ensures |units| == UsedTotal(alloc)
    decreases |alloc|
  {
    hide InUse, Units, AllocOk, UsedTotal;
    if alloc == map[] {
      NoneUsed(units);
    } else {
      var a := Pick(alloc);
      var rest, mine := alloc - {a}, Units(a, alloc[a]);
      Shrinks(alloc, a);
      UnitsSize(a, alloc[a]);
      forall u: nat
        ensures (u in units - mine <==> InUse(rest, u)) && (u in mine ==> u in units)
      {
        InUseLess(alloc, size, a, u);
      }
      RestOk(alloc, size, a);
      UsedSize(rest, size, units - mine);
      SplitSize(units, mine);
      UsedMore(alloc);
    }
  }

  lemma SplitSize(units: set<nat>, mine: set<nat>)
    requires mine <= units
    ensures |units| == |units - mine| + |mine|
  {
    assert units == (units - mine) + mine;
  }

  lemma NoneUsed(units: set<nat>)
    requires forall u: nat :: u in units <==> InUse(map[], u)
    ensures |units| == UsedTotal(map[])
  {
    forall u: nat
      ensures !InUse(map[], u)
    {
    }
    assert units == {};
  }

  lemma UsedMore(alloc: map<nat, nat>)
    requires alloc != map[]
    ensures UsedTotal(alloc) == UsedTotal(alloc - {Pick(alloc)}) + alloc[Pick(alloc)]
  {
  }

  lemma InUseLess(alloc: map<nat, nat>, size: Fields, a: nat, u: nat)
    requires AllocOk(alloc, size) && a in alloc
    ensures InUse(alloc - {a}, u) <==> InUse(alloc, u) && u !in Units(a, alloc[a])
    ensures u in Units(a, alloc[a]) ==> InUse(alloc, u)
  {
    InUseMinus(alloc, size, a, u);
    UnitsHas(a, alloc[a], u);
  }

  lemma RestOk(alloc: map<nat, nat>, size: Fields, a: nat)
    requires AllocOk(alloc, size)
    ensures AllocOk(alloc - {a}, size)
  {
  }

  /** Free units and units in use add up to the units obtained from sbrk. */
  lemma {:induction false} UnitsAreConserved(ptr: Fields, size: Fields, bs: seq<Block>, alloc: map<nat, nat>,
                                             owned: set<nat>)
    requires HeapOk(ptr, size, bs, alloc, owned)
    ensures FreeTotal(bs, |bs|) + UsedTotal(alloc) == |owned|
  {
    var free := FreeUnits(bs, |bs|);
    FreeUnitsSize(bs, |bs|);
    forall u: nat
      ensures u in free <==> Covers(bs, u)
    {
      FreeUnitsHas(bs, |bs|, u);
    }
    hide Canonical, Linked, FreeUnits, FreeTotal, UsedTotal;
    UsedSize(alloc, size, owned - free);
    assert owned == free + (owned - free);
  }
}
