/** malloc, free and morecore of user/umalloc.c on header fields reached by address. */
module Umalloc {
  import opened Common
  import opened FreeList

  type Fields = map<nat, nat>

  /** Address of the block after block i, round the ring. */
  function NextAddr(bs: seq<Block>, i: nat): nat
    requires i < |bs|
  {
    if i + 1 < |bs| then bs[i + 1].addr else 0
  }

  ghost predicate LinkedAt(ptr: Fields, size: Fields, bs: seq<Block>, i: nat)
    requires i < |bs|
  {
    && bs[i].addr in ptr && ptr[bs[i].addr] == NextAddr(bs, i)
    && bs[i].addr in size && size[bs[i].addr] == bs[i].size
  }

  /** The header fields spell out the list bs. */
  ghost predicate Linked(ptr: Fields, size: Fields, bs: seq<Block>) {
    forall i: nat :: i < |bs| ==> LinkedAt(ptr, size, bs, i)
  }

  /** Unit u belongs to a block handed out by malloc. */
  ghost predicate InUse(alloc: map<nat, nat>, u: nat) {
    exists a :: a in alloc && Block(a, alloc[a]).Has(u)
  }

  /** Blocks in use are non-empty, lie apart, and their headers hold their sizes. */
  ghost predicate AllocOk(alloc: map<nat, nat>, size: Fields) {
    && (forall a :: a in alloc ==> 0 < a && 1 <= alloc[a] && a in size && size[a] == alloc[a])
    && (forall a, b :: a in alloc && b in alloc && a < b ==> a + alloc[a] <= b)
  }

  /** Every unit obtained from sbrk is in exactly one free block or one block in use. */
  ghost predicate Partition(bs: seq<Block>, alloc: map<nat, nat>, owned: set<nat>) {
    && (forall u: nat :: u in owned <==> Covers(bs, u) || InUse(alloc, u))
    && (forall u: nat :: !(Covers(bs, u) && InUse(alloc, u)))
  }

  // ---------------------------------------------------------------- free

  /** The place of an address in the ring. */
  ghost predicate Between(bs: seq<Block>, j: nat, a: nat) {
    j < |bs| && bs[j].addr < a && (j + 1 < |bs| ==> a < bs[j + 1].addr)
  }

  /** A block in use fits between its free neighbours. */
  lemma InUseFits(bs: seq<Block>, alloc: map<nat, nat>, size: Fields, owned: set<nat>, j: nat, a: nat)
    requires Canonical(bs) && AllocOk(alloc, size) && Partition(bs, alloc, owned)
    requires a in alloc && Between(bs, j, a)
    ensures FitsAt(bs, j, Block(a, alloc[a]))
  {
    var b := Block(a, alloc[a]);
    assert b.Has(a);
    assert InUse(alloc, a);
    if bs[j].End() > a {
      assert bs[j].Has(a);
    }
    if j + 1 < |bs| && b.End() > bs[j + 1].addr {
      var v := bs[j + 1].addr;
      assert bs[j + 1].Has(v);
      assert Block(a, alloc[a]).Has(v);
      assert Covers(bs, v) && InUse(alloc, v);
    }
  }

  /** The header fields free() writes. */
  function FreedPtr(ptr: Fields, size: Fields, p: nat, b: nat): Fields
    requires p in ptr && p in size && b in size && (b + size[b] == ptr[p] ==> ptr[p] in ptr)
  {
    var ptr1 := ptr[b := if b + size[b] == ptr[p] then ptr[ptr[p]] else ptr[p]];
    if p + size[p] == b then ptr1[p := ptr1[b]] else ptr1[p := b]
  }

  function FreedSize(ptr: Fields, size: Fields, p: nat, b: nat): Fields
    requires p in ptr && p in size && b in size && (b + size[b] == ptr[p] ==> ptr[p] in size)
  {
    var size1 := if b + size[b] == ptr[p] then size[b := size[b] + size[ptr[p]]] else size;
    if p + size[p] == b then size1[p := size[p] + size1[b]] else size1
  }

  /** What the two adjacency tests of free() test. */
  lemma Tests(ptr: Fields, size: Fields, bs: seq<Block>, j: nat, b: Block)
    requires Canonical(bs) && Linked(ptr, size, bs) && FitsAt(bs, j, b) && b.addr in size && size[b.addr] == b.size
    ensures bs[j].addr in ptr && bs[j].addr in size && bs[j].addr != b.addr
    ensures b.addr + size[b.addr] == ptr[bs[j].addr] <==> TouchesNext(bs, j, b)
    ensures bs[j].addr + size[bs[j].addr] == b.addr <==> TouchesPrev(bs, j, b)
    ensures TouchesNext(bs, j, b) ==> ptr[bs[j].addr] == bs[j + 1].addr && LinkedAt(ptr, size, bs, j + 1)
    ensures LinkedAt(ptr, size, bs, j)
  {
    assert LinkedAt(ptr, size, bs, j);
    if j + 1 < |bs| {
      assert LinkedAt(ptr, size, bs, j + 1);
    }
  }

  ghost predicate Freeing(ptr: Fields, size: Fields, bs: seq<Block>, j: nat, b: Block) {
    Canonical(bs) && Linked(ptr, size, bs) && FitsAt(bs, j, b) && b.addr in size && size[b.addr] == b.size
  }

  /** Which header fields free() changes. */
  lemma FreedWrites(ptr: Fields, size: Fields, p: nat, b: nat, a: nat)
    requires p in ptr && p in size && b in size && b != p
    requires b + size[b] == ptr[p] ==> ptr[p] in ptr && ptr[p] in size
    ensures a != p && a != b && a in ptr ==> a in FreedPtr(ptr, size, p, b) && FreedPtr(ptr, size, p, b)[a] == ptr[a]
    ensures a != p && a != b && a in size ==>
              a in FreedSize(ptr, size, p, b) && FreedSize(ptr, size, p, b)[a] == size[a]
  {
  }

  lemma FreedLinkedBelow(ptr: Fields, size: Fields, ptr': Fields, size': Fields, bs: seq<Block>, j: nat, b: Block,
                         k: nat)
    requires Freeing(ptr, size, bs, j, b)
    requires bs[j].addr in ptr && bs[j].addr in size
    requires b.addr + size[b.addr] == ptr[bs[j].addr] ==> ptr[bs[j].addr] in ptr && ptr[bs[j].addr] in size
    requires ptr' == FreedPtr(ptr, size, bs[j].addr, b.addr) && size' == FreedSize(ptr, size, bs[j].addr, b.addr)
    requires k < j
    ensures k + 1 < |Freed(bs, j, b)| && LinkedAt(ptr', size', Freed(bs, j, b), k)
  {
    Tests(ptr, size, bs, j, b);
    FreedShape(bs, j, b);
    FreedWrites(ptr, size, bs[j].addr, b.addr, bs[k].addr);
    hide Freed, FreedPtr, FreedSize;
    assert LinkedAt(ptr, size, bs, k);
    assert bs[k].addr != bs[j].addr && bs[k].addr != b.addr;
  }

  /** Blocks behind the merged one stay as they are. */
  lemma FreedTail(bs: seq<Block>, j: nat, b: Block, k: nat)
    requires FitsAt(bs, j, b) && At(bs, j, b) < k < |Freed(bs, j, b)|
    ensures j < k - Skip(bs, j, b) < |bs| && Freed(bs, j, b)[k] == bs[k - Skip(bs, j, b)]
    ensures NextAddr(Freed(bs, j, b), k) == NextAddr(bs, k - Skip(bs, j, b))
  {
    FreedShape(bs, j, b);
    hide Freed;
  }

  /** Blocks behind block j start above a block that fits there. */
  lemma AboveFit(bs: seq<Block>, j: nat, b: Block, i: nat)
    requires Canonical(bs) && FitsAt(bs, j, b) && j < i < |bs|
    ensures bs[i].addr > bs[j].addr && bs[i].addr > b.addr
  {
    assert bs[j].End() < bs[i].addr;
    if j + 1 < i {
      assert bs[j + 1].End() < bs[i].addr;
    }
  }

  lemma FreedLinkedAbove(ptr: Fields, size: Fields, ptr': Fields, size': Fields, bs: seq<Block>, j: nat, b: Block,
                         k: nat)
    requires Freeing(ptr, size, bs, j, b)
    requires bs[j].addr in ptr && bs[j].addr in size
    requires b.addr + size[b.addr] == ptr[bs[j].addr] ==> ptr[bs[j].addr] in ptr && ptr[bs[j].addr] in size
    requires ptr' == FreedPtr(ptr, size, bs[j].addr, b.addr) && size' == FreedSize(ptr, size, bs[j].addr, b.addr)
    requires At(bs, j, b) < k < |Freed(bs, j, b)|
    ensures LinkedAt(ptr', size', Freed(bs, j, b), k)
  {
    hide Freed, FreedPtr, FreedSize, Canonical, FitsAt, Skip, At;
    Tests(ptr, size, bs, j, b);
    FreedTail(bs, j, b, k);
    var i: nat := k - Skip(bs, j, b);
    AboveFit(bs, j, b, i);
    FreedWrites(ptr, size, bs[j].addr, b.addr, bs[i].addr);
    assert LinkedAt(ptr, size, bs, i);
  }

  /** The merged block and the block before it. */
  lemma FreedHead(bs: seq<Block>, j: nat, b: Block)
    requires FitsAt(bs, j, b)
    ensures var up, low, r := TouchesNext(bs, j, b), TouchesPrev(bs, j, b), Freed(bs, j, b);
            var next := if up then NextAddr(bs, j + 1) else NextAddr(bs, j);
            var size := if up then b.size + bs[j + 1].size else b.size;
            if low then
              j < |r| && r[j] == Block(bs[j].addr, bs[j].size + size) && NextAddr(r, j) == next
            else
              && j + 1 < |r| && r[j] == bs[j] && NextAddr(r, j) == b.addr
              && r[j + 1] == Block(b.addr, size) && NextAddr(r, j + 1) == next
  {
  }

  lemma FreedLinkedHere(ptr: Fields, size: Fields, ptr': Fields, size': Fields, bs: seq<Block>, j: nat, b: Block,
                        k: nat)
    requires Freeing(ptr, size, bs, j, b)
    requires bs[j].addr in ptr && bs[j].addr in size
    requires b.addr + size[b.addr] == ptr[bs[j].addr] ==> ptr[bs[j].addr] in ptr && ptr[bs[j].addr] in size
    requires ptr' == FreedPtr(ptr, size, bs[j].addr, b.addr) && size' == FreedSize(ptr, size, bs[j].addr, b.addr)
    requires j <= k <= At(bs, j, b)
    ensures k < |Freed(bs, j, b)| && LinkedAt(ptr', size', Freed(bs, j, b), k)
  {
    hide Freed, Canonical, FitsAt, Linked, TouchesNext, TouchesPrev, NextAddr;
    Tests(ptr, size, bs, j, b);
    FreedHead(bs, j, b);
  }

  lemma FreedLinkedAt(ptr: Fields, size: Fields, bs: seq<Block>, j: nat, b: Block, k: nat)
    requires Freeing(ptr, size, bs, j, b)
    requires bs[j].addr in ptr && bs[j].addr in size
    requires b.addr + size[b.addr] == ptr[bs[j].addr] ==> ptr[bs[j].addr] in ptr && ptr[bs[j].addr] in size
    requires k < |Freed(bs, j, b)|
    ensures LinkedAt(FreedPtr(ptr, size, bs[j].addr, b.addr), FreedSize(ptr, size, bs[j].addr, b.addr), Freed(bs, j, b),
                     k)
  {
    var ptr', size' := FreedPtr(ptr, size, bs[j].addr, b.addr), FreedSize(ptr, size, bs[j].addr, b.addr);
    hide Freed, FreedPtr, FreedSize, Freeing, LinkedAt;
    if k < j {
      FreedLinkedBelow(ptr, size, ptr', size', bs, j, b, k);
    } else if k > At(bs, j, b) {
      FreedLinkedAbove(ptr, size, ptr', size', bs, j, b, k);
    } else {
      FreedLinkedHere(ptr, size, ptr', size', bs, j, b, k);
    }
  }

  lemma FreedLinked(ptr: Fields, size: Fields, bs: seq<Block>, j: nat, b: Block)
    requires Freeing(ptr, size, bs, j, b)
    ensures bs[j].addr in ptr && bs[j].addr in size
    ensures b.addr + size[b.addr] == ptr[bs[j].addr] ==> ptr[bs[j].addr] in ptr && ptr[bs[j].addr] in size
    ensures Linked(FreedPtr(ptr, size, bs[j].addr, b.addr), FreedSize(ptr, size, bs[j].addr, b.addr), Freed(bs, j, b))
  {
    Tests(ptr, size, bs, j, b);
    forall k: nat | k < |Freed(bs, j, b)|
      ensures LinkedAt(FreedPtr(ptr, size, bs[j].addr, b.addr), FreedSize(ptr, size, bs[j].addr, b.addr),
                       Freed(bs, j, b), k)
    {
      FreedLinkedAt(ptr, size, bs, j, b, k);
    }
  }

  /** free() moves the units of the block from in-use to free. */
  lemma FreedPartition(bs: seq<Block>, alloc: map<nat, nat>, size: Fields, owned: set<nat>, j: nat, a: nat)
    requires AllocOk(alloc, size) && Partition(bs, alloc, owned) && a in alloc
    requires FitsAt(bs, j, Block(a, alloc[a]))
    ensures Partition(Freed(bs, j, Block(a, alloc[a])), alloc - {a}, owned)
  {
    var b := Block(a, alloc[a]);
    forall u: nat
      ensures Covers(Freed(bs, j, b), u) <==> Covers(bs, u) || b.Has(u)
      ensures InUse(alloc, u) <==> InUse(alloc - {a}, u) || b.Has(u)
      ensures !(InUse(alloc - {a}, u) && b.Has(u))
    {
      FreedCovers(bs, j, b, u);
      InUseMinus(alloc, size, a, u);
    }
  }

  lemma InUseMinus(alloc: map<nat, nat>, size: Fields, a: nat, u: nat)
    requires AllocOk(alloc, size) && a in alloc
    ensures InUse(alloc, u) <==> InUse(alloc - {a}, u) || Block(a, alloc[a]).Has(u)
    ensures !(InUse(alloc - {a}, u) && Block(a, alloc[a]).Has(u))
  {
    var rest := alloc - {a};
    if InUse(alloc, u) {
      var c :| c in alloc && Block(c, alloc[c]).Has(u);
      if c != a {
        assert c in rest && Block(c, rest[c]).Has(u);
      }
    }
    if InUse(rest, u) {
      var c :| c in rest && Block(c, rest[c]).Has(u);
      assert c in alloc && Block(c, alloc[c]).Has(u);
    }
  }

  // ---------------------------------------------------------------- malloc

  /** The header fields malloc writes: prev is the block before i in the ring. */
  function TakenPtr(ptr: Fields, size: Fields, prev: nat, p: nat, n: nat): Fields
    requires p in ptr && p in size
  {
    if size[p] == n then ptr[prev := ptr[p]] else ptr
  }

  function TakenSize(size: Fields, p: nat, n: nat): Fields
    requires p in size && size[p] >= n
  {
    if size[p] == n then size else size[p := size[p] - n][p + (size[p] - n) := n]
  }

  lemma TakenLinkedAt(ptr: Fields, size: Fields, bs: seq<Block>, i: nat, n: nat, k: nat)
    requires Canonical(bs) && Linked(ptr, size, bs) && 0 < i < |bs| && bs[i].size >= n >= 1
    requires bs[i].addr in ptr && bs[i].addr in size && size[bs[i].addr] == bs[i].size
    requires k < |Taken(bs, i, n)|
    ensures LinkedAt(TakenPtr(ptr, size, bs[i - 1].addr, bs[i].addr, n), TakenSize(size, bs[i].addr, n),
                     Taken(bs, i, n), k)
  {
    hide Linked, Canonical, Taken, NextAddr;
    if bs[i].size == n {
      var m := if k < i then k else k + 1;
      TakenWhole(bs, i, n, k);
      LinkedOne(ptr, size, bs, m);
      LinkedOne(ptr, size, bs, i);
    } else {
      TakenPart(bs, i, n, k);
      LinkedOne(ptr, size, bs, k);
    }
  }

  lemma LinkedOne(ptr: Fields, size: Fields, bs: seq<Block>, i: nat)
    requires Linked(ptr, size, bs) && i < |bs|
    ensures LinkedAt(ptr, size, bs, i)
  {
  }

  lemma TakenWhole(bs: seq<Block>, i: nat, n: nat, k: nat)
    requires Canonical(bs) && 0 < i < |bs| && bs[i].size == n && k < |Taken(bs, i, n)|
    ensures var r, m := Taken(bs, i, n), if k < i then k else k + 1;
            && m < |bs| && r[k] == bs[m]
            && (bs[m].addr == bs[i - 1].addr <==> k == i - 1)
            && NextAddr(r, k) == (if k == i - 1 then NextAddr(bs, i) else NextAddr(bs, m))
  {
    hide Canonical;
    var m := if k < i then k else k + 1;
    if m != i - 1 {
      AddrsDiffer(bs, m, i - 1);
    }
  }

  lemma TakenPart(bs: seq<Block>, i: nat, n: nat, k: nat)
    requires Canonical(bs) && 0 < i < |bs| && bs[i].size > n >= 1 && k < |Taken(bs, i, n)|
    ensures var r := Taken(bs, i, n);
            && k < |bs| && r[k].addr == bs[k].addr && NextAddr(r, k) == NextAddr(bs, k)
            && r[k].size == (if k == i then bs[i].size - n else bs[k].size)
            && (bs[k].addr == bs[i].addr <==> k == i)
            && bs[k].addr != bs[i].addr + (bs[i].size - n)
  {
    assert k < i ==> bs[k].End() < bs[i].addr;
    assert k > i ==> bs[i].End() < bs[k].addr;
  }

  lemma AddrsDiffer(bs: seq<Block>, i: nat, j: nat)
    requires Canonical(bs) && i < |bs| && j < |bs| && i != j
    ensures bs[i].addr != bs[j].addr
  {
    assert i < j ==> bs[i].End() < bs[j].addr;
    assert j < i ==> bs[j].End() < bs[i].addr;
  }

  lemma TakenLinked(ptr: Fields, size: Fields, bs: seq<Block>, i: nat, n: nat)
    requires Canonical(bs) && Linked(ptr, size, bs) && 0 < i < |bs| && bs[i].size >= n >= 1
    ensures bs[i].addr in ptr && bs[i].addr in size && size[bs[i].addr] == bs[i].size
    ensures Linked(TakenPtr(ptr, size, bs[i - 1].addr, bs[i].addr, n), TakenSize(size, bs[i].addr, n), Taken(bs, i, n))
  {
    assert LinkedAt(ptr, size, bs, i);
    var ptr', size' := TakenPtr(ptr, size, bs[i - 1].addr, bs[i].addr, n), TakenSize(size, bs[i].addr, n);
    var r := Taken(bs, i, n);
    forall k: nat | k < |r|
      ensures LinkedAt(ptr', size', r, k)
    {
      TakenLinkedAt(ptr, size, bs, i, n, k);
    }
  }

  // ---------------------------------------------------------------- the whole heap

  /** Header fields, free list and blocks in use agree with each other and with what sbrk gave. */
  ghost predicate HeapOk(ptr: Fields, size: Fields, bs: seq<Block>, alloc: map<nat, nat>, owned: set<nat>) {
    Canonical(bs) && Linked(ptr, size, bs) && AllocOk(alloc, size) && Partition(bs, alloc, owned)
  }

  /** No block in use starts inside a free block or at base. */
  lemma AllocIsNotFree(bs: seq<Block>, alloc: map<nat, nat>, size: Fields, owned: set<nat>, i: nat, c: nat)
    requires Canonical(bs) && AllocOk(alloc, size) && Partition(bs, alloc, owned) && i < |bs| && c in alloc
    ensures c != bs[i].addr && !bs[i].Has(c)
  {
    assert Block(c, alloc[c]).Has(c);
    assert InUse(alloc, c) && !Covers(bs, c);
    if i > 0 {
      assert bs[i].Has(bs[i].addr);
    }
  }

  lemma FreedAlloc(ptr: Fields, size: Fields, bs: seq<Block>, alloc: map<nat, nat>, owned: set<nat>, j: nat, a: nat)
    requires HeapOk(ptr, size, bs, alloc, owned) && a in alloc && FitsAt(bs, j, Block(a, alloc[a]))
    requires bs[j].addr in ptr && bs[j].addr in size
    requires a + size[a] == ptr[bs[j].addr] ==> ptr[bs[j].addr] in size
    ensures AllocOk(alloc - {a}, FreedSize(ptr, size, bs[j].addr, a))
  {
    forall c | c in alloc
      ensures c != bs[j].addr
    {
      AllocIsNotFree(bs, alloc, size, owned, j, c);
    }
  }

  /** free() on the whole heap. */
  lemma FreedHeap(ptr: Fields, size: Fields, bs: seq<Block>, alloc: map<nat, nat>, owned: set<nat>, j: nat, a: nat)
    requires HeapOk(ptr, size, bs, alloc, owned) && a in alloc && Between(bs, j, a)
    ensures bs[j].addr in ptr && bs[j].addr in size && a in size && a != bs[j].addr
    ensures a + size[a] == ptr[bs[j].addr] ==> ptr[bs[j].addr] in ptr && ptr[bs[j].addr] in size
    ensures HeapOk(FreedPtr(ptr, size, bs[j].addr, a), FreedSize(ptr, size, bs[j].addr, a),
                   Freed(bs, j, Block(a, alloc[a])), alloc - {a}, owned)
  {
    hide Canonical, Linked, Partition, Freed, FreedPtr, FreedSize;
    InUseFits(bs, alloc, size, owned, j, a);
    FreedLinked(ptr, size, bs, j, Block(a, alloc[a]));
    FreedCanonical(bs, j, Block(a, alloc[a]));
    FreedPartition(bs, alloc, size, owned, j, a);
    FreedAlloc(ptr, size, bs, alloc, owned, j, a);
    AllocIsNotFree(bs, alloc, size, owned, j, a);
  }

  lemma GivenIsApart(bs: seq<Block>, alloc: map<nat, nat>, size: Fields, owned: set<nat>, i: nat, n: nat, c: nat)
    requires Canonical(bs) && AllocOk(alloc, size) && Partition(bs, alloc, owned)
    requires i < |bs| && bs[i].size >= n >= 1 && c in alloc
    ensures c + alloc[c] <= Given(bs, i, n).addr || Given(bs, i, n).End() <= c
  {
    AllocIsNotFree(bs, alloc, size, owned, i, c);
    var g := Given(bs, i, n).addr;
    if c < g < c + alloc[c] {
      assert Block(c, alloc[c]).Has(g);
      assert bs[i].Has(g);
      assert Covers(bs, g) && InUse(alloc, g);
    }
  }

  lemma TakenAlloc(bs: seq<Block>, alloc: map<nat, nat>, size: Fields, owned: set<nat>, i: nat, n: nat)
    requires Canonical(bs) && AllocOk(alloc, size) && Partition(bs, alloc, owned)
    requires 0 < i < |bs| && bs[i].size >= n >= 1 && bs[i].addr in size && size[bs[i].addr] == bs[i].size
    ensures AllocOk(alloc[Given(bs, i, n).addr := n], TakenSize(size, bs[i].addr, n)) && Given(bs, i, n).addr !in alloc
  {
    forall c | c in alloc
      ensures c != bs[i].addr
      ensures c + alloc[c] <= Given(bs, i, n).addr || Given(bs, i, n).End() <= c
    {
      AllocIsNotFree(bs, alloc, size, owned, i, c);
      GivenIsApart(bs, alloc, size, owned, i, n, c);
    }
    hide Partition;
    assert bs[0].End() < bs[i].addr;
  }

  lemma InUsePlus(alloc: map<nat, nat>, g: nat, n: nat, u: nat)
    requires g !in alloc
    ensures InUse(alloc[g := n], u) <==> InUse(alloc, u) || Block(g, n).Has(u)
  {
    var more := alloc[g := n];
    if InUse(more, u) {
      var c :| c in more && Block(c, more[c]).Has(u);
      if c != g {
        assert c in alloc && Block(c, alloc[c]).Has(u);
      }
    }
    if InUse(alloc, u) {
      var c :| c in alloc && Block(c, alloc[c]).Has(u);
      assert c in more && Block(c, more[c]).Has(u);
    }
    if Block(g, n).Has(u) {
      assert g in more && Block(g, more[g]).Has(u);
    }
  }

  lemma TakenPartition(bs: seq<Block>, alloc: map<nat, nat>, owned: set<nat>, i: nat, n: nat)
    requires Canonical(bs) && Partition(bs, alloc, owned) && i < |bs| && bs[i].size >= n >= 1
    requires Given(bs, i, n).addr !in alloc
    ensures Partition(Taken(bs, i, n), alloc[Given(bs, i, n).addr := n], owned)
  {
    var r, g := Taken(bs, i, n), Given(bs, i, n);
    var more := alloc[g.addr := n];
    forall u: nat
      ensures Covers(bs, u) <==> Covers(r, u) || g.Has(u)
      ensures !(Covers(r, u) && g.Has(u))
      ensures InUse(more, u) <==> InUse(alloc, u) || g.Has(u)
    {
      TakenCovers(bs, i, n, u);
      InUsePlus(alloc, g.addr, n, u);
    }
    hide Canonical, Covers, InUse, Taken;
  }

  /** malloc on the whole heap. */
  lemma TakenHeap(ptr: Fields, size: Fields, bs: seq<Block>, alloc: map<nat, nat>, owned: set<nat>, i: nat, n: nat)
    requires HeapOk(ptr, size, bs, alloc, owned) && 0 < i < |bs| && bs[i].size >= n >= 1
    ensures bs[i].addr in ptr && bs[i].addr in size && size[bs[i].addr] == bs[i].size
    ensures Given(bs, i, n).addr !in alloc
    ensures HeapOk(TakenPtr(ptr, size, bs[i - 1].addr, bs[i].addr, n), TakenSize(size, bs[i].addr, n),
                   Taken(bs, i, n), alloc[Given(bs, i, n).addr := n], owned)
  {
    hide Canonical, Linked, Partition, AllocOk, Taken, TakenPtr, TakenSize;
    TakenLinked(ptr, size, bs, i, n);
    TakenCanonical(bs, i, n);
    TakenAlloc(bs, alloc, size, owned, i, n);
    TakenPartition(bs, alloc, owned, i, n);
  }

  function Units(a: nat, n: nat): set<nat> {
    set u: nat | a <= u < a + n && Block(a, n).Has(u)
  }

  /** A fresh region from sbrk joins the heap as if it were in use. */
  lemma GrantedHeap(ptr: Fields, size: Fields, bs: seq<Block>, alloc: map<nat, nat>, owned: set<nat>, a: nat, n: nat)
    requires HeapOk(ptr, size, bs, alloc, owned) && 0 < a && n >= 1 && Units(a, n) !! owned
    ensures a !in alloc
    ensures HeapOk(ptr, size[a := n], bs, alloc[a := n], owned + Units(a, n))
  {
    assert Block(a, n).Has(a);
    assert a in Units(a, n);
    forall c | c in alloc
      ensures c + alloc[c] <= a || a + n <= c
      ensures c != a
    {
      var m := if a <= c then c else a;
      assert Block(c, alloc[c]).Has(m) ==> InUse(alloc, m);
      assert Block(a, n).Has(m) ==> m in Units(a, n);
    }
    var size' := size[a := n];
    forall i: nat | i < |bs|
      ensures LinkedAt(ptr, size', bs, i)
    {
      assert LinkedAt(ptr, size, bs, i);
      if i > 0 {
        assert bs[i].Has(bs[i].addr);
        assert Covers(bs, bs[i].addr);
      }
    }
    forall u: nat
      ensures InUse(alloc[a := n], u) <==> InUse(alloc, u) || Block(a, n).Has(u)
      ensures Block(a, n).Has(u) <==> u in Units(a, n)
    {
      InUsePlus(alloc, a, n, u);
    }
    hide Covers, InUse, Units;
  }

  // ---------------------------------------------------------------- walking the ring

  /** The block d steps after block at. */
  function Ring(at: nat, d: nat, len: nat): (i: nat)
    requires at < len && d <= len
  {
    if at + d < len then at + d else at + d - len
  }

  /** Steps from block i on to block t. */
  function Dist(i: nat, t: nat, len: nat): (d: nat)
    requires i < len && t < len
  {
    if i <= t then t - i else len - i + t
  }

  /** Every address but a block's own lies behind exactly one block. */
  lemma PlaceExists(bs: seq<Block>, a: nat) returns (t: nat)
    requires Canonical(bs) && 0 < a && (forall i :: 0 <= i < |bs| ==> bs[i].addr != a)
    ensures Between(bs, t, a)
  {
    assert bs[0].addr == 0;
    hide Canonical;
    t := 0;
    while t + 1 < |bs| && bs[t + 1].addr < a
      invariant t < |bs| && bs[t].addr < a
    {
      t := t + 1;
    }
  }

  lemma Ascending(bs: seq<Block>, i: nat, j: nat)
    requires Canonical(bs)
    ensures i <= j < |bs| ==> bs[i].addr <= bs[j].addr
  {
    assert i < j < |bs| ==> bs[i].End() < bs[j].addr;
  }

  lemma PlaceUnique(bs: seq<Block>, a: nat, i: nat, t: nat)
    requires Canonical(bs) && Between(bs, t, a) && Between(bs, i, a)
    ensures i == t
  {
    hide Canonical;
    if i < t {
      Ascending(bs, i + 1, t);
    } else if t < i {
      Ascending(bs, t + 1, i);
    }
  }

  /** free()'s stopping test finds the place of the block. */
  lemma StopTest(ptr: Fields, size: Fields, bs: seq<Block>, i: nat, a: nat)
    requires Canonical(bs) && Linked(ptr, size, bs) && i < |bs| && 0 < a
    requires (forall k :: 0 <= k < |bs| ==> bs[k].addr != a)
    ensures bs[i].addr in ptr
    ensures var p := bs[i].addr;
            (p < a < ptr[p]) || (p >= ptr[p] && (a > p || a < ptr[p])) <==> Between(bs, i, a)
    ensures ptr[bs[i].addr] == bs[Ring(i, 1, |bs|)].addr
  {
    assert LinkedAt(ptr, size, bs, i);
    if i + 1 < |bs| {
      assert bs[i].End() < bs[i + 1].addr;
    }
  }

  /** Where free() has to stop. */
  lemma PlaceOf(ptr: Fields, size: Fields, bs: seq<Block>, alloc: map<nat, nat>, owned: set<nat>,
                a: nat) returns (t: nat)
    requires HeapOk(ptr, size, bs, alloc, owned) && a in alloc
    ensures Between(bs, t, a)
  {
    forall i: nat | i < |bs|
      ensures bs[i].addr != a
    {
      AllocIsNotFree(bs, alloc, size, owned, i, a);
    }
    hide Partition;
    t := PlaceExists(bs, a);
  }

  lemma WalkTest(ptr: Fields, size: Fields, bs: seq<Block>, alloc: map<nat, nat>, owned: set<nat>, i: nat, a: nat,
                 t: nat)
    requires HeapOk(ptr, size, bs, alloc, owned) && a in alloc && i < |bs| && Between(bs, t, a)
    ensures bs[i].addr in ptr && ptr[bs[i].addr] == bs[Ring(i, 1, |bs|)].addr
    ensures var p := bs[i].addr;
            (p < a < ptr[p]) || (p >= ptr[p] && (a > p || a < ptr[p])) <==> i == t
  {
    forall k: nat | k < |bs|
      ensures bs[k].addr != a
    {
      AllocIsNotFree(bs, alloc, size, owned, k, a);
    }
    hide Partition, Canonical, Linked;
    StopTest(ptr, size, bs, i, a);
    if Between(bs, i, a) {
      PlaceUnique(bs, a, i, t);
    }
  }

  /** freep's block is still on the list after free(), at the same place. */
  lemma BetweenBounds(bs: seq<Block>, j: nat, a: nat)
    requires Between(bs, j, a)
    ensures j < |bs|
  {
  }

  lemma FreedStart(ptr: Fields, size: Fields, bs: seq<Block>, alloc: map<nat, nat>, owned: set<nat>, j: nat, a: nat)
    requires HeapOk(ptr, size, bs, alloc, owned) && a in alloc && Between(bs, j, a)
    ensures FitsAt(bs, j, Block(a, alloc[a]))
    ensures j < |Freed(bs, j, Block(a, alloc[a]))| && Freed(bs, j, Block(a, alloc[a]))[j].addr == bs[j].addr
    ensures a in size && size[a] == alloc[a]
  {
    InUseFits(bs, alloc, size, owned, j, a);
    FreedShape(bs, j, Block(a, alloc[a]));
  }

  /** Next fit: the first block after freep that is large enough. */
  ghost predicate FirstFit(bs: seq<Block>, at: nat, d: nat, n: nat) {
    && at < |bs| && 1 <= d <= |bs|
    && bs[Ring(at, d, |bs|)].size >= n
    && (forall e: nat :: 1 <= e < d ==> bs[Ring(at, e, |bs|)].size < n)
  }

  lemma RingReaches(at: nat, i: nat, len: nat) returns (d: nat)
    requires at < len && i < len
    ensures 1 <= d <= len && Ring(at, d, len) == i
  {
    d := if at < i then i - at else len + i - at;
  }

  /** malloc took the next fit of bs: r is its tail and bs' what is left. */
  ghost predicate Fits(bs: seq<Block>, at: nat, d: nat, n: nat, bs': seq<Block>, r: nat) {
    && FirstFit(bs, at, d, n)
    && r == Given(bs, Ring(at, d, |bs|), n).addr
    && bs' == Taken(bs, Ring(at, d, |bs|), n)
  }

  const MinUnits: nat := 4096

  /** Header units for nbytes bytes of payload, one of them for the header. */
  function UnitsFor(nbytes: nat): nat {
    (nbytes + 15) / 16 + 1
  }

  function Ask(n: nat): nat {
    if n < MinUnits then MinUnits else n
  }

  /** After morecore the list has a large enough block. */
  lemma GrantFits(bs: seq<Block>, j: nat, b: Block)
    requires FitsAt(bs, j, b)
    ensures At(bs, j, b) < |Freed(bs, j, b)| && Freed(bs, j, b)[At(bs, j, b)].size >= b.size
  {
    FreedShape(bs, j, b);
  }

  /** As many units behind the header as the payload needs. */
  lemma UnitsForPositive(nbytes: nat)
    ensures UnitsFor(nbytes) >= 1 && 16 * (UnitsFor(nbytes) - 2) < nbytes <= 16 * (UnitsFor(nbytes) - 1)
  {
  }

  /** sbrk is asked for 4096 units at least. */
  lemma AskIs(n: nat)
    ensures Ask(n) == if n < 4096 then 4096 else n
  {
  }

  /** The heap malloc starts from: base alone, linked to itself. */
  lemma FirstBlock(ptr: Fields, size: Fields)
    requires 0 in ptr && ptr[0] == 0 && 0 in size && size[0] == 0
    ensures HeapOk(ptr, size, [Block(0, 0)], map[], {})
  {
    var bs := [Block(0, 0)];
    assert LinkedAt(ptr, size, bs, 0);
  }

  lemma ListNext(ptr: Fields, size: Fields, bs: seq<Block>, alloc: map<nat, nat>, owned: set<nat>, i: nat)
    requires HeapOk(ptr, size, bs, alloc, owned) && i < |bs|
    ensures bs[i].addr in ptr && ptr[bs[i].addr] == bs[Ring(i, 1, |bs|)].addr
    ensures ptr[bs[i].addr] in size && size[ptr[bs[i].addr]] == bs[Ring(i, 1, |bs|)].size
  {
    assert LinkedAt(ptr, size, bs, i);
    assert LinkedAt(ptr, size, bs, Ring(i, 1, |bs|));
  }

  /** malloc is back at freep exactly when it has been all the way round. */
  lemma FreepTest(ptr: Fields, size: Fields, bs: seq<Block>, alloc: map<nat, nat>, owned: set<nat>, at: nat, d: nat)
    requires HeapOk(ptr, size, bs, alloc, owned) && at < |bs| && 1 <= d <= |bs|
    ensures bs[Ring(at, d, |bs|)].addr == bs[at].addr <==> d == |bs|
  {
    if d < |bs| {
      AddrsDiffer(bs, Ring(at, d, |bs|), at);
    }
  }

  ghost predicate AllSmall(bs: seq<Block>, n: nat) {
    forall i :: 0 <= i < |bs| ==> bs[i].size < n
  }

  /** The first d - 1 blocks after freep are too small. */
  ghost predicate Small(bs: seq<Block>, at: nat, d: nat, n: nat)
    requires at < |bs| && d <= |bs|
  {
    forall e: nat :: 1 <= e < d ==> bs[Ring(at, e, |bs|)].size < n
  }

  lemma AllTooSmall(bs: seq<Block>, at: nat, n: nat)
    requires at < |bs|
    ensures Small(bs, at, |bs|, n) && bs[at].size < n ==> AllSmall(bs, n)
  {
    if Small(bs, at, |bs|, n) && bs[at].size < n {
      forall i: nat | i < |bs|
        ensures bs[i].size < n
      {
        var d := RingReaches(at, i, |bs|);
      }
    }
  }

  /** The list after morecore added a region at a behind block j. */
  ghost predicate Extended(bs: seq<Block>, j: nat, a: nat, n: nat, bs': seq<Block>) {
    FitsAt(bs, j, Block(a, Ask(n))) && bs' == Freed(bs, j, Block(a, Ask(n)))
  }

  lemma IsExtended(bs: seq<Block>, j: nat, a: nat, n: nat)
    requires FitsAt(bs, j, Block(a, Ask(n)))
    ensures Extended(bs, j, a, n, Freed(bs, j, Block(a, Ask(n))))
  {
  }

  /** After morecore the search succeeds before it is back at freep. */
  lemma NotAskedTwice(bs: seq<Block>, j: nat, grant: Option<nat>, n: nat, bs': seq<Block>)
    ensures grant.Some? && Extended(bs, j, grant.value, n, bs') ==> !AllSmall(bs', n)
  {
    if grant.Some? && Extended(bs, j, grant.value, n, bs') {
      GrantFits(bs, j, Block(grant.value, Ask(n)));
    }
  }

  lemma FoundIsReal(ptr: Fields, size: Fields, bs: seq<Block>, alloc: map<nat, nat>, owned: set<nat>, at: nat, d: nat,
                    n: nat)
    requires HeapOk(ptr, size, bs, alloc, owned) && at < |bs| && 1 <= d <= |bs|
    requires bs[Ring(at, d, |bs|)].size >= n >= 1
    ensures 0 < Ring(at, d, |bs|) && Ring(at, d - 1, |bs|) == Ring(at, d, |bs|) - 1
  {
  }

  lemma TakenFields(ptr: Fields, size: Fields, prev: nat, p: nat, n: nat)
    requires p in ptr && p in size && size[p] >= n
    ensures TakenPtr(ptr, size, prev, p, n) == if size[p] == n then ptr[prev := ptr[p]] else ptr
    ensures TakenSize(size, p, n) == if size[p] == n then size else size[p := size[p] - n][p + (size[p] - n) := n]
  {
  }

  /** The block before the one taken keeps its place and address. */
  lemma PrevStays(bs: seq<Block>, at: nat, d: nat, n: nat)
    requires at < |bs| && 1 <= d <= |bs| && 0 < Ring(at, d, |bs|) && bs[Ring(at, d, |bs|)].size >= n
    ensures var i := Ring(at, d, |bs|);
            i - 1 < |Taken(bs, i, n)| && Taken(bs, i, n)[i - 1].addr == bs[i - 1].addr
  {
  }

  /** No header the allocator reads lies in the payload of a block in use. */
  lemma PayloadIsApart(ptr: Fields, size: Fields, bs: seq<Block>, alloc: map<nat, nat>, owned: set<nat>, a: nat, u: nat,
                       x: nat, y: nat)
    requires HeapOk(ptr, size, bs, alloc, owned) && a in alloc && a < u < a + alloc[a]
    ensures HeapOk(ptr[u := x], size[u := y], bs, alloc, owned)
  {
    assert Block(a, alloc[a]).Has(u);
    assert InUse(alloc, u);
    var ptr', size' := ptr[u := x], size[u := y];
    forall i: nat | i < |bs|
      ensures LinkedAt(ptr', size', bs, i)
    {
      assert LinkedAt(ptr, size, bs, i);
      assert i > 0 ==> bs[i].Has(bs[i].addr);
    }
    hide Partition, Canonical, Linked;
  }

  /** The allocator's globals, and its header fields by address. */
  class Heap {
    var ptr: Fields
    var size: Fields
    var freep: Option<nat>
    ghost var blocks: seq<Block>
    ghost var at: nat
    ghost var alloc: map<nat, nat>
    ghost var owned: set<nat>

    ghost predicate Valid()
      reads this
    {
      if freep.None? then blocks == [Block(0, 0)] && at == 0 && alloc == map[] && owned == {}
      else at < |blocks| && freep == Some(blocks[at].addr) && HeapOk(ptr, size, blocks, alloc, owned)
    }

    constructor ()
      ensures Valid() && alloc == map[] && owned == {} && freep.None?
    {
      ptr, size, freep := map[], map[], None;
      blocks, at, alloc, owned := [Block(0, 0)], 0, map[], {};
    }

    /** The search loop of free(): the place of a block in use. */
    method FindPlace(a: nat) returns (p: nat, ghost j: nat)
      requires Valid() && freep.Some? && a in alloc
      ensures Between(blocks, j, a) && p == blocks[j].addr
    {
      hide HeapOk;
      ghost var bs := blocks;
      assert HeapOk(ptr, size, bs, alloc, owned);
      ghost var t := PlaceOf(ptr, size, bs, alloc, owned, a);
      p, j := freep.value, at;
      WalkTest(ptr, size, bs, alloc, owned, j, a, t);
      while !(p < a < ptr[p]) && !(p >= ptr[p] && (a > p || a < ptr[p]))
        invariant j < |bs| && p == bs[j].addr && p in ptr && t < |bs|
        invariant ptr[p] == bs[Ring(j, 1, |bs|)].addr
        invariant (p < a < ptr[p]) || (p >= ptr[p] && (a > p || a < ptr[p])) <==> j == t
        invariant j == t ==> Between(bs, j, a)
        decreases Dist(j, t, |bs|)
      {
        j := Ring(j, 1, |bs|);
        WalkTest(ptr, size, bs, alloc, owned, j, a, t);
        p := ptr[p];
      }
    }

    method Free(a: nat)
      requires Valid() && a in alloc
      modifies this
      ensures Valid() && freep.Some?
      ensures Between(old(blocks), at, a) && FitsAt(old(blocks), at, Block(a, old(alloc)[a]))
      ensures blocks == Freed(old(blocks), at, Block(a, old(alloc)[a]))
      ensures alloc == old(alloc) - {a} && owned == old(owned)
    {
      hide HeapOk, Freed, FreedPtr, FreedSize, Between, FitsAt;
      var p, j := FindPlace(a);
      BetweenBounds(blocks, j, a);
      FreedHeap(ptr, size, blocks, alloc, owned, j, a);
      FreedStart(ptr, size, blocks, alloc, owned, j, a);
      Relink(p, a);
      freep := Some(p);
      blocks, at, alloc := Freed(blocks, j, Block(a, alloc[a])), j, alloc - {a};
    }

    /** The stores of free(): the block joins the ring behind p and merges with its neighbours. */
    method Relink(p: nat, a: nat)
      requires p in ptr && p in size && a in size && a != p
      requires a + size[a] == ptr[p] ==> ptr[p] in ptr && ptr[p] in size
      modifies this`ptr, this`size
      ensures ptr == FreedPtr(old(ptr), old(size), p, a) && size == FreedSize(old(ptr), old(size), p, a)
    {
      if a + size[a] == ptr[p] {
        var n := ptr[p];
        size := size[a := size[a] + size[n]];
        ptr := ptr[a := ptr[n]];
      } else {
        ptr := ptr[a := ptr[p]];
      }
      if p + size[p] == a {
        size := size[p := size[p] + size[a]];
        ptr := ptr[p := ptr[a]];
      } else {
        ptr := ptr[p := a];
      }
    }

    /** sbrk's answer is a parameter: nothing, or the address of a region the heap does not have. */
    method Morecore(n: nat, grant: Option<nat>) returns (ok: bool)
      requires Valid() && freep.Some?
      requires grant.Some? ==> 0 < grant.value && Units(grant.value, Ask(n)) !! owned
      modifies this
      ensures Valid() && freep.Some?
      ensures ok == grant.Some?
      ensures !ok ==> blocks == old(blocks) && alloc == old(alloc) && owned == old(owned) && at == old(at)
      ensures ok ==> FitsAt(old(blocks), at, Block(grant.value, Ask(n)))
      ensures ok ==> blocks == Freed(old(blocks), at, Block(grant.value, Ask(n)))
      ensures ok ==> alloc == old(alloc) && owned == old(owned) + Units(grant.value, Ask(n))
    {
      if grant.None? {
        return false;
      }
      var nu := if n < MinUnits then MinUnits else n;
      var hp := grant.value;
      hide HeapOk, Freed;
      ghost var al := alloc;
      GrantedHeap(ptr, size, blocks, alloc, owned, hp, nu);
      size := size[hp := nu];
      alloc := alloc[hp := nu];
      owned := owned + Units(hp, nu);
      Free(hp);
      assert al[hp := nu] - {hp} == al;
      return true;
    }

    /** malloc stands at the block d steps after freep, prev just before it, and all it passed are too small. */
    ghost predicate Scanning(prev: nat, p: nat, d: nat, n: nat)
      reads this
    {
      && Valid() && freep.Some? && at < |blocks| && 1 <= d <= |blocks|
      && p == blocks[Ring(at, d, |blocks|)].addr && prev == blocks[Ring(at, d - 1, |blocks|)].addr
      && p in size && size[p] == blocks[Ring(at, d, |blocks|)].size
      && Small(blocks, at, d, n)
    }

    method NextBlock(prev: nat, p: nat, ghost d: nat, n: nat) returns (next: nat)
      requires Scanning(prev, p, d, n) && d < |blocks| && size[p] < n
      ensures Scanning(p, next, d + 1, n)
    {
      hide HeapOk;
      ListNext(ptr, size, blocks, alloc, owned, Ring(at, d, |blocks|));
      next := ptr[p];
    }

    method FirstAfterFreep(n: nat) returns (prev: nat, p: nat)
      requires Valid() && freep.Some?
      ensures Scanning(prev, p, 1, n)
    {
      hide HeapOk;
      ListNext(ptr, size, blocks, alloc, owned, at);
      prev := freep.value;
      p := ptr[prev];
    }

    /** The search loop of malloc. */
    method Search(n: nat, grant: Option<nat>) returns (ok: bool, prev: nat, p: nat, asked: bool, ghost d: nat)
      requires Valid() && freep.Some? && n >= 1
      requires grant.Some? ==> 0 < grant.value && Units(grant.value, Ask(n)) !! owned
      modifies this
      ensures Valid() && freep.Some? && alloc == old(alloc)
      ensures ok ==> Scanning(prev, p, d, n) && size[p] >= n
      ensures ok <==> !asked || grant.Some?
      ensures asked <==> AllSmall(old(blocks), n)
      ensures !(ok && asked) ==> blocks == old(blocks) && owned == old(owned) && at == old(at)
      ensures ok && asked ==>
                Extended(old(blocks), at, grant.value, n, blocks) && owned == old(owned) + Units(grant.value, Ask(n))
    {
      hide HeapOk, FitsAt, Freed, Ask, Units, Valid, Scanning, Small, AllSmall, Extended;
      prev, p := FirstAfterFreep(n);
      asked, d := false, 1;
      ScanBasics(prev, p, d, n);
      while size[p] < n
        invariant Valid() && freep.Some? && Scanning(prev, p, d, n) && p in size && d <= |blocks| && alloc == old(alloc)
        invariant !asked ==> blocks == old(blocks) && owned == old(owned) && at == old(at)
        invariant asked ==> AllSmall(old(blocks), n) && grant.Some? && owned == old(owned) + Units(grant.value, Ask(n))
        invariant asked ==> Extended(old(blocks), at, grant.value, n, blocks)
        decreases !asked, |blocks| - d
      {
        AtFreep(prev, p, d, n);
        if p == freep.value {
          NotAskedTwice(old(blocks), at, grant, n, blocks);
          var more := Morecore(n, grant);
          asked := true;
          if !more {
            return false, prev, p, asked, d;
          }
          IsExtended(old(blocks), at, grant.value, n);
          prev, p := FirstAfterFreep(n);
          d := 1;
        } else {
          var next := NextBlock(prev, p, d, n);
          prev, p, d := p, next, d + 1;
        }
        ScanBasics(prev, p, d, n);
      }
      ok := true;
      FoundOne(prev, p, d, n);
    }

    /** grant is what sbrk answers should morecore ask. The payload starts one unit after the header r. */
    method Malloc(nbytes: nat, grant: Option<nat>) returns (r: Option<nat>, asked: bool, ghost j: nat, ghost d: nat)
      requires Valid()
      requires grant.Some? ==> 0 < grant.value && Units(grant.value, Ask(UnitsFor(nbytes))) !! owned
      modifies this
      ensures Valid() && freep.Some?
      ensures asked <==> AllSmall(old(blocks), UnitsFor(nbytes))
      ensures r.None? <==> asked && grant.None?
      ensures r.None? ==> blocks == old(blocks) && alloc == old(alloc) && owned == old(owned) && at == old(at)
      ensures r.Some? ==> r.value !in old(alloc) && alloc == old(alloc)[r.value := UnitsFor(nbytes)]
      ensures r.Some? ==> 16 * (alloc[r.value] - 2) < nbytes <= 16 * (alloc[r.value] - 1)
      ensures r.Some? && asked ==>
                owned == old(owned) + Units(grant.value, if alloc[r.value] < 4096 then 4096 else alloc[r.value])
      ensures r.Some? && !asked ==>
                owned == old(owned) && Fits(old(blocks), old(at), d, UnitsFor(nbytes), blocks, r.value)
      ensures r.Some? && asked ==> owned == old(owned) + Units(grant.value, Ask(UnitsFor(nbytes)))
      ensures r.Some? && asked ==> FitsAt(old(blocks), j, Block(grant.value, Ask(UnitsFor(nbytes))))
      ensures r.Some? && asked ==>
                Fits(Freed(old(blocks), j, Block(grant.value, Ask(UnitsFor(nbytes)))), j, d, UnitsFor(nbytes), blocks,
                     r.value)
      ensures r.Some? && !asked ==> 1 <= d <= |old(blocks)| && at == Ring(old(at), d - 1, |old(blocks)|)
      ensures r.Some? && asked ==>
                var bs := Freed(old(blocks), j, Block(grant.value, Ask(UnitsFor(nbytes))));
                1 <= d <= |bs| && at == Ring(j, d - 1, |bs|)
    {
      hide HeapOk, FitsAt, Freed, Ask, UnitsFor, Units, Scanning, AllSmall, Fits, Given, Taken, Ring;
      var n := UnitsFor(nbytes);
      UnitsForPositive(nbytes);
      AskIs(n);
      if freep.None? {
        ptr, size, freep := ptr[0 := 0], size[0 := 0], Some(0);
        FirstBlock(ptr, size);
      }
      var ok, prev, p;
      ok, prev, p, asked, d := Search(n, grant);
      j := at;
      if !ok {
        return None, asked, j, d;
      }
      ghost var bs := blocks;
      p := Carve(prev, p, d, n);
      return Some(p), asked, j, d;
    }

    /** The end of malloc: take n units off the block at p. */
    method Carve(prev: nat, p: nat, ghost d: nat, n: nat) returns (r: nat)
      requires Scanning(prev, p, d, n) && size[p] >= n >= 1
      modifies this
      ensures Valid() && freep.Some? && owned == old(owned)
      ensures Fits(old(blocks), old(at), d, n, blocks, r)
      ensures r !in old(alloc) && alloc == old(alloc)[r := n]
      ensures 1 <= d <= |old(blocks)| && old(at) < |old(blocks)| && at == Ring(old(at), d - 1, |old(blocks)|)
    {
      hide HeapOk, Taken, TakenPtr, TakenSize;
      ghost var bs, i := blocks, Ring(at, d, |blocks|);
      FoundIsReal(ptr, size, bs, alloc, owned, at, d, n);
      TakenHeap(ptr, size, bs, alloc, owned, i, n);
      PrevStays(bs, at, d, n);
      ghost var ptr', size' := TakenPtr(ptr, size, prev, p, n), TakenSize(size, p, n);
      TakenFields(ptr, size, prev, p, n);
      r := p;
      if size[p] == n {
        ptr := ptr[prev := ptr[p]];
      } else {
        size := size[p := size[p] - n];
        r := p + size[p];
        size := size[r := n];
      }
      assert ptr == ptr' && size == size';
      freep := Some(prev);
      blocks, alloc := Taken(bs, i, n), alloc[r := n];
      at := Ring(at, d - 1, |bs|);
    }

    lemma ScanBasics(prev: nat, p: nat, d: nat, n: nat)
      requires Scanning(prev, p, d, n)
      ensures p in size && d <= |blocks|
    {
    }

    lemma AtFreep(prev: nat, p: nat, d: nat, n: nat)
      requires Scanning(prev, p, d, n) && size[p] < n
      ensures freep == Some(p) <==> d == |blocks|
      ensures d == |blocks| ==> AllSmall(blocks, n)
    {
      FreepTest(ptr, size, blocks, alloc, owned, at, d);
      AllTooSmall(blocks, at, n);
    }

    lemma FoundOne(prev: nat, p: nat, d: nat, n: nat)
      requires Scanning(prev, p, d, n) && size[p] >= n
      ensures !AllSmall(blocks, n)
    {
    }

    /** The program writes its own payload: any two words of a unit of a block in use other than the header. */
    method UserStore(a: nat, u: nat, x: nat, y: nat)
      requires Valid() && a in alloc && a < u < a + alloc[a]
      modifies this`ptr, this`size
      ensures Valid() && ptr == old(ptr)[u := x] && size == old(size)[u := y]
    {
      PayloadIsApart(ptr, size, blocks, alloc, owned, a, u, x, y);
      ptr, size := ptr[u := x], size[u := y];
    }
  }
}
