/**
  The free list of user/umalloc.c as a list of blocks in ascending address order, base first.
  Addresses and sizes count Header-sized units; base is at address 0, below the heap.
 */
module FreeList {

  datatype Block = Block(addr: nat, size: nat)
  {
    function End(): nat {
      addr + size
    }

    predicate Has(u: nat) {
      addr <= u < addr + size
    }
  }

  /** base, then non-empty blocks in ascending order, no two of which touch. */
  ghost predicate Canonical(bs: seq<Block>) {
    && |bs| >= 1 && bs[0] == Block(0, 0)
    && (forall i :: 1 <= i < |bs| ==> bs[i].size >= 1)
    && (forall i, j :: 0 <= i < j < |bs| ==> bs[i].End() < bs[j].addr)
  }

  lemma Ordered(bs: seq<Block>, i: nat, j: nat)
    requires Canonical(bs) && i < j < |bs|
    ensures bs[i].End() < bs[j].addr
  {
  }

  /** Unit u belongs to a free block. */
  ghost predicate Covers(bs: seq<Block>, u: nat) {
    exists i :: 0 <= i < |bs| && bs[i].Has(u)
  }

  /** A block that lies between block j and the next one. */
  ghost predicate FitsAt(bs: seq<Block>, j: nat, b: Block) {
    && j < |bs| && b.size >= 1 && 0 < b.addr
    && bs[j].End() <= b.addr && (j + 1 < |bs| ==> b.End() <= bs[j + 1].addr)
  }

  predicate TouchesNext(bs: seq<Block>, j: nat, b: Block)
    requires j < |bs|
  {
    j + 1 < |bs| && b.End() == bs[j + 1].addr
  }

  predicate TouchesPrev(bs: seq<Block>, j: nat, b: Block)
    requires j < |bs|
  {
    bs[j].End() == b.addr
  }

  /** The list after free(): b goes in behind block j and merges with its neighbours. */
  function Freed(bs: seq<Block>, j: nat, b: Block): seq<Block>
    requires j < |bs|
  {
    var b1 := if TouchesNext(bs, j, b) then Block(b.addr, b.size + bs[j + 1].size) else b;
    var rest := if TouchesNext(bs, j, b) then bs[j + 2..] else bs[j + 1..];
    if TouchesPrev(bs, j, b) then bs[..j] + [Block(bs[j].addr, bs[j].size + b1.size)] + rest
    else bs[..j + 1] + [b1] + rest
  }

  lemma FreedShape(bs: seq<Block>, j: nat, b: Block)
    requires FitsAt(bs, j, b)
    ensures var up, low := TouchesNext(bs, j, b), TouchesPrev(bs, j, b);
            var r := Freed(bs, j, b);
            var at := if low then j else j + 1;
            var skip := (if low then 0 else 1) - (if up then 1 else 0);
            && |r| == |bs| + skip
            && (forall k :: 0 <= k < at ==> r[k] == bs[k])
            && r[at].addr == (if low then bs[j].addr else b.addr)
            && r[at].End() == (if up then bs[j + 1].End() else b.End())
            && (forall k :: at < k < |r| ==> r[k] == bs[k - skip])
  {
  }

  /** free() keeps the list canonical. */
  lemma FreedCanonical(bs: seq<Block>, j: nat, b: Block)
    requires Canonical(bs) && FitsAt(bs, j, b)
    ensures Canonical(Freed(bs, j, b))
  {
    var r := Freed(bs, j, b);
    FreedBlocks(bs, j, b);
    hide Freed;
    forall k, l | 0 <= k < l < |r|
      ensures r[k].End() < r[l].addr
    {
      FreedOrdered(bs, j, b, k, l);
    }
  }

  lemma FreedBlocks(bs: seq<Block>, j: nat, b: Block)
    requires Canonical(bs) && FitsAt(bs, j, b)
    ensures var r := Freed(bs, j, b);
            |r| >= 1 && r[0] == Block(0, 0) && forall k :: 1 <= k < |r| ==> r[k].size >= 1
  {
    FreedShape(bs, j, b);
    hide Freed;
  }

  /** What block k of the merged list is. */
  lemma FreedAt(bs: seq<Block>, j: nat, b: Block, k: nat)
    requires FitsAt(bs, j, b) && k < |Freed(bs, j, b)|
    ensures var r, at, skip := Freed(bs, j, b)[k], At(bs, j, b), Skip(bs, j, b);
            && (k < at ==> k <= j && r == bs[k])
            && (k == at ==> r.addr == if TouchesPrev(bs, j, b) then bs[j].addr else b.addr)
            && (k == at ==> r.End() == if TouchesNext(bs, j, b) then bs[j + 1].End() else b.End())
            && (k > at ==> j < k - skip < |bs| && r == bs[k - skip] && (TouchesNext(bs, j, b) ==> j + 1 < k - skip))
  {
    FreedShape(bs, j, b);
    hide Freed;
  }

  lemma FreedOrdered(bs: seq<Block>, j: nat, b: Block, k: nat, l: nat)
    requires Canonical(bs) && FitsAt(bs, j, b) && k < l < |Freed(bs, j, b)|
    ensures Freed(bs, j, b)[k].End() < Freed(bs, j, b)[l].addr
  {
    hide Freed, Canonical;
    FreedAt(bs, j, b, k);
    FreedAt(bs, j, b, l);
    var at, skip := At(bs, j, b), Skip(bs, j, b);
    if l < at {
      Ordered(bs, k, l);
    } else if k < at < l {
      Ordered(bs, k, l - skip);
    } else if k > at {
      Ordered(bs, k - skip, l - skip);
    } else if k == at {
      if j + 1 < l - skip {
        Ordered(bs, j + 1, l - skip);
      }
    } else if k < j {
      Ordered(bs, k, j);
    }
  }

  /** Where the merged block sits, and how later blocks shift. */
  function At(bs: seq<Block>, j: nat, b: Block): nat
    requires j < |bs|
  {
    if TouchesPrev(bs, j, b) then j else j + 1
  }

  function Skip(bs: seq<Block>, j: nat, b: Block): int
    requires j < |bs|
  {
    (if TouchesPrev(bs, j, b) then 0 else 1) - (if TouchesNext(bs, j, b) then 1 else 0)
  }

  lemma FreedOnly(bs: seq<Block>, j: nat, b: Block, k: nat, u: nat)
    requires FitsAt(bs, j, b) && k < |Freed(bs, j, b)| && Freed(bs, j, b)[k].Has(u)
    ensures Covers(bs, u) || b.Has(u)
  {
    FreedShape(bs, j, b);
    hide Freed;
    var at, skip := At(bs, j, b), Skip(bs, j, b);
    if k < at {
      assert bs[k].Has(u);
    } else if k > at {
      assert bs[k - skip].Has(u);
    } else if !b.Has(u) {
      if u < b.addr {
        assert bs[j].Has(u);
      } else {
        assert bs[j + 1].Has(u);
      }
    }
  }

  lemma FreedAll(bs: seq<Block>, j: nat, b: Block, k: nat, u: nat)
    requires FitsAt(bs, j, b) && k < |bs| && (bs[k].Has(u) || b.Has(u))
    ensures Covers(Freed(bs, j, b), u)
  {
    FreedShape(bs, j, b);
    var r := Freed(bs, j, b);
    hide Freed;
    var at, skip := At(bs, j, b), Skip(bs, j, b);
    if b.Has(u) {
      assert r[at].Has(u);
    } else if k < at {
      assert r[k].Has(u);
    } else if k <= j + 1 && (k == j || TouchesNext(bs, j, b)) {
      assert r[at].Has(u);
    } else {
      assert r[k + skip].Has(u);
    }
  }

  /** free() adds exactly the units of the block. */
  lemma FreedCovers(bs: seq<Block>, j: nat, b: Block, u: nat)
    requires FitsAt(bs, j, b)
    ensures Covers(Freed(bs, j, b), u) <==> Covers(bs, u) || b.Has(u)
  {
    var r := Freed(bs, j, b);
    hide Freed, FitsAt;
    if Covers(r, u) {
      var k :| 0 <= k < |r| && r[k].Has(u);
      FreedOnly(bs, j, b, k, u);
    }
    if Covers(bs, u) {
      var k :| 0 <= k < |bs| && bs[k].Has(u);
      FreedAll(bs, j, b, k, u);
    }
    if b.Has(u) {
      FreedAll(bs, j, b, j, u);
    }
  }

  // ---------------------------------------------------------------- malloc

  /** The list after malloc takes n units from block i. */
  function Taken(bs: seq<Block>, i: nat, n: nat): seq<Block>
    requires i < |bs| && bs[i].size >= n
  {
    if bs[i].size == n then bs[..i] + bs[i + 1..]
    else bs[i := Block(bs[i].addr, bs[i].size - n)]
  }

  /** The block malloc hands out: the tail of block i. */
  function Given(bs: seq<Block>, i: nat, n: nat): Block
    requires i < |bs| && bs[i].size >= n
  {
    Block(bs[i].addr + bs[i].size - n, n)
  }

  lemma TakenCanonical(bs: seq<Block>, i: nat, n: nat)
    requires Canonical(bs) && i < |bs| && bs[i].size >= n >= 1
    ensures Canonical(Taken(bs, i, n))
  {
    var r := Taken(bs, i, n);
    assert i != 0;
    if bs[i].size == n {
      assert forall k :: 0 <= k < |r| ==> r[k] == if k < i then bs[k] else bs[k + 1];
    }
  }

  /** No other block has a unit of block i. */
  lemma HasOne(bs: seq<Block>, i: nat, k: nat, u: nat)
    requires Canonical(bs) && i < |bs| && k < |bs| && bs[k].Has(u) && k != i
    ensures !bs[i].Has(u)
  {
    hide Canonical;
    if i < k {
      Ordered(bs, i, k);
    } else {
      Ordered(bs, k, i);
    }
  }

  lemma TakenFrom(bs: seq<Block>, i: nat, n: nat, k: nat, u: nat)
    requires Canonical(bs) && i < |bs| && bs[i].size >= n >= 1 && k < |Taken(bs, i, n)| && Taken(bs, i, n)[k].Has(u)
    ensures Covers(bs, u) && !Given(bs, i, n).Has(u)
  {
    hide Canonical;
    var from := if bs[i].size == n && k >= i then k + 1 else k;
    assert bs[from].Has(u);
    if from != i {
      HasOne(bs, i, from, u);
    }
  }

  lemma TakenLeaves(bs: seq<Block>, i: nat, n: nat, k: nat, u: nat)
    requires i < |bs| && bs[i].size >= n >= 1 && k < |bs| && bs[k].Has(u) && !Given(bs, i, n).Has(u)
    ensures Covers(Taken(bs, i, n), u)
  {
    var r := Taken(bs, i, n);
    if bs[i].size == n && k > i {
      assert r[k - 1] == bs[k];
    } else {
      assert r[k].Has(u);
    }
  }

  /** malloc moves exactly the units of the block it hands out. */
  lemma TakenCovers(bs: seq<Block>, i: nat, n: nat, u: nat)
    requires Canonical(bs) && i < |bs| && bs[i].size >= n >= 1
    ensures Covers(bs, u) <==> Covers(Taken(bs, i, n), u) || Given(bs, i, n).Has(u)
    ensures !(Covers(Taken(bs, i, n), u) && Given(bs, i, n).Has(u))
  {
    var r := Taken(bs, i, n);
    hide Taken, Canonical;
    if Covers(r, u) {
      var k :| 0 <= k < |r| && r[k].Has(u);
      TakenFrom(bs, i, n, k, u);
    }
    if Given(bs, i, n).Has(u) {
      assert bs[i].Has(u);
    }
    if Covers(bs, u) && !Given(bs, i, n).Has(u) {
      var k :| 0 <= k < |bs| && bs[k].Has(u);
      TakenLeaves(bs, i, n, k, u);
    }
  }
}
