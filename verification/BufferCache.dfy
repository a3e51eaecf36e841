/** The buffer cache of kernel/bio.c as one process sees it: buffers, LRU ring and disk. */
module BufferCache {
  import opened RedoLog
  import opened LruRing

  datatype Buf = Buf(dev: nat, bno: nat, valid: bool, refcnt: nat, data: Block)
  {
    predicate Has(b: nat) {
      dev == ROOTDEV && bno == b
    }
  }

  /** Buffers agree with `view`, the current value of every block, and `refs`, the references to it. */
  ghost predicate Consistent(bufs: seq<Buf>, disk: Disk, view: Disk, refs: seq<nat>) {
    && |disk| == |view| == |refs|
    && (forall i :: 0 <= i < |bufs| && bufs[i].dev == ROOTDEV ==>
          bufs[i].bno < |disk| && refs[bufs[i].bno] == bufs[i].refcnt)
    && (forall i :: 0 <= i < |bufs| && bufs[i].dev != ROOTDEV ==> bufs[i].refcnt == 0 && !bufs[i].valid)
    && (forall i, j :: 0 <= i < j < |bufs| && bufs[i].dev == ROOTDEV && bufs[j].dev == ROOTDEV ==>
          bufs[i].bno != bufs[j].bno)
    && (forall i :: 0 <= i < |bufs| && bufs[i].valid ==> bufs[i].data == view[bufs[i].bno])
    && (forall b: nat :: b < |refs| && refs[b] > 0 ==> InBuffer(bufs, b))
    && (forall b: nat :: b < |disk| && disk[b] != view[b] ==> InValidBuffer(bufs, b))
  }

  /** A block nobody refers to is on disk as it is in the cache. */
  ghost predicate Settled(disk: Disk, view: Disk, refs: seq<nat>) {
    |disk| == |view| == |refs| && forall b: nat :: b < |refs| && refs[b] == 0 ==> disk[b] == view[b]
  }

  /** What is left of the current values once buffer u is recycled: its block is what the disk says. */
  ghost function Forgotten(u: Buf, disk: Disk, view: Disk): Disk {
    if u.dev == ROOTDEV && u.bno < |disk| == |view| then view[u.bno := disk[u.bno]] else view
  }

  ghost predicate InBuffer(bufs: seq<Buf>, b: nat) {
    exists i :: 0 <= i < |bufs| && bufs[i].Has(b)
  }

  ghost predicate InValidBuffer(bufs: seq<Buf>, b: nat) {
    exists i :: 0 <= i < |bufs| && bufs[i].Has(b) && bufs[i].valid
  }

  /** The ring visits every buffer once, most recently released first. */
  ghost predicate Recent(next: seq<nat>, prev: seq<nat>, order: seq<nat>, stamp: seq<nat>, clock: nat) {
    && |order| == |stamp| && |next| == |prev| == |order| + 1
    && Linked(next, prev, |order|, order)
    && (forall i: nat :: i < |order| ==> i in order)
    && (forall i :: 0 <= i < |stamp| ==> stamp[i] <= clock)
    && (forall j, k :: 0 <= j < k < |order| ==> stamp[order[j]] >= stamp[order[k]])
  }

  /** Changing the reference count of the buffer holding b. */
  lemma Rereference(bufs: seq<Buf>, disk: Disk, view: Disk, refs: seq<nat>, i: nat, n: nat)
    requires Consistent(bufs, disk, view, refs) && i < |bufs| && bufs[i].dev == ROOTDEV
    ensures Consistent(bufs[i := bufs[i].(refcnt := n)], disk, view, refs[bufs[i].bno := n])
    ensures Settled(disk, view, refs) && (n == 0 ==> disk[bufs[i].bno] == view[bufs[i].bno]) ==>
              Settled(disk, view, refs[bufs[i].bno := n])
  {
    var bufs' := bufs[i := bufs[i].(refcnt := n)];
    forall b: nat | InBuffer(bufs, b) ensures InBuffer(bufs', b) {
      var j :| 0 <= j < |bufs| && bufs[j].Has(b);
      assert bufs'[j].Has(b);
    }
    forall b: nat | InValidBuffer(bufs, b) ensures InValidBuffer(bufs', b) {
      var j :| 0 <= j < |bufs| && bufs[j].Has(b) && bufs[j].valid;
      assert bufs'[j].Has(b) && bufs'[j].valid;
    }
    assert bufs'[i].Has(bufs[i].bno);
    assert InBuffer(bufs', bufs[i].bno);
  }

  lemma RefsAgree(bufs: seq<Buf>, disk: Disk, view: Disk, refs: seq<nat>, i: nat)
    requires Consistent(bufs, disk, view, refs) && i < |bufs| && bufs[i].dev == ROOTDEV
    ensures bufs[i].bno < |refs| == |disk| == |view| && refs[bufs[i].bno] == bufs[i].refcnt
  {
  }

  lemma Absent(bufs: seq<Buf>, disk: Disk, view: Disk, refs: seq<nat>, b: nat)
    requires Consistent(bufs, disk, view, refs) && b < |disk| && !InBuffer(bufs, b)
    ensures |refs| == |disk| && refs[b] == 0
  {
  }

  /** Recycling an unreferenced buffer for a block that is in no buffer. */
  lemma Recycle(bufs: seq<Buf>, disk: Disk, view: Disk, refs: seq<nat>, i: nat, b: nat)
    requires Consistent(bufs, disk, view, refs) && i < |bufs| && bufs[i].refcnt == 0
    requires b < |disk| && !InBuffer(bufs, b)
    ensures Consistent(bufs[i := Buf(ROOTDEV, b, false, 1, bufs[i].data)], disk, Forgotten(bufs[i], disk, view),
                       refs[b := 1])
    ensures Forgotten(bufs[i], disk, view)[b] == view[b]
    ensures Settled(disk, view, refs) ==> Forgotten(bufs[i], disk, view) == view && Settled(disk, view, refs[b := 1])
  {
    var bufs' := bufs[i := Buf(ROOTDEV, b, false, 1, bufs[i].data)];
    var view' := Forgotten(bufs[i], disk, view);
    assert forall j :: 0 <= j < |bufs| ==> !bufs[j].Has(b);
    hide InBuffer, InValidBuffer;
    forall c: nat | c < |refs| && refs[b := 1][c] > 0 ensures InBuffer(bufs', c) {
      StillIn(bufs, i, b, c);
      assert c != b ==> InBuffer(bufs, c) && refs[c] > 0;
    }
    forall c: nat | c < |disk| && disk[c] != view'[c] ensures InValidBuffer(bufs', c) {
      StillIn(bufs, i, b, c);
      assert InValidBuffer(bufs, c);
    }
  }

  /** The blocks that are in a buffer after buffer i was recycled for b. */
  lemma StillIn(bufs: seq<Buf>, i: nat, b: nat, c: nat)
    requires i < |bufs|
    ensures var bufs' := bufs[i := Buf(ROOTDEV, b, false, 1, bufs[i].data)];
            && InBuffer(bufs', b)
            && (InBuffer(bufs, c) && !bufs[i].Has(c) ==> InBuffer(bufs', c))
            && (InValidBuffer(bufs, c) && !bufs[i].Has(c) ==> InValidBuffer(bufs', c))
  {
    var bufs' := bufs[i := Buf(ROOTDEV, b, false, 1, bufs[i].data)];
    assert bufs'[i].Has(b);
    if InBuffer(bufs, c) && !bufs[i].Has(c) {
      var j :| 0 <= j < |bufs| && bufs[j].Has(c);
      assert bufs'[j].Has(c);
    }
    if InValidBuffer(bufs, c) && !bufs[i].Has(c) {
      var j :| 0 <= j < |bufs| && bufs[j].Has(c) && bufs[j].valid;
      assert bufs'[j].Has(c) && bufs'[j].valid;
    }
  }

  /** A disk read fills the buffer with the current value. */
  lemma Filled(bufs: seq<Buf>, disk: Disk, view: Disk, refs: seq<nat>, i: nat)
    requires Consistent(bufs, disk, view, refs) && i < |bufs| && bufs[i].dev == ROOTDEV && !bufs[i].valid
    ensures Consistent(bufs[i := bufs[i].(valid := true, data := disk[bufs[i].bno])], disk, view, refs)
    ensures disk[bufs[i].bno] == view[bufs[i].bno]
  {
    var b := bufs[i].bno;
    assert disk[b] == view[b] by {
      assert !InValidBuffer(bufs, b);
    }
    var bufs' := bufs[i := bufs[i].(valid := true, data := disk[b])];
    forall c: nat | InBuffer(bufs, c) ensures InBuffer(bufs', c) {
      var j :| 0 <= j < |bufs| && bufs[j].Has(c);
      assert bufs'[j].Has(c);
    }
    forall c: nat | InValidBuffer(bufs, c) ensures InValidBuffer(bufs', c) {
      var j :| 0 <= j < |bufs| && bufs[j].Has(c) && bufs[j].valid;
      assert bufs'[j].Has(c) && bufs'[j].valid;
    }
  }

  /** New contents for a referenced, valid buffer; optionally on disk too. */
  lemma Stored(bufs: seq<Buf>, disk: Disk, view: Disk, refs: seq<nat>, i: nat, v: Block, w: Block)
    requires Consistent(bufs, disk, view, refs)
    requires i < |bufs| && bufs[i].valid && bufs[i].refcnt > 0
    ensures bufs[i].bno < |disk|
    ensures Consistent(bufs[i := bufs[i].(data := v)], disk[bufs[i].bno := w], view[bufs[i].bno := v], refs)
    ensures Settled(disk, view, refs) ==> Settled(disk[bufs[i].bno := w], view[bufs[i].bno := v], refs)
  {
    var c := bufs[i].bno;
    var bufs' := bufs[i := bufs[i].(data := v)];
    assert bufs'[i].Has(c) && bufs'[i].valid;
    forall b: nat | InBuffer(bufs, b) ensures InBuffer(bufs', b) {
      var j :| 0 <= j < |bufs| && bufs[j].Has(b);
      assert bufs'[j].Has(b);
    }
    forall b: nat | InValidBuffer(bufs, b) ensures InValidBuffer(bufs', b) {
      var j :| 0 <= j < |bufs| && bufs[j].Has(b) && bufs[j].valid;
      assert bufs'[j].Has(b) && bufs'[j].valid;
    }
  }

  /** binit's loop: each buffer in turn goes to the front of the ring. */
  method NewRing(nbuf: nat) returns (nx: seq<nat>, pv: seq<nat>, ghost order: seq<nat>)
    ensures Recent(nx, pv, order, seq(nbuf, _ => 0), 0)
  {
    nx, pv := seq(nbuf + 1, _ => nbuf), seq(nbuf + 1, _ => nbuf);
    order := [];
    for b := 0 to nbuf
      invariant |nx| == nbuf + 1 && Linked(nx, pv, nbuf, order)
      invariant |order| == b && forall i: nat :: i in order <==> i < b
    {
      PushFront(nx, pv, nbuf, order, b);
      var first := nx[nbuf];
      nx := nx[b := first][nbuf := b];
      pv := pv[b := nbuf][first := b];
      order := [b] + order;
    }
  }

  // ---------------------------------------------------------------- when there is a buffer to be had

  /** The blocks somebody refers to. */
  ghost function Busy(refs: seq<nat>): set<nat> {
    set b | 0 <= b < |refs| && refs[b] > 0
  }

  /** With these references to blocks and n buffers, block b can be had. */
  ghost predicate Gets(refs: seq<nat>, n: nat, b: nat) {
    b < |refs| && (refs[b] > 0 || |Busy(refs)| < n)
  }

  /** The buffers nobody refers to. */
  ghost function Unreferenced(bufs: seq<Buf>): set<nat> {
    set i | 0 <= i < |bufs| && bufs[i].refcnt == 0
  }

  ghost function Referenced(bufs: seq<Buf>): set<nat> {
    set i | 0 <= i < |bufs| && bufs[i].refcnt > 0
  }

  lemma {:induction false} Partition(bufs: seq<Buf>)
    ensures |Unreferenced(bufs)| + |Referenced(bufs)| == |bufs|
  {
    if bufs != [] {
      var n := |bufs| - 1;
      var rest := bufs[..n];
      Partition(rest);
      if bufs[n].refcnt == 0 {
        assert Unreferenced(bufs) == Unreferenced(rest) + {n};
        assert Referenced(bufs) == Referenced(rest);
      } else {
        assert Referenced(bufs) == Referenced(rest) + {n};
        assert Unreferenced(bufs) == Unreferenced(rest);
      }
    }
  }

  /** Buffers in i and blocks in b correspond one to one. */
  lemma {:induction false} OneToOne(bufs: seq<Buf>, i: set<nat>, b: set<nat>)
    requires forall k :: k in i ==> k < |bufs| && bufs[k].bno in b
    requires forall k, l :: k in i && l in i && bufs[k].bno == bufs[l].bno ==> k == l
    requires forall c :: c in b ==> exists k :: k in i && bufs[k].bno == c
    ensures |i| == |b|
  {
    if i == {} {
      forall c | c in b
        ensures false
      {
      }
      assert b == {};
    } else {
      var k :| k in i;
      var c := bufs[k].bno;
      forall d | d in b - {c}
        ensures exists l :: l in i - {k} && bufs[l].bno == d
      {
        var l :| l in i && bufs[l].bno == d;
        assert l in i - {k};
      }
      OneToOne(bufs, i - {k}, b - {c});
    }
  }

  lemma BusyIsHeld(bufs: seq<Buf>, disk: Disk, view: Disk, refs: seq<nat>, c: nat) returns (k: nat)
    requires Consistent(bufs, disk, view, refs) && c in Busy(refs)
    ensures k in Referenced(bufs) && bufs[k].bno == c
  {
    assert InBuffer(bufs, c);
    k :| k < |bufs| && bufs[k].Has(c);
  }

  lemma HeldIsBusy(bufs: seq<Buf>, disk: Disk, view: Disk, refs: seq<nat>, k: nat)
    requires Consistent(bufs, disk, view, refs) && k in Referenced(bufs)
    ensures bufs[k].dev == ROOTDEV && bufs[k].bno in Busy(refs)
  {
  }

  lemma OneBufferEach(bufs: seq<Buf>, disk: Disk, view: Disk, refs: seq<nat>, k: nat, l: nat)
    requires Consistent(bufs, disk, view, refs) && k < |bufs| && l < |bufs|
    requires bufs[k].dev == ROOTDEV && bufs[l].dev == ROOTDEV && bufs[k].bno == bufs[l].bno
    ensures k == l
  {
  }

  /** Every buffer in use holds a block of its own that is referred to, and the other way round. */
  lemma BusyIs(bufs: seq<Buf>, disk: Disk, view: Disk, refs: seq<nat>)
    requires Consistent(bufs, disk, view, refs)
    ensures |Unreferenced(bufs)| + |Busy(refs)| == |bufs|
  {
    hide Consistent, Busy, Referenced, Unreferenced;
    var i, b := Referenced(bufs), Busy(refs);
    IndexInRange(bufs);
    forall c: nat | c in b
      ensures exists k: nat :: k in i && bufs[k].bno == c
    {
      var k := BusyIsHeld(bufs, disk, view, refs, c);
    }
    forall k: nat | k in i
      ensures bufs[k].dev == ROOTDEV && bufs[k].bno in b
    {
      HeldIsBusy(bufs, disk, view, refs, k);
    }
    forall k: nat, l: nat | k in i && l in i && bufs[k].bno == bufs[l].bno
      ensures k == l
    {
      OneBufferEach(bufs, disk, view, refs, k, l);
    }
    OneToOne(bufs, i, b);
    Partition(bufs);
  }

  lemma IndexInRange(bufs: seq<Buf>)
    ensures forall k :: k in Referenced(bufs) ==> 0 <= k < |bufs|
  {
  }

  /** bget's two scans in terms of references to blocks. */
  lemma GetsIs(bufs: seq<Buf>, disk: Disk, view: Disk, refs: seq<nat>, b: nat)
    requires Consistent(bufs, disk, view, refs) && b < |refs|
    ensures InBuffer(bufs, b) || (exists j :: 0 <= j < |bufs| && bufs[j].refcnt == 0) <==> Gets(refs, |bufs|, b)
  {
    BusyIs(bufs, disk, view, refs);
    SomeUnreferenced(bufs);
    if InBuffer(bufs, b) {
      var k :| 0 <= k < |bufs| && bufs[k].Has(b);
      assert refs[b] == bufs[k].refcnt;
    }
  }

  lemma SomeUnreferenced(bufs: seq<Buf>)
    ensures |Unreferenced(bufs)| > 0 <==> exists j :: 0 <= j < |bufs| && bufs[j].refcnt == 0
  {
    if j :| 0 <= j < |bufs| && bufs[j].refcnt == 0 {
      assert j in Unreferenced(bufs);
    }
    if Unreferenced(bufs) != {} {
      var j :| j in Unreferenced(bufs);
    }
  }

  /** One reference more makes at most one block more busy. */
  lemma BusyMore(refs: seq<nat>, b: nat)
    requires b < |refs|
    ensures Busy(refs[b := refs[b] + 1]) == Busy(refs) + {b}
  {
  }

  class Cache {
    var bufs: seq<Buf>
    var next: seq<nat>      // ring links; index |bufs| is bcache.head
    var prev: seq<nat>
    var disk: Disk
    ghost var order: seq<nat>
    ghost var stamp: seq<nat>   // when each buffer was last given up
    ghost var clock: nat
    ghost var view: Disk        // the current value of every block
    ghost var refs: seq<nat>    // the references to every block
    ghost var initial: Disk
    ghost var writes: seq<Write>  // every disk write so far

    ghost predicate Valid()
      reads this
    {
      && |order| == |bufs|
      && Recent(next, prev, order, stamp, clock)
      && Consistent(bufs, disk, view, refs)
      && Traced(initial, writes, disk)
    }

    /** binit, on a given disk: all buffers carry (dev 0, block 0) and are unused. */
    constructor (nbuf: nat, d: Disk)
      ensures Valid() && |bufs| == nbuf
      ensures disk == view == initial == d && writes == []
      ensures refs == seq(|d|, _ => 0)
    {
      var nx, pv, ord := NewRing(nbuf);
      bufs := seq(nbuf, _ => Buf(0, 0, false, 0, []));
      next, prev, order := nx, pv, ord;
      stamp, clock := seq(nbuf, _ => 0), 0;
      disk, view, initial, writes := d, d, d, [];
      refs := seq(|d|, _ => 0);
    }

    /** bget's first scan, forwards from head.next. */
    method FindCached(b: nat) returns (found: bool, r: nat)
      requires Valid()
      ensures found ==> r < |bufs| && bufs[r].Has(b)
      ensures !found ==> !InBuffer(bufs, b)
    {
      hide Consistent, Traced;
      var head := |bufs|;
      assert next[Node(head, order, 0)] == Node(head, order, 1);
      r := next[head];
      ghost var k := 0;
      while r != head
        invariant k <= |order| && r == Node(head, order, k + 1)
        invariant forall j :: 0 <= j < k ==> !bufs[order[j]].Has(b)
        decreases |order| - k
      {
        if bufs[r].dev == ROOTDEV && bufs[r].bno == b {
          return true, r;
        }
        assert next[Node(head, order, k + 1)] == Node(head, order, k + 2);
        r := next[r];
        k := k + 1;
      }
      forall i: nat | i < |bufs| ensures !bufs[i].Has(b) {
        assert i in order;
      }
      found := false;
    }

    /** bget's second scan, backwards from head.prev: the unreferenced buffer given up longest ago. */
    method FindVictim() returns (found: bool, r: nat)
      requires Valid()
      ensures found <==> exists j :: 0 <= j < |bufs| && bufs[j].refcnt == 0
      ensures found ==> r < |bufs| && bufs[r].refcnt == 0
      ensures found ==> forall j :: 0 <= j < |bufs| && bufs[j].refcnt == 0 ==> stamp[r] <= stamp[j]
    {
      hide Consistent, Traced;
      var head := |bufs|;
      ghost var k := |order|;
      assert prev[Node(head, order, k + 1)] == Node(head, order, k);
      r := prev[head];
      while r != head
        invariant 0 <= k <= |order| && r == Node(head, order, k)
        invariant forall j :: k <= j < |order| ==> bufs[order[j]].refcnt > 0
        decreases k
      {
        if bufs[r].refcnt == 0 {
          LeastRecent(bufs, next, prev, order, stamp, clock, k - 1);
          return true, r;
        }
        assert prev[Node(head, order, (k - 1) + 1)] == Node(head, order, k - 1);
        r := prev[r];
        k := k - 1;
      }
      forall i: nat | i < |bufs| ensures bufs[i].refcnt > 0 {
        assert i in order;
      }
      found := false;
    }

    /**
      bget: the block's buffer if it has one, else the least recently released unreferenced
      buffer; fails (the kernel panics) only if every buffer is referenced.
     */
    method Bget(b: nat) returns (ok: bool, r: nat)
      requires Valid() && b < |disk|
      modifies this`bufs, this`refs, this`view
      ensures Valid() && |bufs| == old(|bufs|)
      ensures ok <==> InBuffer(old(bufs), b) || exists j :: 0 <= j < |bufs| && old(bufs)[j].refcnt == 0
      ensures !ok ==> bufs == old(bufs) && refs == old(refs)
      ensures ok ==> r < |bufs| && bufs[r].Has(b) && refs == old(refs)[b := old(refs)[b] + 1]
      ensures ok ==> bufs == old(bufs)[r := bufs[r]]
      ensures ok && InBuffer(old(bufs), b) ==> bufs[r] == old(bufs)[r].(refcnt := old(bufs)[r].refcnt + 1)
      ensures ok && !InBuffer(old(bufs), b) ==>
                && old(bufs)[r].refcnt == 0 && !bufs[r].valid
                && forall j :: 0 <= j < |bufs| && old(bufs)[j].refcnt == 0 ==> stamp[r] <= stamp[j]
      ensures view == if ok && !InBuffer(old(bufs), b) then Forgotten(old(bufs)[r], disk, old(view)) else old(view)
      ensures Settled(disk, old(view), old(refs)) ==> view == old(view) && Settled(disk, view, refs)
    {
      hide Recent, Traced, Consistent, Settled, Forgotten;
      ok, r := FindCached(b);
      if ok {
        RefsAgree(bufs, disk, view, refs, r);
        Rereference(bufs, disk, view, refs, r, bufs[r].refcnt + 1);
        refs := refs[b := refs[b] + 1];
        bufs := bufs[r := bufs[r].(refcnt := bufs[r].refcnt + 1)];
        return;
      }
      ok, r := FindVictim();
      if ok {
        Absent(bufs, disk, view, refs, b);
        Recycle(bufs, disk, view, refs, r, b);
        view := Forgotten(bufs[r], disk, view);
        refs := refs[b := 1];
        bufs := bufs[r := Buf(ROOTDEV, b, false, 1, bufs[r].data)];
      }
    }

    /** bread: a referenced buffer with the current value of block b. */
    method Bread(b: nat) returns (ok: bool, r: nat)
      requires Valid() && b < |disk|
      modifies this`bufs, this`refs, this`view
      ensures Valid() && |bufs| == old(|bufs|)
      ensures ok <==> InBuffer(old(bufs), b) || exists j :: 0 <= j < |bufs| && old(bufs)[j].refcnt == 0
      ensures ok <==> Gets(old(refs), |bufs|, b)
      ensures !ok ==> bufs == old(bufs) && refs == old(refs)
      ensures ok ==> refs == old(refs)[b := old(refs)[b] + 1]
      ensures ok ==> r < |bufs| && bufs[r].Has(b) && bufs[r].valid && bufs[r].data == view[b]
      ensures ok ==> bufs[r].refcnt == refs[b] && (old(bufs)[r].Has(b) || old(bufs)[r].refcnt == 0)
      ensures ok ==> forall j :: 0 <= j < |bufs| && j != r ==> bufs[j] == old(bufs)[j]
      ensures view == if ok && !InBuffer(old(bufs), b) then Forgotten(old(bufs)[r], disk, old(view)) else old(view)
      ensures Settled(disk, old(view), old(refs)) ==> view == old(view) && Settled(disk, view, refs)
    {
      hide Recent, Traced, Settled, Forgotten, Gets;
      GetsIs(bufs, disk, view, refs, b);
      ok, r := Bget(b);
      if ok && !bufs[r].valid {
        Filled(bufs, disk, view, refs, r);
        bufs := bufs[r := bufs[r].(valid := true, data := disk[bufs[r].bno])];
      }
    }

    /** The holder of a buffer changes its contents in memory. */
    method Fill(r: nat, v: Block)
      requires Valid() && r < |bufs| && bufs[r].valid && bufs[r].refcnt > 0
      modifies this`bufs, this`view
      ensures Valid() && bufs == old(bufs)[r := old(bufs)[r].(data := v)]
      ensures bufs[r].bno < |view| && view == old(view)[bufs[r].bno := v]
      ensures Settled(disk, old(view), refs) ==> Settled(disk, view, refs)
    {
      hide Recent, Traced;
      Stored(bufs, disk, view, refs, r, v, disk[bufs[r].bno]);
      assert disk == disk[bufs[r].bno := disk[bufs[r].bno]];
      view := view[bufs[r].bno := v];
      bufs := bufs[r := bufs[r].(data := v)];
    }

    /** bwrite: one block write. */
    method Bwrite(r: nat)
      requires Valid() && r < |bufs| && bufs[r].valid && bufs[r].refcnt > 0
      modifies this`disk, this`writes
      ensures Valid()
      ensures bufs[r].bno < |disk| && disk == old(disk)[bufs[r].bno := bufs[r].data]
      ensures writes == old(writes) + [Write(bufs[r].bno, bufs[r].data)]
      ensures Settled(old(disk), view, refs) ==> Settled(disk, view, refs)
    {
      hide Recent, Traced;
      var b, v := bufs[r].bno, bufs[r].data;
      Stored(bufs, disk, view, refs, r, v, v);
      assert bufs[r := bufs[r].(data := v)] == bufs && view[b := v] == view;
      TraceGrows(initial, writes, disk, Write(b, v));
      writes := writes + [Write(b, v)];
      disk := disk[b := v];
    }

    /** brelse: give up a reference; the last one makes the buffer the most recently used. */
    method Brelse(r: nat)
      requires Valid() && r < |bufs| && bufs[r].dev == ROOTDEV && bufs[r].refcnt > 0
      modifies this`bufs, this`refs, this`next, this`prev, this`order, this`stamp, this`clock
      ensures Valid() && bufs == old(bufs)[r := old(bufs)[r].(refcnt := old(bufs)[r].refcnt - 1)]
      ensures refs == old(refs)[bufs[r].bno := old(refs)[bufs[r].bno] - 1]
      ensures Settled(disk, view, old(refs)) && (bufs[r].refcnt == 0 ==> disk[bufs[r].bno] == view[bufs[r].bno]) ==>
                Settled(disk, view, refs)
      ensures bufs[r].refcnt == 0 ==>
                && |stamp| == |bufs| && stamp == old(stamp)[r := stamp[r]]
                && forall j :: 0 <= j < |bufs| && j != r ==> stamp[j] < stamp[r]
    {
      hide Recent, Traced;
      RefsAgree(bufs, disk, view, refs, r);
      hide Consistent;
      var n := bufs[r].refcnt - 1;
      Rereference(bufs, disk, view, refs, r, n);
      refs := refs[bufs[r].bno := n];
      bufs := bufs[r := bufs[r].(refcnt := n)];
      if bufs[r].refcnt == 0 {
        MoveToFront(r);
      }
    }

    /** The relinking at the end of brelse. */
    method MoveToFront(r: nat)
      requires |order| == |bufs| && Recent(next, prev, order, stamp, clock) && r < |bufs|
      modifies this`next, this`prev, this`order, this`stamp, this`clock
      ensures |order| == |bufs| && Recent(next, prev, order, stamp, clock)
      ensures |stamp| == |bufs| && stamp == old(stamp)[r := stamp[r]]
      ensures forall j :: 0 <= j < |bufs| && j != r ==> stamp[j] < stamp[r]
    {
      hide Recent, Linked;
      ghost var p := PositionOf(next, prev, order, stamp, clock, r);
      var head := |bufs|;
      var nx, pv := next[prev[r] := next[r]], prev[next[r] := prev[r]];
      Relink(next, prev, head, order, p, nx, pv);
      next, prev := nx[r := nx[head]][head := r], pv[r := head][nx[head] := r];
      FrontIsRecent(old(next), old(prev), next, prev, order, stamp, clock, p);
      order := [r] + Without(order, p);
      clock := clock + 1;
      stamp := stamp[r := clock];
    }

    /** bpin and bunpin: a reference without the buffer lock. */
    method Bpin(r: nat)
      requires Valid() && r < |bufs| && bufs[r].dev == ROOTDEV
      modifies this`bufs, this`refs
      ensures Valid() && bufs == old(bufs)[r := old(bufs)[r].(refcnt := old(bufs)[r].refcnt + 1)]
      ensures refs == old(refs)[bufs[r].bno := old(refs)[bufs[r].bno] + 1]
      ensures Settled(disk, view, old(refs)) ==> Settled(disk, view, refs)
    {
      hide Recent, Traced;
      RefsAgree(bufs, disk, view, refs, r);
      hide Consistent;
      var n := bufs[r].refcnt + 1;
      Rereference(bufs, disk, view, refs, r, n);
      refs := refs[bufs[r].bno := n];
      bufs := bufs[r := bufs[r].(refcnt := n)];
    }

    method Bunpin(r: nat)
      requires Valid() && r < |bufs| && bufs[r].dev == ROOTDEV && bufs[r].refcnt > 0
      modifies this`bufs, this`refs
      ensures Valid() && bufs == old(bufs)[r := old(bufs)[r].(refcnt := old(bufs)[r].refcnt - 1)]
      ensures refs == old(refs)[bufs[r].bno := old(refs)[bufs[r].bno] - 1]
      ensures Settled(disk, view, old(refs)) && (bufs[r].refcnt == 0 ==> disk[bufs[r].bno] == view[bufs[r].bno]) ==>
                Settled(disk, view, refs)
    {
      hide Recent, Traced;
      RefsAgree(bufs, disk, view, refs, r);
      hide Consistent;
      var n := bufs[r].refcnt - 1;
      Rereference(bufs, disk, view, refs, r, n);
      refs := refs[bufs[r].bno := n];
      bufs := bufs[r := bufs[r].(refcnt := n)];
    }
  }

  /** The last unreferenced buffer of the ring is the one given up longest ago. */
  lemma LeastRecent(bufs: seq<Buf>, next: seq<nat>, prev: seq<nat>, order: seq<nat>, stamp: seq<nat>, clock: nat,
                    k: nat)
    requires |bufs| == |order| && Recent(next, prev, order, stamp, clock) && k < |order|
    requires forall j :: k < j < |order| ==> bufs[order[j]].refcnt > 0
    ensures forall i :: 0 <= i < |bufs| && bufs[i].refcnt == 0 ==> stamp[order[k]] <= stamp[i]
  {
    forall i: nat | i < |bufs| && bufs[i].refcnt == 0 ensures stamp[order[k]] <= stamp[i] {
      assert i in order;
      var j :| 0 <= j < |order| && order[j] == i;
    }
  }

  /** Where buffer r stands in the ring. */
  lemma PositionOf(next: seq<nat>, prev: seq<nat>, order: seq<nat>, stamp: seq<nat>, clock: nat,
                   r: nat) returns (p: nat)
    requires Recent(next, prev, order, stamp, clock) && r < |order|
    ensures p < |order| && order[p] == r
    ensures |stamp| == |order| && |next| == |prev| == |order| + 1 && Linked(next, prev, |order|, order)
    ensures next[r] < |next| && prev[r] < |next|
    ensures forall i :: 0 <= i < |stamp| ==> stamp[i] <= clock
  {
    assert r in order;
    p :| 0 <= p < |order| && order[p] == r;
    LinksInRange(next, prev, |order|, order, p);
  }

  /** Ring order and release times after buffer order[p] is released and moved to the front. */
  lemma MovedToFront(order: seq<nat>, stamp: seq<nat>, clock: nat, p: nat)
    requires |order| == |stamp| && p < |order|
    requires forall k :: 0 <= k < |order| ==> order[k] < |order|
    requires forall j, k :: 0 <= j < k < |order| ==> order[j] != order[k]
    requires forall i :: 0 <= i < |stamp| ==> stamp[i] <= clock
    requires forall j, k :: 0 <= j < k < |order| ==> stamp[order[j]] >= stamp[order[k]]
    ensures var order' := [order[p]] + Without(order, p);
            var stamp' := stamp[order[p] := clock + 1];
            forall j, k :: 0 <= j < k < |order'| ==> stamp'[order'[j]] >= stamp'[order'[k]]
  {
    var order' := [order[p]] + Without(order, p);
    assert forall k :: 0 < k < |order'| ==> order'[k] == if k - 1 < p then order[k - 1] else order[k];
  }

  lemma StillAll(order: seq<nat>, p: nat, i: nat)
    requires p < |order| && i in order
    ensures i in [order[p]] + Without(order, p)
  {
    var order' := [order[p]] + Without(order, p);
    var j :| 0 <= j < |order| && order[j] == i;
    assert order'[if j == p then 0 else if j < p then j + 1 else j] == i;
  }

  lemma FrontIsRecent(next: seq<nat>, prev: seq<nat>, next': seq<nat>, prev': seq<nat>,
                      order: seq<nat>, stamp: seq<nat>, clock: nat, p: nat)
    requires Recent(next, prev, order, stamp, clock) && p < |order|
    requires |next'| == |prev'| == |next| && Linked(next', prev', |order|, [order[p]] + Without(order, p))
    ensures Recent(next', prev', [order[p]] + Without(order, p), stamp[order[p] := clock + 1], clock + 1)
  {
    MovedToFront(order, stamp, clock, p);
    forall i: nat | i < |order| ensures i in [order[p]] + Without(order, p) {
      StillAll(order, p, i);
    }
  }
}
