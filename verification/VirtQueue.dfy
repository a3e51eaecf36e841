/** The split virtqueue of kernel/virtio_disk.c: descriptors in chains of three, and the two rings. */
module VirtQueue {
  import opened Common

  const NUM: nat := 8
  const WRAP: nat := 0x1_0000

  /** What a descriptor points to: a command header, a buffer's data, a status byte. */
  datatype Addr = Null | HeaderOf(h: nat) | DataOf(b: nat) | StatusOf(h: nat)

  /** flags: the NEXT bit and the device-writes bit. */
  datatype Desc = Desc(addr: Addr, len: nat, next: nat, hasNext: bool, deviceWrites: bool)

  /** A piece of memory that the device is handed, and whether it may write there. */
  datatype Segment = Segment(addr: Addr, len: nat, deviceWrites: bool)

  /** A command header. */
  datatype Op = Op(write: bool, sector: nat)

  /**
    Second and third descriptor of a request, its command and its buffer. The first descriptor is the request's name.
   */
  datatype Chain = Chain(i1: nat, i2: nat, op: Op, b: nat)

  /**
    Published: in the avail ring. Working: taken by the device. Done: in the used ring. Seen: virtio_disk_intr has
    cleared b->disk.
   */
  datatype Phase = Published | Working | Done | Seen

  type Chains = map<nat, Chain>

  function Nothing(): Desc {
    Desc(Null, 0, 0, false, false)
  }

  function FreeCount(free: seq<bool>): nat {
    if free == [] then 0 else FreeCount(free[..|free| - 1]) + if free[|free| - 1] then 1 else 0
  }

  lemma {:induction false} FreeCountUpdate(free: seq<bool>, i: nat, v: bool)
    requires i < |free|
    ensures FreeCount(free[i := v]) == FreeCount(free) + (if v then 1 else 0) - (if free[i] then 1 else 0)
  {
    var n := |free| - 1;
    if i == n {
      assert free[i := v][..n] == free[..n];
    } else {
      assert free[i := v][..n] == free[..n][i := v];
      FreeCountUpdate(free[..n], i, v);
    }
  }

  lemma {:induction false} FreeCountBound(free: seq<bool>)
    ensures FreeCount(free) <= |free|
    ensures FreeCount(free) == 0 <==> forall i :: 0 <= i < |free| ==> !free[i]
    ensures (forall i :: 0 <= i < |free| ==> free[i]) ==> FreeCount(free) == |free|
  {
    if free != [] {
      FreeCountBound(free[..|free| - 1]);
      var n := |free| - 1;
      assert forall i :: 0 <= i < n ==> free[..n][i] == free[i];
    }
  }

  // ---------------------------------------------------------------- descriptors

  predicate Member(h: nat, c: Chain, i: nat) {
    i == h || i == c.i1 || i == c.i2
  }

  /** The descriptors and header of chain h spell out a block request, section 5.2.6 of Virtio 1.1. */
  predicate Spelled(desc: seq<Desc>, ops: seq<Op>, h: nat, c: Chain)
    requires |desc| == NUM == |ops|
  {
    && h < NUM && c.i1 < NUM && c.i2 < NUM && h != c.i1 && h != c.i2 && c.i1 != c.i2
    && desc[h] == Desc(HeaderOf(h), 16, c.i1, true, false)
    && desc[c.i1] == Desc(DataOf(c.b), 1024, c.i2, true, !c.op.write)
    && desc[c.i2] == Desc(StatusOf(h), 1, 0, false, true)
    && ops[h] == c.op
  }

  /** owner names the chain of each descriptor that is not free; a chain has exactly its three. */
  ghost predicate DescOk(desc: seq<Desc>, ops: seq<Op>, free: seq<bool>, chains: Chains, owner: map<nat, nat>) {
    && |desc| == NUM && |ops| == NUM && |free| == NUM
    && (forall i: nat :: i < NUM ==> (free[i] <==> i !in owner))
    && Owners(chains, owner)
    && (forall h :: h in chains ==> Spelled(desc, ops, h, chains[h]))
    && FreeCount(free) == NUM - 3 * |chains|
  }

  ghost predicate Owners(chains: Chains, owner: map<nat, nat>) {
    && (forall i :: i in owner ==> i < NUM && owner[i] in chains && Member(owner[i], chains[owner[i]], i))
    && (forall h :: h in chains ==> Owns(owner, h, chains[h]))
  }

  predicate Owns(owner: map<nat, nat>, h: nat, c: Chain) {
    && h in owner && owner[h] == h && c.i1 in owner && owner[c.i1] == h && c.i2 in owner && owner[c.i2] == h
  }

  /** Chains in flight are disjoint triples. */
  lemma ChainsAreDisjoint(desc: seq<Desc>, ops: seq<Op>, free: seq<bool>, chains: Chains, owner: map<nat, nat>, h: nat,
                          k: nat, i: nat)
    requires DescOk(desc, ops, free, chains, owner) && h in chains && k in chains && Member(h, chains[h], i)
    requires Member(k, chains[k], i)
    ensures h == k && i < NUM && !free[i]
  {
  }

  lemma FewChains(desc: seq<Desc>, ops: seq<Op>, free: seq<bool>, chains: Chains, owner: map<nat, nat>)
    requires DescOk(desc, ops, free, chains, owner)
    ensures |chains| <= 2
  {
  }

  function Formatted(desc: seq<Desc>, h: nat, c: Chain): seq<Desc>
    requires |desc| == NUM && h < NUM && c.i1 < NUM && c.i2 < NUM
  {
    desc[h := Desc(HeaderOf(h), 16, c.i1, true, false)][c.i1 := Desc(DataOf(c.b), 1024, c.i2, true, !c.op.write)]
        [c.i2 := Desc(StatusOf(h), 1, 0, false, true)]
  }

  function Marked(free: seq<bool>, h: nat, c: Chain, v: bool): (r: seq<bool>)
    requires |free| == NUM && h < NUM && c.i1 < NUM && c.i2 < NUM
    ensures |r| == NUM
  {
    free[h := v][c.i1 := v][c.i2 := v]
  }

  predicate Triple(h: nat, c: Chain) {
    h < NUM && c.i1 < NUM && c.i2 < NUM && h != c.i1 && h != c.i2 && c.i1 != c.i2
  }

  lemma MarkedCount(free: seq<bool>, h: nat, c: Chain, v: bool)
    requires |free| == NUM && Triple(h, c) && free[h] == free[c.i1] == free[c.i2] == !v
    ensures FreeCount(Marked(free, h, c, v)) == FreeCount(free) + if v then 3 else -3
  {
    hide FreeCount;
    FreeCountUpdate(free, h, v);
    FreeCountUpdate(free[h := v], c.i1, v);
    FreeCountUpdate(free[h := v][c.i1 := v], c.i2, v);
  }

  lemma OwnersPlus(chains: Chains, owner: map<nat, nat>, h: nat, c: Chain)
    requires Owners(chains, owner) && Triple(h, c) && h !in owner && c.i1 !in owner && c.i2 !in owner
    ensures h !in chains && Owners(chains[h := c], owner[h := h][c.i1 := h][c.i2 := h])
  {
  }

  lemma OwnersMinus(chains: Chains, owner: map<nat, nat>, h: nat)
    requires Owners(chains, owner) && h in chains
    ensures Owners(chains - {h}, owner - {h, chains[h].i1, chains[h].i2})
  {
    var c := chains[h];
    var chains', owner' := chains - {h}, owner - {h, c.i1, c.i2};
    forall i | i in owner'
      ensures i < NUM && owner'[i] in chains' && Member(owner'[i], chains'[owner'[i]], i)
    {
      assert Member(owner[i], chains[owner[i]], i);
    }
    forall k | k in chains'
      ensures Owns(owner', k, chains'[k])
    {
      assert Owns(owner, k, chains[k]) && Owns(owner, h, c);
    }
  }

  /** Chains that own other descriptors stay spelled out. */
  lemma SpelledStays(desc: seq<Desc>, ops: seq<Op>, desc': seq<Desc>, ops': seq<Op>, owner: map<nat, nat>, h: nat,
                     k: nat, c: Chain)
    requires |desc| == NUM == |ops| && |desc'| == NUM == |ops'| && Spelled(desc, ops, k, c) && Owns(owner, k, c)
    requires k != h
    requires (forall i: nat :: i < NUM && i in owner && owner[i] != h ==> desc'[i] == desc[i] && ops'[i] == ops[i])
    ensures Spelled(desc', ops', k, c)
  {
  }

  /** A request takes three free descriptors. */
  lemma AddChain(desc: seq<Desc>, ops: seq<Op>, free: seq<bool>, chains: Chains, owner: map<nat, nat>, h: nat, c: Chain)
    requires DescOk(desc, ops, free, chains, owner) && Triple(h, c) && free[h] && free[c.i1] && free[c.i2]
    ensures h !in chains
    ensures DescOk(Formatted(desc, h, c), ops[h := c.op], Marked(free, h, c, false), chains[h := c],
                   owner[h := h][c.i1 := h][c.i2 := h])
  {
    hide FreeCount, Owners, Spelled;
    MarkedCount(free, h, c, false);
    OwnersPlus(chains, owner, h, c);
    forall k | k in chains
      ensures Spelled(Formatted(desc, h, c), ops[h := c.op], k, chains[k])
    {
      OwnersOne(chains, owner, k);
      SpelledStays(desc, ops, Formatted(desc, h, c), ops[h := c.op], owner, h, k, chains[k]);
    }
    IsSpelled(desc, ops, h, c);
  }

  lemma OwnersOne(chains: Chains, owner: map<nat, nat>, k: nat)
    requires Owners(chains, owner) && k in chains
    ensures Owns(owner, k, chains[k])
  {
  }

  lemma IsSpelled(desc: seq<Desc>, ops: seq<Op>, h: nat, c: Chain)
    requires |desc| == NUM == |ops| && Triple(h, c)
    ensures Spelled(Formatted(desc, h, c), ops[h := c.op], h, c)
  {
  }

  function Wiped(desc: seq<Desc>, h: nat, c: Chain): (r: seq<Desc>)
    requires |desc| == NUM && h < NUM && c.i1 < NUM && c.i2 < NUM
    ensures |r| == NUM
  {
    desc[h := Nothing()][c.i1 := Nothing()][c.i2 := Nothing()]
  }

  lemma SpelledTriple(desc: seq<Desc>, ops: seq<Op>, h: nat, c: Chain)
    requires |desc| == NUM == |ops| && Spelled(desc, ops, h, c)
    ensures Triple(h, c)
  {
  }

  /** Freeing the three descriptors of a chain. */
  lemma DropChain(desc: seq<Desc>, ops: seq<Op>, free: seq<bool>, chains: Chains, owner: map<nat, nat>, h: nat)
    requires DescOk(desc, ops, free, chains, owner) && h in chains
    ensures Triple(h, chains[h]) && !free[h] && !free[chains[h].i1] && !free[chains[h].i2]
    ensures DescOk(Wiped(desc, h, chains[h]), ops, Marked(free, h, chains[h], true), chains - {h},
                   owner - {h, chains[h].i1, chains[h].i2})
  {
    hide FreeCount, Owners, Spelled;
    var c := chains[h];
    SpelledTriple(desc, ops, h, c);
    OwnersOne(chains, owner, h);
    MarkedCount(free, h, c, true);
    OwnersMinus(chains, owner, h);
    var chains' := chains - {h};
    assert chains == chains'[h := c];
    forall k | k in chains'
      ensures Spelled(Wiped(desc, h, c), ops, k, chains'[k])
    {
      OwnersOne(chains, owner, k);
      SpelledStays(desc, ops, Wiped(desc, h, c), ops, owner, h, k, chains[k]);
    }
  }

  /** Descriptors that are free may be wiped. */
  lemma WipeFree(desc: seq<Desc>, desc': seq<Desc>, ops: seq<Op>, free: seq<bool>, chains: Chains, owner: map<nat, nat>)
    requires DescOk(desc, ops, free, chains, owner) && |desc'| == NUM
    requires forall i :: 0 <= i < NUM && !free[i] ==> desc'[i] == desc[i]
    ensures DescOk(desc', ops, free, chains, owner)
  {
    hide FreeCount;
    forall k | k in chains
      ensures Spelled(desc', ops, k, chains[k])
    {
      OwnersOne(chains, owner, k);
    }
  }

  // ---------------------------------------------------------------- rings

  /** The entries from count lo on are q. */
  ghost predicate RingHolds(ring: seq<nat>, lo: nat, q: seq<nat>) {
    |ring| == NUM && |q| <= NUM && forall t: nat :: t < |q| ==> ring[(lo + t) % NUM] == q[t]
  }

  /** Writing the next entry overwrites none that is still waiting. */
  lemma RingPush(ring: seq<nat>, lo: nat, q: seq<nat>, x: nat)
    requires RingHolds(ring, lo, q) && |q| < NUM
    ensures RingHolds(ring[(lo + |q|) % NUM := x], lo, q + [x])
  {
    var ring', q' := ring[(lo + |q|) % NUM := x], q + [x];
    forall t: nat | t < |q'|
      ensures ring'[(lo + t) % NUM] == q'[t]
    {
    }
  }

  lemma RingPop(ring: seq<nat>, lo: nat, q: seq<nat>)
    requires RingHolds(ring, lo, q) && q != []
    ensures ring[lo % NUM] == q[0] && RingHolds(ring, lo + 1, q[1..])
  {
    assert ring[(lo + 0) % NUM] == q[0];
    forall t: nat | t < |q| - 1
      ensures ring[(lo + 1 + t) % NUM] == q[1..][t]
    {
      assert ring[(lo + (t + 1)) % NUM] == q[t + 1];
    }
  }

  /** Sixteen-bit indices: the slot, the step and the emptiness test are those of unbounded counters. */
  lemma IndexIsCounter(n: nat)
    ensures (n % WRAP) % NUM == n % NUM && (n % WRAP + 1) % WRAP == (n + 1) % WRAP
  {
  }

  lemma EmptyTest(lo: nat, hi: nat)
    requires lo <= hi < lo + WRAP
    ensures lo % WRAP == hi % WRAP <==> lo == hi
  {
  }

  /** A ring whose waiting entries are q, its 16-bit read index lo and write index hi; count is entries read so far. */
  ghost predicate RingOk(ring: seq<nat>, count: nat, q: seq<nat>, lo: nat, hi: nat) {
    RingHolds(ring, count, q) && lo == count % WRAP && hi == (count + |q|) % WRAP
  }

  lemma RingIndex(ring: seq<nat>, count: nat, q: seq<nat>, lo: nat, hi: nat)
    requires RingOk(ring, count, q, lo, hi)
    ensures |ring| == NUM && lo % NUM < NUM && hi % NUM < NUM && (lo == hi <==> q == [])
  {
    hide RingHolds;
    RingSize(ring, count, q);
    EmptyTest(count, count + |q|);
  }

  lemma RingSize(ring: seq<nat>, count: nat, q: seq<nat>)
    requires RingHolds(ring, count, q)
    ensures |ring| == NUM && |q| <= NUM
  {
  }

  /** The writer's step: no waiting entry is overwritten, whatever the indices. */
  lemma RingWrite(ring: seq<nat>, count: nat, q: seq<nat>, lo: nat, hi: nat, x: nat)
    requires RingOk(ring, count, q, lo, hi) && |q| < NUM
    ensures |ring| == NUM && RingOk(ring[hi % NUM := x], count, q + [x], lo, (hi + 1) % WRAP)
  {
    RingSize(ring, count, q);
    IndexIsCounter(count + |q|);
    RingPush(ring, count, q, x);
    hide RingHolds;
  }

  /** The reader's step. */
  lemma RingRead(ring: seq<nat>, count: nat, q: seq<nat>, lo: nat, hi: nat)
    requires RingOk(ring, count, q, lo, hi) && q != []
    ensures |ring| == NUM && ring[lo % NUM] == q[0] && RingOk(ring, count + 1, q[1..], (lo + 1) % WRAP, hi)
  {
    RingSize(ring, count, q);
    IndexIsCounter(count);
    RingPop(ring, count, q);
    hide RingHolds;
  }

  // ---------------------------------------------------------------- requests

  ghost predicate NoRepeats(q: seq<nat>) {
    forall i, j :: 0 <= i < j < |q| ==> q[i] != q[j]
  }

  lemma {:induction false} NoRepeatsFit(q: seq<nat>, s: set<nat>)
    requires NoRepeats(q) && forall i :: 0 <= i < |q| ==> q[i] in s
    ensures |q| <= |s|
  {
    if q != [] {
      var n := |q| - 1;
      NoRepeatsFit(q[..n], s - {q[n]});
    }
  }

  /** What one request looks like in its phase. */
  predicate RequestOk(c: Chain, ph: Phase, info: Option<nat>, status: nat, onDisk: set<nat>) {
    && info == Some(c.b) && (c.b in onDisk <==> ph != Seen) && (ph == Done ==> status == 0)
  }

  /** Every chain is in one phase; the two queues hold exactly the published and the done ones. */
  ghost predicate RequestsOk(chains: Chains, phase: map<nat, Phase>, pending: seq<nat>, done: seq<nat>,
                             info: seq<Option<nat>>, status: seq<nat>, onDisk: set<nat>) {
    && phase.Keys == chains.Keys && |info| == NUM && |status| == NUM
    && NoRepeats(pending) && NoRepeats(done)
    && (forall h :: h in chains ==> (phase[h] == Published <==> h in pending) && (phase[h] == Done <==> h in done))
    && (forall t: nat :: t < |pending| ==> pending[t] in chains)
    && (forall t: nat :: t < |done| ==> done[t] in chains)
    && (forall h :: h in chains ==> h < NUM && RequestOk(chains[h], phase[h], info[h], status[h], onDisk))
    && (forall h, k :: h in chains && k in chains && h != k ==> chains[h].b != chains[k].b)
    && (forall b :: b in onDisk ==> exists h :: h in chains && chains[h].b == b)
  }

  lemma QueueFits(q: seq<nat>, chains: Chains)
    requires NoRepeats(q) && (forall t: nat :: t < |q| ==> q[t] in chains)
    ensures |q| <= |chains|
  {
    assert |chains.Keys| == |chains|;
    NoRepeatsFit(q, chains.Keys);
  }

  lemma QueuesAreShort(chains: Chains, phase: map<nat, Phase>, pending: seq<nat>, done: seq<nat>,
                       info: seq<Option<nat>>, status: seq<nat>, onDisk: set<nat>)
    requires RequestsOk(chains, phase, pending, done, info, status, onDisk) && |chains| <= 2
    ensures |pending| <= 2 && |done| <= 2
  {
    hide RequestOk, NoRepeats;
    QueueFits(pending, chains);
    QueueFits(done, chains);
  }

  lemma PublishRequest(chains: Chains, phase: map<nat, Phase>, pending: seq<nat>, done: seq<nat>,
                       info: seq<Option<nat>>, status: seq<nat>, onDisk: set<nat>, h: nat, c: Chain)
    requires RequestsOk(chains, phase, pending, done, info, status, onDisk) && h < NUM && h !in chains
    requires forall k :: k in chains ==> chains[k].b != c.b
    ensures RequestsOk(chains[h := c], phase[h := Published], pending + [h], done, info[h := Some(c.b)],
                       status[h := 0xff], onDisk + {c.b})
  {
    var chains' := chains[h := c];
    forall b | b in onDisk + {c.b}
      ensures exists k :: k in chains' && chains'[k].b == b
    {
      if b != c.b {
        var k :| k in chains && chains[k].b == b;
        assert k in chains' && chains'[k].b == b;
      } else {
        assert h in chains' && chains'[h].b == b;
      }
    }
  }

  lemma TailOf(q: seq<nat>)
    requires NoRepeats(q) && q != []
    ensures NoRepeats(q[1..]) && q[0] !in q[1..]
    ensures forall k :: k != q[0] ==> (k in q <==> k in q[1..])
  {
  }

  lemma TakeRequest(chains: Chains, phase: map<nat, Phase>, pending: seq<nat>, done: seq<nat>,
                    info: seq<Option<nat>>, status: seq<nat>, onDisk: set<nat>)
    requires RequestsOk(chains, phase, pending, done, info, status, onDisk) && pending != []
    ensures pending[0] in chains && phase[pending[0]] == Published
    ensures RequestsOk(chains, phase[pending[0] := Working], pending[1..], done, info, status, onDisk)
  {
    TailOf(pending);
    hide NoRepeats;
    var h := pending[0];
    assert h in chains && phase[h] == Published;
  }

  lemma CompleteRequest(chains: Chains, phase: map<nat, Phase>, pending: seq<nat>, done: seq<nat>,
                        info: seq<Option<nat>>, status: seq<nat>, onDisk: set<nat>, h: nat)
    requires RequestsOk(chains, phase, pending, done, info, status, onDisk) && h in chains && phase[h] == Working
    ensures h < NUM && RequestsOk(chains, phase[h := Done], pending, done + [h], info, status[h := 0], onDisk)
  {
  }

  lemma SeeRequest(chains: Chains, phase: map<nat, Phase>, pending: seq<nat>, done: seq<nat>,
                   info: seq<Option<nat>>, status: seq<nat>, onDisk: set<nat>)
    requires RequestsOk(chains, phase, pending, done, info, status, onDisk) && done != []
    ensures done[0] in chains && done[0] < NUM && info[done[0]] == Some(chains[done[0]].b) && status[done[0]] == 0
    ensures RequestsOk(chains, phase[done[0] := Seen], pending, done[1..], info, status, onDisk - {chains[done[0]].b})
  {
    TailOf(done);
    hide NoRepeats;
    var h := done[0];
    assert h in chains && phase[h] == Done;
  }

  lemma DropRequest(chains: Chains, phase: map<nat, Phase>, pending: seq<nat>, done: seq<nat>,
                    info: seq<Option<nat>>, status: seq<nat>, onDisk: set<nat>, h: nat)
    requires RequestsOk(chains, phase, pending, done, info, status, onDisk) && h in chains && phase[h] == Seen
    ensures h < NUM && RequestsOk(chains - {h}, phase - {h}, pending, done, info[h := None], status, onDisk)
  {
    var chains' := chains - {h};
    forall b | b in onDisk
      ensures exists k :: k in chains' && chains'[k].b == b
    {
      var k :| k in chains && chains[k].b == b;
      assert k != h;
      assert k in chains' && chains'[k].b == b;
    }
  }

  lemma FreshQueue(desc: seq<Desc>, ops: seq<Op>, free: seq<bool>, info: seq<Option<nat>>, status: seq<nat>)
    requires |desc| == |ops| == |free| == |info| == |status| == NUM && forall i :: 0 <= i < NUM ==> free[i]
    ensures DescOk(desc, ops, free, map[], map[]) && RequestsOk(map[], map[], [], [], info, status, {})
  {
    FreeCountBound(free);
  }
}
