/** virtio_disk_rw and virtio_disk_intr of kernel/virtio_disk.c, with the device as two more steps. */
module VirtioDisk {
  import opened Common
  import opened VirtQueue

  class Disk {
    var desc: seq<Desc>
    var ops: seq<Op>
    var free: seq<bool>
    var availRing: seq<nat>
    var availIdx: nat             // avail->idx, 16 bits
    var usedRing: seq<nat>
    var usedIdx: nat              // used->idx, 16 bits
    var seenIdx: nat              // disk.used_idx, 16 bits
    var devIdx: nat               // how far the device has read the avail ring, 16 bits
    var info: seq<Option<nat>>
    var status: seq<nat>
    var onDisk: set<nat>          // the buffers whose b->disk is 1
    ghost var chains: Chains
    ghost var owner: map<nat, nat>
    ghost var phase: map<nat, Phase>
    ghost var pending: seq<nat>   // published and not yet taken, oldest first
    ghost var done: seq<nat>      // completed and not yet seen, oldest first
    ghost var taken: nat          // how many requests the device has taken
    ghost var seen: nat           // how many completions the driver has seen

    ghost predicate Valid()
      reads this
    {
      && DescOk(desc, ops, free, chains, owner)
      && RequestsOk(chains, phase, pending, done, info, status, onDisk)
      && RingOk(availRing, taken, pending, devIdx, availIdx)
      && RingOk(usedRing, seen, done, seenIdx, usedIdx)
    }

    constructor ()
      ensures Valid() && chains == map[] && onDisk == {}
    {
      var d, o, f := seq(NUM, _ => Nothing()), seq(NUM, _ => Op(false, 0)), seq(NUM, _ => true);
      var inf, st: seq<nat> := seq(NUM, _ => None), seq(NUM, _ => 0);
      FreshQueue(d, o, f, inf, st);
      desc, ops, free := d, o, f;
      availRing, usedRing := seq(NUM, _ => 0), seq(NUM, _ => 0);
      availIdx, usedIdx, seenIdx, devIdx := 0, 0, 0, 0;
      info, status, onDisk := inf, st, {};
      chains, owner, phase, pending, done, taken, seen := map[], map[], map[], [], [], 0, 0;
      new;
      hide DescOk, RequestsOk, RingOk;
      EmptyRing(availRing);
      EmptyRing(usedRing);
    }

    /** The lowest free descriptor, or none. */
    method AllocDesc() returns (r: Option<nat>)
      requires |free| == NUM
      modifies this`free
      ensures r.None? ==> free == old(free) && forall i :: 0 <= i < NUM ==> !free[i]
      ensures r.Some? ==> r.value < NUM && old(free)[r.value] && free == old(free)[r.value := false]
      ensures r.Some? ==> forall i :: 0 <= i < r.value ==> !old(free)[i]
    {
      var i := 0;
      while i < NUM
        invariant i <= NUM && free == old(free)
        invariant forall k :: 0 <= k < i ==> !free[k]
      {
        if free[i] {
          free := free[i := false];
          return Some(i);
        }
        i := i + 1;
      }
      return None;
    }

    /** The preconditions are the two panics. */
    method FreeDesc(i: nat)
      requires |free| == NUM && |desc| == NUM && i < NUM && !free[i]
      modifies this`desc, this`free
      ensures desc == old(desc)[i := Nothing()] && free == old(free)[i := true]
    {
      desc := desc[i := Nothing()];
      free := free[i := true];
    }

    /** Three distinct descriptors, or all that were taken are put back. */
    method Alloc3() returns (r: Option<(nat, nat, nat)>)
      requires |free| == NUM && |desc| == NUM
      modifies this`desc, this`free
      ensures r.None? <==> FreeCount(old(free)) < 3
      ensures r.None? ==> free == old(free) && |desc| == NUM
      ensures r.None? ==> forall i :: 0 <= i < NUM && !free[i] ==> desc[i] == old(desc)[i]
      ensures r.Some? ==> desc == old(desc) && r.value.0 < NUM && r.value.1 < NUM && r.value.2 < NUM
      ensures r.Some? ==> r.value.0 != r.value.1 && r.value.0 != r.value.2 && r.value.1 != r.value.2
      ensures r.Some? ==> old(free)[r.value.0] && old(free)[r.value.1] && old(free)[r.value.2]
      ensures r.Some? ==> free == old(free)[r.value.0 := false][r.value.1 := false][r.value.2 := false]
    {
      hide FreeCount;
      ghost var f0 := free;
      FreeCountBound(f0);
      var a := AllocDesc();
      if a.None? {
        return None;
      }
      FreeCountUpdate(f0, a.value, false);
      ghost var f1 := free;
      FreeCountBound(f1);
      var b := AllocDesc();
      if b.None? {
        FreeDesc(a.value);
        PutBack(f0, a.value, a.value);
        return None;
      }
      FreeCountUpdate(f1, b.value, false);
      ghost var f2 := free;
      FreeCountBound(f2);
      var c := AllocDesc();
      if c.None? {
        FreeDesc(a.value);
        FreeDesc(b.value);
        PutBack(f0, a.value, b.value);
        return None;
      }
      FreeCountUpdate(f2, c.value, false);
      return Some((a.value, b.value, c.value));
    }

    /**
      virtio_disk_rw up to its wait: allocate, format and publish a request for buffer b, which its holder has
      not already put in flight. false where alloc3_desc fails and virtio_disk_rw goes to sleep.
     */
    method Submit(b: nat, blockno: uint32, write: bool) returns (h: Option<nat>)
      requires Valid() && NotQueued(chains, b)
      modifies this`desc, this`ops, this`free, this`status, this`onDisk, this`info, this`availRing, this`availIdx
      modifies this`chains, this`owner, this`phase, this`pending
      ensures Valid()
      ensures h.None? <==> old(FreeCount(free)) < 3
      ensures h.None? ==>
                chains == old(chains) && pending == old(pending) && phase == old(phase) && onDisk == old(onDisk)
      ensures h.Some? ==> h.value !in old(chains) && onDisk == old(onDisk) + {b} && pending == old(pending) + [h.value]
      ensures h.Some? ==> phase == Entered(old(phase), h.value, Published)
      ensures h.Some? ==> h.value in chains && chains == Entered(old(chains), h.value, chains[h.value])
      ensures h.Some? ==> chains[h.value].b == b && chains[h.value].op == Op(write, 2 * blockno % 0x1_0000_0000)
    {
      hide DescOk, RequestsOk, FreeCount, RingOk, OwnerPlus;
      ghost var desc0 := desc;
      DescSizes(desc, ops, free, chains, owner);
      var idx := Alloc3();
      if idx.None? {
        WipeFree(desc0, desc, ops, free, chains, owner);
        return None;
      }
      Start(idx.value.0, idx.value.1, idx.value.2, b, Op(write, blockno * (1024 / 512) % 0x1_0000_0000), old(free));
      return Some(idx.value.0);
    }

    /** virtio_disk_rw from its three descriptors to the notification. */
    method Start(i0: nat, i1: nat, i2: nat, b: nat, op: Op, ghost free0: seq<bool>)
      requires DescOk(desc, ops, free0, chains, owner) && |free0| == NUM && Triple(i0, Chain(i1, i2, op, b))
      requires free0[i0] && free0[i1] && free0[i2] && free == Marked(free0, i0, Chain(i1, i2, op, b), false)
      requires RequestsOk(chains, phase, pending, done, info, status, onDisk) && NotQueued(chains, b)
      requires RingOk(availRing, taken, pending, devIdx, availIdx) && RingOk(usedRing, seen, done, seenIdx, usedIdx)
      modifies this`desc, this`ops, this`status, this`onDisk, this`info, this`availRing, this`availIdx
      modifies this`chains, this`owner, this`phase, this`pending
      ensures Valid()
      ensures i0 !in old(chains) && onDisk == old(onDisk) + {b} && pending == old(pending) + [i0]
      ensures phase == Entered(old(phase), i0, Published) && chains == Entered(old(chains), i0, Chain(i1, i2, op, b))
    {
      hide DescOk, RequestsOk, RingOk, Entered, OwnerPlus, Marked, Triple, NotQueued;
      RingHasRoom(desc, ops, free0, chains, owner, phase, pending, done, info, status, onDisk);
      Fill(i0, i1, i2, b, op, free0);
      Publish(i0);
      Enter(i0, Chain(i1, i2, op, b));
    }

    /** Format the request and record its buffer. */
    method Fill(i0: nat, i1: nat, i2: nat, b: nat, op: Op, ghost free0: seq<bool>)
      requires DescOk(desc, ops, free0, chains, owner) && |free0| == NUM && Triple(i0, Chain(i1, i2, op, b))
      requires free0[i0] && free0[i1] && free0[i2] && free == Marked(free0, i0, Chain(i1, i2, op, b), false)
      requires RequestsOk(chains, phase, pending, done, info, status, onDisk) && NotQueued(chains, b)
      modifies this`desc, this`ops, this`status, this`onDisk, this`info
      ensures i0 !in chains && onDisk == old(onDisk) + {b}
      ensures DescOk(desc, ops, free, Entered(chains, i0, Chain(i1, i2, op, b)), OwnerPlus(owner, i0, i1, i2))
      ensures RequestsOk(Entered(chains, i0, Chain(i1, i2, op, b)), Entered(phase, i0, Published), pending + [i0], done,
                         info, status, onDisk)
    {
      hide DescOk, RequestsOk, Entered, OwnerPlus, Marked, NotQueued;
      Format(i0, i1, i2, b, op, free0);
      Record(i0, b, Chain(i1, i2, op, b));
    }

    /** Fill in the header and the three descriptors just allocated. */
    method Format(i0: nat, i1: nat, i2: nat, b: nat, op: Op, ghost free0: seq<bool>)
      requires DescOk(desc, ops, free0, chains, owner) && |free0| == NUM && Triple(i0, Chain(i1, i2, op, b))
      requires free0[i0] && free0[i1] && free0[i2] && free == Marked(free0, i0, Chain(i1, i2, op, b), false)
      modifies this`desc, this`ops
      ensures i0 !in chains
      ensures DescOk(desc, ops, free, Entered(chains, i0, Chain(i1, i2, op, b)), OwnerPlus(owner, i0, i1, i2))
    {
      hide DescOk, Marked;
      ghost var c := Chain(i1, i2, op, b);
      DescSizes(desc, ops, free0, chains, owner);
      AddChain(desc, ops, free0, chains, owner, i0, c);
      ops := ops[i0 := op];
      desc := desc[i0 := Desc(HeaderOf(i0), 16, i1, true, false)];
      desc := desc[i1 := Desc(DataOf(b), 1024, i2, true, !op.write)];
      desc := desc[i2 := Desc(StatusOf(i0), 1, 0, false, true)];
    }

    /** Record the buffer of the new request h. */
    method Record(h: nat, b: nat, ghost c: Chain)
      requires h !in chains && h < NUM && c.b == b && NotQueued(chains, b)
      requires RequestsOk(chains, phase, pending, done, info, status, onDisk)
      modifies this`status, this`onDisk, this`info
      ensures onDisk == old(onDisk) + {b}
      ensures RequestsOk(Entered(chains, h, c), Entered(phase, h, Published), pending + [h], done, info, status, onDisk)
    {
      hide RequestsOk;
      RequestSizes(chains, phase, pending, done, info, status, onDisk);
      PublishRequest(chains, phase, pending, done, info, status, onDisk, h, c);
      status := status[h := 0xff];
      onDisk := onDisk + {b};
      info := info[h := Some(b)];
    }

    /** The new request h joins the bookkeeping of the proof. */
    ghost method Enter(h: nat, c: Chain)
      modifies this`chains, this`owner, this`phase, this`pending
      ensures chains == Entered(old(chains), h, c) && phase == Entered(old(phase), h, Published)
      ensures owner == OwnerPlus(old(owner), h, c.i1, c.i2) && pending == old(pending) + [h]
    {
      chains, owner := chains[h := c], owner[h := h][c.i1 := h][c.i2 := h];
      phase, pending := phase[h := Published], pending + [h];
    }

    /** Put the request in the avail ring. */
    method Publish(h: nat)
      requires RingOk(availRing, taken, pending, devIdx, availIdx) && |pending| < NUM
      modifies this`availRing, this`availIdx
      ensures RingOk(availRing, taken, pending + [h], devIdx, availIdx)
    {
      hide RingOk;
      RingIndex(availRing, taken, pending, devIdx, availIdx);
      RingWrite(availRing, taken, pending, devIdx, availIdx, h);
      availRing := availRing[availIdx % NUM := h];
      availIdx := (availIdx + 1) % WRAP;
    }

    /** The device takes the next request off the avail ring and reads what the descriptors say. */
    method DeviceTake() returns (r: Option<(nat, Op, seq<Segment>)>)
      requires Valid()
      modifies this`devIdx, this`phase, this`pending, this`taken
      ensures Valid()
      ensures r.None? <==> old(pending) == []
      ensures r.None? ==> pending == old(pending) && phase == old(phase)
      ensures r.Some? ==> var h := old(pending)[0];
                && pending == old(pending)[1..] && h in chains && old(phase)[h] == Published
                && phase == old(phase)[h := Working]
                && r.value.0 == h && r.value.1 == chains[h].op
                && r.value.2 == [Segment(HeaderOf(h), 16, false),
                                 Segment(DataOf(chains[h].b), 1024, !chains[h].op.write),
                                 Segment(StatusOf(h), 1, true)]
    {
      hide DescOk, RequestsOk, FreeCount, RingOk;
      RingIndex(availRing, taken, pending, devIdx, availIdx);
      if devIdx == availIdx {
        return None;
      }
      RingRead(availRing, taken, pending, devIdx, availIdx);
      TakeRequest(chains, phase, pending, done, info, status, onDisk);
      var h := availRing[devIdx % NUM];
      ChainSpelled(desc, ops, free, chains, owner, h);
      var parts := ReadChain(h);
      devIdx := (devIdx + 1) % WRAP;
      phase, pending, taken := phase[h := Working], pending[1..], taken + 1;
      return Some((h, ops[h], parts));
    }

    /** The device follows a chain to its end. */
    method ReadChain(h: nat) returns (parts: seq<Segment>)
      requires |desc| == |ops| == NUM && h in chains && Spelled(desc, ops, h, chains[h])
      ensures parts == [Segment(HeaderOf(h), 16, false), Segment(DataOf(chains[h].b), 1024, !chains[h].op.write),
                        Segment(StatusOf(h), 1, true)]
    {
      var i := h;
      parts := [Segment(desc[i].addr, desc[i].len, desc[i].deviceWrites)];
      ghost var want := [h, chains[h].i1, chains[h].i2];
      while desc[i].hasNext
        invariant 0 < |parts| <= 3 && i == want[|parts| - 1]
        invariant forall k :: 0 <= k < |parts| ==>
                    parts[k] == Segment(desc[want[k]].addr, desc[want[k]].len, desc[want[k]].deviceWrites)
        decreases 3 - |parts|
      {
        i := desc[i].next;
        parts := parts + [Segment(desc[i].addr, desc[i].len, desc[i].deviceWrites)];
      }
    }

    /** The device finishes a request it has taken: status 0 and an entry in the used ring. */
    method DeviceComplete(h: nat)
      requires Valid() && h in chains && phase[h] == Working
      modifies this`status, this`usedRing, this`usedIdx, this`phase, this`done
      ensures Valid()
      ensures done == old(done) + [h] && phase == old(phase)[h := Done]
    {
      hide DescOk, RequestsOk, FreeCount, RingOk;
      FewChains(desc, ops, free, chains, owner);
      QueuesAreShort(chains, phase, pending, done, info, status, onDisk);
      RequestSizes(chains, phase, pending, done, info, status, onDisk);
      CompleteRequest(chains, phase, pending, done, info, status, onDisk, h);
      RingIndex(usedRing, seen, done, seenIdx, usedIdx);
      RingWrite(usedRing, seen, done, seenIdx, usedIdx, h);
      status := status[h := 0];
      usedRing := usedRing[usedIdx % NUM := h];
      usedIdx := (usedIdx + 1) % WRAP;
      phase, done := phase[h := Done], done + [h];
    }

    /** virtio_disk_intr: clears b->disk for every completed request, and for no other. */
    method Intr()
      requires Valid()
      modifies this`onDisk, this`seenIdx, this`phase, this`done, this`seen
      ensures Valid() && done == []
      ensures forall h :: h in chains ==> phase[h] == if old(phase)[h] == Done then Seen else old(phase)[h]
      ensures forall b :: b in onDisk <==>
                          b in old(onDisk) && forall h :: h in chains && old(phase)[h] == Done ==> chains[h].b != b
    {
      hide DescOk, RequestsOk, RingOk, SoFar;
      RequestSizes(chains, phase, pending, done, info, status, onDisk);
      NothingYet(chains, phase, onDisk);
      IdxTest();
      while seenIdx != usedIdx
        invariant Valid()
        invariant (seenIdx != usedIdx) <==> done != []
        invariant SoFar(chains, old(phase), phase, old(onDisk), onDisk)
        decreases |done|
      {
        ghost var phase1, onDisk1, done1 := phase, onDisk, done;
        PhaseOf(chains, phase, pending, done, info, status, onDisk);
        IntrOne();
        OneMore(chains, old(phase), phase1, phase, old(onDisk), onDisk1, onDisk, done1[0]);
        IdxTest();
      }
      AllSeen(chains, old(phase), phase, old(onDisk), onDisk, pending, info, status);
    }

    /** The loop test of virtio_disk_intr. */
    lemma IdxTest()
      requires Valid()
      ensures seenIdx == usedIdx <==> done == []
    {
      hide DescOk, RequestsOk, RingOk;
      RingIndex(usedRing, seen, done, seenIdx, usedIdx);
    }

    /** One turn of virtio_disk_intr's loop; the status assertion is its panic. */
    method IntrOne()
      requires Valid() && done != []
      modifies this`onDisk, this`seenIdx, this`phase, this`done, this`seen
      ensures Valid() && done == old(done)[1..]
      ensures old(done)[0] in chains && phase == old(phase)[old(done)[0] := Seen]
      ensures onDisk == old(onDisk) - {chains[old(done)[0]].b}
    {
      hide DescOk, RequestsOk, RingOk;
      RingIndex(usedRing, seen, done, seenIdx, usedIdx);
      RingRead(usedRing, seen, done, seenIdx, usedIdx);
      RequestSizes(chains, phase, pending, done, info, status, onDisk);
      SeeRequest(chains, phase, pending, done, info, status, onDisk);
      var id := usedRing[seenIdx % NUM];
      assert status[id] == 0;
      var b := info[id].value;
      onDisk := onDisk - {b};
      seenIdx := (seenIdx + 1) % WRAP;
      phase, done, seen := phase[id := Seen], done[1..], seen + 1;
    }

    /** The end of virtio_disk_rw, once b->disk is 0: the request's descriptors are given back. */
    method Finish(h: nat, b: nat)
      requires Valid() && h in chains && chains[h].b == b && b !in onDisk
      modifies this`desc, this`free, this`info, this`chains, this`owner, this`phase
      ensures Valid() && chains == old(chains) - {h} && phase == old(phase) - {h}
      ensures FreeCount(free) == old(FreeCount(free)) + 3
    {
      hide DescOk, RequestsOk, FreeCount, RingOk;
      Forget(h);
      FreeChain(h);
      Leave(h);
    }

    /** Request h leaves the bookkeeping of the proof. */
    ghost method Leave(h: nat)
      requires h in chains
      modifies this`chains, this`owner, this`phase
      ensures chains == old(chains) - {h} && phase == old(phase) - {h}
      ensures owner == old(owner) - {h, old(chains)[h].i1, old(chains)[h].i2}
    {
      owner := owner - {h, chains[h].i1, chains[h].i2};
      chains, phase := chains - {h}, phase - {h};
    }

    /** disk.info[h].b = 0 */
    method Forget(h: nat)
      requires RequestsOk(chains, phase, pending, done, info, status, onDisk) && h in chains && chains[h].b !in onDisk
      modifies this`info
      ensures RequestsOk(chains - {h}, phase - {h}, pending, done, info, status, onDisk)
    {
      hide RequestsOk;
      IsSeen(chains, phase, pending, done, info, status, onDisk, h);
      RequestSizes(chains, phase, pending, done, info, status, onDisk);
      DropRequest(chains, phase, pending, done, info, status, onDisk, h);
      info := info[h := None];
    }

    /** Follows the chain from i, freeing each descriptor; no descriptor on it is free. */
    method FreeChain(i: nat)
      requires DescOk(desc, ops, free, chains, owner) && i in chains
      modifies this`desc, this`free
      ensures DescOk(desc, ops, free, chains - {i}, owner - {i, chains[i].i1, chains[i].i2})
      ensures FreeCount(free) == FreeCount(old(free)) + 3
    {
      hide DescOk, FreeCount, Owners;
      DropChain(desc, ops, free, chains, owner, i);
      ChainSpelled(desc, ops, free, chains, owner, i);
      DescSizes(desc, ops, free, chains, owner);
      ghost var c := chains[i];
      MarkedCount(free, i, c, true);
      var j, going := i, true;
      ghost var n := 0;
      while going
        invariant n <= 3 && (going <==> n < 3) && |desc| == NUM && |free| == NUM
        invariant n < 3 ==> j == if n == 0 then i else if n == 1 then c.i1 else c.i2
        invariant n == 0 ==> desc == old(desc) && free == old(free)
        invariant n == 1 ==> desc == old(desc)[i := Nothing()] && free == old(free)[i := true]
        invariant n == 2 ==>
                    desc == old(desc)[i := Nothing()][c.i1 := Nothing()] && free == old(free)[i := true][c.i1 := true]
        invariant n == 3 ==> desc == Wiped(old(desc), i, c) && free == Marked(old(free), i, c, true)
        decreases 3 - n
      {
        var flag, nxt := desc[j].hasNext, desc[j].next;
        FreeDesc(j);
        n := n + 1;
        if flag {
          j := nxt;
        } else {
          going := false;
        }
      }
    }
  }

  // ---------------------------------------------------------------- facts used above

  function Entered<V>(m: map<nat, V>, h: nat, v: V): map<nat, V> {
    m[h := v]
  }

  lemma PutBack(f: seq<bool>, a: nat, b: nat)
    requires a < |f| && b < |f| && f[a] && f[b]
    ensures f[a := false][a := true] == f[a := false][b := false][a := true][b := true] == f
  {
  }

  type uint32 = x: nat | x < 0x1_0000_0000

  /** No request for b is in the queue. */
  ghost predicate NotQueued(chains: Chains, b: nat) {
    forall k :: k in chains ==> chains[k].b != b
  }

  lemma RingHasRoom(desc: seq<Desc>, ops: seq<Op>, free: seq<bool>, chains: Chains, owner: map<nat, nat>,
                    phase: map<nat, Phase>, pending: seq<nat>, done: seq<nat>, info: seq<Option<nat>>,
                    status: seq<nat>, onDisk: set<nat>)
    requires DescOk(desc, ops, free, chains, owner)
    requires RequestsOk(chains, phase, pending, done, info, status, onDisk)
    ensures |pending| < NUM
  {
    hide DescOk, RequestsOk;
    FewChains(desc, ops, free, chains, owner);
    QueuesAreShort(chains, phase, pending, done, info, status, onDisk);
  }

  function OwnerPlus(owner: map<nat, nat>, h: nat, i1: nat, i2: nat): map<nat, nat> {
    owner[h := h][i1 := h][i2 := h]
  }

  lemma DescSizes(desc: seq<Desc>, ops: seq<Op>, free: seq<bool>, chains: Chains, owner: map<nat, nat>)
    requires DescOk(desc, ops, free, chains, owner)
    ensures |desc| == |ops| == |free| == NUM
  {
  }

  lemma RequestSizes(chains: Chains, phase: map<nat, Phase>, pending: seq<nat>, done: seq<nat>,
                     info: seq<Option<nat>>, status: seq<nat>, onDisk: set<nat>)
    requires RequestsOk(chains, phase, pending, done, info, status, onDisk)
    ensures |info| == |status| == NUM && phase.Keys == chains.Keys && forall h :: h in chains ==> h < NUM
  {
  }

  lemma EmptyRing(ring: seq<nat>)
    requires |ring| == NUM
    ensures RingOk(ring, 0, [], 0, 0)
  {
  }

  lemma ChainSpelled(desc: seq<Desc>, ops: seq<Op>, free: seq<bool>, chains: Chains, owner: map<nat, nat>, h: nat)
    requires DescOk(desc, ops, free, chains, owner) && h in chains
    ensures |desc| == NUM == |ops| && Spelled(desc, ops, h, chains[h])
  {
  }

  lemma IsSeen(chains: Chains, phase: map<nat, Phase>, pending: seq<nat>, done: seq<nat>,
               info: seq<Option<nat>>, status: seq<nat>, onDisk: set<nat>, h: nat)
    requires RequestsOk(chains, phase, pending, done, info, status, onDisk) && h in chains && chains[h].b !in onDisk
    ensures phase[h] == Seen
  {
  }

  lemma PhaseOf(chains: Chains, phase: map<nat, Phase>, pending: seq<nat>, done: seq<nat>,
                info: seq<Option<nat>>, status: seq<nat>, onDisk: set<nat>)
    requires RequestsOk(chains, phase, pending, done, info, status, onDisk) && done != []
    ensures done[0] in chains && phase[done[0]] == Done && phase.Keys == chains.Keys
    ensures forall k :: k in chains && k != done[0] ==> chains[k].b != chains[done[0]].b
  {
  }

  /** The completions handled so far are exactly the requests that moved to Seen. */
  ghost predicate SoFar(chains: Chains, phase0: map<nat, Phase>, phase: map<nat, Phase>, onDisk0: set<nat>,
                        onDisk: set<nat>) {
    && phase0.Keys == chains.Keys == phase.Keys
    && (forall h :: h in chains ==> phase[h] == phase0[h] || (phase0[h] == Done && phase[h] == Seen))
    && (forall b ::
          b in onDisk <==>
          b in onDisk0 && forall h :: h in chains && phase0[h] == Done && phase[h] == Seen ==> chains[h].b != b)
  }

  lemma NothingYet(chains: Chains, phase: map<nat, Phase>, onDisk: set<nat>)
    requires phase.Keys == chains.Keys
    ensures SoFar(chains, phase, phase, onDisk, onDisk)
  {
  }

  lemma OneMore(chains: Chains, phase0: map<nat, Phase>, phase1: map<nat, Phase>, phase: map<nat, Phase>,
                onDisk0: set<nat>, onDisk1: set<nat>, onDisk: set<nat>, h: nat)
    requires SoFar(chains, phase0, phase1, onDisk0, onDisk1) && h in chains && phase1[h] == Done
    requires phase == phase1[h := Seen] && onDisk == onDisk1 - {chains[h].b}
    ensures SoFar(chains, phase0, phase, onDisk0, onDisk)
  {
    assert phase0[h] == Done;
    forall b
      ensures b in onDisk <==>
              b in onDisk0 && forall k :: k in chains && phase0[k] == Done && phase[k] == Seen ==> chains[k].b != b
    {
      if b in onDisk {
        assert b in onDisk1 && b != chains[h].b;
      }
    }
  }

  lemma AllSeen(chains: Chains, phase0: map<nat, Phase>, phase: map<nat, Phase>, onDisk0: set<nat>, onDisk: set<nat>,
                pending: seq<nat>, info: seq<Option<nat>>, status: seq<nat>)
    requires SoFar(chains, phase0, phase, onDisk0, onDisk)
    requires RequestsOk(chains, phase, pending, [], info, status, onDisk)
    ensures phase0.Keys == chains.Keys && phase.Keys == chains.Keys
    ensures forall h :: h in chains ==> phase[h] == if phase0[h] == Done then Seen else phase0[h]
    ensures forall b :: b in onDisk <==>
                        b in onDisk0 && forall h :: h in chains && phase0[h] == Done ==> chains[h].b != b
  {
    NoneDone(chains, phase, pending, info, status, onDisk);
    hide RequestsOk;
  }

  lemma NoneDone(chains: Chains, phase: map<nat, Phase>, pending: seq<nat>, info: seq<Option<nat>>, status: seq<nat>,
                 onDisk: set<nat>)
    requires RequestsOk(chains, phase, pending, [], info, status, onDisk)
    ensures forall h :: h in chains ==> phase[h] != Done
  {
  }
}
