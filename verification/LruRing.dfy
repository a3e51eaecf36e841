/**
  The doubly linked ring through struct buf's prev and next fields (kernel/bio.c), with
  pointers as indices.  `order` lists the buffers from head.next round to head.prev.
 */
module LruRing {

  /** Node number k of the ring: the head, then the buffers in order, then the head again. */
  function Node(head: nat, order: seq<nat>, k: nat): nat
    requires k <= |order| + 1
  {
    if k == 0 || k == |order| + 1 then head else order[k - 1]
  }

  ghost predicate Linked(next: seq<nat>, prev: seq<nat>, head: nat, order: seq<nat>) {
    && |next| == |prev| && head < |next|
    && (forall k :: 0 <= k < |order| ==> order[k] < |next| && order[k] != head)
    && (forall j, k :: 0 <= j < k < |order| ==> order[j] != order[k])
    && (forall k: nat {:trigger next[Node(head, order, k)]} ::
          k <= |order| ==> next[Node(head, order, k)] == Node(head, order, k + 1))
    && (forall k: nat {:trigger prev[Node(head, order, k)]} ::
          1 <= k <= |order| + 1 ==> prev[Node(head, order, k)] == Node(head, order, k - 1))
  }

  lemma PrevFrom(prev: seq<nat>, head: nat, order: seq<nat>)
    requires head < |prev| && forall k :: 0 <= k < |order| ==> order[k] < |prev|
    requires forall k: nat :: k <= |order| ==> prev[Node(head, order, k + 1)] == Node(head, order, k)
    ensures forall k: nat {:trigger prev[Node(head, order, k)]} ::
              1 <= k <= |order| + 1 ==> prev[Node(head, order, k)] == Node(head, order, k - 1)
  {
    forall k: nat | 1 <= k <= |order| + 1 ensures prev[Node(head, order, k)] == Node(head, order, k - 1) {
      var j: nat := k - 1;
      assert prev[Node(head, order, j + 1)] == Node(head, order, j);
    }
  }

  function Without(order: seq<nat>, p: nat): (r: seq<nat>)
    requires p < |order|
    ensures |r| == |order| - 1
    ensures forall k :: 0 <= k < |r| ==> r[k] == if k < p then order[k] else order[k + 1]
  {
    order[..p] + order[p + 1..]
  }

  /** b->next->prev = b->prev; b->prev->next = b->next: the ring without b. */
  lemma Unlink(next: seq<nat>, prev: seq<nat>, head: nat, order: seq<nat>, p: nat)
    requires Linked(next, prev, head, order) && p < |order|
    ensures var b := order[p];
            && next[b] < |next| && prev[b] < |next|
            && Linked(next[prev[b] := next[b]], prev[next[b] := prev[b]], head, Without(order, p))
  {
    var b := order[p];
    var before, after := Node(head, order, p), Node(head, order, p + 2);
    assert Node(head, order, p + 1) == b;
    assert next[Node(head, order, p + 1)] == after && prev[Node(head, order, p + 1)] == before;
    var next', prev', order' := next[before := after], prev[after := before], Without(order, p);
    forall k: nat | k <= |order'|
      ensures next'[Node(head, order', k)] == Node(head, order', k + 1)
      ensures prev'[Node(head, order', k + 1)] == Node(head, order', k)
    {
      if k < p {
        assert next[Node(head, order, k)] == Node(head, order, k + 1);
        assert prev[Node(head, order, k + 1)] == Node(head, order, k);
      } else if k > p {
        assert next[Node(head, order, k + 1)] == Node(head, order, k + 2);
        assert prev[Node(head, order, k + 2)] == Node(head, order, k + 1);
      }
    }
    PrevFrom(prev', head, order');
  }

  /** b->next = head.next; b->prev = &head; head.next->prev = b; head.next = b. */
  lemma PushFront(next: seq<nat>, prev: seq<nat>, head: nat, order: seq<nat>, b: nat)
    requires Linked(next, prev, head, order)
    requires b < |next| && b != head && b !in order
    ensures next[head] < |next|
    ensures Linked(next[b := next[head]][head := b], prev[b := head][next[head] := b], head, [b] + order)
  {
    var first := Node(head, order, 1);
    assert next[Node(head, order, 0)] == first;
    var next', prev', order' := next[b := first][head := b], prev[b := head][first := b], [b] + order;
    forall k: nat | k <= |order'|
      ensures next'[Node(head, order', k)] == Node(head, order', k + 1)
      ensures prev'[Node(head, order', k + 1)] == Node(head, order', k)
    {
      if k >= 2 {
        assert next[Node(head, order, k - 1)] == Node(head, order, k);
        assert prev[Node(head, order, k)] == Node(head, order, k - 1);
      }
    }
    PrevFrom(prev', head, order');
  }

  /** brelse's six pointer assignments move buffer order[p] to the front. */
  lemma Relink(next: seq<nat>, prev: seq<nat>, head: nat, order: seq<nat>, p: nat, nx: seq<nat>, pv: seq<nat>)
    requires Linked(next, prev, head, order) && p < |order|
    requires next[order[p]] < |next| && prev[order[p]] < |next|
    requires nx == next[prev[order[p]] := next[order[p]]]
    requires pv == prev[next[order[p]] := prev[order[p]]]
    ensures nx[head] < |next|
    ensures var b := order[p];
            Linked(nx[b := nx[head]][head := b], pv[b := head][nx[head] := b], head, [b] + Without(order, p))
  {
    Unlink(next, prev, head, order, p);
    PushFront(nx, pv, head, Without(order, p), order[p]);
  }

  lemma LinksInRange(next: seq<nat>, prev: seq<nat>, head: nat, order: seq<nat>, p: nat)
    requires Linked(next, prev, head, order) && p < |order|
    ensures next[order[p]] < |next| && prev[order[p]] < |next|
  {
    Unlink(next, prev, head, order, p);
  }
}
