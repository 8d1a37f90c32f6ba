/** The doubly linked ring of buffers: `next` and `prev` links through a head sentinel.

    The elements are `0 .. head-1` and the sentinel is the index `head` itself. A ring is
    described by `order`, the elements met when following `next` from the sentinel.
 */
module Ring {

  /** The k-th node met from the sentinel, which is both node 0 and node |order|+1. */
  ghost function At(head: nat, order: seq<nat>, k: int): (n: nat)
  {
    if 1 <= k <= |order| then order[k - 1] else head
  }

  ghost predicate Elements(head: nat, order: seq<nat>)
  {
    && (forall i :: 0 <= i < |order| ==> order[i] < head)
    && (forall i, j :: 0 <= i < j < |order| ==> order[i] != order[j])
  }

  ghost predicate Linked(head: nat, prev: seq<nat>, next: seq<nat>, order: seq<nat>)
  {
    && |prev| == |next| == head + 1
    && Elements(head, order)
    && (forall k :: 0 <= k <= |order| ==> next[At(head, order, k)] == At(head, order, k + 1))
    && (forall k :: 1 <= k <= |order| + 1 ==> prev[At(head, order, k)] == At(head, order, k - 1))
  }

  ghost function Without(order: seq<nat>, p: nat): (r: seq<nat>)
    requires p < |order|
  {
    order[..p] + order[p + 1..]
  }

  /** Bypassing the node at position `p` leaves the ring of the others. */
  lemma UnlinkRing(head: nat, prev: seq<nat>, next: seq<nat>, order: seq<nat>, p: nat)
    requires Linked(head, prev, next, order) && p < |order|
    requires next[order[p]] <= head && prev[order[p]] <= head
    ensures var b := order[p];
            Linked(head, prev[next[b] := prev[b]], next[prev[b] := next[b]], Without(order, p))
  {
    var b := order[p];
    var o := Without(order, p);
    var prev' := prev[next[b] := prev[b]];
    var next' := next[prev[b] := next[b]];
    assert At(head, order, p + 1) == b;
    assert next[b] == At(head, order, p + 2) && prev[b] == At(head, order, p);
    forall k | 0 <= k <= |order| + 1
      ensures k <= p ==> At(head, o, k) == At(head, order, k)
      ensures k > p ==> At(head, o, k) == At(head, order, k + 1)
    {
    }
    forall k | 0 <= k <= |o|
      ensures next'[At(head, o, k)] == At(head, o, k + 1)
    {
      if k < p {
        assert At(head, o, k + 1) == At(head, order, k + 1);
        assert At(head, order, k) != At(head, order, p);
      } else if k == p {
        assert At(head, o, k + 1) == At(head, order, k + 2);
      } else {
        assert At(head, o, k + 1) == At(head, order, k + 2);
        assert At(head, order, k + 1) != At(head, order, p);
      }
    }
    forall k | 1 <= k <= |o| + 1
      ensures prev'[At(head, o, k)] == At(head, o, k - 1)
    {
      if k <= p {
        assert At(head, o, k - 1) == At(head, order, k - 1);
        assert At(head, order, k) != At(head, order, p + 2);
      } else if k == p + 1 {
        assert At(head, o, k - 1) == At(head, order, p);
      } else {
        assert At(head, o, k - 1) == At(head, order, k);
        assert At(head, order, k + 1) != At(head, order, p + 2);
      }
    }
  }

  /** Splicing a node in right after the sentinel puts it at the front. */
  lemma PushFrontRing(head: nat, prev: seq<nat>, next: seq<nat>, order: seq<nat>, b: nat)
    requires Linked(head, prev, next, order) && b < head && b !in order
    requires next[head] <= head
    ensures Linked(head, prev[b := head][next[head] := b], next[b := next[head]][head := b], [b] + order)
  {
    var o := [b] + order;
    var first := next[head];
    assert first == At(head, order, 1) by {
      assert At(head, order, 0) == head;
    }
    var prev' := prev[b := head][first := b];
    var next' := next[b := first][head := b];
    forall k | 1 <= k <= |o| + 1
      ensures At(head, o, k) == if k == 1 then b else At(head, order, k - 1)
    {
    }
    forall k | 0 <= k <= |o|
      ensures next'[At(head, o, k)] == At(head, o, k + 1)
    {
      if k >= 2 {
        assert next[At(head, order, k - 1)] == At(head, order, k);
      }
    }
    forall k | 1 <= k <= |o| + 1
      ensures prev'[At(head, o, k)] == At(head, o, k - 1)
    {
      if k >= 3 {
        assert At(head, order, k - 1) != first;
        assert prev[At(head, order, k - 1)] == At(head, order, k - 2);
      }
    }
  }
}
