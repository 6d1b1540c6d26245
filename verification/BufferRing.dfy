/** The doubly linked ring of buffers through `head`: prev and next as arrays of node numbers, and the order of the
    buffers that they spell out. */
module BufferRing {

  /** The buffer at position `i` of the order; both ends are the list head. */
  function At(order: seq<int>, head: int, i: int): int {
    if 0 <= i < |order| then order[i] else head
  }

  /** Buffers are nodes below `head`, each in the ring at most once. */
  predicate Nodes(order: seq<int>, head: int) {
    && (forall i :: 0 <= i < |order| ==> 0 <= order[i] < head)
    && forall i, j :: 0 <= i < j < |order| ==> order[i] != order[j]
  }

  /** Positions `i - 1` and `i` point at each other. */
  predicate LinkAt(next: seq<int>, prev: seq<int>, order: seq<int>, head: int, i: int)
    requires |next| == |prev| == head + 1 && Nodes(order, head)
  {
    var a, b := At(order, head, i - 1), At(order, head, i);
    0 <= a <= head && 0 <= b <= head && next[a] == b && prev[b] == a
  }

  predicate Linked(next: seq<int>, prev: seq<int>, order: seq<int>, head: int) {
    && head >= 0 && |next| == |prev| == head + 1 && Nodes(order, head)
    && forall i :: 0 <= i <= |order| ==> LinkAt(next, prev, order, head, i)
  }

  /** Following next and then prev, or prev and then next, leads back. */
  lemma Inverse(next: seq<int>, prev: seq<int>, order: seq<int>, head: int, i: int)
    requires Linked(next, prev, order, head) && 0 <= i <= |order|
    ensures var x := At(order, head, i);
      0 <= x <= head && 0 <= next[x] <= head && prev[next[x]] == x && 0 <= prev[x] <= head && next[prev[x]] == x
  {
    assert LinkAt(next, prev, order, head, i);
    assert LinkAt(next, prev, order, head, if i < |order| then i + 1 else 0);
  }

  lemma Apart(order: seq<int>, head: int, i: int, j: int)
    requires Nodes(order, head) && -1 <= i <= |order| && -1 <= j <= |order|
    ensures At(order, head, i) == At(order, head, j) <==> i == j || (i in {-1, |order|} && j in {-1, |order|})
  {
  }

  function Without(order: seq<int>, k: nat): (r: seq<int>)
    requires k < |order|
    ensures |r| == |order| - 1
    ensures forall i :: 0 <= i < k ==> r[i] == order[i]
    ensures forall i :: k <= i < |r| ==> r[i] == order[i + 1]
  {
    order[..k] + order[k + 1..]
  }

  /** b->next->prev = b->prev and b->prev->next = b->next, for the buffer at position `k`. */
  lemma Unlink(next: seq<int>, prev: seq<int>, order: seq<int>, head: int, k: nat)
    requires Linked(next, prev, order, head) && k < |order|
    ensures 0 <= next[order[k]] <= head && 0 <= prev[order[k]] <= head
    ensures Linked(next[prev[order[k]] := next[order[k]]], prev[next[order[k]] := prev[order[k]]],
      Without(order, k), head)
  {
    var b := order[k];
    assert LinkAt(next, prev, order, head, k) && LinkAt(next, prev, order, head, k + 1);
    assert prev[b] == At(order, head, k - 1) && next[b] == At(order, head, k + 1);
    var next', prev', order' := next[prev[b] := next[b]], prev[next[b] := prev[b]], Without(order, k);
    forall i | 0 <= i <= |order'| ensures LinkAt(next', prev', order', head, i) {
      UnlinkAt(next, prev, order, head, k, i);
    }
  }

  lemma UnlinkAt(next: seq<int>, prev: seq<int>, order: seq<int>, head: int, k: nat, i: int)
    requires Linked(next, prev, order, head) && k < |order| && 0 <= i < |order|
    requires var b := order[k]; next[b] == At(order, head, k + 1) && prev[b] == At(order, head, k - 1)
    ensures Nodes(Without(order, k), head)
    ensures var b := order[k];
      && 0 <= prev[b] <= head && 0 <= next[b] <= head
      && LinkAt(next[prev[b] := next[b]], prev[next[b] := prev[b]], Without(order, k), head, i)
  {
    var j := if i <= k then i else i + 1;
    assert LinkAt(next, prev, order, head, j) && LinkAt(next, prev, order, head, k);
    assert LinkAt(next, prev, order, head, k + 1);
    Apart(order, head, j - 1, k - 1);
    Apart(order, head, j, k + 1);
  }

  /** The four assignments that put `b` behind the head. */
  lemma Push(next: seq<int>, prev: seq<int>, order: seq<int>, head: int, b: int)
    requires Linked(next, prev, order, head) && 0 <= b < head && b !in order
    ensures 0 <= next[head] <= head
    ensures Linked(next[b := next[head]][head := b], prev[b := head][next[head] := b], [b] + order, head)
  {
    assert LinkAt(next, prev, order, head, 0);
    var next', prev', order' := next[b := next[head]][head := b], prev[b := head][next[head] := b], [b] + order;
    assert forall i :: 0 <= i < |order| ==> order'[i + 1] == order[i];
    assert Nodes(order', head);
    forall i | 0 <= i <= |order'| ensures LinkAt(next', prev', order', head, i) {
      if i >= 1 {
        assert LinkAt(next, prev, order, head, i - 1);
        Apart(order, head, i - 1, 0);
        Apart(order, head, i - 2, -1);
      }
    }
  }
}
