/** Circular doubly linked lists around a sentinel, as the dispatch and retransmission queues use them. */
module LinkedList {
  class Node {
    var next: Node
    var previous: Node

    /** enet_list_clear: a node on its own is an empty list. */
    constructor ()
      ensures next == this && previous == this
    {
      next, previous := this, this;
    }
  }

  function Succ(i: nat, n: nat): nat { if i + 1 == n then 0 else i + 1 }

  ghost predicate Distinct(ring: seq<Node>) { forall i, j :: 0 <= i < j < |ring| ==> ring[i] != ring[j] }

  ghost predicate Linked(ring: seq<Node>, i: nat)
    requires i < |ring|
    reads ring
  {
    ring[i].next == ring[Succ(i, |ring|)] && ring[Succ(i, |ring|)].previous == ring[i]
  }

  /** The nodes in order, the sentinel first; every link leads to the neighbour. */
  ghost predicate Ring(ring: seq<Node>)
    reads ring
  {
    ring != [] && Distinct(ring) && forall i :: 0 <= i < |ring| ==> Linked(ring, i)
  }

  /** The node at a position; the one past the last is the sentinel. */
  function At(ring: seq<Node>, k: nat): Node
    requires k <= |ring| && ring != []
  {
    if k == |ring| then ring[0] else ring[k]
  }

  lemma Neighbour(ring: seq<Node>, k: nat)
    requires Ring(ring) && 1 <= k <= |ring|
    ensures At(ring, k).previous == ring[k - 1] && ring[k - 1].next == At(ring, k)
  {
    assert Linked(ring, k - 1);
  }

  lemma Within(ring: seq<Node>, i: nat)
    requires i < |ring|
    ensures ring[i] in ring
  {
  }

  /** enet_list_insert: in front of `position`. */
  method Insert(position: Node, data: Node, ghost ring: seq<Node>, ghost k: nat) returns (result: Node)
    requires Ring(ring) && 1 <= k <= |ring| && position == At(ring, k) && data !in ring
    modifies data`next, data`previous, position`previous, position.previous`next
    ensures result == data && Ring(ring[..k] + [data] + ring[k..])
  {
    Neighbour(ring, k);
    result := data;
    result.previous := position.previous;
    result.next := position;
    result.previous.next := result;
    position.previous := result;
    ghost var after := ring[..k] + [data] + ring[k..];
    forall i | 0 <= i < |after|
      ensures Linked(after, i)
    {
      if i < k - 1 {
        assert old(Linked(ring, i));
      } else if i > k {
        assert old(Linked(ring, i - 1));
      }
    }
  }

  /** enet_list_remove; the removed node keeps its links. */
  method Remove(position: Node, ghost ring: seq<Node>, ghost k: nat) returns (data: Node)
    requires Ring(ring) && 1 <= k < |ring| && position == ring[k]
    modifies position.previous`next, position.next`previous
    ensures data == position && Ring(ring[..k] + ring[k + 1..])
  {
    Neighbour(ring, k);
    Neighbour(ring, k + 1);
    position.previous.next := position.next;
    position.next.previous := position.previous;
    data := position;
    ghost var after := ring[..k] + ring[k + 1..];
    forall i | 0 <= i < |after|
      ensures Linked(after, i)
    {
      if i < k - 1 {
        assert old(Linked(ring, i));
      } else if i >= k {
        assert old(Linked(ring, i + 1));
      }
    }
  }

  /** A stretch of nodes linked to each other; its ends may point anywhere. */
  ghost predicate Chain(seg: seq<Node>)
    reads seg
  {
    forall i :: 0 <= i < |seg| - 1 ==> seg[i].next == seg[i + 1] && seg[i + 1].previous == seg[i]
  }

  lemma SegmentChain(ring: seq<Node>, a: nat, b: nat)
    requires Ring(ring) && a <= b < |ring|
    ensures Chain(ring[a..b + 1])
  {
    var seg := ring[a..b + 1];
    forall i | 0 <= i < |seg| - 1
      ensures seg[i].next == seg[i + 1] && seg[i + 1].previous == seg[i]
    {
      assert Linked(ring, a + i);
    }
  }

  ghost predicate Apart(a: seq<Node>, b: seq<Node>) { forall i, j :: 0 <= i < |a| && 0 <= j < |b| ==> a[i] != b[j] }

  lemma CutDistinct(ring: seq<Node>, a: nat, b: nat)
    requires Distinct(ring) && 1 <= a <= b < |ring|
    ensures Distinct(ring[..a] + ring[b + 1..]) && Distinct(ring[a..b + 1])
  {
  }

  lemma SpliceDistinct(seg: seq<Node>, to: seq<Node>, k: nat)
    requires Distinct(seg) && Distinct(to) && k <= |to| && Apart(seg, to)
    ensures Distinct(to[..k] + seg + to[k..])
  {
    var all := to[..k] + seg + to[k..];
    forall i, j | 0 <= i < j < |all|
      ensures all[i] != all[j]
    {
      var n := |seg|;
      var p := if i < k then to[i] else if i < k + n then seg[i - k] else to[i - n];
      var q := if j < k then to[j] else if j < k + n then seg[j - k] else to[j - n];
      assert all[i] == p && all[j] == q;
      assert i < k || k + n <= i ==> p == to[if i < k then i else i - n];
      assert j < k || k + n <= j ==> q == to[if j < k then j else j - n];
    }
  }

  /** Cutting a stretch out of a list closes the gap. */
  method Cut(first: Node, last: Node, ghost ring: seq<Node>, ghost a: nat, ghost b: nat)
    requires Ring(ring) && 1 <= a <= b < |ring| && first == ring[a] && last == ring[b]
    modifies first.previous`next, last.next`previous
    ensures Ring(ring[..a] + ring[b + 1..]) && Chain(ring[a..b + 1])
  {
    Neighbour(ring, a);
    Neighbour(ring, b + 1);
    SegmentChain(ring, a, b);
    CutDistinct(ring, a, b);
    first.previous.next := last.next;
    last.next.previous := first.previous;
    ghost var rest := ring[..a] + ring[b + 1..];
    ghost var n := b + 1 - a;
    forall i | 0 <= i < |rest|
      ensures Linked(rest, i)
    {
      if i < a - 1 {
        assert old(Linked(ring, i));
      } else if i >= a {
        assert old(Linked(ring, i + n));
      }
    }
  }

  /** Linking a stretch in front of a position. */
  method Paste(position: Node, first: Node, last: Node, ghost seg: seq<Node>, ghost to: seq<Node>, ghost k: nat)
    requires seg != [] && Chain(seg) && Distinct(seg) && first == seg[0] && last == seg[|seg| - 1]
    requires Ring(to) && 1 <= k <= |to| && position == At(to, k) && Apart(seg, to)
    modifies first`previous, last`next, position`previous, position.previous`next
    ensures Ring(to[..k] + seg + to[k..])
  {
    Neighbour(to, k);
    SpliceDistinct(seg, to, k);
    first.previous := position.previous;
    last.next := position;
    first.previous.next := first;
    position.previous := last;
    ghost var all := to[..k] + seg + to[k..];
    ghost var n := |seg|;
    forall i | 0 <= i < |all|
      ensures Linked(all, i)
    {
      if i < k - 1 {
        assert old(Linked(to, i));
      } else if k <= i < k + n - 1 {
        assert old(seg[i - k].next == seg[i - k + 1] && seg[i - k + 1].previous == seg[i - k]);
      } else if i >= k + n {
        assert old(Linked(to, i - n));
      }
    }
  }

  /** enet_list_move: the nodes from `first` to `last` of one list go in front of a position in another. */
  method Move(position: Node, first: Node, last: Node, ghost from: seq<Node>, ghost a: nat, ghost b: nat,
        ghost to: seq<Node>, ghost k: nat)
    returns (result: Node)
    requires Ring(from) && Ring(to) && Apart(from, to)
    requires 1 <= a <= b < |from| && first == from[a] && last == from[b]
    requires 1 <= k <= |to| && position == At(to, k)
    modifies from, to
    ensures result == first
    ensures Ring(from[..a] + from[b + 1..]) && Ring(to[..k] + from[a..b + 1] + to[k..])
  {
    ghost var rest, seg := from[..a] + from[b + 1..], from[a..b + 1];
    CutDistinct(from, a, b);
    Neighbour(from, a);
    Neighbour(from, b + 1);
    Neighbour(to, k);
    assert first.previous in from && last.next in from && position in to && position.previous in to && first in from
      && last in from;
    Cut(first, last, from, a, b);
    Neighbour(to, k);
    Paste(position, first, last, seg, to, k);
    result := first;
  }

  /** enet_list_size: the sentinel is not counted. */
  method Size(sentinel: Node, ghost ring: seq<Node>) returns (size: nat)
    requires Ring(ring) && sentinel == ring[0]
    ensures size == |ring| - 1
  {
    size := 0;
    Neighbour(ring, 1);
    var position := sentinel.next;
    while position != sentinel
      invariant size < |ring| && position == At(ring, size + 1)
      decreases |ring| - size
    {
      size := size + 1;
      Neighbour(ring, size + 1);
      position := position.next;
    }
  }
}
