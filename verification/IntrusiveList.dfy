/** The intrusive circular doubly linked list that timer objects are threaded on: a ring of nodes whose first
    node is the list head. */
module IntrusiveList {

  import opened Seqs

  class Node {

    var next: Node
    var prev: Node

    constructor ()
      ensures Ring([this])
    {
      next := this;
      prev := this;
    }

    /** list_del_init: the entry leaves its ring and becomes a ring of its own. */
    method ResetList(ghost ring: seq<Node>, ghost i: nat)
      requires Ring(ring) && i < |ring| && ring[i] == this && (i == 0 ==> |ring| == 1)
      modifies ring
      ensures Ring([this])
      ensures i > 0 ==> Ring(Cut(ring, i))
    {
      Neighbours(ring, i);
      Unlink(prev, next, ring, i);
      next := this;
      prev := this;
    }

    /** list_add_tail: a node of its own joins before the head. */
    method ListAddTail(head: Node, ghost ring: seq<Node>)
      requires Ring(ring) && ring[0] == head && this !in ring
      modifies this, ring
      ensures Ring(ring + [this])
    {
      var last := head.prev;
      head.prev := this;
      next := head;
      prev := last;
      last.next := this;
    }

    /** list_move_tail to another ring. */
    method ListMoveTail(head: Node, ghost ring: seq<Node>, ghost i: nat, ghost to: seq<Node>)
      requires Ring(ring) && i < |ring| && ring[i] == this && (i == 0 ==> |ring| == 1)
      requires Ring(to) && to[0] == head
      requires forall n :: n in ring ==> n !in to
      modifies ring, to
      ensures Ring(to + [this])
      ensures i > 0 ==> Ring(Cut(ring, i))
    {
      hide Ring;
      Neighbours(ring, i);
      assert prev in ring && next in ring && this in ring;
      ghost var rest := Cut(ring, i);
      assert forall j :: 0 <= j < |rest| ==> rest[j] in ring && rest[j] != this;
      Unlink(prev, next, ring, i);
      ListAddTail(head, to);
    }

    /** list_move_tail within the node's own ring. */
    method ListMoveToEnd(head: Node, ghost ring: seq<Node>, ghost i: nat)
      requires Ring(ring) && 0 < i < |ring| && ring[i] == this && ring[0] == head
      modifies ring
      ensures Ring(Cut(ring, i) + [this])
    {
      Neighbours(ring, i);
      Unlink(prev, next, ring, i);
      ListAddTail(head, Cut(ring, i));
    }

    method FreeList(ghost ring: seq<Node>)
      requires Ring(ring) && ring[0] == this
      modifies ring
      ensures forall n :: n in ring ==> Ring([n])
    {
      ghost var left := ring;
      while next != this
        invariant Ring(left) && left[0] == this
        invariant forall j :: 0 <= j < |left| ==> left[j] in ring
        invariant forall n :: n in ring && n !in left ==> Ring([n])
        decreases |left|
      {
        Neighbours(left, 0);
        ghost var rest := Cut(left, 1);
        assert forall n :: n in ring && n !in rest ==> n !in left || n == next;
        next.ResetList(left, 1);
        left := Cut(left, 1);
      }
      Neighbours(left, 0);
    }
  }

  /** The nodes in order: each one's next is the following one, the last one's is the first, and prev inverts next. */
  ghost predicate Ring(ring: seq<Node>)
    reads ring
  {
    && |ring| >= 1 && Distinct(ring)
    && (forall i :: 0 <= i < |ring| - 1 ==> ring[i].next == ring[i + 1])
    && (forall i :: 1 <= i < |ring| ==> ring[i].prev == ring[i - 1])
    && ring[|ring| - 1].next == ring[0] && ring[0].prev == ring[|ring| - 1]
  }

  lemma Neighbours(ring: seq<Node>, i: nat)
    requires Ring(ring) && i < |ring|
    ensures Distinct(ring)
    ensures ring[i].next == ring[if i == |ring| - 1 then 0 else i + 1]
    ensures ring[i].prev == ring[if i == 0 then |ring| - 1 else i - 1]
  {
  }

  /** __list_del: the neighbours of ring[i] close over it. */
  method Unlink(prev: Node, next: Node, ghost ring: seq<Node>, ghost i: nat)
    requires Ring(ring) && i < |ring| && prev == ring[i].prev && next == ring[i].next
    requires i == 0 ==> |ring| == 1
    modifies prev, next
    ensures i > 0 ==> Ring(Cut(ring, i))
    ensures forall n :: n in ring ==> n.prev == old(n.prev) || n == next
  {
    Neighbours(ring, i);
    next.prev := prev;
    prev.next := next;
  }
}
