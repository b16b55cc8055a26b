/** The doubly linked rings, each closed by a sentinel, behind all queues of the transport. */
module EnetList {
  import opened Basics

  class Node {
    var next: Node
    var previous: Node

    /** A node outside of any list; also what clearing a list makes of its sentinel. */
    constructor ()
      ensures next == this && previous == this
    {
      next, previous := this, this;
    }
  }

  /** Each node is followed by the next one of the sequence, and preceded by the one before. */
  ghost predicate Linked(nodes: seq<Node>)
    reads nodes
  {
    forall i, j {:trigger nodes[i], nodes[j]} :: 0 <= i < j < |nodes| && j == i + 1 ==>
      nodes[i].next == nodes[j] && nodes[j].previous == nodes[i]
  }

  /** The sentinel, followed by the members of the list in their order, and back to the sentinel. */
  ghost predicate Ring(ring: seq<Node>)
    reads ring
  {
    ring != [] && Distinct(ring) && Linked(ring) && ring[|ring| - 1].next == ring[0] &&
      ring[0].previous == ring[|ring| - 1]
  }

  /** Puts a node in front of position, which is the sentinel if p is the length of the ring. */
  method Insert(position: Node, data: Node, ghost ring: seq<Node>, ghost p: nat) returns (result: Node)
    requires Ring(ring) && 0 < p <= |ring| && data !in ring && position == if p == |ring| then ring[0] else ring[p]
    modifies ring, data
    ensures result == data && Ring(ring[..p] + [data] + ring[p..])
  {
    result := data;
    assert position.previous == ring[p - 1];
    result.previous := position.previous;
    result.next := position;
    result.previous.next := result;
    position.previous := result;
    ghost var t := ring[..p] + [data] + ring[p..];
  }

  /** Takes a member out of its ring. */
  method Remove(position: Node, ghost ring: seq<Node>, ghost p: nat) returns (result: Node)
    requires Ring(ring) && 0 < p < |ring| && position == ring[p]
    modifies ring
    ensures result == position && Ring(ring[..p] + ring[p + 1..])
    ensures position.next == old(position.next) && position.previous == old(position.previous)
  {
    assert position.previous == ring[p - 1];
    assert position.next == if p + 1 < |ring| then ring[p + 1] else ring[0];
    position.previous.next := position.next;
    position.next.previous := position.previous;
    return position;
  }

  /** Closes the gap around a run of members; the run stays linked inside. */
  method CutOut(first: Node, last: Node, ghost from: seq<Node>, ghost a: nat, ghost b: nat)
    requires Ring(from) && 0 < a < b <= |from| && first == from[a] && last == from[b - 1]
    modifies from
    ensures Ring(from[..a] + from[b..]) && Linked(from[a..b])
  {
    assert first.previous == from[a - 1];
    assert last.next == if b < |from| then from[b] else from[0];
    first.previous.next := last.next;
    last.next.previous := first.previous;
  }

  /** A ring can be read from any of its nodes on. */
  lemma Rotate(ring: seq<Node>, p: nat)
    requires Ring(ring) && p <= |ring|
    ensures Ring(ring[p..] + ring[..p])
  {
  }

  /** Puts a linked run of nodes in front of position, where the ring is read from. */
  method SpliceEnd(position: Node, first: Node, last: Node, ghost ring: seq<Node>, ghost nodes: seq<Node>)
    requires Ring(ring) && position == ring[0]
    requires Linked(nodes) && Distinct(nodes) && nodes != [] && first == nodes[0] && last == nodes[|nodes| - 1]
    requires forall x :: x in nodes ==> x !in ring
    modifies ring, nodes
    ensures Ring(ring + nodes)
  {
    assert first in nodes && last in nodes && position in ring;
    first.previous := position.previous;
    last.next := position;
    first.previous.next := first;
    position.previous := last;
    assert forall i :: 0 <= i < |nodes| ==> nodes[i] in nodes;
  }

  /** Puts a linked run of nodes in front of position. */
  method Splice(position: Node, first: Node, last: Node, ghost into: seq<Node>, ghost p: nat, ghost nodes: seq<Node>)
    requires Ring(into) && 0 < p <= |into| && position == if p == |into| then into[0] else into[p]
    requires Linked(nodes) && Distinct(nodes) && nodes != [] && first == nodes[0] && last == nodes[|nodes| - 1]
    requires forall x :: x in nodes ==> x !in into
    modifies into, nodes
    ensures Ring(into[..p] + nodes + into[p..])
  {
    hide Ring, Linked, Distinct;
    ghost var ring := into[p..] + into[..p];
    Rotate(into, p);
    assert forall x :: x in ring <==> x in into by {
      assert into == into[..p] + into[p..];
    }
    SpliceEnd(position, first, last, ring, nodes);
    assert (ring + nodes)[|into| - p..] + (ring + nodes)[..|into| - p] == into[..p] + nodes + into[p..];
    Rotate(ring + nodes, |into| - p);
  }

  /** What does not touch a ring leaves it a ring. */
  twostate lemma StillRing(ring: seq<Node>)
    requires old(Ring(ring)) && unchanged(ring)
    ensures Ring(ring)
  {
  }

  lemma Apart(from: seq<Node>, a: nat, b: nat)
    requires Ring(from) && a <= b <= |from|
    ensures Distinct(from[a..b]) && forall x :: x in from[a..b] ==> x in from
    ensures forall x :: x in from[..a] + from[b..] ==> x in from && x !in from[a..b]
  {
  }

  /** Takes the members from first to last out of their ring and puts them in front of position in another one. */
  method Move(position: Node, first: Node, last: Node, ghost into: seq<Node>, ghost p: nat, ghost from: seq<Node>,
              ghost a: nat, ghost b: nat)
    returns (result: Node)
    requires Ring(into) && 0 < p <= |into| && position == if p == |into| then into[0] else into[p]
    requires Ring(from) && 0 < a < b <= |from| && first == from[a] && last == from[b - 1]
    requires forall x :: x in from ==> x !in into
    modifies into, from
    ensures result == first
    ensures Ring(into[..p] + from[a..b] + into[p..])
    ensures Ring(from[..a] + from[b..])
  {
    hide Ring, Linked, Distinct;
    ghost var nodes, rest := from[a..b], from[..a] + from[b..];
    Apart(from, a, b);
    assert forall i :: 0 <= i < |into| ==> into[i] !in from;
    assert forall i :: 0 <= i < |rest| ==> rest[i] !in into && rest[i] !in nodes;
    label whole:
    CutOut(first, last, from, a, b);
    StillRing@whole(into);
    label cut:
    Splice(position, first, last, into, p, nodes);
    StillRing@cut(rest);
    return first;
  }

  /** Counts the members by walking the ring. */
  method Size(sentinel: Node, ghost ring: seq<Node>) returns (size: nat)
    requires Ring(ring) && sentinel == ring[0]
    ensures size == |ring| - 1
  {
    size := 0;
    var position := sentinel.next;
    while position != sentinel
      invariant 0 <= size < |ring|
      invariant position == if size + 1 < |ring| then ring[size + 1] else ring[0]
      decreases |ring| - size
    {
      size := size + 1;
      position := position.next;
    }
  }
}
