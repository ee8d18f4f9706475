/** The doubly linked instruction list of a basic block. */
module TacList {

  class Node<T> {
    const elem: T
    var prev: Node?<T>
    var next: Node?<T>

    constructor (x: T)
      ensures elem == x && prev == null && next == null
    {
      elem, prev, next := x, null, null;
    }
  }

  ghost predicate LinkedAt<T>(nodes: seq<Node<T>>, i: nat)
    requires i < |nodes|
    reads nodes[i]
  {
    && nodes[i].prev == (if i == 0 then null else nodes[i - 1])
    && nodes[i].next == (if i + 1 == |nodes| then null else nodes[i + 1])
  }

  class List<T> {
    var head: Node?<T>
    /** The elements from first to last. */
    ghost var nodes: seq<Node<T>>

    /** Links lead from each element to its neighbours and nowhere else. */
    ghost predicate Valid()
      reads this, nodes
    {
      && head == (if nodes == [] then null else nodes[0])
      && (forall i, j :: 0 <= i < j < |nodes| ==> nodes[i] != nodes[j])
      && forall i :: 0 <= i < |nodes| ==> LinkedAt(nodes, i)
    }

    constructor ()
      ensures Valid() && nodes == []
    {
      head, nodes := null, [];
    }

    /** insertBefore: exactly one element is added, in front of `base`. */
    method InsertBefore(insert: Node<T>, base: Node<T>, ghost k: nat)
      requires Valid() && k < |nodes| && nodes[k] == base && insert !in nodes
      modifies this, nodes, insert
      ensures Valid() && nodes == old(nodes)[..k] + [insert] + old(nodes)[k..]
    {
      assert LinkedAt(nodes, k) && (k > 0 ==> LinkedAt(nodes, k - 1));
      if base == head {
        head := insert;
      } else {
        base.prev.next := insert;
      }
      insert.prev := base.prev;
      base.prev := insert;
      insert.next := base;
      ghost var was := nodes;
      nodes := was[..k] + [insert] + was[k..];
      forall i | 0 <= i < |nodes| ensures LinkedAt(nodes, i) {
        if i != k {
          var j := if i < k then i else i - 1;
          assert nodes[i] == was[j] && old(LinkedAt(nodes, j));
        }
      }
    }

    /** insertAfter: behind `base`, or as the only element of an empty list. */
    method InsertAfter(insert: Node<T>, base: Node?<T>, ghost k: nat)
      requires Valid() && insert !in nodes && insert.prev == null
      requires if nodes == [] then k == 0 else k < |nodes| && nodes[k] == base
      modifies this, nodes, insert
      ensures Valid()
      ensures nodes == if old(nodes) == [] then [insert] else old(nodes)[..k + 1] + [insert] + old(nodes)[k + 1..]
    {
      if head == null {
        head := insert;
        insert.next := null;
        nodes := [insert];
        return;
      }
      assert LinkedAt(nodes, k) && (k + 1 < |nodes| ==> LinkedAt(nodes, k + 1));
      if base.next != null {
        base.next.prev := insert;
      }
      insert.prev := base;
      insert.next := base.next;
      base.next := insert;
      ghost var was := nodes;
      nodes := was[..k + 1] + [insert] + was[k + 1..];
      forall i | 0 <= i < |nodes| ensures LinkedAt(nodes, i) {
        if i != k + 1 {
          var j := if i <= k then i else i - 1;
          assert nodes[i] == was[j] && old(LinkedAt(nodes, j));
        }
      }
    }
  }
}
