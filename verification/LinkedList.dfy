/**
 The doubly linked list under the cache: a ring of nodes closed by a sentinel,
 as std::list keeps it. Node references stay valid until their own node is
 erased; Splice relinks a node without replacing it.
 */
module LinkedList {
  import opened CacheSpec

  class Node<V> {
    const entry: Entry<V>
    var prev: Node<V>
    var next: Node<V>

    constructor (entry: Entry<V>)
      ensures this.entry == entry
    {
      this.entry := entry;
      prev, next := this, this;
    }
  }

  /** The entries held by a sequence of nodes. */
  ghost function Entries<V>(nodes: seq<Node<V>>): (es: seq<Entry<V>>)
    ensures |es| == |nodes|
    ensures forall i :: 0 <= i < |nodes| ==> es[i] == nodes[i].entry
  {
    seq(|nodes|, i requires 0 <= i < |nodes| => nodes[i].entry)
  }

  ghost predicate Distinct<V>(nodes: seq<Node<V>>) {
    forall i, j :: 0 <= i < j < |nodes| ==> nodes[i] != nodes[j]
  }

  class List<V(0)> {
    ghost var Nodes: seq<Node<V>>
    ghost var Repr: set<object>
    const sentinel: Node<V>
    var size: nat

    /** The i-th node of the ring: the sentinel, the nodes in order, the sentinel again. */
    ghost function At(i: int): Node<V>
      requires 0 <= i <= |Nodes| + 1
      reads this
    {
      if i == 0 || i == |Nodes| + 1 then sentinel else Nodes[i - 1]
    }

    ghost predicate Valid()
      reads this, Repr
    {
      && this in Repr && sentinel in Repr && (forall i :: 0 <= i < |Nodes| ==> Nodes[i] in Repr)
      && sentinel !in Nodes
      && Distinct(Nodes)
      && size == |Nodes|
      && (forall i {:trigger At(i).next} :: 0 <= i <= |Nodes| ==> At(i).next == At(i + 1))
      && (forall i {:trigger At(i).prev} :: 1 <= i <= |Nodes| + 1 ==> At(i).prev == At(i - 1))
    }

    constructor ()
      ensures Valid() && Nodes == [] && fresh(Repr)
    {
      var blank: Entry<V> := *;
      sentinel := new Node(blank);
      Nodes, size := [], 0;
      Repr := {this, sentinel};
      new;
      sentinel.next, sentinel.prev := sentinel, sentinel;
    }

    method Begin() returns (n: Node<V>)
      requires Valid()
      ensures n == if Nodes == [] then sentinel else Nodes[0]
    {
      assert At(0).next == At(1);
      n := sentinel.next;
    }

    method Back() returns (n: Node<V>)
      requires Valid() && Nodes != []
      ensures n == Nodes[|Nodes| - 1]
    {
      assert At(|Nodes| + 1).prev == At(|Nodes|);
      n := sentinel.prev;
    }

    /** Takes node k out of the ring; every other node keeps its place in the order. */
    method Erase(n: Node<V>, ghost k: nat)
      requires Valid() && k < |Nodes| && Nodes[k] == n
      modifies Repr
      ensures Valid() && Repr == old(Repr) && Nodes == old(Nodes[..k] + Nodes[k + 1..])
    {
      assert At(k).next == n && At(k + 1) == n && At(k + 1).next == At(k + 2) && n.prev == At(k);
      n.prev.next := n.next;
      n.next.prev := n.prev;
      size := size - 1;
      Nodes := Nodes[..k] + Nodes[k + 1..];
      forall i | 0 <= i <= |Nodes| ensures At(i).next == At(i + 1) && At(i + 1).prev == At(i) {
        var j := if i < k then i else i + 1;
        assert old(At(j).next == At(j + 1) && At(j + 1).prev == At(j));
        assert At(i + 1) == old(At(j + 1)) && At(i) == old(At(if i <= k then i else i + 1));
      }
    }

    /** Links a node that is in no list at the front. */
    method LinkFront(n: Node<V>)
      requires Valid() && n !in Nodes && n != sentinel && this != n as object
      modifies Repr, n
      ensures Valid() && Repr == old(Repr) + {n} && Nodes == [n] + old(Nodes)
    {
      assert At(0).next == At(1);
      n.next := sentinel.next;
      n.prev := sentinel;
      sentinel.next.prev := n;
      sentinel.next := n;
      size := size + 1;
      Nodes := [n] + Nodes;
      Repr := Repr + {n};
      forall i | 0 <= i <= |Nodes| ensures At(i).next == At(i + 1) && At(i + 1).prev == At(i) {
        if i >= 1 {
          assert At(i + 1) == old(At(i));
          assert i >= 2 ==> old(At(i - 1).next == At(i) && At(i).prev == At(i - 1)) && At(i) == old(At(i - 1));
        }
      }
    }

    method PushFront(entry: Entry<V>) returns (n: Node<V>)
      requires Valid()
      modifies Repr
      ensures Valid() && Repr == old(Repr) + {n} && fresh(n) && n.entry == entry
      ensures Nodes == [n] + old(Nodes)
    {
      n := new Node(entry);
      LinkFront(n);
    }

    /** Moves a linked node to the front: the same node, the same entry, the others in their old order. */
    method Splice(n: Node<V>, ghost k: nat)
      requires Valid() && k < |Nodes| && Nodes[k] == n
      modifies Repr
      ensures Valid() && Repr == old(Repr) && Nodes == [n] + old(Nodes[..k] + Nodes[k + 1..])
    {
      Erase(n, k);
      LinkFront(n);
    }
  }
}
