/** The circular doubly linked list with a dummy node that the task queues are built on. */
module LinkedList {

  class Node {
    var next: Node?
    var prev: Node?

    constructor ()
      ensures next == null && prev == null
    {
      next, prev := null, null;
    }
  }

  class List {
    const dummy: Node
    /** The elements from head to tail. */
    ghost var elems: seq<Node>

    constructor ()
      ensures Valid() && elems == [] && fresh(dummy)
    {
      dummy := new Node();
      elems := [];
      new;
      dummy.next, dummy.prev := dummy, dummy;
    }

    ghost predicate Linked(a: Node, b: Node)
      reads a, b
    {
      a.next == b && b.prev == a
    }

    /** Dummy node and elements form a circle, linked both ways. */
    ghost predicate Valid()
      reads this, dummy, elems
    {
      && dummy !in elems
      && (forall i, j :: 0 <= i < j < |elems| ==> elems[i] != elems[j])
      && (forall i, j :: 0 <= i < |elems| - 1 && j == i + 1 ==> Linked(elems[i], elems[j]))
      && (if elems == [] then Linked(dummy, dummy) else Linked(dummy, elems[0]) && Linked(elems[|elems| - 1], dummy))
    }

    method IsEmpty() returns (empty: bool)
      requires Valid()
      ensures empty <==> elems == []
    {
      empty := dummy == dummy.next;
    }

    /** list_add_tail */
    method AddTail(e: Node)
      requires Valid() && e != dummy && e !in elems
      modifies this, dummy, elems, e
      ensures Valid() && elems == old(elems) + [e]
    {
      var last := dummy.prev;
      e.next := dummy;
      e.prev := last;
      last.next := e;
      dummy.prev := e;
      elems := elems + [e];
    }

    /** list_add_head */
    method AddHead(e: Node)
      requires Valid() && e != dummy && e !in elems
      modifies this, dummy, elems, e
      ensures Valid() && elems == [e] + old(elems)
    {
      var first := dummy.next;
      e.prev := dummy;
      e.next := first;
      first.prev := e;
      dummy.next := e;
      elems := [e] + elems;
    }

    /** list_remove, with the position of the element as a ghost. */
    method Remove(e: Node, ghost k: nat)
      requires Valid() && k < |elems| && elems[k] == e
      modifies this, dummy, elems
      ensures Valid() && elems == old(elems)[..k] + old(elems)[k + 1..]
      ensures e.next == null && e.prev == null
    {
      assert k == 0 || Linked(elems[k - 1], elems[k]);
      assert k + 1 == |elems| || Linked(elems[k], elems[k + 1]);
      var after, before := e.next, e.prev;
      after.prev := before;
      before.next := after;
      e.prev := null;
      e.next := null;
      elems := elems[..k] + elems[k + 1..];
      forall i, j | 0 <= i < |elems| - 1 && j == i + 1 ensures Linked(elems[i], elems[j]) {
        if i + 1 != k {
          var i', j' := if i < k then i else i + 1, if j < k then j else j + 1;
          assert old(Linked(elems[i'], elems[j']));
        }
      }
    }

    /** list_remove_head */
    method RemoveHead() returns (head: Node?)
      requires Valid()
      modifies this, dummy, elems
      ensures Valid()
      ensures old(elems) == [] ==> head == null && elems == []
      ensures old(elems) != [] ==> head == old(elems)[0] && elems == old(elems)[1..]
    {
      if dummy.next != dummy {
        head := dummy.next;
        Remove(head, 0);
      } else {
        head := null;
      }
    }

    /** list_remove_tail */
    method RemoveTail() returns (tail: Node?)
      requires Valid()
      modifies this, dummy, elems
      ensures Valid()
      ensures old(elems) == [] ==> tail == null && elems == []
      ensures old(elems) != [] ==> tail == old(elems)[|old(elems)| - 1] && elems == old(elems)[..|old(elems)| - 1]
    {
      if dummy.prev != dummy {
        tail := dummy.prev;
        Remove(tail, |elems| - 1);
      } else {
        tail := null;
      }
    }
  }
}
