/** The mailboxes of the processors: linked first-in first-out queues whose nodes are recycled. */
module Mailbox {

  class Task<M> {
    var value: M
    var next: Task?<M>

    constructor (value: M)
      ensures this.value == value && next == null
    {
      this.value, next := value, null;
    }
  }

  /** The nodes are linked from head to null, in this order. */
  ghost predicate Chain<M>(head: Task?<M>, nodes: seq<Task<M>>)
    reads nodes
  {
    && head == (if nodes == [] then null else nodes[0])
    && (forall i, j :: 0 <= i < j < |nodes| ==> nodes[i] != nodes[j])
    && (forall i, j :: 0 <= i < j < |nodes| && j == i + 1 ==> nodes[i].next == nodes[j])
    && (nodes != [] ==> nodes[|nodes| - 1].next == null)
  }

  lemma ChainRest<M>(head: Task?<M>, nodes: seq<Task<M>>)
    requires Chain(head, nodes) && nodes != []
    ensures Chain(nodes[0].next, nodes[1..]) && nodes[0] !in nodes[1..]
  {
    var rest := nodes[1..];
    forall i, j | 0 <= i < j < |rest| && j == i + 1 ensures rest[i].next == rest[j] {
      assert nodes[i + 1].next == nodes[j + 1];
    }
    if rest != [] { assert nodes[0].next == nodes[1]; }
  }

  ghost function Values<M>(nodes: seq<Task<M>>): (r: seq<M>)
    reads nodes
    ensures |r| == |nodes| && forall i :: 0 <= i < |r| ==> r[i] == nodes[i].value
  {
    seq(|nodes|, i requires 0 <= i < |nodes| reads nodes => nodes[i].value)
  }

  lemma ValuesRest<M>(nodes: seq<Task<M>>)
    requires nodes != []
    ensures Values(nodes) == [nodes[0].value] + Values(nodes[1..])
  {
  }

  /** The free nodes of one processor, a stack. */
  class FreeTasks<M> {
    var freeTask: Task?<M>
    ghost var nodes: seq<Task<M>>

    constructor ()
      ensures Valid() && nodes == []
    {
      freeTask, nodes := null, [];
    }

    ghost predicate Valid()
      reads this, nodes
    {
      Chain(freeTask, nodes)
    }

    /** A node of the stack, or a new one. */
    method Take(value: M) returns (t: Task<M>)
      requires Valid()
      modifies this, if nodes == [] then {} else {nodes[0]}
      ensures Valid() && t.value == value && t.next == null && t !in nodes
      ensures if old(nodes) == [] then nodes == [] && fresh(t) else t == old(nodes)[0] && nodes == old(nodes)[1..]
    {
      if freeTask != null {
        ChainRest(freeTask, nodes);
        t := freeTask;
        freeTask := t.next;
        nodes := nodes[1..];
        t.value, t.next := value, null;
      } else {
        t := new Task(value);
      }
    }

    method Put(t: Task<M>)
      requires Valid() && t !in nodes
      modifies this, t
      ensures Valid() && nodes == [t] + old(nodes) && t.value == old(t.value)
    {
      t.next := freeTask;
      freeTask := t;
      nodes := [t] + nodes;
    }
  }

  class Fifo<M> {
    var head: Task?<M>
    var last: Task?<M>
    ghost var nodes: seq<Task<M>>

    constructor ()
      ensures Valid() && nodes == []
    {
      head, last, nodes := null, null, [];
    }

    ghost predicate Valid()
      reads this, nodes
    {
      Chain(head, nodes) && last == if nodes == [] then null else nodes[|nodes| - 1]
    }

    method Append(t: Task<M>)
      requires Valid() && t !in nodes && t.next == null
      modifies this, if nodes == [] then {} else {nodes[|nodes| - 1]}
      ensures Valid() && nodes == old(nodes) + [t] && forall x :: x in nodes ==> x.value == old(x.value)
    {
      if last != null { last.next := t; } else { head := t; }
      last := t;
      nodes := nodes + [t];
    }

    method TakeFirst() returns (t: Task<M>)
      requires Valid() && nodes != []
      modifies this
      ensures Valid() && t == old(nodes)[0] && nodes == old(nodes)[1..] && t !in nodes
    {
      ChainRest(head, nodes);
      t := head;
      head := t.next;
      if t.next == null { last := null; }
      nodes := nodes[1..];
    }
  }

  /** The node that the first step may write: the first of the list, if there is one. */
  ghost function FirstNode<T>(s: seq<T>): set<T> { if s == [] then {} else {s[0]} }

  ghost function LastNode<T>(s: seq<T>): set<T> { if s == [] then {} else {s[|s| - 1]} }

  ghost function AllButFirst<T>(s: seq<T>): seq<T> { if s == [] then [] else s[1..] }

  ghost predicate Disjoint<T>(s: seq<T>, t: seq<T>) { forall x :: x in s ==> x !in t }

  /** Append a message to a queue, in a node of the free list or in a new one. */
  method SendTo<M>(q: Fifo<M>, free: FreeTasks<M>, value: M) returns (ghost t: Task<M>)
    requires q.Valid() && free.Valid() && Disjoint(free.nodes, q.nodes)
    modifies q, free, LastNode(q.nodes), FirstNode(free.nodes)
    ensures q.Valid() && free.Valid() && Disjoint(free.nodes, q.nodes)
    ensures Values(q.nodes) == old(Values(q.nodes)) + [value]
    ensures q.nodes == old(q.nodes) + [t] && if old(free.nodes) == [] then fresh(t) else t == old(free.nodes)[0]
    ensures free.nodes == AllButFirst(old(free.nodes))
  {
    assert free.nodes != [] ==> free.nodes[0] in free.nodes;
    assert q.nodes != [] ==> q.nodes[|q.nodes| - 1] in q.nodes;
    var node := free.Take(value);
    q.Append(node);
    t := node;
  }

  /** Take the first message of a queue; its node goes to the free list. */
  method TakeFrom<M>(q: Fifo<M>, free: FreeTasks<M>) returns (value: M)
    requires q.Valid() && free.Valid() && Disjoint(free.nodes, q.nodes) && q.nodes != []
    modifies q, free, FirstNode(q.nodes)
    ensures q.Valid() && free.Valid() && Disjoint(free.nodes, q.nodes)
    ensures [value] + Values(q.nodes) == old(Values(q.nodes))
    ensures q.nodes == old(q.nodes)[1..] && free.nodes == [old(q.nodes)[0]] + old(free.nodes)
  {
    assert q.nodes[0] in q.nodes;
    ValuesRest(q.nodes);
    var t := q.TakeFirst();
    ghost var rest := Values(q.nodes);
    value := t.value;
    free.Put(t);
    assert Values(q.nodes) == rest;
  }

  /** The mailbox of a processor: the probes are taken before the tasks. */
  class Box<M> {
    const tasks: Fifo<M>
    const probes: Fifo<M>

    constructor ()
      ensures Valid() && Tasks() == [] && Probes() == []
    {
      tasks := new Fifo<M>();
      probes := new Fifo<M>();
    }

    ghost predicate Valid()
      reads this, tasks, probes, tasks.nodes, probes.nodes
    {
      tasks != probes && tasks.Valid() && probes.Valid() && Disjoint(tasks.nodes, probes.nodes)
    }

    /** No node is both in the mailbox and in the free list. */
    ghost predicate Apart(free: FreeTasks<M>)
      reads this, tasks, probes, free
    {
      Disjoint(free.nodes, tasks.nodes) && Disjoint(free.nodes, probes.nodes)
    }

    ghost function Tasks(): seq<M>
      reads this, tasks, tasks.nodes
    {
      Values(tasks.nodes)
    }

    ghost function Probes(): seq<M>
      reads this, probes, probes.nodes
    {
      Values(probes.nodes)
    }

    /** Send: the message goes to the end of its queue. */
    method Send(free: FreeTasks<M>, value: M, isProbe: bool)
      requires Valid() && free.Valid() && Apart(free)
      modifies tasks, probes, LastNode(tasks.nodes), LastNode(probes.nodes), free, FirstNode(free.nodes)
      ensures Valid() && free.Valid() && Apart(free)
      ensures Tasks() == old(Tasks()) + (if isProbe then [] else [value])
      ensures Probes() == old(Probes()) + (if isProbe then [value] else [])
      ensures free.nodes == AllButFirst(old(free.nodes))
    {
      assert free.nodes != [] ==> free.nodes[0] in free.nodes;
      if isProbe {
        assert probes.nodes != [] ==> probes.nodes[|probes.nodes| - 1] in probes.nodes;
        ghost var t := SendTo(probes, free, value);
        assert tasks.nodes == old(tasks.nodes) && tasks.Valid() && Tasks() == old(Tasks());
      } else {
        assert tasks.nodes != [] ==> tasks.nodes[|tasks.nodes| - 1] in tasks.nodes;
        ghost var t := SendTo(tasks, free, value);
        assert probes.nodes == old(probes.nodes) && probes.Valid() && Probes() == old(Probes());
      }
    }

    /** GetBlock, when a message is there: the first probe, or else the first task. */
    method GetBlock(free: FreeTasks<M>) returns (value: M)
      requires Valid() && free.Valid() && Apart(free) && (Tasks() != [] || Probes() != [])
      modifies tasks, probes, free, FirstNode(tasks.nodes), FirstNode(probes.nodes)
      ensures Valid() && free.Valid() && Apart(free)
      ensures if old(Probes()) != [] then [value] + Probes() == old(Probes()) && Tasks() == old(Tasks())
              else [value] + Tasks() == old(Tasks()) && Probes() == []
      ensures free.nodes == [if old(Probes()) != [] then old(probes.nodes)[0] else old(tasks.nodes)[0]] + old(free.nodes)
    {
      assert tasks.nodes != [] ==> tasks.nodes[0] in tasks.nodes;
      assert probes.nodes != [] ==> probes.nodes[0] in probes.nodes;
      if probes.head != null { value := TakeFrom(probes, free); } else { value := TakeFrom(tasks, free); }
    }

    method TaskWaiting() returns (waiting: bool)
      requires Valid()
      ensures waiting <==> Tasks() != []
    {
      waiting := tasks.head != null;
    }
  }
}
