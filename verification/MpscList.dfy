/** The linked queue as the objects it is made of, with every call taken as one step. */
module MpscList {
  import opened Common

  class Node<T> {
    var data: Option<T>
    var next: Node?<T>

    constructor (d: Option<T>)
      ensures data == d && next == null
    {
      data, next := d, null;
    }
  }

  /** nodes lists the chain from the stub at tail to the newest node at head. */
  class MpscQueue<T> {
    var head: Node<T>
    var tail: Node<T>
    ghost var nodes: seq<Node<T>>

    ghost predicate Valid()
      reads this, nodes
    {
      && nodes != [] && tail == nodes[0] && head == nodes[|nodes| - 1] && head.next == null
      && (forall i, j :: 0 <= i < j < |nodes| ==> nodes[i] != nodes[j])
      && (forall i :: 0 <= i < |nodes| - 1 ==> nodes[i].next == nodes[i + 1])
      && (forall i :: 0 < i < |nodes| ==> nodes[i].data.Some?)
    }

    /** The queued values, oldest first. */
    ghost function Contents(): (s: seq<T>)
      reads this, nodes
      requires Valid()
      ensures |s| == |nodes| - 1
    {
      seq(|nodes| - 1, i requires 0 <= i < |nodes| - 1 reads this, nodes
                         requires nodes[i + 1].data.Some? => nodes[i + 1].data.value)
    }

    constructor ()
      ensures Valid() && Contents() == [] && fresh(nodes)
    {
      var stub := new Node<T>(None);
      head, tail, nodes := stub, stub, [stub];
    }

    method Push(value: T)
      requires Valid()
      modifies this, head
      ensures Valid() && Contents() == old(Contents()) + [value]
      ensures exists n :: fresh(n) && nodes == old(nodes) + [n]
    {
      var newNode := new Node<T>(Some(value));
      var prev := head;
      head := newNode;
      prev.next := newNode;
      nodes := nodes + [newNode];
      assert old(nodes)[|old(nodes)| - 1] == prev;
    }

    method Pop() returns (ok: bool)
      requires Valid()
      modifies this
      ensures Valid() && ok == (old(Contents()) != [])
      ensures Contents() == if ok then old(Contents())[1..] else []
      ensures ok ==> nodes == old(nodes)[1..]
    {
      var next := tail.next;
      assert |nodes| > 1 ==> nodes[0].next == nodes[1];
      if next == null {
        assert tail == head;   // no push is under way between calls, so the wait is never entered
        return false;
      }
      tail := next;
      nodes := nodes[1..];
      return true;
    }

    method Front() returns (v: Option<T>)
      requires Valid()
      ensures v == if Contents() == [] then None else Some(Contents()[0])
    {
      var next := tail.next;
      if next == null { return None; }
      return next.data;
    }

    method IsEmpty() returns (b: bool)
      requires Valid()
      ensures b <==> Contents() == []
    {
      assert |nodes| > 1 ==> nodes[0].next == nodes[1];
      return tail.next == null;
    }
  }
}
