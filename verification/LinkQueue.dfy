/** The hand-written pacing list: heap nodes behind a sentinel, with a pointer to the last node. */
module LinkQueue {

  class Link {
    var task: nat
    var next: Link?

    constructor (task: nat)
      ensures this.task == task && next == null
    {
      this.task := task;
      next := null;
    }
  }

  class TaskLinks {
    var head: Link
    var tail: Link
    ghost var nodes: seq<Link>
    ghost var Repr: set<Link>

    /** `nodes` is the chain from the sentinel to the tail. */
    ghost predicate Valid()
      reads this, Repr
    {
      && (forall i :: 0 <= i < |nodes| ==> nodes[i] in Repr)
      && nodes != [] && nodes[0] == head && nodes[|nodes| - 1] == tail && tail.next == null
      && (forall i :: 0 <= i < |nodes| - 1 ==> nodes[i].next == nodes[i + 1])
      && (forall i, j :: 0 <= i < j < |nodes| ==> nodes[i] != nodes[j])
    }

    ghost function Contents(): seq<nat>
      requires Valid()
      reads this, Repr
    {
      seq(|nodes| - 1, i requires 0 <= i < |nodes| - 1 && Valid() reads this, Repr => nodes[i + 1].task)
    }

    constructor ()
      ensures Valid() && fresh(Repr) && Contents() == [] && tail == head
    {
      var sentinel := new Link(0);
      head, tail := sentinel, sentinel;
      nodes := [sentinel];
      Repr := {sentinel};
    }

    /** Appends a node behind the tail. */
    method Push(task: nat)
      requires Valid()
      modifies this, Repr
      ensures Valid() && fresh(Repr - old(Repr))
      ensures Contents() == old(Contents()) + [task]
      ensures tail != head && head == old(head)
    {
      var link := new Link(task);
      tail.next := link;
      tail := link;
      nodes := nodes + [link];
      Repr := Repr + {link};
      assert forall i :: 0 <= i < |old(nodes)| ==> nodes[i] == old(nodes)[i];
    }

    /** Unlinks the first node; the tail returns to the sentinel when the list becomes empty. */
    method Pop() returns (task: nat)
      requires Valid() && Contents() != []
      modifies this, Repr
      ensures Valid() && Repr == old(Repr)
      ensures [task] + Contents() == old(Contents())
      ensures head == old(head) && (Contents() == [] <==> tail == head)
    {
      var link := head.next;
      assert link == nodes[1];
      assert |nodes| > 2 ==> nodes[1].next == nodes[2];
      task := link.task;
      head.next := link.next;
      if link.next == null {
        tail := head;
      }
      nodes := [head] + nodes[2..];
      assert forall i :: 1 <= i < |nodes| ==> nodes[i] == old(nodes)[i + 1];
    }
  }
}
