// The locked queue between threads (indexer/queue.c). Each method here is what happens while
// the lock is held.

module Queues {

  // A queue as a value.
  datatype Line<T> = Line(items: seq<T>, closed: bool)

  datatype Popped<T> = Got(item: T) | Nothing | Shut

  // Nothing is added to a closed queue.
  function Pushed<T>(q: Line<T>, item: T): Line<T> {
    if q.closed then q else q.(items := q.items + [item])
  }

  // One attempt to take the first item. A closed queue gives nothing unless it is forced.
  function Taken<T>(q: Line<T>, force: bool): (Popped<T>, Line<T>) {
    if q.closed && !force then (Shut, q)
    else if q.items == [] then (Nothing, q)
    else (Got(q.items[0]), q.(items := q.items[1..]))
  }

  // First in, first out: what is pushed comes out after all that was there, in order.
  ghost function Drained<T>(q: Line<T>, n: nat): (r: seq<T>)
    requires n <= |q.items|
    decreases n
  {
    if n == 0 then []
    else
      var (p, q1) := Taken(q, true);
      [p.item] + Drained(q1, n - 1)
  }

  lemma {:induction false} FirstInFirstOut<T>(q: Line<T>, n: nat)
    requires n <= |q.items|
    ensures Drained(q, n) == q.items[..n]
    decreases n
  {
    if n > 0 {
      FirstInFirstOut(Taken(q, true).1, n - 1);
    }
  }

  class QueueNode<T> {
    var next: QueueNode?<T>
    const item: T

    constructor (item: T)
      ensures next == null && this.item == item
    {
      this.next, this.item := null, item;
    }
  }

  class Queue<T> {
    var head: QueueNode?<T>
    var tail: QueueNode?<T>
    var count: nat
    var closed: bool
    ghost var nodes: seq<QueueNode<T>>

    ghost predicate Valid()
      reads this, nodes
    {
      && count == |nodes|
      && (forall i, j :: 0 <= i < j < |nodes| ==> nodes[i] != nodes[j])
      && (forall i :: 0 <= i < |nodes| - 1 ==> nodes[i].next == nodes[i + 1])
      && (nodes == [] ==> head == null && tail == null)
      && (nodes != [] ==> head == nodes[0] && tail == nodes[|nodes| - 1] && nodes[|nodes| - 1].next == null)
    }

    ghost function Items(): (r: seq<T>)
      reads this
      ensures |r| == |nodes| && forall i :: 0 <= i < |nodes| ==> r[i] == nodes[i].item
    {
      seq(|nodes|, i requires 0 <= i < |nodes| reads this => nodes[i].item)
    }

    ghost function Now(): Line<T> reads this { Line(Items(), closed) }

    // queue_init.
    constructor ()
      ensures Valid() && Now() == Line([], false)
    {
      head, tail, count, closed, nodes := null, null, 0, false, [];
    }

    // queue_push: 0 if the item was added.
    method Push(item: T) returns (ret: int)
      requires Valid()
      modifies this, nodes
      ensures Valid() && Now() == Pushed(old(Now()), item) && (ret == 0 <==> !old(closed))
      ensures fresh(set n | n in nodes && n !in old(nodes))
    {
      if closed {
        return 1;
      }
      var newNode := new QueueNode<T>(item);
      if tail != null {
        tail.next := newNode;
      } else {
        head := newNode;
      }
      tail := newNode;
      count := count + 1;
      nodes := nodes + [newNode];
      ret := 0;
    }

    // One round of queue_pop.
    method TryPop(force: bool) returns (p: Popped<T>)
      requires Valid()
      modifies this
      ensures Valid() && p == Taken(old(Now()), force).0 && Now() == Taken(old(Now()), force).1
    {
      if closed && !force {
        return Shut;
      }
      if head == null {
        return Nothing;
      }
      var oldNode := head;
      head := oldNode.next;
      p := Got(oldNode.item);
      count := count - 1;
      nodes := nodes[1..];
      if head == null {
        tail := null;
      }
    }

    // queue_count.
    method Count() returns (n: nat)
      requires Valid()
      ensures n == |Items()|
    {
      n := count;
    }

    // queue_close.
    method Close()
      requires Valid()
      modifies `closed
      ensures Valid() && Now() == old(Now()).(closed := true)
    {
      closed := true;
    }
  }
}
