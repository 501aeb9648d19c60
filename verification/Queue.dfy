/** queue.c and ts_queue.c: a linked FIFO queue with a sentinel node and a tail pointer. */
module Queues {
  import opened Elements

  class Queue<T(0)> {
    const meta: Elem<T>
    var head: Elem<T>
    var tail: Elem<T>
    ghost var nodes: seq<Elem<T>>
    ghost var contents: seq<T>
    ghost var Repr: set<object>

    ghost predicate Valid()
      reads this, Repr
    {
      && this in Repr && meta in Repr && (forall i | 0 <= i < |nodes| :: nodes[i] in Repr)
      && head == meta
      && Chain(meta, nodes) && Stores(nodes, contents)
      && tail == Last(meta, nodes)
      && meta.len == |nodes|
    }

    constructor ()
      ensures Valid() && fresh(Repr) && contents == []
    {
      var m := new Elem<T>.Meta();
      meta, head, tail, nodes, contents := m, m, m, [], [];
      Repr := {this, m};
    }

    method Size() returns (n: int)
      requires Valid()
      ensures n == |contents|
    {
      n := meta.len;
    }

    method Push(element: T)
      requires Valid()
      modifies Repr
      ensures Valid() && fresh(Repr - old(Repr))
      ensures contents == old(contents) + [element]
    {
      var n := new Elem<T>(element);
      tail.next := n;
      tail := tail.next;
      meta.len := meta.len + 1;
      nodes, contents := nodes + [n], contents + [element];
      Repr := Repr + {n};
    }

    /** queue_front; the queue must not be empty, as in the source. */
    method Front() returns (element: T)
      requires Valid() && contents != []
      ensures element == contents[0]
    {
      element := head.next.buffer;
    }

    /** queue_pop; the queue must not be empty, as in the source. */
    method Pop()
      requires Valid() && contents != []
      modifies Repr
      ensures Valid() && fresh(Repr - old(Repr))
      ensures contents == old(contents)[1..]
    {
      var p := head.next;
      head.next := p.next;
      meta.len := meta.len - 1;
      if meta.len == 0 {
        tail := meta;
      }
      nodes, contents := nodes[1..], contents[1..];
    }

    method Top() returns (element: T)
      requires Valid() && contents != []
      modifies Repr
      ensures Valid() && fresh(Repr - old(Repr))
      ensures element == old(contents)[0] && contents == old(contents)[1..]
    {
      element := head.next.buffer;
      Pop();
    }

    /** queue_clear: terminates with the empty queue. */
    method Clear()
      requires Valid()
      modifies Repr
      ensures Valid() && fresh(Repr - old(Repr)) && contents == []
    {
      while head.next != null
        invariant Valid() && fresh(Repr - old(Repr))
        decreases |nodes|
      {
        Pop();
      }
    }
  }

  /** ts_queue.c: each operation runs under the queue's lock, so it is one atomic step on the
      inner queue. `pushed` and `popped` record the elements in the order of those steps,
      whichever threads took them. */
  class TsQueue<T(0)> {
    const queue: Queue<T>
    ghost var contents: seq<T>
    ghost var pushed: seq<T>
    ghost var popped: seq<T>
    ghost var Repr: set<object>

    /** FIFO over every interleaving: what was popped, followed by what is queued, is what
        was pushed. */
    ghost predicate Valid()
      reads this, Repr
    {
      && this in Repr && queue in Repr && queue.Repr <= Repr && this !in queue.Repr
      && queue.Valid()
      && contents == queue.contents
      && pushed == popped + contents
    }

    constructor ()
      ensures Valid() && fresh(Repr) && contents == [] && pushed == [] && popped == []
    {
      var q := new Queue<T>();
      queue, contents, pushed, popped := q, [], [], [];
      Repr := {this} + q.Repr;
    }

    method Push(element: T)
      requires Valid()
      modifies Repr
      ensures Valid() && fresh(Repr - old(Repr))
      ensures contents == old(contents) + [element]
      ensures pushed == old(pushed) + [element] && popped == old(popped)
    {
      queue.Push(element);
      pushed := pushed + [element];
      contents := queue.contents;
      Repr := Repr + queue.Repr;
    }

    method Pop()
      requires Valid() && contents != []
      modifies Repr
      ensures Valid() && fresh(Repr - old(Repr))
      ensures contents == old(contents)[1..]
      ensures pushed == old(pushed) && popped == old(popped) + [old(contents)[0]]
    {
      queue.Pop();
      popped := popped + [old(contents)[0]];
      contents := queue.contents;
      Repr := Repr + queue.Repr;
    }

    method Top() returns (element: T)
      requires Valid() && contents != []
      modifies Repr
      ensures Valid() && fresh(Repr - old(Repr))
      ensures element == old(contents)[0] && contents == old(contents)[1..]
      ensures pushed == old(pushed) && popped == old(popped) + [element]
    {
      element := queue.Top();
      popped := popped + [element];
      contents := queue.contents;
      Repr := Repr + queue.Repr;
    }

    method Size() returns (n: int)
      requires Valid()
      ensures n == |contents|
    {
      n := queue.Size();
    }

    method Clear()
      requires Valid()
      modifies Repr
      ensures Valid() && fresh(Repr - old(Repr)) && contents == []
      ensures pushed == old(pushed) && popped == pushed
    {
      queue.Clear();
      popped := pushed;
      contents := queue.contents;
      Repr := Repr + queue.Repr;
    }
  }
}
