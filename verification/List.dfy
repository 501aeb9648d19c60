/** list.c: a linked list with a sentinel node and a tail pointer. */
module Lists {
  import opened Elements

  class List<T(0)> {
    const meta: Elem<T>
    var head: Elem<T>
    var tail: Elem<T>
    ghost var nodes: seq<Elem<T>>
    ghost var contents: seq<T>
    ghost var Repr: set<object>

    /** The chain from the sentinel is `nodes`; nothing is said about `tail` or `len`. */
    ghost predicate Linked()
      reads this, Repr
    {
      && this in Repr && meta in Repr && (forall i | 0 <= i < |nodes| :: nodes[i] in Repr)
      && this != meta as object
      && head == meta
      && Chain(meta, nodes) && Stores(nodes, contents)
    }

    ghost predicate Valid()
      reads this, Repr
    {
      && Linked()
      && tail == Last(meta, nodes)
      && meta.len == |nodes|
    }

    constructor ()
      ensures Valid() && fresh(Repr) && contents == []
    {
      var m := new Elem<T>.Meta();
      meta, head, tail, nodes, contents := m, m, m, [], [];
      Repr := {this, m};
    }

    method Size() returns (n: int)
      requires Valid()
      ensures n == |contents|
    {
      n := meta.len;
    }

    method First() returns (e: Elem?<T>)
      requires Linked()
      ensures e == At(nodes, 0)
    {
      e := head.next;
    }

    /** list_push_back appends behind `tail`. On a valid list that is the end; on a list whose
        `tail` is still the sentinel everything linked so far drops out of the chain. */
    method PushBack(element: T)
      requires Linked() && (tail == Last(meta, nodes) || tail == meta)
      modifies Repr
      ensures Linked() && fresh(Repr - old(Repr)) && tail == Last(meta, nodes)
      ensures meta.len == old(meta.len) + 1
      ensures contents == if old(tail == Last(meta, nodes)) then old(contents) + [element] else [element]
    {
      var n := new Elem<T>(element);
      ghost var kept := if tail == Last(meta, nodes) then nodes else [];
      tail.next := n;
      tail := tail.next;
      meta.len := meta.len + 1;
      contents := (if kept == old(nodes) then contents else []) + [element];
      nodes := kept + [n];
      Repr := Repr + {n};
    }

    /** list_push_front leaves `tail` alone, so it keeps the list valid exactly when the list
        was not empty. */
    method PushFront(element: T)
      requires Valid()
      modifies Repr
      ensures Linked() && fresh(Repr - old(Repr))
      ensures contents == [element] + old(contents) && meta.len == |nodes|
      ensures tail == old(tail)
      ensures Valid() <==> old(contents) != []
    {
      var n := new Elem<T>(element);
      n.next := head.next;
      head.next := n;
      meta.len := meta.len + 1;
      nodes, contents := [n] + nodes, [element] + contents;
      Repr := Repr + {n};
    }

    /** _list_index_of: the node at an index, null when the index is out of range. */
    method IndexOf(index: nat) returns (e: Elem?<T>)
      requires Valid()
      ensures e == At(nodes, index)
    {
      if index < meta.len {
        var ix := 0;
        var c := head.next;
        while c != null
          invariant 0 <= ix <= index && c == At(nodes, ix)
          decreases |nodes| - ix
        {
          if index == ix {
            return c;
          }
          c := c.next;
          ix := ix + 1;
        }
      }
      return null;
    }

    /** Take the node after p out of the chain. */
    method Unlink(p: Elem<T>, c: Elem<T>, ghost ix: nat)
      requires Linked() && ix < |nodes| && c == nodes[ix] && p == Last(meta, nodes[..ix])
      modifies p`next, meta`len, this`nodes, this`contents
      ensures Linked() && meta.len == old(meta.len) - 1
      ensures nodes == old(nodes)[..ix] + old(nodes)[ix + 1..]
      ensures contents == old(contents)[..ix] + old(contents)[ix + 1..]
    {
      ghost var was, held := nodes, contents;
      ghost var now, holds := was[..ix] + was[ix + 1..], held[..ix] + held[ix + 1..];
      Without(was, ix, now);
      TakenAt(was, ix, now);
      TakenAt(held, ix, holds);
      assert c.next == At(was, ix + 1);
      p.next := c.next;
      meta.len := meta.len - 1;
      nodes, contents := now, holds;
    }

    /** Link a node that is not in the list behind f, which is not the last one. */
    method LinkBehind(f: Elem<T>, n: Elem<T>, ghost ix: nat)
      requires Valid() && 0 < ix < |nodes| && f == nodes[ix - 1] && n !in Repr
      modifies f`next, n`next, meta`len, this`nodes, this`contents, this`Repr
      ensures Valid() && Repr == old(Repr) + {n}
      ensures contents == old(contents)[..ix] + [n.buffer] + old(contents)[ix..]
    {
      ghost var was, held := nodes, contents;
      ghost var now, holds := was[..ix] + [n] + was[ix..], held[..ix] + [n.buffer] + held[ix..];
      n.next := f.next;
      f.next := n;
      meta.len := meta.len + 1;
      ChainWith(meta, was, ix, n, now);
      StoresWith(was, held, ix, n, now, holds);
      nodes, contents := now, holds;
      Repr := Repr + {n};
    }

    /** list_erase: removes the element at the index, also when it is the last one, which
        `tail` must then leave; an index out of range changes nothing. On a list that has lost
        elements, and so counts more than it holds, an index behind its end changes nothing either. */
    method Erase(index: nat)
      requires Linked() && |nodes| <= meta.len
      modifies Repr
      ensures Linked() && fresh(Repr - old(Repr))
      ensures contents == if index < |old(contents)|
                            then old(contents)[..index] + old(contents)[index + 1..]
                            else old(contents)
      ensures meta.len - |nodes| == old(meta.len - |nodes|)
      ensures index >= |old(contents)| ==> unchanged(old(Repr))
      ensures old(Valid()) || (index == 0 && old(meta.len == |nodes| == 1)) ==> Valid()
    {
      if index < meta.len {
        var ix := 0;
        var c := head.next;
        var p := head;
        while c != null
          invariant 0 <= ix <= index && ix <= |nodes| && c == At(nodes, ix) && p == Last(meta, nodes[..ix])
          decreases |nodes| - ix
        {
          if index == ix {
            if index == meta.len - 1 {
              tail := p;
            }
            Unlink(p, c, ix);
            return;
          }
          p := c;
          c := c.next;
          ix := ix + 1;
        }
      }
    }

    /** list_insert at an index up to the length. It keeps the list valid except at index 0 of an
        empty list, since list_push_front does not move `tail`. */
    method Insert(index: nat, element: T)
      requires Valid() && index <= |contents|
      modifies Repr
      ensures Linked() && fresh(Repr - old(Repr)) && meta.len == |nodes|
      ensures Valid() <==> index > 0 || old(contents) != []
      ensures contents == old(contents)[..index] + [element] + old(contents)[index..]
    {
      if index == 0 {
        PushFront(element);
      } else if index == meta.len {
        PushBack(element);
      } else {
        var f := IndexOf(index - 1);
        var n := new Elem<T>(element);
        LinkBehind(f, n, index);
      }
    }

    /** list_clear: where the list counts what it holds the loop terminates, with the empty list,
        also when `tail` was left behind by a push to the front. */
    method Clear()
      requires Linked() && meta.len == |nodes| && (nodes == [] ==> tail == meta)
      modifies Repr
      ensures Valid() && fresh(Repr - old(Repr)) && contents == []
    {
      while meta.len != 0
        invariant Linked() && meta.len == |nodes| && (nodes == [] ==> tail == meta)
        invariant fresh(Repr - old(Repr))
        decreases meta.len
      {
        Erase(0);
      }
    }

    /** The loop of list_clear on a list that counts more than it holds: after any number of turns
        its condition still holds, so it never ends; once the chain is gone a turn changes nothing. */
    method ClearTurns(turns: nat)
      requires Linked() && |nodes| < meta.len
      modifies Repr
      ensures Linked() && fresh(Repr - old(Repr)) && meta.len != 0
      ensures meta.len - |nodes| == old(meta.len - |nodes|)
      ensures |contents| == if turns <= |old(contents)| then |old(contents)| - turns else 0
    {
      for turn := 0 to turns
        invariant Linked() && fresh(Repr - old(Repr))
        invariant meta.len - |nodes| == old(meta.len - |nodes|)
        invariant |contents| == if turn <= |old(contents)| then |old(contents)| - turn else 0
      {
        Erase(0);
      }
    }
  }

  /** Pushing to the front and then to the back of an empty list loses the first element,
      while `len` counts both. */
  method PushFrontThenBack<T(0)>(x: T, y: T) returns (l: List<T>)
    ensures l.Linked() && l.contents == [y] && l.meta.len == 2
  {
    l := new List<T>();
    l.PushFront(x);
    l.PushBack(y);
  }
}
