/** element.h: the node of both linked containers, and what it means for a sentinel node to
    head a chain of nodes. */
module Elements {

  class Elem<T(0)> {
    var next: Elem?<T>
    var len: int
    var buffer: T

    constructor Meta()
      ensures next == null && len == 0
    {
      next, len := null, 0;
    }

    constructor (buffer: T)
      ensures next == null && this.buffer == buffer
    {
      this.buffer := buffer;
      next := null;
    }
  }

  /** Following `next` from `meta` visits exactly `nodes`, which are pairwise different. */
  ghost predicate Chain<T(0)>(meta: Elem<T>, nodes: seq<Elem<T>>)
    reads meta, nodes
  {
    && meta !in nodes
    && Distinct(nodes)
    && meta.next == At(nodes, 0)
    && (forall i {:trigger nodes[i].next} | 0 <= i < |nodes| :: nodes[i].next == At(nodes, i + 1))
  }

  ghost predicate Distinct<X>(s: seq<X>) {
    forall i, j | 0 <= i < j < |s| :: s[i] != s[j]
  }

  /** A sequence with one element taken out, or a new one put in. */
  lemma TakenAt<X>(s: seq<X>, i: nat, t: seq<X>)
    requires i < |s| && t == s[..i] + s[i + 1..]
    ensures |t| == |s| - 1
    ensures forall k | 0 <= k < |t| :: t[k] == if k < i then s[k] else s[k + 1]
  {
  }

  lemma PutAt<X>(s: seq<X>, i: nat, x: X, t: seq<X>)
    requires i <= |s| && t == s[..i] + [x] + s[i..]
    ensures |t| == |s| + 1
    ensures forall k | 0 <= k < |t| :: t[k] == if k < i then s[k] else if k == i then x else s[k - 1]
  {
  }

  /** Different elements stay different. */
  lemma Without<X>(s: seq<X>, i: nat, t: seq<X>)
    requires Distinct(s) && i < |s| && t == s[..i] + s[i + 1..]
    ensures Distinct(t)
  {
    TakenAt(s, i, t);
  }

  lemma With<X>(s: seq<X>, i: nat, x: X, t: seq<X>)
    requires Distinct(s) && i <= |s| && x !in s && t == s[..i] + [x] + s[i..]
    ensures Distinct(t)
  {
    PutAt(s, i, x, t);
  }

  ghost function At<T(0)>(nodes: seq<Elem<T>>, i: nat): Elem?<T> {
    if i < |nodes| then nodes[i] else null
  }

  /** The last node reached from `meta`: what `tail` should be. */
  ghost function Last<T(0)>(meta: Elem<T>, nodes: seq<Elem<T>>): Elem<T> {
    if nodes == [] then meta else nodes[|nodes| - 1]
  }

  /** A chain in which n has just been linked behind node ix - 1, at ix. */
  lemma ChainWith<T(0)>(meta: Elem<T>, was: seq<Elem<T>>, ix: nat, n: Elem<T>, now: seq<Elem<T>>)
    requires Distinct(was) && 0 < ix < |was| && meta !in was && n !in was && n != meta
    requires now == was[..ix] + [n] + was[ix..]
    requires meta.next == was[0] && n.next == was[ix] && was[ix - 1].next == n
    requires forall k {:trigger was[k].next} | 0 <= k < |was| && k != ix - 1 :: was[k].next == At(was, k + 1)
    ensures Chain(meta, now)
  {
    PutAt(was, ix, n, now);
    With(was, ix, n, now);
  }

  /** The chain stores these elements, in order. */
  ghost predicate Stores<T(0)>(nodes: seq<Elem<T>>, contents: seq<T>)
    reads nodes
  {
    && |contents| == |nodes|
    && forall i {:trigger nodes[i].buffer} {:trigger contents[i]} | 0 <= i < |nodes| ::
         nodes[i].buffer == contents[i]
  }

  /** The chain with n still stores its elements, in order. */
  lemma StoresWith<T(0)>(was: seq<Elem<T>>, held: seq<T>, ix: nat, n: Elem<T>, now: seq<Elem<T>>, holds: seq<T>)
    requires Stores(was, held) && ix <= |was|
    requires now == was[..ix] + [n] + was[ix..] && holds == held[..ix] + [n.buffer] + held[ix..]
    ensures Stores(now, holds)
  {
    PutAt(was, ix, n, now);
    PutAt(held, ix, n.buffer, holds);
  }
}
