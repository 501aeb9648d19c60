/** dict.c: a hash table of chained buckets. A bucket counts the insertions it has seen:
    `size` grows with every insertion and removal never lowers it. The values are of any type; for
    a struct that is changed through the pointer the table returns, that is a class of objects. */
module Dicts {
  import opened Bytes

  type Hash = CString -> int

  class Node<V> {
    var next: Node?<V>
    const key: CString
    const value: V

    constructor (key: CString, value: V)
      ensures this.key == key && this.value == value && next == null
    {
      this.key, this.value, next := key, value, null;
    }
  }

  ghost function At<V>(nodes: seq<Node<V>>, i: nat): Node?<V> {
    if i < |nodes| then nodes[i] else null
  }

  /** The chain as a finite map. */
  ghost function MapOf<V>(nodes: seq<Node<V>>): map<CString, V> {
    if nodes == [] then map[] else MapOf(nodes[1..])[nodes[0].key := nodes[0].value]
  }

  /** No two nodes of the chain have the same key; so no node stands in it twice. */
  ghost predicate DistinctKeys<V>(nodes: seq<Node<V>>) {
    forall i, j | 0 <= i < j < |nodes| :: nodes[i].key != nodes[j].key
  }

  lemma {:induction false} MapOfAt<V>(nodes: seq<Node<V>>, i: nat)
    requires DistinctKeys(nodes) && i < |nodes|
    ensures nodes[i].key in MapOf(nodes) && MapOf(nodes)[nodes[i].key] == nodes[i].value
  {
    if i > 0 {
      MapOfAt(nodes[1..], i - 1);
    }
  }

  lemma {:induction false} MapOfHas<V>(nodes: seq<Node<V>>, key: CString) returns (i: nat)
    requires key in MapOf(nodes)
    ensures i < |nodes| && nodes[i].key == key
  {
    if nodes[0].key == key {
      i := 0;
    } else {
      var j := MapOfHas(nodes[1..], key);
      i := j + 1;
    }
  }

  /** The chain without the node of one key. */
  ghost function Without<V>(nodes: seq<Node<V>>, key: CString): seq<Node<V>> {
    if nodes == [] then []
    else if nodes[0].key == key then nodes[1..]
    else [nodes[0]] + Without(nodes[1..], key)
  }

  /** bucket_t. */
  class Bucket<V> {
    var size: int
    var next: Node?<V>
    ghost var nodes: seq<Node<V>>
    ghost var removed: nat
    ghost var Repr: set<object>

    /** `size` is the chain length plus the number of nodes ever removed. */
    ghost predicate Valid()
      reads this, Repr
    {
      && this in Repr && (forall i | 0 <= i < |nodes| :: nodes[i] in Repr)
      && next == At(nodes, 0)
      && (forall i {:trigger nodes[i].next} | 0 <= i < |nodes| :: nodes[i].next == At(nodes, i + 1))
      && DistinctKeys(nodes)
      && size == |nodes| + removed
    }

    constructor ()
      ensures Valid() && fresh(Repr) && nodes == [] && size == 0
    {
      size, next, nodes, removed := 0, null, [], 0;
      Repr := {this};
    }

    /** _bucket_find. */
    method Find(key: CString) returns (r: Node?<V>)
      requires Valid()
      ensures r == null <==> key !in MapOf(nodes)
      ensures r != null ==> r in nodes && r.key == key && r.value == MapOf(nodes)[key]
    {
      var c := next;
      ghost var i := 0;
      while c != null
        invariant 0 <= i <= |nodes| && c == At(nodes, i)
        invariant forall j | 0 <= j < i :: nodes[j].key != key
        decreases |nodes| - i
      {
        if c.key == key {
          MapOfAt(nodes, i);
          return c;
        }
        c := c.next;
        i := i + 1;
      }
      if key in MapOf(nodes) {
        var j := MapOfHas(nodes, key);
      }
      return null;
    }

    /** _bucket_remove: unlinks the node of the key, if there is one; `size` stays. */
    method Remove(key: CString)
      requires Valid()
      modifies Repr
      ensures Valid() && Repr == old(Repr)
      ensures nodes == Without(old(nodes), key)
      ensures size == old(size)
    {
      var c := next;
      var p: Node?<V> := null;
      ghost var i := 0;
      while c != null
        invariant 0 <= i <= |nodes| && c == At(nodes, i) && (if i == 0 then p == null else p == nodes[i - 1])
        invariant forall j | 0 <= j < i :: nodes[j].key != key
        decreases |nodes| - i
      {
        if c.key == key {
          WithoutFound(nodes, key, i);
          Unlink(p, c, i);
          return;
        }
        p := c;
        c := c.next;
        i := i + 1;
      }
      WithoutMissing(nodes, key);
    }

    /** Takes node i of the chain, which stands behind p, out of it. */
    method Unlink(p: Node?<V>, c: Node<V>, ghost i: nat)
      requires Valid() && i < |nodes| && c == nodes[i] && (if i == 0 then p == null else p == nodes[i - 1])
      modifies this`next, this`nodes, this`removed, (if p == null then {} else {p})`next
      ensures Valid() && Repr == old(Repr) && size == old(size)
      ensures nodes == old(nodes)[..i] + old(nodes)[i + 1..]
    {
      ghost var was := nodes;
      ghost var now := was[..i] + was[i + 1..];
      Cut(was, i, now);
      assert c.next == At(was, i + 1);
      if c == next {
        next := c.next;
      } else {
        p.next := c.next;
      }
      nodes := now;
      removed := removed + 1;
    }

    /** _bucket_insert: an old node of the key is removed first; the new node goes in front. */
    method Insert(key: CString, value: V) returns (n: Node<V>)
      requires Valid()
      modifies Repr
      ensures Valid() && fresh(Repr - old(Repr))
      ensures fresh(n) && n.key == key && n.value == value
      ensures nodes == [n] + Without(old(nodes), key)
      ensures size == old(size) + 1
    {
      n := new Node<V>(key, value);
      WithoutKeys(nodes, key);
      Remove(key);
      n.next := next;
      next := n;
      size := size + 1;
      nodes := [n] + nodes;
      Repr := Repr + {n};
    }

    /** The inner loop of dict_destroy, with the nodes in the order they are freed. It also stops
        when `size` reaches 0, which never happens early. */
    method Drain() returns (freed: seq<Node<V>>)
      requires Valid()
      modifies this
      ensures next == null && freed == old(nodes) && size == old(size) - |freed|
    {
      freed := [];
      ghost var all := nodes;
      var c := next;
      while c != null && size > 0
        invariant |freed| <= |all| && freed == all[..|freed|] && c == next == At(all, |freed|)
        invariant size == old(size) - |freed|
        decreases |all| - |freed|
      {
        next := c.next;
        freed := freed + [c];
        size := size - 1;
        c := next;
      }
    }
  }

  /** A chain with one node taken out. */
  lemma Cut<V>(nodes: seq<Node<V>>, i: nat, t: seq<Node<V>>)
    requires DistinctKeys(nodes) && i < |nodes| && t == nodes[..i] + nodes[i + 1..]
    ensures DistinctKeys(t) && |t| == |nodes| - 1
    ensures forall k | 0 <= k < |t| :: t[k] == if k < i then nodes[k] else nodes[k + 1]
    ensures forall j | 0 <= j < |nodes| && j != i :: nodes[j] != nodes[i]
  {
  }

  lemma {:induction false} WithoutFound<V>(nodes: seq<Node<V>>, key: CString, i: nat)
    requires i < |nodes| && nodes[i].key == key && forall j | 0 <= j < i :: nodes[j].key != key
    ensures Without(nodes, key) == nodes[..i] + nodes[i + 1..]
  {
    if i > 0 {
      WithoutFound(nodes[1..], key, i - 1);
      assert nodes[..i] + nodes[i + 1..] == [nodes[0]] + (nodes[1..][..i - 1] + nodes[1..][i..]);
    }
  }

  lemma {:induction false} WithoutMissing<V>(nodes: seq<Node<V>>, key: CString)
    requires forall j | 0 <= j < |nodes| :: nodes[j].key != key
    ensures Without(nodes, key) == nodes
  {
    if nodes != [] {
      WithoutMissing(nodes[1..], key);
    }
  }

  lemma DistinctCons<V>(n: Node<V>, w: seq<Node<V>>)
    requires DistinctKeys(w) && forall i | 0 <= i < |w| :: w[i].key != n.key
    ensures DistinctKeys([n] + w)
  {
  }

  /** Removal takes out the node of the key and keeps every other node, in order. */
  lemma {:induction false} WithoutKeys<V>(nodes: seq<Node<V>>, key: CString)
    requires DistinctKeys(nodes)
    ensures DistinctKeys(Without(nodes, key))
    ensures var w := Without(nodes, key);
            && (forall i | 0 <= i < |w| :: w[i] in nodes && w[i].key != key)
            && (forall i | 0 <= i < |nodes| && nodes[i].key != key :: nodes[i] in w)
  {
    if nodes != [] {
      var t := nodes[1..];
      var w := Without(t, key);
      WithoutKeys(t, key);
      forall i | 0 <= i < |w|
        ensures w[i] in nodes && w[i].key != nodes[0].key
      {
        var j :| 0 <= j < |t| && t[j] == w[i];
        assert nodes[j + 1] == w[i];
      }
      forall i | 1 <= i < |nodes| && nodes[i].key != key
        ensures nodes[i] in w
      {
        assert t[i - 1] == nodes[i];
      }
      if nodes[0].key != key {
        DistinctCons(nodes[0], w);
      }
    }
  }

  lemma HeadOnce<V>(nodes: seq<Node<V>>)
    requires DistinctKeys(nodes) && nodes != []
    ensures nodes[0].key !in MapOf(nodes[1..])
  {
    if nodes[0].key in MapOf(nodes[1..]) {
      var i := MapOfHas(nodes[1..], nodes[0].key);
      assert false;
    }
  }

  /** Removal is deletion from the map. */
  lemma {:induction false} MapOfWithout<V>(nodes: seq<Node<V>>, key: CString)
    requires DistinctKeys(nodes)
    ensures MapOf(Without(nodes, key)) == MapOf(nodes) - {key}
  {
    if nodes != [] {
      if nodes[0].key == key {
        HeadOnce(nodes);
      } else {
        MapOfWithout(nodes[1..], key);
        var w := Without(nodes[1..], key);
        assert ([nodes[0]] + w)[1..] == w;
      }
    }
  }

  /** Insertion is update of the map. */
  lemma MapOfInsert<V>(nodes: seq<Node<V>>, n: Node<V>)
    requires DistinctKeys(nodes)
    ensures DistinctKeys([n] + Without(nodes, n.key))
    ensures MapOf([n] + Without(nodes, n.key)) == MapOf(nodes)[n.key := n.value]
  {
    var w := Without(nodes, n.key);
    WithoutKeys(nodes, n.key);
    DistinctCons(n, w);
    MapOfWithout(nodes, n.key);
    assert ([n] + w)[1..] == w;
  }

  /** dict_t. The table is fixed once made; the buckets change in place. */
  class Dict<V> {
    const hash: Hash
    const table: seq<Bucket<V>>
    ghost var contents: map<CString, V>
    ghost var Repr: set<object>

    /** _dict_index. */
    function Index(key: CString): (i: nat)
      requires table != []
      ensures i < |table|
    {
      hash(key) % |table|
    }

    ghost predicate Buckets()
      reads this, Repr
    {
      && table != [] && this in Repr
      && (forall i | 0 <= i < |table| ::
            table[i] in Repr && table[i].Repr <= Repr && this !in table[i].Repr && table[i].Valid())
      && (forall i, j | 0 <= i < j < |table| :: table[i].Repr !! table[j].Repr)
    }

    /** The table holds exactly `contents`, each key in the bucket of its index. */
    ghost predicate Valid()
      reads this, Repr
    {
      && Buckets()
      && (forall i | 0 <= i < |table| :: OwnKeys(contents, i, MapOf(table[i].nodes)))
    }

    /** m is the part of `all` whose index is i. */
    ghost predicate OwnKeys(all: map<CString, V>, i: nat, m: map<CString, V>)
      requires table != []
    {
      && (forall k | k in m :: Index(k) == i && k in all && all[k] == m[k])
      && (forall k | k in all && Index(k) == i :: k in m)
    }

    /** Changing the entry of one key changes the part of its own bucket in the same way and no
        other part. */
    lemma OwnKeysAdd(all: map<CString, V>, i: nat, m: map<CString, V>, key: CString, value: V)
      requires table != [] && OwnKeys(all, i, m)
      ensures OwnKeys(all[key := value], i, if i == Index(key) then m[key := value] else m)
    {
    }

    lemma OwnKeysDrop(all: map<CString, V>, i: nat, m: map<CString, V>, key: CString)
      requires table != [] && OwnKeys(all, i, m)
      ensures OwnKeys(all - {key}, i, if i == Index(key) then m - {key} else m)
    {
    }

    /** dict_init; the index is a remainder, so the size must be positive. */
    constructor (size: nat, hash: Hash)
      requires size > 0
      ensures Valid() && fresh(Repr) && contents == map[] && |table| == size && this.hash == hash
    {
      var t, all := NewTable(size);
      this.hash, table, contents := hash, t, map[];
      Repr := {this} + all;
    }

    /** dict_find is lookup. */
    method Find(key: CString) returns (r: Node?<V>)
      requires Valid()
      ensures r == null <==> key !in contents
      ensures r != null ==> r in table[Index(key)].nodes && r.key == key && r.value == contents[key]
    {
      r := table[Index(key)].Find(key);
    }

    /** A change of one bucket leaves the others as they were, and the table well linked. */
    twostate lemma OthersStay(x: nat)
      requires old(Buckets()) && x < |table| && table[x].Valid()
      requires fresh(table[x].Repr - old(table[x].Repr)) && Repr == old(Repr) + table[x].Repr
      requires forall j | 0 <= j < |table| && j != x :: unchanged(table[j]) && unchanged(table[j].Repr)
      ensures Buckets()
      ensures forall j | 0 <= j < |table| && j != x :: table[j].nodes == old(table[j].nodes)
    {
      forall j | 0 <= j < |table| && j != x
        ensures table[j].Valid() && table[j].Repr == old(table[j].Repr)
      {
        assert old(table[j].Valid());
      }
    }

    /** dict_insert is update; it returns the new node. Other buckets and the nodes of other keys
        stay as they are. */
    method Insert(key: CString, value: V) returns (n: Node<V>)
      requires Valid()
      modifies Repr
      ensures Valid() && fresh(Repr - old(Repr))
      ensures contents == old(contents)[key := value]
      ensures fresh(n) && n.key == key && n.value == value
      ensures forall i | 0 <= i < |table| ::
                table[i].nodes == if i == Index(key) then [n] + Without(old(table[i].nodes), key)
                                  else old(table[i].nodes)
    {
      var b := table[Index(key)];
      ghost var x, before, all := Index(key), b.nodes, contents;
      n := b.Insert(key, value);
      MapOfInsert(before, n);
      contents := contents[key := value];
      Repr := Repr + b.Repr;
      OthersStay(x);
      forall i | 0 <= i < |table|
        ensures OwnKeys(contents, i, MapOf(table[i].nodes))
      {
        OwnKeysAdd(all, i, MapOf(old(table[i].nodes)), key, value);
      }
    }

    /** dict_remove is deletion, whether or not the key is present. */
    method Remove(key: CString)
      requires Valid()
      modifies Repr
      ensures Valid() && Repr == old(Repr)
      ensures contents == old(contents) - {key}
      ensures forall i | 0 <= i < |table| ::
                table[i].nodes == if i == Index(key) then Without(old(table[i].nodes), key) else old(table[i].nodes)
    {
      var b := table[Index(key)];
      ghost var x, all := Index(key), contents;
      MapOfWithout(b.nodes, key);
      b.Remove(key);
      contents := contents - {key};
      OthersStay(x);
      forall i | 0 <= i < |table|
        ensures OwnKeys(contents, i, MapOf(table[i].nodes))
      {
        OwnKeysDrop(all, i, MapOf(old(table[i].nodes)), key);
      }
    }

    /** Each key lives in at most one node of the whole table, in the bucket of its index. */
    lemma OneNodePerKey(i: nat, a: nat, j: nat, b: nat)
      requires Valid() && i < |table| && a < |table[i].nodes| && j < |table| && b < |table[j].nodes|
      requires table[i].nodes[a].key == table[j].nodes[b].key
      ensures i == j == Index(table[i].nodes[a].key) && a == b
    {
      MapOfAt(table[i].nodes, a);
      MapOfAt(table[j].nodes, b);
      var key := table[i].nodes[a].key;
      assert key in MapOf(table[i].nodes) && key in MapOf(table[j].nodes);
      assert table[i].Valid();
    }

    /** A key that is present stands in the bucket of its hash modulo the size of the table. */
    lemma KeyIsAt(key: CString) returns (a: nat)
      requires Valid() && key in contents
      ensures var b := table[hash(key) % |table|];
              a < |b.nodes| && b.nodes[a].key == key && b.nodes[a].value == contents[key]
    {
      var b := table[Index(key)];
      assert key in MapOf(b.nodes) && b.Valid();
      a := MapOfHas(b.nodes, key);
      MapOfAt(b.nodes, a);
    }

    /** Inserting a key that is absent unlinks nothing. */
    lemma AbsentIsNotLinked(key: CString)
      requires Valid() && key !in contents
      ensures Without(table[Index(key)].nodes, key) == table[Index(key)].nodes
    {
      var nodes := table[Index(key)].nodes;
      forall j | 0 <= j < |nodes|
        ensures nodes[j].key != key
      {
        assert table[Index(key)].Valid();
        MapOfAt(nodes, j);
      }
      WithoutMissing(nodes, key);
    }

    /** The chains, bucket by bucket. */
    ghost function Chains(): seq<seq<Node<V>>>
      reads this, Repr
      requires Valid()
    {
      seq(|table|, i requires 0 <= i < |table| reads this, Repr requires Valid() => table[i].nodes)
    }

    /** The chains hold every node of the table, and none twice. */
    lemma ChainsHaveKeysOnce()
      requires Valid()
      ensures DistinctKeys(Flat(Chains()))
    {
      var chains: seq<seq<Node<V>>> := Chains();
      forall i: nat, j: nat, a: nat, b: nat | i < j < |chains| && a < |chains[i]| && b < |chains[j]|
        ensures chains[i][a].key != chains[j][b].key
      {
        if chains[i][a].key == chains[j][b].key {
          OneNodePerKey(i, a, j, b);
        }
      }
      forall i | 0 <= i < |chains|
        ensures DistinctKeys(chains[i])
      {
        assert table[i].Valid();
      }
      FlatHasKeysOnce(chains);
    }

    /** dict_destroy: frees every node of the table, in table order. */
    method Destroy() returns (freed: seq<Node<V>>)
      requires Valid()
      modifies Repr
      ensures freed == Flat(old(Chains()))
      ensures forall i | 0 <= i < |table| :: table[i].next == null
    {
      freed := [];
      ghost var chains := Chains();
      var i := 0;
      while i < |table|
        invariant 0 <= i <= |table| && freed == Flat(chains[..i])
        invariant forall j | 0 <= j < i :: table[j].next == null
        invariant forall j | i <= j < |table| :: unchanged(table[j]) && unchanged(table[j].Repr)
      {
        assert table[i].Valid() && table[i].nodes == chains[i];
        var one := table[i].Drain();
        freed := freed + one;
        FlatNext(chains, i);
        i := i + 1;
      }
      assert chains[..i] == chains;
    }
  }

  method NewTable<V>(size: nat) returns (table: seq<Bucket<V>>, ghost all: set<object>)
    ensures |table| == size && fresh(all)
    ensures forall i | 0 <= i < size :: table[i].Valid() && table[i].Repr <= all && table[i].nodes == []
    ensures forall i, j | 0 <= i < j < size :: table[i].Repr !! table[j].Repr
  {
    table, all := [], {};
    for i := 0 to size
      invariant |table| == i && fresh(all)
      invariant forall k | 0 <= k < i :: table[k].Valid() && table[k].Repr <= all && table[k].nodes == []
      invariant forall j, k | 0 <= j < k < i :: table[j].Repr !! table[k].Repr
    {
      var b := new Bucket<V>();
      table := table + [b];
      all := all + b.Repr;
    }
  }

  ghost function Flat<V>(chains: seq<seq<Node<V>>>): seq<Node<V>> {
    if chains == [] then [] else Flat(chains[..|chains| - 1]) + chains[|chains| - 1]
  }

  lemma FlatNext<V>(chains: seq<seq<Node<V>>>, i: nat)
    requires i < |chains|
    ensures Flat(chains[..i + 1]) == Flat(chains[..i]) + chains[i]
  {
    assert chains[..i + 1][..i] == chains[..i];
  }

  lemma {:induction false} FlatAvoids<V>(chains: seq<seq<Node<V>>>, key: CString)
    requires forall i, a | 0 <= i < |chains| && 0 <= a < |chains[i]| :: chains[i][a].key != key
    ensures forall x | 0 <= x < |Flat(chains)| :: Flat(chains)[x].key != key
  {
    if chains != [] {
      FlatAvoids(chains[..|chains| - 1], key);
    }
  }

  /** Freeing in table order frees no node twice: no two freed nodes have the same key. */
  lemma {:induction false} FlatHasKeysOnce<V>(chains: seq<seq<Node<V>>>)
    requires forall i | 0 <= i < |chains| :: DistinctKeys(chains[i])
    requires forall i, j, a, b | 0 <= i < j < |chains| && 0 <= a < |chains[i]| && 0 <= b < |chains[j]| ::
               chains[i][a].key != chains[j][b].key
    ensures DistinctKeys(Flat(chains))
  {
    if chains != [] {
      var n := |chains| - 1;
      var front, last := chains[..n], chains[n];
      FlatHasKeysOnce(front);
      var f := Flat(front);
      forall y | 0 <= y < |last|
        ensures forall x | 0 <= x < |f| :: f[x].key != last[y].key
      {
        FlatAvoids(front, last[y].key);
      }
    }
  }
}
