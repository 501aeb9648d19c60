/** webgraph.c as the program keeps it: the dictionary of vertex infos, whose nodes are pointed to
    by the vertex array and by every edge. Each operation refines the one of the same name in
    WebGraph, and no pointer is ever left to a node that was freed. */
module GraphStore {
  import opened Bytes
  import opened Dicts
  import opened Lists
  import Elements
  import WebGraph

  /** vertex_info_t, in the buffer of its dictionary node. */
  class VInfo {
    const url: CString
    var vid: int
    var marked: bool

    constructor (url: CString, vid: int, marked: bool)
      ensures this.url == url && this.vid == vid && this.marked == marked
    {
      this.url, this.vid, this.marked := url, vid, marked;
    }
  }

  /** vertex_t: its info, and the infos its edges lead to. */
  datatype Cell = Cell(addr: VInfo?, edges: seq<VInfo>)

  function Urls(edges: seq<VInfo>): (r: seq<CString>)
    ensures |r| == |edges|
  {
    seq(|edges|, i requires 0 <= i < |edges| => edges[i].url)
  }

  function VertexOf(cell: Cell): WebGraph.Vertex {
    WebGraph.Vertex(if cell.addr == null then [] else cell.addr.url, Urls(cell.edges))
  }

  function VerticesOf(cells: seq<Cell>): (r: seq<WebGraph.Vertex>)
    ensures |r| == |cells|
  {
    seq(|cells|, i requires 0 <= i < |cells| => VertexOf(cells[i]))
  }

  lemma EdgeAdded(cells: seq<Cell>, vid: nat, e: VInfo)
    requires vid < |cells|
    ensures var v, cell := VerticesOf(cells)[vid], cells[vid].(edges := cells[vid].edges + [e]);
            VerticesOf(cells[vid := cell]) == VerticesOf(cells)[vid := v.(edges := v.edges + [e.url])]
  {
    assert Urls(cells[vid].edges + [e]) == Urls(cells[vid].edges) + [e.url];
  }

  ghost function InfosOf(m: map<CString, VInfo>): map<CString, WebGraph.VertexInfo>
    reads m.Values
  {
    map k | k in m :: WebGraph.VertexInfo(m[k].vid, m[k].marked)
  }

  /** The info e is the one the dictionary holds for its URL, so its node is alive. */
  ghost predicate Alive(m: map<CString, VInfo>, e: VInfo) {
    e.url in m && m[e.url] == e
  }

  ghost predicate CellOk(m: map<CString, VInfo>, cell: Cell) {
    && cell.addr != null && Alive(m, cell.addr)
    && forall e | e in cell.edges :: Alive(m, e)
  }

  /** webg_t. */
  class WebG {
    const vertex: array<Cell>
    const dict: Dict<VInfo>
    var size: nat
    ghost var Repr: set<object>

    ghost predicate Linked()
      reads this, Repr
    {
      && this in Repr && vertex in Repr && dict in Repr
      && dict.Repr <= Repr && this !in dict.Repr && vertex !in dict.Repr && dict.Valid()
      && (forall k | k in dict.contents ::
            dict.contents[k].url == k && dict.contents[k] in Repr && dict.contents[k] !in dict.Repr)
      && size <= vertex.Length
      && (forall i | 0 <= i < size :: CellOk(dict.contents, vertex[i]))
      && (forall i | size <= i < vertex.Length :: vertex[i].edges == [])
    }

    /** The graph this object stands for. */
    ghost function View(): WebGraph.Graph
      reads this, Repr
      requires Linked()
    {
      WebGraph.Graph(InfosOf(dict.contents), VerticesOf(vertex[..size]))
    }

    ghost predicate Valid()
      reads this, Repr
    {
      Linked() && WebGraph.Valid(View())
    }

    /** Every dictionary node that was linked still is, so every pointer to one stays good. */
    twostate predicate NodesStay()
      reads this, dict, dict.Repr, dict.table
    {
      && (forall k | k in old(dict.contents) :: k in dict.contents && dict.contents[k] == old(dict.contents[k]))
      && (forall b, n | b in dict.table && n in old(b.nodes) :: n in b.nodes)
    }

    /** init_webg; the hash function of the dictionary and the two sizes are parameters. */
    constructor (capacity: nat, buckets: nat, hash: Hash)
      requires buckets > 0
      ensures Valid() && fresh(Repr) && View() == WebGraph.EMPTY && vertex.Length == capacity
    {
      var d := new Dict<VInfo>(buckets, hash);
      var v := new Cell[capacity](_ => Cell(null, []));
      vertex, dict, size := v, d, 0;
      Repr := {this, v, d} + d.Repr;
    }

    method FindVertexInfo(url: CString) returns (e: VInfo?)
      requires Valid()
      ensures e == null <==> url !in View().infos
      ensures e != null ==> Alive(dict.contents, e) && e.url == url
    {
      var n := dict.Find(url);
      e := if n == null then null else n.value;
    }

    /** find_vertex: the number of the vertex, -1 for NULL. */
    method FindVertex(url: CString) returns (vid: int)
      requires Valid()
      ensures vid == WebGraph.FindVertex(View(), url)
    {
      var e := FindVertexInfo(url);
      vid := if e == null || e.vid < 0 then -1 else e.vid;
    }

    /** What an insertion of e in the dictionary leaves as it was. */
    twostate predicate Added(new e: VInfo)
      reads this, vertex, Repr, dict, dict.Repr
    {
      && this !in dict.Repr && vertex !in dict.Repr && dict.Valid() && fresh(e) && e !in dict.Repr
      && e.url !in old(dict.contents) && dict.contents == old(dict.contents)[e.url := e]
      && fresh(dict.Repr - old(dict.Repr)) && Repr == old(Repr) + dict.Repr + {e}
      && size == old(size) && vertex[..] == old(vertex[..])
      && forall o | o in old(Repr) && o !in old(dict.Repr) && o != this :: unchanged(o)
    }

    twostate lemma AddedIsLinked(new e: VInfo)
      requires old(Linked()) && Added(e)
      ensures Linked()
    {
    }

    twostate lemma AddedIsSeen(new e: VInfo)
      requires old(Linked()) && Linked() && Added(e)
      ensures View() == old(View()).(infos := old(View()).infos[e.url := WebGraph.VertexInfo(e.vid, e.marked)])
    {
    }

    /** dict_insert of an info whose URL the dictionary does not hold. */
    method AddToDict(e: VInfo)
      requires dict.Valid() && this !in dict.Repr && e.url !in dict.contents
      modifies dict.Repr
      ensures dict.Valid() && fresh(dict.Repr - old(dict.Repr)) && NodesStay()
      ensures dict.contents == old(dict.contents)[e.url := e]
    {
      dict.AbsentIsNotLinked(e.url);
      var n := dict.Insert(e.url, e);
    }

    /** A new info in the dictionary, for a URL it does not hold: nothing is removed for it. */
    method NewInfo(url: CString, vid: int, marked: bool) returns (e: VInfo)
      requires Linked() && url !in dict.contents
      modifies Repr
      ensures Linked() && fresh(Repr - old(Repr)) && fresh(e) && NodesStay()
      ensures e.url == url && dict.contents == old(dict.contents)[url := e]
      ensures View() == old(View()).(infos := old(View()).infos[url := WebGraph.VertexInfo(vid, marked)])
      ensures size == old(size) && vertex[..] == old(vertex[..])
    {
      e := new VInfo(url, vid, marked);
      AddToDict(e);
      Repr := Repr + dict.Repr + {e};
      assert Added(e);
      AddedIsLinked(e);
      AddedIsSeen(e);
    }

    /** A write through the pointer that a lookup or an insertion returned. */
    method SetInfo(e: VInfo, vid: int, marked: bool)
      requires Linked() && Alive(dict.contents, e)
      modifies e
      ensures Linked() && NodesStay() && dict.contents == old(dict.contents) && Repr == old(Repr)
      ensures View() == old(View()).(infos := old(View()).infos[e.url := WebGraph.VertexInfo(vid, marked)])
    {
      e.vid, e.marked := vid, marked;
    }

    /** The vertex after the last, for an info of the dictionary. */
    method AppendVertex(e: VInfo)
      requires Linked() && Alive(dict.contents, e) && size < vertex.Length
      modifies vertex, `size
      ensures Linked() && NodesStay() && dict.contents == old(dict.contents) && Repr == old(Repr)
      ensures View() == old(View()).(vertices := old(View()).vertices + [WebGraph.Vertex(e.url, [])])
      ensures size == old(size) + 1
    {
      vertex[size] := vertex[size].(addr := e);
      size := size + 1;
    }

    /** do_work sets `in` through the pointer find_vertex_info returned. */
    method MarkInfo(e: VInfo)
      requires Valid() && Alive(dict.contents, e)
      modifies e
      ensures Valid() && NodesStay() && Repr == old(Repr)
      ensures View() == WebGraph.Mark(old(View()), e.url)
    {
      WebGraph.MarkKeepsValid(View(), e.url);
      SetInfo(e, e.vid, true);
    }

    method InsertVertexInfo(url: CString) returns (e: VInfo)
      requires Valid()
      modifies Repr
      ensures Valid() && fresh(Repr - old(Repr)) && NodesStay()
      ensures Alive(dict.contents, e) && e.url == url
      ensures View() == WebGraph.InsertVertexInfo(old(View()), url)
      ensures size == old(size) && vertex[..] == old(vertex[..])
    {
      WebGraph.InsertInfoKeepsValid(View(), url);
      var found := FindVertexInfo(url);
      if found == null {
        e := NewInfo(url, -1, false);
      } else {
        e := found;
      }
    }

    /** insert_vertex, of a URL that is not a vertex. */
    method InsertVertex(url: CString) returns (vid: nat)
      requires Valid() && size < vertex.Length && WebGraph.FindVertex(View(), url) == -1
      modifies Repr
      ensures Valid() && fresh(Repr - old(Repr)) && NodesStay()
      ensures View() == WebGraph.InsertVertex(old(View()), url)
      ensures vid == old(size) && size == vid + 1
    {
      WebGraph.InsertVertexKeepsValid(View(), url);
      var e := FindVertexInfo(url);
      if e == null {
        e := NewInfo(url, size, true);
      } else {
        SetInfo(e, size, true);
      }
      vid := size;
      AppendVertex(e);
    }

    method AppendEdge(vid: nat, e: VInfo)
      requires Linked() && vid < size && Alive(dict.contents, e)
      modifies vertex
      ensures Linked() && NodesStay() && Repr == old(Repr) && size == old(size)
      ensures var v := old(View()).vertices[vid];
              View() == old(View()).(vertices := old(View()).vertices[vid := v.(edges := v.edges + [e.url])])
    {
      vertex[vid] := vertex[vid].(edges := vertex[vid].edges + [e]);
      assert vertex[..size] == old(vertex[..size])[vid := vertex[vid]];
      EdgeAdded(old(vertex[..size]), vid, e);
    }

    /** One turn of the loop of insert_edge: the edge is a pointer to the info of its target. */
    method AddEdge(vid: nat, target: CString)
      requires Valid() && vid < size
      modifies Repr
      ensures Valid() && fresh(Repr - old(Repr)) && NodesStay() && size == old(size)
      ensures View() == WebGraph.AddEdge(old(View()), vid, target)
    {
      WebGraph.AddEdgeKeepsValid(View(), vid, target);
      var e := InsertVertexInfo(target);
      AppendEdge(vid, e);
    }

    /** The vertex of a URL, made if there is none. */
    method VertexFor(url: CString) returns (vid: nat)
      requires Valid() && (WebGraph.FindVertex(View(), url) == -1 ==> size < vertex.Length)
      modifies Repr
      ensures Valid() && fresh(Repr - old(Repr)) && NodesStay() && vid < size
      ensures var g, v := old(View()), old(WebGraph.FindVertex(View(), url));
              if v == -1 then View() == WebGraph.InsertVertex(g, url) && vid == |g.vertices|
              else View() == g && vid == v
    {
      var found := FindVertex(url);
      if found == -1 {
        vid := InsertVertex(url);
      } else {
        vid := found;
      }
    }

    /** insert_edge refines the operation on values, and every pointer into the dictionary stays
        good: a node is only ever inserted for a URL that has none. */
    method InsertEdge(url: CString, links: List<CString>)
      requires Valid() && links.Valid() && links.Repr !! Repr
      requires WebGraph.FindVertex(View(), url) == -1 ==> size < vertex.Length
      modifies Repr
      ensures Valid() && fresh(Repr - old(Repr)) && NodesStay()
      ensures View() == WebGraph.InsertEdge(old(View()), url, old(links.contents))
    {
      var vid := VertexFor(url);
      AddEdges(vid, links);
    }

    /** The loop of insert_edge. */
    method AddEdges(vid: nat, links: List<CString>)
      requires Valid() && links.Valid() && links.Repr !! Repr && vid < size
      modifies Repr
      ensures Valid() && fresh(Repr - old(Repr)) && NodesStay()
      ensures View() == WebGraph.AddEdges(old(View()), vid, old(links.contents))
    {
      ghost var xs, g := links.contents, View();
      var iter := links.First();
      ghost var i := 0;
      while iter != null
        invariant 0 <= i <= |xs| && iter == Elements.At(links.nodes, i) && unchanged(links.Repr)
        invariant Valid() && fresh(Repr - old(Repr)) && NodesStay() && vid < size
        invariant WebGraph.AddEdges(View(), vid, xs[i..]) == WebGraph.AddEdges(g, vid, xs)
        decreases |xs| - i
      {
        assert xs[i..][0] == iter.buffer && xs[i..][1..] == xs[i + 1..];
        AddEdge(vid, iter.buffer);
        iter := iter.next;
        i := i + 1;
      }
    }
  }
}
