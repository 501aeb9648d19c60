/** The part of webgraph.c the crawl uses: the dictionary of known URLs (each with its
    vertex number and its `in` mark) and the array of crawled vertices with their edges. */
module WebGraph {
  import opened Bytes

  type Url = CString

  /** vid is -1 until the URL is crawled; `marked` is the field `in`. */
  datatype VertexInfo = VertexInfo(vid: int, marked: bool)

  datatype Vertex = Vertex(url: Url, edges: seq<Url>)

  datatype Graph = Graph(infos: map<Url, VertexInfo>, vertices: seq<Vertex>)

  const EMPTY := Graph(map[], [])

  /** find_vertex: the vertex number, or -1 where the source returns NULL. */
  function FindVertex(g: Graph, url: Url): int {
    if url in g.infos && g.infos[url].vid >= 0 then g.infos[url].vid else -1
  }

  function InsertVertexInfo(g: Graph, url: Url): Graph {
    if url in g.infos then g else g.(infos := g.infos[url := VertexInfo(-1, false)])
  }

  function InsertVertex(g: Graph, url: Url): Graph {
    Graph(g.infos[url := VertexInfo(|g.vertices|, true)], g.vertices + [Vertex(url, [])])
  }

  function AddEdge(g: Graph, vid: nat, target: Url): Graph
    requires vid < |g.vertices|
  {
    var h := InsertVertexInfo(g, target);
    var v := h.vertices[vid];
    h.(vertices := h.vertices[vid := v.(edges := v.edges + [target])])
  }

  function AddEdges(g: Graph, vid: nat, links: seq<Url>): (h: Graph)
    requires vid < |g.vertices|
    ensures |h.vertices| == |g.vertices|
    decreases |links|
  {
    if links == [] then g else AddEdges(AddEdge(g, vid, links[0]), vid, links[1..])
  }

  /** do_work sets `in` through the pointer find_vertex_info returned. */
  function Mark(g: Graph, u: Url): Graph
    requires u in g.infos
  {
    g.(infos := g.infos[u := g.infos[u].(marked := true)])
  }

  ghost predicate Valid(g: Graph) {
    && (forall k | 0 <= k < |g.vertices| ::
          g.vertices[k].url in g.infos && g.infos[g.vertices[k].url] == VertexInfo(k, true))
    && (forall u | u in g.infos :: -1 <= g.infos[u].vid < |g.vertices|)
    && (forall u | u in g.infos && g.infos[u].vid >= 0 :: g.vertices[g.infos[u].vid].url == u)
  }

  /** insert_edge. A URL that is already a vertex gets its edges appended to that vertex. */
  function InsertEdge(g: Graph, url: Url, links: seq<Url>): Graph
    requires FindVertex(g, url) < |g.vertices|
  {
    var vid := FindVertex(g, url);
    if vid == -1 then
      AddEdges(InsertVertex(g, url), |g.vertices|, links)
    else
      AddEdges(g, vid, links)
  }

  /** AddEdges makes every listed URL known without touching what was known, and appends
      the whole list to one vertex. */
  lemma {:induction false} AddEdgesEffect(g: Graph, vid: nat, links: seq<Url>)
    requires vid < |g.vertices|
    ensures var h := AddEdges(g, vid, links);
            && h.vertices == g.vertices[vid := g.vertices[vid].(edges := g.vertices[vid].edges + links)]
            && h.infos.Keys == g.infos.Keys + (set u | u in links)
            && (forall u | u in g.infos :: h.infos[u] == g.infos[u])
            && (forall u | u in h.infos && u !in g.infos :: h.infos[u] == VertexInfo(-1, false))
    decreases |links|
  {
    if links == [] {
      assert g.vertices[vid].edges + links == g.vertices[vid].edges;
    } else {
      var g1, e := AddEdge(g, vid, links[0]), g.vertices[vid].edges;
      AddEdgesEffect(g1, vid, links[1..]);
      SplitHead(links, e);
    }
  }

  lemma SplitHead(links: seq<Url>, e: seq<Url>)
    requires links != []
    ensures e + links == e + [links[0]] + links[1..]
    ensures (set u | u in links) == {links[0]} + set u | u in links[1..]
  {
  }

  /** Inserting the result of a URL that is not yet a vertex adds exactly one vertex, which
      carries exactly the listed edges; it marks that URL and no other, and makes every
      listed URL known. */
  lemma InsertEdgeOfNewVertex(g: Graph, url: Url, links: seq<Url>)
    requires Valid(g) && FindVertex(g, url) == -1
    ensures FindVertex(g, url) < |g.vertices|
    ensures var h := InsertEdge(g, url, links);
            && Valid(h)
            && h.vertices == g.vertices + [Vertex(url, links)]
            && h.infos.Keys == g.infos.Keys + {url} + (set u | u in links)
            && h.infos[url] == VertexInfo(|g.vertices|, true)
            && (forall u | u in g.infos && u != url :: h.infos[u] == g.infos[u])
            && (forall u | u in h.infos && u !in g.infos && u != url :: h.infos[u] == VertexInfo(-1, false))
  {
    var g1, n := InsertVertex(g, url), |g.vertices|;
    AddEdgesEffect(g1, n, links);
    assert g1.vertices[n].edges + links == links;
    var h := AddEdges(g1, n, links);
    assert h.vertices == g.vertices + [Vertex(url, links)];
    NewVertexKeepsValid(g, h, url, links);
  }

  /** Inserting the result of a URL that is a vertex appends the listed edges to that vertex. */
  lemma InsertEdgeOfKnownVertex(g: Graph, url: Url, links: seq<Url>)
    requires Valid(g) && url in g.infos && g.infos[url].vid >= 0
    ensures FindVertex(g, url) < |g.vertices|
    ensures var k, h := g.infos[url].vid, InsertEdge(g, url, links);
            && h.vertices == g.vertices[k := Vertex(url, g.vertices[k].edges + links)]
            && h.infos.Keys == g.infos.Keys + (set u | u in links)
            && (forall u | u in g.infos :: h.infos[u] == g.infos[u])
            && (forall u | u in h.infos && u !in g.infos :: h.infos[u] == VertexInfo(-1, false))
  {
    AddEdgesEffect(g, g.infos[url].vid, links);
  }

  lemma NewVertexKeepsValid(g: Graph, h: Graph, url: Url, links: seq<Url>)
    requires Valid(g) && FindVertex(g, url) == -1
    requires h.vertices == g.vertices + [Vertex(url, links)]
    requires url in h.infos && h.infos[url] == VertexInfo(|g.vertices|, true)
    requires forall u | u in g.infos && u != url :: u in h.infos && h.infos[u] == g.infos[u]
    requires forall u | u in h.infos && u !in g.infos && u != url :: h.infos[u] == VertexInfo(-1, false)
    ensures Valid(h)
  {
  }

  /** The parts of insert_edge keep the numbering a bijection. */
  lemma InsertVertexKeepsValid(g: Graph, url: Url)
    requires Valid(g) && FindVertex(g, url) == -1
    ensures Valid(InsertVertex(g, url)) && FindVertex(InsertVertex(g, url), url) == |g.vertices|
  {
  }

  lemma InsertInfoKeepsValid(g: Graph, url: Url)
    requires Valid(g)
    ensures Valid(InsertVertexInfo(g, url))
  {
  }

  lemma AddEdgeKeepsValid(g: Graph, vid: nat, target: Url)
    requires Valid(g) && vid < |g.vertices|
    ensures Valid(AddEdge(g, vid, target))
  {
    InsertInfoKeepsValid(g, target);
  }

  lemma MarkKeepsValid(g: Graph, url: Url)
    requires Valid(g) && url in g.infos
    ensures Valid(Mark(g, url))
  {
  }
}
