/** What the crawl covers: the graph holds exactly the processed results, every scheduled URL
    is reachable from the seed through the results, and every link of a processed result is
    scheduled. */
module Completeness {
  import opened WebGraph
  import opened Protocol
  import opened Sums
  import opened Accounting
  import opened JobsOnce

  // Reachability through the results.

  /** p starts at the seed, and each URL on it is listed in the result of the one before. */
  ghost predicate Path(results: map<Url, seq<Url>>, seed: Url, p: seq<Url>) {
    && p != [] && p[0] == seed
    && forall k | 0 <= k < |p| - 1 :: p[k] in results && p[k + 1] in results[p[k]]
  }

  ghost predicate Reach(results: map<Url, seq<Url>>, seed: Url, u: Url) {
    exists p :: Path(results, seed, p) && p[|p| - 1] == u
  }

  lemma ReachSeed(results: map<Url, seq<Url>>, seed: Url)
    ensures Reach(results, seed, seed)
  {
    assert Path(results, seed, [seed]);
  }

  lemma ReachLink(results: map<Url, seq<Url>>, seed: Url, u: Url, v: Url)
    requires Reach(results, seed, u) && u in results && v in results[u]
    ensures Reach(results, seed, v)
  {
    var p :| Path(results, seed, p) && p[|p| - 1] == u;
    assert Path(results, seed, p + [v]);
  }

  /** A new result breaks no path. */
  lemma ReachMore(results: map<Url, seq<Url>>, seed: Url, u: Url, links: seq<Url>, v: Url)
    requires u !in results && Reach(results, seed, v)
    ensures Reach(results[u := links], seed, v)
  {
  }

  /** A set that contains the seed and the links of every result in it contains every
      reachable URL. */
  lemma {:induction false} ClosedHasPath(results: map<Url, seq<Url>>, seed: Url, p: seq<Url>, urls: seq<Url>)
    requires Path(results, seed, p) && seed in urls
    requires forall u, v | u in results && v in results[u] :: v in urls
    ensures p[|p| - 1] in urls
  {
    if |p| > 1 {
      assert p[|p| - 2] in results;
    }
  }

  // The laws.

  /** Links of the current result that do_work has not looked at yet. */
  function Pending(p: CoordPc): seq<Url> {
    match p
    case Scan(rest) => rest
    case JobCount(rest) => rest
    case JobPost(rest) => rest
    case _ => []
  }

  /** Neither the seed job nor anything else has been processed. */
  ghost predicate Untouched(c: Config, s: State) {
    && s.graph == EMPTY
    && s.hist.scheduled == (if s.coord.SeedPush? then [] else [c.seed])
    && !Scheduling(s.coord)
  }

  /** The first result has been inserted: the `in` marks are exactly the scheduled URLs. */
  ghost predicate Underway(c: Config, s: State) {
    && s.graph.vertices != [] && !Seeding(s.coord)
    && c.seed in s.hist.scheduled
    && (forall u :: u in s.hist.scheduled <==> u in s.graph.infos && s.graph.infos[u].marked)
    && (forall v | v in Pending(s.coord) :: v in s.graph.vertices[|s.graph.vertices| - 1].edges)
  }

  /** Every vertex and every queued entry is the result of its URL. */
  ghost predicate Recorded(s: State) {
    && (forall k | 0 <= k < |s.urls| :: IsResult(s.hist, s.urls[k].url, s.urls[k].links))
    && (forall k | 0 <= k < |s.graph.vertices| ::
          && IsResult(s.hist, s.graph.vertices[k].url, s.graph.vertices[k].edges)
          && forall v | v in s.graph.vertices[k].edges :: v in s.graph.infos)
  }

  ghost predicate IsResult(h: History, u: Url, links: seq<Url>) {
    u in h.results && h.results[u] == links
  }

  ghost predicate GraphLaw(c: Config, s: State) {
    && WebGraph.Valid(s.graph)
    && |s.graph.vertices| <= c.capacity
    && (s.coord.WaitWork? || s.coord.Size? || s.coord.Pop? ==> |s.graph.vertices| < c.capacity)
    && (Untouched(c, s) || Underway(c, s))
    && Recorded(s)
  }

  ghost predicate ReachLaw(c: Config, s: State) {
    forall u | u in s.hist.scheduled :: Reach(s.hist.results, c.seed, u)
  }

  ghost predicate ClosureLaw(s: State) {
    forall k, v | 0 <= k < |s.graph.vertices| && v in s.graph.vertices[k].edges ::
      v in s.hist.scheduled || v in Pending(s.coord)
  }

  /** A crawler that may still push a result. */
  function MayPush(t: ThreadItem): int { One(t.pc.Fetching? || t.pc.PushResult?) }

  /** Once do_work has read 0, no crawl job and no result is left and none can come. */
  ghost predicate DrainLaw(c: Config, s: State) {
    && (s.hist.drained ==>
          Leaving(s.coord) && s.urls == [] && Sum(IsCrawl, s.jobs) == 0 && Sum(MayPush, s.threads) == 0)
    && (Leaving(s.coord) ==> s.hist.drained || |s.graph.vertices| >= c.capacity)
  }

  ghost predicate Covers(c: Config, s: State) {
    GraphLaw(c, s) && ReachLaw(c, s) && ClosureLaw(s) && DrainLaw(c, s)
  }

  lemma CoversInit(c: Config)
    ensures Covers(c, Init(c))
  {
  }

  /** A crawler between push and increase cannot push again. */
  lemma {:induction false} MayPushBound(ts: seq<ThreadItem>)
    ensures 0 <= Sum(MayPush, ts) && Sum(MayPush, ts) + Sum(Between, ts) <= Sum(Running, ts)
  {
    if ts != [] {
      MayPushBound(ts[1..]);
    }
  }

  // Steps of pool threads.

  /** Recording a new result keeps the laws about graph, reachability and closure. */
  lemma PushKeepsGraph(c: Config, s: State, t: State, u: Url, links: seq<Url>)
    requires GraphLaw(c, s) && ReachLaw(c, s) && ClosureLaw(s) && u !in s.hist.results
    requires t.urls == s.urls + [LinkInfo(u, links)]
    requires t.graph == s.graph && t.coord == s.coord && t.hist.scheduled == s.hist.scheduled
    requires t.hist.results == s.hist.results[u := links]
    ensures GraphLaw(c, t) && ReachLaw(c, t) && ClosureLaw(t)
  {
    forall v | v in t.hist.scheduled
      ensures Reach(t.hist.results, c.seed, v)
    {
      ReachMore(s.hist.results, c.seed, u, links, v);
    }
    forall k | 0 <= k < |t.urls|
      ensures IsResult(t.hist, t.urls[k].url, t.urls[k].links)
    {
      if k < |s.urls| {
        assert IsResult(s.hist, s.urls[k].url, s.urls[k].links);
      }
    }
  }

  /** After do_work has read 0 no thread is about to push a result. */
  lemma DrainedCannotPush(c: Config, s: State, i: nat)
    requires DrainLaw(c, s) && i < |s.threads| && s.threads[i].pc.PushResult?
    ensures !s.hist.drained
  {
    AtLeast(MayPush, s.threads, i);
  }

  lemma PushKeepsCovers(c: Config, s: State, i: nat, f: Fetch)
    requires Once(s) && Covers(c, s) && i < |s.threads| && s.threads[i].pc.PushResult?
    ensures Covers(c, CrawlerStep(c, s, i, f))
  {
    var pc := s.threads[i].pc;
    assert JobOk(s.hist, pc);
    PushKeepsGraph(c, s, CrawlerStep(c, s, i, f), pc.url, pc.links);
    DrainedCannotPush(c, s, i);
  }

  lemma ThreadKeepsCovers(c: Config, s: State, i: nat, f: Fetch)
    requires Once(s) && Covers(c, s) && Enabled(s, OfThread(i, f)) && !ThreadStep(c, s, i, f).fault
    ensures Covers(c, ThreadStep(c, s, i, f))
  {
    var t := ThreadStep(c, s, i, f);
    if s.threads[i].pc.PushResult? {
      PushKeepsCovers(c, s, i, f);
    } else {
      ThreadHasEffect(c, s, i, f);
      ThreadFrame(c, s, i, f);
      ThreadKeepsDrain(c, s, i, f);
      FrameKeepsCovers(c, s, t);
    }
  }

  lemma FrameKeepsCovers(c: Config, s: State, t: State)
    requires Covers(c, s) && DrainLaw(c, t)
    requires t.urls == s.urls && t.graph == s.graph && t.coord == s.coord
    requires t.hist.scheduled == s.hist.scheduled && t.hist.results == s.hist.results
    ensures Covers(c, t)
  {
    forall k | 0 <= k < |s.urls|
      ensures IsResult(t.hist, s.urls[k].url, s.urls[k].links)
    {
      assert IsResult(s.hist, s.urls[k].url, s.urls[k].links);
    }
  }

  lemma ThreadFrame(c: Config, s: State, i: nat, f: Fetch)
    requires Enabled(s, OfThread(i, f)) && !s.threads[i].pc.PushResult?
    ensures var t := ThreadStep(c, s, i, f);
            && t.urls == s.urls && t.graph == s.graph && t.coord == s.coord
            && t.hist.scheduled == s.hist.scheduled && t.hist.results == s.hist.results
            && t.hist.drained == s.hist.drained
  {
  }

  lemma ThreadKeepsDrain(c: Config, s: State, i: nat, f: Fetch)
    requires DrainLaw(c, s) && Enabled(s, OfThread(i, f)) && !ThreadStep(c, s, i, f).fault
    requires !s.threads[i].pc.PushResult?
    ensures DrainLaw(c, ThreadStep(c, s, i, f))
  {
    var t := ThreadStep(c, s, i, f);
    ThreadHasEffect(c, s, i, f);
    ThreadFrame(c, s, i, f);
    ThreadChange(s, t, i, MayPush);
    NonNegative(MayPush, s.threads);
    NonNegative(MayPush, t.threads);
    NonNegative(IsCrawl, s.jobs);
    NonNegative(IsCrawl, t.jobs);
    AtLeast(MayPush, s.threads, i);
    if s.threads[i].pc.TakeJob? {
      AtLeast(IsCrawl, s.jobs, 0);
    }
  }

  // Steps of the coordinator.

  /** A result in the queue has no vertex yet, so inserting it always makes a new one. */
  lemma QueuedIsNew(c: Config, s: State)
    requires Once(s) && GraphLaw(c, s) && s.urls != []
    ensures FindVertex(s.graph, s.urls[0].url) == -1
  {
    var u := s.urls[0].url;
    assert UrlOk(s, u);
    Counts(s, u);
    AtLeast(ResultOf(u), s.urls, 0);
    var vid := FindVertex(s.graph, u);
    if vid != -1 {
      AtLeast(VertexOf(u), s.graph.vertices, vid);
    }
  }

  lemma QueuedIsScheduled(s: State)
    requires Once(s) && s.urls != []
    ensures s.urls[0].url in s.hist.scheduled
  {
    var u := s.urls[0].url;
    assert UrlOk(s, u);
    Counts(s, u);
    AtLeast(ResultOf(u), s.urls, 0);
  }

  /** Popping a result never faults: it inserts one new vertex, with the listed edges. */
  lemma PopInserts(c: Config, s: State)
    requires Once(s) && GraphLaw(c, s) && s.coord.Pop? && s.urls != []
    ensures var t, info := WaitStep(c, s), s.urls[0];
            && t == s.(urls := s.urls[1..], graph := t.graph, coord := Scan(info.links))
            && WebGraph.Valid(t.graph)
            && t.graph.vertices == s.graph.vertices + [Vertex(info.url, info.links)]
            && t.graph.infos.Keys == s.graph.infos.Keys + {info.url} + (set u | u in info.links)
            && t.graph.infos[info.url].marked
            && (forall u | u in s.graph.infos && u != info.url :: t.graph.infos[u] == s.graph.infos[u])
            && (forall u | u in t.graph.infos && u !in s.graph.infos && u != info.url :: !t.graph.infos[u].marked)
  {
    QueuedIsNew(c, s);
    PopStep(c, s);
    InsertEdgeOfNewVertex(s.graph, s.urls[0].url, s.urls[0].links);
  }

  lemma PopStep(c: Config, s: State)
    requires s.coord.Pop? && s.urls != [] && |s.graph.vertices| < c.capacity
    requires FindVertex(s.graph, s.urls[0].url) == -1
    ensures var info := s.urls[0];
            WaitStep(c, s) == s.(urls := s.urls[1..], graph := InsertEdge(s.graph, info.url, info.links),
                                 coord := Scan(info.links))
  {
  }

  lemma PopKeepsCovers(c: Config, s: State)
    requires Once(s) && Covers(c, s) && s.coord.Pop? && s.urls != []
    ensures Once(WaitStep(c, s)) && Covers(c, WaitStep(c, s))
  {
    var info, t := s.urls[0], WaitStep(c, s);
    PopInserts(c, s);
    QueuedIsScheduled(s);
    PopKeepsOnce(s, t, Vertex(info.url, info.links));
    PopKeepsGraph(c, s, t, info);
    PopKeepsClosure(s, t, info);
  }

  lemma PopKeepsClosure(s: State, t: State, info: LinkInfo)
    requires ClosureLaw(s) && s.coord.Pop? && t.hist == s.hist && t.coord == Scan(info.links)
    requires t.graph.vertices == s.graph.vertices + [Vertex(info.url, info.links)]
    ensures ClosureLaw(t)
  {
  }

  lemma PopKeepsGraph(c: Config, s: State, t: State, info: LinkInfo)
    requires GraphLaw(c, s) && s.coord.Pop? && s.urls != [] && info == s.urls[0] && info.url in s.hist.scheduled
    requires t.hist == s.hist && t.urls == s.urls[1..] && t.coord == Scan(info.links)
    requires WebGraph.Valid(t.graph)
    requires t.graph.vertices == s.graph.vertices + [Vertex(info.url, info.links)]
    requires t.graph.infos.Keys == s.graph.infos.Keys + {info.url} + (set u | u in info.links)
    requires t.graph.infos[info.url].marked
    requires forall u | u in s.graph.infos && u != info.url :: t.graph.infos[u] == s.graph.infos[u]
    requires forall u | u in t.graph.infos && u !in s.graph.infos && u != info.url :: !t.graph.infos[u].marked
    ensures GraphLaw(c, t)
  {
    PopKeepsRecorded(s, t, info);
    assert Underway(c, t);
  }

  lemma PopKeepsRecorded(s: State, t: State, info: LinkInfo)
    requires Recorded(s) && s.urls != [] && info == s.urls[0]
    requires t.hist == s.hist && t.urls == s.urls[1..]
    requires t.graph.vertices == s.graph.vertices + [Vertex(info.url, info.links)]
    requires t.graph.infos.Keys == s.graph.infos.Keys + {info.url} + (set u | u in info.links)
    ensures Recorded(t)
  {
    assert IsResult(s.hist, s.urls[0].url, s.urls[0].links);
    forall k | 0 <= k < |t.urls|
      ensures IsResult(t.hist, t.urls[k].url, t.urls[k].links)
    {
      assert IsResult(s.hist, s.urls[k + 1].url, s.urls[k + 1].links);
    }
  }

  /** Scheduling the next link: it was not scheduled before, and its job makes it so. */
  lemma JobKeepsCovers(c: Config, s: State)
    requires Once(s) && Covers(c, s) && s.coord.Scan? && s.coord.rest != []
    requires s.coord.rest[0] in s.graph.infos && !s.graph.infos[s.coord.rest[0]].marked
    ensures Once(ScheduleStep(s)) && Covers(c, ScheduleStep(s))
  {
    var u, t := s.coord.rest[0], ScheduleStep(s);
    ScheduleKeepsOnce(s, t, u);
    JobKeepsGraph(c, s, t, u);
    JobKeepsReach(c, s, t, u);
  }

  lemma JobKeepsGraph(c: Config, s: State, t: State, u: Url)
    requires GraphLaw(c, s) && ClosureLaw(s) && s.coord.Scan? && s.coord.rest != [] && u == s.coord.rest[0]
    requires u in s.graph.infos && t.graph == Mark(s.graph, u)
    requires t.urls == s.urls && t.coord == JobCount(s.coord.rest[1..])
    requires t.hist.scheduled == s.hist.scheduled + [u] && t.hist.results == s.hist.results
    ensures GraphLaw(c, t) && ClosureLaw(t)
  {
    assert s.coord.rest == [u] + s.coord.rest[1..];
    assert Underway(c, s);
    forall v | v in Pending(t.coord)
      ensures v in s.graph.vertices[|s.graph.vertices| - 1].edges
    {
      assert v in Pending(s.coord);
    }
    assert Underway(c, t);
    assert WebGraph.Valid(t.graph);
    assert Recorded(t) by {
      forall k | 0 <= k < |s.urls| ensures IsResult(t.hist, t.urls[k].url, t.urls[k].links) {
        assert IsResult(s.hist, s.urls[k].url, s.urls[k].links);
      }
      forall k | 0 <= k < |s.graph.vertices|
        ensures IsResult(t.hist, s.graph.vertices[k].url, s.graph.vertices[k].edges)
      {
        assert IsResult(s.hist, s.graph.vertices[k].url, s.graph.vertices[k].edges);
      }
    }
  }

  lemma JobKeepsReach(c: Config, s: State, t: State, u: Url)
    requires GraphLaw(c, s) && ReachLaw(c, s) && s.coord.Scan? && s.coord.rest != [] && u == s.coord.rest[0]
    requires Once(s)
    requires t.hist.scheduled == s.hist.scheduled + [u] && t.hist.results == s.hist.results
    ensures ReachLaw(c, t)
  {
    var n := |s.graph.vertices| - 1;
    var w := s.graph.vertices[n];
    assert IsResult(s.hist, w.url, w.edges);
    assert UrlOk(s, w.url);
    assert Underway(c, s) && u in Pending(s.coord);
    ReachLink(s.hist.results, c.seed, w.url, u);
  }

  /** Reading a count of 0 means that nothing is left to crawl or to process. */
  lemma ZeroMeansDrained(s: State)
    requires LockLaw(s) && s.coord == Test && s.lock == 0
    ensures Sum(IsCrawl, s.jobs) == 0 && s.urls == [] && Sum(MayPush, s.threads) == 0
  {
    MayPushBound(s.threads);
    NonNegative(IsCrawl, s.jobs);
  }

  /** Steps that touch neither graph, results nor schedule, and only drop looked-at links. */
  lemma FrameKeepsGraph(c: Config, s: State, t: State)
    requires GraphLaw(c, s) && ReachLaw(c, s) && ClosureLaw(s)
    requires t.graph == s.graph && t.urls == s.urls
    requires t.hist.scheduled == s.hist.scheduled && t.hist.results == s.hist.results
    requires Seeding(t.coord) ==> Seeding(s.coord)
    requires Scheduling(t.coord) ==> Scheduling(s.coord)
    requires !s.coord.SeedPush? && !t.coord.SeedPush?
    requires t.coord.WaitWork? || t.coord.Size? || t.coord.Pop? ==> |t.graph.vertices| < c.capacity
    requires forall v | v in Pending(t.coord) :: v in Pending(s.coord)
    requires forall v | v in Pending(s.coord) && v !in Pending(t.coord) :: v in s.hist.scheduled
    ensures GraphLaw(c, t) && ReachLaw(c, t) && ClosureLaw(t)
  {
    forall k | 0 <= k < |s.urls|
      ensures IsResult(t.hist, s.urls[k].url, s.urls[k].links)
    {
      assert IsResult(s.hist, s.urls[k].url, s.urls[k].links);
    }
    forall k | 0 <= k < |s.graph.vertices|
      ensures IsResult(t.hist, s.graph.vertices[k].url, s.graph.vertices[k].edges)
    {
      assert IsResult(s.hist, s.graph.vertices[k].url, s.graph.vertices[k].edges);
    }
  }

  /** Steps of the coordinator that touch nothing that follows URLs, nor the links to look at. */
  ghost predicate Quiet(c: Config, s: State, t: State) {
    && t.threads == s.threads && t.urls == s.urls && t.graph == s.graph
    && (t.jobs == s.jobs || t.jobs == s.jobs + [DoExit])
    && t.hist.scheduled == s.hist.scheduled && t.hist.results == s.hist.results && t.hist.log == s.hist.log
    && Pending(t.coord) == Pending(s.coord)
    && !s.coord.SeedPush? && !t.coord.SeedPush?
    && (Seeding(t.coord) ==> Seeding(s.coord)) && (Scheduling(t.coord) ==> Scheduling(s.coord))
    && (t.coord.WaitWork? || t.coord.Size? || t.coord.Pop? ==>
          s.coord.WaitWork? || s.coord.Size? || |s.graph.vertices| < c.capacity)
  }

  lemma QuietKeepsCovers(c: Config, s: State, t: State)
    requires Once(s) && Covers(c, s) && Quiet(c, s, t) && DrainLaw(c, t)
    ensures Once(t) && Covers(c, t)
  {
    OtherKeepsOnce(s, t);
    FrameKeepsGraph(c, s, t);
  }

  lemma SeedIsQuiet(c: Config, s: State)
    requires Seeding(s.coord) && !s.coord.SeedPush?
    ensures var t := SeedStep(c, s);
            Quiet(c, s, t) && !Leaving(t.coord) && t.hist.drained == s.hist.drained
  {
  }

  lemma FirstJobKeepsCovers(c: Config, s: State, t: State)
    requires Covers(c, s) && s.coord.SeedPush? && t.coord.SeedCount?
    requires t.graph == s.graph && t.urls == s.urls && t.hist.drained == s.hist.drained
    requires t.hist.scheduled == s.hist.scheduled + [c.seed] && t.hist.results == s.hist.results
    ensures Covers(c, t)
  {
    assert Untouched(c, s);
    ReachSeed(s.hist.results, c.seed);
    forall k | 0 <= k < |s.urls|
      ensures IsResult(t.hist, s.urls[k].url, s.urls[k].links)
    {
      assert IsResult(s.hist, s.urls[k].url, s.urls[k].links);
    }
  }

  lemma SeedKeepsCovers(c: Config, s: State)
    requires Once(s) && Covers(c, s) && Seeding(s.coord)
    ensures Once(SeedStep(c, s)) && Covers(c, SeedStep(c, s))
  {
    var t := SeedStep(c, s);
    if s.coord.SeedPush? {
      ScheduleKeepsOnce(s, t, c.seed);
      FirstJobKeepsCovers(c, s, t);
    } else {
      SeedIsQuiet(c, s);
      QuietKeepsCovers(c, s, t);
    }
  }

  /** Every link do_work looks at is known to the graph. */
  lemma NextLinkIsKnown(c: Config, s: State)
    requires GraphLaw(c, s) && s.coord.Scan? && s.coord.rest != []
    ensures s.coord.rest[0] in s.graph.infos
    ensures s.graph.infos[s.coord.rest[0]].marked <==> s.coord.rest[0] in s.hist.scheduled
  {
    assert Underway(c, s) && s.coord.rest[0] in Pending(s.coord);
    assert s.coord.rest[0] in s.graph.vertices[|s.graph.vertices| - 1].edges;
  }

  /** The scheduling steps that push no job. */
  ghost predicate Skips(s: State) {
    && Scheduling(s.coord)
    && (s.coord.Scan? && s.coord.rest != [] ==>
          s.coord.rest[0] in s.graph.infos && s.graph.infos[s.coord.rest[0]].marked)
  }

  lemma SkipFrame(c: Config, s: State)
    requires Skips(s)
    ensures var t := ScheduleStep(s);
            && t.threads == s.threads && t.urls == s.urls && t.graph == s.graph && t.jobs == s.jobs
            && t.hist == s.hist && !Seeding(t.coord) && !Leaving(t.coord)
            && !t.coord.WaitWork? && !t.coord.Size? && !t.coord.Pop? && t.fault == s.fault
            && Pending(t.coord) == if s.coord.Scan? && s.coord.rest != [] then s.coord.rest[1..] else Pending(s.coord)
  {
  }

  lemma SkipKeepsCovers(c: Config, s: State)
    requires Once(s) && Covers(c, s) && Skips(s)
    ensures Once(ScheduleStep(s)) && Covers(c, ScheduleStep(s))
  {
    var t := ScheduleStep(s);
    SkipFrame(c, s);
    if s.coord.Scan? && s.coord.rest != [] {
      NextLinkIsKnown(c, s);
      assert s.coord.rest == [s.coord.rest[0]] + s.coord.rest[1..];
    }
    OtherKeepsOnce(s, t);
    SkipKeepsGraph(c, s, t);
  }

  lemma SkipKeepsGraph(c: Config, s: State, t: State)
    requires GraphLaw(c, s) && ReachLaw(c, s) && ClosureLaw(s) && Skips(s)
    requires t.urls == s.urls && t.graph == s.graph && t.hist == s.hist
    requires !Seeding(t.coord) && !t.coord.WaitWork? && !t.coord.Size? && !t.coord.Pop?
    requires Pending(t.coord) == if s.coord.Scan? && s.coord.rest != [] then s.coord.rest[1..] else Pending(s.coord)
    ensures GraphLaw(c, t) && ReachLaw(c, t) && ClosureLaw(t)
  {
    if s.coord.Scan? && s.coord.rest != [] {
      NextLinkIsKnown(c, s);
      assert s.coord.rest == [s.coord.rest[0]] + s.coord.rest[1..];
    }
    FrameKeepsGraph(c, s, t);
  }

  lemma ScheduleKeepsCovers(c: Config, s: State)
    requires Once(s) && Covers(c, s) && Scheduling(s.coord)
    ensures !s.fault ==> !ScheduleStep(s).fault
    ensures Once(ScheduleStep(s)) && Covers(c, ScheduleStep(s))
  {
    if s.coord.Scan? && s.coord.rest != [] {
      NextLinkIsKnown(c, s);
    }
    if s.coord.Scan? && s.coord.rest != [] && !s.graph.infos[s.coord.rest[0]].marked {
      JobKeepsCovers(c, s);
    } else {
      SkipKeepsCovers(c, s);
    }
  }

  lemma ShutdownIsQuiet(c: Config, s: State)
    requires Leaving(s.coord)
    ensures var t := ShutdownStep(c, s);
            Quiet(c, s, t) && Leaving(t.coord) && t.hist.drained == s.hist.drained
  {
  }

  lemma LeavingKeepsDrain(c: Config, s: State, t: State)
    requires DrainLaw(c, s) && Quiet(c, s, t)
    requires Leaving(s.coord) && Leaving(t.coord) && t.hist.drained == s.hist.drained
    ensures DrainLaw(c, t)
  {
    Push(s.jobs, DoExit);
  }

  lemma ShutdownKeepsCovers(c: Config, s: State)
    requires Once(s) && Covers(c, s) && Leaving(s.coord)
    ensures Once(ShutdownStep(c, s)) && Covers(c, ShutdownStep(c, s))
  {
    var t := ShutdownStep(c, s);
    ShutdownIsQuiet(c, s);
    LeavingKeepsDrain(c, s, t);
    QuietKeepsCovers(c, s, t);
  }

  lemma WaitIsQuiet(c: Config, s: State)
    requires CoordEnabled(s) && (s.coord.Test? || s.coord.WaitWork? || s.coord.Size?)
    ensures var t := WaitStep(c, s);
            && Quiet(c, s, t) && t.jobs == s.jobs && !t.fault == !s.fault
            && (if Leaving(t.coord) then s.coord.Test? && t.hist.drained == (s.lock == 0)
                else t.hist.drained == s.hist.drained)
            && (Leaving(t.coord) && s.lock != 0 ==> |s.graph.vertices| >= c.capacity)
  {
  }

  lemma WaitKeepsDrain(c: Config, s: State, t: State)
    requires LockLaw(s) && DrainLaw(c, s) && Quiet(c, s, t) && t.jobs == s.jobs && !Leaving(s.coord)
    requires if Leaving(t.coord) then s.coord.Test? && t.hist.drained == (s.lock == 0)
             else t.hist.drained == s.hist.drained
    requires Leaving(t.coord) && s.lock != 0 ==> |s.graph.vertices| >= c.capacity
    ensures DrainLaw(c, t)
  {
    if Leaving(t.coord) && s.lock == 0 {
      ZeroMeansDrained(s);
    }
  }

  lemma PopStepKeepsCovers(c: Config, s: State)
    requires WorkSemLaw(s) && Once(s) && Covers(c, s) && s.coord == Pop
    ensures !s.fault ==> !WaitStep(c, s).fault
    ensures Once(WaitStep(c, s)) && Covers(c, WaitStep(c, s))
  {
    PopInserts(c, s);
    PopKeepsCovers(c, s);
  }

  lemma WaitKeepsCovers(c: Config, s: State)
    requires LockLaw(s) && WorkSemLaw(s) && Once(s) && Covers(c, s) && CoordEnabled(s)
    requires !Seeding(s.coord) && !Scheduling(s.coord) && !Leaving(s.coord)
    ensures !s.fault ==> !WaitStep(c, s).fault
    ensures Once(WaitStep(c, s)) && Covers(c, WaitStep(c, s))
  {
    if s.coord == Pop {
      PopStepKeepsCovers(c, s);
    } else {
      WaitIsQuiet(c, s);
      WaitKeepsDrain(c, s, WaitStep(c, s));
      QuietKeepsCovers(c, s, WaitStep(c, s));
    }
  }

  lemma CoordKeepsCovers(c: Config, s: State)
    requires LockLaw(s) && WorkSemLaw(s) && Once(s) && Covers(c, s) && CoordEnabled(s)
    ensures !s.fault ==> !CoordStep(c, s).fault
    ensures Once(CoordStep(c, s)) && Covers(c, CoordStep(c, s))
  {
    if Seeding(s.coord) {
      SeedKeepsCovers(c, s);
    } else if Scheduling(s.coord) {
      ScheduleKeepsCovers(c, s);
    } else if Leaving(s.coord) {
      ShutdownKeepsCovers(c, s);
    } else {
      WaitKeepsCovers(c, s);
    }
  }
}
