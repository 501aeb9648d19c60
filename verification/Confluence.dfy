/** The outcome of a crawl does not depend on the schedule: against a web whose answer depends on
    the URL and the number of the attempt, any two complete runs schedule the same URLs and build
    the same graph, up to the order of its vertices. */
module Confluence {
  import opened WebGraph
  import opened Protocol
  import opened Sums
  import opened Accounting
  import opened JobsOnce
  import opened Completeness
  import opened Theorems
  import opened Termination

  /** What crawler_crawl returns for each URL on each attempt, counted from 0. */
  type Web = (Url, nat) -> Fetch

  /** The answer that ends the job of u, from attempt k on. */
  function Answer(web: Web, u: Url, k: nat): Fetch
    decreases ATTEMPTS - k
  {
    if k + 1 < ATTEMPTS && Retries(web(u, k).code) then Answer(web, u, k + 1) else web(u, k)
  }

  /** The web gives this URL a result: a page with at least one link. */
  predicate Yields(web: Web, u: Url) { Answer(web, u, 0).code == OK && Answer(web, u, 0).raw != [] }

  /** That is, one of the three attempts is such a page, and all the earlier ones timed out, overflowed,
      failed or did not reach the host. */
  lemma YieldsIff(web: Web, u: Url)
    ensures Yields(web, u) <==>
              exists k: nat :: k < 3 && web(u, k).code == OK && web(u, k).raw != []
                               && forall j: nat | j < k :: web(u, j).code in {TIMEOUT, OVERFLOW, FAILED, UNREACH}
  {
    assert ATTEMPTS == 3;
  }

  function LinksOf(c: Config, web: Web, u: Url): seq<Url> { Filter.Links(c.domain, Answer(web, u, 0).raw) }

  /** f is the answer of the web to the attempt that a thread at pc is about to make. */
  predicate Answers(web: Web, pc: Pc, f: Fetch) {
    pc.Fetching? ==> pc.left <= ATTEMPTS && f == web(pc.url, ATTEMPTS - pc.left)
  }

  ghost predicate Obeys(web: Web, s: State, a: Action)
    requires Enabled(s, a)
  {
    a.OfThread? ==> Answers(web, s.threads[a.i].pc, a.f)
  }

  ghost predicate WebStep(c: Config, web: Web, s: State, t: State) {
    exists a :: Enabled(s, a) && Obeys(web, s, a) && t == Next(c, s, a)
  }

  /** Results agree with the web, and a job that is over has a result if the web yields one. */
  ghost predicate WebLaw(c: Config, web: Web, s: State) {
    && (forall u | u in s.hist.results :: Yields(web, u) && s.hist.results[u] == LinksOf(c, web, u))
    && (forall i | 0 <= i < |s.threads| :: ThreadWeb(c, web, s.hist, s.threads[i].pc))
    && (forall u | u in s.hist.scheduled && Tickets(s, u) == 0 :: Settled(web, s.hist, u))
  }

  ghost predicate Settled(web: Web, h: History, u: Url) {
    u in h.results <==> Yields(web, u)
  }

  ghost predicate ThreadWeb(c: Config, web: Web, h: History, pc: Pc) {
    && (pc.Fetching? ==>
          1 <= pc.left <= ATTEMPTS && Answer(web, pc.url, ATTEMPTS - pc.left) == Answer(web, pc.url, 0))
    && (pc.PushResult? ==> Yields(web, pc.url) && pc.links == LinksOf(c, web, pc.url))
    && (pc.LowerLock? || pc.PostDone? ==> Settled(web, h, pc.url))
  }

  lemma WebLawInit(c: Config, web: Web)
    ensures WebLaw(c, web, Init(c))
  {
  }

  /** A crawler's step settles its own URL as the web says and leaves the others alone. */
  lemma CrawlerKeepsWeb(c: Config, web: Web, s: State, i: nat, f: Fetch)
    requires Once(s) && WebLaw(c, web, s) && i < |s.threads| && InCrawler(s.threads[i].pc)
    requires Answers(web, s.threads[i].pc, f)
    ensures WebLaw(c, web, CrawlerStep(c, s, i, f))
  {
    var t, pc := CrawlerStep(c, s, i, f), s.threads[i].pc;
    assert JobOk(s.hist, pc);
    CrawlerResults(c, s, i, f);
    CrawlerOwnWeb(c, web, s, i, f);
    forall j | 0 <= j < |t.threads|
      ensures ThreadWeb(c, web, t.hist, t.threads[j].pc)
    {
      if j != i {
        assert ThreadWeb(c, web, s.hist, s.threads[j].pc);
        if InCrawler(s.threads[j].pc) {
          OnlyRunner(s, i, j);
        }
      }
    }
    forall u | u in t.hist.scheduled && Tickets(t, u) == 0
      ensures Settled(web, t.hist, u)
    {
      CrawlerSettles(c, web, s, i, f, u);
    }
  }

  /** When a crawler's step leaves a URL without a ticket, that URL is settled. */
  lemma CrawlerSettles(c: Config, web: Web, s: State, i: nat, f: Fetch, u: Url)
    requires Once(s) && WebLaw(c, web, s) && i < |s.threads| && InCrawler(s.threads[i].pc)
    requires var t := CrawlerStep(c, s, i, f); u in t.hist.scheduled && Tickets(t, u) == 0
    ensures Settled(web, CrawlerStep(c, s, i, f).hist, u)
  {
    assert ThreadWeb(c, web, s.hist, s.threads[i].pc);
    CrawlerTouchesOwnUrl(c, s, i, f, u);
    RunnerChange(s, CrawlerStep(c, s, i, f), i, u);
    if u == s.threads[i].pc.url {
      RunnerTicket(s, i);
      CrawlerMovesOwnJob(c, s, i, f);
    }
  }

  lemma CrawlerOwnWeb(c: Config, web: Web, s: State, i: nat, f: Fetch)
    requires i < |s.threads| && InCrawler(s.threads[i].pc) && JobOk(s.hist, s.threads[i].pc)
    requires ThreadWeb(c, web, s.hist, s.threads[i].pc)
    requires s.threads[i].pc.RaiseLock? || s.threads[i].pc.PostWork? ==> Yields(web, s.threads[i].pc.url)
    requires Answers(web, s.threads[i].pc, f)
    ensures var t := CrawlerStep(c, s, i, f); ThreadWeb(c, web, t.hist, t.threads[i].pc)
  {
  }

  lemma CrawlerResults(c: Config, s: State, i: nat, f: Fetch)
    requires i < |s.threads| && InCrawler(s.threads[i].pc)
    ensures var t, pc := CrawlerStep(c, s, i, f), s.threads[i].pc;
            && |t.threads| == |s.threads| && t.threads == s.threads[i := t.threads[i]]
            && t.hist.scheduled == s.hist.scheduled
            && t.hist.results == if pc.PushResult? then s.hist.results[pc.url := pc.links] else s.hist.results
  {
  }

  /** Steps that change no result and no crawler: tickets do not vanish. */
  lemma QuietKeepsWeb(c: Config, web: Web, s: State, t: State)
    requires WebLaw(c, web, s) && t.hist.results == s.hist.results && |t.threads| == |s.threads|
    requires forall i | 0 <= i < |t.threads| ::
               var pc := t.threads[i].pc;
               || pc == s.threads[i].pc
               || (!(pc.PushResult? || pc.LowerLock? || pc.PostDone?) && (pc.Fetching? ==> pc.left == ATTEMPTS))
    requires forall u | u in t.hist.scheduled && Tickets(t, u) == 0 :: u in s.hist.scheduled && Tickets(s, u) == 0
    ensures WebLaw(c, web, t)
  {
    forall i | 0 <= i < |t.threads|
      ensures ThreadWeb(c, web, t.hist, t.threads[i].pc)
    {
      assert ThreadWeb(c, web, s.hist, s.threads[i].pc);
    }
  }

  /** Taking a job moves a ticket; the other steps between jobs move none. */
  lemma PoolTickets(s: State, i: nat, u: Url)
    requires ThreadEnabled(s, i) && !InCrawler(s.threads[i].pc) && s.threads[i].pc != SetIdle
    requires s.threads[i].pc == TakeJob ==> s.jobs != []
    ensures Tickets(PoolStep(s, i), u) == Tickets(s, u)
  {
    if s.threads[i].pc == TakeJob {
      TakeMovesTicket(s, i, u);
    } else {
      RunnerChange(s, PoolStep(s, i), i, u);
    }
  }

  lemma PoolKeepsWeb(c: Config, web: Web, s: State, i: nat)
    requires WebLaw(c, web, s) && !s.fault && ThreadEnabled(s, i)
    requires !InCrawler(s.threads[i].pc) && s.threads[i].pc != SetIdle
    requires s.threads[i].pc == TakeJob ==> s.jobs != []
    ensures WebLaw(c, web, PoolStep(s, i))
  {
    forall u
      ensures Tickets(PoolStep(s, i), u) == Tickets(s, u)
    {
      PoolTickets(s, i, u);
    }
    QuietKeepsWeb(c, web, s, PoolStep(s, i));
  }

  lemma ExitKeepsWeb(c: Config, web: Web, s: State, i: nat)
    requires WebLaw(c, web, s) && i < |s.threads| && s.threads[i].pc == SetIdle
    ensures WebLaw(c, web, ExitStep(s, i))
  {
    forall u
      ensures Tickets(ExitStep(s, i), u) == Tickets(s, u)
    {
      RunnerChange(s, ExitStep(s, i), i, u);
    }
    QuietKeepsWeb(c, web, s, ExitStep(s, i));
  }

  lemma ThreadKeepsWeb(c: Config, web: Web, s: State, i: nat, f: Fetch)
    requires Inv(c, s) && WebLaw(c, web, s) && Enabled(s, OfThread(i, f)) && Obeys(web, s, OfThread(i, f))
    ensures WebLaw(c, web, ThreadStep(c, s, i, f))
  {
    var pc := s.threads[i].pc;
    if InCrawler(pc) {
      CrawlerKeepsWeb(c, web, s, i, f);
    } else if pc == SetIdle {
      ExitKeepsWeb(c, web, s, i);
    } else {
      if pc == TakeJob {
        JobIsThere(s, i);
      }
      PoolKeepsWeb(c, web, s, i);
    }
  }

  lemma CoordKeepsWeb(c: Config, web: Web, s: State)
    requires Inv(c, s) && WebLaw(c, web, s) && CoordEnabled(s)
    ensures WebLaw(c, web, CoordStep(c, s))
  {
    CoordKeepsCovers(c, s);
    CoordHasEffect(c, s);
    CoordEffectKeepsWeb(c, web, s, CoordStep(c, s));
  }

  lemma CoordEffectKeepsWeb(c: Config, web: Web, s: State, t: State)
    requires WebLaw(c, web, s) && CoordEffect(c, s, t)
    ensures WebLaw(c, web, t)
  {
    forall u | u in t.hist.scheduled && Tickets(t, u) == 0
      ensures u in s.hist.scheduled && Tickets(s, u) == 0
    {
      PushedHasTicket(c, s, t, u);
    }
    QuietKeepsWeb(c, web, s, t);
  }

  /** The coordinator lets no job vanish, and a job it pushes is there. */
  lemma PushedHasTicket(c: Config, s: State, t: State, u: Url)
    requires CoordEffect(c, s, t) && u in t.hist.scheduled && Tickets(t, u) == 0
    ensures u in s.hist.scheduled && Tickets(s, u) == 0
  {
    Counts(s, u);
    if Pushes(s.coord, t.coord) {
      Push(s.jobs, t.jobs[|s.jobs|]);
    }
  }

  // Runs against a web.

  ghost predicate MaximalWebRun(c: Config, web: Web, run: nat -> State) {
    && run(0) == Init(c)
    && forall k: nat :: if CanStep(c, run(k)) then WebStep(c, web, run(k), run(k + 1)) else run(k + 1) == run(k)
  }

  lemma WebRunIsRun(c: Config, web: Web, run: nat -> State)
    requires MaximalWebRun(c, web, run)
    ensures MaximalRun(c, run)
  {
    forall k: nat
      ensures if CanStep(c, run(k)) then Step(c, run(k), run(k + 1)) else run(k + 1) == run(k)
    {
      if CanStep(c, run(k)) {
        assert WebStep(c, web, run(k), run(k + 1));
      }
    }
  }

  lemma {:induction false} WebLawAt(c: Config, web: Web, run: nat -> State, k: nat)
    requires MaximalWebRun(c, web, run)
    ensures Inv(c, run(k)) && WebLaw(c, web, run(k))
  {
    if k == 0 {
      InvInit(c);
      WebLawInit(c, web);
    } else {
      WebLawAt(c, web, run, k - 1);
      var s := run(k - 1);
      if CanStep(c, s) {
        assert WebStep(c, web, s, run(k - 1 + 1));
        var a :| Enabled(s, a) && Obeys(web, s, a) && run(k) == Next(c, s, a);
        InvStep(c, s, a);
        match a
        case OfThread(i, f) => ThreadKeepsWeb(c, web, s, i, f);
        case OfCoordinator => CoordKeepsWeb(c, web, s);
      } else {
        assert run(k - 1 + 1) == s;
      }
    }
  }

  // What a run leaves.

  /** A final state of a crawl against a web. */
  ghost predicate Final(c: Config, web: Web, s: State) {
    c.n > 0 && Inv(c, s) && WebLaw(c, web, s) && AllFinished(s)
  }

  /** At the end every scheduled URL is settled. */
  lemma FinishedIsSettled(c: Config, web: Web, s: State, u: Url)
    requires Final(c, web, s) && u in s.hist.scheduled
    ensures u in s.hist.results <==> Yields(web, u)
  {
    FinishedIsClean(c, s);
    Constant(HasJob(u), s.threads, 0);
    assert Tickets(s, u) == 0;
  }

  /** p leads from the seed along the filtered links of the pages of the web. */
  ghost predicate WebPath(c: Config, web: Web, p: seq<Url>) {
    && p != [] && p[0] == c.seed
    && forall k | 0 <= k < |p| - 1 :: Yields(web, p[k]) && p[k + 1] in LinksOf(c, web, p[k])
  }

  ghost predicate OnWeb(c: Config, web: Web, u: Url) {
    exists p :: WebPath(c, web, p) && p[|p| - 1] == u
  }

  /** The pages of the web: the URLs that can be reached from the seed and yield a result. */
  ghost predicate Pages(c: Config, web: Web, r: set<Url>) {
    forall u :: u in r <==> OnWeb(c, web, u) && Yields(web, u)
  }

  /** A crawl leaves the web neither for its schedule nor for its results, at any time. */
  lemma ScheduledIsOnWeb(c: Config, web: Web, s: State, u: Url)
    requires Inv(c, s) && WebLaw(c, web, s) && u in s.hist.scheduled
    ensures OnWeb(c, web, u)
  {
    var p :| Path(s.hist.results, c.seed, p) && p[|p| - 1] == u;
    assert WebPath(c, web, p);
  }

  lemma ResultIsPage(c: Config, web: Web, s: State, u: Url)
    requires Inv(c, s) && WebLaw(c, web, s) && u in s.hist.results
    ensures OnWeb(c, web, u) && Yields(web, u)
  {
    assert UrlOk(s, u);
    ScheduledIsOnWeb(c, web, s, u);
  }

  lemma {:induction false} WebPathIsScheduled(c: Config, web: Web, s: State, p: seq<Url>)
    requires Final(c, web, s) && Processed(s) && WebPath(c, web, p)
    ensures p[|p| - 1] in s.hist.scheduled
  {
    if |p| == 1 {
      SeedIsScheduled(c, s);
    } else {
      var q, u, v := p[..|p| - 1], p[|p| - 2], p[|p| - 1];
      Shorter(c, web, p, q);
      WebPathIsScheduled(c, web, s, q);
      LinkIsScheduled(c, web, s, u, v);
    }
  }

  lemma Shorter(c: Config, web: Web, p: seq<Url>, q: seq<Url>)
    requires WebPath(c, web, p) && |p| > 1 && q == p[..|p| - 1]
    ensures WebPath(c, web, q) && q[|q| - 1] == p[|p| - 2]
    ensures Yields(web, p[|p| - 2]) && p[|p| - 1] in LinksOf(c, web, p[|p| - 2])
  {
    assert p[|p| - 2 + 1] == p[|p| - 1];
  }

  /** At the end of a complete crawl the links of a scheduled page are scheduled. */
  lemma LinkIsScheduled(c: Config, web: Web, s: State, u: Url, v: Url)
    requires Final(c, web, s) && Processed(s)
    requires u in s.hist.scheduled && Yields(web, u) && v in LinksOf(c, web, u)
    ensures v in s.hist.scheduled
  {
    FinishedIsSettled(c, web, s, u);
    ProcessedIsClosed(c, s, u, v);
  }

  lemma SeedIsScheduled(c: Config, s: State)
    requires Inv(c, s) && Processed(s)
    ensures c.seed in s.hist.scheduled
  {
  }

  /** A crawl that ends with a count of 0 has scheduled exactly the URLs that the web makes
      reachable from the seed, and has a result for exactly its pages. */
  lemma CrawlsTheReachableWeb(c: Config, web: Web, s: State, u: Url)
    requires Final(c, web, s) && s.lock == 0
    ensures u in s.hist.scheduled <==> OnWeb(c, web, u)
    ensures u in s.hist.results <==> OnWeb(c, web, u) && Yields(web, u)
  {
    FinishedIsClean(c, s);
    if u in s.hist.scheduled {
      ScheduledIsOnWeb(c, web, s, u);
      FinishedIsSettled(c, web, s, u);
    }
    if u in s.hist.results {
      ResultIsPage(c, web, s, u);
    }
    forall p | WebPath(c, web, p) && p[|p| - 1] == u
      ensures u in s.hist.scheduled
    {
      WebPathIsScheduled(c, web, s, p);
    }
  }

  /** When a run is over, which of the scheduled URLs have a result: those of which some attempt
      among three returned a page with links after attempts that are repeated. */
  lemma ResultIff(c: Config, web: Web, s: State, u: Url)
    requires Final(c, web, s) && u in s.hist.scheduled
    ensures u in s.hist.results <==>
              exists k: nat :: k < 3 && web(u, k).code == OK && web(u, k).raw != []
                               && forall j: nat | j < k :: web(u, j).code in {TIMEOUT, OVERFLOW, FAILED, UNREACH}
  {
    FinishedIsSettled(c, web, s, u);
    YieldsIff(web, u);
  }

  // How much of the web a run crawls, whatever the schedule.

  /** At any time the results are pages of the web, each a vertex or queued once. */
  lemma NeverMorePages(c: Config, web: Web, s: State, r: set<Url>)
    requires Inv(c, s) && WebLaw(c, web, s) && Pages(c, web, r)
    ensures |s.graph.vertices| + |s.urls| <= |r|
  {
    forall u | u in s.hist.results.Keys
      ensures u in r
    {
      ResultIsPage(c, web, s, u);
    }
    ResultsCounted(s);
    SubsetSize(s.hist.results.Keys, r);
  }

  /** A web with no more pages than vertices is crawled completely. */
  lemma SmallWebIsCrawled(c: Config, web: Web, s: State, r: set<Url>)
    requires Final(c, web, s) && Pages(c, web, r) && |r| <= c.capacity
    ensures s.lock == 0
  {
    FinishedIsClean(c, s);
    NeverMorePages(c, web, s, r);
  }

  /** A complete crawl has found all the pages, and they fit in the graph. */
  lemma CompleteHasPages(c: Config, web: Web, s: State)
    requires Final(c, web, s) && s.lock == 0
    ensures Pages(c, web, s.hist.results.Keys)
    ensures |s.hist.results.Keys| == |s.graph.vertices| <= c.capacity
  {
    FinishedIsClean(c, s);
    ResultsCounted(s);
    forall u
      ensures u in s.hist.results.Keys <==> OnWeb(c, web, u) && Yields(web, u)
    {
      CrawlsTheReachableWeb(c, web, s, u);
    }
  }

  /** The condition on the web: a crawl is complete if and only if the web has finitely many
      pages, and no more than the graph has room for. */
  lemma CompleteIff(c: Config, web: Web, s: State)
    requires Final(c, web, s)
    ensures s.lock == 0 <==> exists r :: Pages(c, web, r) && |r| <= c.capacity
  {
    if s.lock == 0 {
      CompleteHasPages(c, web, s);
    }
    forall r | Pages(c, web, r) && |r| <= c.capacity
      ensures s.lock == 0
    {
      SmallWebIsCrawled(c, web, s, r);
    }
  }

  /** A crawl that is not complete has filled the graph, so the number of vertices follows from
      the web: all pages, or as many as there is room for. */
  lemma VerticesOfWeb(c: Config, web: Web, s: State, r: set<Url>)
    requires Final(c, web, s) && Pages(c, web, r)
    ensures |s.graph.vertices| == if |r| <= c.capacity then |r| else c.capacity
  {
    FinishedIsClean(c, s);
    NeverMorePages(c, web, s, r);
    if s.lock == 0 {
      CompleteHasPages(c, web, s);
      assert r == s.hist.results.Keys;
    } else if |r| <= c.capacity {
      SmallWebIsCrawled(c, web, s, r);
    }
  }

  // Two runs against one web.

  /** The graphs have a vertex for the same URLs, with the same edges. */
  ghost predicate SameGraph(g: Graph, h: Graph) {
    forall u :: var i, j := FindVertex(g, u), FindVertex(h, u);
      && (i >= 0 <==> j >= 0)
      && (0 <= i < |g.vertices| && 0 <= j < |h.vertices| ==> g.vertices[i].edges == h.vertices[j].edges)
  }

  /** When no result is queued the vertices are exactly the results. */
  lemma VertexIffResult(c: Config, s: State, u: Url)
    requires Inv(c, s) && s.urls == []
    ensures FindVertex(s.graph, u) < |s.graph.vertices|
    ensures FindVertex(s.graph, u) >= 0 <==> u in s.hist.results
    ensures FindVertex(s.graph, u) >= 0 ==> s.graph.vertices[FindVertex(s.graph, u)].edges == s.hist.results[u]
  {
    var k := FindVertex(s.graph, u);
    if k >= 0 {
      assert IsResult(s.hist, s.graph.vertices[k].url, s.graph.vertices[k].edges);
    } else if u in s.hist.results {
      var j := ProcessedHasVertex(c, s, u);
    }
  }

  lemma SameGraphs(c: Config, s: State, t: State)
    requires Inv(c, s) && s.urls == [] && Inv(c, t) && t.urls == [] && s.hist.results == t.hist.results
    ensures SameGraph(s.graph, t.graph)
  {
    forall u
      ensures FindVertex(s.graph, u) >= 0 <==> FindVertex(t.graph, u) >= 0
      ensures FindVertex(s.graph, u) < |s.graph.vertices| && FindVertex(t.graph, u) < |t.graph.vertices|
      ensures FindVertex(s.graph, u) >= 0 ==>
                s.graph.vertices[FindVertex(s.graph, u)].edges == t.graph.vertices[FindVertex(t.graph, u)].edges
    {
      VertexIffResult(c, s, u);
      VertexIffResult(c, t, u);
    }
  }

  lemma SameResults(c: Config, web: Web, s: State, t: State)
    requires Final(c, web, s) && Final(c, web, t) && s.lock == 0 && t.lock == 0
    ensures s.hist.results == t.hist.results
  {
    forall u
      ensures u in s.hist.results <==> u in t.hist.results
      ensures u in s.hist.results && u in t.hist.results ==> s.hist.results[u] == t.hist.results[u]
    {
      CrawlsTheReachableWeb(c, web, s, u);
      CrawlsTheReachableWeb(c, web, t, u);
    }
  }

  /** Any two final states have equally many vertices, and are both complete or neither. If one
      is complete they agree on the scheduled URLs, the results and the graph. */
  lemma SameOutcome(c: Config, web: Web, s: State, t: State)
    requires Final(c, web, s) && Final(c, web, t)
    ensures |s.graph.vertices| == |t.graph.vertices| && (s.lock == 0 <==> t.lock == 0)
    ensures s.lock == 0 ==> forall u :: u in s.hist.scheduled <==> u in t.hist.scheduled
    ensures s.lock == 0 ==> s.hist.results == t.hist.results && SameGraph(s.graph, t.graph)
  {
    FinishedIsClean(c, s);
    FinishedIsClean(c, t);
    CompleteIff(c, web, s);
    CompleteIff(c, web, t);
    if s.lock == 0 {
      forall u
        ensures u in s.hist.scheduled <==> u in t.hist.scheduled
      {
        CrawlsTheReachableWeb(c, web, s, u);
        CrawlsTheReachableWeb(c, web, t, u);
      }
      SameResults(c, web, s, t);
      SameGraphs(c, s, t);
      ResultsCounted(s);
      ResultsCounted(t);
    }
  }

  lemma WebRunFinishes(c: Config, web: Web, run: nat -> State) returns (m: nat)
    requires c.n > 0 && MaximalWebRun(c, web, run)
    ensures Final(c, web, run(m))
  {
    WebRunIsRun(c, web, run);
    m := EveryMaximalRunFinishes(c, run);
    WebLawAt(c, web, run, m);
  }

  /** Every maximal run against a web finishes. If the web has finitely many pages, and no more
      than the graph has room for, all of it has then been crawled; otherwise the graph is full. */
  lemma WebIsCrawled(c: Config, web: Web, run: nat -> State) returns (m: nat)
    requires c.n > 0 && MaximalWebRun(c, web, run)
    ensures AllFinished(run(m))
    ensures if exists r :: Pages(c, web, r) && |r| <= c.capacity
            then forall u :: u in run(m).hist.scheduled <==> OnWeb(c, web, u)
            else |run(m).graph.vertices| == c.capacity
    ensures forall r | Pages(c, web, r) ::
              |run(m).graph.vertices| == if |r| <= c.capacity then |r| else c.capacity
  {
    m := WebRunFinishes(c, web, run);
    var s := run(m);
    FinishedIsClean(c, s);
    CompleteIff(c, web, s);
    forall u | s.lock == 0
      ensures u in s.hist.scheduled <==> OnWeb(c, web, u)
    {
      CrawlsTheReachableWeb(c, web, s, u);
    }
    forall r | Pages(c, web, r)
      ensures |s.graph.vertices| == if |r| <= c.capacity then |r| else c.capacity
    {
      VerticesOfWeb(c, web, s, r);
    }
  }

  /** Schedule independence: any two maximal runs against the same web finish with equally many
      vertices. If one of them is complete, as it is when its graph is not full, so is the other,
      with the same scheduled URLs, the same results and the same graph. */
  lemma ScheduleDoesNotMatter(c: Config, web: Web, run: nat -> State, other: nat -> State) returns (m: nat, n: nat)
    requires c.n > 0 && MaximalWebRun(c, web, run) && MaximalWebRun(c, web, other)
    ensures AllFinished(run(m)) && AllFinished(other(n))
    ensures |run(m).graph.vertices| == |other(n).graph.vertices| && (run(m).lock == 0 <==> other(n).lock == 0)
    ensures |run(m).graph.vertices| < c.capacity ==> run(m).lock == 0
    ensures run(m).lock == 0 ==>
              && (forall u :: u in run(m).hist.scheduled <==> u in other(n).hist.scheduled)
              && run(m).hist.results == other(n).hist.results
              && SameGraph(run(m).graph, other(n).graph)
  {
    m := WebRunFinishes(c, web, run);
    n := WebRunFinishes(c, web, other);
    FinishedIsClean(c, run(m));
    SameOutcome(c, web, run(m), other(n));
  }
}
