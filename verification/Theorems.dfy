/** The theorems about whole runs: every invariant holds in every reachable state, whatever
    the schedule and whatever the fetches return. */
module Theorems {
  import opened WebGraph
  import opened Protocol
  import opened Sums
  import opened Accounting
  import opened JobsOnce
  import opened Completeness
  import opened Locality

  ghost predicate Inv(c: Config, s: State) {
    !s.fault && Accounts(c, s) && Once(s) && Covers(c, s) && LocalLaw(c, s)
  }

  lemma InvInit(c: Config)
    ensures Inv(c, Init(c))
  {
    AccountsInit(c);
    OnceInit(c);
    CoversInit(c);
    LocalInit(c);
  }

  /** A thread that is about to take a job finds one. */
  lemma JobIsThere(s: State, i: nat)
    requires JobSemLaw(s) && i < |s.threads| && s.threads[i].pc == TakeJob
    ensures s.jobs != []
  {
    AtLeast(HoldsToken, s.threads, i);
  }

  lemma InvThread(c: Config, s: State, i: nat, f: Fetch)
    requires Inv(c, s) && Enabled(s, OfThread(i, f))
    ensures Inv(c, ThreadStep(c, s, i, f))
  {
    if s.threads[i].pc == TakeJob {
      JobIsThere(s, i);
    }
    NoThreadFault(c, s, i, f);
    AccountsThread(c, s, i, f);
    ThreadKeepsOnce(c, s, i, f);
    ThreadKeepsCovers(c, s, i, f);
    ThreadKeepsLocal(c, s, i, f);
  }

  lemma NoThreadFault(c: Config, s: State, i: nat, f: Fetch)
    requires i < |s.threads| && !s.fault && (s.threads[i].pc == TakeJob ==> s.jobs != [])
    ensures !ThreadStep(c, s, i, f).fault
  {
  }

  lemma InvCoord(c: Config, s: State)
    requires Inv(c, s) && CoordEnabled(s)
    ensures Inv(c, CoordStep(c, s))
  {
    CoordKeepsCovers(c, s);
    AccountsCoord(c, s);
    CoordKeepsLocal(c, s);
  }

  lemma InvStep(c: Config, s: State, a: Action)
    requires Inv(c, s) && Enabled(s, a)
    ensures Inv(c, Next(c, s, a))
  {
    match a
    case OfThread(i, f) => InvThread(c, s, i, f);
    case OfCoordinator => InvCoord(c, s);
  }

  lemma {:induction false} InvRun(c: Config, run: seq<State>)
    requires Run(c, run)
    ensures Inv(c, run[|run| - 1])
  {
    if |run| == 1 {
      InvInit(c);
    } else {
      var n := |run| - 2;
      InvRun(c, run[..|run| - 1]);
      assert Step(c, run[n], run[n + 1]);
      var a :| Enabled(run[n], a) && run[n + 1] == Next(c, run[n], a);
      InvStep(c, run[n], a);
    }
  }

  /** Every reachable state satisfies the invariant. */
  lemma InvReachable(c: Config, s: State)
    requires Reachable(c, s)
    ensures Inv(c, s)
  {
    var run :| Run(c, run) && run[|run| - 1] == s;
    InvRun(c, run);
  }

  // Safety.

  /** No reachable state reads an empty queue, misses a vertex or overruns the vertex array. */
  lemma NeverFaults(c: Config, s: State)
    requires Reachable(c, s)
    ensures !s.fault && |s.graph.vertices| <= c.capacity
    ensures forall i | 0 <= i < |s.threads| && s.threads[i].pc == TakeJob :: s.jobs != []
    ensures s.coord == Pop ==> s.urls != [] && FindVertex(s.graph, s.urls[0].url) == -1
    ensures s.coord.Scan? && s.coord.rest != [] ==> s.coord.rest[0] in s.graph.infos
  {
    InvReachable(c, s);
    forall i | 0 <= i < |s.threads| && s.threads[i].pc == TakeJob
      ensures s.jobs != []
    {
      JobIsThere(s, i);
    }
    if s.coord == Pop {
      QueuedIsNew(c, s);
    }
    if s.coord.Scan? && s.coord.rest != [] {
      NextLinkIsKnown(c, s);
    }
  }

  /** Nothing is left that could be crawled: no result, no crawl job, and no thread in do_crawler
      except between push and increase, or past the decrease. */
  predicate NothingLeft(s: State) {
    && s.urls == [] && (forall j | j in s.jobs :: j.DoExit?)
    && forall t | t in s.threads && InCrawler(t.pc) :: t.pc.RaiseLock? || t.pc.PostDone?
  }

  /** Termination detection: global_lock is the outstanding work up to the two corrections, it
      is never negative, and do_work reads 0 if and only if nothing is left. */
  lemma LockIsSound(c: Config, s: State)
    requires Reachable(c, s)
    ensures LockLaw(s) && s.lock >= 0
    ensures s.coord == Test ==> (s.lock == 0 <==> NothingLeft(s))
  {
    InvReachable(c, s);
    Bounds(s);
    if s.coord == Test {
      LockCountsWork(s);
    }
  }

  lemma LockCountsWork(s: State)
    requires LockLaw(s) && s.coord == Test
    ensures s.lock == 0 <==> NothingLeft(s)
  {
    Bounds(s);
    NoCrawlJob(s.jobs);
    EqualCounts(Between, Running, s.threads);
    assert forall t :: Between(t) == Running(t) <==> (InCrawler(t.pc) ==> t.pc.RaiseLock? || t.pc.PostDone?);
  }

  lemma NoCrawlJob(jobs: seq<Job>)
    ensures Sum(IsCrawl, jobs) == 0 <==> forall j | j in jobs :: j.DoExit?
  {
    if forall j | j in jobs :: j.DoExit? {
      Constant(IsCrawl, jobs, 0);
    } else {
      var j :| j in jobs && !j.DoExit?;
      var k :| 0 <= k < |jobs| && jobs[k] == j;
      AtLeast(IsCrawl, jobs, k);
    }
  }

  /** The coordinator never waits in vain: while it is blocked on work_sem a crawl job is queued
      or a thread runs do_crawler, and tokens are never fewer than the results they announce. */
  lemma NoLostWakeUp(c: Config, s: State)
    requires Reachable(c, s)
    ensures s.coord == WaitWork && s.workSem == 0 ==>
              (exists j :: j in s.jobs && j.DoCrawler?) || (exists t :: t in s.threads && InCrawler(t.pc))
    ensures s.workSem + Sum(Unposted, s.threads) + Held(s.coord) >= |s.urls|
    ensures s.jobSem + Sum(HoldsToken, s.threads) + JobUnposted(s.coord) == |s.jobs|
  {
    InvReachable(c, s);
    if s.coord == WaitWork && s.workSem == 0 {
      if Sum(Crawling, s.threads) > 0 {
        var i := Witness(Crawling, s.threads);
        assert s.threads[i] in s.threads;
      } else {
        var i := Witness(IsCrawl, s.jobs);
        assert s.jobs[i] in s.jobs;
      }
    }
  }

  // Deadlock freedom.

  ghost predicate CanStep(c: Config, s: State) {
    exists a :: Enabled(s, a)
  }

  lemma ThreadCanStep(c: Config, s: State, i: nat)
    requires !s.fault && ThreadEnabled(s, i)
    ensures CanStep(c, s)
  {
    assert Enabled(s, OfThread(i, Fetch(OK, [])));
  }

  /** A state in which nothing can step has all threads at WaitJob or Finished, no job_sem
      token for a waiting one, and the coordinator halted or waiting without a token. */
  lemma StuckShape(c: Config, s: State)
    requires !s.fault && !CanStep(c, s)
    ensures s.coord == Halted || (s.coord == WaitWork && s.workSem == 0)
    ensures forall i | 0 <= i < |s.threads| ::
              s.threads[i].pc == Finished || (s.threads[i].pc == WaitJob && s.jobSem == 0)
  {
    if CoordEnabled(s) {
      assert Enabled(s, OfCoordinator);
    }
    forall i | 0 <= i < |s.threads|
      ensures s.threads[i].pc == Finished || (s.threads[i].pc == WaitJob && s.jobSem == 0)
    {
      if ThreadEnabled(s, i) {
        ThreadCanStep(c, s, i);
      }
    }
  }

  /** No deadlock: where nothing can step, everything has finished. */
  lemma StuckIsFinished(c: Config, s: State)
    requires c.n > 0 && Inv(c, s) && !CanStep(c, s)
    ensures AllFinished(s)
  {
    StuckShape(c, s);
    assert Sum(HoldsToken, s.threads) == 0 && Sum(Crawling, s.threads) == 0 by {
      Constant(HoldsToken, s.threads, 0);
      Constant(Crawling, s.threads, 0);
    }
    Bounds(s);
    if s.coord == WaitWork {
      AtLeast(Took, s.threads, 0);
      assert false;
    } else {
      forall t | t in s.threads
        ensures t.pc == Finished
      {
        var i :| 0 <= i < |s.threads| && s.threads[i] == t;
        assert WellFormed(t);
        if t.pc != Finished {
          TookLess(s.threads, i);
        }
      }
    }
  }

  /** If one thread has not taken its exit job, fewer than all have. */
  lemma {:induction false} TookLess(ts: seq<ThreadItem>, i: nat)
    requires i < |ts| && Took(ts[i]) == 0
    ensures Sum(Took, ts) < |ts|
  {
    TookAtMost(ts[1..]);
    if i > 0 {
      TookLess(ts[1..], i - 1);
    }
  }

  lemma {:induction false} TookAtMost(ts: seq<ThreadItem>)
    ensures Sum(Took, ts) <= |ts|
  {
    if ts != [] {
      TookAtMost(ts[1..]);
    }
  }

  lemma NoDeadlock(c: Config, s: State)
    requires c.n > 0 && Reachable(c, s)
    ensures AllFinished(s) || CanStep(c, s)
  {
    InvReachable(c, s);
    if !CanStep(c, s) {
      StuckIsFinished(c, s);
    }
  }

  // Shutdown.

  /** Exit jobs pushed are exit jobs queued plus threads that took one; crawl jobs are taken
      before any exit job. */
  lemma ShutdownIsFifo(c: Config, s: State)
    requires Reachable(c, s)
    ensures ExitsPushed(c, s.coord) == Sum(IsExit, s.jobs) + Sum(Took, s.threads)
    ensures forall i, j | 0 <= i < j < |s.jobs| && s.jobs[i].DoExit? :: s.jobs[j].DoExit?
    ensures (exists t :: t in s.threads && Took(t) > 0) ==> forall j | j in s.jobs :: j.DoExit?
    ensures !Leaving(s.coord) ==> forall t | t in s.threads :: t.pc != Finished
  {
    InvReachable(c, s);
    forall t | t in s.threads && Took(t) > 0
      ensures Leaving(s.coord) && forall j | j in s.jobs :: j.DoExit?
    {
      TookLeavesExits(c, s, t);
    }
    forall t | t in s.threads && t.pc == Finished
      ensures Took(t) > 0
    {
      var i :| 0 <= i < |s.threads| && s.threads[i] == t;
      assert WellFormed(s.threads[i]);
    }
  }

  lemma TookLeavesExits(c: Config, s: State, t: ThreadItem)
    requires ExitLaw(c, s) && FifoLaw(s) && t in s.threads && Took(t) > 0
    ensures Leaving(s.coord) && forall j | j in s.jobs :: j.DoExit?
  {
    Bounds(s);
    var i :| 0 <= i < |s.threads| && s.threads[i] == t;
    AtLeast(Took, s.threads, i);
    forall j | j in s.jobs
      ensures j.DoExit?
    {
      var k :| 0 <= k < |s.jobs| && s.jobs[k] == j;
      AtLeast(IsCrawl, s.jobs, k);
    }
  }

  /** What is left when everything has returned. */
  ghost predicate Clean(c: Config, s: State) {
    && s.jobs == [] && s.jobSem == 0 && s.idle == c.n
    && s.lock == |s.urls| && (s.hist.drained ==> s.lock == 0)
    && s.poolDone == Sum(Done, s.threads) == |s.hist.scheduled| + c.n
    && (forall u | u in s.hist.scheduled :: JobDone(s.hist, u))
    && (s.hist.drained || |s.graph.vertices| == c.capacity)
  }

  lemma FinishedIsClean(c: Config, s: State)
    requires c.n > 0 && Inv(c, s) && AllFinished(s)
    ensures Clean(c, s)
  {
    var ts := s.threads;
    forall t | t in ts
      ensures t.pc == Finished && Took(t) == 1
    {
      var i :| 0 <= i < |ts| && ts[i] == t;
      assert WellFormed(ts[i]);
    }
    FinishedCounts(ts);
    Bounds(s);
    forall u | u in s.hist.scheduled
      ensures JobDone(s.hist, u)
    {
      assert UrlOk(s, u);
      Constant(HasJob(u), ts, 0);
    }
  }

  lemma FinishedCounts(ts: seq<ThreadItem>)
    requires forall t | t in ts :: t.pc == Finished && Took(t) == 1
    ensures Sum(Took, ts) == |ts| && Sum(HoldsToken, ts) == 0 && Sum(Running, ts) == 0 && Sum(Between, ts) == 0
    ensures Sum(Awake, ts) == 0 && Sum(CountsOwn, ts) == 0 && Sum(Uncounted, ts) == 0
  {
  }

  // One job per URL.

  /** In any run each URL is scheduled at most once, makes at most three attempts, pushes at
      most one result, and changes global_lock by 0 if it pushed one and by -1 otherwise once
      its job is over. */
  lemma EachUrlOnce(c: Config, s: State, u: Url)
    requires Reachable(c, s)
    ensures forall i, j | 0 <= i < j < |s.hist.scheduled| :: s.hist.scheduled[i] != s.hist.scheduled[j]
    ensures 0 <= LogOf(s.hist, u).attempts <= 3
    ensures u in s.hist.results ==> u in s.hist.scheduled && Results(s, u) == 1
    ensures u in s.hist.scheduled && Tickets(s, u) == 0 ==> JobDone(s.hist, u)
  {
    InvReachable(c, s);
    assert UrlOk(s, u);
    AttemptsBound(s, u);
  }

  lemma AttemptsBound(s: State, u: Url)
    requires Once(s)
    ensures 0 <= LogOf(s.hist, u).attempts <= 3
  {
    assert UrlOk(s, u);
    Counts(s, u);
    if Sum(HasJob(u), s.threads) > 0 {
      var i := Witness(HasJob(u), s.threads);
      assert JobOk(s.hist, s.threads[i].pc);
    }
  }

  // Completeness.

  /** No result waits: none is queued, and no link of the last one is left to look at. */
  predicate Processed(s: State) {
    !s.coord.SeedPush? && s.urls == [] && Pending(s.coord) == []
  }

  /** Every scheduled URL is reachable. Whenever no result waits, conversely every reachable URL
      was scheduled, and every result is a vertex of the graph. That is so once do_work has left
      because it read 0, and at the end exactly if global_lock is 0. */
  lemma CrawlIsComplete(c: Config, s: State)
    requires Reachable(c, s)
    ensures forall u | u in s.hist.scheduled :: Reach(s.hist.results, c.seed, u)
    ensures Processed(s) ==> forall u :: u in s.hist.scheduled <==> Reach(s.hist.results, c.seed, u)
    ensures Processed(s) ==> forall u | u in s.hist.results :: FindVertex(s.graph, u) >= 0
    ensures s.hist.drained ==> Processed(s)
    ensures c.n > 0 && AllFinished(s) ==> (s.lock == 0 <==> Processed(s))
  {
    InvReachable(c, s);
    if Processed(s) {
      ProcessedIsComplete(c, s);
    }
    if c.n > 0 && AllFinished(s) {
      FinishedIsClean(c, s);
    }
  }

  lemma ProcessedIsComplete(c: Config, s: State)
    requires Inv(c, s) && Processed(s)
    ensures forall u :: u in s.hist.scheduled <==> Reach(s.hist.results, c.seed, u)
    ensures forall u | u in s.hist.results :: FindVertex(s.graph, u) >= 0
  {
    forall u | u in s.hist.results
      ensures FindVertex(s.graph, u) >= 0
    {
      var k := ProcessedHasVertex(c, s, u);
    }
    forall u, v | u in s.hist.results && v in s.hist.results[u]
      ensures v in s.hist.scheduled
    {
      ProcessedIsClosed(c, s, u, v);
    }
    forall u | Reach(s.hist.results, c.seed, u)
      ensures u in s.hist.scheduled
    {
      var p :| Path(s.hist.results, c.seed, p) && p[|p| - 1] == u;
      ClosedHasPath(s.hist.results, c.seed, p, s.hist.scheduled);
    }
  }

  lemma ProcessedHasVertex(c: Config, s: State, u: Url) returns (k: nat)
    requires Inv(c, s) && s.urls == [] && u in s.hist.results
    ensures k < |s.graph.vertices| && s.graph.vertices[k].url == u && s.graph.vertices[k].edges == s.hist.results[u]
    ensures FindVertex(s.graph, u) == k
  {
    assert UrlOk(s, u);
    k := Witness(VertexOf(u), s.graph.vertices);
    assert IsResult(s.hist, s.graph.vertices[k].url, s.graph.vertices[k].edges);
  }

  lemma ProcessedIsClosed(c: Config, s: State, u: Url, v: Url)
    requires Inv(c, s) && Processed(s) && u in s.hist.results && v in s.hist.results[u]
    ensures v in s.hist.scheduled
  {
    var k := ProcessedHasVertex(c, s, u);
    EdgeIsScheduled(s, k, v);
  }

  lemma EdgeIsScheduled(s: State, k: nat, v: Url)
    requires ClosureLaw(s) && Pending(s.coord) == []
    requires k < |s.graph.vertices| && v in s.graph.vertices[k].edges
    ensures v in s.hist.scheduled
  {
  }

  /** How local the crawl is: in every reachable state every scheduled URL other than the seed ends
      like a page and begins with the domain or is shorter than it. */
  lemma CrawlIsLocal(c: Config, s: State, u: Url)
    requires Reachable(c, s) && u in s.hist.scheduled && u != c.seed
    ensures Filter.IsPage(u) && (c.domain <= u || |u| < |c.domain|)
  {
    InvReachable(c, s);
    ReachedPasses(c, s, u);
    Filter.CheckIff(c.domain, u);
  }

  /** At any time the graph is exactly a set of results: vertex k stands for one URL, carries
      the links of its result as edges, and no other vertex stands for the same URL. */
  lemma GraphIsResults(c: Config, s: State, k: nat)
    requires Reachable(c, s) && k < |s.graph.vertices|
    ensures var v := s.graph.vertices[k];
            IsResult(s.hist, v.url, v.edges) && FindVertex(s.graph, v.url) == k
  {
    InvReachable(c, s);
  }
}
