/** What holds of each single URL: at most one crawl job, at most three attempts, at most one
    result, and the share of its job in global_lock. */
module JobsOnce {
  import opened WebGraph
  import opened Protocol
  import opened Sums
  import opened Accounting

  // Weights that follow one URL.

  function JobOf(u: Url): Job -> int { (j: Job) => One(j == DoCrawler(u)) }

  function HasJob(u: Url): ThreadItem -> int { (t: ThreadItem) => One(InCrawler(t.pc) && t.pc.url == u) }

  function ResultOf(u: Url): LinkInfo -> int { (l: LinkInfo) => One(l.url == u) }

  function VertexOf(u: Url): Vertex -> int { (v: Vertex) => One(v.url == u) }

  /** Jobs of u that are queued or running. */
  ghost function Tickets(s: State, u: Url): int {
    Sum(JobOf(u), s.jobs) + Sum(HasJob(u), s.threads)
  }

  /** Results of u that are queued or in the graph. */
  ghost function Results(s: State, u: Url): int {
    Sum(ResultOf(u), s.urls) + Sum(VertexOf(u), s.graph.vertices)
  }

  ghost predicate UrlOk(s: State, u: Url) {
    var l := LogOf(s.hist, u);
    && Tickets(s, u) <= 1
    && Results(s, u) == One(u in s.hist.results)
    && (u !in s.hist.scheduled ==> Tickets(s, u) == 0 && u !in s.hist.results && l == JobLog(0, 0))
    && (Sum(JobOf(u), s.jobs) == 1 ==> u !in s.hist.results && l == JobLog(0, 0))
    && (u in s.hist.scheduled && Tickets(s, u) == 0 ==> JobDone(s.hist, u))
  }

  /** A finished crawl job: one to three attempts; it leaves global_lock as it was if it
      pushed a result, and lowers it by one otherwise. */
  ghost predicate JobDone(h: History, u: Url) {
    && 1 <= LogOf(h, u).attempts <= 3
    && LogOf(h, u).lock == if u in h.results then 0 else -1
  }

  /** The log of a job that a thread is running, at each program point. */
  ghost predicate JobOk(h: History, pc: Pc)
    requires InCrawler(pc)
  {
    var u := pc.url;
    var l := LogOf(h, u);
    match pc
    case Fetching(_, left) => l.attempts == ATTEMPTS - left && l.lock == 0 && u !in h.results && 1 <= left <= ATTEMPTS
    case PushResult(_, _) => 1 <= l.attempts <= ATTEMPTS && l.lock == 0 && u !in h.results
    case RaiseLock(_) => 1 <= l.attempts <= ATTEMPTS && l.lock == 0 && u in h.results
    case PostWork(_) => 1 <= l.attempts <= ATTEMPTS && l.lock == 1 && u in h.results
    case LowerLock(_) => 1 <= l.attempts <= ATTEMPTS && l.lock == One(u in h.results)
    case PostDone(_) => JobDone(h, u)
    case _ => true
  }

  /** What each of the nine codes does to a job with `left` attempts to go: a page with links is
      pushed, four codes are tried again while an attempt is left, and everything else ends it. */
  lemma FetchEndsOrRepeats(c: Config, u: Url, left: nat, f: Fetch)
    ensures var pc := AfterFetch(c, u, left, f);
            match f.code
            case TIMEOUT => pc == if left > 1 then Fetching(u, left - 1) else LowerLock(u)
            case OVERFLOW => pc == if left > 1 then Fetching(u, left - 1) else LowerLock(u)
            case FAILED => pc == if left > 1 then Fetching(u, left - 1) else LowerLock(u)
            case UNREACH => pc == if left > 1 then Fetching(u, left - 1) else LowerLock(u)
            case OK => if f.raw == [] then pc == LowerLock(u) else pc == PushResult(u, Filter.Links(c.domain, f.raw))
            case NONEED => pc == LowerLock(u)
            case BREAK => pc == LowerLock(u)
            case UNKNOWN => pc == LowerLock(u)
            case NULL => pc == LowerLock(u)
  {
  }

  ghost predicate ThreadsOk(s: State) {
    forall i | 0 <= i < |s.threads| && InCrawler(s.threads[i].pc) :: JobOk(s.hist, s.threads[i].pc)
  }

  ghost predicate Once(s: State) {
    && (forall u :: UrlOk(s, u))
    && ThreadsOk(s)
    && (forall i, j | 0 <= i < j < |s.hist.scheduled| :: s.hist.scheduled[i] != s.hist.scheduled[j])
  }

  lemma OnceInit(c: Config)
    ensures Once(Init(c))
  {
    forall u
      ensures UrlOk(Init(c), u)
    {
      Constant(HasJob(u), Init(c).threads, 0);
    }
  }

  lemma Counts(s: State, u: Url)
    ensures Sum(JobOf(u), s.jobs) >= 0 && Sum(HasJob(u), s.threads) >= 0
    ensures Sum(ResultOf(u), s.urls) >= 0 && Sum(VertexOf(u), s.graph.vertices) >= 0
  {
    NonNegative(JobOf(u), s.jobs);
    NonNegative(HasJob(u), s.threads);
    NonNegative(ResultOf(u), s.urls);
    NonNegative(VertexOf(u), s.graph.vertices);
  }

  /** Two threads never run jobs of the same URL. */
  lemma OnlyRunner(s: State, i: nat, j: nat)
    requires Once(s) && i < |s.threads| && j < |s.threads| && i != j
    requires InCrawler(s.threads[i].pc) && InCrawler(s.threads[j].pc)
    ensures s.threads[i].pc.url != s.threads[j].pc.url
  {
    var u := s.threads[i].pc.url;
    assert UrlOk(s, u);
    Counts(s, u);
    if i < j {
      AtLeastTwo(HasJob(u), s.threads, i, j);
    } else {
      AtLeastTwo(HasJob(u), s.threads, j, i);
    }
  }

  /** The URLs of all results, processed or queued. */
  function Names(s: State): seq<Url> {
    seq(|s.graph.vertices|, i requires 0 <= i < |s.graph.vertices| => s.graph.vertices[i].url)
    + seq(|s.urls|, i requires 0 <= i < |s.urls| => s.urls[i].url)
  }

  lemma NamesDiffer(s: State, i: nat, j: nat)
    requires Once(s) && i < j < |Names(s)|
    ensures Names(s)[i] != Names(s)[j]
  {
    var u, n := Names(s)[i], |s.graph.vertices|;
    if u == Names(s)[j] {
      assert UrlOk(s, u);
      Counts(s, u);
      if j < n {
        AtLeastTwo(VertexOf(u), s.graph.vertices, i, j);
      } else if i < n {
        AtLeast(VertexOf(u), s.graph.vertices, i);
        AtLeast(ResultOf(u), s.urls, j - n);
      } else {
        AtLeastTwo(ResultOf(u), s.urls, i - n, j - n);
      }
    }
  }

  lemma NamesAreResults(s: State, u: Url)
    requires Once(s)
    ensures u in Names(s) <==> u in s.hist.results
  {
    assert UrlOk(s, u);
    Counts(s, u);
    var n := |s.graph.vertices|;
    if u in Names(s) {
      var i :| 0 <= i < |Names(s)| && Names(s)[i] == u;
      if i < n {
        AtLeast(VertexOf(u), s.graph.vertices, i);
      } else {
        AtLeast(ResultOf(u), s.urls, i - n);
      }
    }
    if u in s.hist.results {
      if Sum(VertexOf(u), s.graph.vertices) > 0 {
        var i := Witness(VertexOf(u), s.graph.vertices);
        assert Names(s)[i] == u;
      } else {
        var i := Witness(ResultOf(u), s.urls);
        assert Names(s)[n + i] == u;
      }
    }
  }

  /** Every result ever pushed is a vertex or still queued, and no two are the same. */
  lemma ResultsCounted(s: State)
    requires Once(s)
    ensures |s.hist.results| == |s.graph.vertices| + |s.urls|
  {
    forall i, j | 0 <= i < j < |Names(s)|
      ensures Names(s)[i] != Names(s)[j]
    {
      NamesDiffer(s, i, j);
    }
    forall u
      ensures u in s.hist.results.Keys <==> u in Names(s)
    {
      NamesAreResults(s, u);
    }
    DistinctSize(Names(s), s.hist.results.Keys);
  }

  /** A URL that a thread is running has exactly that ticket. */
  lemma RunnerTicket(s: State, i: nat)
    requires Once(s) && i < |s.threads| && InCrawler(s.threads[i].pc)
    ensures var u := s.threads[i].pc.url;
            Sum(HasJob(u), s.threads) == 1 && Sum(JobOf(u), s.jobs) == 0 && u in s.hist.scheduled
  {
    var u := s.threads[i].pc.url;
    assert UrlOk(s, u);
    Counts(s, u);
    AtLeast(HasJob(u), s.threads, i);
  }

  // A step of a pool thread.

  /** Changing thread i changes the running count of v by the difference for that thread. */
  lemma RunnerChange(s: State, t: State, i: nat, v: Url)
    requires i < |s.threads| && |t.threads| == |s.threads| && t.threads == s.threads[i := t.threads[i]]
    ensures Sum(HasJob(v), t.threads)
         == Sum(HasJob(v), s.threads) - HasJob(v)(s.threads[i]) + HasJob(v)(t.threads[i])
  {
    Update(s.threads, i, t.threads[i]);
  }

  /** do_crawler touches the log, the results and the queue entries of its own URL only. */
  lemma CrawlerTouchesOwnUrl(c: Config, s: State, i: nat, f: Fetch, v: Url)
    requires i < |s.threads| && InCrawler(s.threads[i].pc)
    ensures var t := CrawlerStep(c, s, i, f);
            && |t.threads| == |s.threads| && t.threads == s.threads[i := t.threads[i]]
            && t.jobs == s.jobs && t.graph == s.graph && t.hist.scheduled == s.hist.scheduled
            && (InCrawler(t.threads[i].pc) ==> t.threads[i].pc.url == s.threads[i].pc.url)
            && (v != s.threads[i].pc.url ==>
                  && LogOf(t.hist, v) == LogOf(s.hist, v)
                  && (v in t.hist.results <==> v in s.hist.results)
                  && Sum(ResultOf(v), t.urls) == Sum(ResultOf(v), s.urls))
  {
    var pc := s.threads[i].pc;
    if pc.PushResult? {
      Push(s.urls, LinkInfo(pc.url, pc.links));
    }
  }

  /** The step of a crawler moves its own job from one program point to the next. */
  lemma CrawlerMovesOwnJob(c: Config, s: State, i: nat, f: Fetch)
    requires i < |s.threads| && InCrawler(s.threads[i].pc) && JobOk(s.hist, s.threads[i].pc)
    ensures var t := CrawlerStep(c, s, i, f);
            var u := s.threads[i].pc.url;
            && (if InCrawler(t.threads[i].pc) then JobOk(t.hist, t.threads[i].pc) else JobDone(t.hist, u))
            && (u in t.hist.results <==> u in s.hist.results || s.threads[i].pc.PushResult?)
            && Sum(ResultOf(u), t.urls) == Sum(ResultOf(u), s.urls) + One(s.threads[i].pc.PushResult?)
  {
    CrawlerQueuesOwnUrl(c, s, i, f);
  }

  lemma CrawlerQueuesOwnUrl(c: Config, s: State, i: nat, f: Fetch)
    requires i < |s.threads| && InCrawler(s.threads[i].pc)
    ensures var u, t := s.threads[i].pc.url, CrawlerStep(c, s, i, f);
            Sum(ResultOf(u), t.urls) == Sum(ResultOf(u), s.urls) + One(s.threads[i].pc.PushResult?)
  {
    var pc := s.threads[i].pc;
    if pc.PushResult? {
      Push(s.urls, LinkInfo(pc.url, pc.links));
    }
  }

  lemma CrawlerKeepsUrl(c: Config, s: State, i: nat, f: Fetch, v: Url)
    requires Once(s) && i < |s.threads| && InCrawler(s.threads[i].pc)
    ensures UrlOk(CrawlerStep(c, s, i, f), v)
  {
    var t := CrawlerStep(c, s, i, f);
    assert UrlOk(s, v);
    CrawlerTouchesOwnUrl(c, s, i, f, v);
    RunnerChange(s, t, i, v);
    if v == s.threads[i].pc.url {
      RunnerTicket(s, i);
      CrawlerMovesOwnJob(c, s, i, f);
    }
  }

  lemma CrawlerKeepsOnce(c: Config, s: State, i: nat, f: Fetch)
    requires Once(s) && i < |s.threads| && InCrawler(s.threads[i].pc)
    ensures Once(CrawlerStep(c, s, i, f))
  {
    var t := CrawlerStep(c, s, i, f);
    forall v
      ensures UrlOk(t, v)
    {
      CrawlerKeepsUrl(c, s, i, f, v);
    }
    CrawlerTouchesOwnUrl(c, s, i, f, s.threads[i].pc.url);
    forall j | 0 <= j < |t.threads| && InCrawler(t.threads[j].pc)
      ensures JobOk(t.hist, t.threads[j].pc)
    {
      if j == i {
        CrawlerMovesOwnJob(c, s, i, f);
      } else {
        OnlyRunner(s, i, j);
        CrawlerTouchesOwnUrl(c, s, i, f, s.threads[j].pc.url);
      }
    }
  }

  /** Taking a crawl job turns its queue ticket into a running ticket. */
  lemma TakeKeepsUrl(s: State, i: nat, v: Url)
    requires Once(s) && i < |s.threads| && s.threads[i].pc == TakeJob && s.jobs != []
    ensures UrlOk(PoolStep(s, i), v)
  {
    var t := PoolStep(s, i);
    assert UrlOk(s, v);
    TakeMovesTicket(s, i, v);
    Counts(s, v);
    assert t.hist == s.hist && Results(t, v) == Results(s, v);
  }

  lemma TakeMovesTicket(s: State, i: nat, v: Url)
    requires i < |s.threads| && s.threads[i].pc == TakeJob && s.jobs != []
    ensures var t := PoolStep(s, i);
            && Sum(JobOf(v), t.jobs) == Sum(JobOf(v), s.jobs) - One(s.jobs[0] == DoCrawler(v))
            && Sum(HasJob(v), t.threads) == Sum(HasJob(v), s.threads) + One(s.jobs[0] == DoCrawler(v))
  {
    RunnerChange(s, PoolStep(s, i), i, v);
  }

  lemma TakeKeepsOnce(s: State, i: nat)
    requires Once(s) && i < |s.threads| && s.threads[i].pc == TakeJob && s.jobs != []
    ensures Once(PoolStep(s, i))
  {
    forall v
      ensures UrlOk(PoolStep(s, i), v)
    {
      TakeKeepsUrl(s, i, v);
    }
    if s.jobs[0].DoCrawler? {
      var u := s.jobs[0].url;
      assert UrlOk(s, u);
      Counts(s, u);
      AtLeast(JobOf(u), s.jobs, 0);
    }
  }

  lemma ThreadKeepsOnce(c: Config, s: State, i: nat, f: Fetch)
    requires Once(s) && Enabled(s, OfThread(i, f)) && !ThreadStep(c, s, i, f).fault
    ensures Once(ThreadStep(c, s, i, f))
  {
    var pc := s.threads[i].pc;
    if InCrawler(pc) {
      CrawlerKeepsOnce(c, s, i, f);
    } else if pc.TakeJob? {
      TakeKeepsOnce(s, i);
    } else {
      BetweenJobs(c, s, i, f);
      BetweenJobsKeepsOnce(s, ThreadStep(c, s, i, f), i);
    }
  }

  /** The steps of a thread that starts no crawl job and runs none. */
  lemma BetweenJobs(c: Config, s: State, i: nat, f: Fetch)
    requires Enabled(s, OfThread(i, f)) && !InCrawler(s.threads[i].pc) && !s.threads[i].pc.TakeJob?
    ensures var t := ThreadStep(c, s, i, f);
            && |t.threads| == |s.threads| && t.threads == s.threads[i := t.threads[i]]
            && !InCrawler(t.threads[i].pc)
            && t.jobs == s.jobs && t.urls == s.urls && t.graph == s.graph && t.hist == s.hist
  {
  }

  lemma BetweenJobsKeepsOnce(s: State, t: State, i: nat)
    requires Once(s) && i < |s.threads| == |t.threads| && t.threads == s.threads[i := t.threads[i]]
    requires !InCrawler(s.threads[i].pc) && !InCrawler(t.threads[i].pc)
    requires t.jobs == s.jobs && t.urls == s.urls && t.graph == s.graph && t.hist == s.hist
    ensures Once(t)
  {
    forall v
      ensures UrlOk(t, v)
    {
      assert UrlOk(s, v);
      RunnerChange(s, t, i, v);
    }
  }

  // A step of the coordinator.

  /** Scheduling a URL that was not scheduled gives it its one ticket. */
  lemma ScheduleKeepsOnce(s: State, t: State, u: Url)
    requires Once(s) && u !in s.hist.scheduled
    requires t.threads == s.threads && t.urls == s.urls && t.graph.vertices == s.graph.vertices
    requires t.jobs == s.jobs + [DoCrawler(u)]
    requires t.hist.scheduled == s.hist.scheduled + [u]
    requires t.hist.results == s.hist.results && t.hist.log == s.hist.log
    ensures Once(t)
  {
    forall v
      ensures UrlOk(t, v)
    {
      assert UrlOk(s, v) && UrlOk(s, u);
      Counts(s, u);
      Push(s.jobs, DoCrawler(u));
    }
  }

  /** Popping a result moves it from the queue to the graph. */
  lemma PopKeepsOnce(s: State, t: State, g: Vertex)
    requires Once(s) && s.urls != [] && g.url == s.urls[0].url
    requires t.threads == s.threads && t.jobs == s.jobs && t.hist == s.hist
    requires t.urls == s.urls[1..] && t.graph.vertices == s.graph.vertices + [g]
    ensures Once(t)
  {
    forall v
      ensures UrlOk(t, v)
    {
      assert UrlOk(s, v);
      Push(s.graph.vertices, g);
    }
  }

  /** The other steps of the coordinator leave everything that follows URLs alone; an exit job
      carries no URL. */
  lemma OtherKeepsOnce(s: State, t: State)
    requires Once(s)
    requires t.threads == s.threads && t.urls == s.urls && t.graph.vertices == s.graph.vertices
    requires t.jobs == s.jobs || t.jobs == s.jobs + [DoExit]
    requires t.hist.scheduled == s.hist.scheduled
    requires t.hist.results == s.hist.results && t.hist.log == s.hist.log
    ensures Once(t)
  {
    forall v
      ensures UrlOk(t, v)
    {
      assert UrlOk(s, v);
      Push(s.jobs, DoExit);
    }
  }
}
