/** Runs that exist: concrete schedules which show that the exact conditions of the theorems are
    met in all their cases. Only pool thread 0 runs, whatever the size of the pool. */
module Scenarios {
  import opened Bytes
  import opened WebGraph
  import opened Protocol
  import opened Completeness
  import opened Theorems

  /** A run can be extended by any enabled action. */
  lemma Go(c: Config, s: State, a: Action) returns (t: State)
    requires Reachable(c, s) && Enabled(s, a)
    ensures t == Next(c, s, a) && Reachable(c, t)
  {
    t := Next(c, s, a);
    var run :| Run(c, run) && run[|run| - 1] == s;
    var longer := run + [t];
    forall k | 0 <= k < |longer| - 1
      ensures Step(c, longer[k], longer[k + 1])
    {
      if k < |run| - 1 {
        assert Step(c, run[k], run[k + 1]);
      }
    }
    assert Run(c, longer) && longer[|longer| - 1] == t;
  }

  lemma Starts(c: Config) returns (s: State)
    ensures s == Init(c) && Reachable(c, s)
  {
    s := Init(c);
    assert Run(c, [s]);
  }

  // Pieces of a schedule.

  function First(s: State): ThreadItem
    requires s.threads != []
  {
    s.threads[0]
  }

  function Seeded(c: Config): State {
    Init(c).(jobs := [DoCrawler(c.seed)], jobSem := 1, lock := 1, coord := Test,
             hist := History([c.seed], map[], map[], 1, false))
  }

  lemma MainSeeds(c: Config) returns (t: State)
    ensures t == Seeded(c) && Reachable(c, t)
  {
    t := Starts(c);
    t := Go(c, t, OfCoordinator);
    t := Go(c, t, OfCoordinator);
    t := Go(c, t, OfCoordinator);
  }

  lemma Waits(c: Config, s: State) returns (t: State)
    requires Reachable(c, s) && !s.fault && s.threads != [] && First(s).pc == Loop && First(s).busy && s.jobSem > 0
    ensures Reachable(c, t) && t == Goto(s, 0, LessIdle).(jobSem := s.jobSem - 1)
  {
    var a := OfThread(0, Fetch(OK, []));
    t := Go(c, s, a);
    t := Go(c, t, a);
  }

  lemma Takes(c: Config, s: State, u: Url) returns (t: State)
    requires Reachable(c, s) && !s.fault && s.threads != [] && First(s).pc == LessIdle
    requires s.jobs != [] && s.jobs[0] == DoCrawler(u)
    ensures Reachable(c, t)
    ensures t == Goto(s, 0, Fetching(u, ATTEMPTS)).(jobs := s.jobs[1..], idle := s.idle - 1)
  {
    var a := OfThread(0, Fetch(OK, []));
    t := Go(c, s, a);
    t := Go(c, t, a);
  }

  /** From the head of its loop the thread takes the first job. */
  lemma TakesJob(c: Config, s: State, u: Url) returns (t: State)
    requires Reachable(c, s) && !s.fault && s.threads != [] && First(s).pc == Loop && First(s).busy
    requires s.jobSem > 0 && s.jobs != [] && s.jobs[0] == DoCrawler(u)
    ensures Reachable(c, t)
    ensures t == Goto(s, 0, Fetching(u, ATTEMPTS)).(jobs := s.jobs[1..], jobSem := s.jobSem - 1, idle := s.idle - 1)
  {
    t := Waits(c, s);
    t := Takes(c, t, u);
  }

  lemma SeedIsTaken(c: Config) returns (t: State)
    requires c.n > 0
    ensures Reachable(c, t)
    ensures t == Put(Seeded(c), 0, ThreadItem(Fetching(c.seed, ATTEMPTS), true, 0)).(
                   jobs := [], jobSem := 0, idle := c.n - 1)
  {
    t := MainSeeds(c);
    t := Go(c, t, OfThread(0, Fetch(OK, [])));
    t := TakesJob(c, t, c.seed);
  }

  lemma Fetches(c: Config, s: State, u: Url, f: Fetch) returns (t: State)
    requires Reachable(c, s) && !s.fault && s.threads != [] && First(s).pc == Fetching(u, ATTEMPTS)
    ensures Reachable(c, t)
    ensures t == Goto(s, 0, AfterFetch(c, u, ATTEMPTS, f)).(hist := t.hist)
    ensures t.hist.scheduled == s.hist.scheduled
  {
    t := Go(c, s, OfThread(0, f));
  }

  /** The thread fetches a page that yields nothing, and gives up its unit. */
  lemma FetchesNothing(c: Config, s: State, u: Url) returns (t: State)
    requires Reachable(c, s) && !s.fault && s.threads != [] && First(s).pc == Fetching(u, ATTEMPTS)
    ensures Reachable(c, t)
    ensures t == Goto(s, 0, PostDone(u)).(lock := s.lock - 1, hist := t.hist)
  {
    t := Fetches(c, s, u, Fetch(NONEED, []));
    t := Go(c, t, OfThread(0, Fetch(OK, [])));
  }

  lemma Pushes(c: Config, s: State, u: Url, links: seq<Url>) returns (t: State)
    requires Reachable(c, s) && !s.fault && s.threads != [] && First(s).pc == PushResult(u, links)
    ensures Reachable(c, t)
    ensures t == Goto(s, 0, RaiseLock(u)).(urls := s.urls + [LinkInfo(u, links)], hist := t.hist)
    ensures t.hist.scheduled == s.hist.scheduled
  {
    t := Go(c, s, OfThread(0, Fetch(OK, [])));
  }

  /** The thread fetches a page with one link, and pushes the result. */
  lemma PushesResult(c: Config, s: State, u: Url, x: Url) returns (t: State)
    requires Reachable(c, s) && !s.fault && s.threads != [] && First(s).pc == Fetching(u, ATTEMPTS)
    requires Filter.Check(c.domain, x)
    ensures Reachable(c, t)
    ensures t == Goto(s, 0, RaiseLock(u)).(urls := s.urls + [LinkInfo(u, [x])], hist := t.hist)
    ensures t.hist.scheduled == s.hist.scheduled
  {
    Filter.OneIsKept(c.domain, x);
    t := Fetches(c, s, u, Fetch(OK, [x]));
    t := Pushes(c, t, u, [x]);
  }

  lemma Announces(c: Config, s: State, u: Url) returns (t: State)
    requires Reachable(c, s) && !s.fault && s.threads != [] && First(s).pc == RaiseLock(u)
    ensures Reachable(c, t)
    ensures t == Goto(s, 0, LowerLock(u)).(lock := s.lock + 1, workSem := s.workSem + 1, hist := t.hist)
    ensures t.hist.scheduled == s.hist.scheduled
  {
    var a := OfThread(0, Fetch(OK, []));
    t := Go(c, s, a);
    t := Go(c, t, a);
  }

  lemma EndsCrawl(c: Config, s: State, u: Url) returns (t: State)
    requires Reachable(c, s) && !s.fault && s.threads != [] && First(s).pc == LowerLock(u)
    ensures Reachable(c, t)
    ensures t == Goto(s, 0, MoreIdle).(lock := s.lock - 1, workSem := s.workSem + 1, hist := t.hist)
    ensures t.hist.scheduled == s.hist.scheduled
  {
    var a := OfThread(0, Fetch(OK, []));
    t := Go(c, s, a);
    t := Go(c, t, a);
  }

  lemma CountsForPool(c: Config, s: State) returns (t: State)
    requires Reachable(c, s) && !s.fault && s.threads != [] && First(s).pc == MoreIdle
    ensures Reachable(c, t)
    ensures t == Goto(s, 0, CountOwn).(idle := s.idle + 1, poolDone := s.poolDone + 1)
  {
    var a := OfThread(0, Fetch(OK, []));
    t := Go(c, s, a);
    t := Go(c, t, a);
  }

  lemma CountsForSelf(c: Config, s: State) returns (t: State)
    requires Reachable(c, s) && !s.fault && s.threads != [] && First(s).pc == CountOwn
    ensures Reachable(c, t) && t == Put(s, 0, First(s).(pc := Loop, done := First(s).done + 1))
  {
    t := Go(c, s, OfThread(0, Fetch(OK, [])));
  }

  /** The thread ends its job and returns to the head of its loop. */
  lemma EndsJob(c: Config, s: State, u: Url) returns (t: State)
    requires Reachable(c, s) && !s.fault && s.threads != [] && First(s).pc == LowerLock(u)
    ensures Reachable(c, t)
    ensures t == Put(s, 0, First(s).(pc := Loop, done := First(s).done + 1)).(
                   lock := s.lock - 1, workSem := s.workSem + 1, idle := s.idle + 1,
                   poolDone := s.poolDone + 1, hist := t.hist)
    ensures t.hist.scheduled == s.hist.scheduled
  {
    t := EndsCrawl(c, s, u);
    t := CountsForPool(c, t);
    t := CountsForSelf(c, t);
  }

  lemma PopAdds(c: Config, s: State)
    requires Reachable(c, s) && s.coord == Pop && s.urls != []
    ensures var t := CoordStep(c, s);
            && !t.fault && |t.graph.vertices| == |s.graph.vertices| + 1
            && t == s.(urls := s.urls[1..], graph := t.graph, coord := Scan(s.urls[0].links))
  {
    InvReachable(c, s);
    PopInserts(c, s);
  }

  lemma WaitsForResult(c: Config, s: State) returns (t: State)
    requires Reachable(c, s) && !s.fault && s.coord == Test && s.lock != 0 && |s.graph.vertices| < c.capacity
    requires s.workSem > 0 && s.urls != []
    ensures Reachable(c, t) && t == s.(workSem := s.workSem - 1, coord := Pop)
  {
    t := Go(c, s, OfCoordinator);
    t := Go(c, t, OfCoordinator);
    assert t == s.(workSem := s.workSem - 1, coord := Size);
    t := Go(c, t, OfCoordinator);
  }

  /** The coordinator takes a token and pops a result. */
  lemma PopsResult(c: Config, s: State) returns (t: State)
    requires Reachable(c, s) && !s.fault && s.coord == Test && s.lock != 0 && |s.graph.vertices| < c.capacity
    requires s.workSem > 0 && s.urls != []
    ensures Reachable(c, t) && !t.fault && |t.graph.vertices| == |s.graph.vertices| + 1
    ensures t == s.(workSem := s.workSem - 1, urls := s.urls[1..], graph := t.graph, coord := Scan(s.urls[0].links))
  {
    var p := WaitsForResult(c, s);
    PopAdds(c, p);
    t := Go(c, p, OfCoordinator);
  }

  lemma LinkStatus(c: Config, s: State, x: Url)
    requires Reachable(c, s) && s.coord == Scan([x])
    ensures x in s.graph.infos && (s.graph.infos[x].marked <==> x in s.hist.scheduled)
  {
    InvReachable(c, s);
    NextLinkIsKnown(c, s);
  }

  /** The coordinator pushes a job for its next link, if that is not scheduled yet. */
  lemma PushesJob(c: Config, s: State, x: Url) returns (t: State)
    requires Reachable(c, s) && !s.fault && s.coord == Scan([x]) && x !in s.hist.scheduled
    ensures Reachable(c, t) && |t.graph.vertices| == |s.graph.vertices|
    ensures t == PushJob(s, DoCrawler(x)).(graph := t.graph, coord := JobCount([]))
  {
    LinkStatus(c, s, x);
    assert [x][1..] == [];
    t := Go(c, s, OfCoordinator);
  }

  /** The coordinator passes over a link that is already scheduled. */
  lemma SkipsLink(c: Config, s: State, x: Url) returns (t: State)
    requires Reachable(c, s) && !s.fault && s.coord == Scan([x]) && x in s.hist.scheduled
    ensures Reachable(c, t) && t == s.(lock := s.lock - 1, coord := Test)
  {
    LinkStatus(c, s, x);
    assert [x][1..] == [];
    t := Go(c, s, OfCoordinator);
    t := Releases(c, t);
  }

  lemma Releases(c: Config, s: State) returns (t: State)
    requires Reachable(c, s) && !s.fault && s.coord == Scan([])
    ensures Reachable(c, t) && t == s.(lock := s.lock - 1, coord := Test)
  {
    t := Go(c, s, OfCoordinator);
    t := Go(c, t, OfCoordinator);
  }

  lemma CountsJob(c: Config, s: State) returns (t: State)
    requires Reachable(c, s) && !s.fault && s.coord == JobCount([])
    ensures Reachable(c, t) && t == s.(jobSem := s.jobSem + 1, coord := Test)
  {
    t := Go(c, s, OfCoordinator);
    t := Go(c, t, OfCoordinator);
    t := Releases(c, t);
  }

  // What can be scheduled.

  /** The page of the seed lists x, and x becomes a job while the seed's job is still running. */
  lemma LinkIsScheduled(c: Config, x: Url) returns (t: State)
    requires c.n > 0 && c.capacity > 0 && Filter.Check(c.domain, x) && x != c.seed
    ensures Reachable(c, t) && !t.fault && t.coord == JobCount([]) && t.jobs == [DoCrawler(x)]
    ensures |t.threads| == c.n && First(t) == ThreadItem(LowerLock(c.seed), true, 0)
    ensures t.hist.scheduled == [c.seed, x] && t.urls == [] && |t.graph.vertices| == 1
    ensures t.lock == 2 && t.workSem == 0 && t.jobSem == 0
  {
    t := SeedIsTaken(c);
    t := PushesResult(c, t, c.seed, x);
    t := Announces(c, t, c.seed);
    t := PopsResult(c, t);
    t := PushesJob(c, t, x);
  }

  /** Exactly the seed and the page names that begin with the domain or are shorter than it are
      scheduled in some run, short foreign ones among them. */
  lemma SchedulableIff(c: Config, u: Url)
    requires c.n > 0 && c.capacity > 0
    ensures (exists s :: Reachable(c, s) && u in s.hist.scheduled) <==>
              u == c.seed || (Filter.IsPage(u) && (c.domain <= u || |u| < |c.domain|))
  {
    Filter.CheckIff(c.domain, u);
    if u == c.seed {
      var s := MainSeeds(c);
      assert u in s.hist.scheduled;
    } else if Filter.Check(c.domain, u) {
      var s := LinkIsScheduled(c, u);
      assert u in s.hist.scheduled;
    } else {
      forall s | Reachable(c, s) && u in s.hist.scheduled
        ensures false
      {
        CrawlIsLocal(c, s, u);
      }
    }
  }

  // Reading 0 while a crawler runs.

  /** do_work can read 0 while a crawler has not posted the end of its job yet. */
  lemma ZeroBeforeLastPost(c: Config) returns (t: State)
    requires c.n > 0
    ensures Reachable(c, t) && t.coord == Test && t.lock == 0 && t.threads != [] && First(t).pc == PostDone(c.seed)
  {
    t := SeedIsTaken(c);
    t := FetchesNothing(c, t, c.seed);
  }

  /** A link that passes `check`, other than the seed. */
  lemma SomeLink(c: Config) returns (x: Url)
    ensures Filter.Check(c.domain, x) && x != c.seed
  {
    var a: Url, b: Url := c.domain + [97] + Filter.HTML, c.domain + [98] + Filter.HTML;
    assert a[|c.domain|] != b[|c.domain|];
    x := if a == c.seed then b else a;
    assert x[..|c.domain|] == c.domain && x[|x| - 5..] == Filter.HTML;
  }

  /** do_work can read 0 while a crawler stands between the push of its result and the increase:
      an older token made the coordinator process that result already. */
  lemma ZeroBeforeIncrease(c: Config) returns (t: State, x: Url)
    requires c.n > 0 && c.capacity > 1
    ensures Reachable(c, t) && t.coord == Test && t.lock == 0 && t.threads != [] && First(t).pc == RaiseLock(x)
  {
    x := SomeLink(c);
    t := LinkIsScheduled(c, x);
    t := EndsJob(c, t, c.seed);
    t := CountsJob(c, t);
    t := TakesJob(c, t, x);
    t := PushesResult(c, t, x, x);
    t := PopsResult(c, t);
    t := SkipsLink(c, t, x);
  }
}
