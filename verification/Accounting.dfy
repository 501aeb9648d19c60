/** The counting invariants of the crawl: what each counter and semaphore is equal to, with a
    correction for every thread that stands between two operations that belong together. */
module Accounting {
  import opened WebGraph
  import opened Protocol
  import opened Sums

  // Weights of threads and jobs.

  function One(b: bool): int { if b then 1 else 0 }

  /** Holds its unit of global_lock. */
  function Running(t: ThreadItem): int { One(InCrawler(t.pc) && !t.pc.PostDone?) }

  /** Pushed its result and has not raised global_lock for it yet. */
  function Between(t: ThreadItem): int { One(t.pc.RaiseLock?) }

  /** Pushed its result and has not posted work_sem for it yet. */
  function Unposted(t: ThreadItem): int { One(t.pc.RaiseLock? || t.pc.PostWork?) }

  /** Runs do_crawler, so it will still post work_sem at least once. */
  function Crawling(t: ThreadItem): int { One(InCrawler(t.pc)) }

  /** Took a token of job_sem and has not taken the job. */
  function HoldsToken(t: ThreadItem): int { One(t.pc.LessIdle? || t.pc.TakeJob?) }

  /** Between the decrease and the increase of thread_idle. */
  function Awake(t: ThreadItem): int { One(t.pc.TakeJob? || InCrawler(t.pc) || t.pc.SetIdle? || t.pc.MoreIdle?) }

  /** Took a job that the pool's job_done does not count yet. */
  function Uncounted(t: ThreadItem): int { One(InCrawler(t.pc) || t.pc.SetIdle? || t.pc.MoreIdle? || t.pc.CountPool?) }

  /** Counted a job for the pool and not for itself yet. */
  function CountsOwn(t: ThreadItem): int { One(t.pc.CountOwn?) }

  /** Took its exit job. */
  function Took(t: ThreadItem): int { One(t.pc.SetIdle? || (!t.pc.Start? && !t.busy)) }

  function Done(t: ThreadItem): int { t.done }

  function IsCrawl(j: Job): int { One(j.DoCrawler?) }

  function IsExit(j: Job): int { One(j.DoExit?) }

  // Corrections for the coordinator.

  /** Pushed a crawl job and has not raised global_lock for it yet. */
  function JobUncounted(p: CoordPc): int { One(p.SeedCount? || p.JobCount?) }

  /** Pushed a job and has not posted job_sem for it yet. */
  function JobUnposted(p: CoordPc): int {
    One(p.SeedCount? || p.SeedPost? || p.JobCount? || p.JobPost? || p.ExitPost?)
  }

  /** Popped a result and has not given up its unit of global_lock yet. */
  function Processing(p: CoordPc): int { One(Scheduling(p)) }

  /** Took a token of work_sem and has not popped a result for it. */
  function Held(p: CoordPc): int { One(p.Size? || p.Pop?) }

  function ExitsPushed(c: Config, p: CoordPc): int {
    match p
    case ExitPush(k) => k
    case ExitPost(k) => k + 1
    case Halted => c.n
    case _ => 0
  }

  // The laws.

  ghost predicate LockLaw(s: State) {
    s.lock == Sum(IsCrawl, s.jobs) + Sum(Running, s.threads) + |s.urls| + Processing(s.coord)
              - Sum(Between, s.threads) - JobUncounted(s.coord)
  }

  ghost predicate JobSemLaw(s: State) {
    s.jobSem + Sum(HoldsToken, s.threads) + JobUnposted(s.coord) == |s.jobs|
  }

  ghost predicate WorkSemLaw(s: State) {
    && s.workSem + Sum(Unposted, s.threads) + Held(s.coord) >= |s.urls|
    && (s.coord.Pop? ==> s.urls != [])
  }

  /** While the coordinator waits there is a token, or a thread or job that will post one. */
  ghost predicate WakeLaw(s: State) {
    s.coord.WaitWork? ==> s.workSem + Sum(Crawling, s.threads) + Sum(IsCrawl, s.jobs) > 0
  }

  ghost predicate CounterLaw(c: Config, s: State) {
    && s.idle == c.n - Sum(Awake, s.threads)
    && s.poolDone == Sum(Done, s.threads) + Sum(CountsOwn, s.threads)
    && s.hist.pushed == |s.jobs| + Sum(Uncounted, s.threads) + s.poolDone
  }

  ghost predicate ExitLaw(c: Config, s: State) {
    && ExitsPushed(c, s.coord) == Sum(IsExit, s.jobs) + Sum(Took, s.threads)
    && (s.coord.ExitPush? ==> s.coord.k <= c.n)
    && (s.coord.ExitPost? ==> s.coord.k < c.n)
    && s.hist.pushed == |s.hist.scheduled| + ExitsPushed(c, s.coord)
  }

  /** FIFO shutdown: crawl jobs stand before exit jobs, and a taken exit job means that no
      crawl job is left. */
  ghost predicate FifoLaw(s: State) {
    && (forall i, j | 0 <= i < j < |s.jobs| && s.jobs[i].DoExit? :: s.jobs[j].DoExit?)
    && (Sum(Took, s.threads) > 0 ==> Sum(IsCrawl, s.jobs) == 0)
  }

  predicate WellFormed(t: ThreadItem) {
    && (t.pc.Start? || t.pc.Finished? ==> !t.busy)
    && (t.pc.WaitJob? || t.pc.LessIdle? || t.pc.TakeJob? || InCrawler(t.pc) || t.pc.SetIdle? ==> t.busy)
    && (t.pc.Fetching? ==> 1 <= t.pc.left <= ATTEMPTS)
  }

  ghost predicate Shape(c: Config, s: State) {
    |s.threads| == c.n && forall i | 0 <= i < |s.threads| :: WellFormed(s.threads[i])
  }

  ghost predicate Accounts(c: Config, s: State) {
    && Shape(c, s)
    && LockLaw(s) && JobSemLaw(s) && WorkSemLaw(s) && WakeLaw(s)
    && CounterLaw(c, s) && ExitLaw(c, s) && FifoLaw(s)
  }

  // Initially.

  lemma AccountsInit(c: Config)
    ensures Accounts(c, Init(c))
  {
    InitCounts(c, Init(c).threads);
  }

  lemma InitCounts(c: Config, ts: seq<ThreadItem>)
    requires forall t | t in ts :: t == ThreadItem(Start, false, 0)
    ensures forall w | w in {Running, Between, Unposted, HoldsToken, Awake, Uncounted, CountsOwn, Took, Done} ::
              Sum(w, ts) == 0
  {
    Constant(Running, ts, 0);
    Constant(Between, ts, 0);
    Constant(Unposted, ts, 0);
    Constant(HoldsToken, ts, 0);
    Constant(Awake, ts, 0);
    Constant(Uncounted, ts, 0);
    Constant(CountsOwn, ts, 0);
    Constant(Took, ts, 0);
    Constant(Done, ts, 0);
  }

  // The order between the counts.

  lemma Bounds(s: State)
    ensures 0 <= Sum(Between, s.threads) <= Sum(Unposted, s.threads) <= Sum(Running, s.threads)
    ensures Sum(Running, s.threads) <= Sum(Crawling, s.threads)
    ensures Sum(IsCrawl, s.jobs) >= 0 && Sum(IsExit, s.jobs) >= 0
    ensures Sum(Took, s.threads) >= 0 && Sum(HoldsToken, s.threads) >= 0
    ensures |s.jobs| == Sum(IsCrawl, s.jobs) + Sum(IsExit, s.jobs)
  {
    NonNegative(Between, s.threads);
    Monotone(Between, Unposted, s.threads);
    Monotone(Unposted, Running, s.threads);
    Monotone(Running, Crawling, s.threads);
    NonNegative(IsCrawl, s.jobs);
    NonNegative(IsExit, s.jobs);
    NonNegative(Took, s.threads);
    NonNegative(HoldsToken, s.threads);
    CrawlOrExit(s.jobs);
  }

  lemma {:induction false} CrawlOrExit(jobs: seq<Job>)
    ensures |jobs| == Sum(IsCrawl, jobs) + Sum(IsExit, jobs)
  {
    if jobs != [] {
      CrawlOrExit(jobs[1..]);
    }
  }

  // What one action changes: the counters it touches and where control goes.

  ghost predicate ThreadFlow(a: ThreadItem, b: ThreadItem, jobs: seq<Job>) {
    && b.done == a.done + One(a.pc.CountOwn?)
    && b.busy == (if a.pc.Start? then true else if a.pc.SetIdle? then false else a.busy)
    && match a.pc
       case Start => b.pc.Loop?
       case Loop => b.pc == if a.busy then WaitJob else Finished
       case WaitJob => b.pc.LessIdle?
       case LessIdle => b.pc.TakeJob?
       case TakeJob => jobs != [] && b.pc == if jobs[0].DoCrawler? then Fetching(jobs[0].url, ATTEMPTS) else SetIdle
       case Fetching(_, left) =>
         b.pc.LowerLock? || b.pc.PushResult? || (b.pc.Fetching? && left > 1 && b.pc.left == left - 1)
       case PushResult(_, _) => b.pc.RaiseLock?
       case RaiseLock(_) => b.pc.PostWork?
       case PostWork(_) => b.pc.LowerLock?
       case LowerLock(_) => b.pc.PostDone?
       case PostDone(_) => b.pc.MoreIdle?
       case SetIdle => b.pc.MoreIdle?
       case MoreIdle => b.pc.CountPool?
       case CountPool => b.pc.CountOwn?
       case CountOwn => b.pc.Loop?
       case Finished => false
  }

  ghost predicate ThreadEffect(s: State, t: State, i: nat)
    requires i < |s.threads|
  {
    && |t.threads| == |s.threads|
    && t.threads == s.threads[i := t.threads[i]]
    && ThreadFlow(s.threads[i], t.threads[i], s.jobs)
    && var pc := s.threads[i].pc;
    && t.coord == s.coord && t.hist.pushed == s.hist.pushed && t.hist.scheduled == s.hist.scheduled
    && t.jobs == (if pc.TakeJob? then s.jobs[1..] else s.jobs)
    && t.jobSem == s.jobSem - One(pc.WaitJob?)
    && t.idle == s.idle - One(pc.LessIdle?) + One(pc.MoreIdle?)
    && t.poolDone == s.poolDone + One(pc.CountPool?)
    && |t.urls| == |s.urls| + One(pc.PushResult?)
    && t.workSem == s.workSem + One(pc.PostWork? || pc.PostDone?)
    && t.lock == s.lock + One(pc.RaiseLock?) - One(pc.LowerLock?)
  }

  lemma CrawlerHasEffect(c: Config, s: State, i: nat, f: Fetch)
    requires i < |s.threads| && InCrawler(s.threads[i].pc)
    ensures ThreadEffect(s, CrawlerStep(c, s, i, f), i)
  {
  }

  lemma PoolHasEffect(s: State, i: nat)
    requires ThreadEnabled(s, i) && !InCrawler(s.threads[i].pc) && s.threads[i].pc != SetIdle
    requires !s.fault && !PoolStep(s, i).fault
    ensures ThreadEffect(s, PoolStep(s, i), i)
  {
  }

  lemma ExitHasEffect(s: State, i: nat)
    requires i < |s.threads| && s.threads[i].pc == SetIdle
    ensures ThreadEffect(s, ExitStep(s, i), i)
  {
  }

  lemma ThreadHasEffect(c: Config, s: State, i: nat, f: Fetch)
    requires Enabled(s, OfThread(i, f)) && !ThreadStep(c, s, i, f).fault
    ensures ThreadEffect(s, ThreadStep(c, s, i, f), i)
  {
    var pc := s.threads[i].pc;
    if InCrawler(pc) {
      CrawlerHasEffect(c, s, i, f);
    } else if pc == SetIdle {
      ExitHasEffect(s, i);
    } else {
      PoolHasEffect(s, i);
    }
  }

  ghost predicate CoordFlow(c: Config, p: CoordPc, q: CoordPc, s: State) {
    match p
    case SeedPush => q.SeedCount?
    case SeedCount => q.SeedPost?
    case SeedPost => q.Test?
    case Test => if s.lock != 0 then q.WaitWork? || q == ExitPush(0) else q == ExitPush(0)
    case WaitWork => q.Size?
    case Size => q == if s.urls == [] then Test else Pop
    case Pop => q.Scan?
    case Scan(_) => q.Scan? || q.JobCount? || q.Release?
    case JobCount(_) => q.JobPost?
    case JobPost(_) => q.Scan?
    case Release => q.Test?
    case ExitPush(k) => q == if k < c.n then ExitPost(k) else Halted
    case ExitPost(k) => q == ExitPush(k + 1)
    case Halted => false
  }

  /** Whether this action pushes a job. */
  predicate Pushes(p: CoordPc, q: CoordPc) {
    p.SeedPush? || q.JobCount? || q.ExitPost?
  }

  function ScheduledBy(j: Job): seq<Url> { if j.DoCrawler? then [j.url] else [] }

  ghost predicate CoordEffect(c: Config, s: State, t: State) {
    && t.threads == s.threads && t.idle == s.idle && t.poolDone == s.poolDone
    && CoordFlow(c, s.coord, t.coord, s)
    && (if Pushes(s.coord, t.coord) then
          && |t.jobs| == |s.jobs| + 1 && t.jobs == s.jobs + [t.jobs[|s.jobs|]]
          && t.jobs[|s.jobs|].DoExit? == t.coord.ExitPost?
          && t.hist.scheduled == s.hist.scheduled + ScheduledBy(t.jobs[|s.jobs|])
        else t.jobs == s.jobs && t.hist.scheduled == s.hist.scheduled)
    && t.hist.results == s.hist.results
    && t.hist.pushed == s.hist.pushed + One(Pushes(s.coord, t.coord))
    && t.jobSem == s.jobSem + One(s.coord.SeedPost? || s.coord.JobPost? || s.coord.ExitPost?)
    && |t.urls| == |s.urls| - One(s.coord.Pop?)
    && t.workSem == s.workSem - One(s.coord.WaitWork?)
    && t.lock == s.lock + One(s.coord.SeedCount? || s.coord.JobCount?) - One(s.coord.Release?)
  }

  lemma SeedHasEffect(c: Config, s: State)
    requires Seeding(s.coord)
    ensures CoordEffect(c, s, SeedStep(c, s))
  {
  }

  lemma WaitHasEffect(c: Config, s: State)
    requires CoordEnabled(s) && !Seeding(s.coord) && !Scheduling(s.coord) && !Leaving(s.coord)
    requires !WaitStep(c, s).fault
    ensures CoordEffect(c, s, WaitStep(c, s))
  {
  }

  lemma ScheduleHasEffect(c: Config, s: State)
    requires Scheduling(s.coord) && !ScheduleStep(s).fault
    ensures CoordEffect(c, s, ScheduleStep(s))
  {
  }

  lemma ShutdownHasEffect(c: Config, s: State)
    requires Leaving(s.coord) && s.coord != Halted
    ensures CoordEffect(c, s, ShutdownStep(c, s))
  {
  }

  lemma CoordHasEffect(c: Config, s: State)
    requires CoordEnabled(s) && !CoordStep(c, s).fault
    ensures CoordEffect(c, s, CoordStep(c, s))
  {
    if Seeding(s.coord) {
      SeedHasEffect(c, s);
    } else if Scheduling(s.coord) {
      ScheduleHasEffect(c, s);
    } else if Leaving(s.coord) {
      ShutdownHasEffect(c, s);
    } else {
      WaitHasEffect(c, s);
    }
  }

  // Every action of a pool thread keeps the laws.

  /** The counts of thread i change by the difference of its weights. */
  lemma ThreadChange(s: State, t: State, i: nat, w: ThreadItem -> int)
    requires i < |s.threads| && ThreadEffect(s, t, i)
    ensures Sum(w, t.threads) == Sum(w, s.threads) - w(s.threads[i]) + w(t.threads[i])
  {
    Update(s.threads, i, t.threads[i]);
  }

  lemma ThreadKeepsShape(c: Config, s: State, t: State, i: nat)
    requires i < |s.threads| && ThreadEffect(s, t, i) && Shape(c, s)
    ensures Shape(c, t)
  {
  }

  lemma ThreadKeepsLock(s: State, t: State, i: nat)
    requires i < |s.threads| && ThreadEffect(s, t, i) && LockLaw(s)
    ensures LockLaw(t)
  {
    ThreadChange(s, t, i, Running);
    ThreadChange(s, t, i, Between);
  }

  lemma ThreadKeepsSemaphores(s: State, t: State, i: nat)
    requires i < |s.threads| && ThreadEffect(s, t, i) && JobSemLaw(s) && WorkSemLaw(s) && WakeLaw(s)
    ensures JobSemLaw(t) && WorkSemLaw(t) && WakeLaw(t)
  {
    ThreadChange(s, t, i, HoldsToken);
    ThreadChange(s, t, i, Unposted);
    ThreadChange(s, t, i, Crawling);
  }

  lemma ThreadKeepsCounters(c: Config, s: State, t: State, i: nat)
    requires i < |s.threads| && ThreadEffect(s, t, i) && CounterLaw(c, s)
    ensures CounterLaw(c, t)
  {
    ThreadChange(s, t, i, Awake);
    ThreadChange(s, t, i, Done);
    ThreadChange(s, t, i, CountsOwn);
    ThreadChange(s, t, i, Uncounted);
  }

  lemma ThreadKeepsExits(c: Config, s: State, t: State, i: nat)
    requires i < |s.threads| && ThreadEffect(s, t, i) && Shape(c, s) && ExitLaw(c, s) && FifoLaw(s)
    ensures ExitLaw(c, t) && FifoLaw(t)
  {
    assert WellFormed(s.threads[i]);
    ThreadChange(s, t, i, Took);
    if s.threads[i].pc.TakeJob? && s.jobs[0].DoExit? {
      Constant(IsCrawl, s.jobs, 0);
    }
    NonNegative(IsCrawl, t.jobs);
  }

  lemma AccountsThread(c: Config, s: State, i: nat, f: Fetch)
    requires Accounts(c, s) && Enabled(s, OfThread(i, f)) && !ThreadStep(c, s, i, f).fault
    ensures Accounts(c, ThreadStep(c, s, i, f))
  {
    var t := ThreadStep(c, s, i, f);
    ThreadHasEffect(c, s, i, f);
    ThreadKeepsShape(c, s, t, i);
    ThreadKeepsLock(s, t, i);
    ThreadKeepsSemaphores(s, t, i);
    ThreadKeepsCounters(c, s, t, i);
    ThreadKeepsExits(c, s, t, i);
  }

  // Every action of the coordinator keeps the laws.

  /** A pushed job adds its weight. */
  lemma PushChange(c: Config, s: State, t: State)
    requires CoordEffect(c, s, t)
    ensures Sum(IsCrawl, t.jobs) == Sum(IsCrawl, s.jobs) + One(s.coord.SeedPush? || t.coord.JobCount?)
    ensures Sum(IsExit, t.jobs) == Sum(IsExit, s.jobs) + One(t.coord.ExitPost?)
  {
    if Pushes(s.coord, t.coord) {
      Push(s.jobs, t.jobs[|s.jobs|]);
    }
  }

  lemma CoordKeepsLock(c: Config, s: State, t: State)
    requires CoordEffect(c, s, t) && LockLaw(s)
    ensures LockLaw(t)
  {
    PushChange(c, s, t);
  }

  /** Deciding to wait is safe: a count other than 0 means work that will post a token. */
  lemma CoordKeepsSemaphores(c: Config, s: State, t: State)
    requires CoordEffect(c, s, t) && LockLaw(s) && JobSemLaw(s) && WorkSemLaw(s) && WakeLaw(s)
    ensures JobSemLaw(t) && WorkSemLaw(t) && WakeLaw(t)
  {
    PushChange(c, s, t);
    Bounds(s);
  }

  lemma CoordKeepsExits(c: Config, s: State, t: State)
    requires CoordEffect(c, s, t) && ExitLaw(c, s) && FifoLaw(s)
    ensures ExitLaw(c, t) && FifoLaw(t)
  {
    PushChange(c, s, t);
    Bounds(s);
    if !Leaving(s.coord) {
      forall i | 0 <= i < |s.jobs|
        ensures !s.jobs[i].DoExit?
      {
        AtLeast(IsExit, s.jobs, i);
      }
    }
  }

  lemma AccountsCoord(c: Config, s: State)
    requires Accounts(c, s) && CoordEnabled(s) && !CoordStep(c, s).fault
    ensures Accounts(c, CoordStep(c, s))
  {
    var t := CoordStep(c, s);
    CoordHasEffect(c, s);
    CoordKeepsLock(c, s, t);
    CoordKeepsSemaphores(c, s, t);
    CoordKeepsExits(c, s, t);
  }
}
