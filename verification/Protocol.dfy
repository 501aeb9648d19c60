/** The concurrent crawl: main's seeding and do_work on one side, the pool threads running
    thread_do_job, do_crawler and do_exit on the other. One action is one operation on shared
    state (a mutex-protected counter or queue operation, or a semaphore operation) together
    with the thread-local code up to the next one. */
module Protocol {
  import opened Bytes
  import opened WebGraph
  import Filter

  /** Attempts per crawl job (`timeout` starts at 3). */
  const ATTEMPTS: nat := 3

  /** What crawler_crawl returns. */
  datatype Code = OK | NONEED | FAILED | BREAK | UNREACH | UNKNOWN | TIMEOUT | NULL | OVERFLOW

  /** One call of crawler_crawl: its code and the links it put in the list. */
  datatype Fetch = Fetch(code: Code, raw: seq<Url>)

  predicate Retries(code: Code) {
    code == TIMEOUT || code == OVERFLOW || code == FAILED || code == UNREACH
  }

  datatype Job = DoCrawler(url: Url) | DoExit

  /** link_info_t: an entry of `urlqueue`. */
  datatype LinkInfo = LinkInfo(url: Url, links: seq<Url>)

  /** Program points of a pool thread; the line is the operation the thread is about to do. */
  datatype Pc =
    | Start                               // thread_pool.c:70
    | Loop                                // thread_pool.c:71
    | WaitJob                             // thread_pool.c:73
    | LessIdle                            // thread_pool.c:75
    | TakeJob                             // thread_pool.c:77
    | Fetching(url: Url, left: nat)       // worker.c:170, `left` attempts to go
    | PushResult(url: Url, links: seq<Url>) // worker.c:182
    | RaiseLock(url: Url)                 // worker.c:183
    | PostWork(url: Url)                  // worker.c:184
    | LowerLock(url: Url)                 // worker.c:218
    | PostDone(url: Url)                  // worker.c:219
    | SetIdle                             // worker.c:47
    | MoreIdle                            // thread_pool.c:85
    | CountPool                           // thread_pool.c:86
    | CountOwn                            // thread_pool.c:87
    | Finished

  /** thread_t: `busy` is the field `idle`, done the thread's own `job_done`. */
  datatype ThreadItem = ThreadItem(pc: Pc, busy: bool, done: int)

  /** Program points of the coordinator: main seeds the queue, then do_work runs. */
  datatype CoordPc =
    | SeedPush                            // main.c:67
    | SeedCount                           // main.c:68
    | SeedPost                            // main.c:69
    | Test                                // worker.c:68
    | WaitWork                            // worker.c:70
    | Size                                // worker.c:72
    | Pop                                 // worker.c:73-78
    | Scan(rest: seq<Url>)                // worker.c:84-104
    | JobCount(rest: seq<Url>)            // worker.c:105
    | JobPost(rest: seq<Url>)             // worker.c:106
    | Release                             // worker.c:117
    | ExitPush(k: nat)                    // worker.c:136-140
    | ExitPost(k: nat)                    // worker.c:141
    | Halted

  /** What happened to the job of one URL: crawl attempts made, net change of global_lock. */
  datatype JobLog = JobLog(attempts: nat, lock: int)

  /** Record of the run, written but never read by the actions: URLs in the order their crawl
      jobs were pushed, the results pushed on urlqueue, the log of each job, the number of
      jobs ever pushed, and whether do_work left because it read 0. */
  datatype History = History(scheduled: seq<Url>, results: map<Url, seq<Url>>,
                             log: map<Url, JobLog>, pushed: nat, drained: bool)

  /** `fault` stands for reading an empty queue, a missing vertex or a full vertex array. */
  datatype State = State(
    threads: seq<ThreadItem>, jobs: seq<Job>, jobSem: nat, idle: int, poolDone: int,
    urls: seq<LinkInfo>, workSem: nat, lock: int, graph: Graph, coord: CoordPc,
    fault: bool, hist: History)

  /** Number of pool threads, VERTEX_DEFAULT, the crawled domain and the seed URL. */
  datatype Config = Config(n: nat, capacity: nat, domain: CString, seed: Url)

  function Init(c: Config): State {
    State(seq(c.n, _ => ThreadItem(Start, false, 0)), [], 0, c.n, 0, [], 0, 0, EMPTY, SeedPush,
          false, History([], map[], map[], 0, false))
  }

  function LogOf(h: History, u: Url): JobLog {
    if u in h.log then h.log[u] else JobLog(0, 0)
  }

  function Put(s: State, i: nat, t: ThreadItem): State
    requires i < |s.threads|
  {
    s.(threads := s.threads[i := t])
  }

  function Goto(s: State, i: nat, pc: Pc): State
    requires i < |s.threads|
  {
    Put(s, i, s.threads[i].(pc := pc))
  }

  /** Add to the log of u: attempts made and change of the lock. */
  function Noted(h: History, u: Url, attempts: nat, lock: int): History {
    var l := LogOf(h, u);
    h.(log := h.log[u := JobLog(l.attempts + attempts, l.lock + lock)])
  }

  function Note(s: State, u: Url, attempts: nat, lock: int): State {
    s.(hist := Noted(s.hist, u, attempts, lock))
  }

  /** thread_do_job between jobs. */
  function PoolStep(s: State, i: nat): State
    requires i < |s.threads|
  {
    var t := s.threads[i];
    match t.pc
    case Start => Put(s, i, t.(pc := Loop, busy := true))
    case Loop => Goto(s, i, if t.busy then WaitJob else Finished)
    case WaitJob => if s.jobSem > 0 then Goto(s, i, LessIdle).(jobSem := s.jobSem - 1) else s
    case LessIdle => Goto(s, i, TakeJob).(idle := s.idle - 1)
    case TakeJob =>
      if s.jobs == [] then s.(fault := true)
      else (match s.jobs[0]
            case DoCrawler(u) => Goto(s, i, Fetching(u, ATTEMPTS)).(jobs := s.jobs[1..])
            case DoExit => Goto(s, i, SetIdle).(jobs := s.jobs[1..]))
    case MoreIdle => Goto(s, i, CountPool).(idle := s.idle + 1)
    case CountPool => Goto(s, i, CountOwn).(poolDone := s.poolDone + 1)
    case CountOwn => Put(s, i, t.(pc := Loop, done := t.done + 1))
    case _ => s
  }

  /** Where do_crawler goes after crawler_crawl returned f with `left` attempts to go. */
  function AfterFetch(c: Config, u: Url, left: nat, f: Fetch): Pc {
    if f.code == OK then
      if f.raw == [] then LowerLock(u) else PushResult(u, Filter.Links(c.domain, f.raw))
    else if Retries(f.code) && left > 1 then Fetching(u, left - 1)
    else LowerLock(u)
  }

  /** do_crawler; f is what the next crawler_crawl returns. */
  function CrawlerStep(c: Config, s: State, i: nat, f: Fetch): State
    requires i < |s.threads|
  {
    match s.threads[i].pc
    case Fetching(u, left) => Goto(Note(s, u, 1, 0), i, AfterFetch(c, u, left, f))
    case PushResult(u, links) =>
      Goto(s, i, RaiseLock(u)).(urls := s.urls + [LinkInfo(u, links)],
                                hist := s.hist.(results := s.hist.results[u := links]))
    case RaiseLock(u) => Goto(Note(s, u, 0, 1), i, PostWork(u)).(lock := s.lock + 1)
    case PostWork(u) => Goto(s, i, LowerLock(u)).(workSem := s.workSem + 1)
    case LowerLock(u) => Goto(Note(s, u, 0, -1), i, PostDone(u)).(lock := s.lock - 1)
    case PostDone(u) => Goto(s, i, MoreIdle).(workSem := s.workSem + 1)
    case _ => s
  }

  /** do_exit. */
  function ExitStep(s: State, i: nat): State
    requires i < |s.threads|
  {
    match s.threads[i].pc
    case SetIdle => Put(s, i, s.threads[i].(pc := MoreIdle, busy := false))
    case _ => s
  }

  predicate InCrawler(pc: Pc) {
    pc.Fetching? || pc.PushResult? || pc.RaiseLock? || pc.PostWork? || pc.LowerLock? || pc.PostDone?
  }

  function ThreadStep(c: Config, s: State, i: nat, f: Fetch): State
    requires i < |s.threads|
  {
    var pc := s.threads[i].pc;
    if InCrawler(pc) then CrawlerStep(c, s, i, f) else if pc == SetIdle then ExitStep(s, i) else PoolStep(s, i)
  }

  function PushJob(s: State, j: Job): State {
    s.(jobs := s.jobs + [j],
       hist := s.hist.(pushed := s.hist.pushed + 1,
                       scheduled := if j.DoCrawler? then s.hist.scheduled + [j.url] else s.hist.scheduled))
  }

  /** main, from the creation of the seed job to the creation of the do_work thread. */
  function SeedStep(c: Config, s: State): State {
    match s.coord
    case SeedPush => PushJob(s, DoCrawler(c.seed)).(coord := SeedCount)
    case SeedCount => s.(lock := s.lock + 1, coord := SeedPost)
    case SeedPost => s.(jobSem := s.jobSem + 1, coord := Test)
    case _ => s
  }

  /** The waiting part of do_work's loop. */
  function WaitStep(c: Config, s: State): State {
    match s.coord
    case Test =>
      if s.lock != 0 && |s.graph.vertices| < c.capacity then s.(coord := WaitWork)
      else s.(coord := ExitPush(0), hist := s.hist.(drained := s.lock == 0))
    case WaitWork => if s.workSem > 0 then s.(workSem := s.workSem - 1, coord := Size) else s
    case Size => s.(coord := if s.urls != [] then Pop else Test)
    case Pop =>
      if s.urls == [] then s.(fault := true)
      else
        var info := s.urls[0];
        var vid := FindVertex(s.graph, info.url);
        if vid >= |s.graph.vertices| || (vid == -1 && |s.graph.vertices| >= c.capacity) then s.(fault := true)
        else s.(urls := s.urls[1..], graph := InsertEdge(s.graph, info.url, info.links), coord := Scan(info.links))
    case _ => s
  }

  /** The part of do_work's loop that schedules the links of one result. */
  function ScheduleStep(s: State): State {
    match s.coord
    case Scan(rest) =>
      if rest == [] then s.(coord := Release)
      else if rest[0] !in s.graph.infos then s.(fault := true)
      else if s.graph.infos[rest[0]].marked then s.(coord := Scan(rest[1..]))
      else PushJob(s, DoCrawler(rest[0])).(graph := Mark(s.graph, rest[0]), coord := JobCount(rest[1..]))
    case JobCount(rest) => s.(lock := s.lock + 1, coord := JobPost(rest))
    case JobPost(rest) => s.(jobSem := s.jobSem + 1, coord := Scan(rest))
    case Release => s.(lock := s.lock - 1, coord := Test)
    case _ => s
  }

  /** do_work after its loop: one exit job per pool thread. */
  function ShutdownStep(c: Config, s: State): State {
    match s.coord
    case ExitPush(k) =>
      if k < c.n then PushJob(s, DoExit).(coord := ExitPost(k)) else s.(coord := Halted)
    case ExitPost(k) => s.(jobSem := s.jobSem + 1, coord := ExitPush(k + 1))
    case _ => s
  }

  predicate Seeding(p: CoordPc) { p.SeedPush? || p.SeedCount? || p.SeedPost? }

  predicate Scheduling(p: CoordPc) { p.Scan? || p.JobCount? || p.JobPost? || p.Release? }

  predicate Leaving(p: CoordPc) { p.ExitPush? || p.ExitPost? || p.Halted? }

  function CoordStep(c: Config, s: State): State {
    if Seeding(s.coord) then SeedStep(c, s)
    else if Scheduling(s.coord) then ScheduleStep(s)
    else if Leaving(s.coord) then ShutdownStep(c, s)
    else WaitStep(c, s)
  }

  /** A schedule chooses at each step a pool thread (with the outcome of its next fetch, in
      case it makes one) or the coordinator. */
  datatype Action = OfThread(i: nat, f: Fetch) | OfCoordinator

  predicate ThreadEnabled(s: State, i: nat) {
    && i < |s.threads|
    && s.threads[i].pc != Finished
    && (s.threads[i].pc == WaitJob ==> s.jobSem > 0)
  }

  predicate CoordEnabled(s: State) {
    && s.coord != Halted
    && (s.coord == WaitWork ==> s.workSem > 0)
  }

  predicate Enabled(s: State, a: Action) {
    && !s.fault
    && match a
       case OfThread(i, _) => ThreadEnabled(s, i)
       case OfCoordinator => CoordEnabled(s)
  }

  function Next(c: Config, s: State, a: Action): State
    requires Enabled(s, a)
  {
    match a
    case OfThread(i, f) => ThreadStep(c, s, i, f)
    case OfCoordinator => CoordStep(c, s)
  }

  ghost predicate Step(c: Config, s: State, t: State) {
    exists a :: Enabled(s, a) && t == Next(c, s, a)
  }

  /** A finite run: a sequence of states from the initial one, in steps. */
  ghost predicate Run(c: Config, run: seq<State>) {
    && run != [] && run[0] == Init(c)
    && forall k | 0 <= k < |run| - 1 :: Step(c, run[k], run[k + 1])
  }

  ghost predicate Reachable(c: Config, s: State) {
    exists run :: Run(c, run) && run[|run| - 1] == s
  }

  /** All pool threads and the coordinator have returned. */
  predicate AllFinished(s: State) {
    s.coord == Halted && forall t | t in s.threads :: t.pc == Finished
  }
}
