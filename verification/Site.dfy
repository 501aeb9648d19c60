/** The crawl as the program keeps it: counters, semaphores, linked queues, the thread array and
    the graph, changed in place. Each method performs one atomic action and refines the step of
    the same name in Protocol. */
module Site {
  import opened WebGraph
  import opened Protocol
  import opened Queues
  import opened Counters
  import Completeness
  import Theorems

  /** The loop of thread_pool_init. */
  method InitThreads(c: Config) returns (ts: array<ThreadItem>)
    ensures fresh(ts) && ts[..] == Init(c).threads
  {
    ts := new ThreadItem[c.n];
    for i := 0 to c.n
      invariant forall k | 0 <= k < i :: ts[k] == ThreadItem(Start, false, 0)
    {
      ts[i] := ThreadItem(Start, false, 0);
    }
  }

  method NewCounters(n: nat) returns (idle: ThreadCounter, done: ThreadCounter, lock: ThreadCounter)
    ensures fresh({idle, done, lock}) && idle != done && idle != lock && done != lock
    ensures idle.count == n && done.count == 0 && lock.count == 0
  {
    idle := new ThreadCounter();
    done := new ThreadCounter();
    lock := new ThreadCounter();
    idle.Set(n);
  }

  method NewQueues() returns (jobs: TsQueue<Job>, urls: TsQueue<LinkInfo>)
    ensures jobs.Valid() && urls.Valid() && jobs.contents == [] && urls.contents == []
    ensures fresh(jobs.Repr) && fresh(urls.Repr) && jobs.Repr !! urls.Repr
  {
    jobs := new TsQueue<Job>();
    urls := new TsQueue<LinkInfo>();
  }

  class Site {
    const c: Config
    const items: array<ThreadItem>
    const jobQueue: TsQueue<Job>
    const urlQueue: TsQueue<LinkInfo>
    const threadIdle: ThreadCounter
    const jobDone: ThreadCounter
    const globalLock: ThreadCounter
    var jobSem: nat
    var workSem: nat
    var graph: Graph
    var coord: CoordPc
    ghost var hist: History

    ghost function Own(): set<object> {
      {this, items, threadIdle, jobDone, globalLock}
    }

    /** The parts are separate objects. */
    ghost predicate Separate()
      reads this, jobQueue, urlQueue, jobQueue.Repr, urlQueue.Repr
    {
      && items.Length == c.n
      && threadIdle != jobDone && threadIdle != globalLock && jobDone != globalLock
      && jobQueue.Valid() && urlQueue.Valid()
      && jobQueue.Repr !! urlQueue.Repr
      && Own() !! jobQueue.Repr && Own() !! urlQueue.Repr
    }

    /** The protocol state this object stands for. */
    ghost function View(): State
      reads Own(), jobQueue, urlQueue, jobQueue.Repr, urlQueue.Repr
      requires Separate()
    {
      State(items[..], jobQueue.contents, jobSem, threadIdle.count, jobDone.count,
            urlQueue.contents, workSem, globalLock.count, graph, coord, false, hist)
    }

    /** Everything the proofs about runs say holds of the state this object stands for. */
    ghost predicate Valid()
      reads Own(), jobQueue, urlQueue, jobQueue.Repr, urlQueue.Repr
    {
      Separate() && Theorems.Inv(c, View())
    }

    constructor (c: Config)
      ensures Separate() && this.c == c && View() == Init(c)
      ensures fresh(Own()) && fresh(jobQueue.Repr) && fresh(urlQueue.Repr)
    {
      var ts := InitThreads(c);
      var idle, done, lock := NewCounters(c.n);
      var jobs, urls := NewQueues();
      this.c, items, jobQueue, urlQueue := c, ts, jobs, urls;
      threadIdle, jobDone, globalLock := idle, done, lock;
      jobSem, workSem, graph, coord := 0, 0, EMPTY, SeedPush;
      hist := History([], map[], map[], 0, false);
    }

    /** A new object, ready for the actions. */
    static method Start(c: Config) returns (s: Site)
      ensures s.Valid() && s.c == c && s.View() == Init(c)
      ensures fresh(s.Own()) && fresh(s.jobQueue.Repr) && fresh(s.urlQueue.Repr)
    {
      s := new Site(c);
      Theorems.InvInit(c);
    }

    /** thread_pool_get_job; the queue must not be empty. */
    method GetJob(i: nat)
      requires Separate() && ThreadEnabled(View(), i) && items[i].pc == TakeJob
      requires jobQueue.contents != []
      modifies items, jobQueue.Repr
      ensures Separate() && View() == PoolStep(old(View()), i)
      ensures fresh(jobQueue.Repr - old(jobQueue.Repr)) && urlQueue.Repr == old(urlQueue.Repr)
    {
      var t := items[i];
      var job := jobQueue.Top();
      items[i] := t.(pc := match job case DoCrawler(u) => Fetching(u, ATTEMPTS) case DoExit => SetIdle);
    }

    /** thread_do_job: its flag, its loop test and the wait for a job. */
    method ThreadDoJob(i: nat)
      requires Separate() && ThreadEnabled(View(), i)
      requires items[i].pc.Start? || items[i].pc.Loop? || items[i].pc.WaitJob?
      modifies items, `jobSem
      ensures Separate() && View() == PoolStep(old(View()), i)
    {
      var t := items[i];
      match t.pc
      case Start => items[i] := t.(pc := Loop, busy := true);
      case Loop => items[i] := t.(pc := if t.busy then WaitJob else Finished);
      case WaitJob =>
        jobSem := jobSem - 1;
        items[i] := t.(pc := LessIdle);
    }

    /** thread_do_job is not idle from here on. */
    method LeaveIdle(i: nat)
      requires Separate() && ThreadEnabled(View(), i) && items[i].pc.LessIdle?
      modifies items, threadIdle
      ensures Separate() && View() == PoolStep(old(View()), i)
    {
      var t := items[i];
      threadIdle.Decrease();
      items[i] := t.(pc := TakeJob);
    }

    /** thread_do_job is idle again. */
    method EnterIdle(i: nat)
      requires Separate() && ThreadEnabled(View(), i) && items[i].pc.MoreIdle?
      modifies items, threadIdle
      ensures Separate() && View() == PoolStep(old(View()), i)
    {
      var t := items[i];
      threadIdle.Increase();
      items[i] := t.(pc := CountPool);
    }

    /** thread_do_job counts a finished job for the pool. */
    method CountForPool(i: nat)
      requires Separate() && ThreadEnabled(View(), i) && items[i].pc.CountPool?
      modifies items, jobDone
      ensures Separate() && View() == PoolStep(old(View()), i)
    {
      var t := items[i];
      jobDone.Increase();
      items[i] := t.(pc := CountOwn);
    }

    /** thread_do_job counts it for its own thread. */
    method CountForSelf(i: nat)
      requires Separate() && ThreadEnabled(View(), i) && items[i].pc.CountOwn?
      modifies items
      ensures Separate() && View() == PoolStep(old(View()), i)
    {
      var t := items[i];
      items[i] := t.(pc := Loop, done := t.done + 1);
    }

    /** do_exit. */
    method Exit(i: nat)
      requires Separate() && ThreadEnabled(View(), i) && items[i].pc == SetIdle
      modifies items
      ensures Separate() && View() == ExitStep(old(View()), i)
    {
      items[i] := items[i].(pc := MoreIdle, busy := false);
    }

    /** ts_queue_push of the result on urlqueue. */
    method PushUrl(i: nat, f: Fetch)
      requires Separate() && ThreadEnabled(View(), i) && items[i].pc.PushResult?
      modifies items, `hist, urlQueue.Repr
      ensures Separate() && View() == CrawlerStep(c, old(View()), i, f)
      ensures jobQueue.Repr == old(jobQueue.Repr) && fresh(urlQueue.Repr - old(urlQueue.Repr))
    {
      var t := items[i];
      urlQueue.Push(LinkInfo(t.pc.url, t.pc.links));
      items[i] := t.(pc := RaiseLock(t.pc.url));
      hist := hist.(results := hist.results[t.pc.url := t.pc.links]);
    }

    /** One turn of do_crawler's loop; f is what crawler_crawl returns. */
    method Crawl(i: nat, f: Fetch)
      requires Separate() && ThreadEnabled(View(), i) && items[i].pc.Fetching?
      modifies items, `hist
      ensures Separate() && View() == CrawlerStep(c, old(View()), i, f)
    {
      var u, timeout: int := items[i].pc.url, items[i].pc.left;
      hist := Noted(hist, u, 1, 0);
      var next: Pc;
      if f.code == OK {
        next := if f.raw == [] then LowerLock(u) else PushResult(u, Filter.Links(c.domain, f.raw));
      } else {
        timeout := timeout - 1;
        next := if Retries(f.code) && timeout > 0 then Fetching(u, timeout) else LowerLock(u);
      }
      items[i] := items[i].(pc := next);
    }

    /** do_crawler raises global_lock for a pushed result. */
    method RaiseLockOf(i: nat, f: Fetch)
      requires Separate() && ThreadEnabled(View(), i) && items[i].pc.RaiseLock?
      modifies items, globalLock, `hist
      ensures Separate() && View() == CrawlerStep(c, old(View()), i, f)
    {
      var t := items[i];
      globalLock.Increase();
      hist := Noted(hist, t.pc.url, 0, 1);
      items[i] := t.(pc := PostWork(t.pc.url));
    }

    /** do_crawler lowers global_lock when its job is over. */
    method LowerLockOf(i: nat, f: Fetch)
      requires Separate() && ThreadEnabled(View(), i) && items[i].pc.LowerLock?
      modifies items, globalLock, `hist
      ensures Separate() && View() == CrawlerStep(c, old(View()), i, f)
    {
      var t := items[i];
      globalLock.Decrease();
      hist := Noted(hist, t.pc.url, 0, -1);
      items[i] := t.(pc := PostDone(t.pc.url));
    }

    /** do_crawler posts work_sem, for a pushed result and once more at its end. */
    method PostWorkSem(i: nat, f: Fetch)
      requires Separate() && ThreadEnabled(View(), i) && (items[i].pc.PostWork? || items[i].pc.PostDone?)
      modifies items, `workSem
      ensures Separate() && View() == CrawlerStep(c, old(View()), i, f)
    {
      var t := items[i];
      workSem := workSem + 1;
      items[i] := t.(pc := if t.pc.PostWork? then LowerLock(t.pc.url) else MoreIdle);
    }

    /** thread_pool_set_job by the coordinator. */
    method SetJob(j: Job)
      requires Separate()
      modifies `hist, jobQueue.Repr
      ensures Separate() && View() == PushJob(old(View()), j)
      ensures fresh(jobQueue.Repr - old(jobQueue.Repr)) && urlQueue.Repr == old(urlQueue.Repr)
    {
      jobQueue.Push(j);
      hist := hist.(pushed := hist.pushed + 1,
                    scheduled := if j.DoCrawler? then hist.scheduled + [j.url] else hist.scheduled);
    }

    /** main: seed the job queue. */
    method Seed()
      requires Separate() && Seeding(coord)
      modifies Own(), jobQueue.Repr
      ensures Separate() && View() == SeedStep(c, old(View()))
      ensures fresh(jobQueue.Repr - old(jobQueue.Repr)) && urlQueue.Repr == old(urlQueue.Repr)
    {
      match coord
      case SeedPush =>
        SetJob(DoCrawler(c.seed));
        coord := SeedCount;
      case SeedCount =>
        globalLock.Increase();
        coord := SeedPost;
      case SeedPost =>
        jobSem := jobSem + 1;
        coord := Test;
    }

    /** do_work from the head of its loop to the pop of a result and its insertion. */
    method AwaitWork()
      requires Separate() && CoordEnabled(View())
      requires !Seeding(coord) && !Scheduling(coord) && !Leaving(coord) && coord != Pop
      modifies this`coord, this`workSem, this`hist
      ensures Separate() && View() == WaitStep(c, old(View()))
    {
      match coord
      case Test =>
        var lock := globalLock.Get();
        if lock != 0 && |graph.vertices| < c.capacity {
          coord := WaitWork;
        } else {
          coord := ExitPush(0);
          hist := hist.(drained := lock == 0);
        }
      case WaitWork =>
        workSem := workSem - 1;
        coord := Size;
      case Size =>
        var size := urlQueue.Size();
        coord := if size > 0 then Pop else Test;
    }

    /** The pop of a result and its insertion in the graph. */
    method PopUrl()
      requires Separate() && coord == Pop && urlQueue.contents != []
      requires FindVertex(graph, urlQueue.contents[0].url) == -1 && |graph.vertices| < c.capacity
      modifies this`coord, this`graph, urlQueue.Repr
      ensures Separate() && View() == WaitStep(c, old(View()))
      ensures jobQueue.Repr == old(jobQueue.Repr) && fresh(urlQueue.Repr - old(urlQueue.Repr))
    {
      var info := urlQueue.Top();
      graph := InsertEdge(graph, info.url, info.links);
      coord := Scan(info.links);
    }

    /** do_work looks at the next link of the result. */
    method ScanLink()
      requires Separate() && coord.Scan?
      requires coord.rest != [] ==> coord.rest[0] in graph.infos
      modifies Own(), jobQueue.Repr
      ensures Separate() && View() == ScheduleStep(old(View()))
      ensures fresh(jobQueue.Repr - old(jobQueue.Repr)) && urlQueue.Repr == old(urlQueue.Repr)
    {
      var rest := coord.rest;
      if rest == [] {
        coord := Release;
      } else if graph.infos[rest[0]].marked {
        coord := Scan(rest[1..]);
      } else {
        SetJob(DoCrawler(rest[0]));
        graph := Mark(graph, rest[0]);
        coord := JobCount(rest[1..]);
      }
    }

    /** do_work counts the job it has pushed. */
    method CountJob()
      requires Separate() && coord.JobCount?
      modifies `coord, globalLock
      ensures Separate() && View() == ScheduleStep(old(View()))
    {
      globalLock.Increase();
      coord := JobPost(coord.rest);
    }

    /** do_work posts the job it has counted. */
    method PostJob()
      requires Separate() && coord.JobPost?
      modifies `coord, `jobSem
      ensures Separate() && View() == ScheduleStep(old(View()))
    {
      jobSem := jobSem + 1;
      coord := Scan(coord.rest);
    }

    /** do_work gives up the unit of the result it has processed. */
    method ReleaseResult()
      requires Separate() && coord.Release?
      modifies `coord, globalLock
      ensures Separate() && View() == ScheduleStep(old(View()))
    {
      globalLock.Decrease();
      coord := Test;
    }

    /** do_work after its loop. */
    method Shutdown()
      requires Separate() && Leaving(coord) && coord != Halted
      modifies Own(), jobQueue.Repr
      ensures Separate() && View() == ShutdownStep(c, old(View()))
      ensures fresh(jobQueue.Repr - old(jobQueue.Repr)) && urlQueue.Repr == old(urlQueue.Repr)
    {
      match coord
      case ExitPush(k) =>
        if k < items.Length {
          SetJob(DoExit);
          coord := ExitPost(k);
        } else {
          coord := Halted;
        }
      case ExitPost(k) =>
        jobSem := jobSem + 1;
        coord := ExitPush(k + 1);
    }

    /** One action of do_crawler. */
    method CrawlerAction(i: nat, f: Fetch)
      requires Separate() && ThreadEnabled(View(), i) && InCrawler(items[i].pc)
      modifies items, globalLock, `workSem, `hist, urlQueue.Repr
      ensures Separate() && View() == CrawlerStep(c, old(View()), i, f)
      ensures jobQueue.Repr == old(jobQueue.Repr) && fresh(urlQueue.Repr - old(urlQueue.Repr))
    {
      match items[i].pc
      case Fetching(_, _) => Crawl(i, f);
      case PushResult(_, _) => PushUrl(i, f);
      case RaiseLock(_) => RaiseLockOf(i, f);
      case LowerLock(_) => LowerLockOf(i, f);
      case PostWork(_) => PostWorkSem(i, f);
      case PostDone(_) => PostWorkSem(i, f);
    }

    /** One action of thread_do_job between jobs. */
    method PoolAction(i: nat)
      requires Separate() && ThreadEnabled(View(), i) && !InCrawler(items[i].pc) && items[i].pc != SetIdle
      requires items[i].pc == TakeJob ==> jobQueue.contents != []
      modifies items, threadIdle, jobDone, `jobSem, jobQueue.Repr
      ensures Separate() && View() == PoolStep(old(View()), i)
      ensures urlQueue.Repr == old(urlQueue.Repr) && fresh(jobQueue.Repr - old(jobQueue.Repr))
    {
      match items[i].pc
      case TakeJob => GetJob(i);
      case LessIdle => LeaveIdle(i);
      case MoreIdle => EnterIdle(i);
      case CountPool => CountForPool(i);
      case CountOwn => CountForSelf(i);
      case Start => ThreadDoJob(i);
      case Loop => ThreadDoJob(i);
      case WaitJob => ThreadDoJob(i);
    }

    /** One action of a pool thread: possible whenever it is enabled, and Valid is kept. */
    method ThreadAction(i: nat, f: Fetch)
      requires Valid() && Enabled(View(), OfThread(i, f))
      modifies Own(), jobQueue.Repr, urlQueue.Repr
      ensures Valid() && View() == Next(c, old(View()), OfThread(i, f))
      ensures fresh(jobQueue.Repr - old(jobQueue.Repr)) && fresh(urlQueue.Repr - old(urlQueue.Repr))
    {
      ghost var was := View();
      Theorems.InvThread(c, was, i, f);
      if InCrawler(items[i].pc) {
        CrawlerAction(i, f);
      } else if items[i].pc == SetIdle {
        Exit(i);
      } else {
        if items[i].pc == TakeJob {
          Theorems.JobIsThere(was, i);
        }
        PoolAction(i);
      }
    }

    /** One action of do_work while it schedules the links of a result. */
    method ScheduleAction()
      requires Separate() && Scheduling(coord)
      requires coord.Scan? && coord.rest != [] ==> coord.rest[0] in graph.infos
      modifies Own(), jobQueue.Repr
      ensures Separate() && View() == ScheduleStep(old(View()))
      ensures fresh(jobQueue.Repr - old(jobQueue.Repr)) && urlQueue.Repr == old(urlQueue.Repr)
    {
      match coord
      case Scan(_) => ScanLink();
      case JobCount(_) => CountJob();
      case JobPost(_) => PostJob();
      case Release => ReleaseResult();
    }

    /** One action of do_work at the head of its loop. */
    method WaitAction()
      requires Separate() && CoordEnabled(View())
      requires !Seeding(coord) && !Scheduling(coord) && !Leaving(coord)
      requires coord == Pop ==>
                 && urlQueue.contents != [] && |graph.vertices| < c.capacity
                 && FindVertex(graph, urlQueue.contents[0].url) == -1
      modifies `coord, `workSem, `hist, `graph, urlQueue.Repr
      ensures Separate() && View() == WaitStep(c, old(View()))
      ensures jobQueue.Repr == old(jobQueue.Repr) && fresh(urlQueue.Repr - old(urlQueue.Repr))
    {
      if coord == Pop {
        PopUrl();
      } else {
        AwaitWork();
      }
    }

    /** One action of the coordinator. */
    method CoordAction()
      requires Valid() && Enabled(View(), OfCoordinator)
      modifies Own(), jobQueue.Repr, urlQueue.Repr
      ensures Valid() && View() == Next(c, old(View()), OfCoordinator)
      ensures fresh(jobQueue.Repr - old(jobQueue.Repr)) && fresh(urlQueue.Repr - old(urlQueue.Repr))
    {
      ghost var was := View();
      Theorems.InvCoord(c, was);
      if Seeding(coord) {
        Seed();
      } else if Scheduling(coord) {
        if coord.Scan? && coord.rest != [] {
          Completeness.NextLinkIsKnown(c, was);
        }
        ScheduleAction();
      } else if Leaving(coord) {
        Shutdown();
      } else {
        if coord == Pop {
          Completeness.QueuedIsNew(c, was);
        }
        WaitAction();
      }
    }
  }
}
