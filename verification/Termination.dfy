/** Every run is finite under every schedule, and ends with everything finished. The measure is
    lexicographic: vertices still free, then a weight of links to scan, jobs, tokens and
    program points. Only the insertion of a vertex may raise the weight, because a page can
    list any number of links. */
module Termination {
  import opened Protocol
  import opened Sums
  import opened Accounting
  import opened Completeness
  import opened Theorems

  const CRAWL_WEIGHT := 21
  const EXIT_WEIGHT := 8
  const TOKEN_WEIGHT := 3
  const LINK_WEIGHT := 25

  function JobWeight(j: Job): int { if j.DoCrawler? then CRAWL_WEIGHT else EXIT_WEIGHT }

  /** Steps a thread has left before it waits again, with the tokens it will post. */
  function ThreadWeight(t: ThreadItem): int {
    match t.pc
    case Start => 4
    case Loop => 3
    case WaitJob => 2
    case LessIdle => 1
    case TakeJob => 0
    case Fetching(_, left) => 17 + left
    case PushResult(_, _) => 17
    case RaiseLock(_) => 16
    case PostWork(_) => 15
    case LowerLock(_) => 11
    case PostDone(_) => 10
    case SetIdle => 7
    case MoreIdle => 6
    case CountPool => 5
    case CountOwn => 4
    case Finished => 0
  }

  /** The wait is worth all of the shutdown. */
  function WaitWeight(c: Config): int { 10 * c.n + 2 }

  function CoordWeight(c: Config, p: CoordPc): int {
    match p
    case SeedPush => WaitWeight(c) + 25
    case SeedCount => WaitWeight(c) + 3
    case SeedPost => WaitWeight(c) + 2
    case Test => WaitWeight(c) + 1
    case WaitWork => WaitWeight(c)
    case Size => WaitWeight(c) + 2
    case Pop => WaitWeight(c) + 1
    case Scan(rest) => WaitWeight(c) + 3 + LINK_WEIGHT * |rest|
    case JobCount(rest) => WaitWeight(c) + 5 + LINK_WEIGHT * |rest|
    case JobPost(rest) => WaitWeight(c) + 4 + LINK_WEIGHT * |rest|
    case Release => WaitWeight(c) + 2
    case ExitPush(k) => 10 * (c.n - k) + 1
    case ExitPost(k) => 10 * (c.n - k) - 8
    case Halted => 0
  }

  ghost function Weight(c: Config, s: State): int {
    CoordWeight(c, s.coord) + Sum(ThreadWeight, s.threads) + Sum(JobWeight, s.jobs) + TOKEN_WEIGHT * s.workSem
  }

  ghost function Free(c: Config, s: State): int {
    c.capacity - |s.graph.vertices|
  }

  lemma CoordWeightIsNatural(c: Config, s: State)
    requires ExitLaw(c, s)
    ensures CoordWeight(c, s.coord) >= 0
  {
  }

  lemma MeasureIsNatural(c: Config, s: State)
    requires Inv(c, s)
    ensures Free(c, s) >= 0 && Weight(c, s) >= 0
  {
    CoordWeightIsNatural(c, s);
    NonNegative(ThreadWeight, s.threads);
    NonNegative(JobWeight, s.jobs);
  }

  /** Every thread step lowers the weight: a job it takes weighs more than running it. */
  lemma ThreadLowersWeight(c: Config, s: State, t: State, i: nat)
    requires i < |s.threads| && ThreadEffect(s, t, i) && Shape(c, s)
    ensures Weight(c, t) < Weight(c, s)
  {
    assert WellFormed(s.threads[i]);
    ThreadChange(s, t, i, ThreadWeight);
  }

  /** Every coordinator step but the insertion of a vertex lowers the weight. */
  lemma CoordLowersWeight(c: Config, s: State)
    requires CoordEnabled(s) && ExitLaw(c, s) && !CoordStep(c, s).fault && !s.coord.Pop?
    ensures Weight(c, CoordStep(c, s)) < Weight(c, s)
  {
    var t := CoordStep(c, s);
    CoordHasEffect(c, s);
    if Pushes(s.coord, t.coord) {
      Push(s.jobs, t.jobs[|s.jobs|]);
    }
    if Scheduling(s.coord) {
      ScanShrinks(c, s);
    }
  }

  /** Scanning consumes one link per step. */
  lemma ScanShrinks(c: Config, s: State)
    requires Scheduling(s.coord) && !ScheduleStep(s).fault
    ensures var q := ScheduleStep(s).coord;
            CoordWeight(c, q) + (if q.JobCount? then CRAWL_WEIGHT else 0) < CoordWeight(c, s.coord)
  {
  }

  /** The measure drops at every step. */
  lemma StepLowers(c: Config, s: State, a: Action)
    requires Inv(c, s) && Enabled(s, a)
    ensures var t := Next(c, s, a);
            Free(c, t) < Free(c, s) || (Free(c, t) == Free(c, s) && Weight(c, t) < Weight(c, s))
  {
    InvStep(c, s, a);
    match a
    case OfThread(i, f) =>
      ThreadHasEffect(c, s, i, f);
      ThreadLowersWeight(c, s, ThreadStep(c, s, i, f), i);
      ThreadKeepsGraph(c, s, i, f);
    case OfCoordinator =>
      if s.coord.Pop? {
        PopInserts(c, s);
      } else {
        CoordLowersWeight(c, s);
        CoordKeepsVertices(c, s);
      }
  }

  lemma ThreadKeepsGraph(c: Config, s: State, i: nat, f: Fetch)
    requires i < |s.threads|
    ensures ThreadStep(c, s, i, f).graph == s.graph
  {
  }

  lemma CoordKeepsVertices(c: Config, s: State)
    requires !s.coord.Pop?
    ensures CoordStep(c, s).graph.vertices == s.graph.vertices
  {
  }

  /** The same for a step between two states. */
  lemma StepDescends(c: Config, s: State, t: State)
    requires Inv(c, s) && Step(c, s, t)
    ensures Inv(c, t)
    ensures 0 <= Free(c, t) < Free(c, s) || (Free(c, t) == Free(c, s) && 0 <= Weight(c, t) < Weight(c, s))
    ensures Free(c, s) >= 0 && Weight(c, s) >= 0
  {
    var a :| Enabled(s, a) && t == Next(c, s, a);
    InvStep(c, s, a);
    StepLowers(c, s, a);
    MeasureIsNatural(c, s);
    MeasureIsNatural(c, t);
  }

  /** A schedule that goes on for as long as something can step. */
  ghost predicate MaximalRun(c: Config, run: nat -> State) {
    && run(0) == Init(c)
    && forall k: nat :: if CanStep(c, run(k)) then Step(c, run(k), run(k + 1)) else run(k + 1) == run(k)
  }

  lemma {:induction false} RunFinishes(c: Config, run: nat -> State, k: nat) returns (m: nat)
    requires c.n > 0 && MaximalRun(c, run) && Inv(c, run(k))
    ensures AllFinished(run(m)) && Inv(c, run(m))
    decreases Free(c, run(k)), Weight(c, run(k))
  {
    if CanStep(c, run(k)) {
      StepDescends(c, run(k), run(k + 1));
      m := RunFinishes(c, run, k + 1);
    } else {
      StuckIsFinished(c, run(k));
      m := k;
    }
  }

  /** Under every schedule and whatever the fetches return, the coordinator and all threads
      finish after finitely many steps and leave everything clean. If global_lock is then 0, as
      it is unless the graph is full, exactly the reachable URLs have been crawled. */
  lemma EveryMaximalRunFinishes(c: Config, run: nat -> State) returns (m: nat)
    requires c.n > 0 && MaximalRun(c, run)
    ensures AllFinished(run(m)) && Inv(c, run(m)) && Clean(c, run(m))
    ensures |run(m).graph.vertices| < c.capacity ==> run(m).lock == 0
    ensures run(m).lock == 0 ==>
              forall u :: u in run(m).hist.scheduled <==> Reach(run(m).hist.results, c.seed, u)
  {
    InvInit(c);
    m := RunFinishes(c, run, 0);
    FinishedIsClean(c, run(m));
    if run(m).lock == 0 {
      ProcessedIsComplete(c, run(m));
    }
  }

  /** No run is infinite: no sequence of states makes a step at every index. */
  lemma NoInfiniteRun(c: Config, run: nat -> State)
    requires run(0) == Init(c)
    ensures exists k: nat :: !Step(c, run(k), run(k + 1))
  {
    InvInit(c);
    if Endless(c, run) {
      Descend(c, run, 0);
    }
  }

  ghost predicate Endless(c: Config, run: nat -> State) {
    forall k: nat :: Step(c, run(k), run(k + 1))
  }

  lemma {:induction false} Descend(c: Config, run: nat -> State, k: nat)
    requires Endless(c, run) && Inv(c, run(k))
    ensures false
    decreases Free(c, run(k)), Weight(c, run(k))
  {
    StepDescends(c, run(k), run(k + 1));
    Descend(c, run, k + 1);
  }
}
