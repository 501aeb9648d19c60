# A verified model of the link crawler

The program crawls one web site with a pool of threads. Each pool thread takes jobs from a
shared queue (`thread_pool.c`); a crawl job (`do_crawler` in `worker.c`) fetches a page, filters
its links and hands them over on a second queue; one coordinator (`do_work`) pops these results,
inserts them in the web graph and schedules a crawl job for every link it has not marked yet.
The coordinator detects the end of the crawl by one counter, `global_lock`, and then stops the
pool with one exit job per thread.

This project models that program in Dafny and proves what it is for: the crawl always ends,
never deadlocks, covers exactly the reachable pages whatever the schedule, and shuts down
cleanly. The containers below it are proved against sequences, sets and maps: the linked queue
and list, the Bloom filter with its hash functions, the hash table, and the URL parser.

## How the crawl is modelled

- One action is one operation on shared state (a counter or queue operation under its mutex, or a
  semaphore operation) with the thread-local code up to the next one. Every interleaving of the
  actions of all pool threads and the coordinator is a run. `Protocol` gives the states and
  actions, with a program counter per thread that names the source line about to be executed.
- The number of threads is any number (at least one where a result needs a thread at all), the
  graph holds any number of vertices (`capacity` is `VERTEX_DEFAULT`), and domain and seed URL are
  arbitrary. The coordinator is `main`'s seeding of the queue (`main.c:67-69`, done before the
  thread of `do_work` is created) followed by `do_work`. Fetching is outside: `crawler_crawl`
  returns an arbitrary code and an arbitrary list of links at every attempt.
- `GraphStore` is the graph as `webgraph.c` keeps it, over the dictionary of `dict.c`, with pointers
  from vertices and edges to dictionary nodes.
- The graph is `webgraph.c` as far as the crawl uses it (`webgraph.c:27-116`): insertion of a
  vertex with its edges and lookup; `webgraph_unittest.c:55-107` states what it promises.
- A `fault` flag stands for reading an empty queue, following a missing vertex and overrunning
  the vertex array. It is proved never to be set.
- A history (URLs scheduled, results pushed, attempts and lock changes per URL, jobs pushed, and
  whether the coordinator left because it read 0) is written by the actions and read by none.
- `Accounting` says what every counter and semaphore equals. A thread between two operations
  that belong together (such as `worker.c:182` and `worker.c:183`) is a correction term.
  `JobsOnce` follows each URL from job to vertex; `Completeness` relates graph, marks and results;
  `Locality` says which links a result can hold. `Theorems`, `Termination` and `Confluence` hold
  the results about whole runs, and `Scenarios` concrete runs that meet their conditions.
- `Site` is the same protocol as the program keeps it: linked queues, counters, semaphores and the
  thread array changed in place. Each method refines the step of the protocol with the same
  program point, so every result about runs holds of it.
- `Confluence` adds a web whose answer depends on the URL and the number of the attempt. Its pages are the URLs that can be
  reached from the seed and yield links; whether a crawl is complete, and how large its graph
  becomes, depends on their number alone.

Where the code and its own documentation differ, the code is modelled:

- `http_url.h:10-18` allows a colon in path and search; the parser refuses such a URL when it has
  no port, because it takes the first colon for the end of the host
  (`HttpUrls.ColonWithoutPortIsRefused`; `HttpUrls.RoundTripIff` is the exact condition).
- The pattern for a host at `http_url.h:26` allows an underscore, the parser does not
  (`HttpUrls.UnderscoreIsRefused`). `HttpUrls.GrammarIsRecognized` is the part of the grammar that
  is recognized.
- `list_push_front` does not move `tail`. On an empty list the next `list_push_back` loses the
  first element (`Lists.List.PushFront`, `Lists.PushFrontThenBack`).
- `filter` is to crawl only local links (`worker.c:31`), but `check` applies no domain test to a
  string shorter than the domain (`worker.c:18`): with "http://www.example.com" it passes
  "http://a.cn/x.html" (`Filter.ShortLinkStrays`). `Filter.CheckIff` is the exact condition,
  `Theorems.CrawlIsLocal` says what it means for whole crawls, and `Scenarios.SchedulableIff` that
  every string it lets through is in fact crawled in some run. Among the strings that are long
  enough the test is a comparison of prefixes, which is the host only if no host character follows
  (`HttpUrls.SameHostIff`, `HttpUrls.LongerHostStrays`).
- A bucket's `size` is never lowered by a removal: it is the chain length plus the removals. That
  is still enough for `dict_destroy`, which also stops when `size` reaches 0, to free everything.
- `filter` fails on an empty list, so a page without links pushes no result and never becomes a
  vertex.
- The coordinator may read a count of 0 while a crawler still stands between its push and the
  increase (`worker.c:183`) or before its last post (`worker.c:219`), and nowhere else.
  `Theorems.LockIsSound` is the exact condition; `Scenarios.ZeroBeforeIncrease` and
  `Scenarios.ZeroBeforeLastPost` show that both cases occur.

## Model

`webgraph.c` and `main.c` hold comments in another encoding than UTF-8. A row about their code cites
the place that calls it or states what it promises, and its third column begins with the lines of
the code.

| member | source | states |
|---|---|---|
| Theorems.InvReachable | worker.c:63-222 | every state of every run satisfies the whole invariant: accounting, one job per URL, coverage, and no fault |
| Theorems.NeverFaults | worker.c:72-93 | no pop from an empty queue, every scanned link is a known vertex, the vertex array never overflows, and a popped result is never a second one of its URL |
| Theorems.LockIsSound | worker.c:68-117 | `global_lock` is the outstanding work up to the two corrections and never negative; the coordinator reads 0 if and only if there is no result, no crawl job, and no crawler except between push and increase or before its last post |
| Scenarios.ZeroBeforeLastPost | worker.c:218-219 | for every pool and seed a run in which 0 is read while a crawler stands before its last post |
| Scenarios.ZeroBeforeIncrease | worker.c:182-183 | and one in which it stands between push and increase, its result already processed on an older token |
| Theorems.NoLostWakeUp | worker.c:70-73 | while the coordinator blocks, a crawl job is queued or a crawler will still post; `work_sem` covers `urlqueue`, and `job_sem` with its corrections is the length of the job queue |
| Theorems.JobIsThere | thread_pool.c:73-77 | a thread holding a token of `job_sem` finds a job |
| Theorems.StuckIsFinished | thread_pool.c:66-94 | where no thread can step, all have returned |
| Theorems.NoDeadlock | thread_pool.c:66-94 | in every reachable state some thread can step or all have returned |
| Theorems.ShutdownIsFifo | worker.c:133-142 | exit jobs pushed are exit jobs queued plus threads that took one; no exit job is taken before a crawl job |
| Theorems.FinishedIsClean | thread_pool.c:71-88 | at the end the job queue is empty, `job_sem` is 0, all threads are idle, every job is counted once by the pool and once by a thread, and `global_lock` is the number of results left unprocessed |
| Theorems.EachUrlOnce | worker.c:150-222 | each URL is scheduled at most once, fetched at most 3 times, yields at most one result, and its job changes `global_lock` by 0 or -1 |
| JobsOnce.FetchEndsOrRepeats | worker.c:171-214 | what each of the nine codes of a fetch does: a page with links is pushed, timeout, overflow, failure and an unreached host are tried again while an attempt is left, the other codes end the job |
| Theorems.CrawlIsComplete | worker.c:68-118 | only reachable URLs are scheduled; whenever no result waits exactly the reachable ones are, and every result is in the graph; that is so once the coordinator has left on 0, and at the end exactly if `global_lock` is 0 |
| Theorems.ProcessedIsComplete | worker.c:84-111 | when every result has been processed, at any time, the scheduled URLs are exactly those on a path from the seed through the results |
| Theorems.CrawlIsLocal | worker.c:18-32 | in every reachable state every scheduled URL other than the seed ends in ".html" or ".htm", and begins with the domain or is shorter than it |
| Scenarios.SchedulableIff | worker.c:18-32 | exactly the seed and the strings of that kind are scheduled in some run |
| Locality.ThreadKeepsLocal | worker.c:170-182 | every result pushed is what `filter` makes of some list, for arbitrary fetches |
| Locality.CoordKeepsLocal | worker.c:68-142 | the coordinator keeps that |
| Locality.ReachedPasses | worker.c:84-104 | whatever is reached through such results passes `check`, except the seed |
| Theorems.GraphIsResults | worker.c:73-78 | vertex k of the graph carries exactly the links of the result of its URL, and is the only vertex of that URL |
| Termination.ThreadLowersWeight | thread_pool.c:71-88 | every step of a pool thread lowers the weight of the state |
| Termination.CoordLowersWeight | worker.c:84-107 | so does every step of the coordinator except the insertion of a vertex |
| Termination.StepLowers | worker.c:68-142 | free vertices, then weight, decrease lexicographically at every action |
| Termination.EveryMaximalRunFinishes | worker.c:63-222 | under every schedule and any answers of the network the program ends, clean; `global_lock` is then 0 unless the graph is full, and if it is 0 exactly the reachable URLs have been crawled |
| Termination.NoInfiniteRun | worker.c:68-142 | no schedule runs forever |
| Confluence.ThreadKeepsWeb | worker.c:165-219 | against a fixed web, results agree with the web, and a job that is over has a result exactly if the page has links |
| Confluence.CoordKeepsWeb | worker.c:68-142 | the coordinator keeps that, since it lets no job vanish |
| Confluence.YieldsIff | worker.c:165-214 | a URL yields a result exactly if one of attempts 0 to 2 gives a page with links and every earlier one ended with a timeout, an overflow, a failure or an unreached host |
| Confluence.ResultIff | worker.c:165-214 | when a run is over, exactly those of the scheduled URLs have a result |
| Confluence.CrawlsTheReachableWeb | worker.c:84-111 | a crawl that ends with a count of 0 has scheduled exactly the URLs the web makes reachable from the seed through filtered links, and has a result for exactly the pages among them |
| JobsOnce.ResultsCounted | worker.c:73-78 | at any time the results ever pushed are as many as the vertices and the queued results together: none is lost and none counted twice |
| Confluence.NeverMorePages | worker.c:73-78 | at any time there are no more vertices and queued results than the web has pages |
| Confluence.CompleteIff | worker.c:68-118 | a crawl is complete if and only if the web has finitely many pages and no more than the graph has room for: a condition on the web alone |
| Confluence.VerticesOfWeb | worker.c:68-118 | the final graph has as many vertices as the web has pages, or as many as it has room for |
| Confluence.WebIsCrawled | worker.c:63-222 | every maximal run ends and has then crawled all of a web that fits, or filled the graph |
| Confluence.SameOutcome | worker.c:68-118 | any two final states against the same web have equally many vertices and are both complete or neither; if complete they have the same scheduled URLs, results and graph |
| Confluence.ScheduleDoesNotMatter | worker.c:63-222 | any two maximal runs against the same web end with equally many vertices, and with the same outcome as soon as one of them is complete |
| Accounting.AccountsInit | thread_pool.c:3-22 | the counting laws hold when the pool has been initialised |
| Accounting.AccountsThread | thread_pool.c:66-94 | every action of a pool thread keeps all counting laws |
| Accounting.AccountsCoord | worker.c:68-142 | every action of the coordinator keeps all counting laws |
| Accounting.ThreadKeepsLock | worker.c:182-218 | a crawler keeps the law of `global_lock` although it pushes before it raises the count |
| Accounting.CoordKeepsLock | worker.c:103-117 | the coordinator keeps it although it pushes a job before it counts it |
| Accounting.ThreadKeepsSemaphores | thread_pool.c:73-77 | threads keep the laws of both semaphores and the wake-up law |
| Accounting.CoordKeepsSemaphores | worker.c:70-106 | the coordinator keeps them, also when it takes a token without finding a result |
| Accounting.ThreadKeepsCounters | thread_pool.c:75-87 | `thread_idle` and both kinds of `job_done` stay conserved |
| Accounting.ThreadKeepsExits | worker.c:43-49 | threads keep the balance of exit jobs and the order of the job queue |
| Accounting.CoordKeepsExits | worker.c:136-142 | the coordinator keeps them and pushes no crawl job behind an exit job |
| JobsOnce.OnlyRunner | worker.c:93-106 | two threads never run jobs of the same URL |
| JobsOnce.CrawlerMovesOwnJob | worker.c:160-219 | each step of a crawler moves its own job to the next point of its life, with the attempts and lock changes made so far |
| JobsOnce.CrawlerKeepsOnce | worker.c:165-219 | a crawler's step keeps the once-only law of all URLs |
| JobsOnce.TakeKeepsOnce | thread_pool.c:77-82 | taking a job turns a queued ticket of a URL into a running one |
| JobsOnce.ThreadKeepsOnce | thread_pool.c:66-94 | every action of a pool thread keeps the once-only law |
| JobsOnce.ScheduleKeepsOnce | worker.c:93-104 | scheduling an unmarked URL gives it its first and only ticket |
| JobsOnce.PopKeepsOnce | worker.c:73-78 | popping moves a result from the queue to the graph without duplicating it |
| Completeness.CoordKeepsCovers | worker.c:63-142 | every coordinator action keeps the once-only law and the coverage law, and cannot fault |
| Completeness.ThreadKeepsCovers | worker.c:170-184 | every thread action keeps the coverage law; after a drain nothing can be pushed |
| Completeness.QueuedIsNew | worker.c:72-78 | the first queued result is of a URL that is not a vertex, so no page is ever inserted twice |
| Completeness.PopInserts | worker.c:73-78 | the pop inserts exactly one vertex with the links of the result |
| Completeness.NextLinkIsKnown | worker.c:85-93 | every link to be scanned is known to the graph, and it was scheduled exactly if it is marked |
| Completeness.JobKeepsCovers | worker.c:93-106 | scheduling keeps marks and scheduled URLs equal and every scheduled URL reachable |
| Completeness.ZeroMeansDrained | worker.c:68 | a count of 0 at the loop test means that no job, no result and no thread can add anything |
| Completeness.ClosedHasPath | worker.c:84-104 | what contains the seed and is closed under links contains every reachable URL |
| WebGraph.AddEdgesEffect | webgraph_unittest.c:82-107 | `webgraph.c:110-115`: the edges appended are the listed ones, every listed URL becomes known, known ones keep number and mark |
| WebGraph.InsertEdgeOfNewVertex | webgraph_unittest.c:55-107 | `webgraph.c:96-116`: one new vertex with exactly the listed edges, marked, nothing else marked, and numbering stays a bijection |
| WebGraph.InsertEdgeOfKnownVertex | webgraph_unittest.c:58-67 | `webgraph.c:104-107`: a URL that is a vertex already gets the edges appended to that vertex, and nothing else changes |
| GraphStore.WebG.constructor | webgraph_unittest.c:25-26 | `webgraph.c:7-25`: the empty graph |
| GraphStore.WebG.FindVertexInfo | worker.c:85 | `webgraph.c:83-88`: the live node of a known URL, null for an unknown one |
| GraphStore.WebG.FindVertex | worker.c:156 | `webgraph.c:90-94`: refines the lookup on values |
| GraphStore.WebG.NewInfo | dict.c:49-63 | insertion for an absent URL unlinks no node, so no pointer into the dictionary is lost |
| GraphStore.WebG.SetInfo | webgraph_unittest.c:63-67 | `webgraph.c:72-75`: a write through a node's pointer changes that entry of the graph and no other |
| GraphStore.WebG.MarkInfo | worker.c:104 | setting `in` through the pointer is the mark of that URL and of no other |
| GraphStore.WebG.InsertVertexInfo | webgraph_unittest.c:93-107 | `webgraph.c:27-50`: refines the operation on values; all pointers stay good |
| GraphStore.WebG.InsertVertex | webgraph_unittest.c:82-91 | `webgraph.c:52-81`: refines the operation on values, for a known URL and for a new one |
| GraphStore.WebG.AddEdge | webgraph_unittest.c:58-60 | `webgraph.c:110-115`: one edge: a pointer to the live node of its target |
| GraphStore.WebG.AddEdges | webgraph_unittest.c:58-60 | `webgraph.c:110-115`: the loop over the linked list refines the recursion on values |
| GraphStore.WebG.InsertEdge | worker.c:78 | `webgraph.c:96-116`: refines the insertion on values; vertices and edges only ever point to linked dictionary nodes |
| Site.InitThreads | thread_pool.c:11-14 | the thread array starts as the initial protocol state says |
| Site.Site.constructor | thread_pool.c:3-22 | the fresh objects stand for the initial protocol state |
| Site.Site.Start | thread_pool.c:3-22 | a new object satisfies the invariant of all runs, so the actions can start |
| Site.Site.GetJob | thread_pool.c:56-59 | takes the first job and nothing else |
| Site.Site.ThreadDoJob | thread_pool.c:70-73 | busy flag, loop test and wait refine the protocol |
| Site.Site.LeaveIdle | thread_pool.c:75 | `thread_idle` goes down before the job is taken |
| Site.Site.EnterIdle | thread_pool.c:85 | `thread_idle` goes up after the job |
| Site.Site.CountForPool | thread_pool.c:86 | the pool counts the job first |
| Site.Site.CountForSelf | thread_pool.c:87 | then the thread counts it for itself |
| Site.Site.Exit | worker.c:43-49 | an exit job clears the thread's flag and changes nothing else |
| Site.Site.PushUrl | worker.c:182 | the result goes to the end of `urlqueue` |
| Site.Site.Crawl | worker.c:165-214 | one turn of the retry loop: result, retry or give up, by code and attempts left |
| Site.Site.RaiseLockOf | worker.c:183 | the count rises after the push |
| Site.Site.LowerLockOf | worker.c:218 | the job gives up its unit |
| Site.Site.PostWorkSem | worker.c:184-219 | a token for a result, and one at the end of every job |
| Site.Site.SetJob | thread_pool.c:61-64 | a job goes to the end of the job queue |
| Site.Site.Seed | thread_pool.c:51-64 | `main.c:67-69`: the seed job is pushed, counted and posted, in this order |
| Site.Site.AwaitWork | worker.c:68-72 | loop test, wait and size test refine the protocol |
| Site.Site.PopUrl | worker.c:73-78 | the first result leaves the queue and enters the graph |
| Site.Site.ScanLink | worker.c:84-104 | an unmarked link is scheduled and marked, a marked one skipped |
| Site.Site.CountJob | worker.c:105 | the pushed job raises the count |
| Site.Site.PostJob | worker.c:106 | the counted job is posted |
| Site.Site.ReleaseResult | worker.c:117 | the processed result gives up its unit |
| Site.Site.ScheduleAction | worker.c:84-117 | every action between pop and release refines the protocol step |
| Site.Site.WaitAction | worker.c:68-78 | every action from the loop test to the pop refines the protocol step |
| Site.Site.Shutdown | worker.c:136-142 | as many exit jobs as threads, each pushed and posted |
| Site.Site.CrawlerAction | worker.c:150-222 | every action of a crawl job refines the protocol step |
| Site.Site.PoolAction | thread_pool.c:66-94 | every action of the pool loop refines the protocol step |
| Site.Site.ThreadAction | thread_pool.c:66-94 | an enabled thread action is always possible without a fault and keeps the invariant of all runs |
| Site.Site.CoordAction | worker.c:63-148 | the same for the coordinator |
| Counters.ThreadCounter.Increase | thread_counter.c:14-19 | adds one |
| Counters.ThreadCounter.Decrease | thread_counter.c:21-26 | subtracts one |
| Counters.ThreadCounter.Get | thread_counter.c:28-35 | reads the count |
| Counters.ThreadCounter.Set | thread_counter.c:37-43 | sets the count |
| Queues.Queue.constructor | queue.c:11-17 | an empty queue whose tail is the sentinel |
| Queues.Queue.Size | queue.c:24-27 | the stored length is the length of the chain |
| Queues.Queue.Push | queue.c:29-45 | appends at the end; tail and length follow |
| Queues.Queue.Pop | queue.c:52-59 | drops the first element; the tail returns to the sentinel with the last one |
| Queues.Queue.Top | queue.c:61-66 | takes the first element |
| Queues.Queue.Front | queue.c:47-50 | reads the first element |
| Queues.Queue.Clear | queue.c:68-73 | terminates with the empty queue |
| Queues.TsQueue.Push | ts_queue.c:25-30 | what was pushed is what was popped followed by what is queued, in order |
| Queues.TsQueue.Pop | ts_queue.c:32-37 | keeps that history |
| Queues.TsQueue.Top | ts_queue.c:48-53 | hands out elements in the order they were pushed, whichever thread asks |
| Queues.TsQueue.Clear | ts_queue.c:55-60 | everything pushed counts as popped |
| Queues.TsQueue.Size | ts_queue.c:62-69 | the length of what is queued |
| Lists.List.PushBack | list.c:20-36 | appends, or loses the chain when `tail` is still the sentinel |
| Lists.List.PushFront | list.c:38-51 | prepends; the list stays valid exactly if it was not empty |
| Lists.List.IndexOf | list.c:54-73 | the node at the index, null outside |
| Lists.List.Erase | list.c:81-103 | removes exactly that element, the last one included; changes nothing behind the end, also on a list that counts more than it holds |
| Lists.List.Insert | list.c:105-124 | inserts at the index; the list stays valid except at the front of an empty one |
| Lists.List.Clear | list.c:126-131 | terminates with the empty list wherever the length counts the elements, also when `tail` was left behind |
| Lists.List.ClearTurns | list.c:126-131 | on a list that counts more than it holds the loop never ends: its condition holds after any number of turns |
| Lists.List.First | list.c:138-141 | the first node, null for the empty list |
| Lists.List.Size | list.c:133-136 | the stored length is the number of elements |
| Lists.PushFrontThenBack | list.c:38-51 | the concrete run in which an element is lost while the length counts it |
| Hash.SdbmHash | hash.c:14-21 | the shifts compute the polynomial with multiplier 65599 modulo 2^32 |
| Hash.DjbHash | hash.c:36-43 | the polynomial with multiplier 33 and start 5381 over signed characters |
| Hash.BkdrHash | hash.c:46-54 | the polynomial with multiplier 131 over signed characters |
| Hash.SdbmConcat | hash.c:14-21 | hash(a + b) is hash(a) times 65599 to the length of b, plus hash(b) |
| Hash.DjbConcat | hash.c:36-43 | the same law, with the polynomial of b without the start value |
| Hash.BkdrConcat | hash.c:46-54 | the same law with multiplier 131 |
| Hash.XorBits | hash.c:8 | the exclusive or of the model is that of the binary digits |
| Hash.AndBits | hash.c:28-30 | so is the bitwise and |
| Hash.SdbmRecurrence | hash.c:14-21 | from the empty string on, one character more is 65599 times the hash plus the character modulo 2^32 |
| Hash.DjbRecurrence | hash.c:36-43 | from 5381 on, 33 times the hash plus the signed character modulo 2^32 |
| Hash.BkdrRecurrence | hash.c:46-54 | from 0 on, 131 times the hash plus the signed character modulo 2^32 |
| Hash.SaxHash | hash.c:3-12 | the loop computes the function that the recurrence describes |
| Hash.SaxRecurrence | hash.c:3-12 | from 0 on, the hash exclusive-or'd with 32 times itself, a quarter of itself and the character, modulo 2^32 |
| Hash.JsHash | hash.c:56-63 | the loop computes the function that the recurrence describes |
| Hash.JsRecurrence | hash.c:56-63 | the same from 1315423911 on, with signed characters |
| Hash.ElfHash | hash.c:22-34 | the loop computes the function that the recurrence describes |
| Hash.ElfRecurrence | hash.c:26-32 | over integers: v is 16 times the hash plus the signed character modulo 2^32, and the new hash is v modulo 2^28 with its bits 4 to 7 exclusive-or'd with the top four bits of v |
| Hash.ElfOfShort | hash.c:22-34 | up to six ASCII characters the hash is the polynomial with multiplier 16 |
| Hash.ElfBound | hash.c:22-34 | below 2^28 for every input |
| Bloom.BitOfOr | bloomfilter.c:3-4 | setting a bit of a byte changes that bit only |
| Bloom.Init | bloomfilter.c:12-57 | refuses exactly a size of 0 or no hash function, and is empty otherwise |
| Bloom.BF.constructor | bloomfilter.c:24-56 | enough bytes for every position, all clear |
| Bloom.BF.Layout | bloomfilter.c:3-4 | position n is bit n modulo 8 of byte n / 8, counted from the lowest |
| Bloom.BF.SetBit | bloomfilter.c:3 | adds one position to the set; padding stays clear |
| Bloom.BF.GetBit | bloomfilter.c:4 | membership in the set |
| Bloom.BF.Add | bloomfilter.c:79-87 | the set grows by exactly the positions of the string |
| Bloom.BF.Check | bloomfilter.c:93-100 | true exactly if all positions of the string are in the set |
| Bloom.CoverHas | bloomfilter.c:79-100 | after any sequence of adds every added string is found |
| Bloom.CoverBound | bloomfilter.c:79-87 | at most one bit per hash function and added string |
| Filter.CheckIff | worker.c:11-22 | `check` passes exactly the strings that end in ".html" or ".htm", have something before that, and begin with the domain or are shorter than it |
| Filter.ShortLinkStrays | worker.c:18 | a short link to another site that passes |
| Filter.OneIsKept | worker.c:30-36 | a single link that passes `check` is kept |
| Filter.FilterLinks | worker.c:24-41 | fails exactly on the empty list and otherwise appends exactly the kept links |
| Filter.FilterLoop | worker.c:30-36 | the same for any filter that starts empty |
| Filter.ConsiderLink | worker.c:32-35 | an element is kept exactly if it passes `check` and a position of it is not covered |
| Filter.IndexIsNew | worker.c:32 | which indices are kept, both directions |
| Filter.KeptIsSubsequence | worker.c:30-36 | the output is the input at those indices, in order |
| Filter.LinksIff | worker.c:28-35 | the link at an index is kept exactly if it passes `check` and one of its six hashes modulo 60 times the number of links differs from all six of every link kept before it |
| Filter.KeptDistinct | worker.c:31-35 | no link twice, and all pass `check` |
| Filter.KeptCovers | worker.c:31-35 | a link that passes `check` is lost only if all its positions are covered by kept ones |
| Filter.KeptFirst | worker.c:31-35 | the output is not empty if any link passes `check` |
| Filter.FilterLoad | worker.c:26-28 | at most a tenth of the filter's bits are ever set |
| Dicts.Bucket.Find | dict.c:78-90 | lookup in the chain as a map |
| Dicts.Bucket.Remove | dict.c:100-119 | unlinks the node of the key and no other; `size` stays |
| Dicts.Bucket.Insert | dict.c:43-68 | the new node in front, the old node of the key gone, the others kept in order |
| Dicts.Bucket.Drain | dict.c:26-32 | frees the whole chain although the loop also stops on `size` |
| Dicts.WithoutKeys | dict.c:100-119 | removal keeps every other node and exactly those |
| Dicts.MapOfWithout | dict.c:100-119 | removal is deletion from the map |
| Dicts.MapOfInsert | dict.c:43-68 | insertion is update of the map |
| Dicts.Dict.constructor | dict.c:3-19 | the empty map |
| Dicts.Dict.Index | dict.c:38-41 | a bucket number for every hash function |
| Dicts.Dict.Find | dict.c:92-98 | map lookup, with the node |
| Dicts.Dict.Insert | dict.c:70-76 | map update; other buckets and other keys' nodes keep identity and contents |
| Dicts.Dict.Remove | dict.c:121-125 | map deletion, whether or not the key is present |
| Dicts.Dict.OneNodePerKey | dict.c:38-76 | a key lives in at most one node of the whole table, in the bucket of its index |
| Dicts.Dict.KeyIsAt | dict.c:38-41 | a key that is present stands, with its value, in the bucket of its hash modulo the table size |
| Dicts.Dict.AbsentIsNotLinked | dict.c:49-50 | inserting an absent key unlinks nothing |
| Dicts.Dict.Destroy | dict.c:21-36 | terminates, leaves every bucket empty and frees the nodes of all chains in order |
| Dicts.Dict.ChainsHaveKeysOnce | dict.c:25-33 | those nodes are pairwise different, so none is freed twice |
| HttpUrls.CheckProtocol | http_url.c:3-12 | true exactly if every character is one of the ten digits and 52 letters |
| HttpUrls.CheckHost | http_url.c:14-23 | the same with dot and hyphen |
| HttpUrls.CheckPort | http_url.c:25-35 | true exactly if every character is one of the ten digits |
| HttpUrls.CheckPath | http_url.c:37-50 | digits, letters and the eleven signs listed there |
| HttpUrls.ParseS | http_url.c:52-111 | the cursor loop computes status and fields of the specification parser, on every input |
| HttpUrls.ParseProtocol | http_url.c:59-66 | the same behind a "://" that was found |
| HttpUrls.ParseAuthority | http_url.c:67-92 | the same for host and port, with their two refusals |
| HttpUrls.ParseTail | http_url.c:93-110 | the same for path and search |
| HttpUrls.ParsePrint | http_url.c:57-110 | a recognized URL is exactly its fields joined with the separators found, and the fields are well formed |
| HttpUrls.PrintParse | http_url.c:57-110 | unambiguous well-formed fields survive printing and parsing |
| HttpUrls.RoundTripIff | http_url.c:57-110 | well-formed fields survive exactly if the text is unambiguous |
| HttpUrls.RecognizedIff | http_url.c:57-110 | the recognized language is exactly the unambiguous prints of well-formed fields |
| HttpUrls.GrammarIsRecognized | http_url.h:20-29 | every URL of the grammar with a protocol, no underscore in the host and no colon behind it but that of a port is recognized with exactly its fields |
| HttpUrls.UnderscoreIsRefused | http_url.h:26 | a host with an underscore is always refused |
| HttpUrls.SepsAreUnique | http_url.c:57-110 | fields and text determine which separators were there |
| HttpUrls.FirstBadPartIsNamed | http_url.c:59-109 | each refusal names the first part with a character outside its class, and only those are refused |
| HttpUrls.RefusedFields | http_url.c:59-108 | a refused URL leaves exactly the parts before the bad one in the fields, cut at the separators |
| HttpUrls.ColonWithoutPortIsRefused | http_url.c:57-82 | a colon in path or search without a port is always refused: as a bad protocol if there is no protocol and the text holds a "://", otherwise as a bad host |
| HttpUrls.SameHostIff | worker.c:18 | `main.c:39-41`: a URL that begins with protocol and host of the crawl is on that host exactly if no host character follows |
| HttpUrls.LongerHostStrays | worker.c:18 | so for every domain pages of other hosts begin with it |

## Left out

- Sockets, DNS, the HTTP client, `link_crawler.c` and `link_parser.c`: input and output; `crawler_crawl` is an arbitrary code and list of links.
- Allocation and thread-creation failures: every `malloc` and `pthread_create` is taken to succeed.
- The read of the graph at `worker.c:156`, which runs without a lock beside the coordinator: its result is unused.
- Integer wrap-around of counters, semaphores and lengths: they are unbounded integers.
- Filter.FilterLinks: requires that 60 bits per link fit a signed int (`worker.c:28`); the protocol does not limit the length of a page's link list in the same way.
- PageRank, reports and all printing (`webgraph.c`, `worker.c:53-61`): floating point and output.
- Site.Site.PopUrl: it keeps the graph as a value; GraphStore.WebG, which refines each operation on that value, is not a field of the crawl's state. The edges of one vertex are a sequence of pointers in GraphStore.WebG, not the linked list they are in.
- Two threads inside one queue or counter operation: the mutex makes each one step, and the mutex itself is not modelled.
- ts_queue_front: it returns a pointer that is used after the lock is released, and the crawl does not call it.
- HttpUrls.ParseS: fields have no maximal length; copying a part longer than its field of `http_url_t` is not modelled.
- HttpUrls.CheckProtocol: `isalnum` on a negative `char` is undefined in C; characters outside ASCII letters and digits are refused here.
- The POSIX regular expression parser `http_url_parse` and the message parser `http_protocol.c`.
- How `main.c:39-41` builds the domain string: it is an arbitrary parameter.
- A `tail` that points to a node already freed, on a list that counts more than it holds: the memory is not modelled.
- Inserting in a list beyond its length, which reads through a null pointer: Lists.List.Insert excludes it.
- Site.Site.Crawl: it takes the filtered links from the function that Filter.FilterLinks is proved to compute; the two linked lists of one crawl (`worker.c:164-181`) are not objects of the crawl's state, which keeps the links as values.
- The false-positive probability of the Bloom filter.
