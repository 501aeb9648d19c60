/** How far a crawl strays from its site: every result ever pushed is a filtered list, so every
    link that is followed passes `check`. */
module Locality {
  import opened WebGraph
  import opened Protocol
  import opened Accounting
  import opened Completeness

  /** What `filter` makes of some non-empty list of links. */
  ghost predicate Filtered(c: Config, links: seq<Url>) {
    exists raw :: raw != [] && links == Filter.Links(c.domain, raw)
  }

  ghost predicate LocalLaw(c: Config, s: State) {
    && (forall u | u in s.hist.results :: Filtered(c, s.hist.results[u]))
    && (forall i | 0 <= i < |s.threads| && s.threads[i].pc.PushResult? :: Filtered(c, s.threads[i].pc.links))
  }

  lemma LocalInit(c: Config)
    ensures LocalLaw(c, Init(c))
  {
  }

  lemma CrawlerKeepsLocal(c: Config, s: State, i: nat, f: Fetch)
    requires LocalLaw(c, s) && i < |s.threads| && InCrawler(s.threads[i].pc)
    ensures LocalLaw(c, CrawlerStep(c, s, i, f))
  {
    var t := CrawlerStep(c, s, i, f);
    if t.threads[i].pc.PushResult? {
      assert t.threads[i].pc.links == Filter.Links(c.domain, f.raw);
    }
  }

  lemma ThreadKeepsLocal(c: Config, s: State, i: nat, f: Fetch)
    requires LocalLaw(c, s) && Enabled(s, OfThread(i, f)) && !ThreadStep(c, s, i, f).fault
    ensures LocalLaw(c, ThreadStep(c, s, i, f))
  {
    if InCrawler(s.threads[i].pc) {
      CrawlerKeepsLocal(c, s, i, f);
    } else {
      ThreadHasEffect(c, s, i, f);
      ThreadFrame(c, s, i, f);
    }
  }

  lemma CoordKeepsLocal(c: Config, s: State)
    requires LocalLaw(c, s) && CoordEnabled(s) && !CoordStep(c, s).fault
    ensures LocalLaw(c, CoordStep(c, s))
  {
    CoordHasEffect(c, s);
  }

  /** A filtered list holds only links that pass `check`, none of them twice. */
  lemma FilteredPasses(c: Config, links: seq<Url>)
    requires Filtered(c, links)
    ensures forall v | v in links :: Filter.Check(c.domain, v)
    ensures forall a, b | 0 <= a < b < |links| :: links[a] != links[b]
  {
    var raw :| raw != [] && links == Filter.Links(c.domain, raw);
    Filter.LinksPass(c.domain, raw, links);
  }

  /** Whatever can be reached through the results passes `check`, except the seed itself. */
  lemma ReachedPasses(c: Config, s: State, u: Url)
    requires LocalLaw(c, s) && Reach(s.hist.results, c.seed, u)
    ensures u == c.seed || Filter.Check(c.domain, u)
  {
    var p :| Path(s.hist.results, c.seed, p) && p[|p| - 1] == u;
    if |p| > 1 {
      var n := |p| - 2;
      assert p[n] in s.hist.results && p[n + 1] in s.hist.results[p[n]];
      FilteredPasses(c, s.hist.results[p[n]]);
    }
  }
}
