/** `check` and `filter` of worker.c: keep the local page links of a crawled page, once each,
    up to the false positives of a Bloom filter. */
module Filter {
  import opened Bytes
  import opened Elements
  import opened Lists
  import opened Bloom
  import Hash

  const HTM: CString := [46, 104, 116, 109]         // ".htm"
  const HTML: CString := [46, 104, 116, 109, 108]   // ".html"

  /** The six hash functions, in the order bloom_init receives them. */
  const FUNCS: seq<HashFunc> := [Hash.Sdbm, Hash.Sax, Hash.Elf, Hash.Js, Hash.Bkdr, Hash.Djb]

  /** Bits per element of the unfiltered list. */
  const BITS_PER_LINK := 60

  predicate EndsWith(buf: CString, suffix: CString) {
    |buf| > |suffix| && buf[|buf| - |suffix|..] == suffix
  }

  /** `check`. A string shorter than the domain skips the domain test. */
  predicate Check(domain: CString, buf: CString) {
    && !(|buf| >= |domain| && buf[..|domain|] != domain)
    && (EndsWith(buf, HTML) || EndsWith(buf, HTM))
  }

  /** A link on the crawled domain. */
  predicate Local(domain: CString, buf: CString) { domain <= buf }

  /** A string that ends in ".html" or ".htm" and is not just that. */
  ghost predicate IsPage(buf: CString) {
    exists a: CString :: a != [] && (buf == a + [46, 104, 116, 109, 108] || buf == a + [46, 104, 116, 109])
  }

  lemma EndsIff(buf: CString, suffix: CString)
    ensures EndsWith(buf, suffix) <==> exists a: CString :: a != [] && buf == a + suffix
  {
    if EndsWith(buf, suffix) {
      var a := buf[..|buf| - |suffix|];
      assert a != [] && buf == a + suffix;
    }
  }

  /** "Only crawl local link" holds of `check` exactly for strings as long as the domain: among
      them it passes the local pages, while among the shorter ones, of which none is local, it
      passes all that end like a page. */
  lemma CheckIff(domain: CString, buf: CString)
    ensures Check(domain, buf) <==> (domain <= buf || |buf| < |domain|) && IsPage(buf)
    ensures Check(domain, buf) ==> (Local(domain, buf) <==> |buf| >= |domain|)
  {
    EndsIff(buf, HTML);
    EndsIff(buf, HTM);
    if IsPage(buf) {
      var a: CString :| a != [] && (buf == a + [46, 104, 116, 109, 108] || buf == a + [46, 104, 116, 109]);
      assert buf == a + HTML || buf == a + HTM;
    }
  }

  /** "http://a.cn/x.html" passes the check of "http://www.example.com", another site. */
  lemma ShortLinkStrays() returns (domain: CString, buf: CString)
    ensures domain == [104, 116, 116, 112, 58, 47, 47, 119, 119, 119, 46,
                       101, 120, 97, 109, 112, 108, 101, 46, 99, 111, 109]
    ensures buf == [104, 116, 116, 112, 58, 47, 47, 97, 46, 99, 110, 47, 120, 46, 104, 116, 109, 108]
    ensures Check(domain, buf) && !Local(domain, buf)
  {
    domain := [104, 116, 116, 112, 58, 47, 47, 119, 119, 119, 46,
               101, 120, 97, 109, 112, 108, 101, 46, 99, 111, 109];
    buf := [104, 116, 116, 112, 58, 47, 47, 97, 46, 99, 110, 47, 120, 46, 104, 116, 109, 108];
    assert buf[13..] == HTML;
  }

  /** The links kept of `xs` with an m-bit filter. */
  function Kept(fs: seq<HashFunc>, domain: CString, m: nat, xs: seq<CString>): seq<CString>
    requires m > 0
  {
    if xs == [] then []
    else
      var k, x := Kept(fs, domain, m, xs[..|xs| - 1]), xs[|xs| - 1];
      if Check(domain, x) && !(Positions(fs, m, x) <= Cover(fs, m, k)) then k + [x] else k
  }

  /** What `filter` appends for a non-empty list: the filter has 60 bits per link. */
  function Links(domain: CString, xs: seq<CString>): seq<CString> {
    if xs == [] then [] else Kept(FUNCS, domain, BITS_PER_LINK * |xs|, xs)
  }

  /** `filter`: fails exactly on an empty list, and otherwise appends the kept links. The
      bound is the range of the int product that sizes the filter. */
  method FilterLinks(domain: CString, olist: List<CString>, nlist: List<CString>) returns (ok: bool)
    requires olist.Valid() && nlist.Valid() && olist.Repr !! nlist.Repr
    requires BITS_PER_LINK * |olist.contents| < 0x8000_0000
    modifies nlist.Repr
    ensures nlist.Valid() && fresh(nlist.Repr - old(nlist.Repr))
    ensures unchanged(olist.Repr)
    ensures ok <==> olist.contents != []
    ensures nlist.contents == old(nlist.contents) + Links(domain, olist.contents)
  {
    var size := olist.Size();
    var bf := NewFilter(size);
    if bf == null {
      return false;
    }
    FilterLoop(domain, bf, olist, nlist);
    return true;
  }

  /** The call of bloom_init in `filter`. */
  method NewFilter(size: nat) returns (bf: BF?)
    ensures bf == null <==> size == 0
    ensures bf != null ==> bf.Valid() && fresh(bf) && fresh(bf.bits) && bf.Contents() == {}
    ensures bf != null ==> bf.bsize == BITS_PER_LINK * size && bf.func == FUNCS
  {
    bf := Init(size * BITS_PER_LINK, FUNCS);
  }

  /** The loop of `filter`, over a fresh Bloom filter. */
  method FilterLoop(domain: CString, bf: BF, olist: List<CString>, nlist: List<CString>)
    requires olist.Valid() && nlist.Valid() && olist.Repr !! nlist.Repr
    requires bf.Valid() && bf.Contents() == {} && {bf, bf.bits} !! olist.Repr + nlist.Repr
    modifies nlist.Repr, bf.bits
    ensures nlist.Valid() && fresh(nlist.Repr - old(nlist.Repr))
    ensures unchanged(olist.Repr)
    ensures nlist.contents == old(nlist.contents) + Kept(bf.func, domain, bf.bsize, olist.contents)
  {
    ghost var xs, fs, m := olist.contents, bf.func, bf.bsize;
    var iter := olist.First();
    ghost var i := 0;
    while iter != null
      invariant 0 <= i <= |xs| && iter == At(olist.nodes, i)
      invariant unchanged(olist.Repr)
      invariant fresh(nlist.Repr - old(nlist.Repr))
      invariant bf.Valid() && unchanged(bf)
      invariant Holding(bf, nlist, old(nlist.contents), Kept(fs, domain, m, xs[..i]))
      decreases |xs| - i
    {
      KeptNext(fs, domain, m, xs, i);
      ConsiderLink(domain, bf, iter.buffer, nlist, old(nlist.contents), Kept(fs, domain, m, xs[..i]));
      iter := iter.next;
      i := i + 1;
    }
    assert xs[..i] == xs;
  }

  /** The list holds `before` and then k, and the filter covers exactly k. */
  ghost predicate Holding(bf: BF, nlist: List<CString>, before: seq<CString>, k: seq<CString>)
    reads bf, bf.bits, nlist, nlist.Repr
    requires bf.Valid()
  {
    && nlist.Valid() && bf !in nlist.Repr && bf.bits !in nlist.Repr
    && nlist.contents == before + k
    && bf.Contents() == Cover(bf.func, bf.bsize, k)
  }

  /** The loop body of `filter`. */
  method ConsiderLink(domain: CString, bf: BF, buffer: CString, nlist: List<CString>,
                      ghost before: seq<CString>, ghost k: seq<CString>)
    requires bf.Valid() && Holding(bf, nlist, before, k)
    modifies bf.bits, nlist.Repr
    ensures bf.Valid() && fresh(nlist.Repr - old(nlist.Repr))
    ensures Holding(bf, nlist, before,
                    if Check(domain, buffer) && !(Positions(bf.func, bf.bsize, buffer) <= Cover(bf.func, bf.bsize, k))
                    then k + [buffer] else k)
  {
    var seen := bf.Check(buffer);
    if Check(domain, buffer) && !seen {
      Keep(bf, buffer, nlist, before, k);
    }
  }

  /** A link that is kept: into the list, and into the filter. */
  method Keep(bf: BF, buffer: CString, nlist: List<CString>, ghost before: seq<CString>, ghost k: seq<CString>)
    requires bf.Valid() && Holding(bf, nlist, before, k)
    modifies bf.bits, nlist.Repr
    ensures bf.Valid() && fresh(nlist.Repr - old(nlist.Repr))
    ensures Holding(bf, nlist, before, k + [buffer])
  {
    CoverMore(bf.func, bf.bsize, k, buffer);
    assert before + k + [buffer] == before + (k + [buffer]);
    nlist.PushBack(buffer);
    assert unchanged(bf) && unchanged(bf.bits);
    bf.Add(buffer);
    assert nlist.Valid() && nlist.contents == before + (k + [buffer]);
  }

  lemma CoverMore(fs: seq<HashFunc>, m: nat, k: seq<CString>, x: CString)
    requires m > 0
    ensures Cover(fs, m, k + [x]) == Cover(fs, m, k) + Positions(fs, m, x)
  {
  }

  lemma KeptNext(fs: seq<HashFunc>, domain: CString, m: nat, xs: seq<CString>, i: nat)
    requires m > 0 && i < |xs|
    ensures var k := Kept(fs, domain, m, xs[..i]);
            Kept(fs, domain, m, xs[..i + 1]) ==
              if Check(domain, xs[i]) && !(Positions(fs, m, xs[i]) <= Cover(fs, m, k)) then k + [xs[i]] else k
  {
    assert xs[..i + 1][..i] == xs[..i];
  }

  /** Whether the element at index i is new: it passes `check` and at least one of its
      positions is not covered by what was kept before it. */
  ghost predicate IsNew(fs: seq<HashFunc>, domain: CString, m: nat, xs: seq<CString>, i: nat)
    requires m > 0 && i < |xs|
  {
    Check(domain, xs[i]) && !(Positions(fs, m, xs[i]) <= Cover(fs, m, Kept(fs, domain, m, xs[..i])))
  }

  ghost predicate Increasing(idx: seq<nat>) {
    forall a, b | 0 <= a < b < |idx| :: idx[a] < idx[b]
  }

  /** The indices of the new elements, in order. */
  ghost function NewIndices(fs: seq<HashFunc>, domain: CString, m: nat, xs: seq<CString>): seq<nat>
    requires m > 0
  {
    if xs == [] then []
    else
      var n := |xs| - 1;
      NewIndices(fs, domain, m, xs[..n]) + if IsNew(fs, domain, m, xs, n) then [n] else []
  }

  lemma {:induction false} IndexIsNew(fs: seq<HashFunc>, domain: CString, m: nat, xs: seq<CString>, i: nat)
    requires m > 0
    ensures i in NewIndices(fs, domain, m, xs) <==> i < |xs| && IsNew(fs, domain, m, xs, i)
  {
    if xs != [] {
      var n := |xs| - 1;
      IndexIsNew(fs, domain, m, xs[..n], i);
      var idx := NewIndices(fs, domain, m, xs[..n]);
      if i < n {
        NewInPrefix(fs, domain, m, xs, n, i);
        assert i in idx <==> IsNew(fs, domain, m, xs, i);
      } else {
        assert i !in idx;
      }
    }
  }

  /** The output is the subsequence of the new elements: `filter` keeps exactly the elements that
      are new, in their order. */
  lemma {:induction false} KeptIsSubsequence(fs: seq<HashFunc>, domain: CString, m: nat, xs: seq<CString>)
    requires m > 0
    ensures var idx := NewIndices(fs, domain, m, xs);
            Increasing(idx) && (forall a | 0 <= a < |idx| :: idx[a] < |xs|) && Selects(Kept(fs, domain, m, xs), xs, idx)
  {
    if xs != [] {
      var n := |xs| - 1;
      KeptIsSubsequence(fs, domain, m, xs[..n]);
      SelectsMore(Kept(fs, domain, m, xs[..n]), xs, NewIndices(fs, domain, m, xs[..n]));
    }
  }

  /** k lists the elements of xs at the indices idx. */
  ghost predicate Selects(k: seq<CString>, xs: seq<CString>, idx: seq<nat>) {
    |k| == |idx| && forall a | 0 <= a < |idx| :: idx[a] < |xs| && k[a] == xs[idx[a]]
  }

  lemma SelectsMore(k: seq<CString>, xs: seq<CString>, idx: seq<nat>)
    requires xs != [] && Selects(k, xs[..|xs| - 1], idx)
    ensures Selects(k, xs, idx) && Selects(k + [xs[|xs| - 1]], xs, idx + [|xs| - 1])
  {
  }

  /** Whether an element is new depends on what stands before it only. */
  lemma NewInPrefix(fs: seq<HashFunc>, domain: CString, m: nat, xs: seq<CString>, n: nat, i: nat)
    requires m > 0 && i < n <= |xs|
    ensures IsNew(fs, domain, m, xs, i) <==> IsNew(fs, domain, m, xs[..n], i)
  {
    assert xs[..n][..i] == xs[..i];
  }

  /** Every kept element passes `check`, and no element is kept twice. */
  lemma {:induction false} KeptDistinct(fs: seq<HashFunc>, domain: CString, m: nat, xs: seq<CString>)
    requires m > 0
    ensures var k := Kept(fs, domain, m, xs);
            && (forall x | x in k :: x in xs && Check(domain, x))
            && (forall a, b | 0 <= a < b < |k| :: k[a] != k[b])
  {
    if xs != [] {
      var n := |xs| - 1;
      KeptDistinct(fs, domain, m, xs[..n]);
      var k, x := Kept(fs, domain, m, xs[..n]), xs[n];
      if x in k {
        var a :| 0 <= a < |k| && k[a] == x;
        CoverHas(fs, m, k, a);
      }
    }
  }

  /** The same of what `filter` appends. */
  lemma LinksPass(domain: CString, xs: seq<CString>, k: seq<CString>)
    requires xs != [] && k == Links(domain, xs)
    ensures forall x | x in k :: Check(domain, x)
    ensures forall a, b | 0 <= a < b < |k| :: k[a] != k[b]
  {
    KeptPass(FUNCS, domain, BITS_PER_LINK * |xs|, xs, k);
  }

  lemma KeptPass(fs: seq<HashFunc>, domain: CString, m: nat, xs: seq<CString>, k: seq<CString>)
    requires m > 0 && k == Kept(fs, domain, m, xs)
    ensures forall x | x in k :: Check(domain, x)
    ensures forall a, b | 0 <= a < b < |k| :: k[a] != k[b]
  {
    KeptDistinct(fs, domain, m, xs);
  }

  /** Nothing is lost except by a full collision: every link that passes `check` has all its
      positions set by kept links, itself included when it was kept. */
  lemma {:induction false} KeptCovers(fs: seq<HashFunc>, domain: CString, m: nat, xs: seq<CString>, i: nat)
    requires m > 0 && i < |xs| && Check(domain, xs[i])
    ensures Positions(fs, m, xs[i]) <= Cover(fs, m, Kept(fs, domain, m, xs))
  {
    var n := |xs| - 1;
    var k, x := Kept(fs, domain, m, xs[..n]), xs[n];
    assert (k + [x])[..|k|] == k;
    if i < n {
      KeptCovers(fs, domain, m, xs[..n], i);
    }
  }

  /** The first link that passes `check` is always kept. */
  lemma {:induction false} KeptFirst(fs: seq<HashFunc>, domain: CString, m: nat, xs: seq<CString>)
    requires m > 0 && fs != [] && exists x :: x in xs && Check(domain, x)
    ensures Kept(fs, domain, m, xs) != []
  {
    var n := |xs| - 1;
    PositionsBound(fs, m, xs[n]);
    if exists x :: x in xs[..n] && Check(domain, x) {
      KeptFirst(fs, domain, m, xs[..n]);
    } else {
      var x :| x in xs && Check(domain, x);
      assert x == xs[n];
      KeptNone(fs, domain, m, xs[..n]);
    }
  }

  /** A single link that passes `check` is kept. */
  lemma OneIsKept(domain: CString, x: CString)
    requires Check(domain, x)
    ensures Links(domain, [x]) == [x]
  {
    var m := BITS_PER_LINK * |[x]|;
    PositionsBound(FUNCS, m, x);
    assert [x][..0] == [];
    assert Kept(FUNCS, domain, m, []) == [];
  }

  lemma {:induction false} KeptNone(fs: seq<HashFunc>, domain: CString, m: nat, xs: seq<CString>)
    requires m > 0 && forall x | x in xs :: !Check(domain, x)
    ensures Kept(fs, domain, m, xs) == []
  {
    if xs != [] {
      KeptNone(fs, domain, m, xs[..|xs| - 1]);
    }
  }

  lemma {:induction false} KeptLength(fs: seq<HashFunc>, domain: CString, m: nat, xs: seq<CString>)
    requires m > 0
    ensures |Kept(fs, domain, m, xs)| <= |xs|
  {
    if xs != [] {
      KeptLength(fs, domain, m, xs[..|xs| - 1]);
    }
  }

  /** The six values of a string in a filter of m bits. */
  function Six(x: CString, m: nat): set<nat>
    requires m > 0
  {
    {Hash.Sdbm(x) % m, Hash.Sax(x) % m, Hash.Elf(x) % m, Hash.Js(x) % m, Hash.Bkdr(x) % m, Hash.Djb(x) % m}
  }

  lemma SixPositions(x: CString, m: nat)
    requires m > 0
    ensures Six(x, m) == Positions(FUNCS, m, x)
  {
    assert FUNCS[0](x) == Hash.Sdbm(x) && FUNCS[1](x) == Hash.Sax(x) && FUNCS[2](x) == Hash.Elf(x);
    assert FUNCS[3](x) == Hash.Js(x) && FUNCS[4](x) == Hash.Bkdr(x) && FUNCS[5](x) == Hash.Djb(x);
  }

  lemma {:induction false} CoverIff(fs: seq<HashFunc>, m: nat, k: seq<CString>, p: nat)
    requires m > 0
    ensures p in Cover(fs, m, k) <==> exists a :: 0 <= a < |k| && p in Positions(fs, m, k[a])
  {
    if k != [] {
      var n := |k| - 1;
      CoverIff(fs, m, k[..n], p);
    }
  }

  /** Which links of a non-empty list `filter` keeps, by the six hashes: the one at index i if and
      only if it passes `check` and one of its values differs from all values of the links kept
      before it. */
  lemma LinksIff(domain: CString, xs: seq<CString>) returns (idx: seq<nat>)
    requires xs != []
    ensures Increasing(idx) && |idx| == |Links(domain, xs)|
    ensures forall a | 0 <= a < |idx| :: idx[a] < |xs| && Links(domain, xs)[a] == xs[idx[a]]
    ensures forall i | 0 <= i < |xs| ::
              i in idx <==>
                && Check(domain, xs[i])
                && exists p | p in Six(xs[i], 60 * |xs|) ::
                     forall j | j in idx && j < i :: p !in Six(xs[j], 60 * |xs|)
  {
    var m: nat := 60 * |xs|;
    idx := NewIndices(FUNCS, domain, m, xs);
    KeptIsSubsequence(FUNCS, domain, m, xs);
    forall i | 0 <= i < |xs|
      ensures i in idx <==>
                && Check(domain, xs[i])
                && exists p | p in Six(xs[i], m) :: forall j | j in idx && j < i :: p !in Six(xs[j], m)
    {
      NewIff(domain, m, xs, i, idx);
    }
  }

  lemma NewIff(domain: CString, m: nat, xs: seq<CString>, i: nat, idx: seq<nat>)
    requires m > 0 && i < |xs| && idx == NewIndices(FUNCS, domain, m, xs)
    ensures i in idx <==>
              && Check(domain, xs[i])
              && exists p | p in Six(xs[i], m) :: forall j | j in idx && j < i :: p !in Six(xs[j], m)
  {
    NewByPositions(FUNCS, domain, m, xs, i, idx);
    forall x
      ensures Six(x, m) == Positions(FUNCS, m, x)
    {
      SixPositions(x, m);
    }
  }

  lemma NewByPositions(fs: seq<HashFunc>, domain: CString, m: nat, xs: seq<CString>, i: nat, idx: seq<nat>)
    requires m > 0 && i < |xs| && idx == NewIndices(fs, domain, m, xs)
    ensures forall j | j in idx :: j < |xs|
    ensures i in idx <==>
              && Check(domain, xs[i])
              && exists p | p in Positions(fs, m, xs[i]) ::
                   forall j | j in idx && j < i :: p !in Positions(fs, m, xs[j])
  {
    var k := Kept(fs, domain, m, xs[..i]);
    KeptIsSubsequence(fs, domain, m, xs);
    IndexIsNew(fs, domain, m, xs, i);
    forall p: nat
      ensures p in Cover(fs, m, k) <==> exists j | j in idx && j < i :: p in Positions(fs, m, xs[j])
    {
      CoverByKept(fs, domain, m, xs, i, idx, k, p);
      assert forall j | 0 <= j < i :: xs[..i][j] == xs[j];
    }
  }

  lemma Picked(fs: seq<HashFunc>, m: nat, k: seq<CString>, xs: seq<CString>, idx: seq<nat>, p: nat)
    requires m > 0 && Selects(k, xs, idx)
    ensures (exists a :: 0 <= a < |k| && p in Positions(fs, m, k[a])) <==>
              exists j :: j in idx && j < |xs| && p in Positions(fs, m, xs[j])
  {
    if a :| 0 <= a < |k| && p in Positions(fs, m, k[a]) {
      assert idx[a] in idx && p in Positions(fs, m, xs[idx[a]]);
    }
    if j :| j in idx && j < |xs| && p in Positions(fs, m, xs[j]) {
      var a :| 0 <= a < |idx| && idx[a] == j;
      assert p in Positions(fs, m, k[a]);
    }
  }

  lemma PartIndices(fs: seq<HashFunc>, domain: CString, m: nat, xs: seq<CString>, i: nat)
    requires m > 0 && i < |xs|
    ensures forall j: nat :: j in NewIndices(fs, domain, m, xs[..i]) <==> j in NewIndices(fs, domain, m, xs) && j < i
  {
    forall j: nat
      ensures j in NewIndices(fs, domain, m, xs[..i]) <==> j in NewIndices(fs, domain, m, xs) && j < i
    {
      PrefixIndices(fs, domain, m, xs, i, j);
    }
  }

  lemma CoverByKept(fs: seq<HashFunc>, domain: CString, m: nat, xs: seq<CString>, i: nat, idx: seq<nat>,
                    k: seq<CString>, p: nat)
    requires m > 0 && i < |xs| && idx == NewIndices(fs, domain, m, xs) && k == Kept(fs, domain, m, xs[..i])
    ensures p in Cover(fs, m, k) <==> exists j | j in idx && j < i :: p in Positions(fs, m, xs[..i][j])
  {
    var ys, part := xs[..i], NewIndices(fs, domain, m, xs[..i]);
    KeptIsSubsequence(fs, domain, m, ys);
    PartIndices(fs, domain, m, xs, i);
    CoverByPart(fs, m, k, ys, part, p);
    if p in Cover(fs, m, k) {
      var j: nat :| j in part && j < |ys| && p in Positions(fs, m, ys[j]);
      assert j in idx && j < i;
    }
    if j: nat :| j in idx && j < i && p in Positions(fs, m, ys[j]) {
      assert j in part;
    }
  }

  lemma CoverByPart(fs: seq<HashFunc>, m: nat, k: seq<CString>, ys: seq<CString>, part: seq<nat>, p: nat)
    requires m > 0 && Selects(k, ys, part)
    ensures p in Cover(fs, m, k) <==> exists j: nat :: j in part && j < |ys| && p in Positions(fs, m, ys[j])
  {
    CoverIff(fs, m, k, p);
    Picked(fs, m, k, ys, part, p);
  }

  lemma PrefixIndices(fs: seq<HashFunc>, domain: CString, m: nat, xs: seq<CString>, i: nat, j: nat)
    requires m > 0 && i < |xs|
    ensures j in NewIndices(fs, domain, m, xs[..i]) <==> j in NewIndices(fs, domain, m, xs) && j < i
  {
    IndexIsNew(fs, domain, m, xs[..i], j);
    IndexIsNew(fs, domain, m, xs, j);
    if j < i {
      NewInPrefix(fs, domain, m, xs, i, j);
    }
  }

  /** Load of the filter: at most a tenth of its bits are ever set. */
  lemma FilterLoad(domain: CString, xs: seq<CString>)
    requires xs != []
    ensures 10 * |Cover(FUNCS, BITS_PER_LINK * |xs|, Links(domain, xs))| <= BITS_PER_LINK * |xs|
  {
    var m := BITS_PER_LINK * |xs|;
    var k := Links(domain, xs);
    KeptLength(FUNCS, domain, m, xs);
    CoverBound(FUNCS, m, k);
    TenthOf(|FUNCS|, |Cover(FUNCS, m, k)|, |k|, |xs|);
  }

  lemma TenthOf(f: nat, bits: nat, kept: nat, n: nat)
    requires f == 6 && bits <= f * kept && kept <= n
    ensures 10 * bits <= BITS_PER_LINK * n
  {
  }
}
