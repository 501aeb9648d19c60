/** Weighted counts over sequences. Every conservation law of the crawl protocol is a
    linear equation between such counts, so the lemmas below are stated for all weight
    functions at once: one call per changed sequence serves every law. */
module Sums {

  function Sum<T>(f: T -> int, s: seq<T>): int {
    if s == [] then 0 else f(s[0]) + Sum(f, s[1..])
  }

  /** Pushing at the back adds the weight of the new element. */
  lemma {:induction false} Push<T>(s: seq<T>, x: T)
    ensures forall f: T -> int :: Sum(f, s + [x]) == Sum(f, s) + f(x)
  {
    if s == [] {
      assert s + [x] == [x];
      assert forall f: T -> int :: Sum(f, [x]) == f(x) + Sum(f, [x][1..]);
    } else {
      Push(s[1..], x);
      assert (s + [x])[1..] == s[1..] + [x];
    }
  }

  /** Replacing one element moves every count by the difference of the two weights. */
  lemma {:induction false} Update<T>(s: seq<T>, i: nat, x: T)
    requires i < |s|
    ensures forall f: T -> int :: Sum(f, s[i := x]) == Sum(f, s) - f(s[i]) + f(x)
  {
    if i == 0 {
      assert s[0 := x][1..] == s[1..];
    } else {
      Update(s[1..], i - 1, x);
      assert s[i := x][1..] == s[1..][i - 1 := x];
    }
  }

  /** A count of non-negative weights is at least the weight of any one element. */
  lemma {:induction false} AtLeast<T>(f: T -> int, s: seq<T>, i: nat)
    requires i < |s| && forall x :: x in s ==> f(x) >= 0
    ensures Sum(f, s) >= f(s[i])
  {
    NonNegative(f, s[1..]);
    if i > 0 {
      AtLeast(f, s[1..], i - 1);
    }
  }

  /** ... and at least the weights of any two elements at different places. */
  lemma {:induction false} AtLeastTwo<T>(f: T -> int, s: seq<T>, i: nat, j: nat)
    requires i < j < |s| && forall x :: x in s ==> f(x) >= 0
    ensures Sum(f, s) >= f(s[i]) + f(s[j])
  {
    if i == 0 {
      AtLeast(f, s[1..], j - 1);
    } else {
      AtLeastTwo(f, s[1..], i - 1, j - 1);
    }
  }

  lemma {:induction false} NonNegative<T>(f: T -> int, s: seq<T>)
    requires forall x :: x in s ==> f(x) >= 0
    ensures Sum(f, s) >= 0
  {
    if s != [] {
      NonNegative(f, s[1..]);
    }
  }

  /** A positive count has a positive element. */
  lemma {:induction false} Witness<T>(f: T -> int, s: seq<T>) returns (i: nat)
    requires Sum(f, s) > 0
    ensures i < |s| && f(s[i]) > 0
  {
    if f(s[0]) > 0 {
      i := 0;
    } else {
      var j := Witness(f, s[1..]);
      i := j + 1;
    }
  }

  /** If every element weighs k, the count is k times the length. */
  lemma {:induction false} Constant<T>(f: T -> int, s: seq<T>, k: int)
    requires forall x :: x in s ==> f(x) == k
    ensures Sum(f, s) == k * |s|
  {
    if s != [] {
      Constant(f, s[1..], k);
    }
  }

  /** Pointwise comparison carries over to counts. */
  lemma {:induction false} Monotone<T>(f: T -> int, g: T -> int, s: seq<T>)
    requires forall x :: x in s ==> f(x) <= g(x)
    ensures Sum(f, s) <= Sum(g, s)
  {
    if s != [] {
      Monotone(f, g, s[1..]);
    }
  }

  /** Counts of which one is never below the other are equal only if they are equal everywhere. */
  lemma {:induction false} EqualCounts<T>(f: T -> int, g: T -> int, s: seq<T>)
    requires forall x :: x in s ==> f(x) <= g(x)
    ensures Sum(f, s) == Sum(g, s) <==> forall x :: x in s ==> f(x) == g(x)
  {
    if s != [] {
      EqualCounts(f, g, s[1..]);
      Monotone(f, g, s[1..]);
      assert s == [s[0]] + s[1..];
    }
  }

  /** A sequence of different elements is as long as the set of its elements. */
  lemma {:induction false} DistinctSize<X>(q: seq<X>, xs: set<X>)
    requires forall i, j | 0 <= i < j < |q| :: q[i] != q[j]
    requires forall x :: x in xs <==> x in q
    ensures |q| == |xs|
  {
    if q == [] {
      assert xs == {};
    } else {
      var n := |q| - 1;
      assert q == q[..n] + [q[n]];
      DistinctSize(q[..n], xs - {q[n]});
    }
  }

  lemma SubsetSize<X>(xs: set<X>, ys: set<X>)
    requires xs <= ys
    ensures |xs| <= |ys|
  {
    assert ys == xs + (ys - xs);
  }
}
