/** bloomfilter.c: a packed bit array that stands for a set of positions below `bsize`. */
module Bloom {
  import opened Bytes

  type HashFunc = CString -> int

  const CHAR_BIT := 8

  function Mask(k: nat): bv8
    requires k < CHAR_BIT
  {
    (1 as bv8) << k
  }

  predicate BitOf(b: bv8, k: nat)
    requires k < CHAR_BIT
  {
    b & Mask(k) != 0
  }

  lemma BitOfZero(k: nat)
    requires k < CHAR_BIT
    ensures !BitOf(0, k)
  {
  }

  /** Setting bit k of a byte changes that bit and no other. */
  lemma BitOfOr(b: bv8, j: nat, k: nat)
    requires j < CHAR_BIT && k < CHAR_BIT
    ensures BitOf(b | Mask(k), j) <==> (j == k || BitOf(b, j))
  {
    MaskValue(j);
    MaskValue(k);
  }

  /** The same over a packed sequence of bits: bit n is set, and no other changes. */
  lemma OtherBits(before: seq<bv8>, after: seq<bv8>, n: nat, m: nat)
    requires n < |before| * CHAR_BIT && m < |before| * CHAR_BIT
    requires after == before[n / CHAR_BIT := before[n / CHAR_BIT] | Mask(n % CHAR_BIT)]
    ensures BitOf(after[m / CHAR_BIT], m % CHAR_BIT) <==> (m == n || BitOf(before[m / CHAR_BIT], m % CHAR_BIT))
  {
    if m / CHAR_BIT == n / CHAR_BIT {
      BitOfOr(before[n / CHAR_BIT], m % CHAR_BIT, n % CHAR_BIT);
    }
  }

  lemma MaskValue(k: nat)
    requires k < CHAR_BIT
    ensures Mask(k) == [1, 2, 4, 8, 16, 32, 64, 128][k]
  {
  }

  /** The positions a string occupies: one per hash function. */
  function Positions(func: seq<HashFunc>, bsize: nat, str: CString): (p: set<nat>)
    requires bsize > 0
    ensures forall n | n in p :: n < bsize
  {
    set i | 0 <= i < |func| :: func[i](str) % bsize
  }

  class BF {
    var bsize: nat
    var bits: array<bv8>
    var func: seq<HashFunc>

    /** Every position lies in the allocated bytes, and the padding bits are clear. */
    ghost predicate Valid()
      reads this, bits
    {
      && bsize > 0 && func != []
      && bits.Length == (bsize - 1) / CHAR_BIT + 1
      && (forall n: nat | bsize <= n < bits.Length * CHAR_BIT :: !BitOf(bits[n / CHAR_BIT], n % CHAR_BIT))
    }

    /** The set the packed bits stand for. */
    ghost function Contents(): set<nat>
      reads this, bits
      requires Valid()
    {
      set n: nat | n < bsize && BitOf(bits[n / CHAR_BIT], n % CHAR_BIT)
    }

    constructor (bsize: nat, func: seq<HashFunc>)
      requires bsize > 0 && func != []
      ensures Valid() && fresh(bits) && this.bsize == bsize && this.func == func
      ensures bits.Length == (bsize - 1) / 8 + 1
      ensures Contents() == {}
    {
      this.bsize, this.func := bsize, func;
      bits := new bv8[(bsize - 1) / CHAR_BIT + 1](_ => 0);
      new;
      forall k: nat | k < CHAR_BIT ensures !BitOf(0, k) { BitOfZero(k); }
    }

    /** Where position n is: bit n % 8 of byte n / 8, counted from the lowest. */
    lemma Layout(n: nat)
      requires Valid() && n < bsize
      ensures n / 8 < bits.Length
      ensures n in Contents() <==> bits[n / 8] & [1 as bv8, 2, 4, 8, 16, 32, 64, 128][n % 8] != 0
    {
      MaskValue(n % 8);
    }

    method SetBit(n: nat)
      requires Valid() && n < bsize
      modifies bits
      ensures Valid() && Contents() == old(Contents()) + {n}
    {
      ghost var before := bits[..];
      bits[n / CHAR_BIT] := bits[n / CHAR_BIT] | Mask(n % CHAR_BIT);
      forall m: nat | m < bits.Length * CHAR_BIT
        ensures BitOf(bits[m / CHAR_BIT], m % CHAR_BIT)
           <==> (m == n || BitOf(before[m / CHAR_BIT], m % CHAR_BIT))
      {
        OtherBits(before, bits[..], n, m);
      }
    }

    method GetBit(n: nat) returns (r: bool)
      requires Valid() && n < bsize
      ensures r <==> n in Contents()
    {
      r := BitOf(bits[n / CHAR_BIT], n % CHAR_BIT);
    }

    /** bloom_add: the set grows by exactly the positions of the string. */
    method Add(str: CString)
      requires Valid()
      modifies bits
      ensures Valid() && Contents() == old(Contents()) + Positions(func, bsize, str)
    {
      var i := 0;
      while i < |func|
        invariant 0 <= i <= |func| && Valid()
        invariant Contents() == old(Contents()) + Positions(func[..i], bsize, str)
      {
        PositionsNext(func, bsize, str, i);
        SetBit(func[i](str) % bsize);
        i := i + 1;
      }
      assert func[..i] == func;
    }

    /** bloom_check: all positions of the string are in the set. */
    method Check(str: CString) returns (r: bool)
      requires Valid()
      ensures r <==> Positions(func, bsize, str) <= Contents()
    {
      var i := 0;
      while i < |func|
        invariant 0 <= i <= |func|
        invariant Positions(func[..i], bsize, str) <= Contents()
      {
        PositionsNext(func, bsize, str, i);
        var set1 := GetBit(func[i](str) % bsize);
        if !set1 {
          assert func[i](str) % bsize in Positions(func, bsize, str);
          return false;
        }
        i := i + 1;
      }
      assert func[..i] == func;
      return true;
    }
  }

  /** bloom_init refuses an empty bit array and an empty list of hash functions. */
  method Init(bsize: nat, func: seq<HashFunc>) returns (bf: BF?)
    ensures bf == null <==> bsize == 0 || func == []
    ensures bf != null ==> bf.Valid() && fresh(bf) && fresh(bf.bits) && bf.Contents() == {}
    ensures bf != null ==> bf.bsize == bsize && bf.func == func
  {
    if bsize == 0 || func == [] {
      return null;
    }
    bf := new BF(bsize, func);
  }

  lemma PositionsNext(func: seq<HashFunc>, bsize: nat, str: CString, i: nat)
    requires bsize > 0 && i < |func|
    ensures Positions(func[..i + 1], bsize, str) == Positions(func[..i], bsize, str) + {func[i](str) % bsize}
  {
  }

  /** A string sets at most one bit per hash function. */
  lemma {:induction false} PositionsBound(func: seq<HashFunc>, bsize: nat, str: CString)
    requires bsize > 0
    ensures |Positions(func, bsize, str)| <= |func|
    ensures func != [] ==> Positions(func, bsize, str) != {}
  {
    if func != [] {
      var n := |func| - 1;
      PositionsBound(func[..n], bsize, str);
      assert func[..n + 1] == func;
      PositionsNext(func, bsize, str, n);
    }
  }

  /** The set after adding the strings of `xs` in order. */
  function Cover(func: seq<HashFunc>, bsize: nat, xs: seq<CString>): set<nat>
    requires bsize > 0
  {
    if xs == [] then {} else Cover(func, bsize, xs[..|xs| - 1]) + Positions(func, bsize, xs[|xs| - 1])
  }

  /** No false negatives: after any sequence of adds, every added string checks true. */
  lemma {:induction false} CoverHas(func: seq<HashFunc>, bsize: nat, xs: seq<CString>, i: nat)
    requires bsize > 0 && i < |xs|
    ensures Positions(func, bsize, xs[i]) <= Cover(func, bsize, xs)
  {
    if i < |xs| - 1 {
      CoverHas(func, bsize, xs[..|xs| - 1], i);
    }
  }

  /** At most |func| bits are set per added string. */
  lemma {:induction false} CoverBound(func: seq<HashFunc>, bsize: nat, xs: seq<CString>)
    requires bsize > 0
    ensures |Cover(func, bsize, xs)| <= |func| * |xs|
  {
    if xs != [] {
      var ys, x := xs[..|xs| - 1], xs[|xs| - 1];
      CoverBound(func, bsize, ys);
      PositionsBound(func, bsize, x);
      UnionBound(Cover(func, bsize, ys), Positions(func, bsize, x));
      Distribute(|func|, |ys|);
    }
  }

  lemma Distribute(a: nat, b: nat)
    ensures a * (b + 1) == a * b + a
  {
  }

  lemma UnionBound(a: set<nat>, b: set<nat>)
    ensures |a + b| <= |a| + |b|
  {
  }
}
