/** hash.c: six 32-bit string hashes. Unsigned arithmetic wraps modulo 2^32, and the operations on
    bits are functions of the binary digits, both written out below. */
module Hash {
  import opened Bytes

  const WORD := 0x1_0000_0000

  /** Left shift of an unsigned int. */
  function Shl(h: nat, k: nat): nat {
    (h * Pow(2, k)) % WORD
  }

  /** Right shift of an unsigned int. */
  function Shr(h: nat, k: nat): nat {
    h / Pow(2, k)
  }

  function Pow(b: nat, k: nat): (p: nat)
    ensures b > 0 ==> p > 0
  {
    if k == 0 then 1 else b * Pow(b, k - 1)
  }

  /** The polynomial with coefficients `cs` (highest degree first) and constant start h. */
  function Poly(m: nat, h: int, cs: seq<int>): int {
    if cs == [] then h else Poly(m, h, cs[..|cs| - 1]) * m + cs[|cs| - 1]
  }

  function UnsignedChars(s: CString): seq<int> {
    seq(|s|, i requires 0 <= i < |s| => s[i] as int)
  }

  function SignedChars(s: CString): seq<int> {
    seq(|s|, i requires 0 <= i < |s| => Signed(s[i]))
  }

  function Sdbm(s: CString): int { Poly(65599, 0, UnsignedChars(s)) % WORD }

  function Djb(s: CString): int { Poly(33, 5381, SignedChars(s)) % WORD }

  function Bkdr(s: CString): int { Poly(131, 0, SignedChars(s)) % WORD }

  lemma WrapStep(p: int, m: nat, c: int)
    ensures (p % WORD * m + c) % WORD == (p * m + c) % WORD
  {
    var q := p / WORD;
    assert p == q * WORD + p % WORD;
    assert p * m + c == (p % WORD * m + c) + WORD * (q * m) by {
      assert p * m == (q * WORD + p % WORD) * m;
    }
    WrapShift(p % WORD * m + c, q * m);
  }

  lemma WrapShift(x: int, k: int)
    ensures (x + WORD * k) % WORD == x % WORD
  {
  }

  lemma SnocPoly(m: nat, h: int, s: CString, i: nat)
    requires i < |s|
    ensures Poly(m, h, UnsignedChars(s[..i + 1])) == Poly(m, h, UnsignedChars(s[..i])) * m + s[i] as int
    ensures Poly(m, h, SignedChars(s[..i + 1])) == Poly(m, h, SignedChars(s[..i])) * m + Signed(s[i])
  {
    var u, v := UnsignedChars(s[..i + 1]), SignedChars(s[..i + 1]);
    assert u[..|u| - 1] == UnsignedChars(s[..i]);
    assert v[..|v| - 1] == SignedChars(s[..i]);
  }

  /** A polynomial hash of one more character, from the hash so far. */
  lemma NextHash(m: nat, h: int, s: CString, i: nat)
    requires i < |s|
    ensures Poly(m, h, UnsignedChars(s[..i + 1])) % WORD
         == (Poly(m, h, UnsignedChars(s[..i])) % WORD * m + s[i] as int) % WORD
    ensures Poly(m, h, SignedChars(s[..i + 1])) % WORD
         == (Poly(m, h, SignedChars(s[..i])) % WORD * m + Signed(s[i])) % WORD
  {
    SnocPoly(m, h, s, i);
    WrapStep(Poly(m, h, UnsignedChars(s[..i])), m, s[i] as int);
    WrapStep(Poly(m, h, SignedChars(s[..i])), m, Signed(s[i]));
  }

  /** One turn of the sdbm loop: the two shifts and the subtraction multiply by 65599. */
  lemma SdbmTurn(h: nat, c: int)
    requires h < WORD
    ensures (c + Shl(h, 6) + Shl(h, 16) - h) % WORD == (h * 65599 + c) % WORD
  {
    Powers();
    var a, b := h * 64, h * 65536;
    WrapStep(a, 1, c - h + b % WORD);
    WrapStep(b, 1, c - h + a);
  }

  /** One turn of the djb loop multiplies by 33. */
  lemma DjbTurn(h: nat, c: int)
    requires h < WORD
    ensures (h + Shl(h, 5) + c) % WORD == (h * 33 + c) % WORD
  {
  }

  lemma SdbmNext(key: CString, i: nat, h: nat)
    requires i < |key| && h == Sdbm(key[..i])
    ensures Sdbm(key[..i + 1]) == (key[i] as int + Shl(h, 6) + Shl(h, 16) - h) % WORD
  {
    NextHash(65599, 0, key, i);
    SdbmTurn(h, key[i] as int);
  }

  lemma DjbNext(str: CString, i: nat, h: nat)
    requires i < |str| && h == Djb(str[..i])
    ensures Djb(str[..i + 1]) == (h + Shl(h, 5) + Signed(str[i])) % WORD
  {
    NextHash(33, 5381, str, i);
    DjbTurn(h, Signed(str[i]));
  }

  method SdbmHash(key: CString) returns (h: nat)
    ensures h == Sdbm(key)
  {
    h := 0;
    var i := 0;
    while i < |key|
      invariant 0 <= i <= |key| && 0 <= h < WORD && h == Sdbm(key[..i])
    {
      SdbmNext(key, i, h);
      h := (key[i] as int + Shl(h, 6) + Shl(h, 16) - h) % WORD;
      i := i + 1;
    }
    assert key[..i] == key;
  }

  lemma Powers()
    ensures Pow(2, 5) == 32 && Pow(2, 6) == 64 && Pow(2, 16) == 65536
  {
  }

  method DjbHash(str: CString) returns (hash: nat)
    ensures hash == Djb(str)
  {
    hash := 5381;
    var i := 0;
    while i < |str|
      invariant 0 <= i <= |str| && 0 <= hash < WORD && hash == Djb(str[..i])
    {
      DjbNext(str, i, hash);
      hash := (hash + Shl(hash, 5) + Signed(str[i])) % WORD;
      i := i + 1;
    }
    assert str[..i] == str;
  }

  method BkdrHash(str: CString) returns (hash: nat)
    ensures hash == Bkdr(str)
  {
    var seed := 131;
    hash := 0;
    var i := 0;
    while i < |str|
      invariant 0 <= i <= |str| && 0 <= hash < WORD && hash == Bkdr(str[..i])
    {
      NextHash(131, 0, str, i);
      hash := (hash * seed + Signed(str[i])) % WORD;
      i := i + 1;
    }
    assert str[..i] == str;
  }

  /** Horner's rule over a concatenation, before reduction. */
  lemma {:induction false} PolyConcat(m: nat, h: int, a: seq<int>, b: seq<int>)
    ensures Poly(m, h, a + b) == Poly(m, h, a) * Pow(m, |b|) + Poly(m, 0, b)
  {
    if b == [] {
      assert a + b == a;
    } else {
      var n := |b| - 1;
      PolyConcat(m, h, a, b[..n]);
      assert (a + b)[..|a + b| - 1] == a + b[..n];
      assert (Poly(m, h, a) * Pow(m, n) + Poly(m, 0, b[..n])) * m + b[n]
          == Poly(m, h, a) * (m * Pow(m, n)) + (Poly(m, 0, b[..n]) * m + b[n]);
    }
  }

  /** Extend a hash by n characters whose own polynomial is `tail`. */
  function Extend(hash: int, m: nat, n: nat, tail: int): int {
    (hash * Pow(m, n) + tail) % WORD
  }

  /** hash(a + b) = hash(a) * K^|b| + poly(b) modulo 2^32, for any multiplier and start. */
  lemma WrappedConcat(m: nat, h: int, a: seq<int>, b: seq<int>)
    ensures Poly(m, h, a + b) % WORD == Extend(Poly(m, h, a) % WORD, m, |b|, Poly(m, 0, b) % WORD)
  {
    var pa, pb := Poly(m, h, a), Poly(m, 0, b);
    PolyConcat(m, h, a, b);
    WrapStep(pa, Pow(m, |b|), pb);
    WrapStep(pb, 1, pa % WORD * Pow(m, |b|));
  }

  lemma CharsConcat(a: CString, b: CString)
    ensures UnsignedChars(a + b) == UnsignedChars(a) + UnsignedChars(b)
    ensures SignedChars(a + b) == SignedChars(a) + SignedChars(b)
  {
  }

  /** The concatenation law for the three polynomial hashes: the hash of a string is
      determined by the hash of any prefix and the remaining characters. */
  lemma SdbmConcat(a: CString, b: CString)
    ensures Sdbm(a + b) == Extend(Sdbm(a), 65599, |b|, Sdbm(b))
  {
    CharsConcat(a, b);
    WrappedConcat(65599, 0, UnsignedChars(a), UnsignedChars(b));
  }

  lemma BkdrConcat(a: CString, b: CString)
    ensures Bkdr(a + b) == Extend(Bkdr(a), 131, |b|, Bkdr(b))
  {
    CharsConcat(a, b);
    WrappedConcat(131, 0, SignedChars(a), SignedChars(b));
  }

  lemma DjbConcat(a: CString, b: CString)
    ensures Djb(a + b) == Extend(Djb(a), 33, |b|, Poly(33, 0, SignedChars(b)) % WORD)
  {
    CharsConcat(a, b);
    WrappedConcat(33, 5381, SignedChars(a), SignedChars(b));
  }

  // The operations on bits.

  function Xor(a: nat, b: nat): nat {
    if a == 0 && b == 0 then 0 else 2 * Xor(a / 2, b / 2) + (a % 2 + b % 2) % 2
  }

  function And(a: nat, b: nat): nat {
    if a == 0 || b == 0 then 0 else 2 * And(a / 2, b / 2) + (a % 2) * (b % 2)
  }

  /** Complement of an unsigned int. */
  function Not(a: nat): nat {
    (WORD - 1 - a) % WORD
  }

  /** Binary digit i. */
  function Bit(a: nat, i: nat): nat {
    if i == 0 then a % 2 else Bit(a / 2, i - 1)
  }

  lemma BitOfDouble(y: nat, r: nat, i: nat)
    requires r < 2
    ensures Bit(2 * y + r, i) == if i == 0 then r else Bit(y, i - 1)
  {
    assert (2 * y + r) / 2 == y && (2 * y + r) % 2 == r;
  }

  /** Digit by digit, the operations are what their names say. */
  lemma {:induction false} XorBits(a: nat, b: nat, i: nat)
    ensures Bit(Xor(a, b), i) == (if Bit(a, i) != Bit(b, i) then 1 else 0)
  {
    XorStep(a, b);
    BitOfDouble(Xor(a / 2, b / 2), (a % 2 + b % 2) % 2, i);
    if i > 0 {
      XorBits(a / 2, b / 2, i - 1);
    }
  }

  lemma {:induction false} AndBits(a: nat, b: nat, i: nat)
    ensures Bit(And(a, b), i) == (if Bit(a, i) == 1 && Bit(b, i) == 1 then 1 else 0)
  {
    AndStep(a, b);
    TwoDigits(a % 2, b % 2);
    BitOfDouble(And(a / 2, b / 2), (a % 2) * (b % 2), i);
    if i > 0 {
      AndBits(a / 2, b / 2, i - 1);
    }
  }

  lemma TwoDigits(x: nat, y: nat)
    requires x < 2 && y < 2
    ensures x * y == if x == 1 && y == 1 then 1 else 0
  {
  }

  /** c, followed by k zero digits. */
  function Up(c: nat, k: nat): nat {
    if k == 0 then c else 2 * Up(c, k - 1)
  }

  lemma {:induction false} UpIs(c: nat, k: nat)
    ensures Up(c, k) == Pow(2, k) * c
  {
    if k > 0 {
      UpIs(c, k - 1);
      Double(Pow(2, k - 1), c);
    }
  }

  lemma Double(p: nat, c: nat)
    ensures 2 * (p * c) == (2 * p) * c
  {
  }

  /** Both operations work on low and high digits apart. */
  lemma {:induction false} XorSplit(a: nat, b: nat, k: nat, c: nat, d: nat, x: nat, y: nat)
    requires a < Pow(2, k) && b < Pow(2, k) && x == a + Up(c, k) && y == b + Up(d, k)
    ensures Xor(x, y) == Xor(a, b) + Up(Xor(c, d), k)
    ensures Xor(a, b) < Pow(2, k)
  {
    if k > 0 {
      XorStep(a, b);
      XorStep(x, y);
      XorSplit(a / 2, b / 2, k - 1, c, d, x / 2, y / 2);
    }
  }

  lemma {:induction false} AndSplit(a: nat, b: nat, k: nat, c: nat, d: nat, x: nat, y: nat)
    requires a < Pow(2, k) && b < Pow(2, k) && x == a + Up(c, k) && y == b + Up(d, k)
    ensures And(x, y) == And(a, b) + Up(And(c, d), k)
  {
    if k > 0 {
      AndStep(a, b);
      AndStep(x, y);
      AndSplit(a / 2, b / 2, k - 1, c, d, x / 2, y / 2);
    }
  }

  lemma XorStep(a: nat, b: nat)
    ensures Xor(a, b) == 2 * Xor(a / 2, b / 2) + (a % 2 + b % 2) % 2
  {
  }

  lemma AndStep(a: nat, b: nat)
    ensures And(a, b) == 2 * And(a / 2, b / 2) + (a % 2) * (b % 2)
  {
  }

  lemma {:induction false} XorNothing(a: nat)
    ensures Xor(a, 0) == a
  {
    if a > 0 {
      XorNothing(a / 2);
    }
  }

  lemma {:induction false} AndNothing(a: nat)
    ensures And(a, 0) == 0
  {
  }

  /** All ones below 2^k. */
  lemma {:induction false} AndOnes(a: nat, k: nat)
    requires a < Pow(2, k)
    ensures And(a, Pow(2, k) - 1) == a
  {
    if k > 0 {
      AndStep(a, Pow(2, k) - 1);
      AndOnes(a / 2, k - 1);
      assert (Pow(2, k) - 1) / 2 == Pow(2, k - 1) - 1 && (Pow(2, k) - 1) % 2 == 1;
    }
  }

  lemma Words()
    ensures Pow(2, 28) == 0x1000_0000 && Pow(2, 24) == 0x100_0000 && Pow(2, 4) == 16 && Pow(2, 2) == 4
    ensures Pow(2, 32) == WORD
  {
    assert Pow(2, 4) == 16;
    assert Pow(2, 8) == 256;
    assert Pow(2, 12) == 4096;
    assert Pow(2, 16) == 0x1_0000;
    assert Pow(2, 20) == 0x10_0000;
    assert Pow(2, 24) == 0x100_0000;
    assert Pow(2, 28) == 0x1000_0000;
  }

  // The xor-based hashes.

  function SaxStep(h: nat, c: int): nat { Xor(h, (Shl(h, 5) + Shr(h, 2) + c) % WORD) }

  function Sax(s: CString): int { SaxFold(s) }

  function SaxFold(s: CString): nat {
    if s == [] then 0 else SaxStep(SaxFold(s[..|s| - 1]), s[|s| - 1] as int)
  }

  function JsStep(h: nat, c: int): nat { Xor(h, (Shl(h, 5) + c + Shr(h, 2)) % WORD) }

  function Js(s: CString): int { JsFold(s) }

  function JsFold(s: CString): nat {
    if s == [] then 1315423911 else JsStep(JsFold(s[..|s| - 1]), Signed(s[|s| - 1]))
  }

  /** The body of the elf loop behind the shift: mix the top four bits into the low byte and
      clear them. */
  function Mixed(g: nat): nat {
    var x := And(g, 0xF000_0000);
    if x != 0 then And(Xor(g, Shr(x, 24)), Not(x)) else g
  }

  function ElfStep(h: nat, c: int): nat { Mixed((Shl(h, 4) + c) % WORD) }

  function Elf(s: CString): int { ElfFold(s) }

  function ElfFold(s: CString): nat {
    if s == [] then 0 else ElfStep(ElfFold(s[..|s| - 1]), Signed(s[|s| - 1]))
  }

  method SaxHash(key: CString) returns (h: nat)
    ensures h == Sax(key)
  {
    h := 0;
    var i := 0;
    while i < |key|
      invariant 0 <= i <= |key| && h == SaxFold(key[..i])
    {
      assert key[..i + 1][..i] == key[..i];
      h := Xor(h, (Shl(h, 5) + Shr(h, 2) + key[i] as int) % WORD);
      i := i + 1;
    }
    assert key[..i] == key;
  }

  method JsHash(str: CString) returns (hash: nat)
    ensures hash == Js(str)
  {
    hash := 1315423911;
    var i := 0;
    while i < |str|
      invariant 0 <= i <= |str| && hash == JsFold(str[..i])
    {
      JsNext(str, i);
      hash := Xor(hash, (Shl(hash, 5) + Signed(str[i]) + Shr(hash, 2)) % WORD);
      i := i + 1;
    }
    assert str[..i] == str;
  }

  lemma ElfNext(s: CString, i: nat)
    requires i < |s|
    ensures ElfFold(s[..i + 1]) == Mixed((Shl(ElfFold(s[..i]), 4) + Signed(s[i])) % WORD)
  {
    assert s[..i + 1][..i] == s[..i];
  }

  lemma JsNext(s: CString, i: nat)
    requires i < |s|
    ensures JsFold(s[..i + 1]) == JsStep(JsFold(s[..i]), Signed(s[i]))
  {
    assert s[..i + 1][..i] == s[..i];
  }

  /** The rest of the body of the elf loop. */
  method Mix(g: nat) returns (hash: nat)
    ensures hash == Mixed(g)
  {
    hash := g;
    var x := And(hash, 0xF000_0000);
    if x != 0 {
      hash := Xor(hash, Shr(x, 24));
      hash := And(hash, Not(x));
    }
  }

  method ElfHash(str: CString) returns (hash: nat)
    ensures hash == Elf(str)
  {
    hash := 0;
    var i := 0;
    while i < |str|
      invariant 0 <= i <= |str| && hash == ElfFold(str[..i])
    {
      ElfNext(str, i);
      hash := (Shl(hash, 4) + Signed(str[i])) % WORD;
      hash := Mix(hash);
      i := i + 1;
    }
    assert str[..i] == str;
  }

  // The hashes over integers, character by character.

  lemma Extends(s: CString, b: byte)
    ensures (s + [b])[..|s|] == s && (s + [b])[|s|] == b && |s + [b]| == |s| + 1
  {
  }

  /** sdbm_hash from the empty string on. */
  lemma SdbmRecurrence(s: CString, b: byte)
    ensures Sdbm([]) == 0
    ensures Sdbm(s + [b]) == (65599 * Sdbm(s) + b as int) % 0x1_0000_0000
  {
    Extends(s, b);
    NextHash(65599, 0, s + [b], |s|);
    assert (s + [b])[..|s| + 1] == s + [b];
  }

  lemma DjbRecurrence(s: CString, b: byte)
    ensures Djb([]) == 5381
    ensures Djb(s + [b]) == (33 * Djb(s) + Signed(b)) % 0x1_0000_0000
  {
    Extends(s, b);
    NextHash(33, 5381, s + [b], |s|);
    assert (s + [b])[..|s| + 1] == s + [b];
  }

  lemma BkdrRecurrence(s: CString, b: byte)
    ensures Bkdr([]) == 0
    ensures Bkdr(s + [b]) == (131 * Bkdr(s) + Signed(b)) % 0x1_0000_0000
  {
    Extends(s, b);
    NextHash(131, 0, s + [b], |s|);
    assert (s + [b])[..|s| + 1] == s + [b];
  }

  /** Shifting left by k and adding, modulo 2^32. */
  lemma ShiftAdd(h: nat, c: int)
    ensures (Shl(h, 5) + c) % WORD == (32 * h + c) % WORD
    ensures (Shl(h, 4) + c) % WORD == (16 * h + c) % WORD
  {
    Powers();
    Words();
    WrapStep(h * 32, 1, c);
    WrapStep(h * 16, 1, c);
  }

  lemma ShrTwo(h: nat)
    ensures Shr(h, 2) == h / 4
  {
    Words();
  }

  lemma SaxRecurrence(s: CString, b: byte)
    ensures Sax([]) == 0
    ensures 0 <= Sax(s) && Sax(s + [b]) == Xor(Sax(s), (32 * Sax(s) + Sax(s) / 4 + b as int) % 0x1_0000_0000)
  {
    Extends(s, b);
    SaxStepIs(SaxFold(s), b as int);
  }

  lemma SaxStepIs(h: nat, c: int)
    ensures SaxStep(h, c) == Xor(h, (32 * h + h / 4 + c) % 0x1_0000_0000)
  {
    ShrTwo(h);
    ShiftAdd(h, h / 4 + c);
  }

  lemma JsRecurrence(s: CString, b: byte)
    ensures Js([]) == 1315423911
    ensures 0 <= Js(s) && Js(s + [b]) == Xor(Js(s), (32 * Js(s) + Js(s) / 4 + Signed(b)) % 0x1_0000_0000)
  {
    Extends(s, b);
    JsStepIs(JsFold(s), Signed(b));
  }

  lemma JsStepIs(h: nat, c: int)
    ensures JsStep(h, c) == Xor(h, (32 * h + h / 4 + c) % 0x1_0000_0000)
  {
    ShrTwo(h);
    ShiftAdd(h, h / 4 + c);
  }

  /** The top four bits of an unsigned int, and the rest. */
  lemma TopBits(g: nat, q: nat, lo: nat)
    requires g < WORD && q == g / 0x1000_0000 && lo == g % 0x1000_0000
    ensures q < 16 && And(g, 0xF000_0000) == 0x1000_0000 * q
  {
    Words();
    AndNothing(lo);
    UpIs(q, 28);
    UpIs(15, 28);
    AndSplit(lo, 0, 28, q, 15, g, 0xF000_0000);
    AndOnes(q, 4);
  }

  /** A number and its complement share no digit. */
  lemma {:induction false} AndComplement(a: nat, k: nat)
    requires a < Pow(2, k)
    ensures And(a, Pow(2, k) - 1 - a) == 0
  {
    if k > 0 {
      var b := Pow(2, k) - 1 - a;
      AndComplement(a / 2, k - 1);
      AndStep(a, b);
      assert b / 2 == Pow(2, k - 1) - 1 - a / 2 && a % 2 + b % 2 == 1;
    }
  }

  lemma MixedTop(g: nat, q: nat, lo: nat, w: nat)
    requires g < WORD && q == g / 0x1000_0000 && lo == g % 0x1000_0000 && w == Xor(lo, 16 * q)
    ensures w < 0x1000_0000 && Xor(g, 16 * q) == w + 0x1000_0000 * q
  {
    Words();
    XorNothing(q);
    UpIs(q, 28);
    UpIs(0, 28);
    XorSplit(lo, 16 * q, 28, q, 0, g, 16 * q);
  }

  lemma ClearedTop(w: nat, q: nat, x: nat)
    requires w < 0x1000_0000 && q < 16 && x == 0x1000_0000 * q
    ensures And(w + x, Not(x)) == w
  {
    Words();
    AndOnes(w, 28);
    AndComplement(q, 4);
    UpIs(q, 28);
    UpIs(15 - q, 28);
    UpIs(0, 28);
    AndSplit(w, 0x0FFF_FFFF, 28, q, 15 - q, w + x, Not(x));
  }

  lemma ShiftedTop(q: nat)
    ensures Shr(0x1000_0000 * q, 24) == 16 * q
  {
    Words();
  }

  /** The mixing over integers: the low 28 bits, with bits 4 to 7 exclusive-or'd with the top four. */
  lemma MixedIs(g: nat, q: nat, lo: nat)
    requires g < WORD && q == g / 0x1000_0000 && lo == g % 0x1000_0000
    ensures Mixed(g) == Xor(lo, 16 * q) < 0x1000_0000
  {
    var x, w := 0x1000_0000 * q, Xor(lo, 16 * q);
    TopBits(g, q, lo);
    ShiftedTop(q);
    MixedTop(g, q, lo, w);
    ClearedTop(w, q, x);
    XorNothing(lo);
  }

  /** elf_hash from the empty string on; v is the shifted sum. */
  lemma ElfRecurrence(s: CString, b: byte)
    ensures Elf([]) == 0
    ensures var v := (16 * Elf(s) + Signed(b)) % 0x1_0000_0000;
            Elf(s + [b]) == Xor(v % 0x1000_0000, 16 * (v / 0x1000_0000)) < 0x1000_0000
  {
    var v := (16 * ElfFold(s) + Signed(b)) % WORD;
    Extends(s, b);
    assert (s + [b])[..|s| + 1] == s + [b];
    ElfNext(s + [b], |s|);
    ShiftAdd(ElfFold(s), Signed(b));
    MixedIs(v, v / 0x1000_0000, v % 0x1000_0000);
  }

  /** elf_hash stays below 2^28 on every input, negative characters included. */
  lemma ElfBound(s: CString)
    ensures 0 <= Elf(s) < 0x1000_0000
  {
    if s != [] {
      var n := |s| - 1;
      assert s == s[..n] + [s[n]];
      ElfRecurrence(s[..n], s[n]);
    }
  }

  /** Up to six ASCII characters nothing is mixed: elf_hash is the polynomial with multiplier 16. */
  lemma {:induction false} ElfOfShort(s: CString)
    requires |s| <= 6 && forall i | 0 <= i < |s| :: s[i] < 128
    ensures Elf(s) == Poly(16, 0, UnsignedChars(s))
    ensures 0 <= Elf(s) && 15 * Elf(s) <= 127 * (Pow(16, |s|) - 1)
  {
    if s != [] {
      var n := |s| - 1;
      assert s == s[..n] + [s[n]] && s[..n + 1] == s;
      ElfOfShort(s[..n]);
      SnocPoly(16, 0, s, n);
      ShortStep(Elf(s[..n]), s[n] as int, n);
      Unmixed(s[..n], s[n]);
    }
  }

  lemma Unmixed(s: CString, b: byte)
    requires b < 128 && 0 <= 16 * Elf(s) + b as int < 0x1000_0000
    ensures Elf(s + [b]) == 16 * Elf(s) + b as int
  {
    var v: nat := 16 * Elf(s) + b as int;
    ElfRecurrence(s, b);
    Fits(v);
    XorNothing(v);
  }

  lemma Fits(v: nat)
    requires v < 0x1000_0000
    ensures v % 0x1_0000_0000 == v && v % 0x1000_0000 == v && 16 * (v / 0x1000_0000) == 0
  {
  }

  lemma ShortStep(e: int, c: int, n: nat)
    requires 0 <= e && 0 <= c < 128 && n <= 5 && 15 * e <= 127 * (Pow(16, n) - 1)
    ensures 0 <= 16 * e + c < 0x1000_0000 && 15 * (16 * e + c) <= 127 * (Pow(16, n + 1) - 1)
  {
    SixteenPowers(n);
  }

  lemma SixteenPowers(n: nat)
    requires n <= 5
    ensures Pow(16, n) <= 0x10_0000 && Pow(16, n + 1) == 16 * Pow(16, n)
  {
    assert Pow(16, 2) == 256;
    assert Pow(16, 4) == 0x1_0000;
    assert Pow(16, 5) == 0x10_0000;
  }
}
