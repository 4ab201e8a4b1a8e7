/** The compact form of difficulty targets, and the work that a target stands for. */
module CompactTargets {
  import opened Numerals
  import opened Limbs
  import opened LimbShifts
  import opened LimbDivision

  const WIDTH: nat := 8

  // ---------- the parts of a compact number ----------

  function Size(c: nat): nat {
    c / 0x1000000
  }

  function Mantissa(c: nat): nat {
    c % 0x800000
  }

  predicate SignBit(c: nat) {
    c / 0x800000 % 2 == 1
  }

  /** A power of 256. */
  ghost function Bytes(k: nat): (r: nat)
    ensures r > 0
  {
    Two(8 * k)
  }

  lemma BytesAdd(j: nat, k: nat)
    ensures Bytes(j + k) == Bytes(j) * Bytes(k)
  {
    TwoAdd(8 * j, 8 * k);
  }

  lemma BytesSmall()
    ensures Bytes(0) == 1 && Bytes(1) == 256 && Bytes(2) == 65536 && Bytes(3) == 16777216
  {
    assert Two(8) == 256;
    TwoAdd(8, 8);
    TwoAdd(16, 8);
  }

  lemma WidthBytes()
    ensures P(WIDTH) == Bytes(32) == Two(256)
  {
    hide Two, P;
    PIsTwo(8);
  }

  /** The mantissa that counts: it is shifted out when the size is less than three. */
  ghost function Word(c: nat): nat {
    if Size(c) <= 3 then Quotient(Mantissa(c), Bytes(3 - Size(c))) else Mantissa(c)
  }

  ghost function Quotient(x: nat, d: nat): nat
    requires d > 0
  {
    x / d
  }

  /** The number that the mantissa and size make, however large. */
  ghost function FullValue(c: nat): nat {
    if Size(c) <= 3 then Word(c) else Word(c) * Bytes(Size(c) - 3)
  }

  predicate Overflows(word: nat, size: nat) {
    word != 0 && (size > 34 || (word > 0xff && size > 33) || (word > 0xffff && size > 32))
  }

  /** The test on the size finds exactly the numbers of more than 256 bits. */
  lemma OverflowExact(word: nat, size: nat)
    requires word < 0x800000 && size > 3
    ensures Overflows(word, size) <==> word * Bytes(size - 3) >= Bytes(32)
  {
    hide Bytes;
    BytesSmall();
    var k := size - 3;
    if k >= 32 {
      BytesAdd(32, k - 32);
      OverflowLarge(word, Bytes(32), Bytes(k - 32));
    } else {
      BytesAdd(32 - k, k);
      OverflowSmall(word, Bytes(32 - k), Bytes(k));
      if 32 - k >= 3 {
        BytesAdd(3, 32 - k - 3);
        MulMonotone(Bytes(3), Bytes(3), 1, Bytes(32 - k - 3));
      }
    }
  }

  lemma OverflowLarge(word: nat, m: nat, d: nat)
    requires m > 0 && d > 0
    ensures word != 0 <==> word * (m * d) >= m
  {
    if word > 0 {
      MulMonotone(1, word, m * d, m * d);
      MulMonotone(m, m, 1, d);
    }
  }

  lemma OverflowSmall(word: nat, x: nat, y: nat)
    requires y > 0
    ensures word >= x <==> word * y >= x * y
  {
    if word >= x {
      MulMonotone(x, word, y, y);
    } else {
      MulMonotone(word + 1, x, y, y);
      Distributes(word, 1, y);
    }
  }

  // ---------- reading ----------

  lemma WordLimbs(s: seq<nat>, b: nat)
    requires |s| >= 2 && b < BASE * BASE && s[0] == b % BASE && s[1] == b / BASE
    requires forall k :: 2 <= k < |s| ==> s[k] == 0
    ensures AreLimbs(s) && Num(s) == b
  {
    hide P;
    QuotientBound(b, BASE, BASE);
    NumSplit(s, 2);
    NumZeros(s[2..]);
    NumTake(s, 0);
    NumTake(s, 1);
    assert s[..0] == [];
    PNext(0);
    PNext(1);
    assert BASE * 1 == BASE;
    assert P(2) * 0 == 0;
    assert b == BASE * (b / BASE) + b % BASE;
  }

  /** `pn = b` */
  method Assign(pn: array<nat>, b: nat)
    requires pn.Length >= 2 && b < BASE * BASE
    modifies pn
    ensures AreLimbs(pn[..]) && Num(pn[..]) == b
  {
    hide Num;
    forall k | 0 <= k < pn.Length {
      pn[k] := if k == 0 then b % BASE else if k == 1 then b / BASE else 0;
    }
    WordLimbs(pn[..], b);
  }

  /** Set the number from its compact form. */
  method SetCompact(pn: array<nat>, c: nat) returns (negative: bool, overflow: bool)
    requires pn.Length == WIDTH && c < BASE
    modifies pn
    ensures AreLimbs(pn[..]) && Num(pn[..]) == FullValue(c) % P(WIDTH)
    ensures negative <==> Word(c) != 0 && SignBit(c)
    ensures overflow <==> FullValue(c) >= P(WIDTH)
  {
    hide P, Num, Two, ProductMod, AreLimbs;
    var size, word := Size(c), Mantissa(c);
    if size <= 3 {
      word := word / Two(8 * (3 - size));
      SmallWord(c, word);
      Assign(pn, word);
    } else {
      SmallWord(c, word);
      Assign(pn, word);
      ProductModIs(word, Two(8 * (size - 3)), P(WIDTH));
      ShiftLeft(pn, 8 * (size - 3));
      OverflowExact(word, size);
      WidthBytes();
    }
    negative := word != 0 && SignBit(c);
    overflow := Overflows(word, size);
  }

  lemma SmallWord(c: nat, word: nat)
    requires word == Word(c)
    ensures word < 0x800000 && Size(c) <= 3 ==> word % P(WIDTH) == word && word < P(WIDTH) && !Overflows(word, Size(c))
    ensures word < 0x800000
  {
    hide P, Two;
    if Size(c) <= 3 {
      QuotientSmaller(Mantissa(c), Bytes(3 - Size(c)));
    }
    WidthBytes();
    BytesAdd(3, 29);
    BytesSmall();
    MulMonotone(Bytes(3), Bytes(3), 1, Bytes(29));
    ModSmall(word, P(WIDTH));
  }

  lemma QuotientSmaller(x: nat, d: nat)
    requires d > 0
    ensures x / d <= x
  {
    var q := x / d;
    assert x == d * q + x % d;
    MulMonotone(1, d, q, q);
  }

  // ---------- writing ----------

  /** The leading three bytes of a number of `n` bytes, or the number followed by zeros. */
  ghost function Leading(v: nat, n: nat): nat {
    if n <= 3 then v * Bytes(3 - n) else Quotient(v, Bytes(n - 3))
  }

  /** With the size that leaves the sign bit free, the mantissa has at most 23 bits. */
  lemma LeadingBound(v: nat, bits: nat)
    requires IsBits(v, bits) && bits > 0
    ensures var n := (bits + 7) / 8;
      && (bits % 8 == 0 ==> 0x800000 <= Leading(v, n) < 0x1000000)
      && (bits % 8 != 0 ==> Leading(v, n) < 0x800000)
  {
    hide Two;
    var n := (bits + 7) / 8;
    Two23();
    if n <= 3 {
      var d := 8 * (3 - n);
      TwoAdd(bits, d);
      TwoAdd(bits - 1, d);
      MulMonotone(Two(bits - 1), v, Two(d), Two(d));
      MulMonotone(v + 1, Two(bits), Two(d), Two(d));
      Distributes(v, 1, Two(d));
      TwoOrder(bits + d, 23);
    } else {
      var d := 8 * (n - 3);
      QuotientBits(v, bits, d);
      TwoOrder(bits - d, 23);
    }
  }

  lemma Two23()
    ensures Two(23) == 0x800000 && Two(24) == 0x1000000
  {
    BytesSmall();
    TwoNext(23);
  }

  lemma TwoOrder(m: nat, n: nat)
    ensures m <= n ==> Two(m) <= Two(n)
  {
    hide Two;
    if m <= n {
      TwoAdd(m, n - m);
      MulMonotone(Two(m), Two(m), 1, Two(n - m));
    }
  }

  lemma QuotientBits(v: nat, bits: nat, d: nat)
    requires IsBits(v, bits) && d < bits
    ensures Two(bits - d - 1) <= Quotient(v, Two(d)) < Two(bits - d)
  {
    hide Two;
    TwoAdd(bits - d, d);
    TwoAdd(bits - d - 1, d);
    assert Two(d) * Two(bits - d) == Two(bits - d) * Two(d);
    QuotientBound(v, Two(d), Two(bits - d));
    QuotientAtLeast(v, Two(d), Two(bits - d - 1));
  }

  lemma QuotientAtLeast(v: nat, d: nat, q: nat)
    requires d > 0 && v >= q * d
    ensures v / d >= q
  {
    var r := v / d;
    assert v == d * r + v % d;
    if r < q {
      MulMonotone(r + 1, q, d, d);
      Distributes(r, 1, d);
    }
  }

  /** One byte fewer of the leading ones. */
  lemma LeadingNext(v: nat, n: nat)
    ensures Leading(v, n) / 256 == Leading(v, n + 1)
  {
    hide Bytes;
    BytesSmall();
    if n < 3 {
      BytesAdd(2 - n, 1);
      MulAssoc(v, Bytes(2 - n), 256);
      DivModUnique(v * Bytes(2 - n) * 256, v * Bytes(2 - n), 0, 256);
    } else if n == 3 {
      assert v * 1 == v;
    } else {
      BytesAdd(n - 3, 1);
      QuotientTwice(v, Bytes(n - 3), 256);
    }
  }

  lemma QuotientTwice(v: nat, d: nat, e: nat)
    requires d > 0 && e > 0
    ensures d * e > 0 && (v / d) / e == v / (d * e)
  {
    var q, r := v / d, v % d;
    var q', r' := q / e, q % e;
    assert v == d * q + r && q == e * q' + r';
    MulMonotone(r' + 1, e, d, d);
    TwiceAlgebra(v, d, e, q, r, q', r');
    DivModUnique(v, q', d * r' + r, d * e);
  }

  lemma TwiceAlgebra(v: nat, d: nat, e: nat, q: nat, r: nat, q': nat, r': nat)
    requires v == d * q + r && q == e * q' + r'
    ensures v == q' * (d * e) + (d * r' + r) && (r' + 1) * d == d * r' + d && e * d == d * e
  {
    assert d * (e * q' + r') == d * (e * q') + d * r';
    assert d * (e * q') == q' * (d * e);
  }

  lemma Halves(a: nat, x: nat)
    ensures (a + 2 * x) / 2 == a / 2 + x && (a + 2 * x) % 2 == a % 2
  {
  }

  lemma {:induction false} OrHigh(a: nat, b: nat, c: nat, s: nat)
    requires a < Two(s)
    ensures Or(a + b * Two(s), c * Two(s)) == a + Or(b, c) * Two(s)
    decreases s
  {
    hide Two, Or;
    TwoNext(0);
    if s == 0 {
      assert b * 1 == b && c * 1 == c && Or(b, c) * 1 == Or(b, c);
    } else {
      var m := Two(s - 1);
      TwoNext(s - 1);
      OrHigh(a / 2, b, c, s - 1);
      TimesTwo(b, m);
      TimesTwo(c, m);
      TimesTwo(Or(b, c), m);
      Halves(a, b * m);
      Halves(0, c * m);
      OrEven(a + 2 * (b * m), 2 * (c * m));
    }
  }

  lemma OrEven(x: nat, y: nat)
    requires y % 2 == 0
    ensures Or(x, y) == x % 2 + 2 * Or(x / 2, y / 2)
  {
  }

  /** Size, sign and mantissa, put together with or. */
  lemma PackCompact(m: nat, size: nat, sign: bool)
    requires m < 0x800000 && size < 256
    ensures var c := Or(Or(m, size * 0x1000000), if sign then 0x800000 else 0);
      Size(c) == size && Mantissa(c) == m && (SignBit(c) <==> sign) && c < BASE
  {
    hide Two, Or, Size, Mantissa, SignBit;
    Two23();
    OrDisjoint(m, size, 24);
    if sign {
      OrHigh(m, 2 * size, 1, 23);
      OrEvenOne(size);
      ReadBack(m, 2 * size + 1);
    } else {
      OrComm(m + size * 0x1000000, 0);
      OrZero(m + size * 0x1000000);
      ReadBack(m, 2 * size);
    }
  }

  lemma ReadBack(m: nat, k: nat)
    requires m < 0x800000 && k < 512
    ensures var c := m + k * 0x800000; Size(c) == k / 2 && Mantissa(c) == m && (SignBit(c) <==> k % 2 == 1) && c < BASE
  {
  }

  lemma OrEvenOne(size: nat)
    ensures Or(2 * size, 1) == 2 * size + 1
  {
    OrComm(size, 0);
    OrZero(size);
  }

  /** The lowest 64 bits. */
  method GetLow64(pn: array<nat>) returns (b: nat)
    requires pn.Length >= 2 && AreLimbs(pn[..])
    ensures b == Num(pn[..]) % (BASE * BASE)
  {
    hide Num;
    b := pn[0] + pn[1] * BASE;
    LowLimbs(pn[..]);
  }

  lemma LowLimbs(s: seq<nat>)
    requires |s| >= 2 && AreLimbs(s)
    ensures s[0] + s[1] * BASE == Num(s) % (BASE * BASE)
  {
    hide P, Num;
    NumSplit(s, 2);
    NumTake(s, 0);
    NumTake(s, 1);
    assert s[..0] == [];
    EmptyNum();
    PNext(0);
    PNext(1);
    assert BASE * 1 == BASE && s[0] * 1 == s[0];
    DivModUnique(Num(s), Num(s[2..]), s[0] + s[1] * BASE, BASE * BASE);
  }

  lemma EmptyNum()
    ensures Num([]) == 0
  {
  }

  /** The compact form of the number: its leading three bytes, or two if the highest bit of these is set. */
  method GetCompact(pn: array<nat>, negative: bool) returns (c: nat, ghost bits: nat)
    requires pn.Length == WIDTH && AreLimbs(pn[..])
    ensures IsBits(Num(pn[..]), bits) && c < BASE
    ensures Size(c) == if bits == 0 then 0 else bits / 8 + 1
    ensures Mantissa(c) == Leading(Num(pn[..]), Size(c))
    ensures SignBit(c) <==> negative && Mantissa(c) != 0
  {
    hide P, Num, Two, Bytes, Or, Leading, IsBits, AreLimbs, Size, Mantissa, SignBit;
    ghost var v := Num(pn[..]);
    var n := Bits(pn);
    bits := n;
    var size, m := (n + 7) / 8, 0;
    LeadingFacts(v, n);
    if size <= 3 {
      var low := GetLow64(pn);
      m := low * Two(8 * (3 - size)) % BASE;
    } else {
      var bn := Copy(pn);
      ShiftRight(bn, 8 * (size - 3));
      var low := GetLow64(bn);
      m := low % BASE;
    }
    assert m == Leading(v, size);
    if m / 0x800000 % 2 == 1 {
      LeadingNext(v, size);
      m := m / 256;
      size := size + 1;
    }
    assert m < 0x800000 && size < 256;
    PackCompact(m, size, negative && m != 0);
    c := Or(Or(m, size * 0x1000000), if negative && m != 0 then 0x800000 else 0);
  }

  /** How the leading bytes come out of the code's shifts. */
  lemma LeadingFacts(v: nat, bits: nat)
    requires IsBits(v, bits) && bits <= 256
    ensures var n := (bits + 7) / 8;
      && Leading(v, n) < 0x1000000
      && (bits > 0 && bits % 8 == 0 <==> Leading(v, n) / 0x800000 % 2 == 1)
      && (n <= 3 ==> v < BASE * BASE && v * Two(8 * (3 - n)) % BASE == Leading(v, n))
      && (n > 3 ==> v / Two(8 * (n - 3)) == Leading(v, n))
      && Leading(v, n) % BASE == Leading(v, n)
  {
    hide Two, IsBits, BitSet;
    var n := (bits + 7) / 8;
    ZeroLeading(v, bits);
    if bits > 0 {
      LeadingBound(v, bits);
    }
    if n <= 3 {
      SmallNumber(v, bits);
    }
  }

  lemma ZeroLeading(v: nat, bits: nat)
    requires IsBits(v, bits)
    ensures bits == 0 ==> v == 0 && Leading(v, 0) == 0
  {
  }

  lemma SmallNumber(v: nat, bits: nat)
    requires IsBits(v, bits) && bits <= 24
    ensures v < 0x1000000
  {
    hide Two;
    Two23();
    if bits > 0 {
      TwoOrder(bits, 24);
    }
  }

  /** The number without its bytes below the leading ones. */
  ghost function Truncated(v: nat, size: nat): nat {
    if size <= 3 then v else Quotient(v, Bytes(size - 3)) * Bytes(size - 3)
  }

  /** Reading the compact form of a number gives back its leading three bytes, or two if the highest bit of
      these is set, and never overflows. */
  lemma CompactRoundTrip(v: nat, bits: nat, c: nat)
    requires IsBits(v, bits) && bits <= 256
    requires Size(c) == if bits == 0 then 0 else bits / 8 + 1
    requires Mantissa(c) == Leading(v, Size(c))
    ensures FullValue(c) == Truncated(v, Size(c)) <= v < P(WIDTH)
  {
    hide Two, Size, Mantissa, P;
    var n := Size(c);
    if n <= 3 {
      MulDiv(v, Bytes(3 - n));
    } else {
      QuotientTimes(v, Bytes(n - 3));
    }
    WidthBytes();
    TwoOrder(bits, 256);
    BitsBound(v, bits);
  }

  lemma BitsBound(v: nat, bits: nat)
    requires IsBits(v, bits)
    ensures v < Two(bits)
  {
  }

  lemma MulDiv(v: nat, d: nat)
    requires d > 0
    ensures Quotient(v * d, d) == v
  {
    DivModUnique(v * d, v, 0, d);
  }

  lemma QuotientTimes(v: nat, d: nat)
    requires d > 0
    ensures Quotient(v, d) * d <= v
  {
    assert v == d * (v / d) + v % d;
    assert d * (v / d) == (v / d) * d;
  }

  // ---------- work ----------

  /** Dividing what is left of the full range is dividing the range, less one. */
  lemma ProofQuotient(m: nat, d: nat)
    requires 0 < d <= m
    ensures (m - d) / d + 1 == m / d
  {
    AddQuotient(m - d, 1, d);
    assert 1 * d == d;
  }

  lemma NotMaximal(c: nat)
    requires FullValue(c) < P(WIDTH) && c < BASE
    ensures FullValue(c) + 1 < P(WIDTH)
  {
    hide P, Two;
    WidthBytes();
    BytesSmall();
    BytesAdd(3, 29);
    BytesAdd(1, 31);
    MulMonotone(Bytes(3), Bytes(3), 1, Bytes(29));
    if Size(c) <= 3 {
      SmallWord(c, Word(c));
    } else {
      var k := Size(c) - 3;
      BytesAdd(1, k - 1);
      MulAssoc(Word(c), 256, Bytes(k - 1));
      EvenProduct(Word(c), Bytes(k - 1));
      EvenProduct(1, Bytes(31));
    }
  }

  lemma EvenProduct(x: nat, y: nat)
    ensures (x * (256 * y)) % 2 == 0
  {
    assert x * (256 * y) == 2 * (128 * (x * y));
  }

  /** The expected number of hashes for a target: 2^256 / (target + 1). No work for invalid targets. */
  method GetBitsProof(c: nat) returns (r: array<nat>)
    requires c < BASE
    ensures r.Length == WIDTH && AreLimbs(r[..])
    ensures var valid := !(Word(c) != 0 && SignBit(c)) && 0 < FullValue(c) < P(WIDTH);
      Num(r[..]) == if valid then P(WIDTH) / (FullValue(c) + 1) else 0
  {
    hide P, Num, AreLimbs, FullValue, Word, SignBit;
    var target := new nat[WIDTH](_ => 0);
    var negative, overflow := SetCompact(target, c);
    var bits := Bits(target);
    BitsPositive(Num(target[..]), bits);
    r := new nat[WIDTH](_ => 0);
    AllClear(r[..], 0);
    ZeroLimbs(r[..]);
    ghost var t := FullValue(c);
    if negative || overflow || bits == 0 {
      ZeroTarget(c);
      return;
    }
    ModSmall(t, P(WIDTH));
    NotMaximal(c);
    r := Complement(target);
    ghost var inverse := r[..];
    Increment(target);
    ModSmall(t + 1, P(WIDTH));
    assert r[..] == inverse;
    var ok := DivAssign(r, target);
    ProofQuotient(P(WIDTH), t + 1);
    SmallerWork(P(WIDTH), t + 1);
    Increment(r);
  }

  lemma ZeroTarget(c: nat)
    ensures FullValue(c) % P(WIDTH) == 0 && FullValue(c) < P(WIDTH) ==> FullValue(c) == 0
  {
    hide P;
    if FullValue(c) < P(WIDTH) {
      ModSmall(FullValue(c), P(WIDTH));
    }
  }

  /** The work of a target that is not zero fits. */
  lemma SmallerWork(m: nat, d: nat)
    requires 1 < d <= m
    ensures (m / d) % m == m / d
  {
    var q := m / d;
    assert m == d * q + m % d;
    MulMonotone(2, d, q, q);
    if q > 0 {
      ModSmall(q, m);
    } else {
      ModSmall(0, m);
    }
  }
}
