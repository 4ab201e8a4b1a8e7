/** Big unsigned integers as 32-bit limbs, least significant first: what the limb operations compute. */
module Limbs {
  import opened Numerals

  const BASE: nat := 0x1_0000_0000

  /** What sums of products of limbs are computed in: every assignment to such a variable is proved to fit. */
  type UInt64 = n: nat | n < 0x1_0000_0000_0000_0000

  ghost predicate AreLimbs(s: seq<nat>) {
    forall k :: 0 <= k < |s| ==> s[k] < BASE
  }

  /** The power of the base at place `i`. */
  ghost function P(i: nat): (r: nat)
    ensures r > 0
  {
    Pow(BASE, i)
  }

  lemma PNext(i: nat)
    ensures P(i + 1) == BASE * P(i) && P(0) == 1
  {
  }

  lemma PAdd(i: nat, j: nat)
    ensures P(i + j) == P(i) * P(j)
  {
    PowAdd(BASE, i, j);
  }

  /** The number that the limbs make. */
  ghost function Num(s: seq<nat>): nat {
    if |s| == 0 then 0 else Num(s[..|s| - 1]) + s[|s| - 1] * P(|s| - 1)
  }

  lemma NumTake(s: seq<nat>, i: nat)
    requires i < |s|
    ensures Num(s[..i + 1]) == Num(s[..i]) + s[i] * P(i)
  {
    assert s[..i + 1][..i] == s[..i];
  }

  lemma {:induction false} NumBound(s: seq<nat>)
    requires AreLimbs(s)
    ensures Num(s) < P(|s|)
  {
    hide P;
    PNext(0);
    if |s| > 0 {
      var n := |s| - 1;
      NumBound(s[..n]);
      MulMonotone(s[n] + 1, BASE, P(n), P(n));
      assert (s[n] + 1) * P(n) == s[n] * P(n) + P(n);
      PNext(n);
    }
  }

  lemma {:induction false} NumSplit(s: seq<nat>, i: nat)
    requires i <= |s|
    ensures Num(s) == Num(s[..i]) + P(i) * Num(s[i..])
    decreases |s|
  {
    hide P;
    if i == |s| {
      assert s[..i] == s && s[i..] == [];
    } else {
      var n := |s| - 1;
      NumSplit(s[..n], i);
      assert s[..n][..i] == s[..i] && s[..n][i..] == s[i..][..n - i];
      PAdd(i, n - i);
      MulTwice(P(i), Num(s[i..n]), s[n], P(n - i));
      assert s[i..][..n - i] == s[i..n];
    }
  }

  lemma MulTwice(p: nat, x: nat, d: nat, q: nat)
    ensures p * x + d * (p * q) == p * (x + d * q)
  {
  }

  lemma {:induction false} NumZeros(s: seq<nat>)
    requires forall k :: 0 <= k < |s| ==> s[k] == 0
    ensures Num(s) == 0
  {
    if |s| > 0 {
      NumZeros(s[..|s| - 1]);
    }
  }

  /** Changing one limb. */
  lemma NumSet(s: seq<nat>, i: nat, v: nat)
    requires i < |s|
    ensures Num(s[i := v]) + s[i] * P(i) == Num(s) + v * P(i)
  {
    hide P;
    var t := s[i := v];
    NumSplit(s, i + 1);
    NumSplit(t, i + 1);
    NumTake(s, i);
    NumTake(t, i);
    assert t[..i] == s[..i] && t[i + 1..] == s[i + 1..];
  }

  // ---------- division with remainder ----------

  lemma DivModUnique(x: nat, q: nat, r: nat, m: nat)
    requires x == q * m + r && r < m
    ensures x / m == q && x % m == r
  {
    var q', r' := x / m, x % m;
    assert x == m * q' + r';
    SameQuotient(q, q', r, r', m);
  }

  /** `x` is what remains of `y` when a multiple of `m` is taken off. */
  ghost predicate Remains(x: nat, y: nat, m: nat) {
    exists q: nat :: x + q * m == y
  }

  lemma RemainsIsMod(x: nat, y: nat, m: nat)
    requires Remains(x, y, m) && x < m
    ensures x == y % m
  {
    var q: nat :| x + q * m == y;
    DivModUnique(y, q, x, m);
  }

  // ---------- carrying ----------

  /** One limb of a sum or product: `n` is the carry and what is added at this place. */
  lemma Carry(x: nat, carry: nat, p: nat, y: nat, d: nat)
    requires x + carry * p == y
    ensures var n := carry + d; x + (n % BASE) * p + (n / BASE) * (BASE * p) == y + d * p
  {
    var n := carry + d;
    assert n == BASE * (n / BASE) + n % BASE;
    CarryAlgebra(n % BASE, n / BASE, BASE, p, carry, d);
  }

  lemma CarryAlgebra(r: nat, q: nat, b: nat, p: nat, carry: nat, d: nat)
    requires carry + d == b * q + r
    ensures r * p + q * (b * p) == carry * p + d * p
  {
    assert (b * q + r) * p == (carry + d) * p;
    assert (b * q) * p == q * (b * p);
  }

  ghost predicate SameFrom(s: seq<nat>, t: seq<nat>, i: nat) {
    |s| == |t| && forall k :: i <= k < |s| ==> t[k] == s[k]
  }

  // ---------- addition ----------

  ghost predicate InAdd(s: seq<nat>, b: seq<nat>, t: seq<nat>, i: nat, carry: nat) {
    && |b| == |s| && i <= |s| && SameFrom(s, t, i) && AreLimbs(t) && carry <= 1
    && Num(t[..i]) + carry * P(i) == Num(s[..i]) + Num(b[..i])
  }

  lemma AddStep(s: seq<nat>, b: seq<nat>, t: seq<nat>, i: nat, carry: nat)
    requires InAdd(s, b, t, i, carry) && i < |s| && AreLimbs(s) && AreLimbs(b)
    ensures carry + t[i] + b[i] < BASE * BASE
    ensures InAdd(s, b, t[i := (carry + t[i] + b[i]) % BASE], i + 1, (carry + t[i] + b[i]) / BASE)
  {
    hide P, Num;
    var n := carry + t[i] + b[i];
    var t' := t[i := n % BASE];
    Carry(Num(t[..i]), carry, P(i), Num(s[..i]) + Num(b[..i]), t[i] + b[i]);
    NumTake(s, i);
    NumTake(b, i);
    NumTake(t', i);
    assert t'[..i] == t[..i];
    PNext(i);
    Distributes(t[i], b[i], P(i));
  }

  lemma Distributes(x: nat, y: nat, p: nat)
    ensures (x + y) * p == x * p + y * p
  {
  }

  /** `a += b` */
  method AddAssign(a: array<nat>, b: array<nat>)
    requires a.Length == b.Length && AreLimbs(a[..]) && AreLimbs(b[..])
    modifies a
    ensures AreLimbs(a[..]) && Num(a[..]) == (old(Num(a[..])) + old(Num(b[..]))) % P(a.Length)
  {
    hide P, Num, InAdd;
    ghost var s, t := a[..], b[..];
    var carry: UInt64 := 0;
    AddStarts(s, t);
    for i := 0 to a.Length
      invariant InAdd(s, t, a[..], i, carry) && (a == b || b[..] == t)
      invariant a == b ==> forall k :: i <= k < a.Length ==> b[k] == t[k]
    {
      AddStep(s, t, a[..], i, carry);
      var n: UInt64 := carry + a[i] + b[i];
      var limb: nat := n % BASE;
      ghost var was := a[..];
      a[i] := limb;
      assert a[..] == was[i := limb];
      carry := n / BASE;
    }
    AddEnds(s, t, a[..], carry);
  }

  lemma AddStarts(s: seq<nat>, b: seq<nat>)
    requires |b| == |s| && AreLimbs(s)
    ensures InAdd(s, b, s, 0, 0)
  {
    assert s[..0] == [] && b[..0] == [];
  }

  lemma AddEnds(s: seq<nat>, b: seq<nat>, t: seq<nat>, carry: nat)
    requires InAdd(s, b, t, |s|, carry)
    ensures AreLimbs(t) && Num(t) == (Num(s) + Num(b)) % P(|s|)
  {
    hide P, Num;
    assert s[..|s|] == s && b[..|s|] == b && t[..|s|] == t;
    NumBound(t);
    assert Remains(Num(t), Num(s) + Num(b), P(|s|));
    RemainsIsMod(Num(t), Num(s) + Num(b), P(|s|));
  }

  // ---------- complement, increment, negation and subtraction ----------

  lemma {:induction false} ComplementNum(s: seq<nat>, t: seq<nat>)
    requires |s| == |t| && AreLimbs(s) && forall k :: 0 <= k < |s| ==> t[k] == BASE - 1 - s[k]
    ensures AreLimbs(t) && Num(t) + Num(s) + 1 == P(|s|)
  {
    hide P;
    PNext(0);
    if |s| > 0 {
      var n := |s| - 1;
      ComplementNum(s[..n], t[..n]);
      assert (t[n] + s[n]) * P(n) == t[n] * P(n) + s[n] * P(n) by {
        Distributes(t[n], s[n], P(n));
      }
      assert (t[n] + s[n] + 1) * P(n) == (t[n] + s[n]) * P(n) + P(n);
      PNext(n);
    }
  }

  /** `~b` */
  method Complement(b: array<nat>) returns (r: array<nat>)
    requires AreLimbs(b[..])
    ensures fresh(r) && r.Length == b.Length && AreLimbs(r[..]) && Num(r[..]) == P(b.Length) - 1 - Num(b[..])
  {
    hide P, Num;
    r := new nat[b.Length](_ => 0);
    for i := 0 to b.Length
      invariant forall k :: 0 <= k < i ==> r[k] == BASE - 1 - b[k]
      invariant AreLimbs(b[..])
    {
      assert b[..][i] == b[i];
      r[i] := BASE - 1 - b[i];
    }
    ComplementNum(b[..], r[..]);
  }

  /** The limbs before place `i` have gone from their maximum to zero. */
  ghost predicate InIncrement(s: seq<nat>, t: seq<nat>, i: nat) {
    && i <= |s| && SameFrom(s, t, i) && AreLimbs(t)
    && Num(t[..i]) + P(i) == Num(s[..i]) + 1
  }

  lemma IncrementStep(s: seq<nat>, t: seq<nat>, i: nat)
    requires InIncrement(s, t, i) && i < |s| && t[i] == BASE - 1
    ensures InIncrement(s, t[i := 0], i + 1)
  {
    hide P, Num;
    var t' := t[i := 0];
    NumTake(s, i);
    NumTake(t', i);
    assert t'[..i] == t[..i];
    PNext(i);
    assert BASE * P(i) == (BASE - 1) * P(i) + P(i);
  }

  lemma IncrementEnds(s: seq<nat>, t: seq<nat>, i: nat)
    requires InIncrement(s, t, i) && AreLimbs(s)
    ensures i == |s| ==> Num(t) == (Num(s) + 1) % P(|s|)
    ensures i < |s| && t[i] + 1 < BASE ==> AreLimbs(t[i := t[i] + 1]) && Num(t[i := t[i] + 1]) == (Num(s) + 1) % P(|s|)
  {
    hide P, Num;
    NumSplit(s, i);
    NumSplit(t, i);
    assert t[i..] == s[i..];
    if i == |s| {
      assert t[..i] == t && s[..i] == s;
      NumBound(t);
      assert Num(t) + 1 * P(|s|) == Num(s) + 1;
      assert Remains(Num(t), Num(s) + 1, P(|s|));
      RemainsIsMod(Num(t), Num(s) + 1, P(|s|));
    } else if t[i] + 1 < BASE {
      var t' := t[i := t[i] + 1];
      NumSet(t, i, t[i] + 1);
      Distributes(t[i], 1, P(i));
      NumBound(t');
      assert Num(t') + 0 * P(|s|) == Num(s) + 1;
      assert Remains(Num(t'), Num(s) + 1, P(|s|));
      RemainsIsMod(Num(t'), Num(s) + 1, P(|s|));
    }
  }

  /** `++a` */
  method Increment(a: array<nat>)
    requires AreLimbs(a[..])
    modifies a
    ensures AreLimbs(a[..]) && Num(a[..]) == (old(Num(a[..])) + 1) % P(a.Length)
  {
    hide P, Num, InIncrement;
    ghost var s := a[..];
    var i := 0;
    IncrementStarts(s);
    while i < a.Length
      invariant i <= a.Length && InIncrement(s, a[..], i)
    {
      ghost var t := a[..];
      IncrementEnds(s, t, i);
      InIncrementLimbs(s, t, i);
      assert a[i] == t[i];
      a[i] := (a[i] + 1) % BASE;
      if a[i] != 0 {
        assert a[..] == t[i := t[i] + 1];
        return;
      }
      IncrementStep(s, t, i);
      assert a[..] == t[i := 0];
      i := i + 1;
    }
    IncrementEnds(s, a[..], i);
    InIncrementLimbs(s, a[..], i);
  }

  lemma IncrementStarts(s: seq<nat>)
    requires AreLimbs(s)
    ensures InIncrement(s, s, 0)
  {
    assert s[..0] == [];
  }

  lemma InIncrementLimbs(s: seq<nat>, t: seq<nat>, i: nat)
    requires InIncrement(s, t, i)
    ensures |t| == |s| && AreLimbs(t) && (i < |s| ==> t[i] < BASE)
  {
  }

  /** `-b`, modulo the width. */
  method Negate(b: array<nat>) returns (r: array<nat>)
    requires AreLimbs(b[..])
    ensures fresh(r) && r.Length == b.Length && AreLimbs(r[..])
    ensures Num(r[..]) == (P(b.Length) - Num(b[..])) % P(b.Length)
  {
    hide P, Num;
    NumBound(b[..]);
    r := Complement(b);
    Increment(r);
  }

  lemma SubMod(a: nat, b: nat, m: nat)
    requires b < m
    ensures (a + (m - b) % m) % m == (a - b) % m
  {
    if b == 0 {
      DivModUnique(m, 1, 0, m);
    } else {
      DivModUnique(m - b, 0, m - b, m);
      AddMultiple(a - b, m);
    }
  }

  lemma AddMultiple(x: int, m: nat)
    requires m > 0
    ensures (x + m) % m == x % m
  {
    var q, r := x / m, x % m;
    assert x == m * q + r;
    assert x + m == m * (q + 1) + r;
    EuclidUnique(x + m, q + 1, r, m);
  }

  lemma EuclidUnique(x: int, q: int, r: int, m: nat)
    requires m > 0 && x == m * q + r && 0 <= r < m
    ensures x % m == r && x / m == q
  {
    var q', r' := x / m, x % m;
    assert x == m * q' + r';
    if q < q' {
      MulGap(m, q, q');
    } else if q' < q {
      MulGap(m, q', q);
    }
  }

  lemma MulGap(m: nat, q: int, q': int)
    requires q < q'
    ensures m * q' >= m * q + m
  {
    assert m * q' == m * q + m + m * (q' - q - 1);
    assert m * (q' - q - 1) >= 0;
  }

  /** `a -= b` */
  method SubAssign(a: array<nat>, b: array<nat>)
    requires a.Length == b.Length && AreLimbs(a[..]) && AreLimbs(b[..])
    modifies a
    ensures AreLimbs(a[..]) && Num(a[..]) == (old(Num(a[..])) - old(Num(b[..]))) % P(a.Length)
  {
    hide P, Num;
    NumBound(b[..]);
    SubMod(Num(a[..]), Num(b[..]), P(a.Length));
    var minus := Negate(b);
    AddAssign(a, minus);
  }

  // ---------- multiplication ----------

  ghost predicate InMul32(s: seq<nat>, t: seq<nat>, b: nat, i: nat, carry: nat) {
    && i <= |s| && SameFrom(s, t, i) && AreLimbs(t) && carry < BASE
    && Num(t[..i]) + carry * P(i) == Num(s[..i]) * b
  }

  lemma LimbProduct(x: nat, y: nat, c: nat)
    requires x < BASE && y < BASE && c < BASE
    ensures x * y + c < BASE * BASE && (x * y + c) / BASE < BASE
  {
    MulMonotone(x, BASE - 1, y, BASE - 1);
    QuotientBound(x * y + c, BASE, BASE);
  }

  lemma QuotientBound(n: nat, b: nat, c: nat)
    requires b > 0 && n < b * c
    ensures n / b < c
  {
    var q := n / b;
    assert n == b * q + n % b;
    if q >= c {
      MulMonotone(b, b, c, q);
    }
  }

  lemma Mul32Step(s: seq<nat>, t: seq<nat>, b: nat, i: nat, carry: nat)
    requires InMul32(s, t, b, i, carry) && i < |s| && AreLimbs(s) && b < BASE
    ensures b * t[i] + carry < BASE * BASE
    ensures InMul32(s, t[i := (carry + b * t[i]) % BASE], b, i + 1, (carry + b * t[i]) / BASE)
  {
    hide P, Num;
    LimbProduct(b, t[i], carry);
    var n := carry + b * t[i];
    var t' := t[i := n % BASE];
    Carry(Num(t[..i]), carry, P(i), Num(s[..i]) * b, b * t[i]);
    NumTake(s, i);
    NumTake(t', i);
    assert t'[..i] == t[..i];
    PNext(i);
    Distributes(Num(s[..i]), s[i] * P(i), b);
    assert s[i] * P(i) * b == b * s[i] * P(i);
  }

  /** `a *= b` for a 32-bit `b` */
  method MulAssign32(a: array<nat>, b: nat)
    requires AreLimbs(a[..]) && b < BASE
    modifies a
    ensures AreLimbs(a[..]) && Num(a[..]) == (old(Num(a[..])) * b) % P(a.Length)
  {
    hide P, Num, InMul32;
    ghost var s := a[..];
    var carry: UInt64 := 0;
    Mul32Starts(s, b);
    for i := 0 to a.Length
      invariant InMul32(s, a[..], b, i, carry)
    {
      Mul32Step(s, a[..], b, i, carry);
      var n: UInt64 := carry + b * a[i];
      var limb: nat := n % BASE;
      ghost var was := a[..];
      a[i] := limb;
      assert a[..] == was[i := limb];
      carry := n / BASE;
    }
    Mul32Ends(s, a[..], b, carry);
  }

  lemma Mul32Starts(s: seq<nat>, b: nat)
    requires AreLimbs(s)
    ensures InMul32(s, s, b, 0, 0)
  {
    assert s[..0] == [];
    assert 0 * b == 0;
  }

  lemma Mul32Ends(s: seq<nat>, t: seq<nat>, b: nat, carry: nat)
    requires InMul32(s, t, b, |s|, carry)
    ensures AreLimbs(t) && Num(t) == (Num(s) * b) % P(|s|)
  {
    hide P, Num;
    assert s[..|s|] == s && t[..|s|] == t;
    NumBound(t);
    assert Remains(Num(t), Num(s) * b, P(|s|));
    RemainsIsMod(Num(t), Num(s) * b, P(|s|));
  }

  /** The product of limb `j` with the first `i` limbs of `b` has been added to `a0`. */
  ghost predicate InMulRow(a0: seq<nat>, a: seq<nat>, pj: nat, b: seq<nat>, j: nat, i: nat, carry: nat) {
    && |b| == |a0| && i + j <= |a0| && SameFrom(a0, a, i + j) && AreLimbs(a) && carry < BASE
    && Num(a[..i + j]) + carry * P(i + j) == Num(a0[..i + j]) + pj * Num(b[..i]) * P(j)
  }

  lemma MulLimb(x: nat, y: nat, c: nat, d: nat)
    requires x < BASE && y < BASE && c < BASE && d < BASE
    ensures c + d + x * y < BASE * BASE && (c + d + x * y) / BASE < BASE
  {
    MulMonotone(x, BASE - 1, y, BASE - 1);
    QuotientBound(c + d + x * y, BASE, BASE);
  }

  lemma MulRowStep(a0: seq<nat>, a: seq<nat>, pj: nat, b: seq<nat>, j: nat, i: nat, carry: nat)
    requires InMulRow(a0, a, pj, b, j, i, carry) && i + j < |a0| && pj < BASE && AreLimbs(b)
    ensures carry + a[i + j] + pj * b[i] < BASE * BASE
    ensures var n := carry + a[i + j] + pj * b[i];
      n % BASE >= 0 && InMulRow(a0, a[i + j := n % BASE], pj, b, j, i + 1, n / BASE)
  {
    hide P, Num;
    MulLimb(pj, b[i], carry, a[i + j]);
    var n := carry + a[i + j] + pj * b[i];
    var a' := a[i + j := n % BASE];
    var p := P(i + j);
    Carry(Num(a[..i + j]), carry, p, Num(a0[..i + j]) + pj * Num(b[..i]) * P(j), a[i + j] + pj * b[i]);
    NumTake(a0, i + j);
    NumTake(b, i);
    NumTake(a', i + j);
    assert a'[..i + j] == a[..i + j];
    PNext(i + j);
    PAdd(i, j);
    RowAlgebra(a0[i + j], pj, b[i], Num(b[..i]), P(i), P(j));
    assert i + 1 + j == i + j + 1;
  }

  lemma RowAlgebra(x: nat, pj: nat, bi: nat, nb: nat, pi: nat, pJ: nat)
    ensures (x + pj * bi) * (pi * pJ) + pj * nb * pJ == x * (pi * pJ) + pj * (nb + bi * pi) * pJ
  {
    Distributes(x, pj * bi, pi * pJ);
    assert pj * bi * (pi * pJ) == pj * (bi * pi) * pJ;
    assert pj * (nb + bi * pi) == pj * nb + pj * (bi * pi);
    Distributes(pj * nb, pj * (bi * pi), pJ);
  }

  lemma MulRowStarts(a: seq<nat>, pj: nat, b: seq<nat>, j: nat)
    requires |b| == |a| && j <= |a| && AreLimbs(a)
    ensures InMulRow(a, a, pj, b, j, 0, 0)
  {
    assert b[..0] == [];
    assert pj * 0 * P(j) == 0;
  }

  /** What has been multiplied so far, up to a multiple of the modulus. */
  ghost predicate InMul(s: seq<nat>, b: seq<nat>, a: seq<nat>, j: nat) {
    && |a| == |b| == |s| && j <= |s| && AreLimbs(a)
    && Remains(Num(a), Num(s[..j]) * Num(b), P(|s|))
  }

  lemma MulRowEnds(s: seq<nat>, b: seq<nat>, a0: seq<nat>, a: seq<nat>, j: nat, i: nat, carry: nat)
    requires InMul(s, b, a0, j) && j < |s| && InMulRow(a0, a, s[j], b, j, i, carry) && i + j == |s|
    ensures InMul(s, b, a, j + 1)
  {
    hide P, Num;
    var w, pj := |s|, s[j];
    var q0: nat :| Num(a0) + q0 * P(w) == Num(s[..j]) * Num(b);
    assert a[..w] == a && a0[..w] == a0;
    NumSplit(b, i);
    NumTake(s, j);
    PAdd(i, j);
    var q := q0 + carry + pj * Num(b[i..]);
    EndAlgebra(Num(a), Num(a0), q0, carry, pj, Num(b), Num(b[..i]), Num(b[i..]), P(i), P(j), Num(s[..j]));
    assert Num(a) + q * P(w) == Num(s[..j + 1]) * Num(b);
  }

  lemma EndAlgebra(na: nat, na0: nat, q0: nat, carry: nat, pj: nat, nb: nat, lo: nat, hi: nat, pi: nat, pJ: nat,
      ns: nat)
    requires na + carry * (pi * pJ) == na0 + pj * lo * pJ
    requires na0 + q0 * (pi * pJ) == ns * nb && nb == lo + pi * hi
    ensures na + (q0 + carry + pj * hi) * (pi * pJ) == (ns + pj * pJ) * nb
  {
    var m := pi * pJ;
    Distributes(q0 + carry, pj * hi, m);
    Distributes(q0, carry, m);
    Distributes(ns, pj * pJ, nb);
    assert pj * pJ * nb == pj * pJ * lo + pj * pJ * (pi * hi) by {
      assert nb == lo + pi * hi;
    }
    assert pj * hi * m == pj * pJ * (pi * hi);
    assert pj * lo * pJ == pj * pJ * lo;
  }

  /** Add the product of limb `j` with `b` to `a`. */
  method AddRow(a: array<nat>, pj: nat, b: array<nat>, j: nat, ghost s: seq<nat>)
    requires a != b && a.Length == b.Length == |s| && j < |s| && pj == s[j] < BASE && AreLimbs(b[..])
    requires InMul(s, b[..], a[..], j)
    modifies a
    ensures InMul(s, b[..], a[..], j + 1)
  {
    hide P, Num, InMul, InMulRow, AreLimbs;
    var w := a.Length;
    var carry: UInt64 := 0;
    ghost var a0, t := a[..], b[..];
    InMulLimbs(s, t, a0, j);
    MulRowStarts(a0, pj, t, j);
    var i := 0;
    while i + j < w
      invariant 0 <= i <= w - j && b[..] == t && InMulRow(a0, a[..], pj, t, j, i, carry)
    {
      MulRowStep(a0, a[..], pj, t, j, i, carry);
      assert b[i] == t[i];
      var n: UInt64 := carry + a[i + j] + pj * b[i];
      var limb: nat := n % BASE;
      ghost var was := a[..];
      a[i + j] := limb;
      assert a[..] == was[i + j := limb];
      carry := n / BASE;
      i := i + 1;
    }
    MulRowEnds(s, t, a0, a[..], j, i, carry);
  }

  /** `pn *= b` */
  method MulAssign(pn: array<nat>, b: array<nat>)
    requires pn.Length == b.Length && AreLimbs(pn[..]) && AreLimbs(b[..])
    modifies pn
    ensures AreLimbs(pn[..]) && Num(pn[..]) == ProductMod(old(Num(pn[..])), old(Num(b[..])), P(pn.Length))
  {
    hide P, Num, InMul, ProductMod;
    ghost var s, t := pn[..], b[..];
    var w := pn.Length;
    var a := new nat[w](_ => 0);
    MulStarts(s, t, a[..]);
    for j := 0 to w
      invariant pn[..] == s && b[..] == t && InMul(s, t, a[..], j)
    {
      assert pn[j] == s[j];
      AddRow(a, pn[j], b, j, s);
    }
    MulEnds(s, t, a[..]);
    ghost var product := a[..];
    assert pn != a;
    forall k | 0 <= k < w {
      pn[k] := a[k];
    }
    assert a[..] == product;
    assert pn[..] == product;
  }

  lemma MulStarts(s: seq<nat>, b: seq<nat>, a: seq<nat>)
    requires |a| == |b| == |s| && forall k :: 0 <= k < |a| ==> a[k] == 0
    ensures InMul(s, b, a, 0)
  {
    NumZeros(a);
    assert s[..0] == [];
    assert 0 * Num(b) == 0;
    assert Num(a) + 0 * P(|s|) == Num(s[..0]) * Num(b);
  }

  lemma InMulLimbs(s: seq<nat>, b: seq<nat>, a: seq<nat>, j: nat)
    requires InMul(s, b, a, j)
    ensures |a| == |b| == |s| && AreLimbs(a)
  {
  }

  lemma MulEnds(s: seq<nat>, b: seq<nat>, a: seq<nat>)
    requires InMul(s, b, a, |s|)
    ensures AreLimbs(a) && |a| == |s| && Num(a) == ProductMod(Num(s), Num(b), P(|s|))
  {
    hide P, Num, Remains, ProductMod;
    assert s[..|s|] == s;
    NumBound(a);
    RemainsProduct(Num(a), Num(s), Num(b), P(|s|));
  }

  ghost function ProductMod(x: nat, y: nat, m: nat): nat
    requires m > 0
  {
    x * y % m
  }

  lemma RemainsProduct(r: nat, x: nat, y: nat, m: nat)
    requires Remains(r, x * y, m) && r < m
    ensures r == ProductMod(x, y, m)
  {
    RemainsIsMod(r, x * y, m);
  }

  // ---------- comparison ----------

  lemma CompareAt(s: seq<nat>, t: seq<nat>, i: nat)
    requires |s| == |t| && i < |s| && AreLimbs(s) && s[i + 1..] == t[i + 1..] && s[i] < t[i]
    ensures Num(s) < Num(t)
  {
    hide P, Num;
    NumSplit(s, i + 1);
    NumSplit(t, i + 1);
    NumTake(s, i);
    NumTake(t, i);
    NumBound(s[..i]);
    MulMonotone(s[i] + 1, t[i], P(i), P(i));
    Distributes(s[i], 1, P(i));
  }

  method CompareTo(a: array<nat>, b: array<nat>) returns (r: int)
    requires a.Length == b.Length && AreLimbs(a[..]) && AreLimbs(b[..])
    ensures r == if Num(a[..]) < Num(b[..]) then -1 else if Num(a[..]) > Num(b[..]) then 1 else 0
  {
    hide P, Num;
    var i := a.Length;
    while i > 0
      invariant 0 <= i <= a.Length && a[..][i..] == b[..][i..]
    {
      i := i - 1;
      if a[i] < b[i] {
        CompareAt(a[..], b[..], i);
        return -1;
      }
      if a[i] > b[i] {
        CompareAt(b[..], a[..], i);
        return 1;
      }
    }
    assert a[..][0..] == a[..] && b[..][0..] == b[..];
    return 0;
  }
}
