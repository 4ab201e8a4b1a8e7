/** Shifting big integers, and counting their bits. */
module LimbShifts {
  import opened Numerals
  import opened Limbs

  /** A power of two. */
  function Two(s: nat): (r: nat)
    ensures r > 0
  {
    Pow(2, s)
  }

  lemma TwoAdd(s: nat, t: nat)
    ensures Two(s + t) == Two(s) * Two(t)
  {
    PowAdd(2, s, t);
  }

  lemma TwoNext(s: nat)
    ensures Two(s + 1) == 2 * Two(s) && Two(0) == 1
  {
  }

  lemma Two32()
    ensures Two(32) == BASE
  {
    TwoAdd(16, 16);
    TwoAdd(8, 8);
    assert Two(8) == 256;
  }

  lemma {:induction false} PIsTwo(i: nat)
    ensures P(i) == Two(32 * i)
  {
    PowMul(2, 32, i);
    Two32();
  }

  // ---------- bitwise or ----------

  /** Bitwise or of two numbers. */
  function Or(x: nat, y: nat): nat {
    if x == 0 && y == 0 then 0
    else (if x % 2 == 1 || y % 2 == 1 then 1 else 0) + 2 * Or(x / 2, y / 2)
  }

  lemma {:induction false} OrZero(y: nat)
    ensures Or(0, y) == y
  {
    if y > 0 {
      OrZero(y / 2);
    }
  }

  /** Without common bits, or is plus: `x` is below the power of two that divides `y`. */
  lemma {:induction false} OrDisjoint(x: nat, y: nat, s: nat)
    requires x < Two(s)
    ensures Or(x, y * Two(s)) == x + y * Two(s)
    decreases s
  {
    if s == 0 {
      TwoNext(0);
      OrZero(y);
    } else {
      var m := Two(s - 1);
      TwoNext(s - 1);
      assert x / 2 < m;
      OrDisjoint(x / 2, y, s - 1);
      var z := y * m;
      TimesTwo(y, m);
      assert y * Two(s) == 2 * z;
      assert (2 * z) % 2 == 0 && (2 * z) / 2 == z;
    }
  }

  lemma TimesTwo(y: nat, m: nat)
    ensures y * (2 * m) == 2 * (y * m)
  {
  }

  // ---------- one limb ----------

  /** The low and high part of a limb that is shifted left by `s`. */
  lemma ShiftLimb(x: nat, s: nat)
    requires x < BASE && s <= 32
    ensures (x * Two(s)) / BASE == x / Two(32 - s)
    ensures (x * Two(s)) % BASE == (x % Two(32 - s)) * Two(s)
    ensures (x * Two(s)) / BASE < Two(s)
  {
    hide Two;
    TwoAdd(s, 32 - s);
    Two32();
    ScaleDivision(x, Two(32 - s), Two(s), BASE);
  }

  lemma ScaleDivision(x: nat, m: nat, t: nat, b: nat)
    requires m > 0 && t > 0 && b == t * m && x < b
    ensures (x * t) / b == x / m && (x * t) % b == (x % m) * t && x / m < t
  {
    var q, r := x / m, x % m;
    assert x == m * q + r;
    ShiftAlgebra(x, q, r, m, t);
    MulMonotone(r + 1, m, t, t);
    DivModUnique(x * t, q, r * t, b);
    QuotientBound(x, m, t);
  }

  lemma ShiftAlgebra(x: nat, q: nat, r: nat, m: nat, t: nat)
    requires x == m * q + r
    ensures x * t == q * (t * m) + r * t
    ensures (r + 1) * t == r * t + t && m * t == t * m
  {
    Distributes(m * q, r, t);
    assert m * q * t == q * (t * m);
  }

  /** What is already in a limb and the shifted part do not overlap. */
  lemma OrShifted(h: nat, x: nat, s: nat)
    requires h < Two(s) && x < BASE && s <= 32
    ensures Or(h, (x * Two(s)) % BASE) == h + (x * Two(s)) % BASE < BASE
  {
    ShiftLimb(x, s);
    var r, m := x % Two(32 - s), Two(32 - s);
    OrDisjoint(h, r, s);
    TwoAdd(s, 32 - s);
    Two32();
    MulMonotone(r + 1, m, Two(s), Two(s));
    ShiftAlgebra(r, 0, r, m, Two(s));
    assert m * 0 + r == r;
  }

  // ---------- shifting left ----------

  /** The limbs of `a` before `i` have been shifted: what fits is in `t`. */
  ghost predicate InShiftLeft(a: seq<nat>, t: seq<nat>, k: nat, s: nat, i: nat) {
    && |t| == |a| && i <= |a| && s < 32 && AreLimbs(t)
    && (i + k < |a| ==> t[i + k] < Two(s))
    && (forall m :: i + k < m < |a| ==> t[m] == 0)
    && Remains(Num(t), Num(a[..i]) * Two(32 * k + s), P(|a|))
  }

  /** The parts of limb `i`, put in their places. */
  ghost predicate ShiftedLeft(a: seq<nat>, t: seq<nat>, t': seq<nat>, k: nat, s: nat, i: nat)
    requires i < |a| && s < 32
  {
    && |t'| == |t|
    && (forall m :: 0 <= m < |t| && m != i + k && m != i + k + 1 ==> t'[m] == t[m])
    && (i + k + 1 < |t| ==> t'[i + k + 1] == if s != 0 then Or(t[i + k + 1], a[i] / Two(32 - s)) else t[i + k + 1])
    && (i + k < |t| ==> t'[i + k] == Or(t[i + k], a[i] * Two(s) % BASE))
  }

  /** What limb `i` is worth when it is shifted. */
  lemma ShiftWorth(a: seq<nat>, k: nat, s: nat, i: nat)
    requires i < |a|
    ensures Num(a[..i + 1]) * Two(32 * k + s) == Num(a[..i]) * Two(32 * k + s) + a[i] * Two(s) * P(i + k)
  {
    hide P, Num, Two;
    NumTake(a, i);
    TwoAdd(32 * k, s);
    PIsTwo(k);
    PAdd(i, k);
    WorthAlgebra(Num(a[..i]), a[i], P(i), P(k), Two(s));
  }

  lemma WorthAlgebra(n: nat, x: nat, pi: nat, pk: nat, t: nat)
    ensures (n + x * pi) * (pk * t) == n * (pk * t) + x * t * (pi * pk)
  {
    Distributes(n, x * pi, pk * t);
    assert x * pi * (pk * t) == x * t * (pi * pk);
  }

  /** The two parts of a shifted limb, and what they are worth. */
  lemma LimbParts(x: nat, s: nat, p: nat)
    requires x < BASE && s < 32
    ensures var lo, h := x * Two(s) % BASE, x / Two(32 - s);
      lo * p + h * (BASE * p) == x * Two(s) * p && h < Two(s) && (s == 0 ==> h == 0)
  {
    hide Two;
    ShiftLimb(x, s);
    var y := x * Two(s);
    assert y == BASE * (y / BASE) + y % BASE;
    CarryAlgebra(y % BASE, y / BASE, BASE, p, 0, y);
    TwoNext(0);
  }

  lemma ShiftLeftInside(a: seq<nat>, t: seq<nat>, t': seq<nat>, k: nat, s: nat, i: nat)
    requires InShiftLeft(a, t, k, s, i) && i < |a| && AreLimbs(a) && ShiftedLeft(a, t, t', k, s, i) && i + k + 1 < |a|
    ensures InShiftLeft(a, t', k, s, i + 1)
  {
    hide P, Num, Two, Or;
    var at, x := i + k, a[i];
    var lo, h := x * Two(s) % BASE, x / Two(32 - s);
    LimbParts(x, s, P(at));
    OrShifted(t[at], x, s);
    OrZero(h);
    var u := t[at + 1 := h];
    assert t' == u[at := t[at] + lo];
    NumSet(t, at + 1, h);
    NumSet(u, at, t[at] + lo);
    Distributes(t[at], lo, P(at));
    PNext(at);
    ShiftWorth(a, k, s, i);
    TwoSmall(s);
    var q: nat :| Num(t) + q * P(|a|) == Num(a[..i]) * Two(32 * k + s);
    assert Num(t') + q * P(|a|) == Num(a[..i + 1]) * Two(32 * k + s);
  }

  lemma TwoSmall(s: nat)
    requires s < 32
    ensures Two(s) < BASE
  {
    hide Two;
    Two32();
    PowMonotone(2, s + 1, 32);
    TwoNext(s);
    TwoIsPow(s + 1);
    TwoIsPow(32);
  }

  lemma TwoIsPow(s: nat)
    ensures Two(s) == Pow(2, s)
  {
  }

  lemma ShiftLeftLast(a: seq<nat>, t: seq<nat>, t': seq<nat>, k: nat, s: nat, i: nat)
    requires InShiftLeft(a, t, k, s, i) && i < |a| && AreLimbs(a) && ShiftedLeft(a, t, t', k, s, i) && i + k + 1 == |a|
    ensures InShiftLeft(a, t', k, s, i + 1)
  {
    hide P, Num, Two, Or;
    var at, x := i + k, a[i];
    var lo, h := x * Two(s) % BASE, x / Two(32 - s);
    LimbParts(x, s, P(at));
    OrShifted(t[at], x, s);
    assert t' == t[at := t[at] + lo];
    NumSet(t, at, t[at] + lo);
    Distributes(t[at], lo, P(at));
    PNext(at);
    ShiftWorth(a, k, s, i);
    var q: nat :| Num(t) + q * P(|a|) == Num(a[..i]) * Two(32 * k + s);
    Distributes(q, h, P(|a|));
    assert Num(t') + (q + h) * P(|a|) == Num(a[..i + 1]) * Two(32 * k + s);
  }

  lemma ShiftLeftBeyond(a: seq<nat>, t: seq<nat>, t': seq<nat>, k: nat, s: nat, i: nat)
    requires InShiftLeft(a, t, k, s, i) && i < |a| && ShiftedLeft(a, t, t', k, s, i) && i + k >= |a|
    ensures InShiftLeft(a, t', k, s, i + 1)
  {
    hide P, Num, Two, Or;
    assert t' == t;
    ShiftWorth(a, k, s, i);
    var q: nat :| Num(t) + q * P(|a|) == Num(a[..i]) * Two(32 * k + s);
    var d := a[i] * Two(s) * P(i + k - |a|);
    PAdd(i + k - |a|, |a|);
    MulAssoc(a[i] * Two(s), P(i + k - |a|), P(|a|));
    Distributes(q, d, P(|a|));
    assert Num(t') + (q + d) * P(|a|) == Num(a[..i + 1]) * Two(32 * k + s);
  }

  lemma MulAssoc(x: nat, y: nat, z: nat)
    ensures x * (y * z) == x * y * z
  {
  }

  lemma ShiftLeftStep(a: seq<nat>, t: seq<nat>, t': seq<nat>, k: nat, s: nat, i: nat)
    requires InShiftLeft(a, t, k, s, i) && i < |a| && AreLimbs(a) && ShiftedLeft(a, t, t', k, s, i)
    ensures InShiftLeft(a, t', k, s, i + 1)
  {
    hide InShiftLeft, ShiftedLeft;
    if i + k + 1 < |a| {
      ShiftLeftInside(a, t, t', k, s, i);
    } else if i + k + 1 == |a| {
      ShiftLeftLast(a, t, t', k, s, i);
    } else {
      ShiftLeftBeyond(a, t, t', k, s, i);
    }
  }

  lemma ShiftLeftStarts(a: seq<nat>, t: seq<nat>, k: nat, s: nat)
    requires |t| == |a| && s < 32 && forall m :: 0 <= m < |t| ==> t[m] == 0
    ensures InShiftLeft(a, t, k, s, 0)
  {
    hide Two, P;
    NumZeros(t);
    assert a[..0] == [];
    assert 0 * Two(32 * k + s) == 0;
    assert Num(t) + 0 * P(|a|) == Num(a[..0]) * Two(32 * k + s);
  }

  lemma ShiftLeftEnds(a: seq<nat>, t: seq<nat>, k: nat, s: nat)
    requires InShiftLeft(a, t, k, s, |a|)
    ensures AreLimbs(t) && |t| == |a| && Num(t) == ProductMod(Num(a), Two(32 * k + s), P(|a|))
  {
    hide P, Num, Two, Remains, ProductMod;
    assert a[..|a|] == a;
    NumBound(t);
    RemainsProduct(Num(t), Num(a), Two(32 * k + s), P(|a|));
  }

  /** `pn <<= shift` */
  method ShiftLeft(pn: array<nat>, shift: nat)
    requires AreLimbs(pn[..])
    modifies pn
    ensures AreLimbs(pn[..]) && Num(pn[..]) == ProductMod(old(Num(pn[..])), Two(shift), P(pn.Length))
  {
    hide P, Num, Two, Or, InShiftLeft, ProductMod;
    var w := pn.Length;
    var a := pn[..];
    forall m | 0 <= m < w {
      pn[m] := 0;
    }
    var k, s := shift / 32, shift % 32;
    ShiftLeftStarts(a, pn[..], k, s);
    for i := 0 to w
      invariant InShiftLeft(a, pn[..], k, s, i)
    {
      ghost var t := pn[..];
      if i + k + 1 < w && s != 0 {
        pn[i + k + 1] := Or(pn[i + k + 1], a[i] / Two(32 - s));
      }
      if i + k < w {
        pn[i + k] := Or(pn[i + k], a[i] * Two(s) % BASE);
      }
      ShiftLeftStep(a, t, pn[..], k, s, i);
    }
    ShiftLeftEnds(a, pn[..], k, s);
  }

  // ---------- shifting right ----------

  /** The limbs of `a` before `i` have been shifted. */
  ghost predicate InShiftRight(a: seq<nat>, t: seq<nat>, k: nat, s: nat, i: nat) {
    && |t| == |a| && i <= |a| && s < 32 && AreLimbs(t)
    && (i > k ==> t[i - 1 - k] < Two(32 - s))
    && (forall m :: 0 <= m < |a| && m >= i - k ==> t[m] == 0)
    && Num(t) == Num(a[..i]) / Two(32 * k + s)
  }

  ghost predicate ShiftedRight(a: seq<nat>, t: seq<nat>, t': seq<nat>, k: nat, s: nat, i: nat)
    requires i < |a| <= |t| && s < 32
  {
    && |t'| == |t|
    && (forall m :: 0 <= m < |t| && m != i - k && m != i - k - 1 ==> t'[m] == t[m])
    && (i - k - 1 >= 0 ==>
      t'[i - k - 1] == if s != 0 then Or(t[i - k - 1], a[i] * Two(32 - s) % BASE) else t[i - k - 1])
    && (i - k >= 0 ==> t'[i - k] == Or(t[i - k], a[i] / Two(s)))
  }

  lemma AddQuotient(x: nat, c: nat, d: nat)
    requires d > 0
    ensures (x + c * d) / d == x / d + c
  {
    var q, r := x / d, x % d;
    assert x == d * q + r;
    Distributes(q, c, d);
    assert d * q == q * d;
    DivModUnique(x + c * d, q + c, r, d);
  }

  lemma SmallQuotient(x: nat, d: nat)
    requires x < d
    ensures x / d == 0
  {
    DivModUnique(x, 0, x, d);
  }

  /** Dividing in two steps, when the first drops `x`. */
  lemma StepQuotient(x: nat, y: nat, p: nat, d: nat)
    requires x < p && d > 0
    ensures p * d > 0 && (x + y * p) / (p * d) == y / d
  {
    var q, r := y / d, y % d;
    assert y == d * q + r;
    MulMonotone(r + 1, d, p, p);
    StepAlgebra(y, d, q, r, p);
    DivModUnique(x + y * p, q, r * p + x, p * d);
  }

  lemma StepAlgebra(y: nat, d: nat, q: nat, r: nat, p: nat)
    requires y == d * q + r
    ensures y * p == q * (p * d) + r * p && (r + 1) * p == r * p + p && d * p == p * d
  {
    Distributes(d * q, r, p);
    assert d * q * p == q * (p * d);
  }

  lemma ShiftRightBelow(a: seq<nat>, t: seq<nat>, t': seq<nat>, k: nat, s: nat, i: nat)
    requires InShiftRight(a, t, k, s, i) && i < |a| && AreLimbs(a) && ShiftedRight(a, t, t', k, s, i) && i < k
    ensures InShiftRight(a, t', k, s, i + 1)
  {
    hide P, Num, Two, Or;
    assert t' == t;
    NumBound(a[..i]);
    NumBound(a[..i + 1]);
    PIsTwo(k);
    TwoAdd(32 * k, s);
    PAdd(i + 1, k - i - 1);
    PAdd(i, k - i);
    MulMonotone(P(i + 1), P(i + 1), 1, P(k - i - 1));
    MulMonotone(P(i), P(i), 1, P(k - i));
    MulMonotone(P(k), P(k), 1, Two(s));
    SmallQuotient(Num(a[..i]), Two(32 * k + s));
    SmallQuotient(Num(a[..i + 1]), Two(32 * k + s));
  }

  lemma ShiftRightFirst(a: seq<nat>, t: seq<nat>, t': seq<nat>, k: nat, s: nat, i: nat)
    requires InShiftRight(a, t, k, s, i) && i < |a| && AreLimbs(a) && ShiftedRight(a, t, t', k, s, i) && i == k
    ensures InShiftRight(a, t', k, s, i + 1)
  {
    hide P, Num, Two, Or;
    var h := a[k] / Two(s);
    OrZero(h);
    LimbQuotient(a[k], s);
    assert t' == t[0 := h];
    NumZeros(t);
    NumSet(t, 0, h);
    PNext(0);
    NumTake(a, k);
    NumBound(a[..k]);
    PIsTwo(k);
    TwoAdd(32 * k, s);
    StepQuotient(Num(a[..k]), a[k], P(k), Two(s));
    OneTimes(h);
  }

  lemma OneTimes(h: nat)
    ensures h * 1 == h && 0 * 1 == 0
  {
  }

  lemma LimbQuotient(x: nat, s: nat)
    requires x < BASE && s < 32
    ensures x / Two(s) < Two(32 - s) && x / Two(s) < BASE
  {
    hide Two;
    TwoAdd(s, 32 - s);
    Two32();
    QuotientBound(x, Two(s), Two(32 - s));
    MulMonotone(Two(32 - s), Two(32 - s), 1, Two(s));
    assert Two(32 - s) * Two(s) == Two(s) * Two(32 - s);
  }

  /** How the limb at place `i` divides. */
  lemma LimbDivides(i: nat, k: nat, s: nat)
    requires k < i && s < 32
    ensures P(i) == Two(32 - s) * P(i - k - 1) * Two(32 * k + s)
  {
    hide Two, P;
    PIsTwo(i);
    PIsTwo(i - k - 1);
    TwoAdd(32 - s, 32 * (i - k - 1));
    TwoAdd(32 - s + 32 * (i - k - 1), 32 * k + s);
    assert 32 - s + 32 * (i - k - 1) + (32 * k + s) == 32 * i;
  }

  /** What the limb adds to the quotient. */
  lemma RightWorth(a: seq<nat>, k: nat, s: nat, i: nat)
    requires i < |a| && k < i && s < 32
    ensures Num(a[..i + 1]) / Two(32 * k + s) == Num(a[..i]) / Two(32 * k + s) + a[i] * Two(32 - s) * P(i - k - 1)
  {
    hide P, Num, Two;
    NumTake(a, i);
    LimbDivides(i, k, s);
    var c, d := Two(32 - s) * P(i - k - 1), Two(32 * k + s);
    MulAssoc(a[i], c, d);
    AddQuotient(Num(a[..i]), a[i] * c, d);
    MulAssoc(a[i], Two(32 - s), P(i - k - 1));
  }

  lemma ShiftRightInside(a: seq<nat>, t: seq<nat>, t': seq<nat>, k: nat, s: nat, i: nat)
    requires InShiftRight(a, t, k, s, i) && i < |a| && AreLimbs(a) && ShiftedRight(a, t, t', k, s, i) && i > k && s > 0
    ensures InShiftRight(a, t', k, s, i + 1)
  {
    hide P, Num, Two, Or;
    var at, x := i - k - 1, a[i];
    var lo, h := x * Two(32 - s) % BASE, x / Two(s);
    assert 32 - (32 - s) == s;
    LimbParts(x, 32 - s, P(at));
    LimbQuotient(x, s);
    OrShifted(t[at], x, 32 - s);
    OrZero(h);
    var u := t[at + 1 := h];
    assert t' == u[at := t[at] + lo];
    NumSet(t, at + 1, h);
    NumSet(u, at, t[at] + lo);
    Distributes(t[at], lo, P(at));
    PNext(at);
    RightWorth(a, k, s, i);
  }

  lemma ShiftRightWhole(a: seq<nat>, t: seq<nat>, t': seq<nat>, k: nat, s: nat, i: nat)
    requires InShiftRight(a, t, k, s, i) && i < |a| && AreLimbs(a) && ShiftedRight(a, t, t', k, s, i) && i > k && s == 0
    ensures InShiftRight(a, t', k, s, i + 1)
  {
    hide P, Num, Two, Or;
    var at, x := i - k - 1, a[i];
    TwoNext(0);
    assert x / Two(0) == x;
    OrZero(x);
    Two32();
    assert t' == t[at + 1 := x];
    NumSet(t, at + 1, x);
    PNext(at);
    RightWorth(a, k, s, i);
    MulAssoc(x, BASE, P(at));
  }

  lemma ShiftRightStep(a: seq<nat>, t: seq<nat>, t': seq<nat>, k: nat, s: nat, i: nat)
    requires InShiftRight(a, t, k, s, i) && i < |a| && AreLimbs(a) && |t| == |a| && ShiftedRight(a, t, t', k, s, i)
    ensures InShiftRight(a, t', k, s, i + 1)
  {
    hide InShiftRight, ShiftedRight;
    if i < k {
      ShiftRightBelow(a, t, t', k, s, i);
    } else if i == k {
      ShiftRightFirst(a, t, t', k, s, i);
    } else if s > 0 {
      ShiftRightInside(a, t, t', k, s, i);
    } else {
      ShiftRightWhole(a, t, t', k, s, i);
    }
  }

  lemma ShiftRightStarts(a: seq<nat>, t: seq<nat>, k: nat, s: nat)
    requires |t| == |a| && s < 32 && forall m :: 0 <= m < |t| ==> t[m] == 0
    ensures InShiftRight(a, t, k, s, 0)
  {
    hide Two;
    NumZeros(t);
    assert a[..0] == [];
    SmallQuotient(0, Two(32 * k + s));
  }

  lemma ShiftRightEnds(a: seq<nat>, t: seq<nat>, k: nat, s: nat)
    requires InShiftRight(a, t, k, s, |a|)
    ensures AreLimbs(t) && Num(t) == Num(a) / Two(32 * k + s)
  {
    assert a[..|a|] == a;
  }

  /** `pn >>= shift` */
  method ShiftRight(pn: array<nat>, shift: nat)
    requires AreLimbs(pn[..])
    modifies pn
    ensures AreLimbs(pn[..]) && Num(pn[..]) == old(Num(pn[..])) / Two(shift)
  {
    hide P, Num, Two, Or, InShiftRight;
    var w := pn.Length;
    var a := pn[..];
    forall m | 0 <= m < w {
      pn[m] := 0;
    }
    var k, s := shift / 32, shift % 32;
    ShiftRightStarts(a, pn[..], k, s);
    for i := 0 to w
      invariant InShiftRight(a, pn[..], k, s, i)
    {
      ghost var t := pn[..];
      if i - k - 1 >= 0 && s != 0 {
        pn[i - k - 1] := Or(pn[i - k - 1], a[i] * Two(32 - s) % BASE);
      }
      if i - k >= 0 {
        pn[i - k] := Or(pn[i - k], a[i] / Two(s));
      }
      ShiftRightStep(a, t, pn[..], k, s, i);
    }
    ShiftRightEnds(a, pn[..], k, s);
  }
}
