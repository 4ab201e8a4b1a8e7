/** The field of 32 elements, and polynomials over it with the highest coefficient first. */
module Polynomials {

  // ---------- the field ----------

  /** Elements are polynomials over the field of two, as bits, modulo a^5 + a^3 + 1; addition is exclusive or. */
  function Plus(a: bv5, b: bv5): bv5 {
    a ^ b
  }

  /** Multiplication by `a`, that is {2}: a^5 is a^3 + 1. */
  function Double(a: bv5): bv5 {
    if Has(a, 16) then (a << 1) ^ 9 else a << 1
  }

  predicate Has(a: bv5, bit: bv5) {
    a & bit != 0
  }

  function OrZero(b: bool, a: bv5): bv5 {
    if b then a else 0
  }

  /** The sum of the multiples of `x` that the bits of `y` stand for. */
  function Mul(x: bv5, y: bv5): bv5 {
    var x2 := Double(x);
    var x4 := Double(x2);
    var x8 := Double(x4);
    var x16 := Double(x8);
    OrZero(Has(y, 1), x) ^ OrZero(Has(y, 2), x2) ^ OrZero(Has(y, 4), x4) ^ OrZero(Has(y, 8), x8)
    ^ OrZero(Has(y, 16), x16)
  }

  lemma MulOne(x: bv5)
    ensures Mul(x, 1) == x
  {
  }

  lemma MulZero(x: bv5)
    ensures Mul(x, 0) == 0
  {
  }

  lemma MulCommutes(x: bv5, y: bv5)
    ensures Mul(x, y) == Mul(y, x)
  {
  }

  lemma OrPlus(a: bool, b: bool, x: bv5)
    ensures OrZero(a != b, x) == Plus(OrZero(a, x), OrZero(b, x))
  {
  }

  lemma BitsPlus(y: bv5, z: bv5)
    ensures Has(Plus(y, z), 1) == (Has(y, 1) != Has(z, 1))
    ensures Has(Plus(y, z), 2) == (Has(y, 2) != Has(z, 2))
    ensures Has(Plus(y, z), 4) == (Has(y, 4) != Has(z, 4))
    ensures Has(Plus(y, z), 8) == (Has(y, 8) != Has(z, 8))
    ensures Has(Plus(y, z), 16) == (Has(y, 16) != Has(z, 16))
  {
  }

  function Sum5(a: bv5, b: bv5, c: bv5, d: bv5, e: bv5): bv5 {
    Plus(Plus(Plus(Plus(a, b), c), d), e)
  }

  lemma PlusPlus(p: bv5, q: bv5, p': bv5, q': bv5)
    ensures Plus(Plus(p, p'), Plus(q, q')) == Plus(Plus(p, q), Plus(p', q'))
  {
  }

  lemma Sum5Plus(
    a: bv5, b: bv5, c: bv5, d: bv5, e: bv5, a': bv5, b': bv5, c': bv5, d': bv5, e': bv5)
    ensures Sum5(Plus(a, a'), Plus(b, b'), Plus(c, c'), Plus(d, d'), Plus(e, e')) ==
            Plus(Sum5(a, b, c, d, e), Sum5(a', b', c', d', e'))
  {
    hide Plus;
    PlusPlus(a, b, a', b');
    PlusPlus(Plus(a, b), c, Plus(a', b'), c');
    PlusPlus(Plus(Plus(a, b), c), d, Plus(Plus(a', b'), c'), d');
    PlusPlus(Plus(Plus(Plus(a, b), c), d), e, Plus(Plus(Plus(a', b'), c'), d'), e');
  }

  /** A product, written as a sum over the bits of the second factor. */
  lemma MulIs(x: bv5, y: bv5)
    ensures Mul(x, y) == Sum5(OrZero(Has(y, 1), x), OrZero(Has(y, 2), Double(x)), OrZero(Has(y, 4), Double(Double(x))),
                              OrZero(Has(y, 8), Double(Double(Double(x)))),
                              OrZero(Has(y, 16), Double(Double(Double(Double(x))))))
  {
    hide Double, OrZero, Has;
  }

  lemma MulDistributes(x: bv5, y: bv5, z: bv5)
    ensures Mul(x, Plus(y, z)) == Plus(Mul(x, y), Mul(x, z))
  {
    hide Double, OrZero, Plus, Sum5, Mul, Has;
    MulIs(x, y);
    MulIs(x, z);
    MulIs(x, Plus(y, z));
    BitsPlus(y, z);
    var x2 := Double(x);
    var x4 := Double(x2);
    var x8 := Double(x4);
    var x16 := Double(x8);
    OrPlus(Has(y, 1), Has(z, 1), x);
    OrPlus(Has(y, 2), Has(z, 2), x2);
    OrPlus(Has(y, 4), Has(z, 4), x4);
    OrPlus(Has(y, 8), Has(z, 8), x8);
    OrPlus(Has(y, 16), Has(z, 16), x16);
    Sum5Plus(
      OrZero(Has(y, 1), x), OrZero(Has(y, 2), x2), OrZero(Has(y, 4), x4), OrZero(Has(y, 8), x8),
      OrZero(Has(y, 16), x16), OrZero(Has(z, 1), x), OrZero(Has(z, 2), x2), OrZero(Has(z, 4), x4),
      OrZero(Has(z, 8), x8), OrZero(Has(z, 16), x16));
  }

  lemma MulDouble(x: bv5, y: bv5)
    ensures Mul(x, Double(y)) == Double(Mul(x, y))
  {
  }

  lemma MulOr(x: bv5, b: bool, y: bv5)
    ensures Mul(x, OrZero(b, y)) == OrZero(b, Mul(x, y))
  {
    hide Mul;
    MulZero(x);
  }

  lemma MulSum5(x: bv5, a: bv5, b: bv5, c: bv5, d: bv5, e: bv5)
    ensures Mul(x, Sum5(a, b, c, d, e)) == Sum5(Mul(x, a), Mul(x, b), Mul(x, c), Mul(x, d), Mul(x, e))
  {
    hide Mul, Plus;
    MulDistributes(x, Plus(Plus(Plus(a, b), c), d), e);
    MulDistributes(x, Plus(Plus(a, b), c), d);
    MulDistributes(x, Plus(a, b), c);
    MulDistributes(x, a, b);
  }

  lemma MulAssociates(x: bv5, y: bv5, z: bv5)
    ensures Mul(x, Mul(y, z)) == Mul(Mul(x, y), z)
  {
    hide Double, OrZero, Sum5, Mul, Has;
    var y2 := Double(y);
    var y4 := Double(y2);
    var y8 := Double(y4);
    var y16 := Double(y8);
    MulIs(y, z);
    MulIs(Mul(x, y), z);
    MulSum5(x, OrZero(Has(z, 1), y), OrZero(Has(z, 2), y2), OrZero(Has(z, 4), y4), OrZero(Has(z, 8), y8),
            OrZero(Has(z, 16), y16));
    MulOr(x, Has(z, 1), y);
    MulOr(x, Has(z, 2), y2);
    MulOr(x, Has(z, 4), y4);
    MulOr(x, Has(z, 8), y8);
    MulOr(x, Has(z, 16), y16);
    MulDouble(x, y);
    MulDouble(x, y2);
    MulDouble(x, y4);
    MulDouble(x, y8);
  }

  lemma PlusZero(x: bv5)
    ensures Plus(x, 0) == x && Plus(0, x) == x
  {
  }

  lemma PlusTwice(x: bv5, a: bv5, y: bv5)
    ensures Plus(Plus(x, a), Plus(y, a)) == Plus(x, y)
  {
  }

  lemma PlusMoves(x: bv5, a: bv5, y: bv5)
    ensures Plus(Plus(x, a), y) == Plus(x, Plus(a, y))
  {
  }

  lemma PlusCancels(a: bv5, x: bv5, y: bv5)
    requires Plus(a, x) == Plus(a, y)
    ensures x == y
  {
  }

  // ---------- polynomials ----------

  type Poly = seq<bv5>

  /** The coefficient of x^i. */
  ghost function Coef(p: Poly, i: nat): bv5 {
    if i < |p| then p[|p| - 1 - i] else 0
  }

  /** The coefficient of x^i in the product of `p` and `q`: (p x + a) q is p q x + a q. */
  ghost function ProductCoef(p: Poly, q: Poly, i: nat): bv5 {
    if |p| == 0 then 0
    else
      var n := |p| - 1;
      Plus(if i == 0 then 0 else ProductCoef(p[..n], q, i - 1), Mul(p[n], Coef(q, i)))
  }

  lemma ProductNext(p: Poly, a: bv5, q: Poly, i: nat)
    ensures ProductCoef(p + [a], q, i) ==
            Plus(if i == 0 then 0 else ProductCoef(p, q, i - 1), Mul(a, Coef(q, i)))
  {
    hide Mul, Plus, Coef;
    assert (p + [a])[..|p|] == p;
  }

  lemma CoefNext(p: Poly, a: bv5, i: nat)
    ensures Coef(p + [a], i) == if i == 0 then a else Coef(p, i - 1)
  {
  }

  // ---------- division with remainder ----------

  ghost predicate Balanced(v: Poly, g: Poly, q: Poly, r: Poly, i: nat) {
    Coef(v, i) == Plus(ProductCoef(q, g, i), Coef(r, i))
  }

  /** `v` is `q` times `g` plus `r`, which is of lower degree than `g`. */
  ghost predicate Divides(v: Poly, g: Poly, q: Poly, r: Poly) {
    && |r| == |g| - 1 && |q| == |v|
    && forall i: nat :: Balanced(v, g, q, r, i)
  }

  ghost predicate IsRemainder(v: Poly, g: Poly, r: Poly) {
    exists q: Poly :: Divides(v, g, q, r)
  }

  /** The leading coefficient is one. */
  ghost predicate Monic(g: Poly) {
    |g| > 1 && g[0] == 1
  }

  lemma MonicCoefs(g: Poly, i: nat)
    requires Monic(g) && i >= |g| - 1
    ensures Coef(g, i) == if i == |g| - 1 then 1 else 0
  {
  }

  /** The remainder `r'` with one more coefficient `u`: r x + u, less its leading coefficient times `g`. */
  ghost predicate Continues(r: Poly, u: bv5, g: Poly, r': Poly) {
    && |r| == |r'| == |g| - 1 && Monic(g)
    && forall i: nat :: i < |r| ==> Coef(r', i) == Plus(if i == 0 then u else Coef(r, i - 1), Mul(r[0], Coef(g, i)))
  }

  lemma DividesNext(v: Poly, g: Poly, q: Poly, r: Poly, u: bv5, r': Poly)
    requires Divides(v, g, q, r) && Continues(r, u, g, r')
    ensures Divides(v + [u], g, q + [r[0]], r')
  {
    hide Mul, Plus, Coef, ProductCoef, Balanced;
    forall i: nat
      ensures Balanced(v + [u], g, q + [r[0]], r', i)
    {
      assert i > 0 ==> Balanced(v, g, q, r, i - 1);
      BalancedNext(v, g, q, r, u, r', i);
    }
  }

  lemma BalancedNext(v: Poly, g: Poly, q: Poly, r: Poly, u: bv5, r': Poly, i: nat)
    requires Continues(r, u, g, r') && (i > 0 ==> Balanced(v, g, q, r, i - 1))
    ensures Balanced(v + [u], g, q + [r[0]], r', i)
  {
    hide Mul, Plus, Coef, ProductCoef;
    var a := r[0];
    CoefNext(v, u, i);
    ProductNext(q, a, g, i);
    var x := if i == 0 then 0 else ProductCoef(q, g, i - 1);
    var y := if i == 0 then u else Coef(r, i - 1);
    PlusZero(u);
    if i < |r| {
      PlusTwice(x, Mul(a, Coef(g, i)), y);
    } else {
      MonicCoefs(g, i);
      MulOne(a);
      MulZero(a);
      LeadingCoefs(r, r', i);
      PlusZero(x);
      PlusZero(Plus(x, a));
    }
  }

  lemma LeadingCoefs(r: Poly, r': Poly, i: nat)
    requires |r| == |r'| <= i && |r| > 0
    ensures Coef(r', i) == 0 && Coef(r, i - 1) == if i == |r| then r[0] else 0
  {
  }

  /** The remainder before the last coefficient, if `a` is the last coefficient of the quotient. */
  ghost function Earlier(a: bv5, r: Poly, g: Poly): (s: Poly)
    requires |g| > 1 && |r| == |g| - 1
    ensures |s| == |r|
    ensures forall i: nat :: i < |s| ==> Coef(s, i) == Plus(Mul(a, Coef(g, i + 1)), Coef(r, i + 1))
  {
    var n := |r|;
    seq(n, k requires 0 <= k < n => Plus(Mul(a, Coef(g, n - k)), Coef(r, n - k)))
  }

  lemma DividesBefore(v: Poly, g: Poly, q: Poly, r: Poly)
    requires Divides(v, g, q, r) && Monic(g) && |v| > 0
    ensures Divides(v[..|v| - 1], g, q[..|v| - 1], Earlier(q[|v| - 1], r, g))
    ensures v[|v| - 1] == Plus(Mul(q[|v| - 1], Coef(g, 0)), Coef(r, 0))
  {
    hide Mul, Plus, Coef, ProductCoef, Balanced, Earlier;
    var w, p, u, a := v[..|v| - 1], q[..|v| - 1], v[|v| - 1], q[|v| - 1];
    assert v == w + [u] && q == p + [a];
    forall i: nat
      ensures Balanced(w, g, p, Earlier(a, r, g), i)
    {
      assert Balanced(v, g, q, r, i + 1);
      BalancedBefore(w, u, g, p, a, r, i);
    }
    assert Balanced(v, g, q, r, 0);
    BalancedAtZero(w, u, g, p, a, r);
  }

  lemma BalancedAtZero(w: Poly, u: bv5, g: Poly, p: Poly, a: bv5, r: Poly)
    requires Balanced(w + [u], g, p + [a], r, 0)
    ensures u == Plus(Mul(a, Coef(g, 0)), Coef(r, 0))
  {
    hide Mul, Plus, Coef, ProductCoef;
    CoefNext(w, u, 0);
    ProductNext(p, a, g, 0);
    PlusZero(Mul(a, Coef(g, 0)));
  }

  lemma BalancedBefore(w: Poly, u: bv5, g: Poly, p: Poly, a: bv5, r: Poly, i: nat)
    requires Monic(g) && |r| == |g| - 1 && Balanced(w + [u], g, p + [a], r, i + 1)
    ensures Balanced(w, g, p, Earlier(a, r, g), i)
  {
    hide Mul, Plus, Coef, ProductCoef, Earlier;
    CoefNext(w, u, i + 1);
    ProductNext(p, a, g, i + 1);
    var s := Earlier(a, r, g);
    PlusMoves(ProductCoef(p, g, i), Mul(a, Coef(g, i + 1)), Coef(r, i + 1));
    if i >= |s| {
      MonicCoefs(g, i + 1);
      MulZero(a);
      NoCoef(s, i);
      NoCoef(r, i + 1);
      PlusZero(0);
    }
  }

  lemma NoCoef(p: Poly, i: nat)
    requires i >= |p|
    ensures Coef(p, i) == 0
  {
  }

  /** A polynomial has one quotient and one remainder. */
  lemma {:induction false} RemainderUnique(v: Poly, g: Poly, q: Poly, r: Poly, q': Poly, r': Poly)
    requires Divides(v, g, q, r) && Divides(v, g, q', r') && Monic(g)
    ensures r == r' && q == q'
  {
    hide Mul, Plus, Divides, Earlier, Coef;
    DividesSizes(v, g, q, r);
    DividesSizes(v, g, q', r');
    var n := |v| - 1;
    if |v| == 0 {
      RemainderOfNone(v, g, q, r);
      RemainderOfNone(v, g, q', r');
      SameCoefs(r, r');
    } else {
      DividesBefore(v, g, q, r);
      DividesBefore(v, g, q', r');
      RemainderUnique(v[..n], g, q[..n], Earlier(q[n], r, g), q'[..n], Earlier(q'[n], r', g));
      EarlierSame(q[n], r, q'[n], r', g, v[n]);
      assert q == q[..n] + [q[n]] && q' == q'[..n] + [q'[n]];
    }
  }

  lemma DividesSizes(v: Poly, g: Poly, q: Poly, r: Poly)
    requires Divides(v, g, q, r)
    ensures |r| == |g| - 1 && |q| == |v|
  {
  }

  lemma RemainderOfNone(v: Poly, g: Poly, q: Poly, r: Poly)
    requires Divides(v, g, q, r) && |v| == 0
    ensures q == [] && forall i: nat :: Coef(r, i) == 0
  {
    hide Plus, Coef;
    forall i: nat
      ensures Coef(r, i) == 0
    {
      assert Balanced(v, g, q, r, i);
      NoCoef(v, i);
      PlusZero(Coef(r, i));
    }
  }

  lemma SameCoefs(p: Poly, q: Poly)
    requires |p| == |q| && forall i: nat :: i < |p| ==> Coef(p, i) == Coef(q, i)
    ensures p == q
  {
    forall k | 0 <= k < |p|
      ensures p[k] == q[k]
    {
      assert Coef(p, |p| - 1 - k) == Coef(q, |p| - 1 - k);
    }
  }

  lemma EarlierSame(a: bv5, r: Poly, a': bv5, r': Poly, g: Poly, u: bv5)
    requires Monic(g) && |r| == |r'| == |g| - 1 && Earlier(a, r, g) == Earlier(a', r', g)
    requires u == Plus(Mul(a, Coef(g, 0)), Coef(r, 0)) == Plus(Mul(a', Coef(g, 0)), Coef(r', 0))
    ensures a == a' && r == r'
  {
    hide Mul, Plus, Coef, Earlier;
    var n, s, s' := |r|, Earlier(a, r, g), Earlier(a', r', g);
    MonicCoefs(g, n);
    NoCoef(r, n);
    NoCoef(r', n);
    MulOne(a);
    MulOne(a');
    PlusZero(a);
    PlusZero(a');
    assert Coef(s, n - 1) == a && Coef(s', n - 1) == a';
    forall i: nat | i < n
      ensures Coef(r, i) == Coef(r', i)
    {
      assert i > 0 ==> Coef(s, i - 1) == Coef(s', i - 1);
      PlusCancels(Mul(a, Coef(g, i)), Coef(r, i), Coef(r', i));
    }
    SameCoefs(r, r');
  }
}
