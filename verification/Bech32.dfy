/** The Bech32 and Bech32m encodings (BIP 173 and BIP 350). */
module Bech32 {
  import opened Options
  import opened Polynomials

  datatype Encoding = BECH32 | BECH32M

  /** A decoded string. */
  datatype Decoded = Decoded(encoding: Encoding, hrp: string, data: seq<bv5>)

  // ---------- the checksum ----------

  function EncodingConstant(encoding: Encoding): bv32 {
    if encoding.BECH32? then 1 else 0x2bc830a3
  }

  /** The multiple of the generator that the leading coefficient `c0` takes off. */
  function Reduce(c0: bv32): bv32 {
    (if c0 & 1 != 0 then 0x3b6a57b2 else 0) ^
    (if c0 & 2 != 0 then 0x26508e6d else 0) ^
    (if c0 & 4 != 0 then 0x1ea119fa else 0) ^
    (if c0 & 8 != 0 then 0x3d4233dd else 0) ^
    (if c0 & 16 != 0 then 0x2a1462b3 else 0)
  }

  /** The leading coefficient. */
  function Top(c: bv32): bv32 {
    c >> 25
  }

  /** The other coefficients. */
  function Low(c: bv32): bv32 {
    c & 0x1ffffff
  }

  function Mix(low: bv32, v: bv32, r: bv32): bv32 {
    (low << 5) ^ v ^ r
  }

  /** One more coefficient: multiply by x, add `v`, and reduce by the generator. */
  function Step(c: bv32, v: bv5): bv32 {
    Mix(Low(c), v as bv32, Reduce(Top(c)))
  }

  function PolyMod(v: seq<bv5>): bv32 {
    if |v| == 0 then 1 else Step(PolyMod(v[..|v| - 1]), v[|v| - 1])
  }

  const LIMIT30: bv32 := 0x40000000
  const LIMIT25: bv32 := 0x2000000

  lemma StepBound(c: bv32, v: bv5)
    ensures Step(c, v) < LIMIT30
  {
  }

  function Xor(a: bv32, b: bv32): bv32 {
    a ^ b
  }

  lemma XorParts(c: bv32, x: bv32)
    requires x < LIMIT25
    ensures Top(Xor(c, x)) == Top(c) && Low(Xor(c, x)) == Xor(Low(c), x)
  {
  }

  /** `x`, moved up by one place, and `v` in the lowest. */
  function Append(x: bv32, v: bv5): bv32 {
    (x << 5) ^ (v as bv32)
  }

  lemma MixAffine(low: bv32, x: bv32, v: bv5, r: bv32)
    ensures Mix(Xor(low, x), v as bv32, r) == Xor(Mix(low, 0, r), Append(x, v))
  {
  }

  /** Adding to the input adds to the output, as long as no reduction is involved. */
  lemma StepAffine(c: bv32, x: bv32, v: bv5)
    requires x < LIMIT25
    ensures Step(Xor(c, x), v) == Xor(Step(c, 0), Append(x, v))
  {
    hide Reduce, Mix, Top, Low, Xor, Append;
    XorParts(c, x);
    MixAffine(Low(c), x, v, Reduce(Top(c)));
    Zero();
  }

  lemma Zero()
    ensures (0 as bv5) as bv32 == 0
  {
  }

  lemma ReduceInjective(a: bv32, b: bv32)
    requires a < 32 && b < 32 && Reduce(a) & 31 == Reduce(b) & 31
    ensures a == b
  {
  }

  lemma MixLow(low: bv32, v: bv32, r: bv32, low': bv32, r': bv32)
    requires Mix(low, v, r) == Mix(low', v, r')
    ensures r & 31 == r' & 31
  {
  }

  lemma MixHigh(low: bv32, v: bv32, r: bv32, low': bv32)
    requires low < LIMIT25 && low' < LIMIT25 && Mix(low, v, r) == Mix(low', v, r)
    ensures low == low'
  {
  }

  lemma SameParts(c: bv32, c': bv32)
    requires Low(c) == Low(c') && Top(c) == Top(c')
    ensures c == c'
  {
  }

  lemma PartBounds(c: bv32)
    ensures Low(c) < LIMIT25 && (c < LIMIT30 ==> Top(c) < 32)
  {
  }

  /** Different remainders stay different whatever is appended. */
  lemma StepInjective(c: bv32, c': bv32, v: bv5)
    requires c < LIMIT30 && c' < LIMIT30 && Step(c, v) == Step(c', v)
    ensures c == c'
  {
    hide Reduce, Mix, Top, Low;
    MixLow(Low(c), v as bv32, Reduce(Top(c)), Low(c'), Reduce(Top(c')));
    PartBounds(c);
    PartBounds(c');
    ReduceInjective(Top(c), Top(c'));
    MixHigh(Low(c), v as bv32, Reduce(Top(c)), Low(c'));
    SameParts(c, c');
  }

  lemma StepDistinguishes(c: bv32, v: bv5, v': bv5)
    requires Step(c, v) == Step(c, v')
    ensures v == v'
  {
    hide Reduce;
  }

  // ---------- six symbols that force the remainder ----------

  /** Symbols packed into one number, the first in the highest bits. */
  ghost function Pack(d: seq<bv5>): bv32 {
    if |d| == 0 then 0 else Append(Pack(d[..|d| - 1]), d[|d| - 1])
  }

  ghost function Limit(k: nat): bv32 {
    if k == 0 then 1 else if k == 1 then 0x20 else if k == 2 then 0x400 else if k == 3 then 0x8000
    else if k == 4 then 0x100000 else if k == 5 then 0x2000000 else 0x40000000
  }

  lemma AppendBound(x: bv32, v: bv5, k: nat)
    requires k <= 5 && x < Limit(k)
    ensures Append(x, v) < Limit(k + 1)
  {
  }

  lemma {:induction false} PackBound(d: seq<bv5>)
    requires |d| <= 6
    ensures Pack(d) < Limit(|d|)
  {
    hide Append, Limit;
    if |d| > 0 {
      PackBound(d[..|d| - 1]);
      AppendBound(Pack(d[..|d| - 1]), d[|d| - 1], |d| - 1);
    } else {
      LimitFacts(0);
    }
  }

  lemma LimitFacts(k: nat)
    ensures Limit(0) == 1 && (k <= 5 ==> Limit(k) <= LIMIT25)
  {
  }

  function Zeros(n: nat): seq<bv5> {
    seq(n, _ => 0)
  }

  lemma {:induction false} PolyModAffine(e: seq<bv5>, d: seq<bv5>)
    requires |d| <= 6
    ensures PolyMod(e + d) == Xor(PolyMod(e + Zeros(|d|)), Pack(d))
  {
    hide Step, Xor, Append, Limit;
    var n := |d|;
    if n == 0 {
      assert d == [] && Zeros(0) == [];
      XorZero(PolyMod(e + d));
    } else {
      var u, v := d[..n - 1], d[n - 1];
      PolyModAffine(e, u);
      PackBound(u);
      LimitFacts(n - 1);
      assert (e + d)[..|e + d| - 1] == e + u;
      assert (e + Zeros(n))[..|e + Zeros(n)| - 1] == e + Zeros(n - 1);
      StepAffine(PolyMod(e + Zeros(n - 1)), Pack(u), v);
    }
  }

  lemma XorZero(c: bv32)
    ensures Xor(c, 0) == c
  {
  }

  lemma {:induction false} PolyModBound(v: seq<bv5>)
    ensures PolyMod(v) < LIMIT30
  {
    hide Step;
    if |v| > 0 {
      StepBound(PolyMod(v[..|v| - 1]), v[|v| - 1]);
    }
  }

  /** The lowest symbol, and the rest. */
  function Last(x: bv32): bv5 {
    (x & 31) as bv5
  }

  function Rest(x: bv32): bv32 {
    x >> 5
  }

  /** The lowest `n` 5-bit groups of a number, the highest first. */
  function Groups(m: bv32, n: nat): (d: seq<bv5>)
    ensures |d| == n
    decreases n
  {
    if n == 0 then [] else Groups(Rest(m), n - 1) + [Last(m)]
  }

  lemma AppendLast(x: bv32)
    ensures Append(Rest(x), Last(x)) == x
  {
  }

  lemma LastOfAppend(x: bv32, v: bv5)
    requires x < LIMIT25
    ensures Last(Append(x, v)) == v && Rest(Append(x, v)) == x
  {
  }

  lemma PackNext(d: seq<bv5>, v: bv5)
    ensures Pack(d + [v]) == Append(Pack(d), v)
  {
    assert (d + [v])[..|d|] == d;
  }

  lemma RestBound(m: bv32, n: nat)
    requires 0 < n <= 6 && m < Limit(n)
    ensures Rest(m) < Limit(n - 1)
  {
  }

  lemma {:induction false} PackGroups(m: bv32, n: nat)
    requires n <= 6 && m < Limit(n)
    ensures Pack(Groups(m, n)) == m
    decreases n
  {
    hide Append, Last, Rest, Limit;
    if n > 0 {
      RestBound(m, n);
      PackGroups(Rest(m), n - 1);
      PackNext(Groups(Rest(m), n - 1), Last(m));
      AppendLast(m);
    } else {
      LimitFacts(0);
      BelowOne(m);
    }
  }

  lemma BelowOne(m: bv32)
    requires m < 1
    ensures m == 0
  {
  }

  lemma PackSplit(d: seq<bv5>)
    requires 0 < |d| <= 6
    ensures Last(Pack(d)) == d[|d| - 1] && Rest(Pack(d)) == Pack(d[..|d| - 1])
  {
    hide Append, Last, Rest, Limit;
    PackBound(d[..|d| - 1]);
    LimitFacts(|d| - 1);
    LastOfAppend(Pack(d[..|d| - 1]), d[|d| - 1]);
  }

  lemma {:induction false} GroupsOfPack(d: seq<bv5>)
    requires |d| <= 6
    ensures Groups(Pack(d), |d|) == d
  {
    hide Append, Last, Rest;
    if |d| > 0 {
      PackSplit(d);
      GroupsOfPack(d[..|d| - 1]);
      assert d == d[..|d| - 1] + [d[|d| - 1]];
    }
  }

  lemma LimitSix()
    ensures Limit(6) == LIMIT30
  {
  }

  lemma XorCancel(p: bv32, k: bv32, m: bv32)
    ensures Xor(p, Xor(p, k)) == k
    ensures Xor(p, m) == k ==> m == Xor(p, k)
    ensures p < LIMIT30 && k < LIMIT30 ==> Xor(p, k) < LIMIT30
  {
    hide Xor;
    XorTwice(p, k);
    XorTwice(p, m);
    XorBound(p, k);
  }

  lemma XorTwice(p: bv32, k: bv32)
    ensures Xor(p, Xor(p, k)) == k
  {
  }

  lemma XorBound(p: bv32, k: bv32)
    ensures p < LIMIT30 && k < LIMIT30 ==> Xor(p, k) < LIMIT30
  {
  }

  /** What to append to `e` to make the remainder `k`. */
  function ChecksumFor(e: seq<bv5>, k: bv32): (d: seq<bv5>)
    ensures |d| == 6
  {
    Groups(Xor(PolyMod(e + Zeros(6)), k), 6)
  }

  /** The checksum makes the remainder what it should be, and nothing else does. */
  lemma ChecksumExact(e: seq<bv5>, k: bv32, d: seq<bv5>)
    requires |d| == 6 && k < LIMIT30
    ensures PolyMod(e + d) == k <==> d == ChecksumFor(e, k)
  {
    hide Xor, Groups, Step, Limit;
    var p := PolyMod(e + Zeros(6));
    PolyModBound(e + Zeros(6));
    PolyModAffine(e, d);
    XorCancel(p, k, Pack(d));
    LimitSix();
    PackGroups(Xor(p, k), 6);
    GroupsOfPack(d);
  }

  /** Changing one symbol always changes the remainder. */
  lemma {:induction false} SingleError(v: seq<bv5>, w: seq<bv5>, i: nat)
    requires |v| == |w| && i < |v| && v[i] != w[i] && (forall k :: 0 <= k < |v| && k != i ==> v[k] == w[k])
    ensures PolyMod(v) != PolyMod(w)
  {
    hide Step;
    var n := |v| - 1;
    PolyModBound(v[..n]);
    PolyModBound(w[..n]);
    if i == n {
      assert v[..n] == w[..n];
      if PolyMod(v) == PolyMod(w) {
        StepDistinguishes(PolyMod(v[..n]), v[n], w[n]);
      }
    } else {
      SingleError(v[..n], w[..n], i);
      if PolyMod(v) == PolyMod(w) {
        StepInjective(PolyMod(v[..n]), PolyMod(w[..n]), v[n]);
      }
    }
  }

  // ---------- the remainder of a polynomial ----------

  /** x^6 + {29}x^5 + {22}x^4 + {20}x^3 + {21}x^2 + {29}x + {18} */
  const GENERATOR: Poly := [1, 29, 22, 20, 21, 29, 18]

  /** The 5-bit group at place `i`, from the lowest. */
  function Group5(m: bv32, i: nat): bv5
    requires i < 6
  {
    if i == 0 then Last(m)
    else if i == 1 then Last(m >> 5)
    else if i == 2 then Last(m >> 10)
    else if i == 3 then Last(m >> 15)
    else if i == 4 then Last(m >> 20)
    else Last(m >> 25)
  }

  lemma GroupCoef(m: bv32, i: nat)
    requires i < 6
    ensures Coef(Groups(m, 6), i) == Group5(m, i)
  {
    hide Groups, Last, Rest, RestN;
    GroupsAt(m, 6, 5 - i);
    Unfold(m);
    RestShifts(m);
  }

  lemma RestShifts(m: bv32)
    ensures Rest(m) == m >> 5 && Rest(Rest(m)) == m >> 10 && Rest(Rest(Rest(m))) == m >> 15
    ensures Rest(Rest(Rest(Rest(m)))) == m >> 20 && Rest(Rest(Rest(Rest(Rest(m))))) == m >> 25
  {
  }

  lemma GroupRest(m: bv32, i: nat)
    requires i < 6
    ensures Group5(m, i) == Last(RestN(m, i))
  {
    hide Last, Rest, RestN;
    Unfold(m);
    RestShifts(m);
  }

  lemma RestXor(a: bv32, b: bv32)
    ensures Rest(Xor(a, b)) == Xor(Rest(a), Rest(b))
  {
  }

  lemma LastXor(a: bv32, b: bv32)
    ensures Last(Xor(a, b)) == Plus(Last(a), Last(b))
  {
  }

  lemma {:induction false} RestsXor(a: bv32, b: bv32, i: nat)
    ensures RestN(Xor(a, b), i) == Xor(RestN(a, i), RestN(b, i))
    decreases i
  {
    hide Rest, Xor;
    if i > 0 {
      RestXor(a, b);
      RestsXor(Rest(a), Rest(b), i - 1);
    }
  }

  lemma GroupOfXor(a: bv32, b: bv32, i: nat)
    requires i < 6
    ensures Group5(Xor(a, b), i) == Plus(Group5(a, i), Group5(b, i))
  {
    hide Group5, Xor, Plus, Last, Rest, RestN;
    GroupRest(a, i);
    GroupRest(b, i);
    GroupRest(Xor(a, b), i);
    RestsXor(a, b, i);
    LastXor(RestN(a, i), RestN(b, i));
  }

  /** The groups of a number that is moved up by one place. */
  lemma GroupOfAppend(c: bv32, u: bv5, i: nat)
    requires i < 6
    ensures Group5(Append(Low(c), u), i) == if i == 0 then u else Group5(c, i - 1)
  {
    hide Group5, Append, Low, Last, Rest;
    PartBounds(c);
    LastOfAppend(Low(c), u);
    GroupRest(Append(Low(c), u), i);
    if i > 0 {
      GroupRest(Low(c), i - 1);
      LowGroupAt(c, i - 1);
    }
  }

  lemma LowGroupAt(c: bv32, i: nat)
    requires i < 5
    ensures Group5(Low(c), i) == Group5(c, i)
  {
    hide Low, Last;
    LowestGroup(c);
    LowGroups(c);
  }

  lemma LowestGroup(c: bv32)
    ensures Last(Low(c)) == Last(c)
  {
  }

  lemma LowGroups(c: bv32)
    ensures Last(Low(c) >> 5) == Last(c >> 5) && Last(Low(c) >> 10) == Last(c >> 10)
    ensures Last(Low(c) >> 15) == Last(c >> 15) && Last(Low(c) >> 20) == Last(c >> 20)
  {
  }

  lemma StepIs(c: bv32, u: bv5)
    ensures Step(c, u) == Xor(Append(Low(c), u), Reduce(Top(c)))
  {
    hide Reduce;
  }

  lemma TopGroup(c: bv32)
    requires c < LIMIT30
    ensures Top(c) < 32 && Top(c) as bv5 == Group5(c, 5)
  {
  }

  /** The constants are the multiples of the generator without its leading term. */
  lemma ReduceIs(t: bv32, i: nat)
    requires t < 32 && i < 6
    ensures Group5(Reduce(t), i) == Mul(t as bv5, Coef(GENERATOR, i))
  {
    assert Coef(GENERATOR, 0) == 18 && Coef(GENERATOR, 1) == 29 && Coef(GENERATOR, 2) == 21;
    assert Coef(GENERATOR, 3) == 20 && Coef(GENERATOR, 4) == 22 && Coef(GENERATOR, 5) == 29;
    hide Coef, Mul, Group5, Reduce;
    if i == 0 {
      ReduceIs0(t);
    } else if i == 1 {
      ReduceIs1(t);
    } else if i == 2 {
      ReduceIs2(t);
    } else if i == 3 {
      ReduceIs3(t);
    } else if i == 4 {
      ReduceIs4(t);
    } else {
      ReduceIs5(t);
    }
  }

  lemma ReduceIs0(t: bv32)
    requires t < 32
    ensures Group5(Reduce(t), 0) == Mul(t as bv5, 18)
  {
  }

  lemma ReduceIs1(t: bv32)
    requires t < 32
    ensures Group5(Reduce(t), 1) == Mul(t as bv5, 29)
  {
  }

  lemma ReduceIs2(t: bv32)
    requires t < 32
    ensures Group5(Reduce(t), 2) == Mul(t as bv5, 21)
  {
  }

  lemma ReduceIs3(t: bv32)
    requires t < 32
    ensures Group5(Reduce(t), 3) == Mul(t as bv5, 20)
  {
  }

  lemma ReduceIs4(t: bv32)
    requires t < 32
    ensures Group5(Reduce(t), 4) == Mul(t as bv5, 22)
  {
  }

  lemma ReduceIs5(t: bv32)
    requires t < 32
    ensures Group5(Reduce(t), 5) == Mul(t as bv5, 29)
  {
  }

  lemma StepContinues(c: bv32, u: bv5)
    requires c < LIMIT30
    ensures Continues(Groups(c, 6), u, GENERATOR, Groups(Step(c, u), 6))
  {
    hide Step, Reduce, Xor, Append, Low, Top, Mul, Plus, Coef, Group5;
    var r, r' := Groups(c, 6), Groups(Step(c, u), 6);
    TopGroup(c);
    GroupCoef(c, 5);
    FirstCoef(r);
    StepIs(c, u);
    forall i: nat | i < 6
      ensures Coef(r', i) == Plus(if i == 0 then u else Coef(r, i - 1), Mul(r[0], Coef(GENERATOR, i)))
    {
      GroupCoef(Step(c, u), i);
      GroupOfXor(Append(Low(c), u), Reduce(Top(c)), i);
      GroupOfAppend(c, u, i);
      ReduceIs(Top(c), i);
      if i > 0 {
        GroupCoef(c, i - 1);
      }
    }
  }

  lemma FirstCoef(r: Poly)
    requires |r| == 6
    ensures Coef(r, 5) == r[0]
  {
  }

  lemma RemainderStarts()
    ensures Divides([1], GENERATOR, [0], Groups(1, 6))
  {
    hide Mul, Plus, Coef;
    forall i: nat
      ensures Balanced([1], GENERATOR, [0], Groups(1, 6), i)
    {
      StartsAt(i);
    }
  }

  lemma StartsAt(i: nat)
    ensures Balanced([1], GENERATOR, [0], Groups(1, 6), i)
  {
    hide Mul, Plus, Coef, Groups, ProductCoef;
    var one: Poly := [1];
    var none: Poly := [0];
    var r := Groups(1, 6);
    assert [] + none == none;
    ProductNext([], 0, GENERATOR, i);
    MulCommutes(0, Coef(GENERATOR, i));
    MulZero(Coef(GENERATOR, i));
    PlusZero(0);
    PlusZero(Coef(r, i));
    assert [] + one == one;
    CoefNext([], 1, i);
    if i < 6 {
      GroupCoef(1, i);
      GroupsOfOne(i);
    } else {
      NoCoef(r, i);
    }
    if i > 0 {
      NoCoef([], i - 1);
      NoProduct(GENERATOR, i - 1);
    }
  }

  lemma NoProduct(g: Poly, i: nat)
    ensures ProductCoef([], g, i) == 0
  {
  }

  lemma GroupsOfOne(i: nat)
    requires i < 6
    ensures Group5(1, i) == if i == 0 then 1 else 0
  {
  }

  /** The groups of the result are the remainder, modulo the generator, of the polynomial that has the input as its
      coefficients after a leading one. */
  lemma {:induction false} PolyModDivides(v: seq<bv5>) returns (q: Poly)
    ensures Divides([1] + v, GENERATOR, q, Groups(PolyMod(v), 6))
  {
    hide Step, Divides, Continues, Groups;
    var n := |v| - 1;
    if |v| == 0 {
      q := [0];
      RemainderStarts();
      assert [1] + v == [1];
    } else {
      var q' := PolyModDivides(v[..n]);
      var c := PolyMod(v[..n]);
      PolyModBound(v[..n]);
      StepContinues(c, v[n]);
      DividesNext([1] + v[..n], GENERATOR, q', Groups(c, 6), v[n], Groups(PolyMod(v), 6));
      q := q' + [Groups(c, 6)[0]];
      assert [1] + v[..n] + [v[n]] == [1] + v;
    }
  }

  lemma PolyModIsRemainder(v: seq<bv5>, r: Poly)
    requires |r| == 6
    ensures IsRemainder([1] + v, GENERATOR, r) <==> r == Groups(PolyMod(v), 6)
  {
    hide Divides, PolyMod, Groups;
    var q := PolyModDivides(v);
    if IsRemainder([1] + v, GENERATOR, r) {
      var q' :| Divides([1] + v, GENERATOR, q', r);
      RemainderUnique([1] + v, GENERATOR, q, Groups(PolyMod(v), 6), q', r);
    }
  }

  /** The remainder of a list of coefficients. */
  method ComputePolyMod(v: seq<bv5>) returns (c: bv32)
    ensures c == PolyMod(v) && c < LIMIT30 && IsRemainder([1] + v, GENERATOR, Groups(c, 6))
  {
    hide Step, IsRemainder;
    PolyModBound(v);
    PolyModIsRemainder(v, Groups(PolyMod(v), 6));
    c := 1;
    assert v[..0] == [];
    for i := 0 to |v|
      invariant c == PolyMod(v[..i])
    {
      assert v[..i + 1][..i] == v[..i];
      c := Step(c, v[i]);
    }
    assert v[..|v|] == v;
  }

  // ---------- characters ----------

  /** The character set is "qpzry9x8gf2tvdw0s3jn54khce6mua7l". */
  function CharOf(v: bv5): char {
    if v < 16 then
      if v < 8 then
        if v < 4 then
          if v == 0 then 'q' else if v == 1 then 'p' else if v == 2 then 'z' else 'r'
        else
          if v == 4 then 'y' else if v == 5 then '9' else if v == 6 then 'x' else '8'
      else
        if v < 12 then
          if v == 8 then 'g' else if v == 9 then 'f' else if v == 10 then '2' else 't'
        else
          if v == 12 then 'v' else if v == 13 then 'd' else if v == 14 then 'w' else '0'
    else
      if v < 24 then
        if v < 20 then
          if v == 16 then 's' else if v == 17 then '3' else if v == 18 then 'j' else 'n'
        else
          if v == 20 then '5' else if v == 21 then '4' else if v == 22 then 'k' else 'h'
      else
        if v < 28 then
          if v == 24 then 'c' else if v == 25 then 'e' else if v == 26 then '6' else 'm'
        else
          if v == 28 then 'u' else if v == 29 then 'a' else if v == 30 then '7' else 'l'
  }

  function LowerCase(c: char): char {
    if 'A' <= c <= 'Z' then (c as int - 'A' as int + 'a' as int) as char else c
  }

  /** The symbol that a lower-case character stands for. */
  function SymbolOf(c: char): Option<bv5> {
    if c == 'q' then Some(0)
    else if c == 'p' then Some(1)
    else if c == 'z' then Some(2)
    else if c == 'r' then Some(3)
    else if c == 'y' then Some(4)
    else if c == '9' then Some(5)
    else if c == 'x' then Some(6)
    else if c == '8' then Some(7)
    else if c == 'g' then Some(8)
    else if c == 'f' then Some(9)
    else if c == '2' then Some(10)
    else if c == 't' then Some(11)
    else if c == 'v' then Some(12)
    else if c == 'd' then Some(13)
    else if c == 'w' then Some(14)
    else if c == '0' then Some(15)
    else if c == 's' then Some(16)
    else if c == '3' then Some(17)
    else if c == 'j' then Some(18)
    else if c == 'n' then Some(19)
    else if c == '5' then Some(20)
    else if c == '4' then Some(21)
    else if c == 'k' then Some(22)
    else if c == 'h' then Some(23)
    else if c == 'c' then Some(24)
    else if c == 'e' then Some(25)
    else if c == '6' then Some(26)
    else if c == 'm' then Some(27)
    else if c == 'u' then Some(28)
    else if c == 'a' then Some(29)
    else if c == '7' then Some(30)
    else if c == 'l' then Some(31)
    else None
  }

  lemma SymbolOfChar(v: bv5)
    ensures SymbolOf(CharOf(v)) == Some(v)
  {
  }

  lemma CharOfSymbol(c: char)
    requires SymbolOf(c).Some?
    ensures CharOf(SymbolOf(c).value) == c
  {
  }

  lemma CharsetChar(v: bv5)
    ensures CharOf(v) != '1' && '!' <= CharOf(v) <= '~' && !('A' <= CharOf(v) <= 'Z')
  {
  }

  // ---------- what encodes what ----------

  /** The characters of symbols. */
  function Text(v: seq<bv5>): (s: string)
    ensures |s| == |v| && forall k :: 0 <= k < |v| ==> s[k] == CharOf(v[k])
  {
    seq(|v|, k requires 0 <= k < |v| => CharOf(v[k]))
  }

  ghost predicate Bytes(s: string) {
    forall k :: 0 <= k < |s| ==> s[k] as int < 256
  }

  /** The human-readable part as coefficients: the high bits of all characters, a zero, and the low bits. */
  ghost function Expand(hrp: string): seq<bv5>
    requires Bytes(hrp)
  {
    seq(|hrp|, k requires 0 <= k < |hrp| => (hrp[k] as int / 32) as bv5)
    + [0]
    + seq(|hrp|, k requires 0 <= k < |hrp| => (hrp[k] as int % 32) as bv5)
  }

  ghost function Checksum(encoding: Encoding, hrp: string, values: seq<bv5>): (d: seq<bv5>)
    requires Bytes(hrp)
    ensures |d| == 6
  {
    ChecksumFor(Expand(hrp) + values, EncodingConstant(encoding))
  }

  /** The encoding of some symbols: the human-readable part, a separator, and the characters of the symbols
      and of the checksum. */
  ghost function Encoded(encoding: Encoding, hrp: string, values: seq<bv5>): string
    requires Bytes(hrp)
  {
    hrp + ['1'] + Text(values + Checksum(encoding, hrp, values))
  }

  ghost predicate IsUpper(c: char) {
    'A' <= c <= 'Z'
  }

  ghost predicate IsLower(c: char) {
    'a' <= c <= 'z'
  }

  ghost predicate HasUpper(s: string) {
    exists k :: 0 <= k < |s| && IsUpper(s[k])
  }

  ghost predicate HasLower(s: string) {
    exists k :: 0 <= k < |s| && IsLower(s[k])
  }

  ghost predicate Printable(s: string) {
    forall k :: 0 <= k < |s| ==> '!' <= s[k] <= '~'
  }

  /** Only printable characters, and not both upper and lower case. */
  ghost predicate Proper(s: string) {
    Printable(s) && !(HasUpper(s) && HasLower(s))
  }

  ghost function Lowered(s: string): (r: string)
    ensures |r| == |s| && forall k :: 0 <= k < |s| ==> r[k] == LowerCase(s[k])
  {
    seq(|s|, k requires 0 <= k < |s| => LowerCase(s[k]))
  }

  /** `str`, in whichever case, encodes `x`. */
  ghost predicate Means(str: string, limit: nat, x: Decoded) {
    && Proper(str) && |str| <= limit && |x.hrp| > 0
    && Bytes(x.hrp) && Lowered(str) == Encoded(x.encoding, x.hrp, x.data)
  }

  // ---------- the parts of a string ----------

  lemma LowerKeeps(c: char)
    requires '!' <= c <= '~'
    ensures LowerCase(c) == '1' <==> c == '1'
    ensures '!' <= LowerCase(c) <= '~'
  {
  }

  /** `pos` is the place of the last separator. */
  ghost predicate LastSeparator(str: string, pos: nat) {
    pos < |str| && str[pos] == '1' && forall k :: pos < k < |str| ==> str[k] != '1'
  }

  /** `all` are the symbols after the separator. */
  ghost predicate SymbolsFrom(str: string, pos: nat, all: seq<bv5>) {
    pos + 1 + |all| == |str| && forall k :: 0 <= k < |all| ==> SymbolOf(LowerCase(str[pos + 1 + k])) == Some(all[k])
  }

  lemma MeansParts(str: string, limit: nat, x: Decoded)
    requires Means(str, limit, x)
    ensures LastSeparator(str, |x.hrp|) && |x.hrp| + 6 < |str|
    ensures SymbolsFrom(str, |x.hrp|, x.data + Checksum(x.encoding, x.hrp, x.data))
    ensures x.hrp == Lowered(str[..|x.hrp|])
  {
    hide CharOf, SymbolOf, LowerCase, Checksum, Encoded, Lowered;
    var n, all := |x.hrp|, x.data + Checksum(x.encoding, x.hrp, x.data);
    EncodedParts(x);
    SeparatorAt(str, x);
    forall k | 0 <= k < |all|
      ensures SymbolOf(LowerCase(str[n + 1 + k])) == Some(all[k])
    {
      SymbolAt(str, x, all, k);
    }
    forall k | n < k < |str|
      ensures str[k] != '1'
    {
      SymbolAt(str, x, all, k - n - 1);
    }
    assert x.hrp == Lowered(str)[..n] == Lowered(str[..n]);
  }

  lemma EncodedParts(x: Decoded)
    requires Bytes(x.hrp)
    ensures var E, n, all := Encoded(x.encoding, x.hrp, x.data), |x.hrp|, x.data + Checksum(x.encoding, x.hrp, x.data);
      |E| == n + 1 + |all| && E[n] == '1' && E[..n] == x.hrp && E[n + 1..] == Text(all)
  {
    hide Checksum;
  }

  lemma SeparatorAt(str: string, x: Decoded)
    requires Printable(str) && Bytes(x.hrp) && Lowered(str) == Encoded(x.encoding, x.hrp, x.data)
    ensures |x.hrp| < |str| && str[|x.hrp|] == '1'
  {
    hide CharOf, LowerCase, Checksum, Encoded;
    EncodedParts(x);
    assert Lowered(str)[|x.hrp|] == LowerCase(str[|x.hrp|]);
    LowerKeeps(str[|x.hrp|]);
  }

  lemma SymbolAt(str: string, x: Decoded, all: seq<bv5>, k: nat)
    requires Printable(str) && Bytes(x.hrp) && Lowered(str) == Encoded(x.encoding, x.hrp, x.data)
    requires all == x.data + Checksum(x.encoding, x.hrp, x.data) && k < |all|
    ensures |x.hrp| + 1 + k < |str|
    ensures str[|x.hrp| + 1 + k] != '1' && SymbolOf(LowerCase(str[|x.hrp| + 1 + k])) == Some(all[k])
  {
    hide CharOf, SymbolOf, LowerCase, Checksum, Encoded;
    EncodedParts(x);
    var p := |x.hrp| + 1 + k;
    assert Lowered(str)[p] == Lowered(str)[|x.hrp| + 1..][k] == CharOf(all[k]);
    assert Lowered(str)[p] == LowerCase(str[p]);
    CharsetChar(all[k]);
    LowerKeeps(str[p]);
    SymbolOfChar(all[k]);
  }

  lemma SameSeparator(str: string, p: nat, q: nat)
    requires LastSeparator(str, p) && LastSeparator(str, q)
    ensures p == q
  {
  }

  lemma SameSymbols(str: string, pos: nat, v: seq<bv5>, w: seq<bv5>)
    requires SymbolsFrom(str, pos, v) && SymbolsFrom(str, pos, w)
    ensures v == w
  {
  }

  lemma LoweredBytes(str: string)
    requires Printable(str)
    ensures Bytes(Lowered(str)) && Printable(Lowered(str))
  {
    hide LowerCase;
    forall k | 0 <= k < |str|
      ensures '!' <= Lowered(str)[k] <= '~'
    {
      LowerKeeps(str[k]);
    }
  }

  /** A string means something exactly if its parts fit together. */
  lemma PartsMean(str: string, limit: nat, pos: nat, all: seq<bv5>, x: Decoded)
    requires Proper(str) && |str| <= limit && 0 < pos && pos + 6 < |str|
    requires LastSeparator(str, pos) && SymbolsFrom(str, pos, all)
    requires Bytes(Lowered(str[..pos]))
    ensures Means(str, limit, x) <==>
      && x.hrp == Lowered(str[..pos]) && x.data == all[..|all| - 6]
      && PolyMod(Expand(x.hrp) + all) == EncodingConstant(x.encoding)
  {
    hide CharOf, SymbolOf, LowerCase, PolyMod, ChecksumFor, Expand;
    var e, c, k := all[..|all| - 6], all[|all| - 6..], EncodingConstant(x.encoding);
    assert all == e + c;
    ConstantBound(x.encoding);
    if x.hrp == Lowered(str[..pos]) && x.data == e {
      assert Expand(x.hrp) + all == (Expand(x.hrp) + e) + c;
      ChecksumExact(Expand(x.hrp) + e, k, c);
      if PolyMod(Expand(x.hrp) + all) == k {
        PartsText(str, pos, all, x);
      }
    }
    if Means(str, limit, x) {
      MeansParts(str, limit, x);
      SameSeparator(str, pos, |x.hrp|);
      SameSymbols(str, pos, all, x.data + Checksum(x.encoding, x.hrp, x.data));
      assert x.data == e && Checksum(x.encoding, x.hrp, x.data) == c;
    }
  }

  lemma ConstantBound(encoding: Encoding)
    ensures EncodingConstant(encoding) < LIMIT30
    ensures EncodingConstant(BECH32) != EncodingConstant(BECH32M)
  {
  }

  lemma PartsText(str: string, pos: nat, all: seq<bv5>, x: Decoded)
    requires LastSeparator(str, pos) && SymbolsFrom(str, pos, all) && Printable(str)
    requires x.hrp == Lowered(str[..pos]) && Bytes(x.hrp) && all == x.data + Checksum(x.encoding, x.hrp, x.data)
    ensures Lowered(str) == Encoded(x.encoding, x.hrp, x.data)
  {
    hide CharOf, SymbolOf, LowerCase, Checksum;
    var L, E := Lowered(str), Encoded(x.encoding, x.hrp, x.data);
    LowerKeeps(str[pos]);
    forall k | 0 <= k < |L|
      ensures L[k] == E[k]
    {
      if k > pos {
        var j := k - pos - 1;
        assert SymbolOf(LowerCase(str[pos + 1 + j])) == Some(all[j]);
        CharOfSymbol(LowerCase(str[k]));
      }
    }
  }

  /** A string means at most one thing. */
  lemma MeansUnique(str: string, limit: nat, x: Decoded, y: Decoded)
    requires Means(str, limit, x) && Means(str, limit, y)
    ensures x == y
  {
    hide CharOf, SymbolOf, LowerCase, PolyMod, Expand, ChecksumFor;
    MeansParts(str, limit, x);
    MeansParts(str, limit, y);
    SameSeparator(str, |x.hrp|, |y.hrp|);
    var all := x.data + Checksum(x.encoding, x.hrp, x.data);
    SameSymbols(str, |x.hrp|, all, y.data + Checksum(y.encoding, y.hrp, y.data));
    PartsMean(str, limit, |x.hrp|, all, x);
    PartsMean(str, limit, |x.hrp|, all, y);
    ConstantBound(x.encoding);
  }

  // ---------- encoding ----------

  ghost function RestN(m: bv32, k: nat): bv32
    decreases k
  {
    if k == 0 then m else RestN(Rest(m), k - 1)
  }

  lemma {:induction false} GroupsAt(m: bv32, n: nat, i: nat)
    requires i < n
    ensures Groups(m, n)[i] == Last(RestN(m, n - 1 - i))
    decreases n
  {
    hide Last, Rest;
    if i < n - 1 {
      GroupsAt(Rest(m), n - 1, i);
    }
  }

  /** `m >> (5 * k)`. */
  function Shifted(m: bv32, k: nat): bv32
    requires k < 6
  {
    if k == 0 then m else if k == 1 then m >> 5 else if k == 2 then m >> 10
    else if k == 3 then m >> 15 else if k == 4 then m >> 20 else m >> 25
  }

  lemma ShiftedIs(m: bv32, k: nat)
    requires k < 6
    ensures Shifted(m, k) == RestN(m, k)
  {
    hide Rest;
    if k == 1 {
      Shift5(m);
    } else if k == 2 {
      Shift10(m);
    } else if k == 3 {
      Shift15(m);
    } else if k == 4 {
      Shift20(m);
    } else if k == 5 {
      Shift25(m);
    }
    Unfold(m);
  }

  lemma Unfold(m: bv32)
    ensures RestN(m, 0) == m && RestN(m, 1) == Rest(m) && RestN(m, 2) == Rest(Rest(m))
    ensures RestN(m, 3) == Rest(Rest(Rest(m)))
    ensures RestN(m, 4) == Rest(Rest(Rest(Rest(m)))) && RestN(m, 5) == Rest(Rest(Rest(Rest(Rest(m)))))
  {
    hide Rest;
  }

  lemma GroupAt(m: bv32, i: nat)
    requires i < 6
    ensures Groups(m, 6)[i] == Last(Shifted(m, 5 - i))
  {
    hide Last, Rest, Shifted, RestN, Groups;
    GroupsAt(m, 6, i);
    ShiftedIs(m, 5 - i);
  }

  lemma Shift5(m: bv32)
    ensures m >> 5 == Rest(m)
  {
  }

  lemma Shift10(m: bv32)
    ensures m >> 10 == Rest(Rest(m))
  {
  }

  lemma Shift15(m: bv32)
    ensures m >> 15 == Rest(Rest(Rest(m)))
  {
  }

  lemma Shift20(m: bv32)
    ensures m >> 20 == Rest(Rest(Rest(Rest(m))))
  {
  }

  lemma Shift25(m: bv32)
    ensures m >> 25 == Rest(Rest(Rest(Rest(Rest(m)))))
  {
  }

  /** The high bits of all characters, a zero, and the low bits, followed by the values. */
  method PreparePolynomialCoefficients(hrp: string, values: seq<bv5>) returns (r: seq<bv5>)
    requires Bytes(hrp)
    ensures r == Expand(hrp) + values
  {
    var high, low: seq<bv5> := [], [];
    for k := 0 to |hrp|
      invariant high == seq(k, j requires 0 <= j < k => (hrp[j] as int / 32) as bv5)
    {
      high := high + [(hrp[k] as int / 32) as bv5];
    }
    for k := 0 to |hrp|
      invariant low == seq(k, j requires 0 <= j < k => (hrp[j] as int % 32) as bv5)
    {
      low := low + [(hrp[k] as int % 32) as bv5];
    }
    r := high + [0] + low + values;
  }

  method CreateChecksum(encoding: Encoding, hrp: string, values: seq<bv5>) returns (d: seq<bv5>)
    requires Bytes(hrp)
    ensures d == Checksum(encoding, hrp, values)
  {
    hide Expand, PolyMod, Xor, Groups, Last, Shifted;
    var enc := PreparePolynomialCoefficients(hrp, values);
    var c := ComputePolyMod(enc + Zeros(6));
    var m := Xor(c, EncodingConstant(encoding));
    d := [];
    for i := 0 to 6
      invariant d == Groups(m, 6)[..i]
    {
      GroupAt(m, i);
      d := d + [Last(Shifted(m, 5 - i))];
    }
  }

  /** Encode a string. The human-readable part must be in lower case. */
  method Encode(encoding: Encoding, hrp: string, values: seq<bv5>) returns (r: string)
    requires Bytes(hrp) && !HasUpper(hrp)
    ensures r == Encoded(encoding, hrp, values)
  {
    hide Checksum, CharOf;
    var check := CreateChecksum(encoding, hrp, values);
    var all := values + check;
    var text: string := "";
    for k := 0 to |all|
      invariant text == Text(all[..k])
    {
      text := text + [CharOf(all[k])];
    }
    assert all[..|all|] == all;
    r := hrp + ['1'] + text;
  }

  // ---------- decoding ----------

  ghost predicate IsLetter(c: char) {
    IsLower(c) || IsUpper(c)
  }

  /** The first letter of the string is at `f`. */
  ghost predicate FirstLetter(str: string, f: nat) {
    f < |str| && IsLetter(str[f]) && forall k :: 0 <= k < f ==> !IsLetter(str[k])
  }

  /** The character is not printable, or a letter of another case than the first one. */
  ghost predicate Wrong(str: string, i: nat)
    requires i < |str|
  {
    || !('!' <= str[i] <= '~')
    || (IsLetter(str[i]) && exists f: nat :: FirstLetter(str, f) && IsLower(str[f]) != IsLower(str[i]))
  }

  /** The places of the wrong characters, in order. */
  method CheckCharacters(str: string) returns (ok: bool, errors: seq<nat>)
    ensures ok <==> Proper(str)
    ensures ok <==> errors == []
    ensures forall i: nat :: i in errors <==> i < |str| && Wrong(str, i)
    ensures forall m, n :: 0 <= m < n < |errors| ==> errors[m] < errors[n]
  {
    var lower, upper := false, false;
    errors := [];
    ghost var first: nat := |str|;
    for i := 0 to |str|
      invariant first < i || first == |str|
      invariant first == |str| ==> !lower && !upper && forall k :: 0 <= k < i ==> !IsLetter(str[k])
      invariant first < i ==> FirstLetter(str, first) && lower == IsLower(str[first]) && upper == IsUpper(str[first])
      invariant forall k: nat :: k in errors <==> k < i && Wrong(str, k)
      invariant forall m :: 0 <= m < |errors| ==> errors[m] < i
      invariant forall m, n :: 0 <= m < n < |errors| ==> errors[m] < errors[n]
    {
      var c := str[i];
      if first == |str| && IsLetter(c) {
        first := i;
      }
      WrongAt(str, i, first);
      if 'a' <= c <= 'z' {
        if upper {
          errors := errors + [i];
        } else {
          lower := true;
        }
      } else if 'A' <= c <= 'Z' {
        if lower {
          errors := errors + [i];
        } else {
          upper := true;
        }
      } else if c < '!' || c > '~' {
        errors := errors + [i];
      }
    }
    ok := errors == [];
    ProperIffNoneWrong(str, first);
    assert ok <==> forall i :: 0 <= i < |str| ==> !Wrong(str, i) by {
      assert errors != [] ==> errors[0] in errors;
    }
  }

  lemma WrongAt(str: string, i: nat, f: nat)
    requires i < |str| && (f < |str| ==> FirstLetter(str, f)) && (IsLetter(str[i]) ==> f < |str|)
    ensures Wrong(str, i) <==>
      !('!' <= str[i] <= '~') || (IsLetter(str[i]) && IsLower(str[f]) != IsLower(str[i]))
  {
    assert forall g: nat :: FirstLetter(str, g) && f < |str| ==> g == f;
    assert f < |str| ==> FirstLetter(str, f);
  }

  lemma ProperIffNoneWrong(str: string, f: nat)
    requires if f < |str| then FirstLetter(str, f) else forall k :: 0 <= k < |str| ==> !IsLetter(str[k])
    ensures Proper(str) <==> forall i :: 0 <= i < |str| ==> !Wrong(str, i)
  {
    forall i | 0 <= i < |str|
      ensures Wrong(str, i) <==>
        !('!' <= str[i] <= '~') || (IsLetter(str[i]) && f < |str| && IsLower(str[f]) != IsLower(str[i]))
    {
      if f < |str| {
        WrongAt(str, i, f);
      }
    }
  }

  /** Which encoding the remainder belongs to, if any. */
  method VerifyChecksum(hrp: string, values: seq<bv5>) returns (e: Option<Encoding>)
    requires Bytes(hrp)
    ensures e.Some? ==> PolyMod(Expand(hrp) + values) == EncodingConstant(e.value)
    ensures e.None? ==> forall k :: PolyMod(Expand(hrp) + values) != EncodingConstant(k)
  {
    hide PolyMod, Expand;
    var enc := PreparePolynomialCoefficients(hrp, values);
    var check := ComputePolyMod(enc);
    if check == EncodingConstant(BECH32) {
      return Some(BECH32);
    }
    if check == EncodingConstant(BECH32M) {
      return Some(BECH32M);
    }
    return None;
  }

  /** Where the last separator is, if there is one. */
  method FindSeparator(str: string) returns (pos: Option<nat>)
    ensures pos.Some? ==> LastSeparator(str, pos.value)
    ensures pos.None? ==> forall p :: !LastSeparator(str, p)
  {
    var k := |str|;
    while k > 0
      invariant 0 <= k <= |str| && forall j :: k <= j < |str| ==> str[j] != '1'
    {
      k := k - 1;
      if str[k] == '1' {
        return Some(k);
      }
    }
    return None;
  }

  /** The symbols after the separator, if all characters there stand for symbols. */
  method ReadSymbols(str: string, pos: nat) returns (all: Option<seq<bv5>>)
    requires pos < |str|
    ensures all.Some? ==> SymbolsFrom(str, pos, all.value)
    ensures all.None? ==> forall v :: !SymbolsFrom(str, pos, v)
  {
    hide SymbolOf, LowerCase;
    var v: seq<bv5> := [];
    for i := 0 to |str| - 1 - pos
      invariant |v| == i && forall k :: 0 <= k < i ==> SymbolOf(LowerCase(str[pos + 1 + k])) == Some(v[k])
    {
      var c := SymbolOf(LowerCase(str[pos + 1 + i]));
      if c.None? {
        forall w
          ensures !SymbolsFrom(str, pos, w)
        {
          if SymbolsFrom(str, pos, w) {
            SymbolThere(str, pos, w, i);
          }
        }
        return None;
      }
      v := v + [c.value];
    }
    return Some(v);
  }

  lemma SymbolThere(str: string, pos: nat, w: seq<bv5>, i: nat)
    requires SymbolsFrom(str, pos, w) && pos + 1 + i < |str|
    ensures SymbolOf(LowerCase(str[pos + 1 + i])).Some?
  {
    hide SymbolOf, LowerCase;
    assert SymbolOf(LowerCase(str[pos + 1 + i])) == Some(w[i]);
  }

  method LowerHrp(str: string, pos: nat) returns (hrp: string)
    requires pos <= |str|
    ensures hrp == Lowered(str[..pos])
  {
    hide LowerCase;
    hrp := "";
    for i := 0 to pos
      invariant hrp == Lowered(str[..i])
    {
      hrp := hrp + [LowerCase(str[i])];
    }
  }

  /** Decode a string of at most `limit` characters. */
  method Decode(str: string, limit: nat) returns (r: Option<Decoded>)
    ensures r.Some? ==> Means(str, limit, r.value)
    ensures r.None? ==> forall x :: !Means(str, limit, x)
  {
    hide Means, Proper, LastSeparator, SymbolsFrom, Lowered, PolyMod, Expand, LowerCase;
    var ok, errors := CheckCharacters(str);
    if !ok || |str| > limit {
      NotProper(str, limit);
      return None;
    }
    var pos := FindSeparator(str);
    if pos.None? || pos.value == 0 || pos.value + 6 >= |str| {
      NoRoom(str, limit, pos);
      return None;
    }
    SeparatorInside(str, pos.value);
    var all := ReadSymbols(str, pos.value);
    if all.None? {
      NoSymbols(str, limit, pos.value);
      return None;
    }
    var hrp := LowerHrp(str, pos.value);
    HrpBytes(str, pos.value);
    var e := VerifyChecksum(hrp, all.value);
    SymbolsLength(str, pos.value, all.value);
    if e.None? {
      forall x
        ensures !Means(str, limit, x)
      {
        PartsMean(str, limit, pos.value, all.value, x);
      }
      return None;
    }
    r := Some(Decoded(e.value, hrp, all.value[..|all.value| - 6]));
    PartsMean(str, limit, pos.value, all.value, r.value);
  }

  lemma NotProper(str: string, limit: nat)
    requires !Proper(str) || |str| > limit
    ensures forall x :: !Means(str, limit, x)
  {
  }

  lemma NoRoom(str: string, limit: nat, pos: Option<nat>)
    requires pos.Some? ==> LastSeparator(str, pos.value) && (pos.value == 0 || pos.value + 6 >= |str|)
    requires pos.None? ==> forall p :: !LastSeparator(str, p)
    ensures forall x :: !Means(str, limit, x)
  {
    hide LastSeparator, SymbolsFrom, Lowered;
    forall x
      ensures !Means(str, limit, x)
    {
      if Means(str, limit, x) {
        MeansParts(str, limit, x);
        if pos.Some? {
          SameSeparator(str, pos.value, |x.hrp|);
        }
      }
    }
  }

  lemma SeparatorInside(str: string, pos: nat)
    requires LastSeparator(str, pos)
    ensures pos < |str|
  {
  }

  lemma NoSymbols(str: string, limit: nat, pos: nat)
    requires LastSeparator(str, pos) && forall v :: !SymbolsFrom(str, pos, v)
    ensures forall x :: !Means(str, limit, x)
  {
    hide LastSeparator, SymbolsFrom, Lowered;
    forall x
      ensures !Means(str, limit, x)
    {
      if Means(str, limit, x) {
        MeansParts(str, limit, x);
        SameSeparator(str, pos, |x.hrp|);
      }
    }
  }

  lemma HrpBytes(str: string, pos: nat)
    requires Proper(str) && pos <= |str|
    ensures Bytes(Lowered(str[..pos]))
  {
    LoweredBytes(str[..pos]);
  }

  lemma SymbolsLength(str: string, pos: nat, all: seq<bv5>)
    requires SymbolsFrom(str, pos, all)
    ensures pos + 1 + |all| == |str|
  {
  }

  /** Decoding an encoded string gives back what was encoded. */
  method EncodeThenDecode(encoding: Encoding, hrp: string, values: seq<bv5>, limit: nat) returns (r: Option<Decoded>)
    requires |hrp| > 0 && Printable(hrp) && !HasUpper(hrp) && |hrp| + 1 + |values| + 6 <= limit
    ensures r == Some(Decoded(encoding, hrp, values))
  {
    hide Encoded, Means;
    var str := Encode(encoding, hrp, values);
    r := Decode(str, limit);
    EncodedMeans(encoding, hrp, values, limit);
    if r.Some? {
      MeansUnique(str, limit, r.value, Decoded(encoding, hrp, values));
    }
  }

  lemma EncodedMeans(encoding: Encoding, hrp: string, values: seq<bv5>, limit: nat)
    requires |hrp| > 0 && Printable(hrp) && !HasUpper(hrp) && |hrp| + 1 + |values| + 6 <= limit
    ensures Bytes(hrp) && Means(Encoded(encoding, hrp, values), limit, Decoded(encoding, hrp, values))
  {
    hide CharOf, Checksum;
    var x := Decoded(encoding, hrp, values);
    var str, all := Encoded(encoding, hrp, values), values + Checksum(encoding, hrp, values);
    EncodedParts(x);
    forall k | 0 <= k < |str|
      ensures '!' <= str[k] <= '~' && !IsUpper(str[k])
    {
      if k < |hrp| {
        assert str[k] == hrp[k];
      } else if k > |hrp| {
        assert str[k] == CharOf(all[k - |hrp| - 1]);
        CharsetChar(all[k - |hrp| - 1]);
      }
    }
    assert Lowered(str) == str;
  }

  // ---------- known strings ----------

  /** The characters of all symbols, in their order. */
  lemma CharsetIs()
    ensures Text([0, 1, 2, 3, 4, 5, 6, 7]) == "qpzry9x8"
    ensures Text([8, 9, 10, 11, 12, 13, 14, 15]) == "gf2tvdw0"
    ensures Text([16, 17, 18, 19, 20, 21, 22, 23]) == "s3jn54kh"
    ensures Text([24, 25, 26, 27, 28, 29, 30, 31]) == "ce6mua7l"
  {
    hide Text;
    Charset0();
    Charset1();
    Charset2();
    Charset3();
  }

  lemma Charset0()
    ensures Text([0, 1, 2, 3, 4, 5, 6, 7]) == "qpzry9x8"
  {
  }

  lemma Charset1()
    ensures Text([8, 9, 10, 11, 12, 13, 14, 15]) == "gf2tvdw0"
  {
  }

  lemma Charset2()
    ensures Text([16, 17, 18, 19, 20, 21, 22, 23]) == "s3jn54kh"
  {
  }

  lemma Charset3()
    ensures Text([24, 25, 26, 27, 28, 29, 30, 31]) == "ce6mua7l"
  {
  }

  /** The remainder of the first `n + 1` symbols, from that of the first `n`. */
  lemma KnownStep(v: seq<bv5>, n: nat, c: bv32, c': bv32)
    requires n < |v| && PolyMod(v[..n]) == c && Step(c, v[n]) == c'
    ensures PolyMod(v[..n + 1]) == c'
  {
    hide Step;
    assert v[..n + 1][..n] == v[..n];
  }

  lemma KnownSteps()
    ensures Step(0x1, 3) == 0x23 && Step(0x23, 0) == 0x460 && Step(0x460, 1) == 0x8c01 && Step(0x8c01, 0) == 0x118020
    ensures Step(0x118020, 0) == 0x2300400 && Step(0x2300400, 0) == 0x3d6ad7b2 && Step(0x3d6ad7b2, 0) == 0x2fd30b9
    ensures Step(0x2fd30b9, 0) == 0x24cc4092 && Step(0x24cc4092, 0) == 0x15ccfe9e
  {
  }

  lemma KnownRemainder(v: seq<bv5>)
    requires v == [3, 0, 1, 0, 0, 0, 0, 0, 0]
    ensures PolyMod(v) == 0x15ccfe9e
  {
    hide Step;
    KnownSteps();
    assert v[..0] == [];
    KnownStep(v, 0, 0x1, 0x23);
    KnownStep(v, 1, 0x23, 0x460);
    KnownStep(v, 2, 0x460, 0x8c01);
    KnownStep(v, 3, 0x8c01, 0x118020);
    KnownStep(v, 4, 0x118020, 0x2300400);
    KnownStep(v, 5, 0x2300400, 0x3d6ad7b2);
    KnownStep(v, 6, 0x3d6ad7b2, 0x2fd30b9);
    KnownStep(v, 7, 0x2fd30b9, 0x24cc4092);
    KnownStep(v, 8, 0x24cc4092, 0x15ccfe9e);
    assert v[..9] == v;
  }

  lemma KnownGroups()
    ensures Groups(Xor(0x15ccfe9e, 1), 6) == [10, 28, 25, 31, 20, 31]
    ensures Groups(Xor(0x15ccfe9e, 0x2bc830a3), 6) == [31, 0, 9, 19, 17, 29]
  {
    var a: seq<bv5> := [10, 28, 25, 31, 20, 31];
    var b: seq<bv5> := [31, 0, 9, 19, 17, 29];
    KnownPacks();
    hide Append, Xor;
    GroupsOfPack(a);
    GroupsOfPack(b);
  }

  lemma KnownPacks()
    ensures Pack([10, 28, 25, 31, 20, 31]) == Xor(0x15ccfe9e, 1)
    ensures Pack([31, 0, 9, 19, 17, 29]) == Xor(0x15ccfe9e, 0x2bc830a3)
  {
    KnownPack(10, 28, 25, 31, 20, 31);
    KnownPack(31, 0, 9, 19, 17, 29);
  }

  lemma KnownPack(a: bv5, b: bv5, c: bv5, d: bv5, e: bv5, f: bv5)
    ensures Pack([a, b, c, d, e, f]) == Append(Append(Append(Append(Append(Append(0, a), b), c), d), e), f)
  {
    hide Append;
    assert [] + [a] == [a] && [a] + [b] == [a, b] && [a, b] + [c] == [a, b, c] && [a, b, c] + [d] == [a, b, c, d];
    assert [a, b, c, d] + [e] == [a, b, c, d, e] && [a, b, c, d, e] + [f] == [a, b, c, d, e, f];
    PackNext([], a);
    PackNext([a], b);
    PackNext([a, b], c);
    PackNext([a, b, c], d);
    PackNext([a, b, c, d], e);
    PackNext([a, b, c, d, e], f);
  }

  /** The shortest strings of both encodings. */
  lemma KnownStrings()
    ensures Bytes("a") && Encoded(BECH32, "a", []) == "a12uel5l" && Encoded(BECH32M, "a", []) == "a1lqfn3a"
  {
    hide Encoded;
    KnownString();
    KnownStringM();
  }

  lemma KnownString()
    ensures Bytes("a") && Encoded(BECH32, "a", []) == "a12uel5l"
  {
    hide Expand, Checksum, Text;
    KnownChecksum(BECH32);
    KnownTexts();
    var a: seq<bv5> := [10, 28, 25, 31, 20, 31];
    assert [] + a == a;
  }

  lemma KnownStringM()
    ensures Bytes("a") && Encoded(BECH32M, "a", []) == "a1lqfn3a"
  {
    hide Expand, Checksum, Text;
    KnownChecksum(BECH32M);
    KnownTexts();
    var b: seq<bv5> := [31, 0, 9, 19, 17, 29];
    assert [] + b == b;
  }

  lemma KnownExpansion()
    ensures Bytes("a") && Expand("a") == [3, 0, 1]
  {
    var e := Expand("a");
    assert |e| == 3 && e[0] == 3 && e[1] == 0 && e[2] == 1;
  }

  lemma KnownChecksum(encoding: Encoding)
    ensures Bytes("a")
    ensures Checksum(encoding, "a", []) == if encoding.BECH32? then [10, 28, 25, 31, 20, 31] else [31, 0, 9, 19, 17, 29]
  {
    hide PolyMod, Groups, Xor, Expand;
    KnownExpansion();
    var e: seq<bv5> := [3, 0, 1];
    assert Expand("a") + [] == e;
    var v := e + Zeros(6);
    assert v == [3, 0, 1, 0, 0, 0, 0, 0, 0];
    KnownRemainder(v);
    KnownGroups();
  }

  lemma KnownTexts()
    ensures Text([10, 28, 25, 31, 20, 31]) == "2uel5l" && Text([31, 0, 9, 19, 17, 29]) == "lqfn3a"
  {
  }
}
