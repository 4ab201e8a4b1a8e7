/** The position of the highest bit, and long division. */
module LimbDivision {
  import opened Numerals
  import opened Limbs
  import opened LimbShifts

  // ---------- the highest bit ----------

  predicate BitSet(x: nat, n: nat) {
    (x / Two(n)) % 2 == 1
  }

  lemma TopBit(x: nat, n: nat)
    requires x < Two(n + 1)
    ensures if BitSet(x, n) then x >= Two(n) else x < Two(n)
  {
    hide Two;
    TwoNext(n);
    var q := x / Two(n);
    assert x == Two(n) * q + x % Two(n);
    QuotientBound(x, Two(n), 2);
    if q == 0 {
      assert x == x % Two(n);
    } else {
      assert q == 1;
      assert x == Two(n) + x % Two(n);
    }
  }

  /** The number of bits that `v` takes. */
  ghost predicate IsBits(v: nat, n: nat) {
    if n == 0 then v == 0 else Two(n - 1) <= v < Two(n)
  }

  /** The highest limb that is not zero decides. */
  lemma TopLimb(s: seq<nat>, pos: nat, n: nat)
    requires AreLimbs(s) && pos < |s| && (forall k :: pos < k < |s| ==> s[k] == 0)
    requires Two(n) <= s[pos] < Two(n + 1)
    ensures IsBits(Num(s), 32 * pos + n + 1)
  {
    hide P, Num, Two;
    NumSplit(s, pos + 1);
    NumZeros(s[pos + 1..]);
    assert P(pos + 1) * 0 == 0;
    NumTake(s, pos);
    NumBound(s[..pos]);
    PIsTwo(pos);
    TwoAdd(n, 32 * pos);
    TwoAdd(n + 1, 32 * pos);
    MulMonotone(Two(n), s[pos], P(pos), P(pos));
    MulMonotone(s[pos] + 1, Two(n + 1), P(pos), P(pos));
    Distributes(s[pos], 1, P(pos));
    assert n + 32 * pos == 32 * pos + n;
    assert n + 1 + 32 * pos == 32 * pos + n + 1;
  }

  /** The position of the highest bit of a limb. */
  method LimbBits(x: nat) returns (n: nat)
    requires 0 < x < BASE
    ensures Two(n) <= x < Two(n + 1) && n < 32
  {
    hide Two;
    Two32();
    n := 31;
    while n > 0
      invariant n < 32 && x < Two(n + 1)
    {
      TopBit(x, n);
      if BitSet(x, n) {
        return;
      }
      n := n - 1;
    }
    TwoNext(0);
  }

  /** The position of the highest bit set plus one, or zero if the value is zero. */
  method Bits(pn: array<nat>) returns (n: nat)
    requires AreLimbs(pn[..])
    ensures IsBits(Num(pn[..]), n) && n <= 32 * pn.Length
  {
    hide P, Num, Two;
    var pos := pn.Length;
    while pos > 0
      invariant 0 <= pos <= pn.Length && forall k :: pos <= k < pn.Length ==> pn[k] == 0
    {
      pos := pos - 1;
      if pn[pos] != 0 {
        assert pn[..][pos] == pn[pos];
        var top := LimbBits(pn[pos]);
        TopLimb(pn[..], pos, top);
        return 32 * pos + top + 1;
      }
    }
    NumZeros(pn[..]);
    return 0;
  }

  // ---------- division ----------

  lemma {:induction false} OrComm(x: nat, y: nat)
    ensures Or(x, y) == Or(y, x)
  {
    if x != 0 || y != 0 {
      OrComm(x / 2, y / 2);
    }
  }

  /** All bits of the number below bit `n` are zero. */
  ghost predicate ClearBelow(s: seq<nat>, n: nat) {
    && (forall m :: 0 <= m < |s| && m < n / 32 ==> s[m] == 0)
    && (n / 32 < |s| ==> exists y: nat :: s[n / 32] == y * Two(n % 32))
  }

  /** Setting a bit below all others adds its worth. */
  lemma SetLowBit(s: seq<nat>, n: nat)
    requires AreLimbs(s) && n / 32 < |s| && ClearBelow(s, n + 1)
    ensures var k := n / 32; var t := s[k := Or(s[k], Two(n % 32))];
      AreLimbs(t) && Num(t) == Num(s) + Two(n) && ClearBelow(t, n)
  {
    hide P, Num, Two, Or;
    var k, b := n / 32, n % 32;
    var y := LimbClear(s, n);
    TwoNext(b);
    OrComm(s[k], Two(b));
    OrDisjoint(Two(b), y, b + 1);
    LimbRoom(s[k], y, b);
    var t := s[k := s[k] + Two(b)];
    NumSet(s, k, s[k] + Two(b));
    Distributes(s[k], Two(b), P(k));
    PIsTwo(k);
    TwoAdd(32 * k, b);
    assert Two(b) * P(k) == P(k) * Two(b);
    assert s[k] + Two(b) == (2 * y + 1) * Two(b) by {
      ClearAlgebra(y, Two(b));
    }
    assert t[k] == (2 * y + 1) * Two(b);
  }

  lemma ClearAlgebra(y: nat, t: nat)
    ensures y * (2 * t) + t == (2 * y + 1) * t
  {
  }

  /** Limb `n / 32` is a multiple of twice its bit. */
  lemma LimbClear(s: seq<nat>, n: nat) returns (y: nat)
    requires n / 32 < |s| && ClearBelow(s, n + 1)
    ensures s[n / 32] == y * Two(n % 32 + 1)
    ensures forall m :: 0 <= m < n / 32 ==> s[m] == 0
  {
    hide Two;
    if n % 32 == 31 {
      y := 0;
    } else {
      y :| s[(n + 1) / 32] == y * Two((n + 1) % 32);
    }
  }

  lemma LimbRoom(x: nat, y: nat, b: nat)
    requires x < BASE && b < 32 && x == y * Two(b + 1)
    ensures x + Two(b) < BASE
  {
    hide Two;
    Two32();
    TwoAdd(b + 1, 31 - b);
    TwoNext(b);
    RoomAlgebra(x, y, Two(b + 1), Two(31 - b));
  }

  lemma RoomAlgebra(x: nat, y: nat, t: nat, u: nat)
    requires x == y * t && x < t * u
    ensures x + t <= t * u
  {
    if y + 1 > u {
      MulMonotone(u, y, t, t);
    }
    MulMonotone(y + 1, if y + 1 > u then y + 1 else u, t, t);
    Distributes(y, 1, t);
  }

  /** The quotient bits down to bit `n` have been found; the rest of the dividend is below `b << n`. */
  ghost predicate InDivision(dividend: nat, b: nat, q: nat, rest: nat, n: nat) {
    dividend == q * b + rest && rest < b * Two(n)
  }

  lemma DivisionStarts(dividend: nat, b: nat, bits: nat, divBits: nat)
    requires IsBits(dividend, bits) && IsBits(b, divBits) && 0 < divBits <= bits
    ensures InDivision(dividend, b, 0, dividend, bits - divBits + 1)
    ensures b * Two(bits - divBits) < Two(bits)
  {
    hide Two;
    var n := bits - divBits;
    TwoAdd(divBits, n);
    MulMonotone(b + 1, Two(divBits), Two(n), Two(n));
    Distributes(b, 1, Two(n));
    TwoAdd(divBits - 1, n + 1);
    MulMonotone(Two(divBits - 1), b, Two(n + 1), Two(n + 1));
    assert 0 * b == 0;
  }

  lemma DivisionSmaller(dividend: nat, b: nat, bits: nat, divBits: nat)
    requires IsBits(dividend, bits) && IsBits(b, divBits) && divBits > bits
    ensures b > 0 && dividend / b == 0
  {
    hide Two;
    if bits > 0 {
      TwoAdd(bits, divBits - 1 - bits);
      MulMonotone(Two(bits), Two(bits), 1, Two(divBits - 1 - bits));
    }
    SmallQuotient(dividend, b);
  }

  /** One bit of the quotient. */
  lemma DivisionStep(dividend: nat, b: nat, q: nat, rest: nat, n: nat)
    requires InDivision(dividend, b, q, rest, n + 1)
    ensures rest >= b * Two(n) ==> InDivision(dividend, b, q + Two(n), rest - b * Two(n), n)
    ensures rest < b * Two(n) ==> InDivision(dividend, b, q, rest, n)
  {
    hide Two;
    TwoNext(n);
    assert b * (2 * Two(n)) == b * Two(n) + b * Two(n);
    Distributes(q, Two(n), b);
    assert Two(n) * b == b * Two(n);
  }

  lemma DivisionEnds(dividend: nat, b: nat, q: nat, rest: nat)
    requires InDivision(dividend, b, q, rest, 0) && b > 0
    ensures q == dividend / b
  {
    TwoNext(0);
    assert b * 1 == b;
    DivModUnique(dividend, q, rest, b);
  }

  lemma HalfShift(b: nat, n: nat)
    ensures (b * Two(n + 1)) / Two(1) == b * Two(n)
  {
    hide Two;
    TwoNext(n);
    TwoNext(0);
    var x := b * Two(n);
    assert b * (2 * Two(n)) == 2 * x;
    assert (2 * x) / 2 == x;
  }

  /** No bits are lost when the divisor is shifted to the dividend. */
  lemma ShiftFits(b: nat, n: nat, bits: nat, w: nat)
    requires b * Two(n) < Two(bits) && bits <= 32 * w
    ensures ProductMod(b, Two(n), P(w)) == b * Two(n)
  {
    hide Two, P;
    PIsTwo(w);
    TwoAdd(bits, 32 * w - bits);
    MulMonotone(Two(bits), Two(bits), 1, Two(32 * w - bits));
    ModSmall(b * Two(n), P(w));
    ProductModIs(b, Two(n), P(w));
  }

  lemma ProductModIs(x: nat, y: nat, m: nat)
    requires m > 0
    ensures ProductMod(x, y, m) == x * y % m
  {
  }

  lemma ModSmall(x: nat, m: nat)
    requires x < m
    ensures x % m == x
  {
    DivModUnique(x, 0, x, m);
  }

  lemma SubExact(x: nat, y: nat, m: nat)
    requires y <= x < m
    ensures (x - y) % m == x - y
  {
    ModSmall(x - y, m);
  }

  /** Copy the limbs of a number. */
  method Copy(a: array<nat>) returns (r: array<nat>)
    ensures fresh(r) && r[..] == a[..]
  {
    r := new nat[a.Length](_ => 0);
    forall k | 0 <= k < a.Length {
      r[k] := a[k];
    }
  }

  /** Subtract the divisor and set the bit of the quotient, if it goes in. */
  method DivideBit(q: array<nat>, num: array<nat>, div: array<nat>, n: nat, ghost dividend: nat, ghost b: nat)
    requires q.Length == num.Length == div.Length && q != num && q != div && num != div && n / 32 < q.Length
    requires AreLimbs(q[..]) && AreLimbs(num[..]) && AreLimbs(div[..]) && ClearBelow(q[..], n + 1)
    requires Num(div[..]) == b * Two(n) && InDivision(dividend, b, Num(q[..]), Num(num[..]), n + 1)
    modifies q, num
    ensures AreLimbs(q[..]) && AreLimbs(num[..]) && ClearBelow(q[..], n)
    ensures InDivision(dividend, b, Num(q[..]), Num(num[..]), n)
  {
    hide P, Num, Two, Or, ClearBelow, InDivision;
    DivisionStep(dividend, b, Num(q[..]), Num(num[..]), n);
    ClearLess(q[..], n);
    var c := CompareTo(num, div);
    if c >= 0 {
      NumBound(num[..]);
      SubExact(Num(num[..]), Num(div[..]), P(num.Length));
      SubAssign(num, div);
      ghost var s := q[..];
      SetLowBit(s, n);
      q[n / 32] := Or(q[n / 32], Two(n % 32));
      assert q[..] == s[n / 32 := Or(s[n / 32], Two(n % 32))];
    }
  }

  lemma ClearLess(s: seq<nat>, n: nat)
    requires ClearBelow(s, n + 1)
    ensures ClearBelow(s, n)
  {
    hide Two;
    if n / 32 < |s| {
      var y := LimbClear(s, n);
      TwoNext(n % 32);
      ClearAlgebra2(y, Two(n % 32));
      assert s[n / 32] == (2 * y) * Two(n % 32);
    }
  }

  lemma ClearAlgebra2(y: nat, t: nat)
    ensures y * (2 * t) == 2 * y * t
  {
  }

  lemma AllClear(s: seq<nat>, n: nat)
    requires forall k :: 0 <= k < |s| ==> s[k] == 0
    ensures ClearBelow(s, n) && Num(s) == 0
  {
    hide Two;
    NumZeros(s);
    assert 0 * Two(n % 32) == 0;
  }

  /** `pn /= b`. Not ok, and zero, if the divisor is zero. */
  method DivAssign(pn: array<nat>, b: array<nat>) returns (ok: bool)
    requires pn.Length == b.Length && AreLimbs(pn[..]) && AreLimbs(b[..])
    modifies pn
    ensures AreLimbs(pn[..]) && (ok <==> old(Num(b[..])) > 0)
    ensures ok ==> Num(pn[..]) == old(Num(pn[..])) / old(Num(b[..]))
    ensures !ok ==> Num(pn[..]) == 0
  {
    hide P, Num, Two, Or, ClearBelow, InDivision, ProductMod, IsBits, AreLimbs;
    var div := Copy(b);
    var num := Copy(pn);
    ghost var d0, n0 := b[..], pn[..];
    ghost var dividend, divisor := Num(n0), Num(d0);
    forall k | 0 <= k < pn.Length {
      pn[k] := 0;
    }
    assert div[..] == d0 && num[..] == n0;
    var numBits := Bits(num);
    var divBits := Bits(div);
    BitsPositive(divisor, divBits);
    AllClear(pn[..], 0);
    ZeroLimbs(pn[..]);
    if divBits == 0 {
      return false;
    }
    if divBits > numBits {
      DivisionSmaller(dividend, divisor, numBits, divBits);
      return true;
    }
    var shift := numBits - divBits;
    AllClear(pn[..], shift + 1);
    DivisionStarts(dividend, divisor, numBits, divBits);
    ShiftFits(divisor, shift, numBits, pn.Length);
    ghost var zero := pn[..];
    ShiftLeft(div, shift);
    assert pn[..] == zero && num[..] == n0;
    DivideBits(pn, num, div, shift, dividend, divisor);
    return true;
  }

  /** All bits of the quotient, from bit `n` down. */
  method DivideBits(pn: array<nat>, num: array<nat>, div: array<nat>, n: nat, ghost dividend: nat, ghost divisor: nat)
    requires pn.Length == num.Length == div.Length && pn != num && pn != div && num != div && n / 32 < pn.Length
    requires AreLimbs(pn[..]) && AreLimbs(num[..]) && AreLimbs(div[..]) && ClearBelow(pn[..], n + 1) && divisor > 0
    requires Num(div[..]) == divisor * Two(n) && InDivision(dividend, divisor, Num(pn[..]), Num(num[..]), n + 1)
    modifies pn, num, div
    ensures AreLimbs(pn[..]) && Num(pn[..]) == dividend / divisor
  {
    hide P, Num, Two, Or, ClearBelow, InDivision, ProductMod, AreLimbs;
    var shift := n;
    while shift >= 0
      invariant -1 <= shift <= n && AreLimbs(pn[..]) && AreLimbs(num[..]) && AreLimbs(div[..])
      invariant ClearBelow(pn[..], shift + 1) && InDivision(dividend, divisor, Num(pn[..]), Num(num[..]), shift + 1)
      invariant shift >= 0 ==> Num(div[..]) == divisor * Two(shift)
    {
      DivideBit(pn, num, div, shift, dividend, divisor);
      if shift > 0 {
        HalfShift(divisor, shift - 1);
      }
      ghost var q, rest := pn[..], num[..];
      ShiftRight(div, 1);
      assert pn[..] == q && num[..] == rest;
      shift := shift - 1;
    }
    DivisionEnds(dividend, divisor, Num(pn[..]), Num(num[..]));
  }

  lemma ZeroLimbs(s: seq<nat>)
    requires forall k :: 0 <= k < |s| ==> s[k] == 0
    ensures AreLimbs(s)
  {
  }

  lemma BitsPositive(v: nat, n: nat)
    requires IsBits(v, n)
    ensures n > 0 <==> v > 0
  {
  }
}
