/** Powers, and numbers written in a base, most significant digit first. */
module Numerals {

  function Pow(b: nat, n: nat): (r: nat)
    ensures b > 0 ==> r > 0
  {
    if n == 0 then 1 else Positive(b, Pow(b, n - 1)); b * Pow(b, n - 1)
  }

  lemma Positive(x: nat, y: nat)
    ensures x > 0 && y > 0 ==> x * y > 0
  {
  }

  lemma {:induction false} PowAdd(b: nat, m: nat, n: nat)
    ensures Pow(b, m + n) == Pow(b, m) * Pow(b, n)
  {
    if m > 0 {
      PowAdd(b, m - 1, n);
      assert b * (Pow(b, m - 1) * Pow(b, n)) == b * Pow(b, m - 1) * Pow(b, n);
    }
  }

  lemma {:induction false} PowMul(b: nat, m: nat, n: nat)
    ensures Pow(b, m * n) == Pow(Pow(b, m), n)
  {
    if n > 0 {
      PowMul(b, m, n - 1);
      PowAdd(b, m, m * (n - 1));
      assert m * n == m + m * (n - 1);
    } else {
      assert m * n == 0;
    }
  }

  lemma MulMonotone(a: nat, b: nat, c: nat, d: nat)
    requires a <= b && c <= d
    ensures a * c <= b * d
  {
    assert a * c <= b * c;
    assert b * c <= b * d;
  }

  lemma {:induction false} PowMonotone(b: nat, m: nat, n: nat)
    requires b > 0 && m <= n
    ensures Pow(b, m) <= Pow(b, n)
  {
    PowAdd(b, m, n - m);
    MulMonotone(Pow(b, m), Pow(b, m), 1, Pow(b, n - m));
  }

  lemma {:induction false} PowBase(a: nat, b: nat, n: nat)
    requires a <= b
    ensures Pow(a, n) <= Pow(b, n)
  {
    if n > 0 {
      PowBase(a, b, n - 1);
      MulMonotone(a, b, Pow(a, n - 1), Pow(b, n - 1));
    }
  }

  lemma {:induction false} PowBaseStrict(a: nat, b: nat, n: nat)
    requires a < b && n > 0
    ensures Pow(a, n) < Pow(b, n)
  {
    PowBase(a, b, n - 1);
    MulMonotone(a, a, Pow(a, n - 1), Pow(b, n - 1));
    var p := Pow(b, n - 1);
    assert p > 0;
    assert b * p == a * p + (b - a) * p;
    Positive(b - a, p);
  }

  /** Comparing powers compares their bases. */
  lemma Root(a: nat, b: nat, n: nat)
    requires n > 0 && Pow(a, n) <= Pow(b, n)
    ensures a <= b
  {
    if b < a {
      PowBaseStrict(b, a, n);
    }
  }

  // ---------- numbers in a base ----------

  ghost predicate Digits(s: seq<nat>, base: nat) {
    forall k :: 0 <= k < |s| ==> s[k] < base
  }

  /** The number that the digits make, the most significant first. */
  ghost function Value(s: seq<nat>, base: nat): nat {
    if |s| == 0 then 0 else Value(s[..|s| - 1], base) * base + s[|s| - 1]
  }

  lemma {:induction false} ValueConcat(s: seq<nat>, t: seq<nat>, base: nat)
    ensures Value(s + t, base) == Value(s, base) * Pow(base, |t|) + Value(t, base)
  {
    if |t| == 0 {
      assert s + t == s;
    } else {
      var u, last := t[..|t| - 1], t[|t| - 1];
      assert (s + t)[..|s + t| - 1] == s + u;
      ValueConcat(s, u, base);
      calc {
        Value(s + t, base);
        (Value(s, base) * Pow(base, |u|) + Value(u, base)) * base + last;
        { Distribute(Value(s, base), Pow(base, |u|), Value(u, base), base); }
        Value(s, base) * Pow(base, |t|) + Value(u, base) * base + last;
      }
    }
  }

  lemma Distribute(v: nat, p: nat, u: nat, base: nat)
    ensures (v * p + u) * base == v * (base * p) + u * base
  {
  }

  lemma {:induction false} ValueBound(s: seq<nat>, base: nat)
    requires Digits(s, base) && base > 0
    ensures Value(s, base) < Pow(base, |s|)
  {
    if |s| > 0 {
      var u := s[..|s| - 1];
      ValueBound(u, base);
      MulMonotone(Value(u, base) + 1, Pow(base, |u|), base, base);
      assert (Value(u, base) + 1) * base == Value(u, base) * base + base;
      assert Pow(base, |u|) * base == base * Pow(base, |u|);
    }
  }

  lemma {:induction false} ZerosValue(s: seq<nat>, base: nat)
    requires forall k :: 0 <= k < |s| ==> s[k] == 0
    ensures Value(s, base) == 0
  {
    if |s| > 0 {
      ZerosValue(s[..|s| - 1], base);
    }
  }

  /** A number without leading zeros is at least the power of its length. */
  lemma LeadingBound(s: seq<nat>, base: nat)
    requires |s| > 0 && s[0] > 0 && base > 0
    ensures Value(s, base) >= Pow(base, |s| - 1)
  {
    assert s == [s[0]] + s[1..];
    ValueConcat([s[0]], s[1..], base);
    assert [s[0]][..0] == [];
    assert Value([s[0]], base) == s[0];
    MulMonotone(1, s[0], Pow(base, |s| - 1), Pow(base, |s| - 1));
  }

  ghost predicate NoLeadingZero(s: seq<nat>) {
    |s| > 0 ==> s[0] > 0
  }

  lemma {:induction false} SameLengthUnique(s: seq<nat>, t: seq<nat>, base: nat)
    requires Digits(s, base) && Digits(t, base) && |s| == |t| && Value(s, base) == Value(t, base) && base > 0
    ensures s == t
  {
    if |s| > 0 {
      var u, v, n := s[..|s| - 1], t[..|t| - 1], |s| - 1;
      SameQuotient(Value(u, base), Value(v, base), s[n], t[n], base);
      SameLengthUnique(u, v, base);
      assert s == u + [s[n]] && t == v + [t[n]];
    }
  }

  lemma SameQuotient(a: nat, b: nat, r: nat, q: nat, base: nat)
    requires a * base + r == b * base + q && r < base && q < base
    ensures a == b && r == q
  {
    if a < b {
      SmallerQuotient(a, b, r, q, base);
    } else if b < a {
      SmallerQuotient(b, a, q, r, base);
    }
  }

  lemma SmallerQuotient(a: nat, b: nat, r: nat, q: nat, base: nat)
    requires a < b && r < base
    ensures a * base + r < b * base + q
  {
    MulMonotone(1, b - a, base, base);
    assert b * base == a * base + (b - a) * base;
  }

  /** A number has only one representation without leading zeros. */
  lemma Unique(s: seq<nat>, t: seq<nat>, base: nat)
    requires Digits(s, base) && Digits(t, base) && base > 1
    requires NoLeadingZero(s) && NoLeadingZero(t) && Value(s, base) == Value(t, base)
    ensures s == t
  {
    SameLength(s, t, base);
    SameLength(t, s, base);
    SameLengthUnique(s, t, base);
  }

  lemma SameLength(s: seq<nat>, t: seq<nat>, base: nat)
    requires Digits(s, base) && base > 1
    requires NoLeadingZero(t) && Value(s, base) == Value(t, base)
    ensures |t| <= |s|
  {
    ValueBound(s, base);
    if |t| > |s| {
      LeadingBound(t, base);
      PowMonotone(base, |s|, |t| - 1);
    }
  }
}
