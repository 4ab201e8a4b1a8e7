/** Fees, sizes and feerates: the `FeeFrac` value of util/feefrac.h and its `ByRatio` order.

    The code compares two feerates by cross-multiplication on integers. The theory below
    compares them as real quotients, and as the sign of `fee - theta * size` for a threshold
    feerate `theta`; the lemmas here tie the three views together. */
module FeeRates {

  datatype FeeFrac = FeeFrac(fee: int, size: int)

  /** `ByRatio{a} < ByRatio{b}`. */
  predicate Lower(a: FeeFrac, b: FeeFrac) {
    a.fee * b.size < b.fee * a.size
  }

  /** `ByRatio{a} == ByRatio{b}`. */
  predicate SameRatio(a: FeeFrac, b: FeeFrac) {
    a.fee * b.size == b.fee * a.size
  }

  /** The feerate of a non-empty fee/size pair, as a real number. */
  ghost function Rate(a: FeeFrac): real
    requires a.size > 0
  {
    a.fee as real / a.size as real
  }

  /** What `a` pays beyond the threshold feerate `theta`. */
  ghost function Gain(a: FeeFrac, theta: real): real {
    a.fee as real - theta * a.size as real
  }

  ghost function Positive(x: real): real {
    if x > 0.0 then x else 0.0
  }

  lemma GainSum(a: FeeFrac, b: FeeFrac, c: FeeFrac, theta: real)
    requires c.fee == a.fee + b.fee && c.size == a.size + b.size
    ensures Gain(c, theta) == Gain(a, theta) + Gain(b, theta)
  {
  }

  /** `fee == rate * size`. */
  lemma RateTimesSize(a: FeeFrac)
    requires a.size > 0
    ensures a.fee as real == Rate(a) * a.size as real
  {
  }

  lemma MulSign(x: real, y: real)
    requires y > 0.0
    ensures x > 0.0 <==> x * y > 0.0
    ensures x == 0.0 <==> x * y == 0.0
  {
  }

  /** The sign of the gain tells on which side of the threshold the feerate lies. */
  lemma GainSign(a: FeeFrac, theta: real)
    requires a.size > 0
    ensures Gain(a, theta) > 0.0 <==> Rate(a) > theta
    ensures Gain(a, theta) == 0.0 <==> Rate(a) == theta
  {
    RateTimesSize(a);
    var s := a.size as real;
    assert Gain(a, theta) == (Rate(a) - theta) * s;
    MulSign(Rate(a) - theta, s);
  }

  /** Cross-multiplication compares the feerates. */
  lemma ByRatioIsRate(a: FeeFrac, b: FeeFrac)
    requires a.size > 0 && b.size > 0
    ensures Lower(a, b) <==> Rate(a) < Rate(b)
    ensures SameRatio(a, b) <==> Rate(a) == Rate(b)
  {
    var af, bf, az, bz := a.fee as real, b.fee as real, a.size as real, b.size as real;
    GainSign(b, Rate(a));
    RateTimesSize(a);
    assert Gain(b, Rate(a)) * az == bf * az - af * bz by {
      assert Rate(a) * bz * az == Rate(a) * az * bz;
    }
    MulSign(Gain(b, Rate(a)), az);
    assert (a.fee * b.size) as real == af * bz;
    assert (b.fee * a.size) as real == bf * az;
  }

  /** The feerate of a sum lies between the feerates of its two parts. */
  lemma Mediant(a: FeeFrac, b: FeeFrac, c: FeeFrac)
    requires a.size > 0 && b.size > 0
    requires c.fee == a.fee + b.fee && c.size == a.size + b.size
    requires Rate(a) <= Rate(b)
    ensures Rate(a) <= Rate(c) <= Rate(b)
    ensures Rate(a) < Rate(b) ==> Rate(a) < Rate(c) < Rate(b)
  {
    GainSum(a, b, c, Rate(a));
    GainSum(a, b, c, Rate(b));
    GainSign(a, Rate(a));
    GainSign(b, Rate(b));
    GainSign(b, Rate(a));
    GainSign(a, Rate(b));
    GainSign(c, Rate(a));
    GainSign(c, Rate(b));
  }
}
