/**
  Currency conversion rules of the storefront (currency.py) and the cross-border
  minimum order derived from them (api.py). Money that the source holds in
  binary floating point is an exact real here; the 1e-9 tolerance is kept.
*/
module Currency {

  const CFA_STEP: int := 50
  const TOLERANCE: real := 0.000000001

  /** A rate after the source's fallback to the live setting: always positive. */
  type Rate = r: real | r > 0.0 witness 1.0

  /** Round one F CFA amount up to the next 50 step. */
  function RoundCfa(amount: real): int
  {
    if amount <= 0.0 then 0
    else
      var steps := (amount / 50.0).Floor;
      if amount - (steps * CFA_STEP) as real > TOLERANCE
      then (steps + 1) * CFA_STEP
      else steps * CFA_STEP
  }

  /** The deprecated name: despite what it is called, it rounds up as well. */
  function FloorCfa(amount: real): int
  {
    RoundCfa(amount)
  }

  function Times(a: real, b: real): real
  {
    a * b
  }

  function ToCfa(ngn: real, rate: Rate): int
  {
    if ngn <= 0.0 then 0 else RoundCfa(Times(ngn, rate))
  }

  /** Rounding to the nearest whole number, halves to the even one. */
  function RoundHalfEven(x: real): int
  {
    var low := x.Floor;
    var rest := x - low as real;
    if rest < 0.5 then low
    else if rest > 0.5 then low + 1
    else if low % 2 == 0 then low
    else low + 1
  }

  function ToNgn(cfa: real, rate: Rate): int
  {
    if cfa <= 0.0 then 0
    else
      var n := RoundHalfEven(cfa / rate);
      if n < 0 then 0 else n
  }

  /** The CFA value of a whole Naira basket. */
  function BasketCfa(n: nat, rate: Rate): int
  {
    ToCfa(n as real, rate)
  }

  predicate IsStep(m: int)
  {
    m >= 0 && m % CFA_STEP == 0
  }

  lemma TimesOrdered(a: real, b: real, d: real)
    requires a <= b && d >= 0.0
    ensures Times(a, d) <= Times(b, d)
  {
    assert (b - a) * d >= 0.0;
  }

  lemma TimesStrict(a: real, b: real, d: real)
    requires a < b && d > 0.0
    ensures Times(a, d) < Times(b, d)
  {
    assert (b - a) * d > 0.0;
  }

  lemma QuotientBounds(x: real, d: real, q: real, low: int)
    requires d > 0.0 && Times(q, d) == x && low as real <= q < low as real + 1.0
    ensures Times(low as real, d) <= x < Times((low + 1) as real, d)
  {
    TimesOrdered(low as real, q, d);
    TimesStrict(q, (low + 1) as real, d);
  }

  lemma RealQuotient(x: real, d: real)
    requires d > 0.0
    ensures Times((x / d).Floor as real, d) <= x < Times(((x / d).Floor + 1) as real, d)
  {
    QuotientBounds(x, d, x / d, (x / d).Floor);
  }

  /**
    The rounding contract as an adjunction: the rounded amount is a clean step,
    and it stays within a step m exactly when the amount does, up to the
    tolerance. This pins RoundCfa down to one value.
  */
  lemma RoundCfaIsLeastStep(amount: real, m: int)
    requires IsStep(m)
    ensures IsStep(RoundCfa(amount))
    ensures RoundCfa(amount) <= m <==> amount - TOLERANCE <= m as real
  {
    if amount > 0.0 {
      RealQuotient(amount, 50.0);
      var steps := (amount / 50.0).Floor;
      var k := m / CFA_STEP;
      assert m == k * CFA_STEP;
      assert steps >= 0;
      if k <= steps - 1 {
        assert m <= (steps - 1) * CFA_STEP;
      } else if k >= steps + 1 {
        assert m >= (steps + 1) * CFA_STEP;
      }
    }
  }

  /** Rounding never loses money beyond the tolerance and adds less than a step. */
  lemma RoundCfaBounds(amount: real)
    requires amount >= 0.0
    ensures amount - TOLERANCE <= RoundCfa(amount) as real < amount + 50.0
  {
    RoundCfaIsLeastStep(amount, RoundCfa(amount));
    if amount > 0.0 {
      RealQuotient(amount, 50.0);
    }
  }

  lemma RoundCfaMonotone(a: real, b: real)
    requires a <= b
    ensures RoundCfa(a) <= RoundCfa(b)
  {
    RoundCfaIsLeastStep(b, RoundCfa(b));
    RoundCfaIsLeastStep(a, RoundCfa(b));
  }

  lemma RoundCfaFixesSteps(m: int)
    requires IsStep(m)
    ensures RoundCfa(m as real) == m
  {
    RoundCfaIsLeastStep(m as real, m);
    RoundCfaIsLeastStep(m as real, RoundCfa(m as real));
  }

  lemma BasketCfaIs(n: nat, rate: Rate)
    ensures BasketCfa(n, rate) == RoundCfa(Times(n as real, rate))
  {
    if n > 0 {
      assert n as real > 0.0;
    } else {
      assert Times(n as real, rate) == 0.0;
    }
  }

  lemma ToCfaMonotone(a: nat, b: nat, rate: Rate)
    requires a <= b
    ensures BasketCfa(a, rate) <= BasketCfa(b, rate)
  {
    BasketCfaIs(a, rate);
    BasketCfaIs(b, rate);
    TimesOrdered(a as real, b as real, rate);
    RoundCfaMonotone(Times(a as real, rate), Times(b as real, rate));
  }

  // ------------------------------------------------ the cross-border minimum

  /** The Naira floor derived from the CFA floor; a floor of 0 switches the rule off. */
  function BeninTogoMinNgn(rate: Rate, minCfa: int): int
  {
    if minCfa <= 0 then 0
    else
      var threshold := (minCfa - CFA_STEP) as real / rate;
      var floorNgn := threshold.Floor + 1;
      if floorNgn < 0 then 0 else floorNgn
  }

  /** The clean step just below the one that first reaches the floor. */
  function StepBelow(minCfa: int): int
  {
    (minCfa - 1) / CFA_STEP * CFA_STEP
  }

  /** n is the smallest whole Naira basket whose CFA value clears the floor. */
  ghost predicate IsLeastBasket(n: int, rate: Rate, minCfa: int)
  {
    && n >= 0
    && BasketCfa(n, rate) >= minCfa
    && forall k: nat :: k < n ==> BasketCfa(k, rate) < minCfa
  }

  /** A basket clears the floor exactly when it passes the step below, tolerance included. */
  lemma ClearsFloor(n: nat, rate: Rate, minCfa: int)
    requires minCfa > 0
    ensures BasketCfa(n, rate) >= minCfa
            <==> Times(n as real, rate) > StepBelow(minCfa) as real + TOLERANCE
  {
    var below := StepBelow(minCfa);
    assert IsStep(below) && below < minCfa <= below + CFA_STEP;
    var v := Times(n as real, rate);
    RoundCfaIsLeastStep(v, below);
    var r := RoundCfa(v);
    assert r > below <==> r >= below + CFA_STEP by {
      assert r % CFA_STEP == 0 && below % CFA_STEP == 0;
    }
    assert below >= 0 && (n == 0 ==> v == 0.0);
    if n > 0 {
      assert n as real > 0.0;
      assert BasketCfa(n, rate) == r;
    }
  }

  /** The whole numbers past a real bound are those past its floor. */
  lemma PastQuotient(n: int, bound: real, rate: Rate)
    ensures Times(n as real, rate) > bound <==> n > (bound / rate).Floor
  {
    RealQuotient(bound, rate);
    var q := (bound / rate).Floor;
    if n > q {
      TimesOrdered((q + 1) as real, n as real, rate);
    } else {
      TimesOrdered(n as real, q as real, rate);
    }
  }

  lemma LeastBasketIs(n: int, rate: Rate, minCfa: int)
    requires minCfa > 0
    ensures ((StepBelow(minCfa) as real + TOLERANCE) / rate).Floor >= 0
    ensures IsLeastBasket(n, rate, minCfa)
            <==> n == ((StepBelow(minCfa) as real + TOLERANCE) / rate).Floor + 1
  {
    var bound := StepBelow(minCfa) as real + TOLERANCE;
    var q := (bound / rate).Floor;
    assert q >= 0 by {
      PastQuotient(0, bound, rate);
    }
    forall k: nat
      ensures BasketCfa(k, rate) >= minCfa <==> k > q
    {
      ClearsFloor(k, rate, minCfa);
      PastQuotient(k, bound, rate);
    }
    assert BasketCfa(q + 1, rate) >= minCfa;
  }

  /**
    Exactly when the derived Naira floor is the least basket clearing the CFA
    floor: for every rate and every positive floor, it is so if and only if no
    whole basket falls between the two thresholds.
  */
  lemma MinimumOrderExact(rate: Rate, minCfa: int)
    requires minCfa > 0
    ensures IsLeastBasket(BeninTogoMinNgn(rate, minCfa), rate, minCfa)
            <==> ((minCfa - CFA_STEP) as real / rate).Floor
                 == ((StepBelow(minCfa) as real + TOLERANCE) / rate).Floor
  {
    LeastBasketIs(BeninTogoMinNgn(rate, minCfa), rate, minCfa);
  }

  /**
    The promise of the source: with a rate of at most four decimals and a CFA
    floor that is itself a clean step, the Naira floor is exact, and a basket is
    accepted in one currency exactly when it is accepted in the other.
  */
  lemma MinimumOrderEquivalence(rateTenThousandths: nat, minCfa: int, basket: nat)
    requires rateTenThousandths > 0
    requires minCfa >= CFA_STEP && minCfa % CFA_STEP == 0
    ensures var rate: Rate := rateTenThousandths as real / 10000.0;
            && IsLeastBasket(BeninTogoMinNgn(rate, minCfa), rate, minCfa)
            && (basket >= BeninTogoMinNgn(rate, minCfa)
                <==> BasketCfa(basket, rate) >= minCfa)
  {
    var rate: Rate := rateTenThousandths as real / 10000.0;
    var base := StepBelow(minCfa);
    assert base == minCfa - CFA_STEP;
    var q := (base as real / rate).Floor;
    var q' := ((base as real + TOLERANCE) / rate).Floor;
    PastQuotient(q, base as real, rate);
    PastQuotient(q + 1, base as real, rate);
    var product := (q + 1) * rateTenThousandths;
    assert Times((q + 1) as real, rate) == product as real / 10000.0;
    assert product > base * 10000;
    PastQuotient(q + 1, base as real + TOLERANCE, rate);
    PastQuotient(q, base as real + TOLERANCE, rate);
    assert q == q';
    MinimumOrderExact(rate, minCfa);
    LeastBasketIs(BeninTogoMinNgn(rate, minCfa), rate, minCfa);
    ClearsFloor(basket, rate, minCfa);
    PastQuotient(basket, base as real + TOLERANCE, rate);
  }

  /** A CFA floor that is not a clean step is missed: 75 CFA at rate 0.44. */
  lemma UnevenFloorIsMissed()
    ensures BeninTogoMinNgn(0.44, 75) == 57
    ensures BasketCfa(57, 0.44) == 50
    ensures IsLeastBasket(114, 0.44, 75)
  {
    assert (25.0 / 0.44).Floor == 56;
    assert (57.0 * 0.44 / 50.0).Floor == 0;
    LeastBasketIs(114, 0.44, 75);
    PastQuotient(113, 50.0 + TOLERANCE, 0.44);
    PastQuotient(114, 50.0 + TOLERANCE, 0.44);
  }
}
