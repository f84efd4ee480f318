/**
  Whole-unit ledger amounts and the accounting exchange rate (accounting.py).
  Decimals are exact here: a rate is a whole number of ten-thousandths of a
  Naira per CFA franc, and every quantisation rounds halves up.
*/
module Money {

  const AMOUNT_MAX: int := 1_000_000_000_000
  const RATE_SCALE: int := 10_000
  const LEGACY_RATE: int := 4_400
  const RATE_MAX: real := 100.0

  datatype Currency = NGN | CFA

  /** A stored whole amount as the ledger reads it: out of range reads as 0. */
  function Amount(value: int): nat
  {
    if 0 <= value <= AMOUNT_MAX then value else 0
  }

  predicate InRange(value: int)
  {
    0 <= value <= AMOUNT_MAX
  }

  /** num / den rounded to the nearest whole number, halves up. */
  function HalfUp(num: nat, den: nat): nat
    requires den > 0
  {
    (2 * num + den) / (2 * den)
  }

  /** A usable rate, in ten-thousandths. */
  type Rate = r: nat | r > 0 witness 10_000

  /** The rate the ledger locks, in ten-thousandths; a missing one is the legacy rate. */
  function SafeRate(value: real): nat
  {
    if value <= 0.0 || value > RATE_MAX then LEGACY_RATE
    else (value * 10000.0 + 0.5).Floor
  }

  function SupplierCostCfa(costNgn: int, rate: Rate): nat
  {
    HalfUp(Amount(costNgn) * RATE_SCALE, rate)
  }

  function SupplierCostNgnFromCfa(costCfa: int, rate: Rate): nat
  {
    HalfUp(Amount(costCfa) * rate, RATE_SCALE)
  }

  /** A rate can be divided by unless it is positive and below half a ten-thousandth. */
  lemma SafeRateUsable(value: real)
    ensures SafeRate(value) == 0 <==> 0.0 < value < 0.00005
    ensures SafeRate(value) <= 1_000_000
  {
  }

  /** Rounding halves up, stated without division. */
  lemma HalfUpIs(num: nat, den: nat, q: nat)
    requires den > 0
    ensures q == HalfUp(num, den) <==> 2 * q * den <= 2 * num + den < 2 * (q + 1) * den
  {
    var d, x := 2 * den, 2 * num + den;
    assert 2 * q * den == q * d && 2 * (q + 1) * den == (q + 1) * d;
    var h := x / d;
    assert x == h * d + x % d;
    if q * d <= x < (q + 1) * d {
      if q < h {
        assert (q + 1) * d <= h * d by { ProductOrdered(q + 1, h, d); }
      } else if q > h {
        assert (h + 1) * d <= q * d by { ProductOrdered(h + 1, q, d); }
      }
    }
  }

  lemma ProductOrdered(a: int, b: int, d: nat)
    requires a <= b
    ensures a * d <= b * d
  {
    assert (b - a) * d >= 0;
  }

  /** The rounding error of a conversion by num / den, kept linear in the products. */
  lemma HalfUpError(num: nat, den: nat, product: int)
    requires den > 0 && product == HalfUp(num, den) * den
    ensures 2 * product <= 2 * num + den && 2 * num < 2 * product + den
  {
    var q := HalfUp(num, den);
    HalfUpIs(num, den, q);
    assert 2 * q * den == 2 * product;
    assert 2 * (q + 1) * den == 2 * product + 2 * den;
  }

  lemma HalfUpFrom(num: nat, den: nat, q: nat, product: int)
    requires den > 0 && product == q * den
    requires 2 * product <= 2 * num + den && 2 * num < 2 * product + den
    ensures HalfUp(num, den) == q
  {
    HalfUpIs(num, den, q);
    assert 2 * q * den == 2 * product;
    assert 2 * (q + 1) * den == 2 * product + 2 * den;
  }

  lemma UnitRate(amount: nat)
    ensures HalfUp(amount * RATE_SCALE, RATE_SCALE) == amount
  {
    HalfUpFrom(amount * RATE_SCALE, RATE_SCALE, amount, amount * RATE_SCALE);
  }

  lemma NonZeroAmount(amount: nat, rate: Rate)
    requires HalfUp(amount * RATE_SCALE, rate) > 0
    ensures amount > 0
  {
    if amount == 0 {
      HalfUpFrom(0, rate, 0, 0);
    }
  }

  /** Naira to CFA and back below one Naira per franc: exact unless the franc figure is clamped. */
  lemma NgnRoundTripExact(ngn: nat, rate: Rate)
    requires ngn <= AMOUNT_MAX && rate <= RATE_SCALE
    ensures var cfa := SupplierCostCfa(ngn, rate);
            SupplierCostNgnFromCfa(cfa, rate) == ngn <==> cfa <= AMOUNT_MAX
  {
    var cfa := SupplierCostCfa(ngn, rate);
    var x := cfa * rate;
    HalfUpError(ngn * RATE_SCALE, rate, x);
    if cfa > AMOUNT_MAX {
      NonZeroAmount(ngn, rate);
      HalfUpFrom(0, RATE_SCALE, 0, 0);
    } else if rate == RATE_SCALE {
      UnitRate(ngn);
    } else {
      HalfUpFrom(x, RATE_SCALE, ngn, ngn * RATE_SCALE);
    }
  }

  /** Above one Naira per franc the trip is off by at most (rate + 1) / 2, and never clamped. */
  lemma NgnRoundTripBound(ngn: nat, rate: Rate)
    requires ngn <= AMOUNT_MAX && rate > RATE_SCALE
    ensures var cfa := SupplierCostCfa(ngn, rate);
            var back := SupplierCostNgnFromCfa(cfa, rate);
            && cfa <= ngn
            && 2 * RATE_SCALE * (back - ngn) <= rate + RATE_SCALE
            && 2 * RATE_SCALE * (ngn - back) <= rate + RATE_SCALE
  {
    var cfa := SupplierCostCfa(ngn, rate);
    CfaWithinNgn(ngn, rate);
    var x := cfa * rate;
    HalfUpError(ngn * RATE_SCALE, rate, x);
    HalfUpError(x, RATE_SCALE, SupplierCostNgnFromCfa(cfa, rate) * RATE_SCALE);
  }

  lemma CfaWithinNgn(ngn: nat, rate: Rate)
    requires rate >= RATE_SCALE && ngn <= AMOUNT_MAX
    ensures SupplierCostCfa(ngn, rate) <= ngn
  {
    var cfa := SupplierCostCfa(ngn, rate);
    var x := cfa * rate;
    HalfUpError(ngn * RATE_SCALE, rate, x);
    ProductOrdered(RATE_SCALE, rate, ngn);
    assert (ngn + 1) * rate == ngn * rate + rate;
    if cfa > ngn {
      ProductOrdered(ngn + 1, cfa, rate);
    }
  }

  /** CFA to Naira and back is exact from one Naira per franc up, within range. */
  lemma CfaRoundTrip(cfa: nat, rate: Rate)
    requires cfa <= AMOUNT_MAX && rate >= RATE_SCALE
    ensures var ngn := SupplierCostNgnFromCfa(cfa, rate);
            SupplierCostCfa(ngn, rate) == cfa <==> ngn <= AMOUNT_MAX
  {
    var ngn := SupplierCostNgnFromCfa(cfa, rate);
    var x := cfa * rate;
    HalfUpError(x, RATE_SCALE, ngn * RATE_SCALE);
    if ngn > AMOUNT_MAX {
      HalfUpFrom(0, rate, 0, 0);
    } else if rate == RATE_SCALE {
      UnitRate(cfa);
    } else {
      HalfUpFrom(ngn * RATE_SCALE, rate, cfa, x);
    }
  }

  /** The clamp at work: two hundred billion Naira at rate 0.1 does not come back. */
  lemma RoundTripOutOfRange()
    ensures SupplierCostCfa(200_000_000_000, 1_000) == 2_000_000_000_000
    ensures SupplierCostNgnFromCfa(2_000_000_000_000, 1_000) == 0
  {
  }
}
