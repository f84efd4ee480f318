/**
  What a checkout line costs (api.py, catalog.py, growth.py): the authoritative
  unit price, the bulk discount and the promotion on the whole order.
*/
module Pricing {
  import opened Currency
  import opened Wrappers
  import Money

  /** A percentage the shop can configure. */
  type Percent = p: nat | p <= 90

  datatype Override = Override(name: string, ngn: nat)

  datatype Tier = Tier(minQuantity: nat, percent: Percent)

  /**
    The priced side of a product row. readings lists, for a variant spelling,
    the folded option names it may be read as, the preferred one first.
  */
  datatype PriceTag = PriceTag(ngn: nat, cfa: nat, overrides: seq<Override>,
                               readings: map<string, seq<string>>, bulkQty: nat, bulkPercent: Percent)

  datatype Settings = Settings(rate: Rate, promosOn: bool, tiers: seq<Tier>)

  // -------------------------------------------------------------------- unit price

  /** The price an option name overrides to; a repeated name keeps its last price. */
  function Named(overrides: seq<Override>, name: string): Option<nat>
  {
    var n := |overrides|;
    if n == 0 then None
    else if overrides[n - 1].name == name then Some(overrides[n - 1].ngn)
    else Named(overrides[..n - 1], name)
  }

  predicate NamesNone(tag: PriceTag, names: seq<string>)
  {
    forall i :: 0 <= i < |names| ==> Named(tag.overrides, names[i]).None?
  }

  function Readings(tag: PriceTag, variant: string): seq<string>
  {
    if variant in tag.readings then tag.readings[variant] else []
  }

  /** The override a variant selects is the one its first readable name has. */
  predicate Selects(tag: PriceTag, variant: string, price: nat)
  {
    && variant in tag.readings
    && var names := tag.readings[variant];
       exists i :: 0 <= i < |names| && Named(tag.overrides, names[i]) == Some(price) && NamesNone(tag, names[..i])
  }

  predicate SelectsNothing(tag: PriceTag, variant: string)
  {
    variant in tag.readings ==> NamesNone(tag, tag.readings[variant])
  }

  function FirstNamed(tag: PriceTag, names: seq<string>): Option<nat>
  {
    if |names| == 0 then None
    else if Named(tag.overrides, names[0]).Some? then Named(tag.overrides, names[0])
    else FirstNamed(tag, names[1..])
  }

  /** The smallest positive override, or 0. */
  function Cheapest(overrides: seq<Override>): nat
  {
    var n := |overrides|;
    if n == 0 then 0
    else
      var rest := Cheapest(overrides[..n - 1]);
      var last := overrides[n - 1].ngn;
      if last > 0 && (rest == 0 || last < rest) then last else rest
  }

  function NairaToCfa(ngn: nat, rate: Rate): int
  {
    ToCfa(ngn as real, rate)
  }

  /** A Naira and a CFA price, as read from the row, an override or the cheapest override. */
  function BasePrices(tag: PriceTag, variant: string, rate: Rate): (nat, int)
  {
    var chosen := FirstNamed(tag, Readings(tag, variant));
    var (ngn, cfa) := if variant != "" && chosen.Some?
                      then (chosen.value, NairaToCfa(chosen.value, rate)) else (tag.ngn, tag.cfa);
    if ngn == 0 && cfa == 0 && Cheapest(tag.overrides) > 0
    then (Cheapest(tag.overrides), NairaToCfa(Cheapest(tag.overrides), rate))
    else (ngn, cfa)
  }

  function UnitPriceOf(tag: PriceTag, currency: Money.Currency, variant: string, rate: Rate): int
  {
    var (ngn, cfa) := BasePrices(tag, variant, rate);
    match currency
    case CFA => if cfa != 0 then RoundCfa(cfa as real) else NairaToCfa(ngn, rate)
    case NGN => if ngn != 0 then ngn else ToNgn(cfa as real, rate)
  }

  /** The server's unit price: the browser's price is not an input. */
  method UnitPrice(tag: PriceTag, currency: Money.Currency, variant: string, rate: Rate) returns (unit: int)
    ensures unit == UnitPriceOf(tag, currency, variant, rate)
  {
    var ngn, cfa := tag.ngn, tag.cfa;
    if variant != "" {
      var names := Readings(tag, variant);
      var i := 0;
      while i < |names| && Named(tag.overrides, names[i]).None?
        invariant 0 <= i <= |names|
        invariant FirstNamed(tag, names) == FirstNamed(tag, names[i..])
      {
        i := i + 1;
      }
      if i < |names| {
        ngn := Named(tag.overrides, names[i]).value;
        cfa := NairaToCfa(ngn, rate);
      }
    }
    if ngn == 0 && cfa == 0 {
      var least := 0;
      for i := 0 to |tag.overrides|
        invariant least == Cheapest(tag.overrides[..i])
      {
        assert tag.overrides[..i + 1][..i] == tag.overrides[..i];
        var value := tag.overrides[i].ngn;
        if value > 0 && (least == 0 || value < least) {
          least := value;
        }
      }
      assert tag.overrides[..|tag.overrides|] == tag.overrides;
      if least > 0 {
        ngn := least;
        cfa := NairaToCfa(ngn, rate);
      }
    }
    if currency == Money.CFA {
      unit := if cfa != 0 then RoundCfa(cfa as real) else NairaToCfa(ngn, rate);
    } else {
      unit := if ngn != 0 then ngn else ToNgn(cfa as real, rate);
    }
  }

  predicate IsLast(overrides: seq<Override>, name: string, k: int)
  {
    && 0 <= k < |overrides| && overrides[k].name == name
    && forall j :: k < j < |overrides| ==> overrides[j].name != name
  }

  /** Of several overrides of one name the last counts. */
  lemma {:induction false} NamedIs(overrides: seq<Override>, name: string)
    ensures Named(overrides, name).None? <==> forall k :: 0 <= k < |overrides| ==> overrides[k].name != name
    ensures forall k :: IsLast(overrides, name, k) ==> Named(overrides, name) == Some(overrides[k].ngn)
  {
    if |overrides| > 0 {
      var front := overrides[..|overrides| - 1];
      NamedIs(front, name);
      forall k | IsLast(overrides, name, k) ensures k == |front| || IsLast(front, name, k) {
        assert forall j :: 0 <= j < |front| ==> front[j] == overrides[j];
      }
    }
  }

  lemma {:induction false} FirstNamedIs(tag: PriceTag, names: seq<string>, price: nat)
    ensures FirstNamed(tag, names) == Some(price)
            <==> exists i :: 0 <= i < |names| && Named(tag.overrides, names[i]) == Some(price)
                             && NamesNone(tag, names[..i])
    ensures FirstNamed(tag, names).None? <==> NamesNone(tag, names)
  {
    if |names| > 0 {
      var rest := names[1..];
      FirstNamedIs(tag, rest, price);
      if Named(tag.overrides, names[0]).None? {
        forall i | 0 <= i < |rest|
          ensures NamesNone(tag, names[..i + 1]) <==> NamesNone(tag, rest[..i])
        {
          assert names[..i + 1] == [names[0]] + rest[..i];
        }
        if i :| 0 <= i < |rest| && Named(tag.overrides, rest[i]) == Some(price) && NamesNone(tag, rest[..i]) {
          assert names[i + 1] == rest[i];
        }
        if i :| 0 <= i < |names| && Named(tag.overrides, names[i]) == Some(price) && NamesNone(tag, names[..i]) {
          assert i > 0 && rest[i - 1] == names[i];
          assert NamesNone(tag, names[..(i - 1) + 1]);
        }
        assert FirstNamed(tag, names) == FirstNamed(tag, rest);
        assert NamesNone(tag, names) <==> NamesNone(tag, rest) by {
          assert names == [names[0]] + rest;
        }
      } else {
        assert names[..0] == [];
        forall i | 1 <= i < |names| ensures !NamesNone(tag, names[..i]) {
          assert names[..i][0] == names[0];
        }
      }
    }
  }

  lemma {:induction false} CheapestIs(overrides: seq<Override>)
    ensures forall i :: 0 <= i < |overrides| && overrides[i].ngn > 0 ==>
              0 < Cheapest(overrides) <= overrides[i].ngn
    ensures Cheapest(overrides) > 0 ==>
              exists i :: 0 <= i < |overrides| && overrides[i].ngn == Cheapest(overrides)
  {
    var n := |overrides|;
    if n > 0 {
      var front := overrides[..n - 1];
      CheapestIs(front);
      forall i | 0 <= i < n - 1 && overrides[i].ngn > 0
        ensures 0 < Cheapest(overrides) <= overrides[i].ngn
      {
        assert front[i] == overrides[i];
      }
    }
  }

  /**
    What a Naira shopper pays for one unit: the override of the first name that
    has one, else the row's price, else the cheapest override.
  */
  lemma NairaUnitPrice(tag: PriceTag, variant: string, rate: Rate, price: nat)
    ensures variant != "" && Selects(tag, variant, price) && price > 0 ==>
              UnitPriceOf(tag, Money.NGN, variant, rate) == price
    ensures (variant == "" || SelectsNothing(tag, variant)) && tag.ngn > 0 ==>
              UnitPriceOf(tag, Money.NGN, variant, rate) == tag.ngn
    ensures (variant == "" || SelectsNothing(tag, variant)) && tag.ngn == 0 && tag.cfa > 0 ==>
              UnitPriceOf(tag, Money.NGN, variant, rate) == ToNgn(tag.cfa as real, rate)
    ensures (variant == "" || SelectsNothing(tag, variant)) && tag.ngn == 0 && tag.cfa == 0 ==>
              UnitPriceOf(tag, Money.NGN, variant, rate) == Cheapest(tag.overrides)
    ensures variant != "" && Selects(tag, variant, 0) ==>
              UnitPriceOf(tag, Money.NGN, variant, rate) == Cheapest(tag.overrides)
  {
    FirstNamedIs(tag, Readings(tag, variant), price);
    FirstNamedIs(tag, Readings(tag, variant), 0);
  }

  /**
    What a CFA shopper pays for one unit: the converted override, else the row's
    own CFA price rounded up to a step, else its converted Naira price.
  */
  lemma CfaUnitPrice(tag: PriceTag, variant: string, rate: Rate, price: nat)
    ensures variant != "" && Selects(tag, variant, price) && price > 0 ==>
              UnitPriceOf(tag, Money.CFA, variant, rate) == NairaToCfa(price, rate)
    ensures (variant == "" || SelectsNothing(tag, variant)) && tag.cfa > 0 ==>
              tag.cfa <= UnitPriceOf(tag, Money.CFA, variant, rate) < tag.cfa + 50
    ensures (variant == "" || SelectsNothing(tag, variant)) && tag.cfa == 0 && tag.ngn > 0 ==>
              UnitPriceOf(tag, Money.CFA, variant, rate) == NairaToCfa(tag.ngn, rate)
  {
    FirstNamedIs(tag, Readings(tag, variant), price);
    ToCfaIsStep(price, rate);
    RoundCfaFixesSteps(NairaToCfa(price, rate));
    RoundCfaBounds(tag.cfa as real);
  }

  lemma ToCfaIsStep(ngn: nat, rate: Rate)
    ensures IsStep(NairaToCfa(ngn, rate))
  {
    if ngn > 0 {
      RoundCfaIsLeastStep(Times(ngn as real, rate), 0);
    }
  }

  /** Whatever the row, the override and the rate, a CFA unit price is a clean step. */
  lemma CfaUnitIsStep(tag: PriceTag, variant: string, rate: Rate)
    ensures IsStep(UnitPriceOf(tag, Money.CFA, variant, rate))
  {
    var (ngn, cfa) := BasePrices(tag, variant, rate);
    RoundCfaIsLeastStep(cfa as real, 0);
    ToCfaIsStep(ngn, rate);
  }

  lemma UnitPriceNonNegative(tag: PriceTag, currency: Money.Currency, variant: string, rate: Rate)
    ensures UnitPriceOf(tag, currency, variant, rate) >= 0
  {
    CfaUnitIsStep(tag, variant, rate);
  }

  // ----------------------------------------------------------------- bulk discount

  /** The last tier reached; the tiers are listed by rising quantity. */
  function TierPercent(tiers: seq<Tier>, quantity: nat): Percent
  {
    var n := |tiers|;
    if n == 0 then 0
    else if quantity >= tiers[n - 1].minQuantity then tiers[n - 1].percent
    else TierPercent(tiers[..n - 1], quantity)
  }

  /** With the tiers in rising order, the percentage is that of the highest one reached. */
  lemma {:induction false} HighestTierCounts(tiers: seq<Tier>, quantity: nat, i: nat)
    requires forall a, b :: 0 <= a < b < |tiers| ==> tiers[a].minQuantity < tiers[b].minQuantity
    ensures i < |tiers| && tiers[i].minQuantity <= quantity
            && (i + 1 < |tiers| ==> quantity < tiers[i + 1].minQuantity) ==>
              TierPercent(tiers, quantity) == tiers[i].percent
    ensures |tiers| > 0 && quantity < tiers[0].minQuantity ==> TierPercent(tiers, quantity) == 0
  {
    var n := |tiers|;
    if n > 0 && quantity < tiers[n - 1].minQuantity {
      HighestTierCounts(tiers[..n - 1], quantity, i);
    }
  }

  function BulkPercent(tag: PriceTag, settings: Settings, quantity: nat): Percent
  {
    if !settings.promosOn || quantity == 0 then 0
    else if tag.bulkQty > 0 && tag.bulkPercent > 0
    then if quantity > tag.bulkQty then tag.bulkPercent else 0
    else TierPercent(settings.tiers, quantity)
  }

  /** Tiers as the settings keep them: sorted, each of some quantity and giving something. */
  predicate Rising(tiers: seq<Tier>)
  {
    && (forall i :: 0 <= i < |tiers| ==> tiers[i].percent > 0 && tiers[i].minQuantity > 0)
    && (forall a, b :: 0 <= a < b < |tiers| ==> tiers[a].minQuantity < tiers[b].minQuantity)
  }

  predicate OwnRule(tag: PriceTag)
  {
    tag.bulkQty > 0 && tag.bulkPercent > 0
  }

  /**
    Where bulk discounts start: with a product's own rule at one unit more than its
    quantity, whatever the shop's tiers are; else at the quantity of the first tier
    that gives any. With promotions off they never do.
  */
  lemma BulkStartsAt(tag: PriceTag, settings: Settings, quantity: nat)
    requires Rising(settings.tiers)
    ensures !settings.promosOn ==> BulkPercent(tag, settings, quantity) == 0
    ensures settings.promosOn && OwnRule(tag) ==>
              && (BulkPercent(tag, settings, quantity) > 0 <==> quantity >= tag.bulkQty + 1)
              && BulkPercent(tag, settings, quantity) in {0, tag.bulkPercent}
    ensures settings.promosOn && !OwnRule(tag) ==>
              && (BulkPercent(tag, settings, quantity) > 0
                  <==> |settings.tiers| > 0 && quantity >= settings.tiers[0].minQuantity)
              && BulkPercent(tag, settings, quantity) == TierPercent(settings.tiers, quantity)
  {
    TierFrom(settings.tiers, quantity);
  }

  lemma {:induction false} TierFrom(tiers: seq<Tier>, quantity: nat)
    requires Rising(tiers)
    ensures TierPercent(tiers, quantity) > 0 <==> |tiers| > 0 && quantity >= tiers[0].minQuantity
    ensures quantity == 0 ==> TierPercent(tiers, quantity) == 0
  {
    if |tiers| > 0 {
      TierFrom(tiers[..|tiers| - 1], quantity);
    }
  }

  function Discounted(unit: int, percent: Percent): int
  {
    RoundHalfEven((unit * (100 - percent)) as real / 100.0)
  }

  /** What one unit costs when so many of its product are bought. */
  function PayUnit(tag: PriceTag, settings: Settings, currency: Money.Currency, variant: string, quantity: nat): int
  {
    var unit := UnitPriceOf(tag, currency, variant, settings.rate);
    var percent := BulkPercent(tag, settings, quantity);
    if percent == 0 then unit
    else if currency == Money.CFA then RoundCfa(Discounted(unit, percent) as real)
    else Discounted(unit, percent)
  }

  lemma CfaPayUnitIsStep(tag: PriceTag, settings: Settings, variant: string, quantity: nat)
    ensures IsStep(PayUnit(tag, settings, Money.CFA, variant, quantity))
  {
    CfaUnitIsStep(tag, variant, settings.rate);
    var unit := UnitPriceOf(tag, Money.CFA, variant, settings.rate);
    RoundCfaIsLeastStep(Discounted(unit, BulkPercent(tag, settings, quantity)) as real, 0);
  }

  lemma RoundHalfEvenBounds(x: real)
    ensures x - 0.5 <= RoundHalfEven(x) as real <= x + 0.5
  {
  }

  lemma DiscountedBounds(unit: nat, percent: Percent)
    ensures 0 <= Discounted(unit, percent) <= unit
  {
    var kept := unit * (100 - percent);
    assert 0 <= kept <= unit * 100;
    var x := kept as real / 100.0;
    assert 0.0 <= x <= unit as real;
    RoundHalfEvenBounds(x);
  }

  /** A bulk discount never raises a unit price, not even through the CFA rounding. */
  lemma BulkNeverCostsMore(tag: PriceTag, settings: Settings, currency: Money.Currency, variant: string, quantity: nat)
    ensures 0 <= PayUnit(tag, settings, currency, variant, quantity)
              <= UnitPriceOf(tag, currency, variant, settings.rate)
  {
    UnitPriceNonNegative(tag, currency, variant, settings.rate);
    var unit := UnitPriceOf(tag, currency, variant, settings.rate);
    var percent := BulkPercent(tag, settings, quantity);
    DiscountedBounds(unit, percent);
    if currency == Money.CFA {
      CfaUnitIsStep(tag, variant, settings.rate);
      RoundCfaIsLeastStep(Discounted(unit, percent) as real, unit);
      CfaPayUnitIsStep(tag, settings, variant, quantity);
    }
  }

  /** A bulk discount gives its percentage to the nearest Naira, and to within a step in CFA. */
  lemma BulkGivesItsPercentage(tag: PriceTag, settings: Settings, variant: string, quantity: nat)
    ensures var unit := UnitPriceOf(tag, Money.NGN, variant, settings.rate);
            var kept := unit * (100 - BulkPercent(tag, settings, quantity));
            kept - 50 <= 100 * PayUnit(tag, settings, Money.NGN, variant, quantity) <= kept + 50
    ensures var unit := UnitPriceOf(tag, Money.CFA, variant, settings.rate);
            var kept := unit * (100 - BulkPercent(tag, settings, quantity));
            kept - 50 <= 100 * PayUnit(tag, settings, Money.CFA, variant, quantity) < kept + 50 + 5000
  {
    DiscountIsNear(UnitPriceOf(tag, Money.NGN, variant, settings.rate), BulkPercent(tag, settings, quantity));
    UnitPriceNonNegative(tag, Money.CFA, variant, settings.rate);
    var unit, percent := UnitPriceOf(tag, Money.CFA, variant, settings.rate), BulkPercent(tag, settings, quantity);
    DiscountIsNear(unit, percent);
    DiscountedBounds(unit, percent);
    RoundCfaBounds(Discounted(unit, percent) as real);
  }

  lemma DiscountIsNear(unit: int, percent: Percent)
    ensures unit * (100 - percent) - 50 <= 100 * Discounted(unit, percent) <= unit * (100 - percent) + 50
  {
    RoundHalfEvenBounds((unit * (100 - percent)) as real / 100.0);
  }

  // ---------------------------------------------------------------------- promotion

  /** What the code promises off. */
  function Promised(subtotal: nat, percent: Percent): int
  {
    RoundHalfEven((subtotal * percent) as real / 100.0)
  }

  function Promotion(subtotal: nat, percent: Percent, currency: Money.Currency): (int, int)
  {
    var discount := Promised(subtotal, percent);
    var total := if subtotal >= discount then subtotal - discount else 0;
    match currency
    case NGN => (discount, total)
    case CFA =>
      var clean := FloorCfa(total as real);
      (if subtotal >= clean then subtotal - clean else 0, clean)
  }

  /**
    An order keeps its books through a promotion: subtotal = discount + total. In
    CFA the total stays a clean step and the shopper loses less than one step of
    what was promised, and keeps all of it exactly when the promised total was a
    clean step already. The comment beside the code promises it always.
  */
  lemma PromisedWithin(subtotal: nat, percent: Percent)
    ensures 0 <= Promised(subtotal, percent) <= subtotal
  {
    Money.ProductOrdered(0, percent, subtotal);
    Money.ProductOrdered(percent, 100, subtotal);
    RoundHalfEvenBounds((subtotal * percent) as real / 100.0);
  }

  lemma PromotionKeepsBooks(subtotal: nat, percent: Percent, currency: Money.Currency)
    requires currency == Money.CFA ==> IsStep(subtotal)
    ensures var (discount, total) := Promotion(subtotal, percent, currency);
            var promised := Promised(subtotal, percent);
            && subtotal == discount + total
            && 0 <= discount <= promised <= subtotal
            && promised - discount < CFA_STEP
            && (currency == Money.CFA ==> IsStep(total))
            && (discount == promised <==> currency == Money.NGN || IsStep(subtotal - promised))
  {
    var promised := Promised(subtotal, percent);
    PromisedWithin(subtotal, percent);
    if currency == Money.CFA {
      var total := subtotal - promised;
      RoundCfaIsLeastStep(total as real, subtotal);
      RoundCfaBounds(total as real);
      if IsStep(total) {
        RoundCfaFixesSteps(total);
      }
    }
  }

  /** 10% off 250 CFA promises 25, and the rounded total gives nothing back. */
  lemma PromotionCanRoundAway()
    ensures Promised(250, 10) == 25 && Promotion(250, 10, Money.CFA) == (0, 250)
    ensures !(Promotion(250, 10, Money.CFA).0 >= Promised(250, 10))
  {
    var promised := Promised(250, 10);
    assert ((250 * 10) as real / 100.0).Floor == 25;
    RoundCfaIsLeastStep(225.0, 200);
    RoundCfaIsLeastStep(225.0, 250);
  }
}
