/**
  Which shelves an accepted cart leaves in order (api.py): options always, totals
  only where neither the two spellings of a product without options nor several of
  its options add up to more than there is.
*/
module Overdraw {
  import opened Basics
  import opened Sums
  import opened Wrappers
  import opened Stock
  import opened Cart
  import opened Orderings
  import opened Acceptance

  function Spelled(id: string, variant: string): Key -> int
  {
    (k: Key) => if k.id == id && k.variant == variant then 1 else 0
  }

  function OfOption(product: Product, id: string, option: string): Key -> int
  {
    (k: Key) => if k.id == id && ResolveOption(product, k.variant) == Some(option) then 1 else 0
  }

  /** A line of this spelling means units of the product that exist: of the whole of it, or of one of its options. */
  predicate Draws(product: Product, variant: string)
  {
    if Optionless(product) then variant == "" || variant == WHOLE else ResolveOption(product, variant).Some?
  }

  function OfTotal(product: Product, id: string): Key -> int
  {
    (k: Key) => if k.id == id && Draws(product, k.variant) then 1 else 0
  }

  /** No option is asked for more than it has. */
  predicate KeepsOptions(cat: Catalogue, lines: seq<Line>)
  {
    forall id, option :: id in cat.products && option in cat.products[id].optionStock ==>
      Weight(OfOption(cat.products[id], id, option), lines)
        <= Least(cat.products[id].optionStock[option], cat.products[id].stock)
  }

  /** No product is asked for more than it has, its spellings and its options together. */
  predicate KeepsTotals(cat: Catalogue, lines: seq<Line>)
  {
    forall id :: id in cat.products ==> Weight(OfTotal(cat.products[id], id), lines) <= cat.products[id].stock
  }

  lemma {:induction false} WeightOrdered(w: Key -> int, v: Key -> int, lines: seq<Line>)
    requires forall i :: 0 <= i < |lines| ==> w(lines[i].key) <= v(lines[i].key)
    ensures Weight(w, lines) <= Weight(v, lines)
  {
    if |lines| > 0 {
      var front, last := lines[..|lines| - 1], lines[|lines| - 1];
      forall i | 0 <= i < |front| ensures w(front[i].key) <= v(front[i].key) {
        assert front[i] == lines[i];
      }
      WeightOrdered(w, v, front);
      ScaledOrdered(w(last.key), v(last.key), last.qty);
    }
  }

  lemma ScaledOrdered(a: int, b: int, q: nat)
    requires a <= b
    ensures Scaled(a, q) <= Scaled(b, q)
  {
    assert (b - a) * q >= 0;
  }

  lemma {:induction false} WeightNone(w: Key -> int, lines: seq<Line>)
    requires forall i :: 0 <= i < |lines| ==> w(lines[i].key) == 0
    ensures Weight(w, lines) == 0
  {
    if |lines| > 0 {
      var front, last := lines[..|lines| - 1], lines[|lines| - 1];
      forall i | 0 <= i < |front| ensures w(front[i].key) == 0 {
        assert front[i] == lines[i];
      }
      WeightNone(w, front);
      ScaledByOneOrNone(last.qty);
    }
  }

  /** The first line of an accepted line's shelf decides it, and it fits. */
  lemma LeaderFits(cat: Catalogue, lines: seq<Line>, i: nat) returns (h: nat)
    requires Accepted(cat, lines) && i < |lines|
    ensures h < |lines| && LineFits(cat, lines, lines[h].key)
    ensures KeyOnSale(cat, lines[i].key) && lines[h].key.id == lines[i].key.id
    ensures ShelfOf(cat, lines[h].key) == ShelfOf(cat, lines[i].key)
  {
    AcceptedIff(cat, lines);
    JudgeIsSensible(cat, lines);
    h := LeaderOf(JudgeOf(cat, lines), lines, i);
    assert Clears(JudgeOf(cat, lines), lines, i) && Clears(JudgeOf(cat, lines), lines, h);
  }

  /** Whatever the names: an accepted cart asks no option for more than it has. */
  lemma AcceptedKeepsOptions(cat: Catalogue, lines: seq<Line>)
    requires Accepted(cat, lines)
    ensures KeepsOptions(cat, lines)
  {
    forall id, option | id in cat.products && option in cat.products[id].optionStock
      ensures Weight(OfOption(cat.products[id], id, option), lines)
              <= Least(cat.products[id].optionStock[option], cat.products[id].stock)
    {
      OptionKept(cat, lines, id, option);
    }
  }

  lemma OptionKept(cat: Catalogue, lines: seq<Line>, id: string, option: string)
    requires Accepted(cat, lines) && id in cat.products && option in cat.products[id].optionStock
    ensures Weight(OfOption(cat.products[id], id, option), lines)
            <= Least(cat.products[id].optionStock[option], cat.products[id].stock)
  {
    var product := cat.products[id];
    var w := OfOption(product, id, option);
    if i :| 0 <= i < |lines| && lines[i].key.id == id && ResolveOption(product, lines[i].key.variant) == Some(option) {
      var h := LeaderFits(cat, lines, i);
      var shelf := Shelf(id, option);
      assert ShelfOf(cat, lines[h].key) == shelf;
      OptionShelfLimit(product, lines[h].key.variant);
      forall k | 0 <= k < |lines| ensures w(lines[k].key) <= OfShelf(cat, shelf)(lines[k].key) {
      }
      WeightOrdered(w, OfShelf(cat, shelf), lines);
    } else {
      WeightNone(w, lines);
    }
  }

  /** With options in stock only a resolved spelling has any availability, its option's and the total's. */
  lemma OptionShelfLimit(product: Product, variant: string)
    requires product.optionStock != map[] && Available(product, variant) > 0
    ensures var option := ResolveOption(product, variant);
            option.Some? && Available(product, variant) == Least(product.optionStock[option.value], product.stock)
  {
  }

  /** Each spelling by itself asks a product without options for no more than it has. */
  lemma SpellingKept(cat: Catalogue, lines: seq<Line>, id: string, variant: string)
    requires Accepted(cat, lines) && id in cat.products && Optionless(cat.products[id])
    requires variant == "" || variant == WHOLE
    ensures Weight(Spelled(id, variant), lines) <= cat.products[id].stock
    ensures (exists i :: 0 <= i < |lines| && lines[i].key.id == id && lines[i].key.variant == variant) ==>
              cat.products[id].online && !cat.products[id].locked && cat.products[id].stock > 0
  {
    var w := Spelled(id, variant);
    if i :| 0 <= i < |lines| && lines[i].key.id == id && lines[i].key.variant == variant {
      var h := LeaderFits(cat, lines, i);
      var shelf := ShelfOf(cat, lines[i].key);
      SpellingOfShelf(cat, lines[h].key, lines[i].key);
      forall k | 0 <= k < |lines| ensures w(lines[k].key) <= OfShelf(cat, shelf)(lines[k].key) {
      }
      WeightOrdered(w, OfShelf(cat, shelf), lines);
    } else {
      WeightNone(w, lines);
    }
  }

  /** Without options, a line that has any availability is spelled as its shelf is. */
  lemma SpellingOfShelf(cat: Catalogue, leader: Key, key: Key)
    requires leader.id == key.id && key.id in cat.products && Optionless(cat.products[key.id])
    requires ShelfOf(cat, leader) == ShelfOf(cat, key) && (key.variant == "" || key.variant == WHOLE)
    requires Available(cat.products[key.id], leader.variant) > 0
    ensures leader.variant == key.variant && !cat.products[key.id].locked
    ensures Available(cat.products[key.id], leader.variant) == cat.products[key.id].stock
  {
    var product := cat.products[key.id];
    assert ResolveOption(product, leader.variant).None? && ResolveOption(product, key.variant).None?;
    assert leader.variant == "" || leader.variant == WHOLE;
    PoolNamesApart(WHOLE);
  }

  lemma {:induction false} WholeIsBothSpellings(product: Product, lines: seq<Line>, id: string)
    requires Optionless(product)
    ensures Weight(OfTotal(product, id), lines) == Weight(Spelled(id, ""), lines) + Weight(Spelled(id, WHOLE), lines)
  {
    if |lines| > 0 {
      WholeIsBothSpellings(product, lines[..|lines| - 1], id);
      ScaledByOneOrNone(lines[|lines| - 1].qty);
    }
  }

  // ------------------------------------------------------ which lines admit an overdraft

  predicate Uses(lines: seq<Line>, keys: set<Key>)
  {
    forall i :: 0 <= i < |lines| ==> lines[i].key in keys
  }

  predicate Open(cat: Catalogue, id: string)
  {
    id in cat.products && cat.products[id].online && !cat.products[id].locked
  }

  /** A product without options, on sale and in stock, is named by both of its spellings. */
  predicate BothSpellings(cat: Catalogue, keys: set<Key>, blank: Key, literal: Key)
  {
    && blank in keys && literal in keys && blank.id == literal.id && blank.variant == "" && literal.variant == WHOLE
    && Open(cat, blank.id) && Optionless(cat.products[blank.id]) && cat.products[blank.id].stock > 0
  }

  /** Some of the keys names this option of the product. */
  predicate Names(product: Product, id: string, keys: set<Key>, option: string)
  {
    exists k :: k in keys && k.id == id && ResolveOption(product, k.variant) == Some(option)
  }

  /** What each option that the keys name may be asked for at most. */
  function Limits(product: Product, id: string, keys: set<Key>): map<string, int>
  {
    map option | option in product.optionStock && Names(product, id, keys, option) ::
      Least(product.optionStock[option], product.stock)
  }

  /** The named options of a product on sale can be asked for more together than the product has. */
  ghost predicate OptionsExceed(cat: Catalogue, keys: set<Key>, id: string)
  {
    Open(cat, id) && SumMap(Limits(cat.products[id], id, keys)) > cat.products[id].stock
  }

  /**
    Exactly when the cart check lets a shelf be overdrawn: the keys of a cart admit
    an accepted cart that asks some product or option for more than it has if and
    only if they name one product without options by both "" and `__default__`, or
    options of one product whose limits add up to more than its total.
  */
  lemma OverdrawnIff(cat: Catalogue, keys: set<Key>)
    ensures (exists lines :: Overdraws(cat, keys, lines))
            <==> || (exists blank, literal :: BothSpellings(cat, keys, blank, literal))
                 || (exists id :: OptionsExceed(cat, keys, id))
  {
    if lines: seq<Line> :| Overdraws(cat, keys, lines) {
      AcceptedKeepsOptions(cat, lines);
      var id :| id in cat.products && Weight(OfTotal(cat.products[id], id), lines) > cat.products[id].stock;
      OverdraftExplained(cat, keys, lines, id);
    }
    if blank, literal :| BothSpellings(cat, keys, blank, literal) {
      var lines := SpellingsOverdraw(cat, keys, blank, literal);
    }
    if id :| OptionsExceed(cat, keys, id) {
      var lines := OptionsOverdraw(cat, keys, id);
    }
  }

  /** An accepted cart of these keys that asks some product or option for more than it has. */
  predicate Overdraws(cat: Catalogue, keys: set<Key>, lines: seq<Line>)
  {
    Uses(lines, keys) && Accepted(cat, lines) && !(KeepsTotals(cat, lines) && KeepsOptions(cat, lines))
  }

  lemma SpellingsOverdraw(cat: Catalogue, keys: set<Key>, blank: Key, literal: Key) returns (lines: seq<Line>)
    requires BothSpellings(cat, keys, blank, literal)
    ensures Overdraws(cat, keys, lines)
  {
    var stock := cat.products[blank.id].stock;
    lines := [Line(blank, stock), Line(literal, stock)];
    BothAreAccepted(cat, lines[0], lines[1]);
    assert Weight(OfTotal(cat.products[blank.id], blank.id), lines) > stock;
  }

  lemma OptionsOverdraw(cat: Catalogue, keys: set<Key>, id: string) returns (lines: seq<Line>)
    requires OptionsExceed(cat, keys, id)
    ensures Overdraws(cat, keys, lines)
  {
    var limits := Limits(cat.products[id], id, keys);
    assert limits != map[];
    lines := FullCart(cat, keys, id, limits);
    FullCartIsAccepted(cat, keys, id, lines);
    assert Weight(OfTotal(cat.products[id], id), lines) > cat.products[id].stock;
  }

  lemma OverdraftExplained(cat: Catalogue, keys: set<Key>, lines: seq<Line>, id: string)
    requires Uses(lines, keys) && Accepted(cat, lines) && KeepsOptions(cat, lines)
    requires id in cat.products && Weight(OfTotal(cat.products[id], id), lines) > cat.products[id].stock
    ensures (exists blank, literal :: BothSpellings(cat, keys, blank, literal)) || OptionsExceed(cat, keys, id)
  {
    var product := cat.products[id];
    if Optionless(product) {
      WholeIsBothSpellings(product, lines, id);
      SpellingKept(cat, lines, id, "");
      SpellingKept(cat, lines, id, WHOLE);
      var i := SpelledIn(lines, id, "");
      var j := SpelledIn(lines, id, WHOLE);
      assert BothSpellings(cat, keys, lines[i].key, lines[j].key);
    } else {
      var i := DrawnIn(product, lines, id);
      var h := LeaderFits(cat, lines, i);
      var limits := Limits(product, id, keys);
      forall k, o | 0 <= k < |lines| && lines[k].key.id == id && ResolveOption(product, lines[k].key.variant) == Some(o)
        ensures o in limits
      {
        assert lines[k].key in keys && Names(product, id, keys, o);
      }
      OptionsAddUp(product, id, lines, limits);
      forall k | 0 <= k < |lines|
        ensures OfTotal(product, id)(lines[k].key) <= OfOptions(product, id, limits.Keys)(lines[k].key)
      {
      }
      WeightOrdered(OfTotal(product, id), OfOptions(product, id, limits.Keys), lines);
    }
  }

  lemma DrawnIn(product: Product, lines: seq<Line>, id: string) returns (i: nat)
    requires Weight(OfTotal(product, id), lines) != 0
    ensures i < |lines| && lines[i].key.id == id && Draws(product, lines[i].key.variant)
  {
    if k :| 0 <= k < |lines| && lines[k].key.id == id && Draws(product, lines[k].key.variant) {
      i := k;
    } else {
      WeightNone(OfTotal(product, id), lines);
    }
  }

  function OfOptions(product: Product, id: string, options: set<string>): Key -> int
  {
    (k: Key) =>
      var option := ResolveOption(product, k.variant);
      if k.id == id && option.Some? && option.value in options then 1 else 0
  }

  lemma {:induction false} OneOptionLess(
      product: Product, id: string, lines: seq<Line>, options: set<string>, o: string)
    requires o in options
    ensures Weight(OfOptions(product, id, options), lines)
            == Weight(OfOption(product, id, o), lines) + Weight(OfOptions(product, id, options - {o}), lines)
  {
    if |lines| > 0 {
      OneOptionLess(product, id, lines[..|lines| - 1], options, o);
      ScaledByOneOrNone(lines[|lines| - 1].qty);
    }
  }

  /** What a cart asks of several options is at most the sum of what each allows. */
  lemma {:induction false} OptionsAddUp(product: Product, id: string, lines: seq<Line>, limits: map<string, int>)
    requires forall o :: o in limits ==> Weight(OfOption(product, id, o), lines) <= limits[o]
    ensures Weight(OfOptions(product, id, limits.Keys), lines) <= SumMap(limits)
    decreases |limits|
  {
    if limits == map[] {
      WeightNone(OfOptions(product, id, limits.Keys), lines);
    } else {
      var o := PickKey(limits);
      OptionsAddUp(product, id, lines, limits - {o});
      OneOptionLess(product, id, lines, limits.Keys, o);
      assert (limits - {o}).Keys == limits.Keys - {o};
    }
  }

  predicate IsFull(cat: Catalogue, id: string, limits: map<string, int>, l: Line)
    requires id in cat.products
  {
    && l.key.id == id
    && var o := ResolveOption(cat.products[id], l.key.variant);
       o.Some? && o.value in limits && limits[o.value] == l.qty
  }

  /** A cart that asks every option for its limit, each by one line. */
  predicate IsFullCart(cat: Catalogue, id: string, limits: map<string, int>, lines: seq<Line>)
    requires id in cat.products
  {
    && (forall i :: 0 <= i < |lines| ==> IsFull(cat, id, limits, lines[i]))
    && (forall o :: o in limits ==> Weight(OfOption(cat.products[id], id, o), lines) == limits[o])
  }

  predicate Named(product: Product, id: string, keys: set<Key>, limits: map<string, int>)
  {
    forall o :: o in limits ==> limits[o] >= 0 && Names(product, id, keys, o)
  }

  lemma NothingAsked(measure: Key -> int)
    ensures Weight(measure, []) == 0
  {
  }

  lemma {:induction false} FullCart(cat: Catalogue, keys: set<Key>, id: string, limits: map<string, int>)
    returns (lines: seq<Line>)
    requires id in cat.products && !Optionless(cat.products[id]) && Named(cat.products[id], id, keys, limits)
    ensures Uses(lines, keys) && IsFullCart(cat, id, limits, lines)
    ensures Weight(OfTotal(cat.products[id], id), lines) == SumMap(limits)
    decreases |limits|
  {
    if limits == map[] {
      lines := EmptyCart(cat, keys, id, limits);
    } else {
      var o := PickKey(limits);
      NamedWithout(cat.products[id], id, keys, limits, o);
      var rest := FullCart(cat, keys, id, limits - {o});
      lines := FullerCart(cat, keys, id, limits, rest, o);
      SumMapRemove(limits, o);
    }
  }

  lemma EmptyCart(cat: Catalogue, keys: set<Key>, id: string, limits: map<string, int>) returns (lines: seq<Line>)
    requires id in cat.products && limits == map[]
    ensures Uses(lines, keys) && IsFullCart(cat, id, limits, lines)
    ensures Weight(OfTotal(cat.products[id], id), lines) == SumMap(limits)
  {
    lines := [];
    NothingAsked(OfTotal(cat.products[id], id));
  }

  lemma NamedWithout(product: Product, id: string, keys: set<Key>, limits: map<string, int>, o: string)
    requires o in limits && Named(product, id, keys, limits)
    ensures Named(product, id, keys, limits - {o}) && |limits - {o}| < |limits|
  {
    assert limits.Keys == (limits - {o}).Keys + {o};
  }

  lemma FullerCart(cat: Catalogue, keys: set<Key>, id: string, limits: map<string, int>, rest: seq<Line>, o: string)
    returns (lines: seq<Line>)
    requires id in cat.products && !Optionless(cat.products[id]) && Named(cat.products[id], id, keys, limits)
    requires o in limits && Uses(rest, keys) && IsFullCart(cat, id, limits - {o}, rest)
    ensures Uses(lines, keys) && IsFullCart(cat, id, limits, lines)
    ensures Weight(OfTotal(cat.products[id], id), lines) == Weight(OfTotal(cat.products[id], id), rest) + limits[o]
  {
    if limits[o] == 0 {
      lines := rest;
      NotYetAsked(cat, id, limits, rest, o);
      forall p | p in limits ensures Weight(OfOption(cat.products[id], id, p), rest) == limits[p] {
        assert p != o ==> p in limits - {o};
      }
    } else {
      assert Names(cat.products[id], id, keys, o);
      var k :| k in keys && k.id == id && ResolveOption(cat.products[id], k.variant) == Some(o);
      lines := rest + [Line(k, limits[o])];
      OneOptionMore(cat, id, limits, rest, Line(k, limits[o]), o);
    }
  }

  lemma NotYetAsked(cat: Catalogue, id: string, limits: map<string, int>, rest: seq<Line>, o: string)
    requires id in cat.products && o in limits && IsFullCart(cat, id, limits - {o}, rest)
    ensures Weight(OfOption(cat.products[id], id, o), rest) == 0
    ensures forall i :: 0 <= i < |rest| ==> IsFull(cat, id, limits, rest[i])
  {
    forall i | 0 <= i < |rest|
      ensures OfOption(cat.products[id], id, o)(rest[i].key) == 0 && IsFull(cat, id, limits, rest[i])
    {
      assert IsFull(cat, id, limits - {o}, rest[i]);
    }
    WeightNone(OfOption(cat.products[id], id, o), rest);
  }

  lemma OneOptionMore(cat: Catalogue, id: string, limits: map<string, int>, rest: seq<Line>, l: Line, o: string)
    requires id in cat.products && !Optionless(cat.products[id])
    requires o in limits && IsFullCart(cat, id, limits - {o}, rest)
    requires l.key.id == id && ResolveOption(cat.products[id], l.key.variant) == Some(o) && l.qty == limits[o]
    ensures IsFullCart(cat, id, limits, rest + [l])
    ensures Weight(OfTotal(cat.products[id], id), rest + [l])
            == Weight(OfTotal(cat.products[id], id), rest) + limits[o]
  {
    var product, lines := cat.products[id], rest + [l];
    NotYetAsked(cat, id, limits, rest, o);
    ScaledByOneOrNone(l.qty);
    OneLineMore(OfTotal(product, id), rest, l);
    forall p | p in limits ensures Weight(OfOption(product, id, p), lines) == limits[p] {
      OneLineMore(OfOption(product, id, p), rest, l);
    }
    forall i | 0 <= i < |lines| ensures IsFull(cat, id, limits, lines[i]) {
      assert i < |rest| ==> lines[i] == rest[i];
    }
  }

  lemma OneLineMore(w: Key -> int, rest: seq<Line>, l: Line)
    ensures Weight(w, rest + [l]) == Weight(w, rest) + Scaled(w(l.key), l.qty)
  {
    SumAppend(Weighing(w), rest, [l]);
    SumOne(Weighing(w), l);
  }

  lemma FullCartIsAccepted(cat: Catalogue, keys: set<Key>, id: string, lines: seq<Line>)
    requires Open(cat, id)
    requires IsFullCart(cat, id, Limits(cat.products[id], id, keys), lines)
    ensures Accepted(cat, lines)
  {
    var product, limits := cat.products[id], Limits(cat.products[id], id, keys);
    forall i | 0 <= i < |lines| ensures JudgeOf(cat, lines).fits(lines[i].key) {
      assert IsFull(cat, id, limits, lines[i]);
      var o := ResolveOption(product, lines[i].key.variant).value;
      var shelf := Shelf(id, o);
      assert ShelfOf(cat, lines[i].key) == shelf;
      forall k | 0 <= k < |lines| ensures OfShelf(cat, shelf)(lines[k].key) <= OfOption(product, id, o)(lines[k].key) {
        assert IsFull(cat, id, limits, lines[k]);
      }
      WeightOrdered(OfShelf(cat, shelf), OfOption(product, id, o), lines);
    }
    SettledMeans(cat, lines);
  }

  /** Five in all, five of either colour: a cart for all of both is accepted. */
  lemma OptionsCanOverdrawTotal()
    ensures var cat := Catalogue(map["mug" := Product(true, false, 5, map["a" := 5, "b" := 5], true, map[])], map[]);
            var lines := [Line(Key("mug", "a", ""), 5), Line(Key("mug", "b", ""), 5)];
            && Accepted(cat, lines) && KeepsOptions(cat, lines)
            && Weight(OfTotal(cat.products["mug"], "mug"), lines) == 10 > cat.products["mug"].stock
  {
    var cat := Catalogue(map["mug" := Product(true, false, 5, map["a" := 5, "b" := 5], true, map[])], map[]);
    var a, b := Line(Key("mug", "a", ""), 5), Line(Key("mug", "b", ""), 5);
    ApartIsAccepted(cat, a, b);
    PairGrouped(a, b);
    AcceptedKeepsOptions(cat, [a, b]);
    ScaledByOneOrNone(5);
    SumPair(Weighing(OfTotal(cat.products["mug"], "mug")), a, b);
  }

  lemma SpelledIn(lines: seq<Line>, id: string, variant: string) returns (i: nat)
    requires Weight(Spelled(id, variant), lines) != 0
    ensures i < |lines| && lines[i].key.id == id && lines[i].key.variant == variant
  {
    if k :| 0 <= k < |lines| && lines[k].key.id == id && lines[k].key.variant == variant {
      i := k;
    } else {
      WeightNone(Spelled(id, variant), lines);
    }
  }

  /** Both spellings of a product without options are let by for its whole stock each. */
  lemma BothAreAccepted(cat: Catalogue, a: Line, b: Line)
    requires a.key.id == b.key.id && a.key.variant == "" && b.key.variant == WHOLE
    requires KeyOnSale(cat, a.key) && Optionless(cat.products[a.key.id]) && !cat.products[a.key.id].locked
    requires a.qty <= cat.products[a.key.id].stock && b.qty <= cat.products[a.key.id].stock
    ensures Accepted(cat, [a, b]) && Weight(OfTotal(cat.products[a.key.id], a.key.id), [a, b]) == a.qty + b.qty
  {
    PoolNamesApart(WHOLE);
    ApartIsAccepted(cat, a, b);
    PairGrouped(a, b);
    ScaledByOneOrNone(a.qty);
    ScaledByOneOrNone(b.qty);
    SumPair(Weighing(OfTotal(cat.products[a.key.id], a.key.id)), a, b);
  }

  /** Two lines on different shelves are judged apart. */
  lemma ApartIsAccepted(cat: Catalogue, a: Line, b: Line)
    requires a.key.id in cat.products && b.key.id in cat.products
    requires cat.products[a.key.id].online && cat.products[b.key.id].online
    requires a.qty <= Available(cat.products[a.key.id], a.key.variant)
    requires b.qty <= Available(cat.products[b.key.id], b.key.variant)
    requires ShelfOf(cat, a.key) != ShelfOf(cat, b.key)
    ensures FirstFault(cat, [a, b], 2).None?
  {
    RequestOfPair(cat, a, b);
    var lines := [a, b];
    assert Fault(cat, lines, 0).None?;
    assert FirstFault(cat, lines, 1).None?;
    assert Fault(cat, lines, 1).None?;
  }

  lemma RequestOfPair(cat: Catalogue, a: Line, b: Line)
    requires a.key.id in cat.products && b.key.id in cat.products
    requires ShelfOf(cat, a.key) != ShelfOf(cat, b.key)
    ensures RequestOn(cat, [a, b], ShelfOf(cat, a.key)) == a.qty
    ensures RequestOn(cat, [a, b], ShelfOf(cat, b.key)) == b.qty
    ensures !DrawnBefore(cat, [a, b], 1, ShelfOf(cat, b.key))
  {
    ScaledByOneOrNone(a.qty);
    ScaledByOneOrNone(b.qty);
    SumPair(Weighing(OfShelf(cat, ShelfOf(cat, a.key))), a, b);
    SumPair(Weighing(OfShelf(cat, ShelfOf(cat, b.key))), a, b);
  }

  /** What is said to be available is exactly the most that a cart of that line alone may ask for. */
  lemma AvailableIsMost(cat: Catalogue, l: Line)
    requires l.key.id in cat.products && cat.products[l.key.id].online
    ensures Accepted(cat, [l]) <==> l.qty <= Available(cat.products[l.key.id], l.key.variant)
  {
    assert [l][..0] == [];
    assert Grouped([l]) == [l];
    ScaledByOneOrNone(l.qty);
    SumOne(Weighing(OfShelf(cat, ShelfOf(cat, l.key))), l);
    assert FirstFault(cat, [l], 1) == Fault(cat, [l], 0);
  }

  lemma PairGrouped(a: Line, b: Line)
    requires a.key != b.key
    ensures Grouped([a, b]) == [a, b]
  {
    assert [a, b][..1] == [a] && [a][..0] == [];
    assert Grouped([a]) == [a];
    assert [a][1..] == [];
    assert Position([a], b.key) == 1;
  }
}
