/**
  What it means that a cart is accepted (api.py): which carts are, when the order
  of their lines decides, which shelves an acceptance protects, and what it leaves
  to the reservation.
*/
module Acceptance {
  import opened Sums
  import opened Wrappers
  import opened Stock
  import opened Cart
  import opened Orderings

  predicate Faultless(cat: Catalogue, groups: seq<Line>)
  {
    FirstFault(cat, groups, |groups|).None?
  }

  /** The cart check lets the lines by. */
  predicate Accepted(cat: Catalogue, lines: seq<Line>)
  {
    Faultless(cat, Grouped(lines))
  }

  predicate KeyOnSale(cat: Catalogue, key: Key)
  {
    key.id in cat.products && cat.products[key.id].online
  }

  /** A line on sale whose shelf has, by this line's availability, what all its lines ask for. */
  predicate LineFits(cat: Catalogue, lines: seq<Line>, key: Key)
  {
    && KeyOnSale(cat, key)
    && 0 < Available(cat.products[key.id], key.variant)
    && RequestOn(cat, lines, ShelfOf(cat, key)) <= Available(cat.products[key.id], key.variant)
  }

  predicate SameShelf(cat: Catalogue, k: Key, l: Key)
  {
    k == l || (k.id in cat.products && l.id in cat.products && ShelfOf(cat, k) == ShelfOf(cat, l))
  }

  function JudgeOf(cat: Catalogue, lines: seq<Line>): Judge
  {
    Judge((k: Key, l: Key) => SameShelf(cat, k, l), (k: Key) => KeyOnSale(cat, k), (k: Key) => LineFits(cat, lines, k))
  }

  /** Every line is on sale, and no shelf is asked for more than it has. */
  predicate Fits(cat: Catalogue, lines: seq<Line>)
  {
    AllFit(JudgeOf(cat, lines), lines)
  }

  /** No shelf of the cart has both a line that fits and one that does not, or it is refused anyway. */
  predicate Settled(cat: Catalogue, lines: seq<Line>)
  {
    OrderFree(JudgeOf(cat, lines), lines)
  }

  // ------------------------------------------------------------- which carts are accepted

  lemma JudgeIsSensible(cat: Catalogue, lines: seq<Line>)
    ensures Sensible(JudgeOf(cat, lines))
  {
  }

  lemma DrawnIffFollows(cat: Catalogue, groups: seq<Line>, i: nat)
    requires i < |groups| && KnownUpTo(cat, groups, i + 1)
    ensures DrawnBefore(cat, groups, i, ShelfOf(cat, groups[i].key)) <==> !Leads(JudgeOf(cat, groups), groups, i)
  {
    if h :| 0 <= h < i && SameShelf(cat, groups[h].key, groups[i].key) {
      assert ShelfOf(cat, groups[h].key) == ShelfOf(cat, groups[i].key);
    }
    if h :| 0 <= h < i && ShelfOf(cat, groups[h].key) == ShelfOf(cat, groups[i].key) {
      assert SameShelf(cat, groups[h].key, groups[i].key);
    }
  }

  lemma FaultIff(cat: Catalogue, groups: seq<Line>, i: nat)
    requires i < |groups| && KnownUpTo(cat, groups, i)
    ensures Fault(cat, groups, i).None? <==> Clears(JudgeOf(cat, groups), groups, i)
  {
    if groups[i].key.id in cat.products {
      DrawnIffFollows(cat, groups, i);
    }
  }

  predicate ClearUpTo(j: Judge, lines: seq<Line>, n: nat)
    requires n <= |lines|
  {
    n == 0 || (ClearUpTo(j, lines, n - 1) && Clears(j, lines, n - 1))
  }

  lemma {:induction false} ClearUpToAll(j: Judge, lines: seq<Line>, n: nat)
    requires n <= |lines|
    ensures ClearUpTo(j, lines, n) <==> forall i :: 0 <= i < n ==> Clears(j, lines, i)
  {
    if n > 0 {
      ClearUpToAll(j, lines, n - 1);
    }
  }

  lemma FaultStep(cat: Catalogue, groups: seq<Line>, judge: Judge, n: nat)
    requires n < |groups| && judge == JudgeOf(cat, groups)
    ensures FirstFault(cat, groups, n + 1).None?
            <==> FirstFault(cat, groups, n).None? && Clears(judge, groups, n)
  {
    if FirstFault(cat, groups, n).None? {
      FaultIff(cat, groups, n);
    }
  }

  lemma ClearStep(j: Judge, lines: seq<Line>, n: nat)
    requires n < |lines|
    ensures ClearUpTo(j, lines, n + 1) <==> ClearUpTo(j, lines, n) && Clears(j, lines, n)
  {
  }

  lemma {:induction false} FaultlessUpTo(cat: Catalogue, groups: seq<Line>, judge: Judge, n: nat)
    requires n <= |groups| && judge == JudgeOf(cat, groups)
    ensures FirstFault(cat, groups, n).None? <==> ClearUpTo(judge, groups, n)
  {
    if n > 0 {
      FaultlessUpTo(cat, groups, judge, n - 1);
      FaultStep(cat, groups, judge, n - 1);
      ClearStep(judge, groups, n - 1);
    }
  }

  /** Carts that ask for the same units are judged alike, line by line. */
  lemma SameUnitsAgree(cat: Catalogue, a: seq<Line>, b: seq<Line>)
    requires SameUnits(a, b)
    ensures Agree(JudgeOf(cat, a), JudgeOf(cat, b))
  {
    forall k ensures LineFits(cat, a, k) <==> LineFits(cat, b, k) {
      if k.id in cat.products {
        SameUnitsSameWeight(OfShelf(cat, ShelfOf(cat, k)), a, b);
      }
    }
  }

  lemma GroupedUnits(lines: seq<Line>)
    ensures SameUnits(Grouped(lines), lines)
  {
    forall k ensures UnitsAt(Grouped(lines), k) == UnitsAt(lines, k) {
      GroupedWeighs(OfKey(k), lines);
    }
  }

  /** For every cart: it is accepted exactly if all is on sale and the first line of every shelf fits. */
  lemma AcceptedIff(cat: Catalogue, lines: seq<Line>)
    ensures Accepted(cat, lines) <==> Passes(JudgeOf(cat, lines), lines)
  {
    var groups := Grouped(lines);
    FaultlessUpTo(cat, groups, JudgeOf(cat, groups), |groups|);
    ClearUpToAll(JudgeOf(cat, groups), groups, |groups|);
    GroupedUnits(lines);
    SameUnitsAgree(cat, groups, lines);
    JudgesAgree(JudgeOf(cat, groups), JudgeOf(cat, lines), groups);
    JudgeIsSensible(cat, lines);
    GroupedVerdict(JudgeOf(cat, lines), lines);
  }

  // ----------------------------------------------------------- when the order decides

  lemma ReorderedSameUnits(a: seq<Line>, b: seq<Line>)
    requires Reordered(a, b)
    ensures SameUnits(a, b) && SameUnits(b, a)
  {
    forall k ensures UnitsAt(a, k) == UnitsAt(b, k) {
      SumPermuted(Weighing(OfKey(k)), a, b);
    }
  }

  lemma ReorderedVerdict(cat: Catalogue, lines: seq<Line>, b: seq<Line>)
    requires Reordered(lines, b)
    ensures Accepted(cat, b) <==> Passes(JudgeOf(cat, lines), b)
  {
    ReorderedSameUnits(lines, b);
    SameUnitsAgree(cat, b, lines);
    AcceptedIff(cat, b);
    JudgesAgree(JudgeOf(cat, b), JudgeOf(cat, lines), b);
  }

  /** Some order of the lines is accepted exactly if all is on sale and every shelf has a line that fits. */
  lemma AcceptedInSomeOrderIff(cat: Catalogue, lines: seq<Line>)
    ensures (exists b :: Reordered(lines, b) && Accepted(cat, b)) <==> Admissible(JudgeOf(cat, lines), lines)
  {
    JudgeIsSensible(cat, lines);
    PassesInSomeOrderIff(JudgeOf(cat, lines), lines);
    forall b | Reordered(lines, b) ensures Accepted(cat, b) <==> Passes(JudgeOf(cat, lines), b) {
      ReorderedVerdict(cat, lines, b);
    }
  }

  /** Every order of the lines is accepted exactly if all of them fit. */
  lemma AcceptedInEveryOrderIff(cat: Catalogue, lines: seq<Line>)
    ensures (forall b :: Reordered(lines, b) ==> Accepted(cat, b)) <==> Fits(cat, lines)
  {
    JudgeIsSensible(cat, lines);
    PassesInEveryOrderIff(JudgeOf(cat, lines), lines);
    forall b | Reordered(lines, b) ensures Accepted(cat, b) <==> Passes(JudgeOf(cat, lines), b) {
      ReorderedVerdict(cat, lines, b);
    }
  }

  /** The order of the lines cannot matter exactly if no shelf mixes lines that fit and lines that do not. */
  lemma VerdictIgnoresOrderIff(cat: Catalogue, lines: seq<Line>)
    ensures (forall b :: Reordered(lines, b) ==> (Accepted(cat, b) <==> Accepted(cat, lines))) <==> Settled(cat, lines)
  {
    JudgeIsSensible(cat, lines);
    OrderCannotMatterIff(JudgeOf(cat, lines), lines);
    forall b | Reordered(lines, b) ensures Accepted(cat, b) <==> Passes(JudgeOf(cat, lines), b) {
      ReorderedVerdict(cat, lines, b);
    }
    assert Reordered(lines, lines);
  }

  lemma SettledMeans(cat: Catalogue, lines: seq<Line>)
    ensures Fits(cat, lines) ==> Accepted(cat, lines)
    ensures Settled(cat, lines) ==> (Accepted(cat, lines) <==> Fits(cat, lines))
  {
    JudgeIsSensible(cat, lines);
    AcceptedIff(cat, lines);
    PassingIsBetween(JudgeOf(cat, lines), lines);
  }

  /** A product whose stored option is called `__default__`: one order of two lines is accepted, the other is not. */
  lemma OrderCanMatter()
    ensures var mug := Product(true, false, 5, map[WHOLE := 5], true, map["x" := WHOLE]);
            var cat := Catalogue(map["mug" := mug], map[]);
            var named, plain := Line(Key("mug", "x", ""), 1), Line(Key("mug", "", ""), 1);
            Accepted(cat, [named, plain]) && !Accepted(cat, [plain, named])
  {
    var cat := Catalogue(map["mug" := Product(true, false, 5, map[WHOLE := 5], true, map["x" := WHOLE])], map[]);
    var named, plain := Line(Key("mug", "x", ""), 1), Line(Key("mug", "", ""), 1);
    var shelf := Shelf("mug", WHOLE);
    assert ShelfOf(cat, named.key) == shelf == ShelfOf(cat, plain.key);
    AcceptedIff(cat, [named, plain]);
    AcceptedIff(cat, [plain, named]);
    SumPair(Weighing(OfShelf(cat, shelf)), named, plain);
    ScaledByOneOrNone(1);
    assert RequestOn(cat, [named, plain], shelf) == 2;
    var good, bad := JudgeOf(cat, [named, plain]), JudgeOf(cat, [plain, named]);
    assert good.same([named, plain][0].key, [named, plain][1].key);
    assert Clears(good, [named, plain], 0) && Clears(good, [named, plain], 1);
    assert !Clears(bad, [plain, named], 0);
  }

  // -------------------------------------------------------------------- names and shelves

  predicate PlainOption(k: string)
  {
    k != WHOLE && !(UNRESOLVED <= k)
  }

  /** No stored option of a product in the cart is spelled like one of the two reserved pool names. */
  predicate PlainOptions(cat: Catalogue, lines: seq<Line>)
  {
    forall i, k :: (0 <= i < |lines| && lines[i].key.id in cat.products
                    && k in cat.products[lines[i].key.id].optionStock) ==> PlainOption(k)
  }

  /** A line spelled `__default__` shares its product with no other spelling that folds to the same. */
  predicate NothingHidden(lines: seq<Line>)
  {
    forall i, j :: (0 <= i < |lines| && 0 <= j < |lines| && lines[i].key.variant == WHOLE
                    && lines[j].key.id == lines[i].key.id && Fold(lines[j].key.variant) == Fold(WHOLE)) ==>
                     lines[j].key.variant == WHOLE
  }

  lemma PoolNamesApart(variant: string)
    ensures UNRESOLVED <= UNRESOLVED + Fold(variant) != WHOLE
  {
    assert (UNRESOLVED + Fold(variant))[2] == UNRESOLVED[2] != WHOLE[2];
  }

  /** The name of its pool tells whether a line names no option, a stored one or none there is. */
  lemma ShelfKind(cat: Catalogue, lines: seq<Line>, i: nat)
    requires PlainOptions(cat, lines) && i < |lines| && lines[i].key.id in cat.products
    ensures var pool := ShelfOf(cat, lines[i].key).pool;
            var option := ResolveOption(cat.products[lines[i].key.id], lines[i].key.variant);
            && (pool == WHOLE <==> lines[i].key.variant == "")
            && (UNRESOLVED <= pool <==> lines[i].key.variant != "" && option.None?)
  {
    PoolNamesApart(lines[i].key.variant);
    assert UNRESOLVED[2] != WHOLE[2];
    var option := ResolveOption(cat.products[lines[i].key.id], lines[i].key.variant);
    if option.Some? {
      assert PlainOption(option.value);
    }
  }

  lemma SameTail(a: string, b: string)
    requires UNRESOLVED + a == UNRESOLVED + b
    ensures a == b
  {
    assert a == (UNRESOLVED + a)[|UNRESOLVED|..] == (UNRESOLVED + b)[|UNRESOLVED|..] == b;
  }

  /**
    Why the second condition is needed: behind a line spelled `__default__` every
    other spelling that folds to the same is let by although it names nothing that is
    in stock.
  */
  lemma HiddenSpellingIsAccepted(cat: Catalogue, literal: Line, hidden: Line)
    requires literal.key.id == hidden.key.id && literal.key.variant == WHOLE
    requires hidden.key.variant != "" && hidden.key.variant != WHOLE && Fold(hidden.key.variant) == Fold(WHOLE)
    requires KeyOnSale(cat, literal.key) && Optionless(cat.products[literal.key.id])
    requires !cat.products[literal.key.id].locked && literal.qty + hidden.qty <= cat.products[literal.key.id].stock
    ensures Accepted(cat, [literal, hidden]) && !Fits(cat, [literal, hidden])
    ensures Available(cat.products[literal.key.id], hidden.key.variant) == 0
  {
    var lines := [literal, hidden];
    HiddenRequest(cat, literal, hidden);
    assert LineFits(cat, lines, literal.key) && !LineFits(cat, lines, hidden.key);
    AcceptedIff(cat, lines);
    OnlyTheFirstCounts(JudgeOf(cat, lines), literal, hidden);
  }

  lemma OnlyTheFirstCounts(j: Judge, a: Line, b: Line)
    requires j.same(a.key, b.key) && j.sold(a.key) && j.sold(b.key) && j.fits(a.key) && !j.fits(b.key)
    ensures Passes(j, [a, b]) && !AllFit(j, [a, b])
  {
    var lines := [a, b];
    assert lines[0] == a && lines[1] == b;
    assert Clears(j, lines, 0) && Clears(j, lines, 1);
  }

  lemma HiddenRequest(cat: Catalogue, literal: Line, hidden: Line)
    requires literal.key.id == hidden.key.id && literal.key.variant == WHOLE && hidden.key.variant != ""
    requires Fold(hidden.key.variant) == Fold(WHOLE)
    requires literal.key.id in cat.products && Optionless(cat.products[literal.key.id])
    ensures ShelfOf(cat, literal.key) == ShelfOf(cat, hidden.key)
    ensures RequestOn(cat, [literal, hidden], ShelfOf(cat, literal.key)) == literal.qty + hidden.qty
  {
    SumPair(Weighing(OfShelf(cat, ShelfOf(cat, literal.key))), literal, hidden);
    ScaledByOneOrNone(literal.qty);
    ScaledByOneOrNone(hidden.qty);
  }

  /** There is such a spelling: one underscore fewer. */
  lemma OneUnderscoreFewer()
    ensures WHOLE[1..] != WHOLE && WHOLE[1..] != "" && Fold(WHOLE[1..]) == Fold(WHOLE)
  {
    assert WHOLE[0] == '_' && |WHOLE[1..]| == 10;
  }

  /** With plain names, lines that draw on one shelf are given the same availability. */
  lemma ShelfDecidesAvailability(cat: Catalogue, lines: seq<Line>, i: nat, j: nat)
    requires PlainOptions(cat, lines) && NothingHidden(lines) && i < |lines| && j < |lines|
    requires lines[i].key.id in cat.products && lines[j].key.id in cat.products
    requires ShelfOf(cat, lines[i].key) == ShelfOf(cat, lines[j].key)
    ensures Available(cat.products[lines[i].key.id], lines[i].key.variant)
            == Available(cat.products[lines[j].key.id], lines[j].key.variant)
  {
    ShelfKind(cat, lines, i);
    ShelfKind(cat, lines, j);
    if UNRESOLVED <= ShelfOf(cat, lines[i].key).pool {
      SameTail(Fold(lines[i].key.variant), Fold(lines[j].key.variant));
      assert lines[i].key.variant == WHOLE <==> lines[j].key.variant == WHOLE;
    }
  }

  /** Plain names settle a cart whatever its order. */
  lemma PlainIsSettled(cat: Catalogue, lines: seq<Line>)
    requires PlainOptions(cat, lines) && NothingHidden(lines)
    ensures Settled(cat, lines)
  {
    if Admissible(JudgeOf(cat, lines), lines) {
      forall i | 0 <= i < |lines| ensures LineFits(cat, lines, lines[i].key) {
        var h := Voucher(JudgeOf(cat, lines), lines, i);
        VouchedFits(cat, lines, h, i);
      }
      assert AllFit(JudgeOf(cat, lines), lines);
    }
  }

  lemma Voucher(j: Judge, lines: seq<Line>, i: nat) returns (h: nat)
    requires Admissible(j, lines) && i < |lines|
    ensures h < |lines| && j.sold(lines[i].key) && j.same(lines[h].key, lines[i].key) && j.fits(lines[h].key)
  {
    assert Vouched(j, lines, lines[i].key);
    h :| 0 <= h < |lines| && Vouches(j, lines[h].key, lines[i].key);
  }

  lemma VouchedFits(cat: Catalogue, lines: seq<Line>, h: nat, i: nat)
    requires PlainOptions(cat, lines) && NothingHidden(lines) && h < |lines| && i < |lines|
    requires KeyOnSale(cat, lines[i].key) && LineFits(cat, lines, lines[h].key)
    requires SameShelf(cat, lines[h].key, lines[i].key)
    ensures LineFits(cat, lines, lines[i].key)
  {
    ShelfDecidesAvailability(cat, lines, h, i);
  }

  /**
    The meaning of the whole procedure: a cart is accepted exactly when every
    line is on sale and every shelf has what all its lines together ask for,
    whatever spellings, notes, aliases and duplicates they use; and it costs what
    the ungrouped lines cost.
  */
  lemma AcceptedExactlyWhenItFits(sale: Sale, lines: seq<Line>)
    ensures var asked := ResolvedAll(sale, lines);
            && (Settled(sale.cat, asked) ==> (Accepted(sale.cat, asked) <==> Fits(sale.cat, asked)))
            && (PlainOptions(sale.cat, asked) && NothingHidden(asked) ==> Settled(sale.cat, asked))
            && Subtotal(sale, Grouped(asked)) == Subtotal(sale, asked)
            && forall id :: UnitsOf(Grouped(asked), id) == UnitsOf(asked, id)
  {
    var asked := ResolvedAll(sale, lines);
    SettledMeans(sale.cat, asked);
    if PlainOptions(sale.cat, asked) && NothingHidden(asked) {
      PlainIsSettled(sale.cat, asked);
    }
    GroupedUnits(asked);
    SameUnitsSamePrice(sale, Grouped(asked), asked);
  }

  lemma SameUnitsSamePrice(sale: Sale, a: seq<Line>, b: seq<Line>)
    requires SameUnits(a, b)
    ensures Subtotal(sale, a) == Subtotal(sale, b)
    ensures forall id :: UnitsOf(a, id) == UnitsOf(b, id)
  {
    forall id ensures UnitsOf(a, id) == UnitsOf(b, id) {
      SameUnitsSameWeight(OfProduct(id), a, b);
    }
    forall k ensures ChargeFor(sale, a)(k) == ChargeFor(sale, b)(k) {
      assert UnitsOf(a, k.id) == UnitsOf(b, k.id);
    }
    WeightEqual(ChargeFor(sale, a), ChargeFor(sale, b), a);
    SameUnitsSameWeight(ChargeFor(sale, b), a, b);
  }

  /** Carts that hold the same keys are settled, and fit, alike if they are judged alike. */
  lemma SameKeysSettledAlike(j: Judge, a: seq<Line>, b: seq<Line>)
    requires forall k :: HasKey(a, k) <==> HasKey(b, k)
    ensures AllFit(j, a) ==> AllFit(j, b)
    ensures Admissible(j, a) ==> Admissible(j, b)
  {
    forall i | 0 <= i < |b|
      ensures AllFit(j, a) ==> j.fits(b[i].key)
      ensures Admissible(j, a) ==> j.sold(b[i].key) && Vouched(j, b, b[i].key)
    {
      assert HasKey(b, b[i].key);
      var h :| 0 <= h < |a| && a[h].key == b[i].key;
      VouchedCarries(j, a, b, b[i].key);
    }
  }

  lemma VouchedCarries(j: Judge, a: seq<Line>, b: seq<Line>, key: Key)
    requires forall k :: HasKey(a, k) <==> HasKey(b, k)
    ensures Vouched(j, a, key) ==> Vouched(j, b, key)
  {
    if g :| 0 <= g < |a| && Vouches(j, a[g].key, key) {
      assert HasKey(a, a[g].key);
      var f :| 0 <= f < |b| && b[f].key == a[g].key;
      assert Vouches(j, b[f].key, key);
    }
  }

  lemma SameUnitsSettledAlike(cat: Catalogue, a: seq<Line>, b: seq<Line>)
    requires SameUnits(a, b)
    ensures Settled(cat, a) <==> Settled(cat, b)
    ensures Fits(cat, a) <==> Fits(cat, b)
  {
    SameUnitsSameKeys(a, b);
    SameUnitsAgree(cat, a, b);
    JudgedAlike(JudgeOf(cat, a), JudgeOf(cat, b), a, b);
  }

  lemma SameUnitsSameKeys(a: seq<Line>, b: seq<Line>)
    requires SameUnits(a, b)
    ensures forall k :: HasKey(a, k) <==> HasKey(b, k)
  {
    forall k ensures HasKey(a, k) <==> HasKey(b, k) {
      UnitsIffKey(a, k);
      UnitsIffKey(b, k);
      assert UnitsAt(a, k) == UnitsAt(b, k);
    }
  }

  lemma JudgedAlike(j: Judge, k: Judge, a: seq<Line>, b: seq<Line>)
    requires Agree(j, k) && forall key :: HasKey(a, key) <==> HasKey(b, key)
    ensures OrderFree(j, a) <==> OrderFree(k, b)
    ensures AllFit(j, a) <==> AllFit(k, b)
  {
    JudgesAgree(j, k, b);
    SameKeysSettledAlike(j, a, b);
    SameKeysSettledAlike(j, b, a);
  }

  /**
    Two carts asking for the same units line by line cost the same, and are accepted
    alike unless a shelf mixes lines that fit and lines that do not.
  */
  lemma SameUnitsSameOutcome(sale: Sale, a: seq<Line>, b: seq<Line>)
    requires SameUnits(ResolvedAll(sale, a), ResolvedAll(sale, b))
    ensures var x, y := ResolvedAll(sale, a), ResolvedAll(sale, b);
            && (Settled(sale.cat, x) ==> (Accepted(sale.cat, x) <==> Accepted(sale.cat, y)))
            && Subtotal(sale, Grouped(x)) == Subtotal(sale, Grouped(y))
  {
    var x, y := ResolvedAll(sale, a), ResolvedAll(sale, b);
    SameUnitsSettledAlike(sale.cat, x, y);
    AcceptedExactlyWhenItFits(sale, a);
    AcceptedExactlyWhenItFits(sale, b);
    SameUnitsSamePrice(sale, x, y);
  }

  /** Splitting a line in two and then reordering the cart changes neither verdict nor price. */
  lemma SplitAndReorder(sale: Sale, before: seq<Line>, key: Key, q: Units, r: Units, after: seq<Line>,
                        reordered: seq<Line>)
    requires multiset(reordered) == multiset(before + [Line(key, q), Line(key, r)] + after)
    ensures var x := ResolvedAll(sale, before + [Line(key, q + r)] + after);
            var y := ResolvedAll(sale, reordered);
            && (Settled(sale.cat, x) ==> (Accepted(sale.cat, x) <==> Accepted(sale.cat, y)))
            && Subtotal(sale, Grouped(x)) == Subtotal(sale, Grouped(y))
  {
    var original := before + [Line(key, q + r)] + after;
    forall k ensures UnitsAt(ResolvedAll(sale, original), k) == UnitsAt(ResolvedAll(sale, reordered), k) {
      AskedUnits(sale, original, k);
      AskedUnits(sale, reordered, k);
      SplitAsksTheSame(sale, before, key, q, r, after, k);
      SumPermuted(Asking(sale, k), reordered, before + [Line(key, q), Line(key, r)] + after);
    }
    SameUnitsSameOutcome(sale, original, reordered);
  }

  lemma SplitAsksTheSame(sale: Sale, before: seq<Line>, key: Key, q: Units, r: Units, after: seq<Line>, k: Key)
    ensures SumBy(Asking(sale, k), before + [Line(key, q + r)] + after)
            == SumBy(Asking(sale, k), before + [Line(key, q), Line(key, r)] + after)
  {
    ScaledAdds(if Resolved(sale, Line(key, q)).key == k then 1 else 0, q, r);
    SumSplit(Asking(sale, k), before, Line(key, q + r), Line(key, q), Line(key, r), after);
  }

  lemma SumSplit(f: Line -> int, before: seq<Line>, whole: Line, a: Line, b: Line, after: seq<Line>)
    requires f(whole) == f(a) + f(b)
    ensures SumBy(f, before + [whole] + after) == SumBy(f, before + [a, b] + after)
  {
    SumAppend(f, before + [a, b], after);
    SumAppend(f, before, [a, b]);
    SumPair(f, a, b);
    SumAppend(f, before + [whole], after);
    SumAppend(f, before, [whole]);
    SumOne(f, whole);
  }

  /** What a line as sent asks of one exact line of the order. */
  function Asking(sale: Sale, k: Key): Line -> int
  {
    (l: Line) => Scaled(if Resolved(sale, l).key == k then 1 else 0, l.qty)
  }

  lemma {:induction false} AskedUnits(sale: Sale, lines: seq<Line>, k: Key)
    ensures UnitsAt(ResolvedAll(sale, lines), k) == SumBy(Asking(sale, k), lines)
  {
    if |lines| > 0 {
      AskedUnits(sale, lines[..|lines| - 1], k);
      assert ResolvedAll(sale, lines)[..|lines| - 1] == ResolvedAll(sale, lines[..|lines| - 1]);
    }
  }
}
