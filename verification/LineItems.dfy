/**
  Accounting lines of one order (accounting.py): how they are first materialised
  from the order, re-read from a snapshot, and edited one by one.
*/
module LineItems {
  import opened Sums
  import opened Money
  import opened Allocation
  import opened Wrappers

  const LINE_ITEMS_MAX: nat := 60

  /** One ordered product, with the catalogue's saved supplier cost for it. */
  datatype Item = Item(price: int, qty: int, defaultCost: int)

  datatype Order = Order(total: int, items: seq<Item>)

  /** An accounting line; its id is its 1-based position. */
  datatype Line = Line(id: nat, qty: nat, sale: nat, cost: int, unitPrice: int)

  /** A line as a stored snapshot holds it: any field may be missing. */
  datatype StoredLine = StoredLine(id: Option<nat>, sale: Option<int>, cost: Option<int>,
                                   unitPrice: Option<int>, supplierQty: Option<int>)

  datatype Snapshot = Snapshot(sale: Option<int>, cost: int, qty: int, unitPrice: int,
                               lines: seq<StoredLine>)

  function Quantity(value: int): nat
  {
    if 0 < value <= AMOUNT_MAX then value else 1
  }

  function AmountOr(value: Option<int>, default: int): int
  {
    if value.Some? && InRange(value.value) then value.value else default
  }

  /** A cost per unit, halves rounded away from zero. */
  function UnitPrice(cost: int, qty: nat): int
    requires qty > 0
  {
    if cost >= 0 then HalfUp(cost, qty) else 0 - (HalfUp(-cost, qty) as int)
  }

  function SupplierTotal(unitPrice: int, qty: int): nat
  {
    Amount(Amount(unitPrice) * Quantity(qty))
  }

  function QtyOf(item: Item): int { item.qty }

  function OrderQuantity(items: seq<Item>): nat
  {
    Quantity(SumBy(QtyOf, items))
  }

  /** At most sixty lines; an order without items still has one line. */
  function Sources(order: Order): (items: seq<Item>)
    ensures 0 < |items| <= LINE_ITEMS_MAX
  {
    if |order.items| == 0 then [Item(0, OrderQuantity(order.items), 0)]
    else if |order.items| <= LINE_ITEMS_MAX then order.items
    else order.items[..LINE_ITEMS_MAX]
  }

  function Prices(items: seq<Item>): seq<int>
  {
    seq(|items|, i requires 0 <= i < |items| => Amount(items[i].price))
  }

  function Quantities(items: seq<Item>): seq<int>
  {
    seq(|items|, i requires 0 <= i < |items| => Quantity(items[i].qty))
  }

  function DefaultCosts(items: seq<Item>): seq<int>
  {
    seq(|items|, i requires 0 <= i < |items| => Amount(items[i].defaultCost))
  }

  function SaleTotal(order: Order, snapshot: Snapshot): nat
  {
    Amount(if snapshot.sale.Some? then snapshot.sale.value else order.total)
  }

  /** What each line sold for when the snapshot says nothing about it. */
  function DefaultSales(saleTotal: nat, items: seq<Item>): (sales: seq<int>)
    ensures |sales| == |items|
  {
    if Sum(Prices(items)) == 0 then Allocate(saleTotal, Quantities(items))
    else if saleTotal == 0 then Prices(items)
    else Allocate(saleTotal, Prices(items))
  }

  /** The fresh path's supplier costs: a stored total that disagrees with the defaults is spread. */
  function FreshCosts(storedCost: nat, items: seq<Item>): (costs: seq<int>)
    ensures |costs| == |items|
  {
    var defaults := DefaultCosts(items);
    if storedCost > 0 && Sum(defaults) != storedCost
    then Allocate(storedCost, if Sum(defaults) != 0 then defaults else Quantities(items))
    else defaults
  }

  /** The last stored line carrying an id wins; without one, the line at the same position. */
  function FindStored(saved: seq<StoredLine>, id: nat): Option<StoredLine>
  {
    if |saved| == 0 then None
    else if saved[|saved| - 1].id == Some(id) then Some(saved[|saved| - 1])
    else FindStored(saved[..|saved| - 1], id)
  }

  function StoredFor(saved: seq<StoredLine>, index: nat): StoredLine
  {
    match FindStored(saved, index + 1)
    case Some(line) => line
    case None =>
      if index < |saved| then saved[index] else StoredLine(None, None, None, None, None)
  }

  function StoredCost(stored: StoredLine, item: Item): int
  {
    if stored.cost.None? && stored.unitPrice.Some?
    then SupplierTotal(stored.unitPrice.value,
                       if stored.supplierQty.Some? && stored.supplierQty.value != 0
                       then stored.supplierQty.value else Quantity(item.qty))
    else AmountOr(stored.cost, item.defaultCost)
  }

  function MakeLine(index: nat, item: Item, sale: nat, cost: int): Line
  {
    Line(index + 1, Quantity(item.qty), sale, cost, UnitPrice(cost, Quantity(item.qty)))
  }

  /** One line: what the snapshot stores for it, if it stores lines, or its default shares. */
  function LineAt(items: seq<Item>, saved: seq<StoredLine>, sales: seq<int>, costs: seq<int>, i: nat): Line
    requires i < |items| == |sales| == |costs| && InRange(sales[i])
  {
    if |saved| == 0 then MakeLine(i, items[i], sales[i], costs[i])
    else
      var stored := StoredFor(saved, i);
      MakeLine(i, items[i], AmountOr(stored.sale, sales[i]), StoredCost(stored, items[i]))
  }

  /** The accounting lines of an order under a snapshot. */
  function Lines(order: Order, snapshot: Snapshot): (lines: seq<Line>)
    ensures |lines| == |Sources(order)|
  {
    var items := Sources(order);
    var sales := DefaultSales(SaleTotal(order, snapshot), items);
    var costs := FreshCosts(Amount(snapshot.cost), items);
    DefaultSalesInRange(SaleTotal(order, snapshot), items);
    seq(|items|, i requires 0 <= i < |items| => LineAt(items, snapshot.lines, sales, costs, i))
  }

  lemma DefaultSalesInRange(saleTotal: nat, items: seq<Item>)
    ensures forall i :: 0 <= i < |items| ==> InRange(DefaultSales(saleTotal, items)[i])
  {
    if |items| > 0 {
      AllocateConserves(saleTotal, Quantities(items));
      AllocateConserves(saleTotal, Prices(items));
    }
  }

  function SaleOf(line: Line): int { line.sale }

  function CostOf(line: Line): int { line.cost }

  lemma {:induction false} SumOfField(f: Line -> int, lines: seq<Line>, values: seq<int>)
    requires |lines| == |values| && forall i :: 0 <= i < |lines| ==> f(lines[i]) == values[i]
    ensures SumBy(f, lines) == Sum(values)
  {
    if |lines| > 0 {
      SumOfField(f, lines[..|lines| - 1], values[..|lines| - 1]);
    }
  }

  /**
    Materialising an order conserves its sale total across the lines, except
    when the total is 0 while the items carry prices of their own.
  */
  lemma FreshSaleConserved(order: Order, snapshot: Snapshot)
    requires |snapshot.lines| == 0
    ensures SumBy(SaleOf, Lines(order, snapshot)) == SaleTotal(order, snapshot)
            <==> SaleTotal(order, snapshot) > 0 || Sum(Prices(Sources(order))) == 0
  {
    var items := Sources(order);
    var total := SaleTotal(order, snapshot);
    SumOfField(SaleOf, Lines(order, snapshot), DefaultSales(total, items));
    AllocateConserves(total, Quantities(items));
    AllocateConserves(total, Prices(items));
  }

  /** A stored supplier cost is conserved exactly; a stored 0 yields the defaults instead. */
  lemma FreshCostConserved(order: Order, snapshot: Snapshot)
    requires |snapshot.lines| == 0
    ensures SumBy(CostOf, Lines(order, snapshot)) == Amount(snapshot.cost)
            <==> Amount(snapshot.cost) > 0 || Sum(DefaultCosts(Sources(order))) == 0
  {
    var items := Sources(order);
    var stored := Amount(snapshot.cost);
    SumOfField(CostOf, Lines(order, snapshot), FreshCosts(stored, items));
    AllocateConserves(stored, Quantities(items));
    AllocateConserves(stored, DefaultCosts(items));
  }

  /**
    An order has a line for each of its items, sixty at most, or one if it has none: numbered
    from 1, with the item's own quantity where that can be one, and the cost of a unit to
    the nearest whole.
  */
  lemma LinesAreItems(order: Order, snapshot: Snapshot, i: nat)
    requires i < |Lines(order, snapshot)|
    ensures var n, line := |order.items|, Lines(order, snapshot)[i];
            && |Lines(order, snapshot)| == (if n == 0 then 1 else if n <= 60 then n else 60)
            && line.id == i + 1 && line.qty > 0
            && (n > 0 ==> line.qty == if 1 <= order.items[i].qty <= AMOUNT_MAX then order.items[i].qty else 1)
            && 2 * line.cost - line.qty <= 2 * (line.unitPrice * line.qty) <= 2 * line.cost + line.qty
  {
    UnitPriceNear(Lines(order, snapshot)[i].cost, Lines(order, snapshot)[i].qty);
  }

  /** What a total is to be spread by: the weights if they say anything, else the quantities. */
  predicate SharesBy(total: nat, weights: seq<int>, items: seq<Item>, i: nat, share: int)
    requires i < |items| == |weights|
  {
    var w := if Sum(weights) > 0 then weights else Quantities(items);
    Sum(w) > 0 && total * w[i] / Sum(w) <= share <= total * w[i] / Sum(w) + 1
  }

  lemma SpreadNear(total: nat, weights: seq<int>, items: seq<Item>, i: nat)
    requires total <= AMOUNT_MAX && i < |items| == |weights| && forall k :: 0 <= k < |weights| ==> weights[k] >= 0
    ensures Sum(weights) >= 0
    ensures var w := if Sum(weights) > 0 then weights else Quantities(items);
            SharesBy(total, weights, items, i, Allocate(total, w)[i])
  {
    SumNonNegative(Id, weights);
    QuantitiesPositive(items);
    AllocateNear(total, if Sum(weights) > 0 then weights else Quantities(items), i);
  }

  lemma {:induction false} QuantitiesPositive(items: seq<Item>)
    ensures Sum(Quantities(items)) >= |items|
  {
    if |items| > 0 {
      QuantitiesPositive(items[..|items| - 1]);
      assert Quantities(items)[..|items| - 1] == Quantities(items[..|items| - 1]);
    }
  }

  /** Its share of the snapshot's total, or else the order's, by the items' own prices, or else by quantity. */
  predicate IsDefaultSale(order: Order, snapshot: Snapshot, i: nat, sale: int)
    requires i < |Sources(order)|
  {
    var items := Sources(order);
    var total := Amount(match snapshot.sale case Some(v) => v case None => order.total);
    if Sum(Prices(items)) > 0 && total == 0 then sale == Prices(items)[i]
    else SharesBy(total, Prices(items), items, i, sale)
  }

  lemma DefaultSaleIs(order: Order, snapshot: Snapshot, i: nat)
    requires i < |Sources(order)|
    ensures IsDefaultSale(order, snapshot, i, DefaultSales(SaleTotal(order, snapshot), Sources(order))[i])
  {
    SpreadNear(SaleTotal(order, snapshot), Prices(Sources(order)), Sources(order), i);
  }

  /**
    Materialised afresh, a line's sale is its default share, and its cost the item's default,
    or its share of a stored cost that disagrees, by the defaults or else by quantity.
  */
  lemma FreshShares(order: Order, snapshot: Snapshot, i: nat)
    requires |snapshot.lines| == 0 && i < |Sources(order)|
    ensures IsDefaultSale(order, snapshot, i, Lines(order, snapshot)[i].sale)
    ensures var items, line := Sources(order), Lines(order, snapshot)[i];
            var stored := Amount(snapshot.cost);
            if stored == 0 || Sum(DefaultCosts(items)) == stored then line.cost == DefaultCosts(items)[i]
            else SharesBy(stored, DefaultCosts(items), items, i, line.cost)
  {
    DefaultSaleIs(order, snapshot, i);
    SpreadNear(Amount(snapshot.cost), DefaultCosts(Sources(order)), Sources(order), i);
  }

  /** The stored line of an id, the last of several, or the one at its place if none has the id. */
  predicate IsStoredFor(saved: seq<StoredLine>, i: nat, k: nat)
  {
    && k < |saved|
    && if exists j :: 0 <= j < |saved| && saved[j].id == Some(i + 1)
       then IsLastOf(saved, i + 1, k) else k == i
  }

  /** The k-th stored line is the last that carries the id. */
  predicate IsLastOf(saved: seq<StoredLine>, id: nat, k: int)
  {
    && 0 <= k < |saved| && saved[k].id == Some(id)
    && forall j :: k < j < |saved| ==> saved[j].id != Some(id)
  }

  lemma {:induction false} FindStoredIs(saved: seq<StoredLine>, id: nat)
    ensures FindStored(saved, id).None? <==> forall j :: 0 <= j < |saved| ==> saved[j].id != Some(id)
    ensures forall k :: IsLastOf(saved, id, k) ==> FindStored(saved, id) == Some(saved[k])
  {
    if |saved| > 0 {
      var front := saved[..|saved| - 1];
      FindStoredIs(front, id);
      forall k | IsLastOf(saved, id, k) ensures k == |front| || IsLastOf(front, id, k) {
        assert forall j :: 0 <= j < |front| ==> front[j] == saved[j];
      }
    }
  }

  /** A line that the snapshot stores says what is stored of it, and costs its units where only their price is. */
  lemma StoredLineCounts(order: Order, snapshot: Snapshot, i: nat, k: nat)
    requires i < |Sources(order)| && IsStoredFor(snapshot.lines, i, k)
    ensures var stored, line := snapshot.lines[k], Lines(order, snapshot)[i];
            && (if stored.sale.Some? && InRange(stored.sale.value) then line.sale == stored.sale.value
                else IsDefaultSale(order, snapshot, i, line.sale))
            && (stored.cost.Some? && InRange(stored.cost.value) ==> line.cost == stored.cost.value)
            && (stored.cost.Some? && !InRange(stored.cost.value) ==> line.cost == Sources(order)[i].defaultCost)
            && (stored.cost.None? && stored.unitPrice.None? ==> line.cost == Sources(order)[i].defaultCost)
            && (stored.cost.None? && stored.unitPrice.Some? && InRange(stored.unitPrice.value) ==>
                  var units := match stored.supplierQty
                               case Some(q) => if q != 0 then Quantity(q) else line.qty
                               case None => line.qty;
                  line.cost == Amount(stored.unitPrice.value * units))
  {
    DefaultSaleIs(order, snapshot, i);
    FindStoredIs(snapshot.lines, i + 1);
    assert StoredFor(snapshot.lines, i) == snapshot.lines[k];
  }

  /** A line that a snapshot of lines says nothing of has its default sale and its item's default cost. */
  lemma UnstoredLineDefaults(order: Order, snapshot: Snapshot, i: nat)
    requires 0 < |snapshot.lines| <= i < |Sources(order)|
    requires forall j :: 0 <= j < |snapshot.lines| ==> snapshot.lines[j].id != Some(i + 1)
    ensures var line := Lines(order, snapshot)[i];
            IsDefaultSale(order, snapshot, i, line.sale) && line.cost == Sources(order)[i].defaultCost
  {
    DefaultSaleIs(order, snapshot, i);
    FindStoredIs(snapshot.lines, i + 1);
  }

  /** How a snapshot stores lines that were materialised. */
  function Store(lines: seq<Line>): seq<StoredLine>
  {
    seq(|lines|, i requires 0 <= i < |lines| =>
      StoredLine(Some(lines[i].id), Some(lines[i].sale), Some(lines[i].cost),
                 Some(lines[i].unitPrice), Some(lines[i].qty)))
  }

  lemma {:induction false} FindInStore(lines: seq<Line>, k: nat, n: nat)
    requires k < n <= |lines|
    requires forall i :: 0 <= i < |lines| ==> lines[i].id == i + 1
    ensures FindStored(Store(lines)[..n], k + 1) == Some(Store(lines)[k])
  {
    if n > k + 1 {
      FindInStore(lines, k, n - 1);
      assert Store(lines)[..n][..n - 1] == Store(lines)[..n - 1];
    }
  }

  // ------------------------------------------------------------------ editing lines

  /** One field of an edit: not sent, sent empty (which means 0), or sent with a value. */
  datatype Field = Absent | Blank | Value(value: int)

  datatype Edit = Edit(id: nat, sale: Field, cost: Field)

  datatype EditError = TooManyLines | UnknownLine | RepeatedLine | InvalidSale | InvalidCost

  predicate ValidField(field: Field)
  {
    field.Value? ==> InRange(field.value)
  }

  function Apply(field: Field, current: int): int
  {
    match field
    case Absent => current
    case Blank => 0
    case Value(v) => v
  }

  /** The first n edits name distinct existing lines with valid amounts. */
  predicate Acceptable(edits: seq<Edit>, n: nat, lines: nat)
    requires n <= |edits|
  {
    && (forall k :: 0 <= k < n ==>
          1 <= edits[k].id <= lines && ValidField(edits[k].sale) && ValidField(edits[k].cost))
    && (forall j, k :: 0 <= j < k < n ==> edits[j].id != edits[k].id)
  }

  function EditLine(line: Line, edit: Edit): Line
  {
    var cost := Apply(edit.cost, line.cost);
    line.(sale := Magnitude(Apply(edit.sale, line.sale)),
          cost := cost,
          unitPrice := if edit.cost.Absent? then line.unitPrice else UnitPrice(cost, Quantity(line.qty)))
  }

  function Magnitude(x: int): nat
  {
    if x < 0 then -x else x
  }

  /** What an edit sends of a field is what is stored: the value, 0 if sent empty, or else what there was. */
  predicate FieldStored(field: Field, before: int, after: int)
  {
    && (field.Value? ==> after == field.value)
    && (field.Blank? ==> after == 0)
    && (field.Absent? ==> after == before)
  }

  /** The line stores what was sent and is otherwise as before; a sent cost is spread over its units, rounded. */
  predicate EditStored(before: Line, edit: Edit, after: Line)
  {
    && after.id == before.id && after.qty == before.qty
    && FieldStored(edit.sale, before.sale, after.sale) && FieldStored(edit.cost, before.cost, after.cost)
    && if edit.cost.Absent? then after.unitPrice == before.unitPrice
       else
         var qty: int := Quantity(before.qty);
         2 * after.cost - qty <= 2 * (after.unitPrice * qty) <= 2 * after.cost + qty
  }

  lemma EditIsStored(line: Line, edit: Edit)
    requires ValidField(edit.sale) && ValidField(edit.cost)
    ensures EditStored(line, edit, EditLine(line, edit))
  {
    if !edit.cost.Absent? {
      UnitPriceNear(Apply(edit.cost, line.cost), Quantity(line.qty));
    }
  }

  lemma UnitPriceNear(cost: int, qty: nat)
    requires qty > 0
    ensures 2 * cost - qty <= 2 * (UnitPrice(cost, qty) * qty) <= 2 * cost + qty
  {
    if cost >= 0 {
      HalfUpNear(cost, qty);
    } else {
      HalfUpNear(-cost, qty);
      var unit := HalfUp(-cost, qty) as int;
      assert (0 - unit) * qty == 0 - unit * qty;
    }
  }

  lemma HalfUpNear(cost: nat, qty: nat)
    requires qty > 0
    ensures 2 * cost - qty <= 2 * (HalfUp(cost, qty) * qty) <= 2 * cost + qty
  {
    var x, d := 2 * cost + qty, 2 * qty;
    var unit := x / d;
    assert x == unit * d + x % d;
    assert unit * d == 2 * (unit * qty);
  }

  predicate Names(edits: seq<Edit>, n: nat, id: nat)
    requires n <= |edits|
  {
    exists k :: 0 <= k < n && edits[k].id == id
  }

  /** After the first n edits, the named lines are edited and the others are as before. */
  ghost predicate EditedAs(edits: seq<Edit>, n: nat, before: seq<Line>, after: seq<Line>)
    requires n <= |edits| && Acceptable(edits, n, |before|)
  {
    && |after| == |before|
    && (forall k :: 0 <= k < n ==> after[edits[k].id - 1] == EditLine(before[edits[k].id - 1], edits[k]))
    && (forall i: nat :: i < |before| && !Names(edits, n, i + 1) ==> after[i] == before[i])
  }

  function AmountOfSale(line: Line): int { Amount(line.sale) }

  function AmountOfCost(line: Line): int { Amount(line.cost) }

  function QuantityOf(line: Line): int { Quantity(line.qty) }

  function AtLeastOne(n: int): nat
  {
    if n < 1 then 1 else n
  }

  lemma NamesStep(edits: seq<Edit>, n: nat)
    requires n < |edits|
    ensures forall id :: Names(edits, n + 1, id) <==> Names(edits, n, id) || id == edits[n].id
  {
    forall id ensures Names(edits, n + 1, id) <==> Names(edits, n, id) || id == edits[n].id {
      assert edits[n].id == edits[n].id;
      if k :| 0 <= k < n && edits[k].id == id {
        assert edits[k].id == id;
      }
    }
  }

  lemma AcceptableStep(edits: seq<Edit>, n: nat, lines: nat)
    requires n < |edits|
    ensures Acceptable(edits, n + 1, lines) <==>
              && Acceptable(edits, n, lines)
              && 1 <= edits[n].id <= lines && ValidField(edits[n].sale) && ValidField(edits[n].cost)
              && !Names(edits, n, edits[n].id)
  {
  }

  lemma {:induction false} AcceptablePrefix(edits: seq<Edit>, n: nat, lines: nat)
    requires n <= |edits|
    ensures Acceptable(edits, |edits|, lines) ==> Acceptable(edits, n, lines)
  {
  }

  lemma EditStep(edits: seq<Edit>, n: nat, before: seq<Line>, after: seq<Line>)
    requires n < |edits| && Acceptable(edits, n + 1, |before|)
    requires Acceptable(edits, n, |before|) && EditedAs(edits, n, before, after)
    ensures after[edits[n].id - 1] == before[edits[n].id - 1]
    ensures EditedAs(edits, n + 1, before,
                     after[edits[n].id - 1 := EditLine(before[edits[n].id - 1], edits[n])])
  {
    NamesStep(edits, n);
    AcceptableStep(edits, n, |before|);
    var i: nat := edits[n].id - 1;
    assert !Names(edits, n, i + 1);
  }

  method EditLines(baseline: seq<Line>, edits: seq<Edit>) returns (result: Result<seq<Line>, EditError>)
    ensures result.Ok? <==> Acceptable(edits, |edits|, |baseline|)
    ensures result.Ok? ==> EditedAs(edits, |edits|, baseline, result.value)
    ensures result.Err? ==> result.error != TooManyLines
  {
    var updated := baseline;
    var seen: set<nat> := {};
    for n := 0 to |edits|
      invariant Acceptable(edits, n, |baseline|)
      invariant EditedAs(edits, n, baseline, updated)
      invariant forall id :: id in seen <==> Names(edits, n, id)
    {
      var edit := edits[n];
      NamesStep(edits, n);
      AcceptableStep(edits, n, |baseline|);
      AcceptablePrefix(edits, n + 1, |baseline|);
      if edit.id < 1 || edit.id > |baseline| {
        return Err(UnknownLine);
      }
      if edit.id in seen {
        return Err(RepeatedLine);
      }
      seen := seen + {edit.id};
      if !ValidField(edit.sale) {
        return Err(InvalidSale);
      }
      if !ValidField(edit.cost) {
        return Err(InvalidCost);
      }
      EditStep(edits, n, baseline, updated);
      updated := updated[edit.id - 1 := EditLine(updated[edit.id - 1], edit)];
    }
    result := Ok(updated);
  }

  /** The snapshot that holds edited lines, its aggregates restored to line sums. */
  method Aggregated(lines: seq<Line>) returns (snapshot: Snapshot)
    ensures snapshot.lines == Store(lines)
    ensures snapshot.sale == Some(SumBy(AmountOfSale, lines))
    ensures snapshot.cost == SumBy(AmountOfCost, lines)
    ensures snapshot.qty == SumBy(QuantityOf, lines)
    ensures snapshot.unitPrice == UnitPrice(snapshot.cost, AtLeastOne(snapshot.qty))
  {
    var sale, cost, qty := 0, 0, 0;
    for i := 0 to |lines|
      invariant sale == SumBy(AmountOfSale, lines[..i])
      invariant cost == SumBy(AmountOfCost, lines[..i])
      invariant qty == SumBy(QuantityOf, lines[..i])
    {
      SumStep(AmountOfSale, lines, i);
      SumStep(AmountOfCost, lines, i);
      SumStep(QuantityOf, lines, i);
      sale, cost, qty := sale + Amount(lines[i].sale), cost + Amount(lines[i].cost), qty + Quantity(lines[i].qty);
    }
    assert lines[..|lines|] == lines;
    snapshot := Snapshot(Some(sale), cost, qty, UnitPrice(cost, AtLeastOne(qty)), Store(lines));
  }

  /**
    Apply item-by-item edits: refused as a whole, or exactly the named lines
    change and the aggregates equal the line sums again.
  */
  method ApplyLineItems(order: Order, snapshot: Snapshot, edits: seq<Edit>)
    returns (result: Result<Snapshot, EditError>, ghost after: seq<Line>)
    ensures result.Ok? <==>
              |edits| <= LINE_ITEMS_MAX && Acceptable(edits, |edits|, |Lines(order, snapshot)|)
    ensures result.Err? ==> (result.error == TooManyLines <==> |edits| > LINE_ITEMS_MAX)
    ensures result.Ok? ==>
              && EditedAs(edits, |edits|, Lines(order, snapshot), after)
              && (forall k :: 0 <= k < |edits| ==>
                    EditStored(Lines(order, snapshot)[edits[k].id - 1], edits[k], after[edits[k].id - 1]))
              && result.value.lines == Store(after)
              && result.value.sale == Some(SumBy(AmountOfSale, after))
              && result.value.cost == SumBy(AmountOfCost, after)
              && result.value.qty == SumBy(QuantityOf, after)
  {
    after := [];
    if |edits| > LINE_ITEMS_MAX {
      result := Err(TooManyLines);
    } else {
      var baseline := LineItemsForOrder(order, snapshot);
      var edited := EditLines(baseline, edits);
      match edited
      case Err(e) => result := Err(e);
      case Ok(lines) =>
        after := lines;
        forall k | 0 <= k < |edits| ensures EditStored(baseline[edits[k].id - 1], edits[k], after[edits[k].id - 1]) {
          EditIsStored(baseline[edits[k].id - 1], edits[k]);
        }
        var updated := Aggregated(lines);
        result := Ok(updated);
    }
  }

  lemma CostInRange(order: Order, snapshot: Snapshot, i: nat)
    requires i < |Sources(order)| && InRange(Sources(order)[i].defaultCost)
    ensures InRange(Lines(order, snapshot)[i].cost)
  {
    if |snapshot.lines| == 0 {
      var items := Sources(order);
      AllocateConserves(Amount(snapshot.cost), Quantities(items));
      AllocateConserves(Amount(snapshot.cost), DefaultCosts(items));
      assert Lines(order, snapshot)[i].cost == FreshCosts(Amount(snapshot.cost), items)[i];
    } else {
      assert Lines(order, snapshot)[i].cost == StoredCost(StoredFor(snapshot.lines, i), Sources(order)[i]);
    }
  }

  lemma SaleInRange(order: Order, snapshot: Snapshot, i: nat)
    requires i < |Sources(order)|
    ensures InRange(Lines(order, snapshot)[i].sale) && Lines(order, snapshot)[i].id == i + 1
  {
    var sales := DefaultSales(SaleTotal(order, snapshot), Sources(order));
    DefaultSalesInRange(SaleTotal(order, snapshot), Sources(order));
    if |snapshot.lines| == 0 {
      assert Lines(order, snapshot)[i].sale == sales[i];
    } else {
      assert Lines(order, snapshot)[i].sale == AmountOr(StoredFor(snapshot.lines, i).sale, sales[i]);
    }
  }

  lemma LinesInRange(order: Order, snapshot: Snapshot)
    requires forall item :: item in Sources(order) ==> InRange(item.defaultCost)
    ensures forall i: nat :: i < |Sources(order)| ==>
              var line := Lines(order, snapshot)[i];
              line.id == i + 1 && InRange(line.sale) && InRange(line.cost)
  {
    forall i: nat | i < |Sources(order)|
      ensures var line := Lines(order, snapshot)[i];
              line.id == i + 1 && InRange(line.sale) && InRange(line.cost)
    {
      assert Sources(order)[i] in Sources(order);
      CostInRange(order, snapshot, i);
      SaleInRange(order, snapshot, i);
    }
  }

  lemma EditedInRange(edits: seq<Edit>, before: seq<Line>, after: seq<Line>)
    requires Acceptable(edits, |edits|, |before|) && EditedAs(edits, |edits|, before, after)
    requires forall i: nat :: i < |before| ==>
               before[i].id == i + 1 && InRange(before[i].sale) && InRange(before[i].cost)
    ensures forall i: nat :: i < |after| ==>
              after[i].id == i + 1 && InRange(after[i].sale) && InRange(after[i].cost)
  {
    forall i: nat | i < |after|
      ensures after[i].id == i + 1 && InRange(after[i].sale) && InRange(after[i].cost)
    {
      if Names(edits, |edits|, i + 1) {
        var k :| 0 <= k < |edits| && edits[k].id == i + 1;
        assert after[edits[k].id - 1] == EditLine(before[i], edits[k]);
      }
    }
  }

  /** A snapshot holding in-range lines of an order reads back with their amounts. */
  lemma StoredLineRereads(order: Order, edited: Snapshot, lines: seq<Line>, i: nat)
    requires |lines| == |Sources(order)| && i < |lines| && edited.lines == Store(lines)
    requires forall k: nat :: k < |lines| ==> lines[k].id == k + 1
    requires InRange(lines[i].sale) && InRange(lines[i].cost)
    ensures Lines(order, edited)[i].sale == lines[i].sale
    ensures Lines(order, edited)[i].cost == lines[i].cost
  {
    FindInStore(lines, i, |lines|);
    assert Store(lines)[..|lines|] == Store(lines);
  }

  /** A line is made from its item, its sale and its cost alone. */
  lemma LineShape(order: Order, snapshot: Snapshot, i: nat)
    requires i < |Sources(order)|
    ensures var line := Lines(order, snapshot)[i];
            line == MakeLine(i, Sources(order)[i], line.sale, line.cost)
  {
  }

  /** Reading back a snapshot that holds an order's lines returns those very lines. */
  lemma RereadReturnsSameLines(order: Order, snapshot: Snapshot, reread: Snapshot)
    requires reread.lines == Store(Lines(order, snapshot))
    requires forall item :: item in Sources(order) ==> InRange(item.defaultCost)
    ensures Lines(order, reread) == Lines(order, snapshot)
  {
    LinesInRange(order, snapshot);
    forall i: nat | i < |Sources(order)|
      ensures Lines(order, reread)[i] == Lines(order, snapshot)[i]
    {
      StoredLineRereads(order, reread, Lines(order, snapshot), i);
      LineShape(order, snapshot, i);
      LineShape(order, reread, i);
    }
  }

  /** An edited snapshot reads back as the edited lines, so the aggregates stay the line sums. */
  lemma EditedSnapshotRereads(order: Order, snapshot: Snapshot, edits: seq<Edit>, after: seq<Line>, edited: Snapshot)
    requires Acceptable(edits, |edits|, |Lines(order, snapshot)|)
    requires EditedAs(edits, |edits|, Lines(order, snapshot), after)
    requires edited.lines == Store(after)
    requires forall item :: item in Sources(order) ==> InRange(item.defaultCost)
    ensures |Lines(order, edited)| == |after|
    ensures forall i: nat :: i < |after| ==>
              Lines(order, edited)[i].sale == after[i].sale && Lines(order, edited)[i].cost == after[i].cost
  {
    LinesInRange(order, snapshot);
    EditedInRange(edits, Lines(order, snapshot), after);
    forall i: nat | i < |after|
      ensures Lines(order, edited)[i].sale == after[i].sale && Lines(order, edited)[i].cost == after[i].cost
    {
      StoredLineRereads(order, edited, after, i);
    }
  }

  method BuildLines(items: seq<Item>, saved: seq<StoredLine>, sales: seq<int>, costs: seq<int>)
    returns (lines: seq<Line>)
    requires |items| == |sales| == |costs| && forall i :: 0 <= i < |sales| ==> InRange(sales[i])
    ensures |lines| == |items|
    ensures forall i :: 0 <= i < |items| ==> lines[i] == LineAt(items, saved, sales, costs, i)
  {
    lines := [];
    for i := 0 to |items|
      invariant |lines| == i
      invariant forall k :: 0 <= k < i ==> lines[k] == LineAt(items, saved, sales, costs, k)
    {
      var line := MakeLine(i, items[i], sales[i], costs[i]);
      if |saved| > 0 {
        var stored := StoredFor(saved, i);
        line := MakeLine(i, items[i], AmountOr(stored.sale, sales[i]), StoredCost(stored, items[i]));
      }
      lines := lines + [line];
    }
  }

  method SpreadSales(total: nat, items: seq<Item>) returns (sales: seq<int>)
    requires |items| <= LINE_ITEMS_MAX
    ensures sales == DefaultSales(total, items)
  {
    var prices := Prices(items);
    if Sum(prices) == 0 {
      sales := AllocateAmount(total, Quantities(items));
    } else if total == 0 {
      sales := prices;
    } else {
      sales := AllocateAmount(total, prices);
    }
  }

  method SpreadCosts(stored: nat, items: seq<Item>) returns (costs: seq<int>)
    requires |items| <= LINE_ITEMS_MAX
    ensures costs == FreshCosts(stored, items)
  {
    costs := DefaultCosts(items);
    if stored > 0 && Sum(costs) != stored {
      var weights := if Sum(costs) != 0 then costs else Quantities(items);
      costs := AllocateAmount(stored, weights);
    }
  }

  /** The fresh and the saved path: spread what is not stored, then one line per product. */
  method LineItemsForOrder(order: Order, snapshot: Snapshot) returns (lines: seq<Line>)
    ensures lines == Lines(order, snapshot)
  {
    var items := Sources(order);
    var sales := SpreadSales(SaleTotal(order, snapshot), items);
    var costs := SpreadCosts(Amount(snapshot.cost), items);
    DefaultSalesInRange(SaleTotal(order, snapshot), items);
    lines := BuildLines(items, snapshot.lines, sales, costs);
  }
}
