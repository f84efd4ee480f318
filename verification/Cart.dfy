/**
  Server-side validation of a cart (api.py): duplicate lines are aggregated,
  every stock pool is checked once against all it is asked for, and the lines
  are priced from the live catalogue.
*/
module Cart {
  import opened Sums
  import opened Wrappers
  import opened Stock
  import opened Pricing
  import Currency
  import Money

  datatype Key = Key(id: string, variant: string, note: string)

  /** A line of the cart as sent, or of the order after aggregation. */
  datatype Line = Line(key: Key, qty: Units)

  datatype Sale = Sale(cat: Catalogue, tags: map<string, PriceTag>, noted: set<string>,
                       settings: Settings, currency: Money.Currency)

  datatype PricedLine = PricedLine(line: Line, price: int, bulkPercent: Percent)

  datatype Refusal = Unknown(id: string)
                   | Limited(id: string, variant: string, available: nat, requested: nat)

  datatype Bill = Bill(lines: seq<PricedLine>, subtotal: int)

  // ---------------------------------------------------------------- pools and prices

  const UNRESOLVED := "__invalid__"

  /** The folded spelling of an option, over plain letters and digits. */
  function Fold(s: string): string
  {
    if s == "" then ""
    else
      var c := s[0];
      (if 'A' <= c <= 'Z' then [(c as int + 32) as char]
       else if 'a' <= c <= 'z' || '0' <= c <= '9' then [c]
       else "") + Fold(s[1..])
  }

  lemma {:induction false} FoldJoins(a: string, b: string)
    ensures Fold(a + b) == Fold(a) + Fold(b)
  {
    if a != "" {
      assert (a + b)[1..] == a[1..] + b;
      FoldJoins(a[1..], b);
    } else {
      assert a + b == b;
    }
  }

  /** Capitals, blanks and signs make no difference to a spelling; any other letter or digit does. */
  lemma FoldOfOne(a: string, c: char, b: string)
    ensures 'A' <= c <= 'Z' ==> Fold(a + [c] + b) == Fold(a + [(c as int + 32) as char] + b)
    ensures !('A' <= c <= 'Z' || 'a' <= c <= 'z' || '0' <= c <= '9') ==> Fold(a + [c] + b) == Fold(a + b)
    ensures 'a' <= c <= 'z' || '0' <= c <= '9' ==> Fold(a + [c] + b) == Fold(a) + [c] + Fold(b)
  {
    FoldJoins(a, b);
    FoldAround(a, c, b);
    if 'A' <= c <= 'Z' {
      FoldAround(a, (c as int + 32) as char, b);
    }
  }

  lemma FoldAround(a: string, c: char, b: string)
    ensures Fold(a + [c] + b) == Fold(a) + Fold([c]) + Fold(b)
    ensures 'A' <= c <= 'Z' ==> Fold([c]) == [(c as int + 32) as char]
    ensures 'a' <= c <= 'z' || '0' <= c <= '9' ==> Fold([c]) == [c]
    ensures !('A' <= c <= 'Z' || 'a' <= c <= 'z' || '0' <= c <= '9') ==> Fold([c]) == ""
  {
    FoldJoins(a + [c], b);
    FoldJoins(a, [c]);
    assert [c][1..] == "";
  }

  datatype Shelf = Shelf(id: string, pool: string)

  function ShelfOf(cat: Catalogue, key: Key): Shelf
    requires key.id in cat.products
  {
    var option := ResolveOption(cat.products[key.id], key.variant);
    Shelf(key.id,
          if key.variant == "" then WHOLE
          else if option.Some? then option.value
          else UNRESOLVED + Fold(key.variant))
  }

  /** What a line may ask for at most; a selected but unassigned variant has no stock. */
  function Available(product: Product, variant: string): nat
  {
    if product.locked then 0
    else if variant == "" || variant == WHOLE then
      if Optionless(product) then product.stock else 0
    else
      match ResolveOption(product, variant)
      case None => 0
      case Some(key) =>
        var units := product.optionStock[key];
        if units < product.stock then units else product.stock
  }

  function Tag(sale: Sale, id: string): PriceTag
  {
    if id in sale.tags then sale.tags[id] else PriceTag(0, 0, [], map[], 0, 0)
  }

  // -------------------------------------------------------------------- aggregation

  /** A line on the row that really exists, with its note only if the product takes notes. */
  function Resolved(sale: Sale, l: Line): Line
  {
    var id := Canonical(sale.cat, l.key.id);
    Line(Key(id, l.key.variant, if id in sale.cat.products && id in sale.noted then l.key.note else ""), l.qty)
  }

  /**
    A line keeps what was sent but its note, where the product takes none, and its id,
    where that is an old one of a product there is; to resolve it again changes nothing.
  */
  lemma ResolvedIs(sale: Sale, l: Line)
    ensures var r, cat := Resolved(sale, l), sale.cat;
            && r.qty == l.qty && r.key.variant == l.key.variant
            && (r.key.id in cat.products
                <==> l.key.id in cat.products || (l.key.id in cat.legacy && cat.legacy[l.key.id] in cat.products))
            && (r.key.id == l.key.id || (l.key.id !in cat.products && r.key.id in cat.products))
            && r.key.note == (if r.key.id in cat.products && r.key.id in sale.noted then l.key.note else "")
            && Resolved(sale, r) == r
  {
  }

  function ResolvedAll(sale: Sale, lines: seq<Line>): seq<Line>
  {
    seq(|lines|, i requires 0 <= i < |lines| => Resolved(sale, lines[i]))
  }

  function Position(groups: seq<Line>, key: Key): (i: nat)
    ensures i <= |groups|
    ensures i < |groups| ==> groups[i].key == key
    ensures forall j :: 0 <= j < i ==> groups[j].key != key
  {
    if |groups| == 0 || groups[0].key == key then 0 else 1 + Position(groups[1..], key)
  }

  function AddTo(groups: seq<Line>, l: Line): seq<Line>
  {
    var i := Position(groups, l.key);
    if i == |groups| then groups + [l] else groups[i := Line(l.key, groups[i].qty + l.qty)]
  }

  function Grouped(lines: seq<Line>): seq<Line>
  {
    if |lines| == 0 then [] else AddTo(Grouped(lines[..|lines| - 1]), lines[|lines| - 1])
  }

  // -------------------------------------------------------------- weights of a cart

  function Scaled(weight: int, qty: int): int
  {
    weight * qty
  }

  /** A quantity-proportional measure of a line. */
  function Weighing(w: Key -> int): Line -> int
  {
    (l: Line) => Scaled(w(l.key), l.qty)
  }

  function Weight(w: Key -> int, lines: seq<Line>): int
  {
    SumBy(Weighing(w), lines)
  }

  function OfProduct(id: string): Key -> int
  {
    (k: Key) => if k.id == id then 1 else 0
  }

  function OfShelf(cat: Catalogue, shelf: Shelf): Key -> int
  {
    (k: Key) => if k.id in cat.products && ShelfOf(cat, k) == shelf then 1 else 0
  }

  function OfKey(key: Key): Key -> int
  {
    (k: Key) => if k == key then 1 else 0
  }

  lemma WeightNonNegative(w: Key -> int, lines: seq<Line>)
    requires forall k :: w(k) >= 0
    ensures Weight(w, lines) >= 0
  {
    forall l | l in lines ensures Weighing(w)(l) >= 0 {
      assert w(l.key) >= 0;
    }
    SumNonNegative(Weighing(w), lines);
  }

  /** Units of a product, of a shelf and of one exact line that a cart asks for. */
  function UnitsOf(lines: seq<Line>, id: string): nat
  {
    WeightNonNegative(OfProduct(id), lines);
    Weight(OfProduct(id), lines)
  }

  function RequestOn(cat: Catalogue, lines: seq<Line>, shelf: Shelf): nat
  {
    WeightNonNegative(OfShelf(cat, shelf), lines);
    Weight(OfShelf(cat, shelf), lines)
  }

  function UnitsAt(lines: seq<Line>, key: Key): nat
  {
    WeightNonNegative(OfKey(key), lines);
    Weight(OfKey(key), lines)
  }

  lemma WeightStep(w: Key -> int, lines: seq<Line>, i: nat)
    requires i < |lines|
    ensures Weight(w, lines[..i + 1]) == Weight(w, lines[..i]) + Scaled(w(lines[i].key), lines[i].qty)
  {
    SumStep(Weighing(w), lines, i);
  }

  /** One line weighs no more than all. */
  lemma WeightOfOne(w: Key -> int, lines: seq<Line>, i: nat)
    requires i < |lines| && forall k :: w(k) >= 0
    ensures Scaled(w(lines[i].key), lines[i].qty) <= Weight(w, lines)
  {
    forall l | l in lines ensures Weighing(w)(l) >= 0 {
      assert w(l.key) >= 0;
    }
    SumNonNegative(Weighing(w), lines);
    assert Weighing(w)(lines[i]) == Scaled(w(lines[i].key), lines[i].qty);
  }

  lemma ScaledByOneOrNone(q: int)
    ensures Scaled(1, q) == q && Scaled(0, q) == 0
  {
  }

  lemma ScaledAdds(w: int, a: int, b: int)
    ensures Scaled(w, a + b) == Scaled(w, a) + Scaled(w, b)
  {
  }

  lemma AddToWeighs(w: Key -> int, groups: seq<Line>, l: Line)
    ensures Weight(w, AddTo(groups, l)) == Weight(w, groups) + Weighing(w)(l)
  {
    var i := Position(groups, l.key);
    if i == |groups| {
      SumAppend(Weighing(w), groups, [l]);
      SumOne(Weighing(w), l);
    } else {
      var merged := Line(l.key, groups[i].qty + l.qty);
      SumUpdate(Weighing(w), groups, i, merged);
      ScaledAdds(w(l.key), groups[i].qty, l.qty);
    }
  }

  /** Aggregation keeps every quantity-proportional measure of the cart. */
  lemma {:induction false} GroupedWeighs(w: Key -> int, lines: seq<Line>)
    ensures Weight(w, Grouped(lines)) == Weight(w, lines)
  {
    if |lines| > 0 {
      GroupedWeighs(w, lines[..|lines| - 1]);
      AddToWeighs(w, Grouped(lines[..|lines| - 1]), lines[|lines| - 1]);
    }
  }

  predicate DistinctKeys(groups: seq<Line>)
  {
    forall i, j :: 0 <= i < j < |groups| ==> groups[i].key != groups[j].key
  }

  predicate HasKey(lines: seq<Line>, key: Key)
  {
    exists i :: 0 <= i < |lines| && lines[i].key == key
  }

  /** One group for every key of the cart and none besides. */
  lemma {:induction false} GroupedKeys(lines: seq<Line>, key: Key)
    ensures DistinctKeys(Grouped(lines))
    ensures HasKey(Grouped(lines), key) <==> HasKey(lines, key)
  {
    if |lines| > 0 {
      var front, last := lines[..|lines| - 1], lines[|lines| - 1];
      GroupedKeys(front, key);
      var groups := Grouped(front);
      var after := AddTo(groups, last);
      var p := Position(groups, last.key);
      forall i | 0 <= i < |groups| ensures i < |after| && after[i].key == groups[i].key {
      }
      assert after[p].key == last.key;
      if HasKey(front, key) {
        var i :| 0 <= i < |groups| && groups[i].key == key;
        assert after[i].key == key;
        var j :| 0 <= j < |front| && front[j].key == key;
        assert lines[j].key == key;
      } else if last.key == key {
        assert lines[|lines| - 1].key == key;
      } else {
        forall i | 0 <= i < |lines| ensures lines[i].key != key {
          assert i < |front| ==> front[i] == lines[i];
        }
        forall i | 0 <= i < |after| ensures after[i].key != key {
          assert i < |groups| ==> after[i].key == groups[i].key;
        }
      }
    }
  }

  // --------------------------------------------------------- the verdict on the cart

  predicate KnownUpTo(cat: Catalogue, groups: seq<Line>, n: nat)
    requires n <= |groups|
  {
    forall j :: 0 <= j < n ==> groups[j].key.id in cat.products
  }

  /** Some group before the i-th draws on this shelf. */
  predicate DrawnBefore(cat: Catalogue, groups: seq<Line>, i: nat, shelf: Shelf)
    requires i <= |groups| && KnownUpTo(cat, groups, i)
  {
    exists j :: 0 <= j < i && ShelfOf(cat, groups[j].key) == shelf
  }

  /** What is wrong with one group, if anything; a shelf is judged at its first group. */
  function Fault(cat: Catalogue, groups: seq<Line>, i: nat): Option<Refusal>
    requires i < |groups| && KnownUpTo(cat, groups, i)
  {
    var Key(id, variant, _) := groups[i].key;
    if id !in cat.products then Some(Unknown(id))
    else if !cat.products[id].online then Some(Limited(id, variant, 0, groups[i].qty))
    else
      var shelf := ShelfOf(cat, groups[i].key);
      if DrawnBefore(cat, groups, i, shelf) then None
      else
        var available := Available(cat.products[id], variant);
        var requested := RequestOn(cat, groups, shelf);
        if available == 0 || requested > available
        then Some(Limited(id, variant, available, requested)) else None
  }

  /**
    What a refusal says: the product is unknown; or it is not on sale; or what can be
    had is nothing, or less than all groups of its pool ask for together.
  */
  lemma FaultTells(cat: Catalogue, groups: seq<Line>, i: nat)
    requires i < |groups| && KnownUpTo(cat, groups, i) && Fault(cat, groups, i).Some?
    ensures var key := groups[i].key;
            match Fault(cat, groups, i).value
            case Unknown(id) => id == key.id && id !in cat.products
            case Limited(id, variant, available, requested) =>
              && id == key.id && variant == key.variant && id in cat.products
              && if !cat.products[id].online then available == 0 && requested == groups[i].qty
                 else
                   && available == Available(cat.products[id], variant)
                   && requested == RequestOn(cat, groups, ShelfOf(cat, key)) && requested >= groups[i].qty
                   && (available == 0 || available < requested)
  {
    if groups[i].key.id in cat.products {
      var shelf := ShelfOf(cat, groups[i].key);
      WeightOfOne(OfShelf(cat, shelf), groups, i);
      ScaledByOneOrNone(groups[i].qty);
    }
  }

  /** The first fault among the first n groups. */
  function FirstFault(cat: Catalogue, groups: seq<Line>, n: nat): Option<Refusal>
    requires n <= |groups|
    ensures FirstFault(cat, groups, n).None? ==> KnownUpTo(cat, groups, n)
  {
    if n == 0 then None
    else
      var earlier := FirstFault(cat, groups, n - 1);
      if earlier.Some? then earlier else Fault(cat, groups, n - 1)
  }

  function ChargeFor(sale: Sale, lines: seq<Line>): Key -> int
  {
    (k: Key) => PayUnit(Tag(sale, k.id), sale.settings, sale.currency, k.variant, UnitsOf(lines, k.id))
  }

  /** What the lines cost, every one at the price its product's whole quantity earns. */
  function Subtotal(sale: Sale, lines: seq<Line>): int
  {
    Weight(ChargeFor(sale, lines), lines)
  }

  function Priced(sale: Sale, groups: seq<Line>, l: Line): PricedLine
  {
    PricedLine(l, Scaled(ChargeFor(sale, groups)(l.key), l.qty),
               BulkPercent(Tag(sale, l.key.id), sale.settings, UnitsOf(groups, l.key.id)))
  }

  // ------------------------------------------------------------------ the operations

  function Count<K>(m: map<K, nat>, k: K): nat
  {
    if k in m then m[k] else 0
  }

  /** slots[k] is where the group of key k is. */
  ghost predicate Indexes(slots: map<Key, nat>, groups: seq<Line>)
  {
    forall k :: Position(groups, k) == if k in slots then slots[k] else |groups|
  }

  /** The groups of a cart, in the order their keys first appear. */
  method Aggregate(sale: Sale, lines: seq<Line>) returns (groups: seq<Line>)
    ensures groups == Grouped(ResolvedAll(sale, lines))
  {
    groups := [];
    var slots: map<Key, nat> := map[];
    ghost var resolved := ResolvedAll(sale, lines);
    for i := 0 to |lines|
      invariant groups == Grouped(resolved[..i]) && Indexes(slots, groups)
      invariant forall k :: k in slots ==> slots[k] < |groups|
    {
      var l := Resolved(sale, lines[i]);
      GroupedStep(resolved, i);
      groups, slots := AddLine(groups, slots, l);
    }
    assert resolved[..|lines|] == resolved;
  }

  lemma GroupedStep(lines: seq<Line>, i: nat)
    requires i < |lines|
    ensures Grouped(lines[..i + 1]) == AddTo(Grouped(lines[..i]), lines[i])
  {
    assert lines[..i + 1][..i] == lines[..i];
  }

  method AddLine(groups: seq<Line>, slots: map<Key, nat>, l: Line)
    returns (groups': seq<Line>, slots': map<Key, nat>)
    requires Indexes(slots, groups) && forall k :: k in slots ==> slots[k] < |groups|
    ensures groups' == AddTo(groups, l) && Indexes(slots', groups')
    ensures forall k :: k in slots' ==> slots'[k] < |groups'|
  {
    NextSlot(slots, groups, l);
    assert Position(groups, l.key) == if l.key in slots then slots[l.key] else |groups|;
    if l.key in slots {
      var slot := slots[l.key];
      groups', slots' := groups[slot := Line(l.key, groups[slot].qty + l.qty)], slots;
    } else {
      groups', slots' := groups + [l], slots[l.key := |groups|];
    }
  }

  lemma NextSlot(slots: map<Key, nat>, groups: seq<Line>, l: Line)
    requires Indexes(slots, groups) && forall k :: k in slots ==> slots[k] < |groups|
    ensures Indexes(if l.key in slots then slots else slots[l.key := |groups|], AddTo(groups, l))
  {
    forall k
      ensures Position(AddTo(groups, l), k)
              == if k == l.key || k in slots then Position(groups, k) else |AddTo(groups, l)|
    {
      PositionAfter(groups, l, k);
    }
  }

  lemma {:induction false} PositionIs(groups: seq<Line>, key: Key, i: nat)
    requires i <= |groups| && (i < |groups| ==> groups[i].key == key)
    requires forall j :: 0 <= j < i ==> groups[j].key != key
    ensures Position(groups, key) == i
  {
    var p := Position(groups, key);
    assert p < |groups| ==> groups[p].key == key;
  }

  lemma PositionAfter(groups: seq<Line>, l: Line, k: Key)
    ensures Position(AddTo(groups, l), k)
            == if k == l.key || Position(groups, k) < |groups| then Position(groups, k) else |AddTo(groups, l)|
  {
    var after := AddTo(groups, l);
    var p := if k == l.key || Position(groups, k) < |groups| then Position(groups, k) else |after|;
    PositionIs(after, k, p);
  }

  /** Units asked per product, and per shelf of the products that exist. */
  method Totals(cat: Catalogue, groups: seq<Line>)
    returns (quantities: map<string, nat>, requests: map<Shelf, nat>)
    ensures forall id :: Count(quantities, id) == UnitsOf(groups, id)
    ensures forall shelf :: Count(requests, shelf) == RequestOn(cat, groups, shelf)
  {
    quantities, requests := map[], map[];
    for i := 0 to |groups|
      invariant forall id :: Count(quantities, id) == UnitsOf(groups[..i], id)
      invariant forall shelf :: Count(requests, shelf) == RequestOn(cat, groups[..i], shelf)
    {
      var Line(key, qty) := groups[i];
      ScaledByOneOrNone(qty);
      forall id ensures UnitsOf(groups[..i + 1], id) == UnitsOf(groups[..i], id) + if key.id == id then qty else 0 {
        WeightStep(OfProduct(id), groups, i);
      }
      forall shelf
        ensures RequestOn(cat, groups[..i + 1], shelf)
                == RequestOn(cat, groups[..i], shelf) + Draw(cat, key, qty, shelf)
      {
        WeightStep(OfShelf(cat, shelf), groups, i);
        assert OfShelf(cat, shelf)(key) == if key.id in cat.products && ShelfOf(cat, key) == shelf then 1 else 0;
      }
      ghost var before, asked := quantities, requests;
      quantities := quantities[key.id := Count(quantities, key.id) + qty];
      assert forall id :: Count(quantities, id) == Count(before, id) + if key.id == id then qty else 0;
      if key.id in cat.products {
        var shelf := ShelfOf(cat, key);
        requests := requests[shelf := Count(requests, shelf) + qty];
      }
      forall shelf ensures Count(requests, shelf) == Count(asked, shelf) + Draw(cat, key, qty, shelf) {
      }
    }
    assert groups[..|groups|] == groups;
  }

  function Draw(cat: Catalogue, key: Key, qty: nat, shelf: Shelf): nat
  {
    if key.id in cat.products && ShelfOf(cat, key) == shelf then qty else 0
  }

  method PriceLine(sale: Sale, l: Line, quantity: nat) returns (p: PricedLine)
    ensures p.line == l && p.bulkPercent == BulkPercent(Tag(sale, l.key.id), sale.settings, quantity)
    ensures var unit := PayUnit(Tag(sale, l.key.id), sale.settings, sale.currency, l.key.variant, quantity);
            p.price == Scaled(unit, l.qty)
  {
    var tag := Tag(sale, l.key.id);
    var percent := BulkPercent(tag, sale.settings, quantity);
    var unit := UnitPrice(tag, sale.currency, l.key.variant, sale.settings.rate);
    var payUnit := unit;
    if percent > 0 {
      payUnit := Discounted(unit, percent);
      if sale.currency == Money.CFA {
        payUnit := Currency.RoundCfa(payUnit as real);
      }
    }
    p := PricedLine(l, Scaled(payUnit, l.qty), percent);
  }

  method JudgeGroup(cat: Catalogue, groups: seq<Line>, i: nat, requests: map<Shelf, nat>, checked: set<Shelf>)
    returns (fault: Option<Refusal>)
    requires i < |groups| && KnownUpTo(cat, groups, i)
    requires forall shelf :: Count(requests, shelf) == RequestOn(cat, groups, shelf)
    requires IsChecked(cat, groups, i, checked)
    ensures fault == Fault(cat, groups, i)
  {
    var Key(id, variant, _) := groups[i].key;
    if id !in cat.products {
      return Some(Unknown(id));
    }
    if !cat.products[id].online {
      return Some(Limited(id, variant, 0, groups[i].qty));
    }
    var shelf := ShelfOf(cat, groups[i].key);
    if shelf !in checked {
      var available := Available(cat.products[id], variant);
      var requested := Count(requests, shelf);
      if available == 0 || requested > available {
        return Some(Limited(id, variant, available, requested));
      }
    }
    return None;
  }

  ghost predicate IsVerdict(sale: Sale, groups: seq<Line>, r: Result<Bill, Refusal>)
  {
    match FirstFault(sale.cat, groups, |groups|)
    case Some(fault) => r == Err(fault)
    case None => r.Ok? && IsBill(sale, groups, r.value)
  }

  /** Validate and price a cart; the first group at fault is the one reported. */
  method CheckoutItems(sale: Sale, lines: seq<Line>) returns (r: Result<Bill, Refusal>)
    ensures IsVerdict(sale, Grouped(ResolvedAll(sale, lines)), r)
  {
    var groups := Aggregate(sale, lines);
    r := CheckoutGroups(sale, groups);
  }

  method CheckoutGroups(sale: Sale, groups: seq<Line>) returns (r: Result<Bill, Refusal>)
    ensures IsVerdict(sale, groups, r)
  {
    var quantities, requests := Totals(sale.cat, groups);
    var checked: set<Shelf> := {};
    var items: seq<PricedLine> := [];
    var subtotal := 0;
    for i := 0 to |groups|
      invariant FirstFault(sale.cat, groups, i).None?
      invariant IsChecked(sale.cat, groups, i, checked)
      invariant BillSoFar(sale, groups, items, subtotal, i)
    {
      var fault := JudgeGroup(sale.cat, groups, i, requests, checked);
      if fault.Some? {
        RefusedAt(sale, groups, i, fault.value);
        return Err(fault.value);
      }
      DrawnNext(sale.cat, groups, i, checked);
      checked := checked + {ShelfOf(sale.cat, groups[i].key)};
      var item := PriceLine(sale, groups[i], Count(quantities, groups[i].key.id));
      NextItem(sale, groups, items, subtotal, i, item);
      subtotal := subtotal + item.price;
      items := items + [item];
    }
    PaidInFull(sale, groups, items, subtotal);
    return Ok(Bill(items, subtotal));
  }

  lemma RefusedAt(sale: Sale, groups: seq<Line>, i: nat, fault: Refusal)
    requires i < |groups| && FirstFault(sale.cat, groups, i).None? && Fault(sale.cat, groups, i) == Some(fault)
    ensures IsVerdict(sale, groups, Err(fault))
  {
    FaultPropagates(sale.cat, groups, i + 1);
  }

  lemma PaidInFull(sale: Sale, groups: seq<Line>, items: seq<PricedLine>, subtotal: int)
    requires FirstFault(sale.cat, groups, |groups|).None? && BillSoFar(sale, groups, items, subtotal, |groups|)
    ensures IsVerdict(sale, groups, Ok(Bill(items, subtotal)))
  {
    assert groups[..|groups|] == groups;
  }

  ghost predicate IsChecked(cat: Catalogue, groups: seq<Line>, i: nat, checked: set<Shelf>)
    requires i <= |groups| && KnownUpTo(cat, groups, i)
  {
    forall s :: s in checked <==> DrawnBefore(cat, groups, i, s)
  }

  /** Every group priced in order, and their prices added up. */
  function PriceOf(p: PricedLine): int { p.price }

  /**
    The subtotal of a bill is what its lines cost together, each as many times what one unit
    of its own product costs when so many are bought.
  */
  lemma BillAddsUp(sale: Sale, groups: seq<Line>, bill: Bill)
    requires IsBill(sale, groups, bill)
    ensures bill.subtotal == SumBy(PriceOf, bill.lines)
    ensures forall i :: 0 <= i < |groups| && groups[i].key.id in sale.tags ==>
              var p, tag, units := bill.lines[i], sale.tags[groups[i].key.id], UnitsOf(groups, groups[i].key.id);
              && p.line == groups[i]
              && p.price == PayUnit(tag, sale.settings, sale.currency, p.line.key.variant, units) * p.line.qty
              && p.bulkPercent == BulkPercent(tag, sale.settings, units)
  {
    PricesAddUp(sale, groups, bill.lines, |groups|);
    assert groups[..|groups|] == groups && bill.lines[..|groups|] == bill.lines;
  }

  lemma {:induction false} PricesAddUp(sale: Sale, groups: seq<Line>, items: seq<PricedLine>, n: nat)
    requires n <= |groups| == |items|
    requires forall i :: 0 <= i < |groups| ==> items[i] == Priced(sale, groups, groups[i])
    ensures Weight(ChargeFor(sale, groups), groups[..n]) == SumBy(PriceOf, items[..n])
  {
    if n > 0 {
      PricesAddUp(sale, groups, items, n - 1);
      WeightStep(ChargeFor(sale, groups), groups, n - 1);
      SumStep(PriceOf, items, n - 1);
    }
  }

  predicate IsBill(sale: Sale, groups: seq<Line>, bill: Bill)
  {
    && |bill.lines| == |groups|
    && (forall i :: 0 <= i < |groups| ==> bill.lines[i] == Priced(sale, groups, groups[i]))
    && bill.subtotal == Subtotal(sale, groups)
  }

  predicate BillSoFar(sale: Sale, groups: seq<Line>, items: seq<PricedLine>, subtotal: int, n: nat)
    requires n <= |groups|
  {
    && |items| == n
    && (forall i :: 0 <= i < n ==> items[i] == Priced(sale, groups, groups[i]))
    && subtotal == Weight(ChargeFor(sale, groups), groups[..n])
  }

  lemma NextItem(sale: Sale, groups: seq<Line>, items: seq<PricedLine>, subtotal: int, n: nat, item: PricedLine)
    requires n < |groups| && BillSoFar(sale, groups, items, subtotal, n)
    requires item == Priced(sale, groups, groups[n])
    ensures BillSoFar(sale, groups, items + [item], subtotal + item.price, n + 1)
  {
    WeightStep(ChargeFor(sale, groups), groups, n);
  }

  lemma DrawnNext(cat: Catalogue, groups: seq<Line>, i: nat, checked: set<Shelf>)
    requires i < |groups| && KnownUpTo(cat, groups, i + 1) && IsChecked(cat, groups, i, checked)
    ensures IsChecked(cat, groups, i + 1, checked + {ShelfOf(cat, groups[i].key)})
  {
    assert DrawnBefore(cat, groups, i + 1, ShelfOf(cat, groups[i].key));
  }

  lemma FaultStays(cat: Catalogue, groups: seq<Line>, n: nat)
    requires n < |groups|
    ensures FirstFault(cat, groups, n).Some? ==> FirstFault(cat, groups, n + 1) == FirstFault(cat, groups, n)
  {
  }

  lemma {:induction false} FaultPropagates(cat: Catalogue, groups: seq<Line>, n: nat)
    requires n <= |groups|
    ensures FirstFault(cat, groups, n).Some? ==>
              FirstFault(cat, groups, |groups|) == FirstFault(cat, groups, n)
    decreases |groups| - n
  {
    if n < |groups| {
      FaultStays(cat, groups, n);
      FaultPropagates(cat, groups, n + 1);
    }
  }

  lemma {:induction false} WeightEqual(w: Key -> int, v: Key -> int, lines: seq<Line>)
    requires forall k :: w(k) == v(k)
    ensures Weight(w, lines) == Weight(v, lines)
  {
    forall l | l in lines ensures Weighing(w)(l) == Weighing(v)(l) {
      assert w(l.key) == v(l.key);
    }
    SumEqual(Weighing(w), Weighing(v), lines);
  }

  // ----------------------------------------------------- splitting and reordering lines

  function Without(lines: seq<Line>, key: Key): seq<Line>
  {
    if |lines| == 0 then []
    else if lines[|lines| - 1].key == key then Without(lines[..|lines| - 1], key)
    else Without(lines[..|lines| - 1], key) + [lines[|lines| - 1]]
  }

  lemma {:induction false} WithoutWeighs(w: Key -> int, lines: seq<Line>, key: Key)
    ensures Weight(w, lines) == Scaled(w(key), UnitsAt(lines, key)) + Weight(w, Without(lines, key))
    ensures |Without(lines, key)| <= |lines|
    ensures HasKey(lines, key) ==> |Without(lines, key)| < |lines| && UnitsAt(lines, key) > 0
  {
    if |lines| > 0 {
      var front, last := lines[..|lines| - 1], lines[|lines| - 1];
      WithoutWeighs(w, front, key);
      ScaledByOneOrNone(last.qty);
      assert UnitsAt(lines, key) == UnitsAt(front, key) + Scaled(OfKey(key)(last.key), last.qty);
      if last.key == key {
        ScaledAdds(w(key), UnitsAt(front, key), last.qty);
      } else {
        SumAppend(Weighing(w), Without(front, key), [last]);
        SumOne(Weighing(w), last);
        if HasKey(lines, key) {
          var i :| 0 <= i < |lines| && lines[i].key == key;
          assert front[i].key == key;
        }
      }
    }
  }

  lemma WithoutUnits(lines: seq<Line>, key: Key, other: Key)
    ensures UnitsAt(Without(lines, key), other) == if other == key then 0 else UnitsAt(lines, other)
  {
    WithoutWeighs(OfKey(other), lines, key);
    ScaledByOneOrNone(UnitsAt(lines, key));
  }

  /** The same units for every exact line. */
  ghost predicate SameUnits(a: seq<Line>, b: seq<Line>)
  {
    forall k :: UnitsAt(a, k) == UnitsAt(b, k)
  }

  lemma {:induction false} SameUnitsSameWeight(w: Key -> int, a: seq<Line>, b: seq<Line>)
    requires SameUnits(a, b)
    ensures Weight(w, a) == Weight(w, b)
    decreases |a| + |b|
  {
    if |a| + |b| > 0 {
      var key := if |a| > 0 then a[0].key else b[0].key;
      assert HasKey(a, key) || HasKey(b, key);
      WithoutWeighs(w, a, key);
      WithoutWeighs(w, b, key);
      assert UnitsAt(a, key) == UnitsAt(b, key);
      forall k ensures UnitsAt(Without(a, key), k) == UnitsAt(Without(b, key), k) {
        WithoutUnits(a, key, k);
        WithoutUnits(b, key, k);
        assert UnitsAt(a, k) == UnitsAt(b, k);
      }
      SameUnitsSameWeight(w, Without(a, key), Without(b, key));
    }
  }

  lemma {:induction false} UnitsIffKey(lines: seq<Line>, key: Key)
    ensures UnitsAt(lines, key) > 0 <==> HasKey(lines, key)
  {
    if |lines| > 0 {
      var front, last := lines[..|lines| - 1], lines[|lines| - 1];
      UnitsIffKey(front, key);
      ScaledByOneOrNone(last.qty);
      assert UnitsAt(lines, key) == UnitsAt(front, key) + Scaled(OfKey(key)(last.key), last.qty);
      if HasKey(front, key) {
        var i :| 0 <= i < |front| && front[i].key == key;
        assert lines[i].key == key;
      } else if last.key == key {
        assert lines[|lines| - 1].key == key;
      } else {
        forall i | 0 <= i < |lines| ensures lines[i].key != key {
          assert i < |front| ==> lines[i] == front[i];
        }
      }
    }
  }

  // ------------------------------------------------------------------- CFA order totals

  lemma {:induction false} StepWeights(w: Key -> int, lines: seq<Line>)
    requires forall k :: Currency.IsStep(w(k))
    ensures Currency.IsStep(Weight(w, lines))
  {
    if |lines| > 0 {
      var last := lines[|lines| - 1];
      StepWeights(w, lines[..|lines| - 1]);
      assert Currency.IsStep(w(last.key));
      ScaledStep(w(last.key), last.qty);
    }
  }

  lemma ScaledStep(unit: int, qty: nat)
    requires Currency.IsStep(unit)
    ensures Currency.IsStep(Scaled(unit, qty))
  {
    var k: nat := unit / 50;
    assert unit == 50 * k;
    StepTimes(k, qty);
  }

  lemma StepTimes(k: nat, qty: nat)
    ensures Scaled(50 * k, qty) == 50 * Scaled(k, qty) && Scaled(k, qty) >= 0
  {
  }

  /** Every CFA order: a clean subtotal, and a clean total whatever code is used. */
  lemma CfaOrderIsClean(sale: Sale, lines: seq<Line>, percent: Percent)
    requires sale.currency == Money.CFA
    ensures Currency.IsStep(Subtotal(sale, lines))
    ensures var (discount, total) := Promotion(Subtotal(sale, lines), percent, Money.CFA);
            && Currency.IsStep(total)
            && Subtotal(sale, lines) == discount + total
            && 0 <= total <= Subtotal(sale, lines)
            && Promised(Subtotal(sale, lines), percent) - 50 < discount
  {
    forall k ensures Currency.IsStep(ChargeFor(sale, lines)(k)) {
      CfaPayUnitIsStep(Tag(sale, k.id), sale.settings, k.variant, UnitsOf(lines, k.id));
    }
    StepWeights(ChargeFor(sale, lines), lines);
    PromotionKeepsBooks(Subtotal(sale, lines), percent, Money.CFA);
  }
}
