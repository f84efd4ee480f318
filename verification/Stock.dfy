/**
  Stock reservation and the order lifecycle (api.py), over the guarded stock
  primitives of the production database (inventory_guardrails.sql, catalog.py).

  A unit of stock is either on a shelf or held by an order. The results say that
  no sequence of checkouts, confirmations, declines, reopenings and deletions
  creates or destroys one, and exactly which steps would.
*/
module Stock {
  import opened Sums
  import opened Wrappers

  // -------------------------------------------------------------------- catalogue

  type Units = n: nat | n > 0 witness 1

  /** spellings maps the ways a cart may name an option to the stored option key. */
  datatype Product = Product(online: bool, locked: bool, stock: nat, optionStock: map<string, nat>,
                             hasOptions: bool, spellings: map<string, string>)

  /** legacy maps an old product id to the canonical one. */
  datatype Catalogue = Catalogue(products: map<string, Product>, legacy: map<string, string>)

  /** One line of stock to take or give back. */
  datatype Move = Move(id: string, option: Option<string>, qty: Units)

  /** A shelf: a product's total, or one of its options. */
  datatype Pool = Pool(id: string, option: Option<string>)

  predicate IsPool(cat: Catalogue, pool: Pool)
  {
    && pool.id in cat.products
    && (pool.option.Some? ==> pool.option.value in cat.products[pool.id].optionStock)
  }

  function Level(cat: Catalogue, pool: Pool): nat
  {
    if !IsPool(cat, pool) then 0
    else match pool.option
      case None => cat.products[pool.id].stock
      case Some(key) => cat.products[pool.id].optionStock[key]
  }

  /** A product sold without options. */
  predicate Optionless(product: Product)
  {
    product.optionStock == map[] && !product.hasOptions
  }

  /** The spelling that stands for no option at all; it matches no stored key. */
  const WHOLE := "__default__"

  /** The stored option key a move addresses; an unknown spelling addresses only the total. */
  function Matched(product: Product, option: Option<string>): Option<string>
  {
    if option.Some? && option.value != WHOLE && option.value in product.optionStock then option else None
  }

  /** What a move takes from or gives to one shelf. */
  function Effect(cat: Catalogue, pool: Pool, m: Move): nat
  {
    if IsPool(cat, pool) && m.id == pool.id
       && (pool.option.None? || pool.option == Matched(cat.products[m.id], m.option))
    then m.qty else 0
  }

  function EffectOn(cat: Catalogue, pool: Pool): Move -> int
  {
    (m: Move) => Effect(cat, pool, m)
  }

  /** What a list of moves takes from one shelf in all. */
  function Demand(cat: Catalogue, pool: Pool, moves: seq<Move>): nat
  {
    SumNonNegative(EffectOn(cat, pool), moves);
    SumBy(EffectOn(cat, pool), moves)
  }

  // -------------------------------------------------------------- stock primitives

  function Changed(product: Product, key: Option<string>, stock: nat, option: nat): Product
  {
    product.(stock := stock,
             optionStock := if key.Some? then product.optionStock[key.value := option] else product.optionStock)
  }

  /** The guarded update: total and option both suffice, and an option is chosen if there are any. */
  predicate Guard(product: Product, key: Option<string>, qty: nat)
  {
    && product.online && !product.locked && product.stock >= qty
    && match key
       case Some(k) => k in product.optionStock && product.optionStock[k] >= qty
       case None => Optionless(product)
  }

  /** A delta move resolves its option first, and falls back to the total if it is unknown. */
  predicate CanApply(cat: Catalogue, m: Move)
  {
    m.id in cat.products && Guard(cat.products[m.id], Matched(cat.products[m.id], m.option), m.qty)
  }

  /** A reservation refuses an option it does not know. */
  predicate CanReserve(cat: Catalogue, m: Move)
  {
    CanApply(cat, m) && (m.option.Some? ==> Matched(cat.products[m.id], m.option).Some?)
  }

  function Take(cat: Catalogue, m: Move): Catalogue
    requires CanApply(cat, m)
  {
    var p := cat.products[m.id];
    var key := Matched(p, m.option);
    cat.(products := cat.products[m.id :=
      Changed(p, key, p.stock - m.qty, if key.Some? then p.optionStock[key.value] - m.qty else 0)])
  }

  /** Giving back is unconditional; a product that is gone takes nothing back. */
  function Give(cat: Catalogue, m: Move): Catalogue
  {
    if m.id !in cat.products then cat
    else
      var p := cat.products[m.id];
      var key := Matched(p, m.option);
      cat.(products := cat.products[m.id :=
        Changed(p, key, p.stock + m.qty, if key.Some? then p.optionStock[key.value] + m.qty else 0)])
  }

  // ---------------------------------------------------------------- lists of moves

  function GiveAll(cat: Catalogue, moves: seq<Move>): Catalogue
  {
    if |moves| == 0 then cat else Give(GiveAll(cat, moves[..|moves| - 1]), moves[|moves| - 1])
  }

  /** Reserve line by line; the database may fail at one of them. */
  function Reserve(cat: Catalogue, moves: seq<Move>, failAt: Option<nat>): Option<Catalogue>
  {
    var n := |moves|;
    if n == 0 then Some(cat)
    else
      match Reserve(cat, moves[..n - 1], failAt)
      case None => None
      case Some(reserved) =>
        if failAt != Some(n - 1) && CanReserve(reserved, moves[n - 1])
        then Some(Take(reserved, moves[n - 1])) else None
  }

  /** Decrement line by line, skipping whatever the guard refuses. */
  function ApplyAll(cat: Catalogue, moves: seq<Move>): Catalogue
  {
    var n := |moves|;
    if n == 0 then cat
    else
      var applied := ApplyAll(cat, moves[..n - 1]);
      if CanApply(applied, moves[n - 1]) then Take(applied, moves[n - 1]) else applied
  }

  /** Every line of a list of known products is actually decremented. */
  predicate AllApplied(cat: Catalogue, moves: seq<Move>)
  {
    var n := |moves|;
    n == 0 ||
    (AllApplied(cat, moves[..n - 1])
     && (moves[n - 1].id in cat.products ==> CanApply(ApplyAll(cat, moves[..n - 1]), moves[n - 1])))
  }

  // ------------------------------------------------------------------------ orders

  datatype Status = Pending | Confirmed | Declined

  datatype Item = Item(id: string, variant: string, qty: int)

  /** applied is the stored record of what the order took; empty when there is none. */
  datatype Order = Order(status: Status, items: seq<Item>, applied: seq<Move>)

  datatype State = State(cat: Catalogue, orders: map<string, Order>)

  function Canonical(cat: Catalogue, id: string): string
  {
    if id in cat.products then id
    else if id in cat.legacy && cat.legacy[id] in cat.products then cat.legacy[id]
    else id
  }

  /** The stored option a variant names: a stored key names itself. */
  function ResolveOption(product: Product, variant: string): Option<string>
  {
    if variant == "" || variant == WHOLE then None
    else if variant in product.optionStock then Some(variant)
    else if variant in product.spellings && product.spellings[variant] in product.optionStock
    then Some(product.spellings[variant])
    else None
  }

  /** What an order line says for a product whose variant was not chosen. */
  const UNASSIGNED := "__unassigned_variant__"

  function OptionFor(cat: Catalogue, id: string, variant: string): Option<string>
  {
    if id !in cat.products then
      Some(if variant != "" then variant else "__unresolved_product__")
    else
      var p := cat.products[id];
      if variant != "" then
        (match ResolveOption(p, variant)
         case Some(key) => Some(key)
         case None => Some(variant))
      else if Optionless(p) then None
      else Some(UNASSIGNED)
  }

  /** The stock lines of an order, on the rows that actually exist. */
  function Moves(cat: Catalogue, items: seq<Item>): seq<Move>
  {
    if |items| == 0 then []
    else
      var earlier := Moves(cat, items[..|items| - 1]);
      var item := items[|items| - 1];
      if item.id == "" || item.qty <= 0 then earlier
      else
        var id := Canonical(cat, item.id);
        earlier + [Move(id, OptionFor(cat, id, item.variant), item.qty)]
  }

  /** What an order holds: its record, or for a confirmed order without one, its recomputed lines. */
  function Held(cat: Catalogue, o: Order): seq<Move>
  {
    if |o.applied| > 0 then o.applied
    else if o.status == Confirmed then Moves(cat, o.items)
    else []
  }

  function HeldUnits(s: State, pool: Pool): map<string, int>
  {
    map id | id in s.orders :: Demand(s.cat, pool, Held(s.cat, s.orders[id]))
  }

  /** Units on the shelf plus units held by the live orders. */
  ghost function Total(s: State, pool: Pool): int
  {
    Level(s.cat, pool) + SumMap(HeldUnits(s, pool))
  }

  // -------------------------------------------------------------------------- steps

  /** How a checkout ends once its lines are reserved; a write reported as failed may still leave its order. */
  datatype Ending = Saved
                  | ProofUploadFailed
                  | OrderWriteFailed(left: bool)
                  | ReceiptWriteFailed(orderRemoved: bool)

  /** The checkout fails and gives its units back, yet the order's row is there to stay. */
  predicate LeavesOrder(ending: Ending)
  {
    ending == OrderWriteFailed(true) || ending == ReceiptWriteFailed(false)
  }

  /** The database fails at one line of a reservation: before taking it, or after, its answer lost. */
  datatype Failure = NoFailure | Down(at: nat) | AnswerLost(at: nat)

  function FailAt(failure: Failure): Option<nat>
  {
    if failure.NoFailure? then None else Some(failure.at)
  }

  datatype Step = Checkout(id: string, items: seq<Item>, failure: Failure, ending: Ending)
                | SetStatus(id: string, status: Status)
                | Delete(id: string, removed: bool)

  /** The line whose answer is lost is reached and taken. */
  predicate TakesUnseen(cat: Catalogue, moves: seq<Move>, failure: Failure)
  {
    && failure.AnswerLost? && failure.at < |moves|
    && var prior := Reserve(cat, moves[..failure.at], FailAt(failure));
       prior.Some? && CanReserve(prior.value, moves[failure.at])
  }

  /** The catalogue once the lines a failed reservation knows of are given back. */
  function RolledBack(cat: Catalogue, moves: seq<Move>, failure: Failure): Catalogue
  {
    if TakesUnseen(cat, moves, failure)
    then GiveAll(Take(Reserve(cat, moves[..failure.at], FailAt(failure)).value, moves[failure.at]), moves[..failure.at])
    else cat
  }

  /** A checkout holds exactly its lines, or gives back every line it knows it reserved. */
  function AfterCheckout(s: State, id: string, items: seq<Item>, failure: Failure, ending: Ending): State
  {
    if id in s.orders then s
    else
      var moves := Moves(s.cat, items);
      match Reserve(s.cat, moves, FailAt(failure))
      case None => s.(cat := RolledBack(s.cat, moves, failure))
      case Some(reserved) =>
        if ending == Saved then State(reserved, s.orders[id := Order(Pending, items, moves)])
        else if LeavesOrder(ending) then s.(orders := s.orders[id := Order(Pending, items, moves)])
        else s
  }

  /** The effect of a status change on stock and on the order's record of it. */
  function Sync(cat: Catalogue, o: Order, from: Status, to: Status): (Catalogue, Order)
  {
    if to == Confirmed && from != Confirmed then
      if |o.applied| > 0 then (cat, o)
      else (ApplyAll(cat, Moves(cat, o.items)), o.(applied := Moves(cat, o.items)))
    else if (from == Confirmed && to != Confirmed) || (from == Pending && to == Declined) then
      (GiveAll(cat, if |o.applied| == 0 && from == Confirmed then Moves(cat, o.items) else o.applied),
       o.(applied := []))
    else (cat, o)
  }

  function AfterStatus(s: State, id: string, status: Status): State
  {
    if id !in s.orders then s
    else
      var o := s.orders[id];
      var (cat, synced) := if o.status != status then Sync(s.cat, o, o.status, status) else (s.cat, o);
      State(cat, s.orders[id := synced.(status := status)])
  }

  /** A deletion releases first and removes the row afterwards, if the database lets it. */
  function AfterDelete(s: State, id: string, removed: bool): State
  {
    if id !in s.orders then s
    else
      var o := s.orders[id];
      var (cat, _) := if o.status == Confirmed then Sync(s.cat, o, Confirmed, Pending)
                      else Sync(s.cat, o, Pending, Declined);
      State(cat, if removed then s.orders - {id} else s.orders)
  }

  function Next(s: State, step: Step): State
  {
    match step
    case Checkout(id, items, failure, ending) => AfterCheckout(s, id, items, failure, ending)
    case SetStatus(id, status) => AfterStatus(s, id, status)
    case Delete(id, removed) => AfterDelete(s, id, removed)
  }

  function Run(s: State, steps: seq<Step>): State
  {
    if |steps| == 0 then s else Next(Run(s, steps[..|steps| - 1]), steps[|steps| - 1])
  }

  // -------------------------------------------------------------- the shop's methods

  datatype Reservation = Reserved | Refused | Unavailable

  datatype Outcome = Placed | AlreadyPlaced | SoldOut | StockUnavailable | NotSaved

  class Shop {
    var cat: Catalogue
    var orders: map<string, Order>

    constructor (cat: Catalogue)
      ensures Now() == State(cat, map[])
    {
      this.cat := cat;
      orders := map[];
    }

    function Now(): State
      reads this
    {
      State(cat, orders)
    }

    /** One guarded reservation; a database that is down takes nothing, a lost answer hides what it took. */
    method ReserveStock(m: Move, down: bool, lost: bool) returns (r: Reservation)
      modifies this`cat
      ensures r == Reserved <==> !down && !lost && CanReserve(old(cat), m)
      ensures r == Unavailable <==> down || lost
      ensures cat == if !down && CanReserve(old(cat), m) then Take(old(cat), m) else old(cat)
      ensures SameShape(old(cat), cat)
      ensures forall pool :: Level(cat, pool)
                == Level(old(cat), pool) - if !down && CanReserve(old(cat), m) then Effect(old(cat), pool, m) else 0
    {
      if down {
        return Unavailable;
      }
      if CanReserve(cat, m) {
        TakeEffect(cat, m);
        cat := Take(cat, m);
        return if lost then Unavailable else Reserved;
      }
      return if lost then Unavailable else Refused;
    }

    /** Give one line back: every shelf it draws on has its units again, and nothing else changes. */
    method ReleaseStock(m: Move)
      modifies this`cat
      ensures cat == Give(old(cat), m)
      ensures SameShape(old(cat), cat)
      ensures forall pool :: Level(cat, pool) == Level(old(cat), pool) + Effect(old(cat), pool, m)
    {
      GiveEffect(cat, m);
      cat := Give(cat, m);
    }

    /** Give stock lines back, in the order they were taken. */
    method ReleaseLines(moves: seq<Move>)
      modifies this`cat
      ensures cat == GiveAll(old(cat), moves)
    {
      for i := 0 to |moves|
        invariant cat == GiveAll(old(cat), moves[..i])
      {
        assert moves[..i + 1][..i] == moves[..i];
        ReleaseStock(moves[i]);
      }
      assert moves[..|moves|] == moves;
    }

    /** Decrement stock lines; a refused line is passed over. */
    method ApplyLines(moves: seq<Move>)
      modifies this`cat
      ensures cat == ApplyAll(old(cat), moves)
    {
      for i := 0 to |moves|
        invariant cat == ApplyAll(old(cat), moves[..i])
      {
        assert moves[..i + 1][..i] == moves[..i];
        if CanApply(cat, moves[i]) {
          cat := Take(cat, moves[i]);
        }
      }
      assert moves[..|moves|] == moves;
    }

    /** Reserve line by line, up to the first line that is not granted. */
    method ReserveLines(moves: seq<Move>, failure: Failure) returns (r: Reservation, reserved: seq<Move>)
      modifies this`cat
      ensures r == Reserved <==> Reserve(old(cat), moves, FailAt(failure)).Some?
      ensures r == Reserved ==> reserved == moves && Reserve(old(cat), moves, FailAt(failure)) == Some(cat)
      ensures GiveAll(cat, reserved) == if r == Reserved then old(cat) else RolledBack(old(cat), moves, failure)
    {
      reserved := [];
      for i := 0 to |moves|
        invariant reserved == moves[..i]
        invariant Reserve(old(cat), moves[..i], FailAt(failure)) == Some(cat)
        invariant TakesUnseen(old(cat), moves, failure) ==> failure.at >= i
      {
        assert moves[..i + 1][..i] == moves[..i];
        r := ReserveStock(moves[i], failure == Down(i), failure == AnswerLost(i));
        if r != Reserved {
          ReservationUndone(old(cat), moves[..i], FailAt(failure));
          PrefixRefused(old(cat), moves, FailAt(failure), i + 1);
          NothingUnseenBeyond(old(cat), moves, failure, i);
          return;
        }
        reserved := reserved + [moves[i]];
      }
      assert moves[..|moves|] == moves;
      ReservationUndone(old(cat), moves, FailAt(failure));
      r := Reserved;
    }

    /** Reserve every line before the order is written; any failure gives back what was taken. */
    method PlaceOrder(id: string, items: seq<Item>, failure: Failure, ending: Ending)
      returns (outcome: Outcome)
      modifies this
      ensures Now() == AfterCheckout(old(Now()), id, items, failure, ending)
      ensures CheckoutLaw(old(Now()), Now(), outcome == Placed, id, items, failure, ending)
    {
      CheckoutObeys(Now(), id, items, failure, ending);
      GrantsIff(Now(), id, items, failure);
      if id in orders {
        return AlreadyPlaced;
      }
      var moves := Moves(cat, items);
      var r, reserved := ReserveLines(moves, failure);
      if r != Reserved {
        ReleaseLines(reserved);
        outcome := if r == Refused then SoldOut else StockUnavailable;
        return;
      }
      ReservationUndone(old(cat), moves, FailAt(failure));
      outcome := WriteOrder(id, items, reserved, ending);
    }

    /** Upload the proof, write the order and then its receipt; a failure gives back what was reserved. */
    method WriteOrder(id: string, items: seq<Item>, reserved: seq<Move>, ending: Ending) returns (outcome: Outcome)
      requires id !in orders
      modifies this
      ensures outcome == if ending == Saved then Placed else NotSaved
      ensures cat == if ending == Saved then old(cat) else GiveAll(old(cat), reserved)
      ensures orders == if ending == Saved || LeavesOrder(ending)
                        then old(orders)[id := Order(Pending, items, reserved)] else old(orders)
    {
      if ending == ProofUploadFailed || ending == OrderWriteFailed(false) {
        ReleaseLines(reserved);
        return NotSaved;
      }
      orders := orders[id := Order(Pending, items, reserved)];
      if ending != Saved {
        if ending == ReceiptWriteFailed(true) {
          orders := orders - {id};
        }
        ReleaseLines(reserved);
        return NotSaved;
      }
      return Placed;
    }

    /** The one place where a status change moves stock. */
    method SyncOrderStock(o: Order, from: Status, to: Status) returns (synced: Order)
      modifies this`cat
      ensures (cat, synced) == Sync(old(cat), o, from, to)
    {
      synced := o;
      if to == Confirmed && from != Confirmed {
        if |o.applied| > 0 {
          return;
        }
        var moves := Moves(cat, o.items);
        if |moves| > 0 {
          ApplyLines(moves);
          synced := o.(applied := moves);
        }
        return;
      }
      if (from == Confirmed && to != Confirmed) || (from == Pending && to == Declined) {
        var moves := o.applied;
        if |moves| == 0 && from == Confirmed {
          moves := Moves(cat, o.items);
        }
        if |moves| > 0 {
          ReleaseLines(moves);
        }
        synced := o.(applied := []);
      }
    }

    method UpdateOrder(id: string, status: Status) returns (found: bool)
      modifies this
      ensures found <==> id in old(orders)
      ensures Now() == AfterStatus(old(Now()), id, status)
      ensures if found then StatusLaw(old(Now()), Now(), id, status) else Now() == old(Now())
    {
      if id in orders {
        StatusObeys(Now(), id, status);
      }
      found := id in orders;
      if found {
        var o := orders[id];
        if o.status != status {
          o := SyncOrderStock(o, o.status, status);
        }
        orders := orders[id := o.(status := status)];
      }
    }

    method DeleteOrder(id: string, removed: bool) returns (done: bool)
      modifies this
      ensures done <==> id in old(orders) && removed
      ensures Now() == AfterDelete(old(Now()), id, removed)
      ensures if id in old(orders) then DeleteLaw(old(Now()), Now(), id, removed) else Now() == old(Now())
    {
      if id !in orders {
        return false;
      }
      DeleteObeys(Now(), id, removed);
      var o := orders[id];
      if o.status == Confirmed {
        var _ := SyncOrderStock(o, Confirmed, Pending);
      } else {
        var _ := SyncOrderStock(o, Pending, Declined);
      }
      if removed {
        orders := orders - {id};
      }
      return removed;
    }
  }

  // --------------------------------------------------------------- shelves and moves

  /** Two catalogues that differ at most in quantities. */
  ghost predicate SameShape(a: Catalogue, b: Catalogue)
  {
    && a.legacy == b.legacy
    && a.products.Keys == b.products.Keys
    && forall id :: id in a.products ==>
         && a.products[id].(stock := 0, optionStock := map[]) == b.products[id].(stock := 0, optionStock := map[])
         && a.products[id].optionStock.Keys == b.products[id].optionStock.Keys
  }

  lemma TakeEffect(cat: Catalogue, m: Move)
    requires CanApply(cat, m)
    ensures SameShape(cat, Take(cat, m))
    ensures forall pool :: Level(Take(cat, m), pool) == Level(cat, pool) - Effect(cat, pool, m)
  {
  }

  lemma GiveEffect(cat: Catalogue, m: Move)
    ensures SameShape(cat, Give(cat, m))
    ensures forall pool :: Level(Give(cat, m), pool) == Level(cat, pool) + Effect(cat, pool, m)
  {
  }

  lemma SameEffect(a: Catalogue, b: Catalogue, pool: Pool, moves: seq<Move>)
    requires SameShape(a, b)
    ensures Demand(a, pool, moves) == Demand(b, pool, moves)
  {
    SumEqual(EffectOn(a, pool), EffectOn(b, pool), moves);
  }

  lemma DemandStep(cat: Catalogue, pool: Pool, moves: seq<Move>)
    requires |moves| > 0
    ensures Demand(cat, pool, moves)
            == Demand(cat, pool, moves[..|moves| - 1]) + Effect(cat, pool, moves[|moves| - 1])
  {
  }

  lemma {:induction false} GiveAllEffect(cat: Catalogue, moves: seq<Move>, pool: Pool)
    ensures SameShape(cat, GiveAll(cat, moves))
    ensures Level(GiveAll(cat, moves), pool) == Level(cat, pool) + Demand(cat, pool, moves)
  {
    if |moves| > 0 {
      var front, last := moves[..|moves| - 1], moves[|moves| - 1];
      GiveAllEffect(cat, front, pool);
      GiveEffect(GiveAll(cat, front), last);
      DemandStep(cat, pool, moves);
    }
  }

  lemma {:induction false} ReserveEffect(cat: Catalogue, moves: seq<Move>, failAt: Option<nat>, pool: Pool)
    requires Reserve(cat, moves, failAt).Some?
    ensures SameShape(cat, Reserve(cat, moves, failAt).value)
    ensures Level(Reserve(cat, moves, failAt).value, pool) == Level(cat, pool) - Demand(cat, pool, moves)
  {
    if |moves| > 0 {
      var front, last := moves[..|moves| - 1], moves[|moves| - 1];
      ReserveEffect(cat, front, failAt, pool);
      TakeEffect(Reserve(cat, front, failAt).value, last);
      DemandStep(cat, pool, moves);
    }
  }

  lemma SameLevelsSameCatalogue(a: Catalogue, b: Catalogue)
    requires SameShape(a, b)
    requires forall pool :: Level(a, pool) == Level(b, pool)
    ensures a == b
  {
    forall id | id in a.products ensures a.products[id] == b.products[id] {
      assert Level(a, Pool(id, None)) == Level(b, Pool(id, None));
      forall key | key in a.products[id].optionStock
        ensures a.products[id].optionStock[key] == b.products[id].optionStock[key]
      {
        assert Level(a, Pool(id, Some(key))) == Level(b, Pool(id, Some(key)));
      }
      assert a.products[id].optionStock == b.products[id].optionStock;
    }
    assert a.products == b.products;
  }

  /** Rolling back a reservation restores the catalogue exactly. */
  lemma ReservationUndone(cat: Catalogue, moves: seq<Move>, failAt: Option<nat>)
    requires Reserve(cat, moves, failAt).Some?
    ensures GiveAll(Reserve(cat, moves, failAt).value, moves) == cat
  {
    var reserved := Reserve(cat, moves, failAt).value;
    ReserveEffect(cat, moves, failAt, Pool("", None));
    GiveAllEffect(reserved, moves, Pool("", None));
    forall pool ensures Level(GiveAll(reserved, moves), pool) == Level(cat, pool) {
      ReserveEffect(cat, moves, failAt, pool);
      GiveAllEffect(reserved, moves, pool);
      SameEffect(cat, reserved, pool, moves);
    }
    SameLevelsSameCatalogue(GiveAll(reserved, moves), cat);
  }

  lemma {:induction false} PrefixRefused(cat: Catalogue, moves: seq<Move>, failAt: Option<nat>, n: nat)
    requires n <= |moves| && Reserve(cat, moves[..n], failAt).None?
    ensures Reserve(cat, moves, failAt).None?
    decreases |moves| - n
  {
    if n == |moves| {
      assert moves[..n] == moves;
    } else {
      assert moves[..n + 1][..n] == moves[..n];
      PrefixRefused(cat, moves, failAt, n + 1);
    }
  }

  /** A reservation that stops at a line reaches no later one. */
  lemma NothingUnseenBeyond(cat: Catalogue, moves: seq<Move>, failure: Failure, i: nat)
    requires i < |moves| && Reserve(cat, moves[..i + 1], FailAt(failure)).None?
    ensures TakesUnseen(cat, moves, failure) ==> failure.at <= i
  {
    if TakesUnseen(cat, moves, failure) && failure.at > i {
      var prior := moves[..failure.at];
      assert prior[..i + 1] == moves[..i + 1];
      PrefixRefused(cat, prior, FailAt(failure), i + 1);
    }
  }

  // ------------------------------------------------------ when a list is decremented

  /** A line that can be decremented if there is enough of it. */
  predicate OpenLine(cat: Catalogue, m: Move)
  {
    && m.id in cat.products && cat.products[m.id].online && !cat.products[m.id].locked
    && (Matched(cat.products[m.id], m.option).None? ==> Optionless(cat.products[m.id]))
  }

  /** A line that can be reserved if there is enough of it: it names no option it does not know. */
  predicate KnownLine(cat: Catalogue, m: Move)
  {
    OpenLine(cat, m) && (m.option.Some? ==> Matched(cat.products[m.id], m.option).Some?)
  }

  /** No shelf is asked for more than it has, duplicates added up. */
  ghost predicate Covered(cat: Catalogue, moves: seq<Move>)
  {
    forall pool :: Demand(cat, pool, moves) <= Level(cat, pool)
  }

  /** All lines are known and the shelves cover them all together. */
  ghost predicate Feasible(cat: Catalogue, moves: seq<Move>)
  {
    (forall i :: 0 <= i < |moves| ==> KnownLine(cat, moves[i])) && Covered(cat, moves)
  }

  /** Every line of a product that exists is open, and the shelves cover them all together. */
  ghost predicate Coverable(cat: Catalogue, moves: seq<Move>)
  {
    (forall i :: 0 <= i < |moves| && moves[i].id in cat.products ==> OpenLine(cat, moves[i])) && Covered(cat, moves)
  }

  lemma CanApplyByLevels(cat: Catalogue, m: Move)
    ensures CanApply(cat, m) <==> OpenLine(cat, m) && forall pool :: Effect(cat, pool, m) <= Level(cat, pool)
  {
    if OpenLine(cat, m) && forall pool :: Effect(cat, pool, m) <= Level(cat, pool) {
      var key := Matched(cat.products[m.id], m.option);
      assert Effect(cat, Pool(m.id, None), m) <= Level(cat, Pool(m.id, None));
      assert Effect(cat, Pool(m.id, key), m) <= Level(cat, Pool(m.id, key));
    }
  }

  lemma LastFits(cat: Catalogue, taken: Catalogue, moves: seq<Move>)
    requires |moves| > 0 && SameShape(cat, taken)
    requires forall pool :: Level(taken, pool) == Level(cat, pool) - Demand(cat, pool, moves[..|moves| - 1])
    ensures CanReserve(taken, moves[|moves| - 1]) <==> KnownLine(cat, moves[|moves| - 1]) && Covered(cat, moves)
  {
    LastIsCovered(cat, taken, moves);
    CanReserveByLevels(taken, moves[|moves| - 1]);
  }

  lemma CanReserveByLevels(cat: Catalogue, m: Move)
    ensures CanReserve(cat, m) <==> KnownLine(cat, m) && forall pool :: Effect(cat, pool, m) <= Level(cat, pool)
  {
    CanApplyByLevels(cat, m);
  }

  lemma FrontCovered(cat: Catalogue, moves: seq<Move>)
    requires |moves| > 0 && Covered(cat, moves)
    ensures Covered(cat, moves[..|moves| - 1])
  {
    forall pool ensures Demand(cat, pool, moves[..|moves| - 1]) <= Level(cat, pool) {
      DemandStep(cat, pool, moves);
      assert Demand(cat, pool, moves) <= Level(cat, pool);
    }
  }

  /** With the earlier lines taken exactly, the last one is covered exactly if all of them were. */
  lemma LastIsCovered(cat: Catalogue, taken: Catalogue, moves: seq<Move>)
    requires |moves| > 0 && SameShape(cat, taken)
    requires forall pool :: Level(taken, pool) == Level(cat, pool) - Demand(cat, pool, moves[..|moves| - 1])
    ensures var last := moves[|moves| - 1];
            && (Covered(cat, moves) <==> forall pool :: Effect(taken, pool, last) <= Level(taken, pool))
            && (OpenLine(cat, last) <==> OpenLine(taken, last))
            && (KnownLine(cat, last) <==> KnownLine(taken, last))
  {
    var last := moves[|moves| - 1];
    forall pool
      ensures Demand(cat, pool, moves) <= Level(cat, pool) <==> Effect(taken, pool, last) <= Level(taken, pool)
    {
      DemandStep(cat, pool, moves);
      assert Level(taken, pool) == Level(cat, pool) - Demand(cat, pool, moves[..|moves| - 1]);
      assert Effect(taken, pool, last) == Effect(cat, pool, last);
    }
    LineStable(cat, taken, last);
    if Covered(cat, moves) {
      forall pool ensures Effect(taken, pool, last) <= Level(taken, pool) {
        assert Demand(cat, pool, moves) <= Level(cat, pool);
      }
    } else {
      var pool :| Demand(cat, pool, moves) > Level(cat, pool);
      assert Effect(taken, pool, last) > Level(taken, pool);
    }
  }

  lemma LineStable(a: Catalogue, b: Catalogue, m: Move)
    requires SameShape(a, b)
    ensures OpenLine(a, m) <==> OpenLine(b, m)
    ensures KnownLine(a, m) <==> KnownLine(b, m)
  {
    if m.id in a.products {
      assert a.products[m.id].(stock := 0, optionStock := map[]) == b.products[m.id].(stock := 0, optionStock := map[]);
      assert a.products[m.id].optionStock == map[] <==> a.products[m.id].optionStock.Keys == {};
      assert b.products[m.id].optionStock == map[] <==> b.products[m.id].optionStock.Keys == {};
    }
  }

  /** Reserving line by line succeeds exactly when no call fails and the lines fit all together. */
  lemma {:induction false} ReserveIffFeasible(cat: Catalogue, moves: seq<Move>, failAt: Option<nat>)
    ensures Reserve(cat, moves, failAt).Some?
            <==> Feasible(cat, moves) && (failAt.Some? ==> failAt.value >= |moves|)
  {
    var n := |moves|;
    if n > 0 {
      var front, last := moves[..n - 1], moves[n - 1];
      ReserveIffFeasible(cat, front, failAt);
      if Reserve(cat, front, failAt).Some? {
        var reserved := Reserve(cat, front, failAt).value;
        forall pool ensures Level(reserved, pool) == Level(cat, pool) - Demand(cat, pool, front) {
          ReserveEffect(cat, front, failAt, pool);
        }
        ReserveEffect(cat, front, failAt, Pool("", None));
        LastFits(cat, reserved, moves);
      }
      FeasibleStep(cat, moves);
    }
  }

  lemma FeasibleStep(cat: Catalogue, moves: seq<Move>)
    requires |moves| > 0
    ensures Feasible(cat, moves)
        <==> Feasible(cat, moves[..|moves| - 1]) && KnownLine(cat, moves[|moves| - 1]) && Covered(cat, moves)
  {
    if Covered(cat, moves) {
      FrontCovered(cat, moves);
    }
  }

  /** The decrement takes every line exactly when the lines are open and covered all together. */
  lemma {:induction false} AppliedIffCoverable(cat: Catalogue, moves: seq<Move>)
    ensures AllApplied(cat, moves) <==> Coverable(cat, moves)
  {
    var n := |moves|;
    if n > 0 {
      var front, last := moves[..n - 1], moves[n - 1];
      AppliedIffCoverable(cat, front);
      if AllApplied(cat, front) {
        var applied := ApplyAll(cat, front);
        forall pool ensures Level(applied, pool) == Level(cat, pool) - Demand(cat, pool, front) {
          ApplyAllEffect(cat, front, pool);
        }
        ApplyAllEffect(cat, front, Pool("", None));
        LastIsCovered(cat, applied, moves);
        CanApplyByLevels(applied, last);
        if last.id !in cat.products {
          forall pool ensures Effect(applied, pool, last) == 0 <= Level(applied, pool) {
          }
        }
      } else if Covered(cat, moves) {
        FrontCovered(cat, moves);
      }
    }
  }

  /** Lines that fit can be taken either way, with the same result. */
  lemma {:induction false} FeasibleApplies(cat: Catalogue, moves: seq<Move>)
    requires Feasible(cat, moves)
    ensures AllApplied(cat, moves) && Reserve(cat, moves, None) == Some(ApplyAll(cat, moves))
  {
    AppliedIffCoverable(cat, moves);
    ReserveIffFeasible(cat, moves, None);
    if |moves| > 0 {
      FrontCovered(cat, moves);
      FeasibleApplies(cat, moves[..|moves| - 1]);
    }
  }

  lemma {:induction false} ApplyAllEffect(cat: Catalogue, moves: seq<Move>, pool: Pool)
    ensures SameShape(cat, ApplyAll(cat, moves))
    ensures Level(ApplyAll(cat, moves), pool) >= Level(cat, pool) - Demand(cat, pool, moves)
    ensures AllApplied(cat, moves) ==>
              Level(ApplyAll(cat, moves), pool) == Level(cat, pool) - Demand(cat, pool, moves)
  {
    if |moves| > 0 {
      var front, last := moves[..|moves| - 1], moves[|moves| - 1];
      ApplyAllEffect(cat, front, pool);
      DemandStep(cat, pool, moves);
      if CanApply(ApplyAll(cat, front), last) {
        TakeEffect(ApplyAll(cat, front), last);
      }
    }
  }

  /** A line that is passed over leaves some product's total too high for what is recorded. */
  lemma {:induction false} ApplyAllShort(cat: Catalogue, moves: seq<Move>) returns (pool: Pool)
    requires !AllApplied(cat, moves)
    ensures Level(ApplyAll(cat, moves), pool) > Level(cat, pool) - Demand(cat, pool, moves)
  {
    var front, last := moves[..|moves| - 1], moves[|moves| - 1];
    if AllApplied(cat, front) {
      pool := Pool(last.id, None);
      ApplyAllEffect(cat, front, pool);
    } else {
      pool := ApplyAllShort(cat, front);
      ApplyAllEffect(cat, front, pool);
      if CanApply(ApplyAll(cat, front), last) {
        TakeEffect(ApplyAll(cat, front), last);
      }
    }
    DemandStep(cat, pool, moves);
  }

  // ---------------------------------------------------------------- what is held

  lemma {:induction false} MovesStable(a: Catalogue, b: Catalogue, items: seq<Item>)
    requires SameShape(a, b)
    ensures Moves(a, items) == Moves(b, items)
  {
    if |items| > 0 {
      MovesStable(a, b, items[..|items| - 1]);
      var item := items[|items| - 1];
      var id := Canonical(a, item.id);
      assert id == Canonical(b, item.id);
      if id in a.products {
        assert a.products[id].(stock := 0, optionStock := map[]) == b.products[id].(stock := 0, optionStock := map[]);
        assert a.products[id].optionStock == map[] <==> a.products[id].optionStock.Keys == {};
        assert b.products[id].optionStock == map[] <==> b.products[id].optionStock.Keys == {};
      }
    }
  }

  lemma HeldStable(a: Catalogue, b: Catalogue, o: Order, pool: Pool)
    requires SameShape(a, b)
    ensures Held(a, o) == Held(b, o)
    ensures Demand(a, pool, Held(a, o)) == Demand(b, pool, Held(b, o))
  {
    MovesStable(a, b, o.items);
    SameEffect(a, b, pool, Held(a, o));
  }

  function HeldBy(s: State, id: string, pool: Pool): nat
  {
    if id in s.orders then Demand(s.cat, pool, Held(s.cat, s.orders[id])) else 0
  }

  /** Replacing or adding one order moves the total by what it holds more or less. */
  lemma TotalAfterUpdate(s: State, cat: Catalogue, id: string, o: Order, pool: Pool)
    requires SameShape(s.cat, cat)
    ensures Total(State(cat, s.orders[id := o]), pool) - Total(s, pool)
            == Level(cat, pool) - Level(s.cat, pool) + Demand(s.cat, pool, Held(s.cat, o)) - HeldBy(s, id, pool)
  {
    var after := State(cat, s.orders[id := o]);
    forall k | k in after.orders
      ensures HeldUnits(after, pool)[k] == Demand(s.cat, pool, Held(s.cat, after.orders[k]))
    {
      HeldStable(s.cat, cat, after.orders[k], pool);
    }
    assert HeldUnits(after, pool) == HeldUnits(s, pool)[id := Demand(s.cat, pool, Held(s.cat, o))];
    SumMapUpdate(HeldUnits(s, pool), id, Demand(s.cat, pool, Held(s.cat, o)));
  }

  lemma TotalAfterRemoval(s: State, cat: Catalogue, id: string, pool: Pool)
    requires SameShape(s.cat, cat) && id in s.orders
    ensures Total(State(cat, s.orders - {id}), pool) - Total(s, pool)
            == Level(cat, pool) - Level(s.cat, pool) - HeldBy(s, id, pool)
  {
    var after := State(cat, s.orders - {id});
    forall k | k in after.orders
      ensures HeldUnits(after, pool)[k] == HeldUnits(s, pool)[k]
    {
      HeldStable(s.cat, cat, after.orders[k], pool);
    }
    assert HeldUnits(after, pool) == HeldUnits(s, pool) - {id};
    SumMapRemove(HeldUnits(s, pool), id);
  }

  lemma TotalStable(s: State, cat: Catalogue, pool: Pool)
    requires SameShape(s.cat, cat)
    ensures Total(State(cat, s.orders), pool) - Total(s, pool) == Level(cat, pool) - Level(s.cat, pool)
  {
    var after := State(cat, s.orders);
    forall k | k in s.orders
      ensures HeldUnits(after, pool)[k] == HeldUnits(s, pool)[k]
    {
      HeldStable(s.cat, cat, s.orders[k], pool);
    }
    assert HeldUnits(after, pool) == HeldUnits(s, pool);
  }

  // ------------------------------------------------------------------ conservation

  ghost predicate Conserves(s: State, after: State)
  {
    forall pool :: Total(after, pool) == Total(s, pool)
  }

  /** None of the moves is for a product of the catalogue. */
  predicate Idle(cat: Catalogue, moves: seq<Move>)
  {
    forall i :: 0 <= i < |moves| ==> moves[i].id !in cat.products
  }

  /**
    The steps that lose or invent no unit: every one, except a reservation whose
    answer is lost for a line it could take, an order left behind by a write that was
    reported as failed, an order confirmed without a reservation that the shelves cannot
    cover, and a deletion whose row removal failed after its units were given back.
  */
  ghost predicate Clean(s: State, step: Step)
  {
    match step
    case Checkout(id, items, failure, ending) =>
      var moves := Moves(s.cat, items);
      id !in s.orders ==>
        && !(failure.AnswerLost? && failure.at < |moves| && Feasible(s.cat, moves[..failure.at + 1]))
        && (LeavesOrder(ending) && |moves| > 0 ==>
              !Feasible(s.cat, moves) || (!failure.NoFailure? && failure.at < |moves|))
    case SetStatus(id, status) =>
      id in s.orders && status == Confirmed && s.orders[id].status != Confirmed && |s.orders[id].applied| == 0 ==>
        Coverable(s.cat, Moves(s.cat, s.orders[id].items))
    case Delete(id, removed) =>
      id in s.orders && !removed ==> Idle(s.cat, Held(s.cat, s.orders[id]))
  }

  lemma {:induction false} IdleDemand(cat: Catalogue, moves: seq<Move>, pool: Pool)
    requires Idle(cat, moves)
    ensures Demand(cat, pool, moves) == 0
  {
    if |moves| > 0 {
      IdleDemand(cat, moves[..|moves| - 1], pool);
      DemandStep(cat, pool, moves);
    }
  }

  lemma {:induction false} BusyDemand(cat: Catalogue, moves: seq<Move>) returns (pool: Pool)
    requires !Idle(cat, moves)
    ensures Demand(cat, pool, moves) > 0
  {
    var i :| 0 <= i < |moves| && moves[i].id in cat.products;
    pool := Pool(moves[i].id, None);
    SumNonNegative(EffectOn(cat, pool), moves);
    assert moves[i] in moves && EffectOn(cat, pool)(moves[i]) == moves[i].qty;
  }

  lemma {:induction false} ReservedNotIdle(cat: Catalogue, moves: seq<Move>, failAt: Option<nat>)
    requires Reserve(cat, moves, failAt).Some? && |moves| > 0
    ensures !Idle(cat, moves)
  {
    var front := moves[..|moves| - 1];
    ReserveEffect(cat, front, failAt, Pool("", None));
    assert moves[|moves| - 1].id in cat.products;
  }

  lemma CheckoutConserves(s: State, id: string, items: seq<Item>, failure: Failure, ending: Ending)
    ensures Conserves(s, AfterCheckout(s, id, items, failure, ending))
            <==> Clean(s, Checkout(id, items, failure, ending))
  {
    var moves := Moves(s.cat, items);
    ReserveIffFeasible(s.cat, moves, FailAt(failure));
    UnseenIff(s.cat, moves, failure);
    if id !in s.orders {
      if Reserve(s.cat, moves, FailAt(failure)).Some? {
        ReservedCheckoutConserves(s, id, items, failure, ending);
      } else if TakesUnseen(s.cat, moves, failure) {
        UnseenLineIsLost(s, moves, failure);
      }
    }
  }

  lemma UnseenIff(cat: Catalogue, moves: seq<Move>, failure: Failure)
    ensures TakesUnseen(cat, moves, failure)
            <==> failure.AnswerLost? && failure.at < |moves| && Feasible(cat, moves[..failure.at + 1])
  {
    if failure.AnswerLost? && failure.at < |moves| {
      var n := failure.at;
      var through := moves[..n + 1];
      assert through[..n] == moves[..n] && through[n] == moves[n];
      ReserveIffFeasible(cat, through, None);
      SameUntilFailure(cat, moves[..n], FailAt(failure));
    }
  }

  lemma {:induction false} SameUntilFailure(cat: Catalogue, moves: seq<Move>, failAt: Option<nat>)
    requires failAt.Some? ==> failAt.value >= |moves|
    ensures Reserve(cat, moves, failAt) == Reserve(cat, moves, None)
  {
    if |moves| > 0 {
      SameUntilFailure(cat, moves[..|moves| - 1], failAt);
    }
  }

  /** A line taken without the checkout knowing stays off the shelf, held by nobody. */
  lemma UnseenLineIsLost(s: State, moves: seq<Move>, failure: Failure)
    requires TakesUnseen(s.cat, moves, failure)
    ensures !Conserves(s, s.(cat := RolledBack(s.cat, moves, failure)))
  {
    var pool := Pool(moves[failure.at].id, None);
    ReserveEffect(s.cat, moves[..failure.at], FailAt(failure), pool);
    UnseenOnShelf(s.cat, moves, failure, pool);
    TotalStable(s, RolledBack(s.cat, moves, failure), pool);
    assert Total(s.(cat := RolledBack(s.cat, moves, failure)), pool) != Total(s, pool);
  }

  lemma ReservedCheckoutConserves(s: State, id: string, items: seq<Item>, failure: Failure, ending: Ending)
    requires id !in s.orders && Reserve(s.cat, Moves(s.cat, items), FailAt(failure)).Some?
    ensures Conserves(s, AfterCheckout(s, id, items, failure, ending))
            <==> !LeavesOrder(ending) || |Moves(s.cat, items)| == 0
  {
    var moves := Moves(s.cat, items);
    var o := Order(Pending, items, moves);
    var reserved := Reserve(s.cat, moves, FailAt(failure)).value;
    if ending == Saved {
      forall pool ensures Total(State(reserved, s.orders[id := o]), pool) == Total(s, pool) {
        ReserveEffect(s.cat, moves, FailAt(failure), pool);
        TotalAfterUpdate(s, reserved, id, o, pool);
      }
    } else if LeavesOrder(ending) {
      if |moves| > 0 {
        ReservedNotIdle(s.cat, moves, FailAt(failure));
        var pool := BusyDemand(s.cat, moves);
        TotalAfterUpdate(s, s.cat, id, o, pool);
      } else {
        forall pool ensures Total(s.(orders := s.orders[id := o]), pool) == Total(s, pool) {
          TotalAfterUpdate(s, s.cat, id, o, pool);
        }
      }
    }
  }

  lemma StatusConserves(s: State, id: string, status: Status)
    ensures Conserves(s, AfterStatus(s, id, status)) <==> Clean(s, SetStatus(id, status))
  {
    if id in s.orders {
      var o := s.orders[id];
      var moves := Moves(s.cat, o.items);
      AppliedIffCoverable(s.cat, moves);
      if status == Confirmed && o.status != Confirmed && |o.applied| == 0 {
        var applied := ApplyAll(s.cat, moves);
        var o' := o.(applied := moves, status := Confirmed);
        assert AfterStatus(s, id, status) == State(applied, s.orders[id := o']);
        assert Held(s.cat, o') == moves && Held(s.cat, o) == [];
        forall pool
          ensures Total(State(applied, s.orders[id := o']), pool) - Total(s, pool)
                  == Level(applied, pool) - Level(s.cat, pool) + Demand(s.cat, pool, moves)
        {
          ApplyAllEffect(s.cat, moves, pool);
          TotalAfterUpdate(s, applied, id, o', pool);
        }
        if AllApplied(s.cat, moves) {
          forall pool ensures Total(State(applied, s.orders[id := o']), pool) == Total(s, pool) {
            ApplyAllEffect(s.cat, moves, pool);
          }
        } else {
          var pool := ApplyAllShort(s.cat, moves);
          assert Total(State(applied, s.orders[id := o']), pool) != Total(s, pool);
        }
      } else {
        forall pool ensures Total(AfterStatus(s, id, status), pool) == Total(s, pool) {
          OtherStatusConserves(s, id, status, pool);
        }
      }
    }
  }

  lemma OtherStatusConserves(s: State, id: string, status: Status, pool: Pool)
    requires id in s.orders
    requires !(status == Confirmed && s.orders[id].status != Confirmed && |s.orders[id].applied| == 0)
    ensures Total(AfterStatus(s, id, status), pool) == Total(s, pool)
  {
    var o := s.orders[id];
    var held := Held(s.cat, o);
    if o.status != status && (o.status == Confirmed || (o.status == Pending && status == Declined)) {
      var o' := o.(applied := [], status := status);
      assert AfterStatus(s, id, status) == State(GiveAll(s.cat, held), s.orders[id := o']);
      GiveAllEffect(s.cat, held, pool);
      TotalAfterUpdate(s, GiveAll(s.cat, held), id, o', pool);
    } else {
      var o' := o.(status := status);
      assert AfterStatus(s, id, status) == State(s.cat, s.orders[id := o']);
      assert Held(s.cat, o') == held;
      TotalAfterUpdate(s, s.cat, id, o', pool);
    }
  }

  lemma DeleteConserves(s: State, id: string, removed: bool)
    ensures Conserves(s, AfterDelete(s, id, removed)) <==> Clean(s, Delete(id, removed))
  {
    if id in s.orders {
      var held := Held(s.cat, s.orders[id]);
      var cat := GiveAll(s.cat, held);
      assert AfterDelete(s, id, removed) == State(cat, if removed then s.orders - {id} else s.orders);
      forall pool
        ensures Total(AfterDelete(s, id, removed), pool) - Total(s, pool)
                == if removed then 0 else Demand(s.cat, pool, held)
      {
        GiveAllEffect(s.cat, held, pool);
        if removed {
          TotalAfterRemoval(s, cat, id, pool);
        } else {
          TotalStable(s, cat, pool);
        }
      }
      if !removed {
        if Idle(s.cat, held) {
          forall pool ensures Demand(s.cat, pool, held) == 0 {
            IdleDemand(s.cat, held, pool);
          }
        } else {
          var pool := BusyDemand(s.cat, held);
          assert Total(AfterDelete(s, id, removed), pool) != Total(s, pool);
        }
      }
    }
  }

  /** For every state and every step: all shelves conserve their units exactly when the step is clean. */
  lemma StepConservesExactly(s: State, step: Step)
    ensures Conserves(s, Next(s, step)) <==> Clean(s, step)
  {
    match step
    case Checkout(id, items, failure, ending) => CheckoutConserves(s, id, items, failure, ending);
    case SetStatus(id, status) => StatusConserves(s, id, status);
    case Delete(id, removed) => DeleteConserves(s, id, removed);
  }

  // ------------------------------------------------------------- what a step does

  /** Only the order with this id may appear, change or go. */
  ghost predicate OthersKept(s: State, after: State, id: string)
  {
    forall k :: k != id ==>
      && (k in after.orders <==> k in s.orders)
      && (k in s.orders ==> after.orders[k] == s.orders[k])
  }

  /** Every shelf has lost this many units of what it had. */
  ghost predicate Lowered(s: State, after: State, lost: Pool -> int)
  {
    SameShape(s.cat, after.cat) && forall pool :: Level(after.cat, pool) == Level(s.cat, pool) - lost(pool)
  }

  /** A new order, on shelves that have every line of it and a database that answers. */
  ghost predicate Grants(s: State, id: string, items: seq<Item>, failure: Failure)
  {
    var moves := Moves(s.cat, items);
    id !in s.orders && Feasible(s.cat, moves) && (failure.NoFailure? || failure.at >= |moves|)
  }

  /** A line is taken though its answer is lost: the lines up to it fit. */
  ghost predicate LosesLine(s: State, id: string, items: seq<Item>, failure: Failure)
  {
    var moves := Moves(s.cat, items);
    id !in s.orders && failure.AnswerLost? && failure.at < |moves| && Feasible(s.cat, moves[..failure.at + 1])
  }

  /** The order is pending with the items sent, and holds exactly what left the shelves for it. */
  ghost predicate IsPlaced(s: State, after: State, id: string, items: seq<Item>)
  {
    && id in after.orders && after.orders[id].status == Pending && after.orders[id].items == items
    && Lowered(s, after, pool => Demand(s.cat, pool, Moves(s.cat, items)))
    && forall pool :: Demand(s.cat, pool, Held(s.cat, after.orders[id])) == Demand(s.cat, pool, Moves(s.cat, items))
  }

  /** No unit left the shelves but one line's, and no order appeared but one a write left behind. */
  ghost predicate IsTurnedAway(s: State, after: State, id: string, items: seq<Item>, failure: Failure, ending: Ending)
  {
    && Lowered(s, after, pool => if LosesLine(s, id, items, failure)
                                 then Effect(s.cat, pool, Moves(s.cat, items)[failure.at]) else 0)
    && (id in s.orders ==> id in after.orders && after.orders[id] == s.orders[id])
    && (id in after.orders && id !in s.orders
        <==> Grants(s, id, items, failure) && (ending == OrderWriteFailed(true) || ending == ReceiptWriteFailed(false)))
  }

  /** What a checkout does to orders and shelves, for every failure point. */
  ghost predicate CheckoutLaw(
      s: State, after: State, placed: bool, id: string, items: seq<Item>, failure: Failure, ending: Ending)
  {
    && OthersKept(s, after, id)
    && (placed <==> Grants(s, id, items, failure) && ending == Saved)
    && if placed then IsPlaced(s, after, id, items) else IsTurnedAway(s, after, id, items, failure, ending)
  }

  lemma GrantsIff(s: State, id: string, items: seq<Item>, failure: Failure)
    ensures Grants(s, id, items, failure)
        <==> id !in s.orders && Reserve(s.cat, Moves(s.cat, items), FailAt(failure)).Some?
  {
    ReserveIffFeasible(s.cat, Moves(s.cat, items), FailAt(failure));
  }

  lemma CheckoutObeys(s: State, id: string, items: seq<Item>, failure: Failure, ending: Ending)
    ensures CheckoutLaw(s, AfterCheckout(s, id, items, failure, ending),
                        Grants(s, id, items, failure) && ending == Saved, id, items, failure, ending)
  {
    var moves := Moves(s.cat, items);
    ReserveIffFeasible(s.cat, moves, FailAt(failure));
    UnseenIff(s.cat, moves, failure);
    if Grants(s, id, items, failure) {
      if ending == Saved {
        TakenIsLowered(s, moves, failure);
      }
      LostIsNotGranted(s, id, items, failure);
    } else if TakesUnseen(s.cat, moves, failure) && id !in s.orders {
      UnseenIsLowered(s, moves, failure);
    }
  }

  lemma LostIsNotGranted(s: State, id: string, items: seq<Item>, failure: Failure)
    ensures LosesLine(s, id, items, failure) ==> !Grants(s, id, items, failure)
  {
  }

  lemma TakenIsLowered(s: State, moves: seq<Move>, failure: Failure)
    requires Reserve(s.cat, moves, FailAt(failure)).Some?
    ensures var reserved := Reserve(s.cat, moves, FailAt(failure)).value;
            && SameShape(s.cat, reserved)
            && forall pool :: Level(reserved, pool) == Level(s.cat, pool) - Demand(s.cat, pool, moves)
  {
    ReserveEffect(s.cat, moves, FailAt(failure), Pool("", None));
    var reserved := Reserve(s.cat, moves, FailAt(failure)).value;
    forall pool ensures Level(reserved, pool) == Level(s.cat, pool) - Demand(s.cat, pool, moves) {
      ReserveEffect(s.cat, moves, FailAt(failure), pool);
    }
  }

  lemma UnseenIsLowered(s: State, moves: seq<Move>, failure: Failure)
    requires TakesUnseen(s.cat, moves, failure)
    ensures SameShape(s.cat, RolledBack(s.cat, moves, failure))
    ensures forall pool :: Level(RolledBack(s.cat, moves, failure), pool)
                           == Level(s.cat, pool) - Effect(s.cat, pool, moves[failure.at])
  {
    forall pool
      ensures SameShape(s.cat, RolledBack(s.cat, moves, failure))
      ensures Level(RolledBack(s.cat, moves, failure), pool)
              == Level(s.cat, pool) - Effect(s.cat, pool, moves[failure.at])
    {
      UnseenOnShelf(s.cat, moves, failure, pool);
    }
    assert SameShape(s.cat, RolledBack(s.cat, moves, failure)) by {
      UnseenOnShelf(s.cat, moves, failure, Pool("", None));
    }
  }

  lemma UnseenOnShelf(cat: Catalogue, moves: seq<Move>, failure: Failure, pool: Pool)
    requires TakesUnseen(cat, moves, failure)
    ensures SameShape(cat, RolledBack(cat, moves, failure))
    ensures Level(RolledBack(cat, moves, failure), pool) == Level(cat, pool) - Effect(cat, pool, moves[failure.at])
  {
    var prior := Reserve(cat, moves[..failure.at], FailAt(failure)).value;
    var taken := Take(prior, moves[failure.at]);
    ReserveEffect(cat, moves[..failure.at], FailAt(failure), pool);
    TakeEffect(prior, moves[failure.at]);
    GiveAllEffect(taken, moves[..failure.at], pool);
    SameEffect(cat, taken, pool, moves[..failure.at]);
  }

  /** The units of an order go back to the shelves: it is declined, or is confirmed no longer. */
  predicate GivesBack(from: Status, to: Status)
  {
    from != to && (from == Confirmed || to == Declined)
  }

  /** What a status change does: who is served, what leaves or reaches the shelves, what the order then holds. */
  ghost predicate StatusLaw(s: State, after: State, id: string, status: Status)
    requires id in s.orders
  {
    var o := s.orders[id];
    var unrecorded := status == Confirmed && o.status != Confirmed && |o.applied| == 0;
    var moves := Moves(s.cat, o.items);
    && OthersKept(s, after, id) && id in after.orders
    && after.orders[id].status == status && after.orders[id].items == o.items && SameShape(s.cat, after.cat)
    && forall pool ::
         var (held, still) := (Demand(s.cat, pool, Held(s.cat, o)), Demand(s.cat, pool, Held(s.cat, after.orders[id])));
         if GivesBack(o.status, status) then
           still == 0 && Level(after.cat, pool) == Level(s.cat, pool) + held
         else if unrecorded then
           still == Demand(s.cat, pool, moves)
           && (Coverable(s.cat, moves) ==> Level(after.cat, pool) == Level(s.cat, pool) - still)
         else
           still == held && Level(after.cat, pool) == Level(s.cat, pool)
  }

  lemma StatusObeys(s: State, id: string, status: Status)
    requires id in s.orders
    ensures StatusLaw(s, AfterStatus(s, id, status), id, status)
  {
    var o := s.orders[id];
    if GivesBack(o.status, status) {
      forall pool ensures SameShape(s.cat, GiveAll(s.cat, Held(s.cat, o)))
        ensures Level(GiveAll(s.cat, Held(s.cat, o)), pool) == Level(s.cat, pool) + Demand(s.cat, pool, Held(s.cat, o))
      {
        GiveAllEffect(s.cat, Held(s.cat, o), pool);
      }
      GiveAllEffect(s.cat, Held(s.cat, o), Pool("", None));
    } else if status == Confirmed && o.status != Confirmed && |o.applied| == 0 {
      ConfirmObeys(s, id);
    }
  }

  lemma ConfirmObeys(s: State, id: string)
    requires id in s.orders && s.orders[id].status != Confirmed && |s.orders[id].applied| == 0
    ensures StatusLaw(s, AfterStatus(s, id, Confirmed), id, Confirmed)
  {
    var moves := Moves(s.cat, s.orders[id].items);
    AppliedIffCoverable(s.cat, moves);
    ApplyAllEffect(s.cat, moves, Pool("", None));
    var applied := ApplyAll(s.cat, moves);
    forall pool
      ensures Coverable(s.cat, moves) ==> Level(applied, pool) == Level(s.cat, pool) - Demand(s.cat, pool, moves)
    {
      ApplyAllEffect(s.cat, moves, pool);
    }
  }

  /** A deletion gives back what the order holds, whether or not the row then goes. */
  ghost predicate DeleteLaw(s: State, after: State, id: string, removed: bool)
    requires id in s.orders
  {
    && OthersKept(s, after, id) && SameShape(s.cat, after.cat)
    && (id in after.orders <==> !removed) && (!removed ==> after.orders[id] == s.orders[id])
    && forall pool :: Level(after.cat, pool) == Level(s.cat, pool) + Demand(s.cat, pool, Held(s.cat, s.orders[id]))
  }

  lemma DeleteObeys(s: State, id: string, removed: bool)
    requires id in s.orders
    ensures DeleteLaw(s, AfterDelete(s, id, removed), id, removed)
  {
    var held := Held(s.cat, s.orders[id]);
    GiveAllEffect(s.cat, held, Pool("", None));
    forall pool ensures Level(GiveAll(s.cat, held), pool) == Level(s.cat, pool) + Demand(s.cat, pool, held) {
      GiveAllEffect(s.cat, held, pool);
    }
    assert AfterDelete(s, id, removed).cat == GiveAll(s.cat, held);
  }

  ghost predicate CleanRun(s: State, steps: seq<Step>)
  {
    forall n :: 0 <= n < |steps| ==> Clean(Run(s, steps[..n]), steps[n])
  }

  /** Over any clean run, units on the shelf plus units held are constant on every shelf. */
  lemma {:induction false} RunConserves(s: State, steps: seq<Step>)
    requires CleanRun(s, steps)
    ensures Conserves(s, Run(s, steps))
  {
    var n := |steps|;
    if n > 0 {
      var front := steps[..n - 1];
      forall k | 0 <= k < n - 1 ensures Clean(Run(s, front[..k]), front[k]) {
        assert front[..k] == steps[..k];
        assert Clean(Run(s, steps[..k]), steps[k]);
      }
      RunConserves(s, front);
      assert Clean(Run(s, front), steps[n - 1]);
      StepConservesExactly(Run(s, front), steps[n - 1]);
      forall pool ensures Total(Run(s, steps), pool) == Total(s, pool) {
        assert Total(Run(s, front), pool) == Total(s, pool);
      }
    }
  }

  /** While an order's units are recorded, no change of its status can lose or invent one. */
  lemma ReservedOrderConfirmsClean(s: State, id: string, status: Status)
    requires id in s.orders && |s.orders[id].applied| > 0
    ensures Clean(s, SetStatus(id, status)) && Conserves(s, AfterStatus(s, id, status))
    ensures status == Confirmed ==> AfterStatus(s, id, status).cat == s.cat || s.orders[id].status == Confirmed
  {
    StatusConserves(s, id, status);
  }

  /**
    The counterexample the source's own comment denies: a deletion that the
    database refuses has already given its unit back, and a retry gives it back
    again, so one unit reserved ends as two on the shelf.
  */
  lemma FailedDeleteReleasesTwice()
    ensures var p := Product(true, false, 0, map[], false, map[]);
            var s := State(Catalogue(map["mug" := p], map[]),
                           map["JA-1" := Order(Pending, [Item("mug", "", 1)], [Move("mug", None, 1)])]);
            var pool := Pool("mug", None);
            && Total(s, pool) == 1
            && Level(Run(s, [Delete("JA-1", false), Delete("JA-1", true)]).cat, pool) == 2
  {
    var p := Product(true, false, 0, map[], false, map[]);
    var m := Move("mug", None, 1);
    var o := Order(Pending, [Item("mug", "", 1)], [m]);
    var s := State(Catalogue(map["mug" := p], map[]), map["JA-1" := o]);
    var pool := Pool("mug", None);
    SumOne(EffectOn(s.cat, pool), m);
    assert [m][..0] == [];
    assert GiveAll(s.cat, [m]) == Give(s.cat, m);
    assert HeldUnits(s, pool) == map["JA-1" := 1];
    assert map["JA-1" := 1] - {"JA-1"} == map[];
    SumMapRemove(map["JA-1" := 1], "JA-1");
    var first := AfterDelete(s, "JA-1", false);
    assert first == State(Give(s.cat, m), s.orders);
    assert GiveAll(first.cat, [m]) == Give(first.cat, m);
    var steps := [Delete("JA-1", false), Delete("JA-1", true)];
    assert steps[..1] == [Delete("JA-1", false)] && steps[..1][..0] == [];
    assert Run(s, steps[..1]) == first;
  }
}
