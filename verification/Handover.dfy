/**
  From the accepted cart to its reservation (api.py): which accepted carts the
  stock primitives reserve in full.
*/
module Handover {
  import opened Basics
  import opened Sums
  import opened Wrappers
  import opened Stock
  import opened Cart
  import opened Orderings
  import opened Acceptance
  import opened Overdraw

  function Items(lines: seq<Line>): seq<Item>
  {
    seq(|lines|, i requires 0 <= i < |lines| => Item(lines[i].key.id, lines[i].key.variant, lines[i].qty))
  }

  /** A spelling the reservation can book: no variant of a product without options, or a stored option. */
  predicate Bookable(product: Product, variant: string)
  {
    if variant == "" then Optionless(product) || UNASSIGNED in product.optionStock
    else ResolveOption(product, variant).Some? && ResolveOption(product, variant) != Some(WHOLE)
  }

  function MoveOf(cat: Catalogue, l: Line): Move
  {
    Move(l.key.id, OptionFor(cat, l.key.id, l.key.variant), l.qty)
  }

  lemma BookableIff(cat: Catalogue, l: Line)
    requires l.key.id in cat.products
    ensures KnownLine(cat, MoveOf(cat, l))
            <==> Open(cat, l.key.id) && Bookable(cat.products[l.key.id], l.key.variant)
  {
  }

  /** The option whose units a line books. */
  function OfBooked(cat: Catalogue, id: string, option: string): Key -> int
  {
    (k: Key) =>
      if k.id == id && id in cat.products
         && Matched(cat.products[id], OptionFor(cat, id, k.variant)) == Some(option) then 1 else 0
  }

  predicate OnRows(cat: Catalogue, lines: seq<Line>)
  {
    forall i :: 0 <= i < |lines| ==> lines[i].key.id != "" && KeyOnSale(cat, lines[i].key)
  }

  lemma {:induction false} MovesAre(cat: Catalogue, lines: seq<Line>)
    requires OnRows(cat, lines)
    ensures |Moves(cat, Items(lines))| == |lines|
    ensures forall i :: 0 <= i < |lines| ==> Moves(cat, Items(lines))[i] == MoveOf(cat, lines[i])
  {
    if |lines| > 0 {
      MovesStep(cat, lines);
      MovesAre(cat, lines[..|lines| - 1]);
    }
  }

  lemma MovesStep(cat: Catalogue, lines: seq<Line>)
    requires |lines| > 0 && OnRows(cat, lines)
    ensures OnRows(cat, lines[..|lines| - 1])
    ensures Moves(cat, Items(lines)) == Moves(cat, Items(lines[..|lines| - 1])) + [MoveOf(cat, lines[|lines| - 1])]
  {
    var front := lines[..|lines| - 1];
    assert forall i :: 0 <= i < |front| ==> front[i] == lines[i];
    assert Items(lines)[..|lines| - 1] == Items(front);
  }

  /** What one unit of a line asks of a shelf of the catalogue. */
  function Booked(cat: Catalogue, pool: Pool): Key -> int
  {
    if pool.option.Some? then OfBooked(cat, pool.id, pool.option.value) else OfProduct(pool.id)
  }

  lemma LineBooks(cat: Catalogue, pool: Pool, l: Line)
    requires IsPool(cat, pool) && KeyOnSale(cat, l.key)
    ensures Effect(cat, pool, MoveOf(cat, l)) == Booked(cat, pool)(l.key) * l.qty
  {
    ScaledByOneOrNone(l.qty);
  }

  lemma DemandWithLast(cat: Catalogue, pool: Pool, front: seq<Move>, last: Move)
    ensures Demand(cat, pool, front + [last]) == Demand(cat, pool, front) + Effect(cat, pool, last)
  {
    DemandStep(cat, pool, front + [last]);
    assert (front + [last])[..|front|] == front;
  }

  /** The stock lines of a cart ask each product for its units, and each option for what is booked of it. */
  lemma {:induction false} MovesDemand(cat: Catalogue, lines: seq<Line>, pool: Pool)
    requires OnRows(cat, lines) && IsPool(cat, pool)
    ensures Demand(cat, pool, Moves(cat, Items(lines))) == Weight(Booked(cat, pool), lines)
  {
    if |lines| > 0 {
      var front, last := lines[..|lines| - 1], lines[|lines| - 1];
      MovesStep(cat, lines);
      MovesDemand(cat, front, pool);
      DemandWithLast(cat, pool, Moves(cat, Items(front)), MoveOf(cat, last));
      LineBooks(cat, pool, last);
      assert lines[..|lines|] == lines;
      WeightStep(Booked(cat, pool), lines, |front|);
    }
  }

  lemma {:induction false} NoDemandOutside(cat: Catalogue, pool: Pool, moves: seq<Move>)
    requires !IsPool(cat, pool)
    ensures Demand(cat, pool, moves) == 0
  {
    if |moves| > 0 {
      NoDemandOutside(cat, pool, moves[..|moves| - 1]);
      DemandStep(cat, pool, moves);
    }
  }

  /** No product is asked for more than its total, whatever its lines are spelled like. */
  predicate TotalsSuffice(cat: Catalogue, lines: seq<Line>)
  {
    forall id :: id in cat.products ==> UnitsOf(lines, id) <= cat.products[id].stock
  }

  /** Should a product store an option under the name of an unchosen variant, it covers what is booked of it. */
  predicate PlaceholderSuffices(cat: Catalogue, lines: seq<Line>)
  {
    forall id :: id in cat.products && UNASSIGNED in cat.products[id].optionStock ==>
      Weight(OfBooked(cat, id, UNASSIGNED), lines) <= cat.products[id].optionStock[UNASSIGNED]
  }

  /**
    What the cart check leaves to the reservation: of all accepted carts, no product
    having an empty id, exactly those are reserved in full whose lines are all
    bookable and ask no product, its variants together, for more than its total, nor
    the placeholder option, where a product stores one, for more than it has.
  */
  lemma AcceptedCartReserves(cat: Catalogue, lines: seq<Line>)
    requires "" !in cat.products && Accepted(cat, lines)
    ensures Reserve(cat, Moves(cat, Items(Grouped(lines))), None).Some?
            <==> && (forall i :: 0 <= i < |lines| ==>
                       && lines[i].key.id in cat.products
                       && Bookable(cat.products[lines[i].key.id], lines[i].key.variant))
                 && TotalsSuffice(cat, lines) && PlaceholderSuffices(cat, lines)
  {
    var groups := Grouped(lines);
    var moves := Moves(cat, Items(groups));
    AcceptedIsOnRows(cat, lines);
    ReserveIffFeasible(cat, moves, None);
    MovesAre(cat, groups);
    forall i | 0 <= i < |groups|
      ensures KnownLine(cat, moves[i]) <==> Bookable(cat.products[groups[i].key.id], groups[i].key.variant)
    {
      BookableIff(cat, groups[i]);
    }
    BookableAlike(cat, lines);
    CoveredIff(cat, lines);
  }

  /** The lines of an accepted cart, and its groups, are on rows that are open. */
  lemma AcceptedIsOnRows(cat: Catalogue, lines: seq<Line>)
    requires "" !in cat.products && Accepted(cat, lines)
    ensures OnRows(cat, lines) && OnRows(cat, Grouped(lines))
    ensures forall i :: 0 <= i < |Grouped(lines)| ==> Open(cat, Grouped(lines)[i].key.id)
  {
    forall i | 0 <= i < |lines| ensures KeyOnSale(cat, lines[i].key) && Open(cat, lines[i].key.id) {
      var h := LeaderFits(cat, lines, i);
    }
    var groups := Grouped(lines);
    forall i | 0 <= i < |groups|
      ensures groups[i].key.id != "" && KeyOnSale(cat, groups[i].key) && Open(cat, groups[i].key.id)
    {
      var h := GroupFrom(lines, i);
    }
  }

  lemma GroupFrom(lines: seq<Line>, i: nat) returns (h: nat)
    requires i < |Grouped(lines)|
    ensures h < |lines| && lines[h].key == Grouped(lines)[i].key
  {
    GroupedKeys(lines, Grouped(lines)[i].key);
    assert HasKey(Grouped(lines), Grouped(lines)[i].key);
    h :| 0 <= h < |lines| && lines[h].key == Grouped(lines)[i].key;
  }

  lemma BookableAlike(cat: Catalogue, lines: seq<Line>)
    requires OnRows(cat, lines) && OnRows(cat, Grouped(lines))
    ensures (forall i :: 0 <= i < |lines| ==> Bookable(cat.products[lines[i].key.id], lines[i].key.variant))
            <==> forall i :: 0 <= i < |Grouped(lines)| ==>
                   Bookable(cat.products[Grouped(lines)[i].key.id], Grouped(lines)[i].key.variant)
  {
    var groups := Grouped(lines);
    if h :| 0 <= h < |groups| && !Bookable(cat.products[groups[h].key.id], groups[h].key.variant) {
      var i := GroupFrom(lines, h);
    }
    if h :| 0 <= h < |lines| && !Bookable(cat.products[lines[h].key.id], lines[h].key.variant) {
      GroupedKeys(lines, lines[h].key);
      assert HasKey(lines, lines[h].key);
      var i :| 0 <= i < |groups| && groups[i].key == lines[h].key;
    }
  }

  /** The shelves cover the stock lines exactly if totals and placeholder do: options are covered already. */
  lemma CoveredIff(cat: Catalogue, lines: seq<Line>)
    requires Accepted(cat, lines) && OnRows(cat, Grouped(lines))
    ensures Covered(cat, Moves(cat, Items(Grouped(lines))))
            <==> TotalsSuffice(cat, lines) && PlaceholderSuffices(cat, lines)
  {
    var groups := Grouped(lines);
    var moves := Moves(cat, Items(groups));
    forall pool ensures Demand(cat, pool, moves) == AskedOf(cat, lines, pool) {
      DemandOfCart(cat, lines, pool);
    }
    if Covered(cat, moves) {
      forall id | id in cat.products ensures UnitsOf(lines, id) <= cat.products[id].stock {
        assert Demand(cat, Pool(id, None), moves) <= Level(cat, Pool(id, None));
      }
      forall id | id in cat.products && UNASSIGNED in cat.products[id].optionStock
        ensures Weight(OfBooked(cat, id, UNASSIGNED), lines) <= cat.products[id].optionStock[UNASSIGNED]
      {
        var pool := Pool(id, Some(UNASSIGNED));
        assert Demand(cat, pool, moves) <= Level(cat, pool);
      }
    }
    if TotalsSuffice(cat, lines) && PlaceholderSuffices(cat, lines) {
      forall pool ensures Demand(cat, pool, moves) <= Level(cat, pool) {
        if IsPool(cat, pool) && pool.option.Some? && pool.option.value != UNASSIGNED {
          BookedIsAsked(cat, lines, pool.id, pool.option.value);
        }
      }
    }
  }

  function AskedOf(cat: Catalogue, lines: seq<Line>, pool: Pool): int
  {
    if IsPool(cat, pool) then Weight(Booked(cat, pool), lines) else 0
  }

  lemma DemandOfCart(cat: Catalogue, lines: seq<Line>, pool: Pool)
    requires OnRows(cat, Grouped(lines))
    ensures Demand(cat, pool, Moves(cat, Items(Grouped(lines)))) == AskedOf(cat, lines, pool)
  {
    if IsPool(cat, pool) {
      MovesDemand(cat, Grouped(lines), pool);
      GroupedWeighs(Booked(cat, pool), lines);
    } else {
      NoDemandOutside(cat, pool, Moves(cat, Items(Grouped(lines))));
    }
  }

  /** What is booked of an option was asked of it by name, and the cart check has bounded that. */
  lemma BookedIsAsked(cat: Catalogue, lines: seq<Line>, id: string, option: string)
    requires Accepted(cat, lines) && id in cat.products && option in cat.products[id].optionStock
    requires option != UNASSIGNED
    ensures Weight(OfBooked(cat, id, option), lines) <= cat.products[id].optionStock[option]
  {
    AcceptedKeepsOptions(cat, lines);
    var w := OfOption(cat.products[id], id, option);
    forall i | 0 <= i < |lines| ensures OfBooked(cat, id, option)(lines[i].key) <= w(lines[i].key) {
    }
    WeightOrdered(OfBooked(cat, id, option), w, lines);
  }

  /**
    One mug is left: a cart that asks for it by both spellings passes the cart
    check, and only the reservation turns it away.
  */
  lemma ReservedNamePassesCartCheck()
    ensures var cat := Catalogue(map["mug" := Product(true, false, 1, map[], false, map[])], map[]);
            var lines := [Line(Key("mug", "", ""), 1), Line(Key("mug", WHOLE, ""), 1)];
            && Accepted(cat, lines)
            && Weight(OfTotal(cat.products["mug"], "mug"), lines) == 2 > cat.products["mug"].stock
            && Reserve(cat, Moves(cat, Items(Grouped(lines))), None).None?
  {
    var cat := Catalogue(map["mug" := Product(true, false, 1, map[], false, map[])], map[]);
    var lines := [Line(Key("mug", "", ""), 1), Line(Key("mug", WHOLE, ""), 1)];
    BothAreAccepted(cat, lines[0], lines[1]);
    assert !Bookable(cat.products["mug"], lines[1].key.variant);
    AcceptedCartReserves(cat, lines);
  }
}
