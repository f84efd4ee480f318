/**
  Saving the category menu across two stores and a ledger of tombstones (api.py,
  supabase_store.py, hard_delete_categories.sql), and the boot seed that puts
  missing defaults back (category_seed.py). Every call to the database may fail.
*/
module Categories {
  import opened Wrappers

  datatype Id = Id(slug: string)

  /** A row of the public table. */
  datatype Row = Row(name: string, french: string, image: string, hidden: bool)

  /** A record of the companion details, which also keep the menu order. */
  datatype Category = Category(row: Row, order: int)

  /** The public table, the companion details, the tombstones, and the seed's marker. */
  datatype State = State(table: map<Id, Row>, details: map<Id, Category>, tombs: set<Id>, seeded: bool)

  /** A write is done, not done, or done with the answer lost. */
  datatype Call = Done | Failed | Unconfirmed

  /** How the database answers during one save. */
  datatype Answers = Answers(readable: bool, upsert: Call, details: Call, delete: Call,
                             restoreRead: bool, restoreUpsert: bool, restoreDelete: bool, restoreDetails: bool)

  // ----------------------------------------------------------------- the store's calls

  function RowsOf(cats: map<Id, Category>): map<Id, Row>
  {
    map id | id in cats :: cats[id].row
  }

  /** Inserting or updating a tombstoned id is refused by the table's trigger. */
  predicate Admits(tombs: set<Id>, rows: map<Id, Row>)
  {
    rows.Keys !! tombs
  }

  function Upserted(table: map<Id, Row>, rows: map<Id, Row>): map<Id, Row>
  {
    table + rows
  }

  /**
    The rows a compensation writes back. They carry the French name under a column
    the table does not have, so a row keeps whatever French name it has by then.
  */
  function WrittenBack(table: map<Id, Row>, previous: map<Id, Row>): map<Id, Row>
  {
    map id | id in previous :: previous[id].(french := if id in table then table[id].french else "")
  }

  function Only<V>(m: map<Id, V>, keep: set<Id>): map<Id, V>
  {
    map id | id in m && id in keep :: m[id]
  }

  /** Compensate a save that was not committed; the flag says whether all of it went through. */
  function Restored(table: map<Id, Row>, tombs: set<Id>, previous: map<Id, Row>, a: Answers): (map<Id, Row>, bool)
  {
    if !a.restoreRead || !a.restoreUpsert || !Admits(tombs, previous) then (table, false)
    else
      var back := Upserted(table, WrittenBack(table, previous));
      if a.restoreDelete then (Only(back, previous.Keys), true) else (back, false)
  }

  function Removed(s: State, menu: map<Id, Category>): set<Id>
  {
    (s.table.Keys + s.details.Keys) - menu.Keys
  }

  datatype Saved = Saved(state: State, ok: bool, restored: bool)

  /** The outcome of one save of the whole menu. */
  function AfterSave(s: State, menu: map<Id, Category>, a: Answers): Saved
  {
    if !a.readable || !(menu.Keys !! s.tombs) then Saved(s, false, true)
    else
      var table := if a.upsert == Failed then s.table else Upserted(s.table, RowsOf(menu));
      if a.upsert != Done then
        var (back, ok) := Restored(table, s.tombs, s.table, a);
        Saved(s.(table := back), false, ok)
      else
        var details := if a.details == Failed then s.details else menu;
        var removed := Removed(s, menu);
        if a.details == Done && (removed == {} || a.delete == Done) then
          Saved(s.(table := Only(table, table.Keys - removed), details := menu, tombs := s.tombs + removed), true, true)
        else
          var deleted := a.details == Done && a.delete == Unconfirmed;
          var now := if deleted then Only(table, table.Keys - removed) else table;
          var tombs := if deleted then s.tombs + removed else s.tombs;
          var (back, ok) := Restored(now, tombs, s.table, a);
          Saved(State(back, if a.restoreDetails then s.details else details, tombs, s.seeded),
                false, ok && a.restoreDetails)
  }

  // ------------------------------------------------------------------------- the seed

  datatype Default = Default(id: Id, row: Row)

  datatype SeedAnswers = SeedAnswers(readable: bool, reread: bool, upsert: Call, delete: Call, details: Call)

  /** The defaults that are neither buried, live nor hidden by the owner. */
  predicate Wanted(s: State, id: Id)
  {
    id !in s.tombs && id !in s.table && !(id in s.details && s.details[id].row.hidden)
  }

  function Or(a: string, b: string): string
  {
    if a != "" then a else b
  }

  /** What is seeded for a default: the owner's own copy first, the shipped one for the gaps. */
  function SeedRow(s: State, d: Default): Row
  {
    if d.id in s.details
    then
      var own := s.details[d.id].row;
      Row(Or(own.name, d.row.name), Or(own.french, d.row.french), Or(own.image, d.row.image), false)
    else d.row.(hidden := false)
  }

  /** The rows to add for the first n defaults; a repeated default is taken once. */
  function Additions(s: State, defaults: seq<Default>, n: nat): map<Id, Row>
    requires n <= |defaults|
  {
    if n == 0 then map[]
    else
      var earlier := Additions(s, defaults, n - 1);
      var d := defaults[n - 1];
      if Wanted(s, d.id) && d.id !in earlier then earlier[d.id := SeedRow(s, d)] else earlier
  }

  /** A category without a name is left out of a table write. */
  function Named(rows: map<Id, Row>): map<Id, Row>
  {
    map id | id in rows && rows[id].name != "" :: rows[id]
  }

  function WithDetails(details: map<Id, Category>, more: map<Id, Row>, orders: Id -> int): map<Id, Category>
  {
    details + map id | id in more :: Category(more[id], orders(id))
  }

  datatype SeedResult = NothingToDo | Seeded | AlreadyApplied | Unavailable | SeedFailed

  /**
    The outcome of the boot seed. The table write prunes whatever it does not
    write, and pruning buries.
  */
  function AfterSeed(s: State, defaults: seq<Default>, orders: Id -> int, a: SeedAnswers): (State, SeedResult)
  {
    var more := Additions(s, defaults, |defaults|);
    if s.seeded then (s, AlreadyApplied)
    else if !a.readable then (s, Unavailable)
    else if more == map[] then (s.(seeded := true), NothingToDo)
    else
      var rows := Named(s.table + more);
      if !a.reread || a.upsert == Failed then (s, SeedFailed)
      else
        var table := Upserted(s.table, rows);
        var removed := s.table.Keys - rows.Keys;
        if a.upsert == Unconfirmed || (removed != {} && a.delete == Failed) then (s.(table := table), SeedFailed)
        else
          var pruned := s.(table := Only(table, table.Keys - removed), tombs := s.tombs + removed);
          if removed != {} && a.delete == Unconfirmed then (pruned, SeedFailed)
          else
            var details := WithDetails(s.details, more, orders);
            match a.details
            case Done => (pruned.(details := details, seeded := true), Seeded)
            case Failed => (pruned, SeedFailed)
            case Unconfirmed => (pruned.(details := details), SeedFailed)
  }

  class CategoryStore {
    var table: map<Id, Row>
    var details: map<Id, Category>
    var tombs: set<Id>
    var seeded: bool

    constructor ()
      ensures Now() == State(map[], map[], {}, false)
    {
      table, details, tombs, seeded := map[], map[], {}, false;
    }

    function Now(): State
      reads this
    {
      State(table, details, tombs, seeded)
    }

    /** Install a menu: the table first, then the details, and removals last. */
    method SaveCategories(menu: map<Id, Category>, a: Answers) returns (ok: bool, restored: bool)
      requires table.Keys !! tombs
      modifies this
      ensures AfterSave(old(Now()), menu, a) == Saved(Now(), ok, restored)
    {
      if !a.readable || !(menu.Keys !! tombs) {
        return false, true;
      }
      var previousTable, previousDetails := table, details;
      var removed := (previousTable.Keys + previousDetails.Keys) - menu.Keys;
      var upserted := UpsertTable(RowsOf(menu), a.upsert);
      if !upserted {
        restored := RestoreTable(previousTable, a);
        return false, restored;
      }
      var detailed := WriteDetails(menu, a.details);
      if !detailed {
        restored := Compensate(previousTable, previousDetails, a);
        return false, restored;
      }
      if removed != {} {
        var deleted := HardDelete(removed, a.delete);
        if !deleted {
          restored := Compensate(previousTable, previousDetails, a);
          return false, restored;
        }
      }
      assert Only(table, table.Keys - removed) == table;
      return true, true;
    }

    /** Put both stores back to what was read before the save. */
    method Compensate(previousTable: map<Id, Row>, previousDetails: map<Id, Category>, a: Answers)
      returns (ok: bool)
      modifies this`table, this`details
      ensures (table, ok) == (Restored(old(table), tombs, previousTable, a).0,
                              Restored(old(table), tombs, previousTable, a).1 && a.restoreDetails)
      ensures details == if a.restoreDetails then previousDetails else old(details)
    {
      var tabled := RestoreTable(previousTable, a);
      var detailed := WriteDetails(previousDetails, if a.restoreDetails then Done else Failed);
      return tabled && detailed;
    }

    method UpsertTable(rows: map<Id, Row>, call: Call) returns (ok: bool)
      requires rows.Keys !! tombs
      modifies this`table
      ensures ok == (call == Done)
      ensures table == if call == Failed then old(table) else Upserted(old(table), rows)
    {
      if call != Failed {
        table := Upserted(table, rows);
      }
      return call == Done;
    }

    method WriteDetails(menu: map<Id, Category>, call: Call) returns (ok: bool)
      modifies this`details
      ensures ok == (call == Done)
      ensures details == if call == Failed then old(details) else menu
    {
      if call != Failed {
        details := menu;
      }
      return call == Done;
    }

    /** The atomic removal: rows and tombstones in one transaction. */
    method HardDelete(ids: set<Id>, call: Call) returns (ok: bool)
      modifies this`table, this`tombs
      ensures ok == (call == Done)
      ensures table == if call == Failed then old(table) else Only(old(table), old(table).Keys - ids)
      ensures tombs == if call == Failed then old(tombs) else old(tombs) + ids
    {
      if call != Failed {
        table := Only(table, table.Keys - ids);
        tombs := tombs + ids;
      }
      return call == Done;
    }

    method RestoreTable(previous: map<Id, Row>, a: Answers) returns (ok: bool)
      modifies this`table
      ensures (table, ok) == Restored(old(table), tombs, previous, a)
    {
      if !a.restoreRead || !a.restoreUpsert || !Admits(tombs, previous) {
        return false;
      }
      table := Upserted(table, WrittenBack(table, previous));
      if !a.restoreDelete {
        return false;
      }
      table := Only(table, previous.Keys);
      return true;
    }

    /** Put the shipped defaults back that the live table lost, once. */
    method SeedMissingDefaults(defaults: seq<Default>, orders: Id -> int, a: SeedAnswers) returns (r: SeedResult)
      requires table.Keys !! tombs
      modifies this
      ensures (Now(), r) == AfterSeed(old(Now()), defaults, orders, a)
    {
      if seeded {
        return AlreadyApplied;
      }
      if !a.readable {
        return Unavailable;
      }
      var more: map<Id, Row> := map[];
      for n := 0 to |defaults|
        invariant more == Additions(Now(), defaults, n)
        invariant Now() == old(Now())
      {
        var d := defaults[n];
        if Wanted(Now(), d.id) && d.id !in more {
          more := more[d.id := SeedRow(Now(), d)];
        }
      }
      if more == map[] {
        seeded := true;
        return NothingToDo;
      }
      AdditionsAreWanted(Now(), defaults, |defaults|);
      var rows := Named(table + more);
      if !a.reread {
        return SeedFailed;
      }
      var removed := table.Keys - rows.Keys;
      var upserted := UpsertTable(rows, a.upsert);
      if !upserted {
        return SeedFailed;
      }
      if removed != {} {
        var deleted := HardDelete(removed, a.delete);
        if !deleted {
          return SeedFailed;
        }
      }
      assert Only(table, table.Keys - removed) == table;
      assert tombs == old(tombs) + removed;
      var detailed := WriteDetails(WithDetails(details, more, orders), a.details);
      if !detailed {
        return SeedFailed;
      }
      seeded := true;
      return Seeded;
    }
  }

  // ---------------------------------------------------------------- what a save comes to

  lemma {:induction false} AdditionsAreWanted(s: State, defaults: seq<Default>, n: nat)
    requires n <= |defaults|
    ensures forall id :: id in Additions(s, defaults, n) ==> Wanted(s, id)
    ensures forall k :: 0 <= k < n && Wanted(s, defaults[k].id) ==> defaults[k].id in Additions(s, defaults, n)
  {
    if n > 0 {
      AdditionsAreWanted(s, defaults, n - 1);
    }
  }

  /** Nothing in the table is tombstoned. */
  predicate Sound(s: State)
  {
    s.table.Keys !! s.tombs
  }

  /** The removal was committed and the answer lost. */
  predicate DeleteLost(s: State, menu: map<Id, Category>, a: Answers)
  {
    && a.readable && menu.Keys !! s.tombs && a.upsert == Done && a.details == Done
    && a.delete == Unconfirmed && Removed(s, menu) != {}
  }

  /** A menu keeps the French name of every category it shares with the table. */
  predicate KeepsFrench(s: State, menu: map<Id, Category>)
  {
    forall id :: id in s.table && id in menu ==> s.table[id].french == menu[id].row.french
  }

  /** A reported success installs the menu in both stores and buries exactly what it removed. */
  /** A save is done exactly if both stores can be read, nothing buried returns, and every call it makes succeeds. */
  lemma SavedIff(s: State, menu: map<Id, Category>, a: Answers)
    ensures AfterSave(s, menu, a).ok
        <==> && a.readable && (forall id :: id in menu ==> id !in s.tombs)
             && a.upsert == Done && a.details == Done
             && ((forall id :: id in s.table || id in s.details ==> id in menu) || a.delete == Done)
  {
    var removed := Removed(s, menu);
    assert menu.Keys !! s.tombs <==> forall id :: id in menu ==> id !in s.tombs;
    assert removed == {} <==> forall id :: id in s.table || id in s.details ==> id in menu by {
      forall id | id in s.table || id in s.details ensures id in removed <==> id !in menu {
      }
    }
  }

  lemma SavedInstalls(s: State, menu: map<Id, Category>, a: Answers)
    requires Sound(s) && AfterSave(s, menu, a).ok
    ensures var after := AfterSave(s, menu, a).state;
            && after.table == RowsOf(menu) && after.details == menu
            && after.tombs == s.tombs + Removed(s, menu)
  {
    var table := Upserted(s.table, RowsOf(menu));
    assert Only(table, table.Keys - Removed(s, menu)) == RowsOf(menu);
  }

  /** A reported failure buries nothing, unless the answer to the removal was lost. */
  lemma FailureBuriesNothing(s: State, menu: map<Id, Category>, a: Answers)
    requires Sound(s) && !AfterSave(s, menu, a).ok
    ensures AfterSave(s, menu, a).state.tombs
            == if DeleteLost(s, menu, a) then s.tombs + Removed(s, menu) else s.tombs
    ensures DeleteLost(s, menu, a) && !(Removed(s, menu) !! s.table.Keys) ==> !AfterSave(s, menu, a).restored
  {
  }

  /** What a failed save leaves in the details, and in the table if its compensation never starts. */
  lemma FailureLeaves(s: State, menu: map<Id, Category>, a: Answers)
    requires !AfterSave(s, menu, a).ok
    ensures var after := AfterSave(s, menu, a).state;
            var reached := a.readable && menu.Keys !! s.tombs;
            && (after.details == if reached && a.upsert == Done && a.details != Failed && !a.restoreDetails
                                 then menu else s.details)
            && (!reached ==> after == s)
            && (reached && !a.restoreRead ==>
                  forall id ::
                    && (id in after.table <==> (id in s.table || (id in menu && a.upsert != Failed))
                                               && (DeleteLost(s, menu, a) ==> id in menu))
                    && (id in after.table ==>
                          after.table[id] == if id in menu && a.upsert != Failed then menu[id].row else s.table[id]))
            && after.seeded == s.seeded
  {
  }

  /**
    When the compensation of a failed save goes through: exactly if nothing was written,
    or every call it makes succeeds and nothing it would put back was buried meanwhile.
  */
  lemma RestoredIff(s: State, menu: map<Id, Category>, a: Answers)
    requires Sound(s) && !AfterSave(s, menu, a).ok
    ensures AfterSave(s, menu, a).restored
        <==> || !a.readable || !(menu.Keys !! s.tombs)
             || (&& a.restoreRead && a.restoreUpsert && a.restoreDelete && (a.upsert == Done ==> a.restoreDetails)
                 && (DeleteLost(s, menu, a) ==> Removed(s, menu) !! s.table.Keys))
  {
  }

  /**
    A failure whose compensation went through leaves the old ids, names, images and
    details; the old table is back in full exactly when the save never reached it or
    changed no French name, because the compensation does not write French names.
  */
  lemma CompensationRestores(s: State, menu: map<Id, Category>, a: Answers)
    requires Sound(s) && !DeleteLost(s, menu, a)
    requires !AfterSave(s, menu, a).ok && AfterSave(s, menu, a).restored
    ensures var after := AfterSave(s, menu, a).state;
            var reached := a.readable && menu.Keys !! s.tombs && a.upsert != Failed;
            && after.details == s.details && after.table.Keys == s.table.Keys
            && (forall id :: id in s.table ==> after.table[id].(french := s.table[id].french) == s.table[id])
            && (after == s <==> !reached || KeepsFrench(s, menu))
  {
    var after := AfterSave(s, menu, a).state;
    if a.readable && menu.Keys !! s.tombs {
      var table := if a.upsert == Failed then s.table else Upserted(s.table, RowsOf(menu));
      WriteBackIs(table, s.table);
      assert after.table == WrittenBack(table, s.table);
      forall id | id in s.table
        ensures after.table[id].french
                == if a.upsert != Failed && id in menu then menu[id].row.french else s.table[id].french
      {
      }
      if a.upsert == Failed || KeepsFrench(s, menu) {
        SameButFrench(after.table, s.table);
      }
    }
  }

  lemma WriteBackIs(table: map<Id, Row>, previous: map<Id, Row>)
    ensures Only(Upserted(table, WrittenBack(table, previous)), previous.Keys) == WrittenBack(table, previous)
  {
  }

  lemma SameButFrench(a: map<Id, Row>, b: map<Id, Row>)
    requires a.Keys == b.Keys
    requires forall id :: id in b ==> a[id].(french := b[id].french) == b[id] && a[id].french == b[id].french
    ensures a == b
  {
    forall id | id in b ensures a[id] == b[id] {
    }
  }

  /** A failed save that renames a category in French leaves the new French name behind. */
  lemma FrenchNameLeaks(id: Id, old_: Row, french: string)
    requires french != old_.french
    ensures var s := State(map[id := old_], map[id := Category(old_, 0)], {}, true);
            var menu := map[id := Category(old_.(french := french), 0)];
            var r := AfterSave(s, menu, Answers(true, Done, Failed, Done, true, true, true, true));
            && !r.ok && r.restored && r.state.details == s.details
            && id in r.state.table && r.state.table[id].french == french
  {
  }

  /** An unconfirmed removal cannot be compensated: the save fails, and the category is buried all the same. */
  lemma LostAnswerBuries(id: Id, row: Row, a: Answers)
    requires a.readable && a.upsert == Done && a.details == Done && a.delete == Unconfirmed
    ensures var s := State(map[id := row], map[], {}, true);
            var r := AfterSave(s, map[], a);
            !r.ok && !r.restored && id in r.state.tombs && id !in r.state.table
  {
    var s := State(map[id := row], map[], {}, true);
    assert Removed(s, map[]) == {id};
    assert !Admits({id}, s.table) by {
      assert id in s.table.Keys;
    }
  }

  // -------------------------------------------------------------------- what is served

  /** The public menu: live rows that are not buried, completed by their details. */
  function Served(s: State): map<Id, Category>
  {
    map id | id in s.table && id !in s.tombs :: Merged(s, id)
  }

  function Merged(s: State, id: Id): Category
    requires id in s.table
  {
    var row := s.table[id];
    if id in s.details && id !in s.tombs
    then
      var detail := s.details[id];
      Category(Row(Or(row.name, detail.row.name), Or(row.french, detail.row.french),
                   Or(row.image, detail.row.image), row.hidden), detail.order)
    else Category(row, 0)
  }

  /** What is saved is what is served. */
  lemma SavedIsServed(s: State, menu: map<Id, Category>, a: Answers)
    requires Sound(s) && AfterSave(s, menu, a).ok
    ensures Served(AfterSave(s, menu, a).state) == menu
  {
    SavedInstalls(s, menu, a);
    var after := AfterSave(s, menu, a).state;
    forall id | id in menu ensures id in Served(after) && Served(after)[id] == menu[id] {
      assert id !in after.tombs;
    }
  }

  // ---------------------------------------------------------------------------- seeds

  predicate AllNamed(table: map<Id, Row>)
  {
    forall id :: id in table ==> table[id].name != ""
  }

  /** A seed that goes through adds the wanted defaults and keeps every named row. */
  lemma SeedAdds(s: State, defaults: seq<Default>, orders: Id -> int, a: SeedAnswers)
    requires Sound(s) && AfterSeed(s, defaults, orders, a).1 == Seeded
    ensures var after := AfterSeed(s, defaults, orders, a).0;
            && after.table == Named(s.table + Additions(s, defaults, |defaults|))
            && (forall id :: id in Named(s.table) ==> id in after.table && after.table[id] == s.table[id])
            && (forall d :: d in defaults && Wanted(s, d.id) && AllNamed(Additions(s, defaults, |defaults|)) ==>
                  d.id in after.table && d.id !in after.tombs)
  {
    var more := Additions(s, defaults, |defaults|);
    AdditionsAreWanted(s, defaults, |defaults|);
    var rows := Named(s.table + more);
    PrunedToRows(s.table, rows);
    forall d | d in defaults && Wanted(s, d.id) && AllNamed(more)
      ensures d.id in rows && d.id !in s.tombs
    {
      WantedIsAdded(s, defaults, d);
    }
  }

  predicate AnyWanted(s: State, defaults: seq<Default>)
  {
    exists k :: 0 <= k < |defaults| && Wanted(s, defaults[k].id)
  }

  lemma AdditionsEmptyIff(s: State, defaults: seq<Default>)
    ensures Additions(s, defaults, |defaults|) == map[] <==> !AnyWanted(s, defaults)
  {
    AdditionsAreDefaults(s, defaults, |defaults|);
    AdditionsAreWanted(s, defaults, |defaults|);
    if Additions(s, defaults, |defaults|) != map[] {
      var id :| id in Additions(s, defaults, |defaults|);
      var k :| 0 <= k < |defaults| && defaults[k].id == id;
      assert Wanted(s, defaults[k].id);
    }
  }

  lemma {:induction false} AdditionsAreDefaults(s: State, defaults: seq<Default>, n: nat)
    requires n <= |defaults|
    ensures forall id :: id in Additions(s, defaults, n) ==> exists k :: 0 <= k < n && defaults[k].id == id
  {
    if n > 0 {
      AdditionsAreDefaults(s, defaults, n - 1);
    }
  }

  /**
    When the seed goes through: exactly if it was not done before, both stores can be
    read, some default is wanted, and every call it makes succeeds. It never runs again
    after that, nor when there was nothing to do.
  */
  lemma SeededIff(s: State, defaults: seq<Default>, orders: Id -> int, a: SeedAnswers)
    ensures var (after, r) := AfterSeed(s, defaults, orders, a);
            && (r == Seeded <==>
                  && !s.seeded && a.readable && a.reread && AnyWanted(s, defaults)
                  && a.upsert == Done && (AllNamed(s.table) || a.delete == Done) && a.details == Done)
            && (r == NothingToDo <==> !s.seeded && a.readable && !AnyWanted(s, defaults))
            && (after.seeded <==> s.seeded || r == Seeded || r == NothingToDo)
            && (s.seeded ==> after == s)
  {
    AdditionsEmptyIff(s, defaults);
    PrunesNoneIff(s, defaults);
  }

  /**
    What a failed seed leaves: nothing unless its table write was made, which adds the named
    rows; the nameless ones go, for good, exactly if the removal was made too.
  */
  lemma SeedFailureLeaves(s: State, defaults: seq<Default>, orders: Id -> int, a: SeedAnswers)
    requires Sound(s) && AfterSeed(s, defaults, orders, a).1 == SeedFailed
    ensures var after, more := AfterSeed(s, defaults, orders, a).0, Additions(s, defaults, |defaults|);
            var written := a.reread && a.upsert != Failed;
            var pruned := written && a.upsert == Done && a.delete != Failed;
            && !after.seeded && (!written ==> after == s)
            && (written ==> forall id ::
                  id in after.table <==> || (id in s.table && (s.table[id].name != "" || !pruned))
                                         || (id in more && more[id].name != ""))
            && (after.tombs == s.tombs <==> !pruned || AllNamed(s.table))
  {
    AdditionsAreWanted(s, defaults, |defaults|);
    PrunesNoneIff(s, defaults);
  }

  lemma PrunesNoneIff(s: State, defaults: seq<Default>)
    ensures s.table.Keys - Named(s.table + Additions(s, defaults, |defaults|)).Keys == {} <==> AllNamed(s.table)
  {
    var more := Additions(s, defaults, |defaults|);
    AdditionsAreWanted(s, defaults, |defaults|);
    var removed := s.table.Keys - Named(s.table + more).Keys;
    forall id | id in s.table ensures id in removed <==> s.table[id].name == "" {
      assert id !in more;
    }
    if !AllNamed(s.table) {
      var id :| id in s.table && s.table[id].name == "";
      assert id in removed;
    }
  }

  /** Whatever the owner wrote of a category stays; the shipped default only fills the gaps, and shows it. */
  predicate FillsGaps(s: State, d: Default, row: Row)
  {
    && !row.hidden
    && if d.id !in s.details then row == d.row.(hidden := false)
       else
         var own := s.details[d.id].row;
         && (own.name != "" ==> row.name == own.name) && (own.name == "" ==> row.name == d.row.name)
         && (own.french != "" ==> row.french == own.french) && (own.french == "" ==> row.french == d.row.french)
         && (own.image != "" ==> row.image == own.image) && (own.image == "" ==> row.image == d.row.image)
  }

  lemma {:induction false} AdditionFillsGaps(s: State, defaults: seq<Default>, n: nat, k: nat)
    requires k < n <= |defaults| && Wanted(s, defaults[k].id)
    requires forall i, j :: 0 <= i < j < |defaults| ==> defaults[i].id != defaults[j].id
    ensures defaults[k].id in Additions(s, defaults, n)
    ensures FillsGaps(s, defaults[k], Additions(s, defaults, n)[defaults[k].id])
  {
    AdditionsAreDefaults(s, defaults, n - 1);
    if k < n - 1 {
      AdditionFillsGaps(s, defaults, n - 1, k);
    }
  }

  /** After a seed the details say of each added default what the table says, and of the others what they said. */
  lemma SeedFillsDetails(s: State, defaults: seq<Default>, orders: Id -> int, a: SeedAnswers, k: nat)
    requires AfterSeed(s, defaults, orders, a).1 == Seeded && k < |defaults| && Wanted(s, defaults[k].id)
    requires forall i, j :: 0 <= i < j < |defaults| ==> defaults[i].id != defaults[j].id
    ensures var after, id := AfterSeed(s, defaults, orders, a).0, defaults[k].id;
            && id in after.details && FillsGaps(s, defaults[k], after.details[id].row)
            && after.details[id].order == orders(id)
            && (id in after.table ==> after.table[id] == after.details[id].row)
    ensures var after := AfterSeed(s, defaults, orders, a).0;
            forall id :: id in s.details && !Wanted(s, id) ==> id in after.details && after.details[id] == s.details[id]
  {
    AdditionFillsGaps(s, defaults, |defaults|, k);
    AdditionsAreWanted(s, defaults, |defaults|);
    var more := Additions(s, defaults, |defaults|);
    PrunedToRows(s.table, Named(s.table + more));
  }

  lemma PrunedToRows(before: map<Id, Row>, rows: map<Id, Row>)
    ensures var table := Upserted(before, rows); Only(table, table.Keys - (before.Keys - rows.Keys)) == rows
  {
  }

  lemma WantedIsAdded(s: State, defaults: seq<Default>, d: Default)
    requires d in defaults && Wanted(s, d.id) && AllNamed(Additions(s, defaults, |defaults|))
    ensures d.id in Named(s.table + Additions(s, defaults, |defaults|)) && d.id !in s.tombs
  {
    AdditionsAreWanted(s, defaults, |defaults|);
    var k :| 0 <= k < |defaults| && defaults[k] == d;
  }

  /** A seed is meant to remove nothing: it buries no row exactly when every live row has a name. */
  lemma SeedBuriesNothingIff(s: State, defaults: seq<Default>, orders: Id -> int, a: SeedAnswers)
    requires Sound(s) && AfterSeed(s, defaults, orders, a).1 == Seeded
    ensures AfterSeed(s, defaults, orders, a).0.tombs == s.tombs <==> AllNamed(s.table)
  {
    var more := Additions(s, defaults, |defaults|);
    AdditionsAreWanted(s, defaults, |defaults|);
    var rows := Named(s.table + more);
    var removed := s.table.Keys - rows.Keys;
    forall id | id in s.table ensures id in removed <==> s.table[id].name == "" {
      assert id !in more;
    }
    if !AllNamed(s.table) {
      var id :| id in s.table && s.table[id].name == "";
      assert id in removed && id !in s.tombs;
    }
  }

  // ----------------------------------------------------------------------------- runs

  datatype Step = Save(menu: map<Id, Category>, answers: Answers)
                | Seed(defaults: seq<Default>, orders: Id -> int, seedAnswers: SeedAnswers)

  function Next(s: State, step: Step): State
  {
    match step
    case Save(menu, a) => AfterSave(s, menu, a).state
    case Seed(defaults, orders, a) => AfterSeed(s, defaults, orders, a).0
  }

  function Run(s: State, steps: seq<Step>): State
  {
    if |steps| == 0 then s else Next(Run(s, steps[..|steps| - 1]), steps[|steps| - 1])
  }

  lemma SaveKeepsSound(s: State, menu: map<Id, Category>, a: Answers)
    requires Sound(s)
    ensures Sound(AfterSave(s, menu, a).state) && s.tombs <= AfterSave(s, menu, a).state.tombs
  {
  }

  lemma SeedKeepsSound(s: State, defaults: seq<Default>, orders: Id -> int, a: SeedAnswers)
    requires Sound(s)
    ensures Sound(AfterSeed(s, defaults, orders, a).0) && s.tombs <= AfterSeed(s, defaults, orders, a).0.tombs
  {
    AdditionsAreWanted(s, defaults, |defaults|);
  }

  /**
    Over any run of saves and boot seeds, whatever fails: tombstones only grow, and
    nothing tombstoned is in the table or served.
  */
  lemma {:induction false} BuriedForGood(s: State, steps: seq<Step>)
    requires Sound(s)
    ensures Sound(Run(s, steps)) && s.tombs <= Run(s, steps).tombs
    ensures forall id :: id in s.tombs ==> id !in Run(s, steps).table && id !in Served(Run(s, steps))
  {
    if |steps| > 0 {
      BuriedForGood(s, steps[..|steps| - 1]);
      match steps[|steps| - 1]
      case Save(menu, a) => SaveKeepsSound(Run(s, steps[..|steps| - 1]), menu, a);
      case Seed(defaults, orders, a) => SeedKeepsSound(Run(s, steps[..|steps| - 1]), defaults, orders, a);
    }
  }
}
