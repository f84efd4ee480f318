/**
  The archive of delivery batches over whole runs (api.py): creating a batch,
  pushing staged orders as batches, and editing an archived one.
*/
module Ledger {
  import opened Basics
  import opened Sums
  import opened Money
  import opened Wrappers
  import opened Batches
  import opened Push

  const MAX_BATCH_ORDERS: nat := 500

  /** A confirmed order on the accounting desk; a removed record stays listed as deleted. */
  datatype Staged = Staged(row: Row, deleted: bool)

  type Desk = d: map<string, Staged> | forall id :: id in d ==> d[id].row.id == id witness map[]

  datatype Field<T> = NotSent | Cleared | Set(value: T)

  datatype CreateRequest = CreateRequest(desk: Desk, ids: seq<string>, ledger: Option<Currency>,
                                         fee: Option<int>, batchId: string)

  datatype PushRequest = PushRequest(desk: Desk, ids: seq<string>, transferFee: int,
                                     feeLedger: Option<Currency>, feeNgn: Option<int>,
                                     custom: Option<int>, ngnBatchId: string, cfaBatchId: string)

  /** An edit of a batch; currentRate is the shop's own rate when it is made. */
  datatype Edit = Edit(fee: Field<int>, custom: Field<int>, netOverride: Field<int>, currentRate: Rate)

  datatype Refusal = NothingSelected | TooManyOrders | OrdersChanged | RemovedRecord | AlreadyArchived
                   | MixedCurrencies | WrongLedger | InvalidAmount | UnknownBatch
                   | SheetNotConfirmed | NotSaved

  // --------------------------------------------------------------- requests as values

  /** The selected ids, each once, in the order of first mention. */
  function Selected(ids: seq<string>): seq<string>
  {
    if |ids| == 0 then []
    else
      var earlier := Selected(ids[..|ids| - 1]);
      var last := ids[|ids| - 1];
      if last == "" || last in earlier then earlier else earlier + [last]
  }

  predicate Archived(batches: seq<Batch>, id: string)
  {
    exists k :: 0 <= k < |batches| && id in batches[k].orderIds
  }

  /** Every selected order is still confirmed, still listed, and in no batch yet. */
  predicate Selectable(batches: seq<Batch>, desk: Desk, ids: seq<string>)
  {
    && 0 < |ids| <= MAX_BATCH_ORDERS
    && forall i :: 0 <= i < |ids| ==>
         ids[i] in desk && !desk[ids[i]].deleted && !Archived(batches, ids[i])
  }

  function RowsFor(desk: Desk, ids: seq<string>): (rows: seq<Row>)
    requires forall i :: 0 <= i < |ids| ==> ids[i] in desk
    ensures |rows| == |ids|
  {
    seq(|ids|, i requires 0 <= i < |ids| => desk[ids[i]].row)
  }

  predicate ValidAmount(value: Option<int>)
  {
    value.Some? ==> InRange(value.value)
  }

  function OrZero(value: Option<int>): int
  {
    match value
    case None => 0
    case Some(v) => v
  }

  predicate OneCurrency(rows: seq<Row>)
  {
    forall i :: 0 <= i < |rows| ==> rows[i].currency == rows[0].currency
  }

  predicate CanCreate(batches: seq<Batch>, r: CreateRequest)
  {
    var ids := Selected(r.ids);
    && Selectable(batches, r.desk, ids)
    && OneCurrency(RowsFor(r.desk, ids))
    && (r.ledger.Some? ==> r.ledger.value == RowsFor(r.desk, ids)[0].currency)
    && ValidAmount(r.fee)
  }

  function NewBatch(id: string, currency: Currency, orderIds: seq<string>, rows: seq<Row>,
                    fee: Option<int>, feeNgn: Option<int>, custom: int, transferFee: int): Batch
  {
    Batch(id, currency, orderIds, rows, TotalsOf(rows, currency, fee, custom), fee, feeNgn, custom, transferFee, None)
  }

  function Created(batches: seq<Batch>, r: CreateRequest): seq<Batch>
  {
    if !CanCreate(batches, r) then batches
    else
      var ids := Selected(r.ids);
      var rows := RowsFor(r.desk, ids);
      batches + [NewBatch(r.batchId, rows[0].currency, ids, rows, r.fee, None, 0, 0)]
  }

  predicate CanPush(batches: seq<Batch>, r: PushRequest)
  {
    && Selectable(batches, r.desk, Selected(r.ids))
    && InRange(r.transferFee) && ValidAmount(r.feeNgn) && ValidAmount(r.custom)
  }

  predicate Uses(rows: seq<Row>, currency: Currency)
  {
    exists i :: 0 <= i < |rows| && rows[i].currency == currency
  }

  /** The ledger that carries the fees of a push: the chosen one, else the only one, else Naira. */
  function FeeLedger(r: PushRequest, rows: seq<Row>): Currency
  {
    match r.feeLedger
    case Some(c) => c
    case None => if Uses(rows, NGN) then NGN else CFA
  }

  function IdsOf(group: seq<Charged>): (ids: seq<string>)
    ensures |ids| == |group|
  {
    seq(|group|, i requires 0 <= i < |group| => group[i].row.id)
  }

  /** The batch one ledger gets from a push, if any of its orders go there. */
  function PushedBatch(r: PushRequest, rows: seq<Row>, currency: Currency): seq<Batch>
  {
    var group := Group(rows, r.feeNgn, currency);
    if |group| == 0 then []
    else
      var charged := currency == FeeLedger(r, rows);
      [NewBatch(if currency == NGN then r.ngnBatchId else r.cfaBatchId, currency, IdsOf(group), RowsOf(group),
                FeeHere(group, r.feeNgn, currency), FeeHereNgn(group, r.feeNgn),
                if charged then OrZero(r.custom) else 0,
                if charged then r.transferFee else 0)]
  }

  function Pushed(batches: seq<Batch>, r: PushRequest): seq<Batch>
  {
    if !CanPush(batches, r) then batches
    else
      var rows := RowsFor(r.desk, Selected(r.ids));
      batches + PushedBatch(r, rows, NGN) + PushedBatch(r, rows, CFA)
  }

  predicate ValidField(field: Field<int>)
  {
    field.Set? ==> InRange(field.value)
  }

  predicate CanEdit(edit: Edit)
  {
    && ValidField(edit.fee) && ValidField(edit.custom)
    && (edit.netOverride.Set? ==> -AMOUNT_MAX <= edit.netOverride.value <= AMOUNT_MAX)
  }

  function Update(field: Field<int>, current: Option<int>): Option<int>
  {
    match field
    case NotSent => current
    case Cleared => None
    case Set(v) => Some(v)
  }

  /** A batch fee in Naira as an edit states it: a franc fee at the rate of the batch's first row. */
  function FeeInNaira(currency: Currency, rows: seq<Row>, fee: int, current: Rate): int
  {
    if currency == CFA then SupplierCostNgnFromCfa(fee, if |rows| > 0 then rows[0].rate else current) else fee
  }

  function UpdateNaira(batch: Batch, edit: Edit): Option<int>
  {
    match edit.fee
    case NotSent => batch.feeNgn
    case Cleared => None
    case Set(v) => Some(FeeInNaira(batch.currency, batch.rows, v, edit.currentRate))
  }

  /** An edited batch: its totals are recalculated from its own snapshot rows. */
  function ApplyEdit(batch: Batch, edit: Edit): Batch
  {
    var fee := Update(edit.fee, batch.fee);
    var custom := if edit.custom.NotSent? then batch.custom else OrZero(Update(edit.custom, None));
    batch.(fee := fee, feeNgn := UpdateNaira(batch, edit), custom := custom,
           netOverride := Update(edit.netOverride, batch.netOverride),
           totals := TotalsOf(batch.rows, batch.currency, fee, Amount(custom)))
  }

  /** The position of the first batch with an id, or the length if there is none. */
  function Find(batches: seq<Batch>, id: string): (k: nat)
    ensures k <= |batches|
    ensures k < |batches| ==> batches[k].id == id
  {
    if |batches| == 0 || batches[0].id == id then 0 else 1 + Find(batches[1..], id)
  }

  function Edited(batches: seq<Batch>, id: string, edit: Edit): seq<Batch>
  {
    var k := Find(batches, id);
    if k < |batches| && CanEdit(edit) then batches[k := ApplyEdit(batches[k], edit)] else batches
  }

  // --------------------------------------------------------------- the archive itself

  class Archive {
    var batches: seq<Batch>

    constructor ()
      ensures batches == []
    {
      batches := [];
    }

    /** Check a selection, reporting the first thing wrong with it. */
    method CheckSelection(desk: Desk, ids: seq<string>) returns (refusal: Option<Refusal>)
      ensures refusal.None? <==> Selectable(batches, desk, ids)
    {
      if |ids| == 0 {
        return Some(NothingSelected);
      }
      if |ids| > MAX_BATCH_ORDERS {
        return Some(TooManyOrders);
      }
      for i := 0 to |ids|
        invariant forall k :: 0 <= k < i ==> ids[k] in desk
      {
        if ids[i] !in desk {
          return Some(OrdersChanged);
        }
      }
      for i := 0 to |ids|
        invariant forall k :: 0 <= k < i ==> !desk[ids[k]].deleted
      {
        if desk[ids[i]].deleted {
          return Some(RemovedRecord);
        }
      }
      for i := 0 to |ids|
        invariant forall k :: 0 <= k < i ==> !Archived(batches, ids[k])
      {
        if Archived(batches, ids[i]) {
          return Some(AlreadyArchived);
        }
      }
      return None;
    }

    method Create(r: CreateRequest, saved: bool) returns (refusal: Option<Refusal>)
      modifies this
      ensures refusal.None? <==> saved && CanCreate(old(batches), r)
      ensures batches == if saved then Created(old(batches), r) else old(batches)
    {
      var ids := Select(r.ids);
      refusal := CheckSelection(r.desk, ids);
      if refusal.Some? {
        return;
      }
      var rows := RowsFor(r.desk, ids);
      if !OneCurrency(rows) {
        return Some(MixedCurrencies);
      }
      if r.ledger.Some? && r.ledger.value != rows[0].currency {
        return Some(WrongLedger);
      }
      if !ValidAmount(r.fee) {
        return Some(InvalidAmount);
      }
      var totals := BatchTotals(rows, rows[0].currency, r.fee, 0);
      if !saved {
        return Some(NotSaved);
      }
      batches := batches + [Batch(r.batchId, rows[0].currency, ids, rows, totals, r.fee, None, 0, 0, None)];
      return None;
    }

    /** Push staged orders; nothing is archived unless both the sheet and the archive confirm. */
    method PushOrders(r: PushRequest, sheetConfirmed: bool, saved: bool) returns (refusal: Option<Refusal>)
      modifies this
      ensures refusal.None? <==> sheetConfirmed && saved && CanPush(old(batches), r)
      ensures batches == if sheetConfirmed && saved then Pushed(old(batches), r) else old(batches)
    {
      if !InRange(r.transferFee) || !ValidAmount(r.feeNgn) || !ValidAmount(r.custom) {
        return Some(InvalidAmount);
      }
      var ids := Select(r.ids);
      refusal := CheckSelection(r.desk, ids);
      if refusal.Some? {
        return;
      }
      if !sheetConfirmed {
        return Some(SheetNotConfirmed);
      }
      var rows := RowsFor(r.desk, ids);
      var ngn := BuildPushedBatch(r, rows, NGN);
      var cfa := BuildPushedBatch(r, rows, CFA);
      if !saved {
        return Some(NotSaved);
      }
      batches := batches + ngn + cfa;
      return None;
    }

    method EditBatch(id: string, edit: Edit, saved: bool) returns (refusal: Option<Refusal>)
      modifies this
      ensures refusal.None? <==> saved && Find(old(batches), id) < |old(batches)| && CanEdit(edit)
      ensures batches == if saved then Edited(old(batches), id, edit) else old(batches)
    {
      var k := Find(batches, id);
      if k == |batches| {
        return Some(UnknownBatch);
      }
      if !CanEdit(edit) {
        return Some(InvalidAmount);
      }
      var batch := batches[k];
      match edit.fee {
        case NotSent =>
        case Cleared => batch := batch.(fee := None, feeNgn := None);
        case Set(v) =>
          batch := batch.(fee := Some(v), feeNgn := Some(FeeInNaira(batch.currency, batch.rows, v, edit.currentRate)));
      }
      if !edit.custom.NotSent? {
        batch := batch.(custom := OrZero(Update(edit.custom, None)));
      }
      batch := batch.(netOverride := Update(edit.netOverride, batch.netOverride));
      var totals := BatchTotals(batch.rows, batch.currency, batch.fee, Amount(batch.custom));
      batch := batch.(totals := totals);
      if !saved {
        return Some(NotSaved);
      }
      batches := batches[k := batch];
      return None;
    }
  }

  method Select(raw: seq<string>) returns (ids: seq<string>)
    ensures ids == Selected(raw)
  {
    ids := [];
    for i := 0 to |raw|
      invariant ids == Selected(raw[..i])
    {
      assert raw[..i + 1][..i] == raw[..i];
      if raw[i] != "" && raw[i] !in ids {
        ids := ids + [raw[i]];
      }
    }
    assert raw[..|raw|] == raw;
  }

  method BuildPushedBatch(r: PushRequest, rows: seq<Row>, currency: Currency) returns (built: seq<Batch>)
    ensures built == PushedBatch(r, rows, currency)
  {
    var group := Group(rows, r.feeNgn, currency);
    if |group| == 0 {
      return [];
    }
    var fee: Option<int> := None;
    var feeNgn: Option<int> := None;
    if r.feeNgn.Some? {
      var total, naira := 0, 0;
      for i := 0 to |group|
        invariant naira == SumBy(ShareOf, group[..i])
        invariant total == SumBy(SheetTransport, group[..i])
      {
        SumStep(ShareOf, group, i);
        SumStep(SheetTransport, group, i);
        naira := naira + ShareOf(group[i]);
        total := total + SheetTransport(group[i]);
      }
      assert group[..|group|] == group;
      fee := Some(if currency == CFA then total else naira);
      feeNgn := Some(naira);
    }
    var charged := currency == FeeLedger(r, rows);
    var custom := if charged then OrZero(r.custom) else 0;
    var totals := BatchTotals(RowsOf(group), currency, fee, custom);
    built := [Batch(if currency == NGN then r.ngnBatchId else r.cfaBatchId, currency, IdsOf(group), RowsOf(group),
                    totals, fee, feeNgn, custom, if charged then r.transferFee else 0, None)];
  }

  // ------------------------------------------------------------- what every run keeps

  /**
    Every archived batch states its own totals, and no order is in two batches
    or twice in one.
  */
  ghost predicate Sound(batches: seq<Batch>)
  {
    && (forall k :: 0 <= k < |batches| ==> Consistent(batches[k]) && Distinct(batches[k].orderIds))
    && forall j, k, id :: 0 <= j < k < |batches| && id in batches[j].orderIds ==> id !in batches[k].orderIds
  }

  lemma {:induction false} SelectedDistinct(ids: seq<string>)
    ensures Distinct(Selected(ids))
  {
    if |ids| > 0 {
      SelectedDistinct(ids[..|ids| - 1]);
    }
  }

  /** The selection names exactly the ids sent, blanks aside. */
  lemma {:induction false} SelectedHolds(ids: seq<string>)
    ensures forall id :: id in Selected(ids) <==> id in ids && id != ""
  {
    if |ids| > 0 {
      SelectedHolds(ids[..|ids| - 1]);
      assert ids == ids[..|ids| - 1] + [ids[|ids| - 1]];
    }
  }

  /**
    What can be archived: some id is sent, at most five hundred different ones, and each
    is that of a listed order that was not removed and is in no batch.
  */
  lemma SelectableIff(batches: seq<Batch>, desk: Desk, ids: seq<string>)
    ensures var named := set id | id in ids && id != "";
            Selectable(batches, desk, Selected(ids))
            <==> && 0 < |named| <= 500
                 && forall id :: id in named ==>
                      && id in desk && !desk[id].deleted
                      && forall k :: 0 <= k < |batches| ==> id !in batches[k].orderIds
  {
    var named := set id | id in ids && id != "";
    var selected := Selected(ids);
    SelectedHolds(ids);
    SelectedDistinct(ids);
    assert (set id | id in selected) == named;
    DistinctSize(selected);
    if Selectable(batches, desk, selected) {
      forall id | id in named ensures id in desk && !desk[id].deleted && !Archived(batches, id) {
        var i :| 0 <= i < |selected| && selected[i] == id;
      }
    } else {
      forall i | 0 <= i < |selected| ensures selected[i] in named {
      }
    }
  }

  lemma {:induction false} DistinctSize(s: seq<string>)
    requires Distinct(s)
    ensures |set x | x in s| == |s|
  {
    if |s| > 0 {
      var front := s[..|s| - 1];
      DistinctSize(front);
      assert s == front + [s[|s| - 1]];
      assert (set x | x in s) == (set x | x in front) + {s[|s| - 1]};
    }
  }

  lemma AppendSound(batches: seq<Batch>, batch: Batch)
    requires Sound(batches) && Consistent(batch) && Distinct(batch.orderIds)
    requires forall id :: id in batch.orderIds ==> !Archived(batches, id)
    ensures Sound(batches + [batch])
  {
    var all := batches + [batch];
    forall j, k, id | 0 <= j < k < |all| && id in all[j].orderIds ensures id !in all[k].orderIds {
      if k == |batches| {
        assert Archived(batches, id);
      }
    }
  }

  /** The orders of one ledger's group are among the selected ones, each once. */
  lemma {:induction false} GroupIds(charged: seq<Charged>, currency: Currency)
    requires Distinct(IdsOf(charged))
    ensures Distinct(IdsOf(Keep(InLedger(currency), charged)))
    ensures forall id :: id in IdsOf(Keep(InLedger(currency), charged)) ==>
              exists i :: 0 <= i < |charged| && charged[i].row.id == id && charged[i].row.currency == currency
  {
    var n := |charged|;
    if n > 0 {
      var front, last := charged[..n - 1], charged[n - 1];
      assert IdsOf(charged)[..n - 1] == IdsOf(front);
      GroupIds(front, currency);
      var kept := Keep(InLedger(currency), front);
      assert IdsOf(kept + [last]) == IdsOf(kept) + [last.row.id];
      assert forall i :: 0 <= i < n - 1 ==> front[i] == charged[i];
      forall i | 0 <= i < n - 1 ensures charged[i].row.id != last.row.id {
        assert IdsOf(charged)[i] != IdsOf(charged)[n - 1];
      }
    }
  }

  ghost predicate RowNamed(rows: seq<Row>, id: string, currency: Currency)
  {
    exists i :: 0 <= i < |rows| && rows[i].id == id && rows[i].currency == currency
  }

  /** The batch's orders are rows of the push that use its currency. */
  ghost predicate TakenFrom(batch: Batch, rows: seq<Row>, currency: Currency)
  {
    forall id :: id in batch.orderIds ==> RowNamed(rows, id, currency)
  }

  ghost predicate DistinctRows(rows: seq<Row>)
  {
    forall i, j :: 0 <= i < j < |rows| ==> rows[i].id != rows[j].id
  }

  lemma PushedIds(r: PushRequest, rows: seq<Row>, currency: Currency)
    requires |PushedBatch(r, rows, currency)| > 0 && DistinctRows(rows)
    ensures |PushedBatch(r, rows, currency)| == 1
    ensures var batch := PushedBatch(r, rows, currency)[0];
            Consistent(batch) && Distinct(batch.orderIds) && TakenFrom(batch, rows, currency)
  {
    var charged := Charge(rows, r.feeNgn);
    assert IdsOf(charged) == seq(|rows|, i requires 0 <= i < |rows| => rows[i].id);
    GroupIds(charged, currency);
    var batch := PushedBatch(r, rows, currency)[0];
    forall id | id in batch.orderIds
      ensures RowNamed(rows, id, currency)
    {
      var i :| 0 <= i < |charged| && charged[i].row.id == id && charged[i].row.currency == currency;
      assert rows[i].id == id;
    }
  }

  lemma TakenNotArchived(batches: seq<Batch>, desk: Desk, ids: seq<string>, batch: Batch, currency: Currency)
    requires Selectable(batches, desk, ids)
    requires TakenFrom(batch, RowsFor(desk, ids), currency)
    ensures forall id :: id in batch.orderIds ==> !Archived(batches, id)
  {
    forall id | id in batch.orderIds ensures !Archived(batches, id) {
      var i :| 0 <= i < |ids| && RowsFor(desk, ids)[i].id == id;
      assert !Archived(batches, ids[i]);
    }
  }

  lemma LedgersDisjoint(rows: seq<Row>, ngn: Batch, cfa: Batch)
    requires DistinctRows(rows) && TakenFrom(ngn, rows, NGN) && TakenFrom(cfa, rows, CFA)
    ensures forall id :: id in cfa.orderIds ==> id !in ngn.orderIds
  {
    forall id | id in cfa.orderIds ensures id !in ngn.orderIds {
      var i :| 0 <= i < |rows| && rows[i].id == id && rows[i].currency == CFA;
      assert !RowNamed(rows, id, NGN);
    }
  }

  lemma CreateKeepsSound(batches: seq<Batch>, r: CreateRequest)
    requires Sound(batches)
    ensures Sound(Created(batches, r))
  {
    if CanCreate(batches, r) {
      SelectedDistinct(r.ids);
      var ids := Selected(r.ids);
      var rows := RowsFor(r.desk, ids);
      AppendSound(batches, NewBatch(r.batchId, rows[0].currency, ids, rows, r.fee, None, 0, 0));
    }
  }

  lemma PushKeepsSound(batches: seq<Batch>, r: PushRequest)
    requires Sound(batches)
    ensures Sound(Pushed(batches, r))
  {
    if CanPush(batches, r) {
      var ids := Selected(r.ids);
      var rows := RowsFor(r.desk, ids);
      SelectedDistinct(r.ids);
      assert forall i :: 0 <= i < |ids| ==> rows[i].id == ids[i];
      var ngn, cfa := PushedBatch(r, rows, NGN), PushedBatch(r, rows, CFA);
      if |ngn| > 0 {
        PushedIds(r, rows, NGN);
        TakenNotArchived(batches, r.desk, ids, ngn[0], NGN);
      }
      if |cfa| > 0 {
        PushedIds(r, rows, CFA);
        TakenNotArchived(batches, r.desk, ids, cfa[0], CFA);
      }
      if |ngn| > 0 && |cfa| > 0 {
        LedgersDisjoint(rows, ngn[0], cfa[0]);
      }
      AppendPairSound(batches, ngn, cfa);
    }
  }

  lemma {:induction false} GroupHolds(charged: seq<Charged>, i: nat)
    requires i < |charged|
    ensures charged[i].row.id in IdsOf(Keep(InLedger(charged[i].row.currency), charged))
  {
    var n := |charged|;
    var front, last := charged[..n - 1], charged[n - 1];
    var currency := charged[i].row.currency;
    var kept := Keep(InLedger(currency), front);
    assert IdsOf(kept + [last]) == IdsOf(kept) + [last.row.id];
    if i < n - 1 {
      GroupHolds(front, i);
    } else {
      assert Keep(InLedger(currency), charged) == kept + [last];
      assert (IdsOf(kept) + [last.row.id])[|kept|] == last.row.id;
    }
  }

  /** A push leaves no selected order behind: each ends up in the new batch of its own ledger. */
  lemma PushArchivesEveryOrder(batches: seq<Batch>, r: PushRequest, i: nat)
    requires CanPush(batches, r) && i < |Selected(r.ids)|
    ensures var row := r.desk[Selected(r.ids)[i]].row;
            exists k :: |batches| <= k < |Pushed(batches, r)|
              && Pushed(batches, r)[k].currency == row.currency && row.id in Pushed(batches, r)[k].orderIds
  {
    var rows := RowsFor(r.desk, Selected(r.ids));
    var row := rows[i];
    GroupHolds(Charge(rows, r.feeNgn), i);
    var ngn, cfa := PushedBatch(r, rows, NGN), PushedBatch(r, rows, CFA);
    var k := if row.currency == NGN then |batches| else |batches| + |ngn|;
    assert Pushed(batches, r) == batches + ngn + cfa;
    assert Pushed(batches, r)[k] == if row.currency == NGN then ngn[0] else cfa[0];
  }

  lemma AppendPairSound(batches: seq<Batch>, ngn: seq<Batch>, cfa: seq<Batch>)
    requires Sound(batches) && |ngn| <= 1 && |cfa| <= 1
    requires |ngn| > 0 ==> Consistent(ngn[0]) && Distinct(ngn[0].orderIds)
    requires |cfa| > 0 ==> Consistent(cfa[0]) && Distinct(cfa[0].orderIds)
    requires |ngn| > 0 ==> forall id :: id in ngn[0].orderIds ==> !Archived(batches, id)
    requires |cfa| > 0 ==> forall id :: id in cfa[0].orderIds ==>
               !Archived(batches, id) && (|ngn| > 0 ==> id !in ngn[0].orderIds)
    ensures Sound(batches + ngn + cfa)
  {
    if |ngn| > 0 {
      AppendSound(batches, ngn[0]);
      assert ngn == [ngn[0]];
    } else {
      assert batches + ngn == batches;
    }
    if |cfa| > 0 {
      AppendSound(batches + ngn, cfa[0]);
      assert cfa == [cfa[0]];
    } else {
      assert batches + ngn + cfa == batches + ngn;
    }
  }

  /** An edit reaches the first batch of its id and no other. */
  lemma EditTouchesOne(batches: seq<Batch>, id: string, edit: Edit, k: nat)
    requires k < |batches|
    ensures |Edited(batches, id, edit)| == |batches|
    ensures Edited(batches, id, edit)[k]
            == if CanEdit(edit) && batches[k].id == id && (forall j :: 0 <= j < k ==> batches[j].id != id)
               then ApplyEdit(batches[k], edit) else batches[k]
  {
    FindIsFirst(batches, id);
  }

  lemma {:induction false} FindIsFirst(batches: seq<Batch>, id: string)
    ensures forall j :: 0 <= j < Find(batches, id) ==> batches[j].id != id
  {
    if |batches| > 0 && batches[0].id != id {
      FindIsFirst(batches[1..], id);
    }
  }

  lemma EditKeepsConsistent(batch: Batch, edit: Edit)
    ensures Consistent(ApplyEdit(batch, edit)) && ApplyEdit(batch, edit).orderIds == batch.orderIds
  {
  }

  lemma SameOrdersSound(before: seq<Batch>, after: seq<Batch>)
    requires Sound(before) && |after| == |before|
    requires forall k :: 0 <= k < |after| ==> Consistent(after[k]) && after[k].orderIds == before[k].orderIds
    ensures Sound(after)
  {
  }

  lemma EditKeepsSound(batches: seq<Batch>, id: string, edit: Edit)
    requires Sound(batches)
    ensures Sound(Edited(batches, id, edit))
  {
    var k := Find(batches, id);
    if k < |batches| {
      EditKeepsConsistent(batches[k], edit);
    }
    SameOrdersSound(batches, Edited(batches, id, edit));
  }

  datatype Step = CreateStep(create: CreateRequest)
                | PushStep(push: PushRequest)
                | EditStep(id: string, edit: Edit)

  function Next(batches: seq<Batch>, step: Step): seq<Batch>
  {
    match step
    case CreateStep(r) => Created(batches, r)
    case PushStep(r) => Pushed(batches, r)
    case EditStep(id, edit) => Edited(batches, id, edit)
  }

  function Run(batches: seq<Batch>, steps: seq<Step>): seq<Batch>
  {
    if |steps| == 0 then batches else Next(Run(batches, steps[..|steps| - 1]), steps[|steps| - 1])
  }

  /** The archive of any run from an empty one is sound. */
  lemma {:induction false} RunsAreSound(steps: seq<Step>)
    ensures Sound(Run([], steps))
  {
    if |steps| > 0 {
      RunsAreSound(steps[..|steps| - 1]);
      var before := Run([], steps[..|steps| - 1]);
      match steps[|steps| - 1]
      case CreateStep(r) => CreateKeepsSound(before, r);
      case PushStep(r) => PushKeepsSound(before, r);
      case EditStep(id, edit) => EditKeepsSound(before, id, edit);
    }
  }

  /** Archiving is for good: no step takes an order out of its batch or moves a batch. */
  lemma {:induction false} ArchivedForGood(batches: seq<Batch>, steps: seq<Step>)
    ensures |batches| <= |Run(batches, steps)|
    ensures forall k :: 0 <= k < |batches| ==>
              && Run(batches, steps)[k].orderIds == batches[k].orderIds
              && Run(batches, steps)[k].rows == batches[k].rows
              && Run(batches, steps)[k].currency == batches[k].currency
  {
    if |steps| > 0 {
      ArchivedForGood(batches, steps[..|steps| - 1]);
    }
  }

  // ------------------------------------------------------------------- undoing edits

  function ToField(value: Option<int>): Field<int>
  {
    match value
    case None => Cleared
    case Some(v) => Set(v)
  }

  /** The edit that puts a batch's own fee, cost and override back. */
  function Undo(batch: Batch, current: Rate): Edit
  {
    Edit(ToField(batch.fee), Set(batch.custom), ToField(batch.netOverride), current)
  }

  /** The Naira fee an edit would state for the fee the batch has. */
  function RestatedFee(batch: Batch, current: Rate): Option<int>
  {
    match batch.fee
    case None => None
    case Some(v) => Some(FeeInNaira(batch.currency, batch.rows, v, current))
  }

  function ApplyEdits(batch: Batch, edits: seq<Edit>): Batch
  {
    if |edits| == 0 then batch else ApplyEdit(ApplyEdits(batch, edits[..|edits| - 1]), edits[|edits| - 1])
  }

  lemma {:induction false} EditsKeepSnapshot(batch: Batch, edits: seq<Edit>)
    ensures var after := ApplyEdits(batch, edits);
            && after.rows == batch.rows && after.currency == batch.currency && after.id == batch.id
            && after.orderIds == batch.orderIds && after.transferFee == batch.transferFee
  {
    if |edits| > 0 {
      EditsKeepSnapshot(batch, edits[..|edits| - 1]);
    }
  }

  /**
    However often a batch was edited, putting its fee, cost and override back
    restores all of it, totals included, but for the fee in Naira, which an edit
    states anew: the batch is restored in full exactly if that was the Naira fee it
    had. The edit is accepted exactly when the original figures are enterable.
  */
  lemma UndoRestores(batch: Batch, edits: seq<Edit>, current: Rate)
    requires Consistent(batch)
    ensures InRange(batch.custom) ==>
              var undone := ApplyEdit(ApplyEdits(batch, edits), Undo(batch, current));
              && undone.(feeNgn := batch.feeNgn) == batch
              && (undone == batch <==> batch.feeNgn == RestatedFee(batch, current))
    ensures CanEdit(Undo(batch, current)) <==>
              && InRange(batch.custom) && ValidAmount(batch.fee)
              && (batch.netOverride.Some? ==> -AMOUNT_MAX <= batch.netOverride.value <= AMOUNT_MAX)
  {
    EditsKeepSnapshot(batch, edits);
    if InRange(batch.custom) {
      UndoPutsBack(batch, ApplyEdits(batch, edits), current);
    }
  }

  lemma UndoPutsBack(batch: Batch, edited: Batch, current: Rate)
    requires Consistent(batch) && InRange(batch.custom)
    requires edited.rows == batch.rows && edited.currency == batch.currency && edited.id == batch.id
    requires edited.orderIds == batch.orderIds && edited.transferFee == batch.transferFee
    ensures var undone := ApplyEdit(edited, Undo(batch, current));
            undone.(feeNgn := batch.feeNgn) == batch && undone.feeNgn == RestatedFee(batch, current)
  {
    var after := ApplyEdit(edited, Undo(batch, current));
    assert after.fee == batch.fee && after.custom == batch.custom && after.netOverride == batch.netOverride;
    assert after.totals == TotalsOf(batch.rows, batch.currency, batch.fee, batch.custom);
  }

  /** What the later of two edits leaves as it was is as the earlier one made it. */
  function Over<T>(later: Field<T>, earlier: Field<T>): Field<T>
  {
    if later.NotSent? then earlier else later
  }

  /** A field that is not sent stays; of two edits the later wins, field by field. */
  lemma EditsCompose(batch: Batch, first: Edit, second: Edit)
    requires Consistent(batch) && InRange(batch.custom) && first.currentRate == second.currentRate
    ensures ApplyEdit(ApplyEdit(batch, first), second)
         == ApplyEdit(batch, Edit(Over(second.fee, first.fee), Over(second.custom, first.custom),
                                  Over(second.netOverride, first.netOverride), second.currentRate))
    ensures ApplyEdit(batch, Edit(NotSent, NotSent, NotSent, first.currentRate)) == batch
  {
  }

  /** What a push archives in the Naira ledger can always be restored in full. */
  lemma NairaPushCanBeUndone(r: PushRequest, rows: seq<Row>, current: Rate)
    requires |PushedBatch(r, rows, NGN)| > 0
    ensures var batch := PushedBatch(r, rows, NGN)[0]; batch.feeNgn == RestatedFee(batch, current)
  {
  }

  /**
    A franc batch over two locked rates is not restored: its fee of 40 Naira was
    archived as 10 + 5 francs, and 15 francs at the first row's rate are 30 Naira.
  */
  lemma FrancFeeIsNotRestored(r: PushRequest, current: Rate)
    requires r.feeNgn == Some(40)
    ensures var rows := [Row("A", CFA, 100, 0, 0, 0, 0, None, 20_000), Row("B", CFA, 100, 0, 0, 0, 0, None, 40_000)];
            && |PushedBatch(r, rows, CFA)| == 1
            && var batch := PushedBatch(r, rows, CFA)[0];
               batch.fee == Some(15) && batch.feeNgn == Some(40) && RestatedFee(batch, current) == Some(30)
  {
    var a, b := Row("A", CFA, 100, 0, 0, 0, 0, None, 20_000), Row("B", CFA, 100, 0, 0, 0, 0, None, 40_000);
    FrancGroup(a, b);
    var group := Group([a, b], Some(40), CFA);
    assert PushedFee(PushedBatch(r, [a, b], CFA), group);
    assert FeeInNaira(CFA, [a, b], 15, current) == 30 by {
      assert Amount(15) == 15;
    }
    assert RowsOf(group) == [a, b];
  }

  /** What a pushed batch has of its group: the rows and the fee in either currency. */
  predicate PushedFee(pushed: seq<Batch>, group: seq<Charged>)
  {
    |pushed| == 1 && pushed[0].rows == RowsOf(group) && pushed[0].fee == Some(SumBy(SheetTransport, group))
    && pushed[0].feeNgn == Some(SumBy(ShareOf, group))
  }

  lemma FrancGroup(a: Row, b: Row)
    requires a.currency == CFA == b.currency && a.rate == 20_000 && b.rate == 40_000
    ensures Group([a, b], Some(40), CFA) == [Charged(a, Some(20)), Charged(b, Some(20))]
    ensures SumBy(SheetTransport, Group([a, b], Some(40), CFA)) == 15
    ensures SumBy(ShareOf, Group([a, b], Some(40), CFA)) == 40
  {
    var group := [Charged(a, Some(20)), Charged(b, Some(20))];
    EvenPair(40);
    assert Amount(40) == 40;
    assert Charge([a, b], Some(40)) == group;
    KeepAll(InLedger(CFA), group);
    assert SheetTransport(group[0]) == 10 && SheetTransport(group[1]) == 5;
    SumPair(SheetTransport, group[0], group[1]);
    SumPair(ShareOf, group[0], group[1]);
  }

  // ------------------------------------------------------- what a push archives

  function NairaFeeOf(batch: Batch): int { OrZero(batch.feeNgn) }

  /** The fee of a push in Naira is archived in full, over both ledgers, or nowhere if none was logged. */
  lemma PushedFeesAddUp(batches: seq<Batch>, r: PushRequest)
    requires CanPush(batches, r)
    ensures SumBy(NairaFeeOf, Pushed(batches, r)[|batches|..]) == Amount(OrZero(r.feeNgn))
  {
    var rows := RowsFor(r.desk, Selected(r.ids));
    var ngn, cfa := PushedBatch(r, rows, NGN), PushedBatch(r, rows, CFA);
    AddedBatches(batches, ngn, cfa);
    LedgerFees(r, rows);
  }

  /** Each batch of a push states a fee exactly if one was logged. */
  lemma PushedFeeStated(batches: seq<Batch>, r: PushRequest, k: nat)
    requires CanPush(batches, r) && |batches| <= k < |Pushed(batches, r)|
    ensures Pushed(batches, r)[k].feeNgn.Some? == Pushed(batches, r)[k].fee.Some? == r.feeNgn.Some?
  {
    var batch := PushedOf(batches, r, k);
  }

  lemma LedgerFees(r: PushRequest, rows: seq<Row>)
    requires |rows| > 0
    ensures SumBy(NairaFeeOf, PushedBatch(r, rows, NGN) + PushedBatch(r, rows, CFA)) == Amount(OrZero(r.feeNgn))
  {
    SumAppend(NairaFeeOf, PushedBatch(r, rows, NGN), PushedBatch(r, rows, CFA));
    LedgerFee(r, rows, NGN);
    LedgerFee(r, rows, CFA);
    if r.feeNgn.Some? {
      FeeAddsBack(rows, r.feeNgn.value);
    }
  }

  lemma AddedBatches(batches: seq<Batch>, ngn: seq<Batch>, cfa: seq<Batch>)
    ensures (batches + ngn + cfa)[|batches|..] == ngn + cfa
  {
  }

  lemma LedgerFee(r: PushRequest, rows: seq<Row>, currency: Currency)
    ensures SumBy(NairaFeeOf, PushedBatch(r, rows, currency))
            == if r.feeNgn.Some? then SumBy(ShareOf, Group(rows, r.feeNgn, currency)) else 0
  {
    var pushed := PushedBatch(r, rows, currency);
    if |pushed| > 0 {
      SumOne(NairaFeeOf, pushed[0]);
      assert pushed == [pushed[0]];
    }
  }

  predicate RowIs(desk: Desk, batch: Batch, i: nat)
    requires i < |batch.orderIds| == |batch.rows|
  {
    var id := batch.orderIds[i];
    id in desk && batch.rows[i] == desk[id].row && batch.rows[i].currency == batch.currency
  }

  /** The orders of a batch are the selected ones of its ledger, in order, each with the desk's own row. */
  ghost predicate HoldsSelection(desk: Desk, ids: seq<string>, batch: Batch)
    requires forall i :: 0 <= i < |ids| ==> ids[i] in desk
  {
    && batch.orderIds == Keep(OnLedger(desk, batch.currency), ids)
    && |batch.rows| == |batch.orderIds|
    && forall i :: 0 <= i < |batch.rows| ==> RowIs(desk, batch, i)
  }

  function OnLedger(desk: Desk, currency: Currency): string -> bool
  {
    (id: string) => id in desk && desk[id].row.currency == currency
  }

  lemma {:induction false} GroupHoldsSelection(desk: Desk, ids: seq<string>, charged: seq<Charged>, currency: Currency)
    requires |charged| == |ids|
    requires forall i :: 0 <= i < |ids| ==> ids[i] in desk && charged[i].row == desk[ids[i]].row
    ensures IdsOf(Keep(InLedger(currency), charged)) == Keep(OnLedger(desk, currency), ids)
    ensures forall i :: 0 <= i < |Keep(InLedger(currency), charged)| ==>
              var c := Keep(InLedger(currency), charged)[i]; c.row.id in desk && c.row == desk[c.row.id].row
  {
    var n := |ids|;
    if n > 0 {
      var front, last := charged[..n - 1], charged[n - 1];
      GroupHoldsSelection(desk, ids[..n - 1], front, currency);
      var kept := Keep(InLedger(currency), front);
      assert IdsOf(kept + [last]) == IdsOf(kept) + [last.row.id];
      assert last.row.id == ids[n - 1];
    }
  }

  /** A push archives the desk's rows of the selected orders, each ledger its own, in order. */
  lemma PushArchivesRows(batches: seq<Batch>, r: PushRequest, k: nat)
    requires CanPush(batches, r) && |batches| <= k < |Pushed(batches, r)|
    ensures HoldsSelection(r.desk, Selected(r.ids), Pushed(batches, r)[k])
    ensures Pushed(batches, r)[k].netOverride.None?
  {
    var ids := Selected(r.ids);
    var rows := RowsFor(r.desk, ids);
    var batch := PushedOf(batches, r, k);
    var charged := Charge(rows, r.feeNgn);
    GroupHoldsSelection(r.desk, ids, charged, batch.currency);
    var group := Group(rows, r.feeNgn, batch.currency);
    forall i | 0 <= i < |group| ensures RowIs(r.desk, batch, i) {
      assert InLedger(batch.currency)(group[i]);
      assert batch.rows[i] == group[i].row && batch.orderIds[i] == group[i].row.id;
    }
  }

  /** By how much the sheet exceeds the batch a push archives: the push's own difference, before the custom cost. */
  lemma PushedBatchDifference(batches: seq<Batch>, r: PushRequest, k: nat)
    requires CanPush(batches, r) && |batches| <= k < |Pushed(batches, r)|
    requires forall i :: 0 <= i < |Selected(r.ids)| ==> Push.Staged(r.desk[Selected(r.ids)[i]].row)
    requires var group := Group(RowsFor(r.desk, Selected(r.ids)), r.feeNgn, Pushed(batches, r)[k].currency);
             r.feeNgn.Some? ==> InRange(SumBy(SheetTransport, group))
    ensures var batch := Pushed(batches, r)[k];
            var group := Group(RowsFor(r.desk, Selected(r.ids)), r.feeNgn, batch.currency);
            && |group| == |batch.rows|
            && SumBy(SheetNet, group) - (batch.totals.net + Amount(batch.custom))
               == SumBy(Overdiscount, group) + Sum(Moved(group, TransportShares(batch.rows, batch.fee)))
  {
    var rows := RowsFor(r.desk, Selected(r.ids));
    var batch := PushedOf(batches, r, k);
    PushDifference(rows, r.feeNgn, batch.currency);
  }

  /**
    Without overrides, without a fee, or in Naira alone, a batch's net before its
    custom cost is what the sheet's rows add up to, exactly if no order of it is
    discounted by more than its sale.
  */
  lemma PushedBatchAgrees(batches: seq<Batch>, r: PushRequest, k: nat)
    requires CanPush(batches, r) && |batches| <= k < |Pushed(batches, r)|
    requires Comparable(RowsFor(r.desk, Selected(r.ids)), r.feeNgn, Pushed(batches, r)[k].currency)
    ensures var batch := Pushed(batches, r)[k];
            var group := Group(RowsFor(r.desk, Selected(r.ids)), r.feeNgn, batch.currency);
            SumBy(SheetNet, group) == batch.totals.net + Amount(batch.custom)
            <==> forall i :: 0 <= i < |batch.rows| ==> SoundRow(batch.rows[i])
  {
    var rows := RowsFor(r.desk, Selected(r.ids));
    var batch := PushedOf(batches, r, k);
    LedgerAgrees(r, rows, batch.currency);
  }

  /** What sheet and batch can be compared on: figures in range, and no override met by a fee of several rates. */
  ghost predicate Comparable(rows: seq<Row>, feeNgn: Option<int>, currency: Currency)
  {
    && (forall i :: 0 <= i < |rows| ==> Push.Staged(rows[i]))
    && (feeNgn.Some? ==> InRange(SumBy(SheetTransport, Group(rows, feeNgn, currency))))
    && (|| NoOverrides(RowsOf(Group(rows, feeNgn, currency))) || feeNgn.None?
        || (currency == NGN && forall i :: 0 <= i < |rows| ==> rows[i].currency == NGN))
  }

  lemma PushedOf(batches: seq<Batch>, r: PushRequest, k: nat) returns (batch: Batch)
    requires CanPush(batches, r) && |batches| <= k < |Pushed(batches, r)|
    ensures batch == Pushed(batches, r)[k]
    ensures PushedBatch(r, RowsFor(r.desk, Selected(r.ids)), batch.currency) == [batch]
  {
    var rows := RowsFor(r.desk, Selected(r.ids));
    batch := Pushed(batches, r)[k];
    assert batch in PushedBatch(r, rows, NGN) || batch in PushedBatch(r, rows, CFA);
  }

  lemma LedgerAgrees(r: PushRequest, rows: seq<Row>, currency: Currency)
    requires |PushedBatch(r, rows, currency)| == 1 && Comparable(rows, r.feeNgn, currency)
    ensures var batch := PushedBatch(r, rows, currency)[0];
            SumBy(SheetNet, Group(rows, r.feeNgn, currency)) == batch.totals.net + Amount(batch.custom)
            <==> forall i :: 0 <= i < |batch.rows| ==> SoundRow(batch.rows[i])
  {
    var batch, group := PushedBatch(r, rows, currency)[0], Group(rows, r.feeNgn, currency);
    SheetAgrees(rows, r.feeNgn, currency);
    assert batch.rows == RowsOf(group);
    assert batch.totals.net + Amount(batch.custom) == ArchivedTotals(rows, r.feeNgn, currency, 0).net;
    forall i | 0 <= i < |group| ensures Push.Sound(group[i]) <==> SoundRow(batch.rows[i]) {
      assert batch.rows[i] == group[i].row;
    }
  }

  lemma SheetAgrees(rows: seq<Row>, feeNgn: Option<int>, currency: Currency)
    requires |Group(rows, feeNgn, currency)| > 0 && Comparable(rows, feeNgn, currency)
    ensures var group := Group(rows, feeNgn, currency);
            SumBy(SheetNet, group) == ArchivedTotals(rows, feeNgn, currency, 0).net
            <==> forall i :: 0 <= i < |group| ==> Push.Sound(group[i])
  {
    if NoOverrides(RowsOf(Group(rows, feeNgn, currency))) {
      AgreementWithoutOverrides(rows, feeNgn, currency);
    } else {
      AgreementWithOverrides(rows, feeNgn, currency);
    }
  }

  /** An order whose profit is calculated is not discounted by more than its sale. */
  predicate SoundRow(row: Row)
  {
    ValidOverride(row.profitOverride).None? ==> row.discount <= row.sale
  }

  /** A created batch holds the desk's rows of its orders in order, and nets what they leave after its fee. */
  lemma CreateArchivesRows(batches: seq<Batch>, r: CreateRequest)
    requires CanCreate(batches, r)
    ensures |Created(batches, r)| == |batches| + 1
    ensures var batch := Created(batches, r)[|batches|];
            && HoldsSelection(r.desk, Selected(r.ids), batch) && batch.orderIds == Selected(r.ids)
            && batch.fee == r.fee && batch.netOverride.None?
            && (r.fee.Some? ==> batch.totals.transport == r.fee.value)
            && (NoOverrides(batch.rows) ==>
                  batch.totals.net == SumBy(Revenue, batch.rows) - SumBy(Discount, batch.rows)
                                      - SumBy(Supplier, batch.rows)
                                      - if r.fee.Some? then r.fee.value else SumBy(Delivery, batch.rows))
  {
    var ids := Selected(r.ids);
    var batch := Created(batches, r)[|batches|];
    assert batch.rows == RowsFor(r.desk, ids);
    forall id | id in ids ensures OnLedger(r.desk, batch.currency)(id) {
      var i :| 0 <= i < |ids| && ids[i] == id;
      assert batch.rows[i].currency == batch.currency;
    }
    KeepAll(OnLedger(r.desk, batch.currency), ids);
    NetOfOneLedger(batch.rows, batch.currency, r.fee);
  }

  lemma NetOfOneLedger(rows: seq<Row>, currency: Currency, fee: Option<int>)
    requires |rows| > 0 && OneCurrency(rows) && currency == rows[0].currency && ValidAmount(fee)
    ensures var totals := TotalsOf(rows, currency, fee, 0);
            && (fee.Some? ==> totals.transport == fee.value)
            && (NoOverrides(rows) ==>
                  totals.net == SumBy(Revenue, rows) - SumBy(Discount, rows) - SumBy(Supplier, rows)
                                - if fee.Some? then fee.value else SumBy(Delivery, rows))
  {
    forall row | row in rows ensures RowIn(currency)(row) {
      var i :| 0 <= i < |rows| && rows[i] == row;
    }
    KeepAll(RowIn(currency), rows);
    if NoOverrides(rows) {
      NetIdentity(rows, currency, fee, 0);
    }
  }

  // -------------------------------------------------------------- fees charged once

  function CustomOf(batch: Batch): int { batch.custom }

  function TransferOf(batch: Batch): int { batch.transferFee }

  lemma {:induction false} GroupEmpty(charged: seq<Charged>, currency: Currency)
    ensures |Keep(InLedger(currency), charged)| == 0
            <==> forall i :: 0 <= i < |charged| ==> charged[i].row.currency != currency
  {
    var n := |charged|;
    if n > 0 {
      GroupEmpty(charged[..n - 1], currency);
      assert forall i :: 0 <= i < n - 1 ==> charged[..n - 1][i] == charged[i];
    }
  }

  lemma GroupUsed(rows: seq<Row>, feeNgn: Option<int>, currency: Currency)
    ensures |Group(rows, feeNgn, currency)| == 0 <==> !Uses(rows, currency)
  {
    var charged := Charge(rows, feeNgn);
    GroupEmpty(charged, currency);
    assert forall i :: 0 <= i < |rows| ==> charged[i].row == rows[i];
  }

  /**
    A mixed push charges its custom cost and transfer fee in one ledger only,
    and loses them exactly when the ledger chosen for them gets no order.
  */
  lemma FeesChargedOnce(r: PushRequest, rows: seq<Row>)
    requires |rows| > 0
    ensures var pushed := PushedBatch(r, rows, NGN) + PushedBatch(r, rows, CFA);
            if Uses(rows, FeeLedger(r, rows))
            then SumBy(CustomOf, pushed) == OrZero(r.custom) && SumBy(TransferOf, pushed) == r.transferFee
            else SumBy(CustomOf, pushed) == 0 && SumBy(TransferOf, pushed) == 0
    ensures forall b :: b in PushedBatch(r, rows, NGN) + PushedBatch(r, rows, CFA) ==>
              b.currency == FeeLedger(r, rows) || b.custom == b.transferFee == 0
    ensures match r.feeLedger
            case Some(chosen) => FeeLedger(r, rows) == chosen
            case None => Uses(rows, FeeLedger(r, rows)) && (Uses(rows, NGN) ==> FeeLedger(r, rows) == NGN)
  {
    GroupUsed(rows, r.feeNgn, NGN);
    GroupUsed(rows, r.feeNgn, CFA);
    var ngn, cfa := PushedBatch(r, rows, NGN), PushedBatch(r, rows, CFA);
    SumAppend(CustomOf, ngn, cfa);
    SumAppend(TransferOf, ngn, cfa);
    if |ngn| > 0 {
      SumOne(CustomOf, ngn[0]);
      SumOne(TransferOf, ngn[0]);
      assert ngn == [ngn[0]];
    }
    if |cfa| > 0 {
      SumOne(CustomOf, cfa[0]);
      SumOne(TransferOf, cfa[0]);
      assert cfa == [cfa[0]];
    }
    assert rows[0].currency == NGN || rows[0].currency == CFA;
    assert r.feeLedger.None? && !Uses(rows, NGN) ==> rows[0].currency == CFA;
  }
}
