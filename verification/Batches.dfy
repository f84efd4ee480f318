/**
  Totals and net profit of a delivery batch (accounting.py), and the even split
  of one transport fee over its rows.
*/
module Batches {
  import opened Sums
  import opened Money
  import opened Wrappers

  /** One order in the ledger, in its own currency; rate is the one locked at confirmation. */
  datatype Row = Row(id: string, currency: Currency, sale: int, discount: int, supplierNgn: int,
                     supplier: int, delivery: int, profitOverride: Option<int>, rate: Rate)

  datatype Totals = Totals(currency: Currency, orderCount: nat, revenue: int, discounts: int,
                           supplierNgn: int, supplier: int, transport: int, net: int,
                           custom: Option<int>)

  /** A hand-entered profit is honoured within the ledger's range on either side. */
  function ValidOverride(value: Option<int>): Option<int>
  {
    if value.Some? && -AMOUNT_MAX <= value.value <= AMOUNT_MAX then value else None
  }

  // ------------------------------------------------------------ splitting one fee

  function EvenShare(total: nat, n: nat, i: nat): nat
    requires n > 0
  {
    total / n + (if i == 0 then total % n else 0)
  }

  /** Equal whole shares of a fee, the remainder on the first row. */
  function EvenShares(total: nat, n: nat): (shares: seq<int>)
    ensures |shares| == n
  {
    seq(n, i requires 0 <= i < n => EvenShare(total, n, i))
  }

  lemma {:induction false} EvenPrefix(total: nat, n: nat, k: nat)
    requires 0 < k <= n
    ensures Sum(EvenShares(total, n)[..k]) == total / n * k + total % n
  {
    var shares := EvenShares(total, n);
    assert shares[..k][..k - 1] == shares[..k - 1];
    if k > 1 {
      EvenPrefix(total, n, k - 1);
      assert total / n * k == total / n * (k - 1) + total / n;
    } else {
      SumStep(Id, shares, 0);
      assert shares[..0] == [];
      assert Sum(shares[..k]) == shares[0];
      assert total / n * k == total / n;
    }
  }

  /** The shares add back to the fee whenever there is a row to carry it. */
  lemma EvenSharesSum(total: nat, n: nat)
    requires n > 0
    ensures Sum(EvenShares(total, n)) == total
  {
    EvenPrefix(total, n, n);
    assert EvenShares(total, n)[..n] == EvenShares(total, n);
  }

  method AllocateTransport(ids: seq<string>, fee: int) returns (shares: map<string, int>)
    requires forall i, j :: 0 <= i < j < |ids| ==> ids[i] != ids[j]
    ensures shares.Keys == set id | id in ids
    ensures forall i :: 0 <= i < |ids| ==> shares[ids[i]] == EvenShares(Amount(fee), |ids|)[i]
  {
    shares := map[];
    if |ids| > 0 {
      var total := Amount(fee);
      var share, remainder := total / |ids|, total % |ids|;
      for index := 0 to |ids|
        invariant shares.Keys == set k | 0 <= k < index :: ids[k]
        invariant forall k :: 0 <= k < index ==> shares[ids[k]] == EvenShares(total, |ids|)[k]
      {
        shares := shares[ids[index] := share + (if index == 0 then remainder else 0)];
      }
    }
  }

  // ------------------------------------------------------------------ batch totals

  function Keep<T>(p: T -> bool, s: seq<T>): (out: seq<T>)
    ensures |out| <= |s|
    ensures forall i :: 0 <= i < |out| ==> out[i] in s && p(out[i])
  {
    if |s| == 0 then []
    else if p(s[|s| - 1]) then Keep(p, s[..|s| - 1]) + [s[|s| - 1]]
    else Keep(p, s[..|s| - 1])
  }

  function RowIn(currency: Currency): Row -> bool
  {
    (row: Row) => row.currency == currency
  }

  lemma {:induction false} KeepAll<T>(p: T -> bool, s: seq<T>)
    requires forall x :: x in s ==> p(x)
    ensures Keep(p, s) == s
  {
    if |s| > 0 {
      KeepAll(p, s[..|s| - 1]);
    }
  }

  lemma KeepStep<T>(p: T -> bool, s: seq<T>, i: nat)
    requires i < |s|
    ensures Keep(p, s[..i + 1]) == if p(s[i]) then Keep(p, s[..i]) + [s[i]] else Keep(p, s[..i])
  {
    assert s[..i + 1][..i] == s[..i];
  }

  function Revenue(row: Row): int { Amount(row.sale) }

  function Discount(row: Row): int { Amount(row.discount) }

  function SupplierNgn(row: Row): int { Amount(row.supplierNgn) }

  function Supplier(row: Row): int { Amount(row.supplier) }

  function Delivery(row: Row): int { Amount(row.delivery) }

  /** What each row is charged for transport: its own fee, or its share of the batch's. */
  function TransportShares(rows: seq<Row>, fee: Option<int>): (shares: seq<int>)
    ensures |shares| == |rows|
  {
    match fee
    case None => seq(|rows|, i requires 0 <= i < |rows| => Delivery(rows[i]))
    case Some(f) => EvenShares(Amount(f), |rows|)
  }

  function Transport(rows: seq<Row>, fee: Option<int>): nat
  {
    DeliverySumNonNegative(rows);
    match fee
    case None => SumBy(Delivery, rows)
    case Some(f) => Amount(f)
  }

  lemma DeliverySumNonNegative(rows: seq<Row>)
    ensures SumBy(Delivery, rows) >= 0
  {
    SumNonNegative(Delivery, rows);
  }

  /** A row's net profit: the owner's figure, or what the calculator leaves after costs. */
  function RowNet(row: Row, transport: int): int
  {
    match ValidOverride(row.profitOverride)
    case Some(profit) => profit
    case None => Revenue(row) - Discount(row) - Supplier(row) - transport
  }

  function RowNets(rows: seq<Row>, shares: seq<int>): (nets: seq<int>)
    requires |rows| == |shares|
    ensures |nets| == |rows|
  {
    seq(|rows|, i requires 0 <= i < |rows| => RowNet(rows[i], shares[i]))
  }

  /** The totals of a batch: what its rows in the batch's currency add up to. */
  function TotalsOf(all: seq<Row>, currency: Currency, fee: Option<int>, custom: int): Totals
  {
    TotalsOfRows(Keep(RowIn(currency), all), currency, fee, custom)
  }

  function TotalsOfRows(rows: seq<Row>, currency: Currency, fee: Option<int>, custom: int): Totals
  {
    Totals(currency, |rows|, SumBy(Revenue, rows), SumBy(Discount, rows), SumBy(SupplierNgn, rows),
           SumBy(Supplier, rows), Transport(rows, fee),
           Sum(RowNets(rows, TransportShares(rows, fee))) - Amount(custom),
           if Amount(custom) > 0 then Some(Amount(custom)) else None)
  }

  /** The rows of one currency, in order. */
  method RowsIn(all: seq<Row>, currency: Currency) returns (rows: seq<Row>)
    ensures rows == Keep(RowIn(currency), all)
  {
    rows := [];
    for i := 0 to |all|
      invariant rows == Keep(RowIn(currency), all[..i])
    {
      KeepStep(RowIn(currency), all, i);
      if all[i].currency == currency {
        rows := rows + [all[i]];
      }
    }
    assert all[..|all|] == all;
  }

  /** One column of the ledger, added up. */
  method SumColumn(column: Row -> int, rows: seq<Row>) returns (total: int)
    ensures total == SumBy(column, rows)
  {
    total := 0;
    for i := 0 to |rows|
      invariant total == SumBy(column, rows[..i])
    {
      SumStep(column, rows, i);
      total := total + column(rows[i]);
    }
    assert rows[..|rows|] == rows;
  }

  /** Each row's profit in turn, its own figure superseding its transport share. */
  method NetOfRows(rows: seq<Row>, shares: seq<int>) returns (net: int)
    requires |rows| == |shares|
    ensures net == Sum(RowNets(rows, shares))
  {
    net := 0;
    ghost var nets := RowNets(rows, shares);
    for i := 0 to |rows|
      invariant net == Sum(nets[..i])
    {
      SumStep(Id, nets, i);
      var profit := ValidOverride(rows[i].profitOverride);
      if profit.Some? {
        net := net + profit.value;
      } else {
        net := net + Amount(rows[i].sale) - Amount(rows[i].discount) - Amount(rows[i].supplier) - shares[i];
      }
    }
    assert nets[..|rows|] == nets;
  }

  /** The even split, safe for a batch without rows. */
  method SpreadFee(fee: nat, n: nat) returns (shares: seq<int>)
    ensures shares == EvenShares(fee, n)
  {
    var rows := if n > 1 then n else 1;
    var share, remainder := fee / rows, fee % rows;
    shares := seq(n, i => share + (if i == 0 then remainder else 0));
    assert n > 0 ==> rows == n;
  }

  /** One fee for the whole batch, or else each row's own. */
  method ChargeTransport(rows: seq<Row>, fee: Option<int>) returns (transport: int, shares: seq<int>)
    ensures transport == Transport(rows, fee)
    ensures shares == TransportShares(rows, fee)
  {
    match fee
    case None =>
      transport := SumColumn(Delivery, rows);
      shares := TransportShares(rows, None);
    case Some(f) =>
      transport := Amount(f);
      shares := SpreadFee(Amount(f), |rows|);
  }

  /** The batch calculator. */
  method BatchTotals(all: seq<Row>, currency: Currency, fee: Option<int>, custom: int) returns (totals: Totals)
    ensures totals == TotalsOf(all, currency, fee, custom)
  {
    var rows := RowsIn(all, currency);
    totals := TotalRows(rows, currency, fee, custom);
  }

  method TotalRows(rows: seq<Row>, currency: Currency, fee: Option<int>, custom: int) returns (totals: Totals)
    ensures totals == TotalsOfRows(rows, currency, fee, custom)
  {
    var revenue := SumColumn(Revenue, rows);
    var discounts := SumColumn(Discount, rows);
    var supplierNgn := SumColumn(SupplierNgn, rows);
    var supplier := SumColumn(Supplier, rows);
    var transport, shares := ChargeTransport(rows, fee);
    var net := NetOfRows(rows, shares);
    var extra := Amount(custom);
    totals := Totals(currency, |rows|, revenue, discounts, supplierNgn, supplier, transport, net - extra,
                     if extra > 0 then Some(extra) else None);
  }

  // --------------------------------------------------------- what the totals mean

  ghost predicate NoOverrides(rows: seq<Row>)
  {
    forall i :: 0 <= i < |rows| ==> ValidOverride(rows[i].profitOverride).None?
  }

  lemma {:induction false} NetsWithoutOverrides(rows: seq<Row>, shares: seq<int>)
    requires |rows| == |shares| && NoOverrides(rows)
    ensures Sum(RowNets(rows, shares))
            == SumBy(Revenue, rows) - SumBy(Discount, rows) - SumBy(Supplier, rows) - Sum(shares)
  {
    var n := |rows|;
    if n > 0 {
      NetsWithoutOverrides(rows[..n - 1], shares[..n - 1]);
      assert RowNets(rows, shares)[..n - 1] == RowNets(rows[..n - 1], shares[..n - 1]);
    }
  }

  lemma {:induction false} OwnSharesSum(rows: seq<Row>)
    ensures Sum(TransportShares(rows, None)) == SumBy(Delivery, rows)
  {
    var n := |rows|;
    if n > 0 {
      OwnSharesSum(rows[..n - 1]);
      assert TransportShares(rows, None)[..n - 1] == TransportShares(rows[..n - 1], None);
    }
  }

  lemma TransportSharesSum(rows: seq<Row>, fee: Option<int>)
    requires |rows| > 0
    ensures Sum(TransportShares(rows, fee)) == Transport(rows, fee)
  {
    match fee
    case None => OwnSharesSum(rows);
    case Some(f) => EvenSharesSum(Amount(f), |rows|);
  }

  /**
    Without overrides the net is revenue less discounts, supplier costs,
    transport and the custom cost, unless a fee is logged on a batch with no row
    to carry it.
  */
  lemma NetIdentity(all: seq<Row>, currency: Currency, fee: Option<int>, custom: int)
    requires NoOverrides(all)
    ensures var t := TotalsOf(all, currency, fee, custom);
            t.net == t.revenue - t.discounts - t.supplier - t.transport - Amount(custom)
            <==> t.orderCount > 0 || t.transport == 0
  {
    var rows := Keep(RowIn(currency), all);
    assert NoOverrides(rows) by {
      forall i | 0 <= i < |rows| ensures ValidOverride(rows[i].profitOverride).None? {
        assert rows[i] in rows;
      }
    }
    NetsWithoutOverrides(rows, TransportShares(rows, fee));
    if |rows| > 0 {
      TransportSharesSum(rows, fee);
    }
  }

  // ------------------------------------------------------------------ net profit

  /** feeNgn is the batch fee in Naira, kept beside it where it is known. */
  datatype Batch = Batch(id: string, currency: Currency, orderIds: seq<string>, rows: seq<Row>,
                         totals: Totals, fee: Option<int>, feeNgn: Option<int>, custom: int, transferFee: int,
                         netOverride: Option<int>)

  /** The batch's transport cost: its own fee, or what its rows add up to. */
  function BatchTransport(batch: Batch): nat
  {
    match batch.fee
    case None => Amount(batch.totals.transport)
    case Some(f) => Amount(f)
  }

  function BatchNetProfit(batch: Batch): int
  {
    match ValidOverride(batch.netOverride)
    case Some(profit) => profit
    case None =>
      var custom := Amount(batch.custom);
      if Amount(batch.totals.transport) == BatchTransport(batch) then
        Amount(batch.totals.net) - (if custom > 0 && batch.totals.custom.None? then custom else 0)
      else
        Amount(batch.totals.revenue) - Amount(batch.totals.discounts) - Amount(batch.totals.supplier)
        - BatchTransport(batch) - custom
  }

  /** The stored totals are what the calculator says about the stored rows, fee and cost. */
  predicate Consistent(batch: Batch)
  {
    batch.totals == TotalsOf(batch.rows, batch.currency, batch.fee, batch.custom)
  }

  /**
    A batch without an owner's figure reports its net before the custom cost,
    less that cost exactly once, unless that is a loss (or beyond the ledger's
    range), which reads as 0.
  */
  lemma CustomCostOnce(batch: Batch)
    requires Consistent(batch) && ValidOverride(batch.netOverride).None?
    ensures var net := TotalsOf(batch.rows, batch.currency, batch.fee, 0).net - Amount(batch.custom);
            && (BatchNetProfit(batch) == net <==> InRange(net))
            && (!InRange(net) ==> BatchNetProfit(batch) == 0)
  {
  }

  /** The owner's own figure for a batch or an order counts, unless it is beyond the ledger's range. */
  lemma OwnersFigureCounts(batch: Batch, row: Row, transport: int)
    ensures batch.netOverride.Some? ==>
              BatchNetProfit(batch) == if -AMOUNT_MAX <= batch.netOverride.value <= AMOUNT_MAX
                                       then batch.netOverride.value else BatchNetProfit(batch.(netOverride := None))
    ensures row.profitOverride.Some? ==>
              RowNet(row, transport)
              == if -AMOUNT_MAX <= row.profitOverride.value <= AMOUNT_MAX
                 then row.profitOverride.value else RowNet(row.(profitOverride := None), transport)
  {
  }

  /**
    A custom cost that was changed without the totals being recalculated is counted, once,
    exactly if the totals had none, or the same; otherwise the old one stays.
  */
  lemma StaleCustomCost(batch: Batch, custom: int)
    requires Consistent(batch) && ValidOverride(batch.netOverride).None? && InRange(batch.totals.net)
    requires batch.fee.None? ==> InRange(batch.totals.transport)
    ensures BatchNetProfit(batch.(custom := custom))
            == TotalsOf(batch.rows, batch.currency, batch.fee, 0).net - Amount(custom)
            <==> Amount(batch.custom) == 0 || Amount(custom) == Amount(batch.custom)
  {
  }

  /** A batch fee that was changed is counted in any case: the rest is recounted from the same totals. */
  lemma StaleFee(batch: Batch, fee: int)
    requires Consistent(batch) && ValidOverride(batch.netOverride).None? && NoOverrides(batch.rows)
    requires batch.totals.orderCount > 0 && InRange(fee) && batch.totals.transport != fee
    requires InRange(batch.totals.revenue) && InRange(batch.totals.discounts) && InRange(batch.totals.supplier)
    requires InRange(batch.totals.transport)
    ensures BatchNetProfit(batch.(fee := Some(fee)))
         == TotalsOf(batch.rows, batch.currency, Some(fee), batch.custom).net
  {
    NetIdentity(batch.rows, batch.currency, Some(fee), batch.custom);
  }

  /** A batch that lost 50 Naira reports a net profit of 0. */
  lemma LossReadsAsZero()
    ensures var row := Row("A", NGN, 100, 0, 150, 150, 0, None, 10_000);
            var batch := Batch("B", NGN, ["A"], [row], TotalsOf([row], NGN, None, 0), None, None, 0, 0, None);
            batch.totals.net == -50 && BatchNetProfit(batch) == 0
  {
    var row := Row("A", NGN, 100, 0, 150, 150, 0, None, 10_000);
    assert [row][..0] == [];
    assert Keep(RowIn(NGN), [row]) == [row];
    assert RowNets([row], TransportShares([row], None)) == [-50];
    assert [-50][..0] == [];
  }
}
