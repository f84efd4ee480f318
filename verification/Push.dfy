/**
  Pushing staged orders to the two ledgers (api.py, google_sheets.py): how one
  fee is spread over a mixed push, and when the sheet's own row profits add up to
  the batch that is archived beside them.
*/
module Push {
  import opened Sums
  import opened Money
  import opened Wrappers
  import opened Batches

  /** An order of a push with its share of the batch fee, if one was logged. */
  datatype Charged = Charged(row: Row, share: Option<int>)

  /** Every selected order with its even share of the fee, whatever its currency. */
  function Charge(rows: seq<Row>, feeNgn: Option<int>): (charged: seq<Charged>)
    ensures |charged| == |rows|
  {
    seq(|rows|, i requires 0 <= i < |rows| =>
      Charged(rows[i], if feeNgn.None? then None
                       else Some(EvenShares(Amount(feeNgn.value), |rows|)[i])))
  }

  function InLedger(currency: Currency): Charged -> bool
  {
    (c: Charged) => c.row.currency == currency
  }

  /** The orders of a push that go to one ledger. */
  function Group(rows: seq<Row>, feeNgn: Option<int>, currency: Currency): seq<Charged>
  {
    Keep(InLedger(currency), Charge(rows, feeNgn))
  }

  function RowsOf(group: seq<Charged>): (rows: seq<Row>)
    ensures |rows| == |group|
  {
    seq(|group|, i requires 0 <= i < |group| => group[i].row)
  }

  /** The transport a sheet row carries: its share at its own locked rate, or its own fee. */
  function SheetTransport(c: Charged): int
  {
    match c.share
    case None => c.row.delivery
    case Some(s) => if c.row.currency == CFA then SupplierCostCfa(s, c.row.rate) else Amount(s)
  }

  /** The profit a sheet row shows; its revenue cell never goes below 0. */
  function SheetNet(c: Charged): int
  {
    match ValidOverride(c.row.profitOverride)
    case Some(profit) => profit
    case None => NotBelowZero(c.row.sale - c.row.discount) - c.row.supplier - SheetTransport(c)
  }

  function NotBelowZero(x: int): nat
  {
    if x < 0 then 0 else x
  }

  function ShareOf(c: Charged): int
  {
    match c.share
    case None => 0
    case Some(s) => s
  }

  /** The fee archived with one ledger's batch, in that ledger's currency. */
  function FeeHere(group: seq<Charged>, feeNgn: Option<int>, currency: Currency): Option<int>
  {
    if feeNgn.None? then None
    else if currency == CFA then Some(SumBy(SheetTransport, group))
    else Some(SumBy(ShareOf, group))
  }

  /** The same in Naira, whatever the ledger's currency. */
  function FeeHereNgn(group: seq<Charged>, feeNgn: Option<int>): Option<int>
  {
    if feeNgn.None? then None else Some(SumBy(ShareOf, group))
  }

  /** The totals archived for one ledger, before the custom cost. */
  function ArchivedTotals(rows: seq<Row>, feeNgn: Option<int>, currency: Currency, custom: int): Totals
  {
    var group := Group(rows, feeNgn, currency);
    TotalsOf(RowsOf(group), currency, FeeHere(group, feeNgn, currency), custom)
  }

  /** The figures of a staged order as the ledger computes them: all within range. */
  predicate Staged(row: Row)
  {
    InRange(row.sale) && InRange(row.discount) && InRange(row.supplier) && InRange(row.delivery)
  }

  // ------------------------------------------------------------- the fee adds back

  lemma {:induction false} SplitByLedger(f: Charged -> int, charged: seq<Charged>)
    ensures SumBy(f, Keep(InLedger(NGN), charged)) + SumBy(f, Keep(InLedger(CFA), charged))
            == SumBy(f, charged)
  {
    var n := |charged|;
    if n > 0 {
      SplitByLedger(f, charged[..n - 1]);
      var last := charged[n - 1];
      SumAppend(f, Keep(InLedger(last.row.currency), charged[..n - 1]), [last]);
      assert [last][..0] == [];
    }
  }

  lemma {:induction false} SharesSum(rows: seq<Row>, fee: int, k: nat)
    requires k <= |rows|
    ensures SumBy(ShareOf, Charge(rows, Some(fee))[..k])
            == Sum(EvenShares(Amount(fee), |rows|)[..k])
  {
    if k > 0 {
      SharesSum(rows, fee, k - 1);
      SumStep(ShareOf, Charge(rows, Some(fee)), k - 1);
      SumStep(Id, EvenShares(Amount(fee), |rows|), k - 1);
    }
  }

  lemma SharesAddBack(rows: seq<Row>, fee: int)
    requires |rows| > 0
    ensures SumBy(ShareOf, Charge(rows, Some(fee))) == Amount(fee)
  {
    SharesSum(rows, fee, |rows|);
    WholePrefix(Charge(rows, Some(fee)), |rows|);
    WholePrefix(EvenShares(Amount(fee), |rows|), |rows|);
    EvenSharesSum(Amount(fee), |rows|);
  }

  lemma WholePrefix<T>(s: seq<T>, n: nat)
    requires n == |s|
    ensures s[..n] == s
  {
  }

  /** Over a mixed push the Naira shares of the one fee add back to it exactly. */
  lemma FeeAddsBack(rows: seq<Row>, fee: int)
    requires |rows| > 0
    ensures SumBy(ShareOf, Group(rows, Some(fee), NGN)) + SumBy(ShareOf, Group(rows, Some(fee), CFA))
            == Amount(fee)
  {
    SplitByLedger(ShareOf, Charge(rows, Some(fee)));
    SharesAddBack(rows, fee);
  }

  // -------------------------------------------------------- sheet and batch agree

  /** The sale a discount larger than itself would have to return; the sheet drops it. */
  function Overdiscount(c: Charged): int
  {
    if ValidOverride(c.row.profitOverride).Some? then 0
    else NotBelowZero(c.row.discount - c.row.sale)
  }

  /** How much more transport an overridden row carries on the sheet than in the batch. */
  function Moved(group: seq<Charged>, shares: seq<int>): (moved: seq<int>)
    requires |group| == |shares|
    ensures |moved| == |group|
  {
    seq(|group|, i requires 0 <= i < |group| =>
      if ValidOverride(group[i].row.profitOverride).Some? then SheetTransport(group[i]) - shares[i] else 0)
  }

  lemma {:induction false} NetsDiffer(group: seq<Charged>, shares: seq<int>)
    requires |group| == |shares|
    requires forall i :: 0 <= i < |group| ==> Staged(group[i].row)
    ensures SumBy(SheetNet, group) - Sum(RowNets(RowsOf(group), shares))
            == SumBy(Overdiscount, group) + Sum(Moved(group, shares))
               + Sum(shares) - SumBy(SheetTransport, group)
  {
    var n := |group|;
    if n > 0 {
      NetsDiffer(group[..n - 1], shares[..n - 1]);
      assert RowsOf(group)[..n - 1] == RowsOf(group[..n - 1]);
      assert RowNets(RowsOf(group), shares)[..n - 1] == RowNets(RowsOf(group[..n - 1]), shares[..n - 1]);
      assert Moved(group, shares)[..n - 1] == Moved(group[..n - 1], shares[..n - 1]);
    }
  }

  lemma GroupRows(rows: seq<Row>, feeNgn: Option<int>, currency: Currency)
    requires forall i :: 0 <= i < |rows| ==> Staged(rows[i])
    ensures var group := Group(rows, feeNgn, currency);
            && Keep(RowIn(currency), RowsOf(group)) == RowsOf(group)
            && (forall i :: 0 <= i < |group| ==>
                  && Staged(group[i].row) && group[i].row.currency == currency
                  && group[i].share.Some? == feeNgn.Some?
                  && (group[i].share.Some? ==> InRange(group[i].share.value)))
  {
    var group := Group(rows, feeNgn, currency);
    var charged := Charge(rows, feeNgn);
    forall i | 0 <= i < |group|
      ensures Staged(group[i].row) && group[i].row.currency == currency
      ensures group[i].share.Some? == feeNgn.Some?
      ensures group[i].share.Some? ==> InRange(group[i].share.value)
    {
      assert group[i] in charged;
      var k :| 0 <= k < |charged| && charged[k] == group[i];
      if feeNgn.Some? {
        ShareInRange(Amount(feeNgn.value), |rows|, k);
        assert charged[k].share == Some(EvenShares(Amount(feeNgn.value), |rows|)[k]);
      }
    }
    forall row | row in RowsOf(group) ensures RowIn(currency)(row) {
      var i :| 0 <= i < |group| && group[i].row == row;
    }
    KeepAll(RowIn(currency), RowsOf(group));
  }

  lemma ShareInRange(total: nat, n: nat, i: nat)
    requires i < n && total <= AMOUNT_MAX
    ensures InRange(EvenShare(total, n, i))
  {
    var q := total / n;
    assert total == q * n + total % n;
    ProductOrdered(1, n, q);
    assert 1 * q == q && n * q == q * n;
  }

  /** Either way of charging the group, it carries the archived fee in all. */
  lemma TransportConserved(rows: seq<Row>, feeNgn: Option<int>, currency: Currency)
    requires forall i :: 0 <= i < |rows| ==> Staged(rows[i])
    ensures var group := Group(rows, feeNgn, currency);
            feeNgn.Some? ==> FeeHere(group, feeNgn, currency) == Some(SumBy(SheetTransport, group))
    ensures var group := Group(rows, feeNgn, currency);
            feeNgn.None? ==> SumBy(SheetTransport, group) == SumBy(Delivery, RowsOf(group))
  {
    var group := Group(rows, feeNgn, currency);
    GroupRows(rows, feeNgn, currency);
    if feeNgn.Some? {
      if currency == NGN {
        forall c | c in group ensures ShareOf(c) == SheetTransport(c) {
          var i :| 0 <= i < |group| && group[i] == c;
        }
        SumEqual(ShareOf, SheetTransport, group);
      }
    } else {
      DeliveryOfGroup(group);
    }
  }

  lemma {:induction false} DeliveryOfGroup(group: seq<Charged>)
    requires forall i :: 0 <= i < |group| ==> Staged(group[i].row) && group[i].share.None?
    ensures SumBy(SheetTransport, group) == SumBy(Delivery, RowsOf(group))
  {
    var n := |group|;
    if n > 0 {
      DeliveryOfGroup(group[..n - 1]);
      assert RowsOf(group)[..n - 1] == RowsOf(group[..n - 1]);
    }
  }

  /**
    By exactly how much the sheet's row profits exceed the archived batch's net
    before custom cost, for any currencies, locked rates, fee and overrides:
    what over-large discounts would have taken back, plus the transport that
    overridden rows carry on the sheet but not in the batch's own even split.
  */
  lemma PushDifference(rows: seq<Row>, feeNgn: Option<int>, currency: Currency)
    requires forall i :: 0 <= i < |rows| ==> Staged(rows[i])
    requires var group := Group(rows, feeNgn, currency);
             |group| > 0 && (feeNgn.Some? ==> InRange(SumBy(SheetTransport, group)))
    ensures var group := Group(rows, feeNgn, currency);
            var shares := TransportShares(RowsOf(group), FeeHere(group, feeNgn, currency));
            SumBy(SheetNet, group) - ArchivedTotals(rows, feeNgn, currency, 0).net
            == SumBy(Overdiscount, group) + Sum(Moved(group, shares))
  {
    var group := Group(rows, feeNgn, currency);
    var fee := FeeHere(group, feeNgn, currency);
    var shares := TransportShares(RowsOf(group), fee);
    GroupRows(rows, feeNgn, currency);
    TransportConserved(rows, feeNgn, currency);
    TransportSharesSum(RowsOf(group), fee);
    NetsDiffer(group, shares);
  }

  /** An order whose profit is calculated is not discounted by more than its sale. */
  predicate Sound(c: Charged)
  {
    ValidOverride(c.row.profitOverride).None? ==> c.row.discount <= c.row.sale
  }

  lemma {:induction false} OverdiscountZero(group: seq<Charged>)
    ensures SumBy(Overdiscount, group) >= 0
    ensures SumBy(Overdiscount, group) == 0 <==> forall i :: 0 <= i < |group| ==> Sound(group[i])
  {
    var n := |group|;
    if n > 0 {
      OverdiscountZero(group[..n - 1]);
      assert forall i :: 0 <= i < n - 1 ==> group[..n - 1][i] == group[i];
      assert Overdiscount(group[n - 1]) == 0 <==> Sound(group[n - 1]);
    }
  }

  lemma {:induction false} NothingMoved(group: seq<Charged>, shares: seq<int>)
    requires |group| == |shares|
    requires forall i :: 0 <= i < |group| ==>
               ValidOverride(group[i].row.profitOverride).None? || SheetTransport(group[i]) == shares[i]
    ensures Sum(Moved(group, shares)) == 0
  {
    SumZero(Id, Moved(group, shares));
  }

  /**
    With no per-order override, sheet and batch agree for any mix of currencies
    and locked rates exactly when no order is discounted by more than its sale.
  */
  lemma AgreementWithoutOverrides(rows: seq<Row>, feeNgn: Option<int>, currency: Currency)
    requires forall i :: 0 <= i < |rows| ==> Staged(rows[i])
    requires var group := Group(rows, feeNgn, currency);
             |group| > 0 && (feeNgn.Some? ==> InRange(SumBy(SheetTransport, group)))
    requires NoOverrides(RowsOf(Group(rows, feeNgn, currency)))
    ensures var group := Group(rows, feeNgn, currency);
            SumBy(SheetNet, group) == ArchivedTotals(rows, feeNgn, currency, 0).net
            <==> forall i :: 0 <= i < |group| ==> Sound(group[i])
  {
    var group := Group(rows, feeNgn, currency);
    var shares := TransportShares(RowsOf(group), FeeHere(group, feeNgn, currency));
    PushDifference(rows, feeNgn, currency);
    forall i | 0 <= i < |group|
      ensures ValidOverride(group[i].row.profitOverride).None?
    {
      assert RowsOf(group)[i] == group[i].row;
    }
    NothingMoved(group, shares);
    OverdiscountZero(group);
  }

  /**
    With overrides, an all-Naira push still agrees, and so does any push without
    a batch fee: there the sheet and the batch charge every row alike.
  */
  lemma AgreementWithOverrides(rows: seq<Row>, feeNgn: Option<int>, currency: Currency)
    requires forall i :: 0 <= i < |rows| ==> Staged(rows[i])
    requires |Group(rows, feeNgn, currency)| > 0
    requires feeNgn.None? || (currency == NGN && forall i :: 0 <= i < |rows| ==> rows[i].currency == NGN)
    ensures var group := Group(rows, feeNgn, currency);
            SumBy(SheetNet, group) == ArchivedTotals(rows, feeNgn, currency, 0).net
            <==> forall i :: 0 <= i < |group| ==> Sound(group[i])
  {
    var group := Group(rows, feeNgn, currency);
    var shares := TransportShares(RowsOf(group), FeeHere(group, feeNgn, currency));
    GroupRows(rows, feeNgn, currency);
    TransportConserved(rows, feeNgn, currency);
    if feeNgn.Some? {
      NairaGroup(rows, feeNgn.value);
    }
    PushDifference(rows, feeNgn, currency);
    assert feeNgn.None? ==> shares == seq(|group|, i requires 0 <= i < |group| => Delivery(RowsOf(group)[i]));
    NothingMoved(group, shares);
    OverdiscountZero(group);
  }

  /** An all-Naira push is one group, carrying the whole fee in the batch's own shares. */
  lemma NairaGroup(rows: seq<Row>, fee: int)
    requires |rows| > 0
    requires forall i :: 0 <= i < |rows| ==> Staged(rows[i]) && rows[i].currency == NGN
    ensures var group := Group(rows, Some(fee), NGN);
            && group == Charge(rows, Some(fee))
            && FeeHere(group, Some(fee), NGN) == Some(Amount(fee))
            && (forall i :: 0 <= i < |group| ==>
                  SheetTransport(group[i]) == EvenShares(Amount(fee), |rows|)[i])
  {
    var charged := Charge(rows, Some(fee));
    KeepAll(InLedger(NGN), charged);
    SharesAddBack(rows, fee);
    forall i | 0 <= i < |rows|
      ensures SheetTransport(charged[i]) == EvenShares(Amount(fee), |rows|)[i]
    {
      ShareInRange(Amount(fee), |rows|, i);
    }
  }

  /**
    Different locked rates and an override do disagree: the sheet charges 20 and
    5 francs for two equal Naira shares, the batch re-splits the 25 as 13 and 12,
    and the overridden row absorbs the difference.
  */
  lemma OverrideAcrossRatesDisagrees()
    ensures var rows := [Row("A", CFA, 100, 0, 0, 0, 0, None, 5_000),
                         Row("B", CFA, 100, 0, 0, 0, 0, Some(40), 20_000)];
            && SumBy(SheetNet, Group(rows, Some(20), CFA)) == 120
            && ArchivedTotals(rows, Some(20), CFA, 0).net == 127
  {
    var a := Row("A", CFA, 100, 0, 0, 0, 0, None, 5_000);
    var b := Row("B", CFA, 100, 0, 0, 0, 0, Some(40), 20_000);
    var rows := [a, b];
    var group := [Charged(a, Some(10)), Charged(b, Some(10))];
    assert EvenShares(20, 2) == [10, 10] by { EvenPair(20); }
    assert Charge(rows, Some(20)) == group by { assert Amount(20) == 20; }
    KeepAll(InLedger(CFA), group);
    assert SheetTransport(group[0]) == 20 && SheetTransport(group[1]) == 5;
    SumPair(SheetTransport, group[0], group[1]);
    SumPair(SheetNet, group[0], group[1]);
    assert RowsOf(group) == rows;
    KeepAll(RowIn(CFA), rows);
    assert EvenShares(25, 2) == [13, 12] by { EvenPair(25); }
    assert RowNets(rows, [13, 12]) == [87, 40];
    SumPair(Id, 87, 40);
  }

  lemma EvenPair(total: nat)
    ensures EvenShares(total, 2) == [total / 2 + total % 2, total / 2]
  {
    assert EvenShare(total, 2, 0) == total / 2 + total % 2 && EvenShare(total, 2, 1) == total / 2;
  }
}
