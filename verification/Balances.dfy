/**
  Running bank balances and the period summary over archived batches and manual
  expenses (accounting.py).
*/
module Balances {
  import opened Sums
  import opened Money
  import opened Wrappers
  import opened Batches

  /** A stored date: absent, unreadable, or a day counted from a fixed origin. */
  datatype Day = NoDay | Malformed | On(day: int)

  datatype Archived = Archived(batch: Batch, at: Day)

  /** A manual expense; a bank fee is kept apart from purchases and payouts. */
  datatype Expense = Expense(currency: Currency, isFee: bool, amount: int, at: Day)

  /** Inclusive bounds; both absent for the all-time view. */
  datatype Period = All | Between(first: int, last: int)

  function InPeriod(at: Day, period: Period): bool
  {
    match at
    case NoDay => period.All?
    case Malformed => false
    case On(d) => period.All? || period.first <= d <= period.last
  }

  /** An expense without a readable date still counts in the all-time view. */
  function ExpenseInPeriod(at: Day, period: Period): bool
  {
    period.All? || (at.On? && period.first <= at.day <= period.last)
  }

  datatype Balance = Balance(starting: int, salesNetProfit: int, manualExpenses: int,
                             bankCharges: int, balance: int)

  datatype Summary = Summary(revenue: int, discounts: int, supplierCosts: int, transport: int,
                             customCosts: int, transferFees: int, manualAdjustment: int,
                             netProfit: int, orderCount: int, batchCount: int)

  // ------------------------------------------------------------------ as sums

  /** A figure of the batches of one currency within a period. */
  function Over(figure: Batch -> int, currency: Currency, period: Period): Archived -> int
  {
    (a: Archived) =>
      if a.batch.currency == currency && InPeriod(a.at, period) then figure(a.batch) else 0
  }

  /** A figure of the batches of one currency, whenever they were pushed. */
  function Ever(figure: Batch -> int, currency: Currency): Archived -> int
  {
    (a: Archived) => if a.batch.currency == currency then figure(a.batch) else 0
  }

  /** A figure of the batches of one currency whose date cannot be read. */
  function Undated(figure: Batch -> int, currency: Currency): Archived -> int
  {
    (a: Archived) => if a.batch.currency == currency && a.at.Malformed? then figure(a.batch) else 0
  }

  function Spent(isFee: bool, currency: Currency, period: Period): Expense -> int
  {
    (e: Expense) =>
      if e.currency == currency && e.isFee == isFee && ExpenseInPeriod(e.at, period) then Amount(e.amount) else 0
  }

  function RevenueOf(b: Batch): int { Amount(b.totals.revenue) }

  function DiscountsOf(b: Batch): int { Amount(b.totals.discounts) }

  function SupplierOf(b: Batch): int { Amount(b.totals.supplier) }

  function TransportOf(b: Batch): int { BatchTransport(b) }

  function CustomOf(b: Batch): int { Amount(b.custom) }

  function FeeOf(b: Batch): int { Amount(b.transferFee) }

  function NetOf(b: Batch): int { BatchNetProfit(b) }

  function CashOf(b: Batch): int { BatchNetProfit(b) - Amount(b.transferFee) }

  function CountOf(b: Batch): int { Amount(b.totals.orderCount) }

  function One(b: Batch): int { 1 }

  /** What the calculator makes of a batch's stored figures, whatever its own net says. */
  function ComputedOf(b: Batch): int
  {
    RevenueOf(b) - DiscountsOf(b) - SupplierOf(b) - TransportOf(b) - CustomOf(b)
  }

  function AmountOf(e: Expense): int { Amount(e.amount) }

  /** Every expense counts once over all time, with the purchases or the charges of its own currency. */
  lemma {:induction false} EveryExpenseCounts(expenses: seq<Expense>)
    ensures SumBy(Spent(false, NGN, All), expenses) + SumBy(Spent(true, NGN, All), expenses)
            + SumBy(Spent(false, CFA, All), expenses) + SumBy(Spent(true, CFA, All), expenses)
         == SumBy(AmountOf, expenses)
  {
    if |expenses| > 0 {
      EveryExpenseCounts(expenses[..|expenses| - 1]);
      OneExpenseCounts(expenses[|expenses| - 1]);
    }
  }

  lemma OneExpenseCounts(e: Expense)
    ensures Spent(false, NGN, All)(e) + Spent(true, NGN, All)(e) + Spent(false, CFA, All)(e) + Spent(true, CFA, All)(e)
         == AmountOf(e)
  {
  }

  /** What the calculator makes of a batch is what it reports, so long as no figure is the owner's or out of range. */
  lemma NothingAdjusted(b: Batch)
    requires Consistent(b) && ValidOverride(b.netOverride).None? && NoOverrides(b.rows) && b.totals.orderCount > 0
    requires InRange(b.totals.revenue) && InRange(b.totals.discounts) && InRange(b.totals.supplier)
    requires InRange(b.totals.transport) && InRange(b.totals.net)
    ensures NetOf(b) == ComputedOf(b)
  {
    NetIdentity(b.rows, b.currency, b.fee, b.custom);
    NetIdentity(b.rows, b.currency, b.fee, 0);
  }

  // -------------------------------------------------------------------- which days count

  /** A period of one day holds that day and no other; nothing without a readable date is in a bounded period. */
  lemma PeriodOfOneDay(at: Day, expense: Day, day: int)
    ensures InPeriod(at, Between(day, day)) <==> at == On(day)
    ensures ExpenseInPeriod(expense, Between(day, day)) <==> expense == On(day)
  {
  }

  /** Two periods that follow on each other have the figures of the period they make up, each batch counted once. */
  lemma {:induction false} PeriodsAddUp(batches: seq<Archived>, figure: Batch -> int, currency: Currency,
                                        first: int, middle: int, last: int)
    requires first <= middle <= last
    ensures SumBy(Over(figure, currency, Between(first, last)), batches)
            == SumBy(Over(figure, currency, Between(first, middle)), batches)
               + SumBy(Over(figure, currency, Between(middle + 1, last)), batches)
  {
    if |batches| > 0 {
      PeriodsAddUp(batches[..|batches| - 1], figure, currency, first, middle, last);
      OneBatchCounts(batches[|batches| - 1], figure, currency, first, middle, last);
    }
  }

  lemma OneBatchCounts(a: Archived, figure: Batch -> int, currency: Currency, first: int, middle: int, last: int)
    requires first <= middle <= last
    ensures Over(figure, currency, Between(first, last))(a)
         == Over(figure, currency, Between(first, middle))(a) + Over(figure, currency, Between(middle + 1, last))(a)
  {
    DaySplits(a.at, first, middle, last);
    OverAt(a, figure, currency, Between(first, last));
    OverAt(a, figure, currency, Between(first, middle));
    OverAt(a, figure, currency, Between(middle + 1, last));
  }

  lemma OverAt(a: Archived, figure: Batch -> int, currency: Currency, period: Period)
    ensures Over(figure, currency, period)(a)
         == if a.batch.currency == currency && InPeriod(a.at, period) then figure(a.batch) else 0
  {
  }

  lemma DaySplits(at: Day, first: int, middle: int, last: int)
    requires first <= middle <= last
    ensures InPeriod(at, Between(first, last))
        <==> InPeriod(at, Between(first, middle)) || InPeriod(at, Between(middle + 1, last))
    ensures !(InPeriod(at, Between(first, middle)) && InPeriod(at, Between(middle + 1, last)))
  {
  }

  lemma {:induction false} ExpensePeriodsAddUp(expenses: seq<Expense>, isFee: bool, currency: Currency,
                                               first: int, middle: int, last: int)
    requires first <= middle <= last
    ensures SumBy(Spent(isFee, currency, Between(first, last)), expenses)
            == SumBy(Spent(isFee, currency, Between(first, middle)), expenses)
               + SumBy(Spent(isFee, currency, Between(middle + 1, last)), expenses)
  {
    if |expenses| > 0 {
      ExpensePeriodsAddUp(expenses[..|expenses| - 1], isFee, currency, first, middle, last);
      var e := expenses[|expenses| - 1];
      assert Spent(isFee, currency, Between(first, last))(e)
          == Spent(isFee, currency, Between(first, middle))(e) + Spent(isFee, currency, Between(middle + 1, last))(e);
    }
  }

  // ------------------------------------------------------------------ the loops

  method BankBalance(batches: seq<Archived>, expenses: seq<Expense>, starting: int, currency: Currency)
    returns (b: Balance)
    ensures b.starting == starting
    ensures b.salesNetProfit == SumBy(Ever(CashOf, currency), batches)
    ensures b.manualExpenses == SumBy(Spent(false, currency, All), expenses)
    ensures b.bankCharges == SumBy(Spent(true, currency, All), expenses)
    ensures b.balance == b.starting + b.salesNetProfit - b.manualExpenses - b.bankCharges
  {
    var profit := 0;
    for i := 0 to |batches|
      invariant profit == SumBy(Ever(CashOf, currency), batches[..i])
    {
      SumStep(Ever(CashOf, currency), batches, i);
      assert Ever(CashOf, currency)(batches[i])
             == if batches[i].batch.currency == currency then CashOf(batches[i].batch) else 0;
      if batches[i].batch.currency == currency {
        profit := profit + BatchNetProfit(batches[i].batch);
        profit := profit - Amount(batches[i].batch.transferFee);
      }
    }
    assert batches[..|batches|] == batches;
    var manual, charges := SpendExpenses(expenses, currency, All);
    b := Balance(starting, profit, manual, charges, starting + profit - manual - charges);
  }

  method SpendExpenses(expenses: seq<Expense>, currency: Currency, period: Period)
    returns (manual: int, charges: int)
    ensures manual == SumBy(Spent(false, currency, period), expenses)
    ensures charges == SumBy(Spent(true, currency, period), expenses)
  {
    manual, charges := 0, 0;
    for i := 0 to |expenses|
      invariant manual == SumBy(Spent(false, currency, period), expenses[..i])
      invariant charges == SumBy(Spent(true, currency, period), expenses[..i])
    {
      SumStep(Spent(false, currency, period), expenses, i);
      SumStep(Spent(true, currency, period), expenses, i);
      var e := expenses[i];
      if e.currency == currency && ExpenseInPeriod(e.at, period) {
        if e.isFee {
          charges := charges + Amount(e.amount);
        } else {
          manual := manual + Amount(e.amount);
        }
      }
    }
    assert expenses[..|expenses|] == expenses;
  }

  /**
    The period card. Its lines always reconcile with its net profit, for every
    list of batches and expenses, hand-set nets included.
  */
  method SalesSummary(batches: seq<Archived>, expenses: seq<Expense>, currency: Currency, period: Period)
    returns (s: Summary)
    ensures s.revenue - s.discounts - s.supplierCosts - s.transport - s.customCosts - s.transferFees
            + s.manualAdjustment == s.netProfit
    ensures s.revenue == SumBy(Over(RevenueOf, currency, period), batches)
    ensures s.discounts == SumBy(Over(DiscountsOf, currency, period), batches)
    ensures s.supplierCosts == SumBy(Over(SupplierOf, currency, period), batches)
                               + SumBy(Spent(false, currency, period), expenses)
    ensures s.transport == SumBy(Over(TransportOf, currency, period), batches)
                           + SumBy(Spent(true, currency, period), expenses)
    ensures s.customCosts == SumBy(Over(CustomOf, currency, period), batches)
    ensures s.transferFees == SumBy(Over(FeeOf, currency, period), batches)
    ensures s.orderCount == SumBy(Over(CountOf, currency, period), batches)
    ensures s.batchCount == SumBy(Over(One, currency, period), batches)
    ensures s.netProfit == SumBy(Over(NetOf, currency, period), batches)
                           - SumBy(Over(FeeOf, currency, period), batches)
                           - SumBy(Spent(false, currency, period), expenses)
                           - SumBy(Spent(true, currency, period), expenses)
  {
    var revenue, discounts, supplier, transport, custom, fees := 0, 0, 0, 0, 0, 0;
    var orders, count, pushed, delta := 0, 0, 0, 0;
    for i := 0 to |batches|
      invariant revenue == SumBy(Over(RevenueOf, currency, period), batches[..i])
      invariant discounts == SumBy(Over(DiscountsOf, currency, period), batches[..i])
      invariant supplier == SumBy(Over(SupplierOf, currency, period), batches[..i])
      invariant transport == SumBy(Over(TransportOf, currency, period), batches[..i])
      invariant custom == SumBy(Over(CustomOf, currency, period), batches[..i])
      invariant fees == SumBy(Over(FeeOf, currency, period), batches[..i])
      invariant orders == SumBy(Over(CountOf, currency, period), batches[..i])
      invariant count == SumBy(Over(One, currency, period), batches[..i])
      invariant pushed == SumBy(Over(NetOf, currency, period), batches[..i])
      invariant revenue - discounts - supplier - transport - custom + delta == pushed
    {
      SumStep(Over(RevenueOf, currency, period), batches, i);
      SumStep(Over(DiscountsOf, currency, period), batches, i);
      SumStep(Over(SupplierOf, currency, period), batches, i);
      SumStep(Over(TransportOf, currency, period), batches, i);
      SumStep(Over(CustomOf, currency, period), batches, i);
      SumStep(Over(FeeOf, currency, period), batches, i);
      SumStep(Over(CountOf, currency, period), batches, i);
      SumStep(Over(One, currency, period), batches, i);
      SumStep(Over(NetOf, currency, period), batches, i);
      var a := batches[i];
      assert One(a.batch) == 1;
      if a.batch.currency == currency && InPeriod(a.at, period) {
        revenue, discounts := revenue + RevenueOf(a.batch), discounts + DiscountsOf(a.batch);
        supplier, transport := supplier + SupplierOf(a.batch), transport + TransportOf(a.batch);
        pushed := pushed + NetOf(a.batch);
        custom, fees := custom + CustomOf(a.batch), fees + FeeOf(a.batch);
        orders, count := orders + CountOf(a.batch), count + 1;
        delta := delta + (NetOf(a.batch) - ComputedOf(a.batch));
      }
    }
    assert batches[..|batches|] == batches;
    var manual, charges := SpendExpenses(expenses, currency, period);
    s := Summary(revenue, discounts, supplier + manual, transport + charges, custom, fees, delta,
                 pushed - manual - charges - fees, orders, count);
  }

  // ---------------------------------------------------------- the two views agree

  /**
    Over all time, the running balance is the opening balance plus the summary's
    net profit, plus whatever the batches with an unreadable date made: those
    are in the bank but in no period.
  */
  lemma {:induction false} BalanceIsOpeningPlusProfit(batches: seq<Archived>, currency: Currency)
    ensures SumBy(Ever(CashOf, currency), batches)
            == SumBy(Over(NetOf, currency, All), batches) - SumBy(Over(FeeOf, currency, All), batches)
               + SumBy(Undated(CashOf, currency), batches)
  {
    if |batches| > 0 {
      BalanceIsOpeningPlusProfit(batches[..|batches| - 1], currency);
      CashSplits(batches[|batches| - 1], currency);
    }
  }

  lemma CashSplits(a: Archived, currency: Currency)
    ensures Ever(CashOf, currency)(a)
            == Over(NetOf, currency, All)(a) - Over(FeeOf, currency, All)(a) + Undated(CashOf, currency)(a)
  {
    var mine := a.batch.currency == currency;
    assert Ever(CashOf, currency)(a) == if mine then CashOf(a.batch) else 0;
    assert Undated(CashOf, currency)(a) == if mine && a.at.Malformed? then CashOf(a.batch) else 0;
    assert InPeriod(a.at, All) == !a.at.Malformed?;
    assert Over(NetOf, currency, All)(a) == if mine && !a.at.Malformed? then NetOf(a.batch) else 0;
    assert Over(FeeOf, currency, All)(a) == if mine && !a.at.Malformed? then FeeOf(a.batch) else 0;
    assert CashOf(a.batch) == NetOf(a.batch) - FeeOf(a.batch);
  }

  /** With readable dates only, the summary's all-time net profit is exactly what the bank gained. */
  method Reconcile(batches: seq<Archived>, expenses: seq<Expense>, starting: int, currency: Currency)
    returns (b: Balance, s: Summary)
    ensures b.balance == starting + s.netProfit + SumBy(Undated(CashOf, currency), batches)
    ensures (forall i :: 0 <= i < |batches| ==> !batches[i].at.Malformed?) ==> b.balance == starting + s.netProfit
  {
    b := BankBalance(batches, expenses, starting, currency);
    s := SalesSummary(batches, expenses, currency, All);
    BalanceIsOpeningPlusProfit(batches, currency);
    if forall i :: 0 <= i < |batches| ==> !batches[i].at.Malformed? {
      NothingUndated(batches, currency);
    }
  }

  lemma {:induction false} NothingUndated(batches: seq<Archived>, currency: Currency)
    requires forall i :: 0 <= i < |batches| ==> !batches[i].at.Malformed?
    ensures SumBy(Undated(CashOf, currency), batches) == 0
  {
    if |batches| > 0 {
      NothingUndated(batches[..|batches| - 1], currency);
    }
  }
}
