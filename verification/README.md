# Verification of the store's ledger, stock and protocols

A Dafny model of the parts of the shop where a mistake costs money, stock or trust, with proofs of
what those parts promise and exact statements of where they do not keep it. `dafny verify
dfyconfig.toml` checks everything.

| file | models |
|---|---|
| `Stock.dfy` | reservation at checkout and the order lifecycle over the guarded stock primitives |
| `Cart.dfy`, `Orderings.dfy`, `Acceptance.dfy` | aggregation and validation of a cart, and what its verdict means |
| `Overdraw.dfy`, `Handover.dfy` | which shelves an accepted cart can overdraw, and what the reservation still refuses |
| `Pricing.dfy`, `Currency.dfy` | unit prices, discounts, codes, CFA rounding, the cross-border minimum |
| `Money.dfy`, `Allocation.dfy`, `LineItems.dfy` | ledger amounts and exchange, the largest-remainder split, accounting lines |
| `Batches.dfy`, `Push.dfy`, `Ledger.dfy`, `Balances.dfy` | batch totals, the push to two ledgers, the archive over whole runs, balances and summaries |
| `ZoneRepair.dfy`, `Zones.dfy` | the self-repairing save of a delivery zone against an unknown table, and what it reads back as |
| `Paging.dfy`, `Reminders.dfy` | paging over the shrinking table of due carts, the claim protocol between workers |
| `Broadcast.dfy` | the chunked, resumable, cancellable mail dispatcher |
| `Caches.dfy`, `Layers.dfy` | read-through caches under threads, and one over another |
| `Categories.dfy` | the category save with compensation and tombstones, and the boot seed |
| `Sums.dfy`, `Basics.dfy`, `Wrappers.dfy` | sums over sequences and maps, shared notions |

Code that updates state is a class whose methods are tied to a functional specification of the
new state (`Shop`, `Archive`, `ZoneWriter`, `CartTable`, `Dispatcher`, `CategoryStore`); the
laws are proved about that specification. Threads and workers are state machines with one
function `Next` over a datatype of steps, and a run is any list of steps. Whatever the database,
the mail provider or an operator may do is an input of the step: a call that fails, an answer that
is lost, a cancellation, an order that a refused write leaves behind.

Where the code does less than its documentation says, the model follows the code, a lemma shows a
concrete input, and another says for all inputs when the promise is kept:

- a deletion that the database refuses says that no changes were made, but the stock is already
  released (`Stock.FailedDeleteReleasesTwice`; exactly when: `Stock.DeleteConserves`);
- a reservation whose answer is lost, an order write answered as failed whose row is there all the
  same, a receipt failure whose order row cannot be removed, and a confirmation that the shelves
  cannot cover, also leave the books wrong (`Stock.StepConservesExactly`);
- the CFA total after a code is rounded up, not down (`Pricing.PromotionKeepsBooks`);
- the literal variant `__default__` opens a second pool over the same shelf, and the options of a
  product are checked each against the total but not together, so the cart check lets exactly such
  carts overdraw (`Overdraw.OverdrawnIff`); the reservation stops them
  (`Handover.AcceptedCartReserves`);
- a pool is judged by its first line alone, so the order of the lines can decide the verdict
  (`Acceptance.VerdictIgnoresOrderIff`);
- leftover units are served by the fractions of 28-digit quotients, so equal rests of unequal
  weights need not be served by position (`Allocation.TieByPositionIff`);
- a CFA minimum that is not a multiple of 50 is missed (`Currency.MinimumOrderExact`);
- the exchange clamps above 10^12 (`Money.NgnRoundTripExact`), a stored loss reads as 0
  (`Batches.CustomCostOnce`), and totals that were not recalculated do swallow a custom cost that
  was changed, though not a new one (`Batches.StaleCustomCost`);
- the sheet drops what a discount larger than its sale takes back, and an override across locked
  rates absorbs a difference (`Push.PushDifference`);
- the fees of a mixed push are lost when the ledger chosen for them gets no order
  (`Ledger.FeesChargedOnce`);
- a batch with an unreadable date is in the bank but in no period
  (`Balances.BalanceIsOpeningPlusProfit`);
- undoing the edits of a franc batch need not restore its fee in Naira (`Ledger.UndoRestores`);
- only one retyped column is remembered, so with two the next save fails
  (`ZoneRepair.RepeatSave`);
- a zone's name is not cleaned alike on the way in and out: cut at a space, it reads back shorter
  (`Zones.CleanAgainIff`);
- a page read between a claim and its success copies the unclaimed remote row back, and a deleted
  cart that is captured anew has forgotten its mail (`Reminders.StepKeepsIff`);
- an order marks nothing when its cart is not captured yet, so a capture that arrives late leaves a
  paid cart to be claimed and mailed, on one machine too (`Reminders.LateCaptureIsClaimed`; exactly
  when: `Reminders.LocalRunsAreSafeIff`);
- every thirty-first recipient is pulled and never attempted (`Broadcast.FreshRunReaches`);
- the best-seller cache can store an outdated count after its invalidation
  (`Caches.StepKeepsIff`);
- compensating a category save writes the French name under a column the table does not have, so
  the failed save's French name stays (`Categories.CompensationRestores`); a removal whose answer
  is lost is permanent though reported as failed (`Categories.FailureBuriesNothing`); and the boot
  seed permanently buries rows without a name (`Categories.SeedBuriesNothingIff`).

## Model

| member | source | states |
|---|---|---|
| `Stock.StepConservesExactly` | api.py:1443-1487 | For every state and every checkout, status change or deletion: on every shelf (product total or option), units on the shelf plus units held by live orders stay constant if and only if the step is clean, the three unclean cases being written out as guards |
| `Stock.RunConserves` | api.py:2187-2343 | Over any sequence of clean checkouts (succeeding or failing at any line or later write), confirmations, declines, reopenings and deletions, stock plus held units is constant on every shelf, so nothing is taken or returned twice |
| `Stock.CheckoutConserves` | api.py:2187-2343 | A checkout conserves units whatever fails, except exactly when a line's reservation is committed and its answer lost, or a write reported as failed, of the order or of the receipt, leaves the order row behind after its units went back |
| `Stock.StatusConserves` | api.py:5087-5091 | A status change conserves units unless it confirms without reservation an order some line of which is closed, or that some shelf cannot cover; then it does not |
| `Stock.DeleteConserves` | api.py:5368-5415 | A deletion conserves units if and only if the row is removed or the order holds nothing of the catalogue |
| `Stock.FailedDeleteReleasesTwice` | api.py:5411-5415 | Counterexample: a refused deletion already gave its unit back, and the retry gives it back again |
| `Stock.ReservedOrderConfirmsClean` | api.py:1456-1471 | While the units an order took are recorded, no change of its status loses or invents a unit, and confirming it leaves the shelves alone |
| `Stock.ReserveIffFeasible` | api.py:2187-2214 | Line-by-line reservation succeeds exactly when no call fails, all lines are known and no shelf is asked in total for more than it has, duplicate lines and shared totals added up |
| `Stock.ReservationUndone` | api.py:2205-2214 | Releasing the reserved lines restores the catalogue exactly |
| `Stock.AppliedIffCoverable` | api.py:1417-1440 | Confirming takes every line of a known product if and only if each is online, unlocked and of a resolvable option, and no shelf is asked in total for more than it has |
| `Stock.FeasibleApplies` | api.py:1417-1440 | When the lines fit, confirming takes every one of them and leaves the same catalogue as reserving them |
| `Stock.UnseenLineIsLost` | api.py:2198-2214 | A line the database took without the checkout learning of it is off its shelf and held by no order |
| `Stock.ApplyAllShort` | api.py:1417-1440 | When a line is passed over, some shelf keeps more than the record says was taken |
| `Stock.Shop.ReserveStock` | supabase_store.py:2071-2110 | The guarded primitive: reserved, refused, or unavailable before or after the database took the units; every shelf changes by exactly what the line asks of it |
| `Stock.Shop.ReleaseStock` | supabase_store.py:2170-2194 | Every shelf the line draws on has its units again, and nothing else changes |
| `Stock.Shop.ReserveLines` | api.py:2196-2207 | The reservation loop: all lines reserved, or a prefix whose release restores the start but for a line taken unseen |
| `Stock.Shop.PlaceOrder` | api.py:2129-2343 | The new catalogue and order table of a checkout for every failure point. Placed exactly if the order is new, its lines fit, the database answers and every write succeeds; then it is pending with the items sent and holds exactly what left the shelves. Otherwise no shelf loses a unit but for a line taken unseen, and no order appears but one a write left behind |
| `Stock.CheckoutObeys` | api.py:2187-2343 | What `PlaceOrder` promises, for every state, order and failure point, in terms of what the shelves have and the lines ask for |
| `Stock.StatusObeys` | api.py:1443-1487 | For every order and status: declining or unconfirming gives exactly what it holds back to the shelves and leaves it holding nothing; confirming without a record takes what its lines ask for if the shelves cover it; any other change moves nothing; no other order changes |
| `Stock.DeleteObeys` | api.py:5368-5415 | A deletion gives exactly what the order holds back, and no other order changes |
| `Stock.Shop.SyncOrderStock` | api.py:1443-1487 | The single place where a status change moves stock, tied to its specification |
| `Stock.Shop.UpdateOrder` | api.py:5084-5091 | Status update: stock and record move together, as `StatusObeys` says |
| `Stock.Shop.DeleteOrder` | api.py:5357-5415 | Deletion: release first, remove the row afterwards if the database lets it, as `DeleteObeys` says |
| `Stock.Shop.ReleaseLines` | api.py:1725-1750 | Gives back every line |
| `Stock.Shop.ApplyLines` | api.py:1417-1440 | Decrements line by line, passing over refused lines |
| `Acceptance.AcceptedIff` | api.py:1611-1714 | For every cart: it is accepted if and only if every line is on sale and the first line of every pool fits what all lines of the pool together ask for |
| `Acceptance.AcceptedExactlyWhenItFits` | api.py:1611-1714 | Whatever spellings, notes, legacy ids or duplicates are used: a cart whose pools do not mix lines that fit and lines that do not, as under plain names, is accepted if and only if every pool has all its lines together ask for; subtotal and units per product equal those of the raw lines |
| `Acceptance.VerdictIgnoresOrderIff` | api.py:1666-1683 | The order of the lines cannot change the verdict if and only if no pool mixes lines that fit and lines that do not, or the cart is refused in every order |
| `Acceptance.AcceptedInSomeOrderIff` | api.py:1666-1683 | Some order is accepted if and only if all is on sale and every pool has a line that fits |
| `Acceptance.AcceptedInEveryOrderIff` | api.py:1666-1683 | Every order is accepted if and only if all lines fit |
| `Acceptance.OrderCanMatter` | api.py:1651-1683 | Counterexample: with a stored option called `__default__` one order of two lines is accepted and the other is not |
| `Acceptance.HiddenSpellingIsAccepted` | api.py:1651-1683 | Counterexample family: behind a line spelled `__default__` a spelling that folds to the same is accepted though nothing of it is in stock |
| `Overdraw.AcceptedKeepsOptions` | api.py:1651-1683 | Whatever the names: no accepted cart asks an option for more than it has |
| `Overdraw.OverdrawnIff` | api.py:1651-1683 | A set of keys admits an accepted cart that asks some product or option for more than it has if and only if it names one product without options, on sale and in stock, by both the empty variant and `__default__`, or options of one product on sale whose limits, each the least of option and total, add up to more than the total |
| `Overdraw.OptionsCanOverdrawTotal` | api.py:1651-1683 | Counterexample: of a product with five in all and five of either option, five of both are accepted |
| `Acceptance.SameUnitsSameOutcome` | api.py:1611-1714 | Carts asking for the same units of every exact line cost the same, and get the same verdict unless a pool mixes lines that fit and lines that do not |
| `Acceptance.SplitAndReorder` | api.py:1611-1714 | Splitting a line and permuting the cart changes neither the verdict, under that condition, nor the subtotal |
| `Cart.GroupedKeys` | api.py:1611-1631 | Aggregation yields one group per (product, variant, note) and no other |
| `Cart.GroupedWeighs` | api.py:1611-1631 | Aggregation preserves every quantity-proportional measure of the cart |
| `Cart.CfaOrderIsClean` | api.py:1686-1698 | Every CFA subtotal is a multiple of 50 through unit price, bulk discount and line loop; after any code the total is too, and subtotal = discount + total |
| `Handover.AcceptedCartReserves` | api.py:2187-2214 | What the cart check leaves open: exactly those accepted carts are reserved in full of which every line is bookable (no variant where none is needed, or a stored option not called `__default__`), and which ask no product for more than its total nor the placeholder option, where one is stored, for more than it has |
| `Handover.ReservedNamePassesCartCheck` | api.py:1651-1664 | Counterexample: a cart for two units of a stock of one by both spellings passes the cart check, and the reservation refuses it |
| `Cart.CheckoutItems` | api.py:1583-1714 | The whole procedure: the first group at fault with its exact error, or the priced lines and subtotal |
| `Cart.Aggregate` | api.py:1611-1631 | The dictionary of groups in first-seen order |
| `Cart.ResolvedIs` | api.py:1608-1623 | An old id addresses the product it is now, a note stays only where the product takes notes, all else is as sent; to resolve twice is to resolve once |
| `Cart.FoldOfOne` | catalog.py:1379-1386 | Capitals, blanks and signs make no difference to the spelling of an option; any other letter or digit does |
| `Cart.FaultTells` | api.py:1653-1683 | What each refusal says: an unknown product, one not on sale, or truly what can be had against what the pool's lines ask for together |
| `Cart.BillAddsUp` | api.py:1686-1714 | The subtotal is what the priced lines cost together |
| `Overdraw.AvailableIsMost` | api.py:1319-1350 | The stock a refusal names is exactly the most that a cart of that line alone may ask for |
| `Cart.Totals` | api.py:1644-1664 | Units per product and per pool |
| `Pricing.UnitPrice` | api.py:1497-1538 | The authoritative unit price: override, row or cheapest override, in either currency |
| `Pricing.NairaUnitPrice` | api.py:1509-1538 | The first readable option name with an override decides; else the row; else the cheapest positive override |
| `Pricing.CfaUnitPrice` | api.py:1509-1536 | In CFA the selected override converted, else the row's CFA price raised by less than one step, else its converted Naira price |
| `Pricing.CheapestIs` | api.py:1519-1528 | The fallback is a positive override and no positive one is cheaper |
| `Pricing.NamedIs` | api.py:1509-1518 | Of several overrides of one name the last counts |
| `Pricing.CfaUnitIsStep` | api.py:1529-1536 | A CFA unit price is a clean step whatever the row, the override and the rate |
| `Pricing.HighestTierCounts` | growth.py:104-116 | The percentage is that of the highest tier reached, and 0 below the first |
| `Pricing.BulkStartsAt` | catalog.py:1449-1476 | A product's own rule starts one unit above its quantity and wins over any tiers; else discounts start at the first tier; with promotions off there are none |
| `Pricing.BulkGivesItsPercentage` | api.py:1687-1696 | The discounted unit is within half a unit of its percentage in Naira, and within a further step above it in CFA |
| `Pricing.BulkNeverCostsMore` | api.py:1687-1696 | A bulk discount never raises a unit price, not even through the CFA rounding up |
| `Pricing.PromotionKeepsBooks` | api.py:2107-2117 | subtotal = discount + total; the CFA total is a clean step; less than one step of the promise is lost; all of it is kept if and only if the promised total was already a clean step |
| `Pricing.PromotionCanRoundAway` | api.py:2111-2117 | Counterexample to the comment that the shopper always keeps the promised discount: 25 of 250 CFA is rounded away |
| `Currency.RoundCfaIsLeastStep` | currency.py:50-65 | The rounded amount is a clean step and is at most a step m if and only if the amount is, tolerance included |
| `Currency.RoundCfaBounds` | currency.py:50-65 | Rounding adds less than a step and loses nothing beyond the tolerance |
| `Currency.RoundCfaMonotone` | currency.py:50-65 | The tolerant ceiling is monotone |
| `Currency.ToCfaMonotone` | currency.py:80-99 | A larger Naira basket never converts to less CFA |
| `Currency.MinimumOrderExact` | api.py:1839-1882 | For every rate and floor: the derived Naira floor is the least basket reaching the CFA floor if and only if no whole basket falls between two stated thresholds |
| `Currency.MinimumOrderEquivalence` | api.py:1839-1882 | For every positive four-decimal rate and every floor that is a multiple of 50, the Naira floor is exact and both currencies accept the same baskets |
| `Currency.UnevenFloorIsMissed` | api.py:1839-1882 | Counterexample: a floor of 75 CFA at rate 0.44 lets 57 Naira through where 114 are needed |
| `Money.NgnRoundTripExact` | accounting.py:107-131 | Naira to CFA and back is exact for every rate up to 1, if and only if the franc figure stays within the ledger's range |
| `Money.NgnRoundTripBound` | accounting.py:107-131 | Above 1 the trip is off by at most (rate + 1) / 2 |
| `Money.CfaRoundTrip` | accounting.py:107-131 | CFA to Naira and back is exact for every rate from 1 up, within range |
| `Money.RoundTripOutOfRange` | accounting.py:61-66 | Counterexample: the clamp of amounts above 10^12 breaks the trip |
| `Money.SafeRateUsable` | accounting.py:86-90 | The locked rate is 0, and so unusable, exactly for positive rates below half a ten-thousandth |
| `Allocation.SplitConserves` | accounting.py:655-673 | In whichever order the leftover units are served, the shares sum to the total and each is the floor of its quota or one more |
| `Allocation.ExactQuotaNotServed` | accounting.py:668-672 | By any fair order a line with a whole quota, such as zero weight, gets exactly its quota |
| `Allocation.LargerWeightLargerShare` | accounting.py:668-672 | By any fair order a larger weight never gets a smaller share |
| `Allocation.TiesFavourTheEarlier` | accounting.py:669-670 | By any fair order equal weights differ by at most a unit, in favour of the earlier line |
| `Allocation.SplitMinimisesDeviation` | accounting.py:655-673 | By any fair order no whole split of the total is closer to the exact quotas in total absolute deviation |
| `Allocation.SplitScaleInvariant` | accounting.py:664-667 | Only the proportions of the weights matter, to the ledger's decimal quotients too |
| `Allocation.OrderProperties` | accounting.py:669-671 | The ledger's sort lists each line once, by descending fraction of its 28-digit quotient, equal fractions by position |
| `Allocation.QuotientParts` | accounting.py:666-667 | Within the ledger's range the 28-digit quotient has the exact whole part, and a fraction within half a unit of the exact rest |
| `Allocation.LedgerOrderIsFair` | accounting.py:666-671 | Within the ledger's range the sort by decimal fractions is a fair order: it descends by exact rest, and lines of one weight keep their positions |
| `Allocation.TieByPositionIff` | accounting.py:669-671 | Of two lines with equal exact rests the earlier one is served first if and only if the rest, rounded half to even to as many digits as its quotient keeps behind the point, is no smaller than rounded to as many as the later quotient keeps |
| `Allocation.SameScaleSameFraction` | accounting.py:666-667 | Equal rests leave equal fractions when the two quotients keep equally many digits behind the point |
| `Allocation.TiesIgnorePosition` | accounting.py:666-671 | Counterexample: four units over weights 10, 1 and 1 have three equal rests, are served in the order 1, 2, 0 and split 3, 1, 0 |
| `Allocation.AllocateConserves` | accounting.py:655-673 | Over any weights, negative or all zero included, the shares add up to the amount |
| `Allocation.AllocateNear` | accounting.py:655-673 | Over weights that are not all zero each share is the floor of its quota or one more |
| `Allocation.AllocateAmount` | accounting.py:655-673 | For at most sixty ledger amounts, which is what its callers pass, the loops over 28-digit quotients compute that split |
| `Allocation.ShareOut` | accounting.py:664-673 | The quotients, the sort and the units handed out along it |
| `LineItems.FreshSaleConserved` | accounting.py:758-767 | The fresh path conserves the sale total, except exactly when the total is 0 while items carry prices |
| `LineItems.FreshCostConserved` | accounting.py:769-776 | A stored supplier cost is conserved exactly; a stored 0 yields the defaults |
| `LineItems.RereadReturnsSameLines` | accounting.py:717-756 | A snapshot holding an order's lines reads back as those very lines |
| `LineItems.EditedSnapshotRereads` | accounting.py:803-852 | An edited snapshot reads back as the edited lines, so aggregates stay line sums |
| `LineItems.ApplyLineItems` | accounting.py:803-852 | Edits are refused as a whole, or exactly the named lines change and the aggregates equal the line sums |
| `LineItems.LineItemsForOrder` | accounting.py:704-800 | Both paths compute the specified lines |
| `LineItems.LinesAreItems` | accounting.py:676-684 | One line for each of at most sixty items, or one for none, numbered in order, each with its item's quantity and the cost of a unit to the nearest whole |
| `LineItems.FreshShares` | accounting.py:758-776 | A fresh line's sale is its share of the total by the items' prices, else by quantity; its cost the default, or its share of a stored cost that disagrees by the defaults, else by quantity |
| `LineItems.StoredLineCounts` | accounting.py:717-745 | The stored line of an id, the last of several, or else the one in its place, decides sale and cost; a stored unit price alone is multiplied out; gaps are filled by the defaults |
| `LineItems.UnstoredLineDefaults` | accounting.py:717-745 | A line that the snapshot says nothing of has its default sale and cost |
| `LineItems.EditLines` | accounting.py:812-840 | Accepted if and only if ids are known, distinct and amounts valid; unnamed lines are unchanged |
| `LineItems.EditIsStored` | accounting.py:820-835 | The sale and cost sent are the ones stored, an empty one as 0, an absent one as it was; a sent cost is spread over the units to the nearest whole |
| `Batches.BatchTotals` | accounting.py:1087-1149 | The calculator equals the sums over the rows of its currency |
| `Batches.AllocateTransport` | accounting.py:971-989 | Equal whole shares, the remainder on the first row |
| `Batches.EvenSharesSum` | accounting.py:971-989 | The shares add back to the fee whenever there is a row |
| `Batches.NetIdentity` | accounting.py:1087-1149 | Without overrides net = revenue - discounts - supplier - transport - custom, if and only if the batch has an order or carries no fee |
| `Batches.CustomCostOnce` | accounting.py:1045-1077 | The custom cost is subtracted exactly once if and only if the resulting net is within the ledger's range; otherwise 0 is reported |
| `Batches.OwnersFigureCounts` | accounting.py:1026-1043 | The owner's own figure for a batch or an order counts, unless it is beyond the ledger's range |
| `Batches.StaleCustomCost` | accounting.py:1064-1073 | A custom cost changed without recalculating the totals is counted once if and only if the totals had none or the same; else the old one stays |
| `Batches.StaleFee` | accounting.py:1074-1077 | A batch fee changed without recalculating the totals is counted in full: the net is what the calculator would say |
| `Batches.LossReadsAsZero` | accounting.py:1068-1068 | Counterexample: a stored loss of 50 reads as 0 |
| `Push.FeeAddsBack` | api.py:4003-4027 | Over a mixed push the Naira shares of one fee add back to it exactly |
| `Push.PushDifference` | api.py:4064-4101 | For any currencies, rates, fee and overrides, by exactly how much the sheet's row profits exceed the archived net before custom cost |
| `Push.AgreementWithoutOverrides` | google_sheets.py:1192-1235 | Without overrides sheet and batch agree, for any mix of locked rates, if and only if no order is discounted beyond its sale |
| `Push.AgreementWithOverrides` | api.py:4064-4101 | With overrides an all-Naira push, or one without a batch fee, still agrees |
| `Push.OverrideAcrossRatesDisagrees` | api.py:4064-4101 | Counterexample: an override across two locked rates |
| `Ledger.RunsAreSound` | api.py:3855-4221 | Over any run of creates, pushes and edits: no order is in two batches or twice in one, and stored totals equal the calculator on the stored rows, fee and cost |
| `Ledger.CreateKeepsSound` | api.py:3844-3908 | A create keeps the archive sound |
| `Ledger.PushKeepsSound` | api.py:3919-4120 | A push keeps the archive sound across both ledgers |
| `Ledger.EditKeepsSound` | api.py:4132-4221 | An edit keeps the archive sound |
| `Ledger.PushArchivesEveryOrder` | api.py:4003-4101 | A push leaves no selected order behind: each is in the new batch of its own ledger |
| `Ledger.PushArchivesRows` | api.py:4051-4098 | Each batch of a push holds the selected orders of its ledger, in order, with the desk's own rows |
| `Ledger.PushedFeesAddUp` | api.py:4067-4086 | The fee of a push is archived in full over both ledgers, or in none if none was logged |
| `Ledger.PushedFeeStated` | api.py:4067-4086 | Each batch of a push states a fee exactly if one was logged |
| `Ledger.PushedBatchDifference` | api.py:4067-4098 | By exactly how much the sheet's row profits exceed the net of the archived batch before its custom cost |
| `Ledger.PushedBatchAgrees` | api.py:4067-4098 | Without overrides, without a fee or in Naira alone, they are equal if and only if no order of the batch is discounted beyond its sale |
| `Ledger.CreateArchivesRows` | api.py:3844-3908 | A created batch holds the selected orders in order with the desk's rows, the fee it was given, and without overrides the net they leave |
| `Ledger.EditsCompose` | api.py:4147-4221 | Of two edits the later wins field by field, and a field that is not sent stays |
| `Ledger.ArchivedForGood` | api.py:4147-4221 | No later step takes an order out of its batch or changes a batch's rows |
| `Ledger.UndoRestores` | api.py:4147-4221 | However often a batch was edited, putting fee, cost and override back restores all of it but the fee in Naira, and that if and only if it was what an edit would state; acceptable exactly when the originals are enterable |
| `Ledger.NairaPushCanBeUndone` | api.py:4074-4098 | A batch pushed to the Naira ledger meets that condition |
| `Ledger.FrancFeeIsNotRestored` | api.py:4168-4176 | Counterexample: a franc batch over two locked rates comes back with 30 Naira for 40 |
| `Ledger.FeesChargedOnce` | api.py:4057-4101 | A push charges custom cost and transfer fee in one ledger only, and loses them exactly when the chosen ledger gets no order |
| `Ledger.Archive.Create` | api.py:3844-3908 | New archive and refusal of a create, for every failure |
| `Ledger.Archive.PushOrders` | api.py:3919-4120 | New archive of a push; nothing is archived unless sheet and archive confirm; what is archived, the three results above say |
| `Ledger.Archive.EditBatch` | api.py:4132-4221 | New archive of an edit |
| `Ledger.Archive.CheckSelection` | api.py:3855-3882 | Refuses exactly the selections that are empty, too long, unlisted or already archived |
| `Ledger.SelectableIff` | api.py:3855-3882 | In terms of the ids sent: some is named, at most five hundred are, and each is of a listed order that was not removed and is in no batch |
| `Ledger.EditTouchesOne` | api.py:4132-4146 | An edit reaches the first batch of its id and no other |
| `Balances.SalesSummary` | accounting.py:1302-1386 | revenue - discounts - supplier - transport - custom - transfer fees + manual adjustment = net profit for every list, with each line equal to its sum |
| `Balances.PeriodsAddUp` | accounting.py:1284-1299 | Periods that follow on each other have the figures of the period they make up, each batch counted once |
| `Balances.PeriodOfOneDay` | accounting.py:1284-1299 | A period of one day holds that day and no other, and nothing undated |
| `Balances.EveryExpenseCounts` | accounting.py:1234-1281 | Over all time every expense counts once, as a purchase or a charge in its own currency |
| `Balances.NothingAdjusted` | accounting.py:1345-1349 | The manual adjustment of a batch is nothing where no figure is the owner's or out of range |
| `Balances.BankBalance` | accounting.py:1234-1281 | Opening balance plus profits less expenses and charges, per currency |
| `Balances.BalanceIsOpeningPlusProfit` | accounting.py:1234-1386 | The balance exceeds opening plus the all-time net by exactly what batches with unreadable dates made |
| `Balances.Reconcile` | accounting.py:1234-1386 | With readable dates the bank balance is the opening balance plus the all-time net profit |
| `ZoneRepair.ZoneWriter.Upsert` | delivery.py:347-415 | For every table, row and learned shape: the row returned is taken by the table and keeps id and name; a repairable table always succeeds within the loop's bound; what is learned; a misfilled start fails at once |
| `ZoneRepair.ZoneWriter.SaveZone` | delivery.py:431-440 | The same for a zone's own columns and best guesses; what they say of the zone, `Zones.SavedReadsBack` proves |
| `Zones.SavedReadsBack` | delivery.py:54-80 | Round trip: on a table with the nine columns, whatever was repaired on the way, what validation let in reads back as it was if and only if its name was not cut at a space |
| `Zones.SaidReadsBack` | delivery.py:54-80 | On a narrower table every field reads back whose column there is, the fares if both are there; the others read as the defaults |
| `Zones.ValidatedIff` | delivery.py:214-242 | What validation lets in and as what: names, kinds and currencies normalised, fares in order, all else as sent |
| `Zones.DefaultsAndCapitals` | delivery.py:219-224 | A currency or kind left out counts as CFA or delivery, and capitals never matter |
| `Zones.ReadCanBeShown` | delivery.py:54-80 | Whatever a row holds, what is read of it has a known kind and currency and a range in order |
| `Zones.Save` | delivery.py:418-466 | Validation, the repairing save and the answer read back: refused with its fault and nothing learned, or on a repairable table the zone as it then reads |
| `Zones.CleanAgainIff` | delivery.py:33-37 | Cleaning a cleaned name changes nothing if and only if it does not end in a space |
| `Zones.CutNameReadsShorter` | delivery.py:33-37 | Counterexample: a space as the eightieth character is kept on the way in and lost on the way out |
| `Zones.GuessAgrees` | delivery.py:305-326 | The best guess for each of the editor's columns but the id is what the editor itself says of it |
| `ZoneRepair.WrongColumnIsLast` | delivery.py:398-411 | Attribution: on a repairable table every type error is the fault of the column last touched, and a constant is left to try on it |
| `ZoneRepair.RepairKeepsSound` | delivery.py:374-411 | Whatever the engine answers there is a repair, it keeps the loop's invariant and spends one attempt of the budget |
| `ZoneRepair.AcceptedLands` | delivery.py:366-371 | What the row and the shape hold on acceptance |
| `ZoneRepair.FreshWorkerSucceeds` | delivery.py:347-415 | Every table with id, name, fitting current columns and legacy columns taking a constant is satisfied while drops + 4 * legacy + 1 <= 26; four legacy columns always are |
| `ZoneRepair.RepeatSave` | delivery.py:350-371 | A repeated save is taken at its first attempt if and only if at most one column was retyped; otherwise it starts misfilled and fails |
| `ZoneRepair.TwoRetypedColumnsFailNext` | delivery.py:366-371 | Counterexample: two numeric legacy columns |
| `ZoneRepair.DroppedComesBack` | delivery.py:385-411 | A type error after a dropped column is put down to that column, which is sent again with a constant though the table lacks it |
| `ZoneRepair.ZoneWriter.Mend` | delivery.py:374-411 | One refusal turned into one repair of row and shape, or the reason to give up |
| `Paging.CartTable.IterDueCarts` | abandoned.py:158-202 | For any page size and pattern of failures the generator yields exactly the oldest min(limit, due) carts, each once, over a table its consumer shrinks |
| `Paging.RowsSplit` | abandoned.py:158-202 | The table after k carts: the failed ones in order, then those nobody has seen |
| `Paging.RowStep` | abandoned.py:184-196 | Each page row is either already seen or the next oldest |
| `Paging.PageDone` | abandoned.py:197-201 | The offset never passes an unseen cart |
| `Paging.CartTable.ServePage` | abandoned.py:184-196 | One page handed out |
| `Paging.ClampIs` | abandoned.py:166-173 | A limit or page size within its bounds is taken as it is, one beyond them as the nearest bound |
| `Reminders.EveryRunIsSafe` | abandoned.py:205-270 | In every interleaving of workers, shoppers, deletions, page reads and other machines whose fresh rows are for carts without a history: one claimant and one accepted mail a cart, claimed while unconverted |
| `Reminders.StepKeepsIff` | abandoned.py:235-270 | For every state and step the invariant survives if and only if the step writes no fresh row for a cart that is held, mailed or converted |
| `Reminders.MirroredRunsAreSafe` | abandoned.py:252-262 | With a mirror that works no page read brings back a mailed or ordered cart: one claimant and one accepted mail a cart, claimed while unordered, over any number of machines |
| `Reminders.MirrorKeepsIff` | abandoned.py:252-262 | For every state and step the remote table stays true to mails and orders, and the promises hold, if and only if the step mirrors well: accepted mails and orders reach the remote table, no worker dies in between, no due copy of a held cart is read, no mailed or held cart is deleted, no ordered cart is captured first |
| `Reminders.OfferedIff` | abandoned.py:83-114 | For every state and step, when the remote table offers a cart: an accepted mail, an order, a closing or a deletion withdraws it once mirrored, a mirrored capture or another machine's row brings it back |
| `Reminders.StaysWithdrawn` | abandoned.py:252-262 | What was withdrawn stays so over any run that neither captures it anew nor hears of it from elsewhere |
| `Reminders.DueIff` | abandoned.py:205-270 | For every state and step, when a cart is due on this machine |
| `Reminders.LocalRunsAreSafe` | abandoned.py:205-270 | On one machine without a remote copy, and without deletions, every run is safe in which no order is completed before its cart is first captured |
| `Reminders.LocalRunsAreSafeIff` | abandoned.py:120-133 | And in no others: the invariant holds after every step of such a run if and only if no capture comes late |
| `Reminders.LateCaptureIsClaimed` | api.py:2499-2507 | After every late capture the next idle worker to try claims a cart whose buyer has ordered |
| `Reminders.OrderBeforeCaptureIsClaimed` | abandoned.py:120-133 | Counterexample of three steps: an order, the capture of its cart, and a claim |
| `Reminders.FreshRowKeepsIff` | abandoned.py:88-114 | A fresh row, captured or merged, keeps the invariant if and only if its cart has no history |
| `Reminders.NewCartIsHarmlessIff` | abandoned.py:97-114 | A cart that is not in the table can be captured under the invariant if and only if its order is not completed |
| `Reminders.RefusalIsUndone` | abandoned.py:263-268 | A refused mail leaves the cart claimable again |
| `Reminders.PageReadClearsClaim` | abandoned.py:88-114 | Counterexample of ordinary steps: a page read between claim and success brings the unclaimed remote row back, and two workers mail the cart |
| `Reminders.PurgedCartIsMailedAgain` | api.py:5145-5163 | Counterexample: a mailed cart is deleted with its order, captured anew and mailed again |
| `Broadcast.NoRunRepeats` | api.py:8263-8379 | Across passes, restarts, cancellations and re-queues no address that took the mail is mailed again |
| `Broadcast.StepKeepsValidIff` | api.py:8340-8361 | For every state and step over distinct recipients the log stays true to the mails if and only if the step is no crash between a mail and its log entry |
| `Broadcast.FreshRunReaches` | api.py:8340-8379 | An uninterrupted run over N recipients attempts exactly N - floor(N/31) of them, which ones, and all of them if and only if N <= 30 |
| `Broadcast.WalkPulls` | api.py:8340-8366 | A full pass has pulled its budget, so the re-queue chain ends |
| `Broadcast.TestFirstReachesAll` | api.py:8340-8343 | With the budget tested before the pull every recipient is attempted once, in order |
| `Broadcast.CrashBeforeLogRepeats` | api.py:8348-8357 | Counterexample: a crash between mail and log |
| `Broadcast.Dispatcher.Dispatch` | api.py:8305-8379 | One pass: new status, log, mails and stream, for any cancellation point; a cancelled broadcast is left as it is |
| `Broadcast.Dispatcher.SendSome` | api.py:8340-8361 | The dispatch loop |
| `Broadcast.CancelledStays` | api.py:8320-8321 | After a cancellation nothing is mailed or logged, whatever runs or restarts, until it is queued anew |
| `Broadcast.PassUntilCancelled` | api.py:8340-8370 | A pass cancelled before its k-th attempt makes at most k; it ends cancelled, keeping no stream, if and only if it got that far; no pass exceeds its budget or takes back a mail |
| `Broadcast.FinishedByMails` | api.py:8284-8302 | A finished broadcast is sent if and only if every mailed address took one, failed if and only if there were mails and none was accepted, else partial |
| `Broadcast.ResumedPass` | api.py:8263-8271 | A walk begun anew tries, in order and up to its budget, exactly those who have not taken the mail yet |
| `Broadcast.RequeuedPass` | api.py:8263-8271 | So does a broadcast that was stopped, cancelled or not, once it is queued again |
| `Caches.LockedCacheIsFresh` | api.py:296-318 | Under every interleaving of any readers and writers a read that begins after an invalidation returned is never served an older snapshot, when the build holds the lock |
| `Caches.CheckedCacheIsFresh` | supabase_store.py:101-136 | The same for the cache that fetches outside its lock and checks the generation: a fetch overtaken by an invalidation is never stored |
| `Caches.QuietReadIsServed` | api.py:303-318 | A read that nothing disturbs is served what is cached, or else all the writes there are, which stay cached |
| `Caches.NextReadSeesWrite` | api.py:155-167 | Whoever writes and invalidates is seen by the next read, whatever was cached |
| `Caches.LockIsFreed` | api.py:303-318 | A build that is stored or given up frees the lock, and what is cached can expire then |
| `Layers.SnapshotIsFresh` | api.py:622-672 | The same for the catalogue snapshot built under its lock out of that read cache, when a writer invalidates the read cache first and the snapshot second, as the code does |
| `Layers.QuietReadIsServed` | api.py:632-660 | A read of the snapshot that nothing disturbs is served the snapshot, or else what is cached below, or else all the writes there are |
| `Layers.NextReadSeesWrite` | api.py:155-167 | Whoever writes and invalidates both caches is seen by the next read of the snapshot |
| `Layers.QuietReadBelow` | supabase_store.py:101-122 | A read of the cache below that nothing disturbs leaves all the writes there are in it |
| `Layers.LockIsFreed` | api.py:632-672 | A build of the snapshot that is given up frees the lock, and either cache can expire |
| `Layers.AboveFirstServesStale` | api.py:155-160 | Counterexample run for the other order of the two invalidations |
| `Caches.StepKeepsIff` | api.py:155-167 | For every design the cache invariant breaks exactly when a build is stored that an invalidation has overtaken |
| `Caches.ComputeOutsideServesStale` | api.py:533-573 | Counterexample run of the best-seller cache |
| `Categories.SavedInstalls` | api.py:321-381 | A reported success installs the menu in both stores and buries exactly the removed ids |
| `Categories.SavedIff` | api.py:321-381 | A save is reported as done if and only if both stores can be read, nothing buried returns, and every call it makes succeeds |
| `Categories.RestoredIff` | api.py:338-378 | A failed save counts as compensated if and only if it wrote nothing, or every call of the compensation succeeds and nothing it would put back was buried |
| `Categories.FailureBuriesNothing` | api.py:357-378 | A reported failure changes no tombstone unless the removal was committed and its answer lost |
| `Categories.FailureLeaves` | api.py:338-378 | What a failed save leaves in the details in every case, and in the table when its compensation cannot start |
| `Categories.CompensationRestores` | supabase_store.py:2404-2425 | A compensated failure restores details, ids, names and images; the table in full if and only if the save never reached it or changed no French name |
| `Categories.FrenchNameLeaks` | supabase_store.py:2404-2425 | Counterexample: a failed save leaves its French name behind |
| `Categories.LostAnswerBuries` | api.py:370-378 | Counterexample: an unconfirmed removal is reported as failed and is permanent |
| `Categories.SavedIsServed` | api.py:238-268 | What is saved is what is served |
| `Categories.SeedAdds` | category_seed.py:137-198 | A seed adds the wanted defaults and keeps every named row |
| `Categories.SeededIff` | category_seed.py:102-198 | A seed goes through if and only if it never did, both stores can be read, some default is wanted and every call it makes succeeds; the marker is set then, or when nothing is wanted |
| `Categories.SeedFailureLeaves` | supabase_store.py:2428-2470 | What a failed seed leaves: nothing, or the named rows written, and the nameless ones buried exactly if the removal was made too |
| `Categories.SeedFillsDetails` | category_seed.py:149-180 | The owner's own copy of an added default stays, the shipped one fills its gaps, table and details agree on it, and other details stay |
| `Categories.SeedBuriesNothingIff` | supabase_store.py:2428-2470 | A seed buries no row if and only if every live row has a name |
| `Categories.BuriedForGood` | hard_delete_categories.sql:18-38 | Over any run of saves and seeds with any failures, tombstones only grow and nothing buried is in the table or served |
| `Categories.CategoryStore.SaveCategories` | api.py:321-381 | The saga step by step, for every combination of failing calls |
| `Categories.CategoryStore.SeedMissingDefaults` | category_seed.py:102-198 | The boot seed, for every combination of failing calls |
| `Categories.CategoryStore.RestoreTable` | supabase_store.py:2404-2425 | The compensation of the table |

## Left out

- Stock.RunConserves: assumes clean steps, that is, that the write after each stock move succeeds, and that no decrement raises midway, because the code records the intended lines and not the applied ones, and that a release reaches the database and is answered; `Stock.StepConservesExactly` says for every other step that it does break the balance.
- Stock.Shop.ReserveStock: the product row is updated atomically as the database function does; the file-locked local backend and its error paths are not modelled separately, and edits of the catalogue by the owner between steps are left out.
- Handover.AcceptedCartReserves: assumes that no product of the catalogue has an empty id; and it speaks of the catalogue that the cart was checked against, so of no other shopper in between.
- Cart.CheckoutItems: stored option keys are taken to differ when folded, and not to fold to nothing; names, images and the splitting of a variant string into option names are inputs; spellings beyond plain letters and digits are not folded.
- Currency.RoundCfaIsLeastStep: binary floating point is replaced by exact reals, with the 1e-9 tolerance kept; the same holds for every price and rate of `Currency.dfy` and `Pricing.dfy`.
- Money.CfaRoundTrip: Decimals are exact rationals with half-up rounding; at the ledger's bounds the 28-digit context cannot change a whole or half-up result. Where it does show, in the order of the largest-remainder split, the quotients are modelled digit by digit.
- Allocation.AllocateAmount: covers at most sixty weights of at most 10^12, all that its callers pass; far beyond, 28 digits no longer separate the rests.
- LineItems.LineItemsForOrder: product names, variants, links and the parsing of stored text are left out; the catalogue's default cost of an item is an input.
- Balances.SalesSummary: a period is its two bounding days; deriving them from today's date is left out.
- ZoneRepair.ZoneWriter.Upsert: the engine reports an unknown column before a wrong type before a missing value, and every value sent is non-null; errors of any other kind end the loop and are left out.
- Zones.SaidReadsBack: the table's types see to it that a column holds values of its own kind; the check of the id's letters, blanks and capitals beyond the plain ones, and the local mirror of a zone are left out.
- Ledger.PushedFeesAddUp: the fee is the one in Naira; converting a fee that an older client entered in francs is left out.
- Paging.CartTable.IterDueCarts: only the consumer removes rows while the generator runs, and reading a page does not fail; a remote supplement of a page is left out.
- Reminders.EveryRunIsSafe: fresh rows must be for carts without a history, which the code does not see to, and the provider's answer is truthful; without the first a cart can be mailed twice, or though it is paid.
- Broadcast.NoRunRepeats: no crash between a mail and its log entry, and the recipients of one walk are a fixed list without repeats; without the first an address can be mailed twice.
- Caches.LockedCacheIsFresh: a cached value is known by the number of writes it is sure to contain, and all keys of the read cache are one; expiry is a step that may drop an entry at any time, and the best-seller badges inside a catalogue snapshot are only as fresh as their own cache.
- Categories.CategoryStore.SaveCategories: the menu has distinct non-blank ids and names, as the endpoint ensures; columns that a narrower table lacks and the order of rows are left out.
- Sales volumes, badges and the bytes of responses: derived data with no invariant of their own.
- The write of a payment proof, coupon uses, mail texts, audit rows and the mirrors to other stores: plain output.
- Routing, sessions, rate limits, admin rights and input cleaning: values arrive parsed.
- Supplier-cost edits on the order desk, restoring removed records and importing historical sales: they change what is staged, not what is archived.
