# Inventory and order ledger: a verified model

A multi-tenant store keeps products, purchase orders, sales orders, returns and an append-only stock ledger, and four
services move it. This project models those services in Dafny and proves what they keep between them: conservation
of stock and of value, the closed form of order totals, order life cycles, path-independence of returns, isolation of
tenants, and what survives when a call reads before its transaction. Beside the ledger it models the profit-and-loss
report, the supplier summary, the tenant client's filters, login lockout, refresh-token rotation and the store slug.

## How it is put together

- `Store` holds the rows; `Purchasing`, `Sales`, `Returns` and `Inventory` say what each call does to a state as a
  value. `Machine` makes them one state machine: `Step` and `Run` for atomic calls, `Next` and `Play` for
  interleavings in which a receipt or a return may be split into the read before its transaction and the commit.
- `Database` is the mutable store behind the Prisma client. `PurchaseService`, `SalesService`, `ReturnsService` and
  `InventoryService` are the services with their loops, updates in place and roll-backs; each method ends in exactly
  the state and the exception of its machine step.
- `Effects` describes each loop as a whole. The theorems are in `StockLedger`, `Orders`, `Totals`, `AverageCost`,
  `ValueConservation`, `LedgerRows`, `ReceiptCounts`, `ExactlyOnce`, `ReturnPaths`, `ReturnPlans`, `StaleReads`, `Outcomes`, `Isolation`, `BulkInputs`,
  `SupplierSummary`, `ProfitLoss`, `TenantView`, `Lockout`, `RefreshTokens` and `Slug`.

Money is in whole cents. A new average and the two totals a return decrements are computed exactly and then stored
with `Cents.ToCents`; everything else stays on the grid. Quantities are at least one and an adjustment is not zero,
as the request validators demand. Generated keys, clocks and random tokens are parameters of the calls.

## Where a stated property is false

Each entry names the input that breaks the property, the lemma that says exactly when it holds, and what that lemma
takes for granted.

- Book value is conserved by a receipt if and only if the order names no product twice and each line leaves a stock
  above zero, or the order is turned away whole: `OrderConservesIff`, for any products and any lines, over all prices.
  Averages are read once before the loop (`src/purchase/purchase.service.ts:45-54`), so a repeated product loses the
  price of its earlier line; and where no stock is left the price replaces the average
  (`src/purchase/purchase.service.ts:60-63`), which revalues what was owed. `NegativeOpeningBreaksBound` reaches the
  second case from the empty store: a bulk opening of -5, then two units at 100. The prices that break it are positive
  wherever the average is not negative.
- The stored average stays between the old average and the prices paid if and only if the last line for each product
  goes into stock that is not below zero, or leaves it not above zero, or the order is turned away whole:
  `ReceiptKeepsHullIff` for one line and `OrderKeepsHullIff` for an order, for any products, over all prices.
  `NegativeOpeningLeavesTheHull` reaches the other case from the empty store: a bulk opening of -1, then two units at
  100, and the average is 200.
- A return request that names a line twice, and two overlapping returns, can bring back more than was sold
  (`src/returns/returns.service.ts:40-53`). `CommitKeepsBoundIffFits`: a commit that succeeds, from a ticket that
  agrees with its order and where nothing is over-returned yet, keeps the bound if and only if its lines fit.
  `RepeatedLineOverReturns` and `OverlappingReturnsOverReturn` are the inputs.
- Two overlapping receipts of one order double the stock (`OverlappingReceiptsDoubleTheStock`).
  `CommitSettlesUnlessReceived`: a commit that succeeds, of a ticket that agrees with its order and where numbers are
  unique and the order settled, keeps it settled if and only if the order was not RECEIVED meanwhile.
  `PurchasesMoveStockPerReceipt` counts the rows of any interleaving.
- A tenant's calls are not blind to the other tenants: a purchase may name another tenant's product, since the foreign
  key asks only that the product exists (`src/purchase/purchase.service.ts:132-150`). `StepIsLocalUnlessForeign`, for
  generated keys that collide with no other tenant's row: what a call leaves of the tenant's rows depends on the tenant
  alone if and only if it is not a pending purchase with free keys whose products all exist but are not all the
  tenant's; what it raises, if and only if it is not such a purchase, pending or direct. `ForeignProductShows` reaches
  both cases one bulk input after the empty store.
- Stock can start below zero through bulk input. `StepKeepsStockNonNegative`: from non-negative stock, and for a batch
  whose generated keys are fresh and distinct, a call keeps stock non-negative if and only if it is not a bulk input
  creating a line below zero, such as the opening of -1 above.
- `README.md:455` says that cancelling a sale reverses stock; the code cancels PENDING orders only, and the model
  follows the code. `SaleCancellationOutcome`, for any state: cancelling gives back what an order took out if and only
  if the order is not COMPLETED or has no line, so a COMPLETED order with a line is the failing input.
- A CANCELLED purchase order is not out of play (`CancelledCanBeReceived`): `PurchaseCancellationOutcome` says that it can be received exactly when
  it could before it was cancelled, which is when all its products are the tenant's, and
  `CancelledPurchaseMovesIfReceived` counts the rows it then writes.
- The supplier summary counts PENDING and CANCELLED orders too. `EntryIsReceivedIff`, for any listing of orders and the
  groups the loops leave: an entry counts the received units alone if and only if no order that was not received names
  its product. `SpentIsReceivedIff`: the amount spent is too high by the totals of those orders, hence right if and only
  if each of them is free, where no total is negative. `CancelledOrderIsCounted` reaches it from the empty store: a
  product opened, ordered and the order cancelled, and the summary reports 200 spent and two units that never came.
- The average in exact arithmetic is not the batch average when the first receipt leaves no stock above zero, which
  takes stock below zero, say -5 and two units: `IncrementalIsBatchIff`, from every average. For the same reason the order of receipts and
  their division can then matter: `IncrementalPermutedIff` and `IncrementalSplit` say exactly when they do not.

## Model

| member | source | states |
|---|---|---|
| Cents.ToCents | prisma/schema.prisma:119-120 | A two-decimal column stores the nearest cent, and a grid amount unchanged. |
| Cents.TiesGoAwayFromZero | prisma/schema.prisma:119-120 | Half a cent is rounded away from zero on both sides. |
| Cents.ToCentsWithin | prisma/schema.prisma:119-120 | Rounding never leaves an interval whose ends are on the cent grid. |
| ValueConservation.ValueIsConserved | src/purchase/purchase.service.ts:50-84 | Over every interleaving whose receipts of the product put it on one line and into a stock above zero: stock at average cost = opening value + receipts at cost - COGS of direct sales + other movements at the current average, off by at most half a cent per unit in stock just after each receipt. |
| ValueConservation.NonNegativeBooksInFull | src/purchase/purchase.service.ts:60-63 | Where stock and bulk openings are not negative, naming the product once in each order is all that condition asks. |
| ValueConservation.ReceiptsMinusCogs | src/sales/sales.service.ts:60-99 | On such runs made of receipts and direct sales the value is opening + receipts - COGS, within the same bound. |
| ValueConservation.EventConserves | src/purchase/purchase.service.ts:58-84 | The one-event form of the bound, for each kind of event, on the same condition for that event. |
| ValueConservation.DirectSaleExplained | src/sales/sales.service.ts:60-67 | A direct sale lowers the value by exactly the COGS stored on its lines. |
| ValueConservation.RoundedReceipt | src/purchase/purchase.service.ts:58-63 | One line that leaves a stock above zero misstates the value by at most half a cent per unit now in stock, whatever the stock before. |
| ValueConservation.ReceiptConservesIff | src/purchase/purchase.service.ts:58-63 | One line keeps that bound at every price if and only if it leaves a stock above zero. |
| ValueConservation.OrderConservesIff | src/purchase/purchase.service.ts:44-63 | For any products and any lines the bound holds at every price if and only if no product repeats and every line leaves a stock above zero, or the order is turned away. |
| ValueConservation.NoStockBreaksBound | src/purchase/purchase.service.ts:60-63 | A line that leaves no stock above zero breaks the bound at the price one cent above the average. |
| ValueConservation.NegativeOpeningBreaksBound | src/purchase/purchase.service.ts:60-63 | From the empty store, a bulk opening of -5 and two units received at 100 leave a book value of -300 where 200 was paid. |
| ValueConservation.RepeatedProductBreaksBound | src/purchase/purchase.service.ts:45-54 | A repeated product: a price on the earlier line, which never reaches the average, breaks the bound. |
| AverageCost.IncrementalIsBatch | src/purchase/purchase.service.ts:58-63 | In exact arithmetic, from any stock that the first receipt carries above zero, the incremental average equals (a*s + sum cost*qty)/(s + sum qty). |
| AverageCost.IncrementalIsBatchIff | src/purchase/purchase.service.ts:60-63 | From every average, that form holds if and only if the first receipt leaves stock above zero. |
| AverageCost.IncrementalPermuted | src/purchase/purchase.service.ts:50-83 | The exact average does not depend on the order of receipts, if either order starts with one that leaves stock above zero. |
| AverageCost.IncrementalPermutedIff | src/purchase/purchase.service.ts:60-63 | From any stock, the order never matters at any prices if and only if there is at most one receipt, or each would alone leave stock above zero. |
| AverageCost.IncrementalSplit | src/purchase/purchase.service.ts:50-83 | From any stock and anywhere among other receipts, splitting one in two leaves the exact average alone if and only if the first part leaves stock above zero, or the whole leaves none, or the average was the price. |
| AverageCost.AverageStaysInHull | src/purchase/purchase.service.ts:58-63 | Over every interleaving and every rounding, the stored average stays in any interval holding the opening average and all prices received, if each receipt's last line for the product goes into stock not below zero or leaves it not above zero. |
| AverageCost.NonNegativeKeepsHull | src/sales/sales.service.ts:93-99 | Runs from non-negative stock without negative bulk openings meet that condition. |
| AverageCost.ReceiptKeepsHullIff | src/purchase/purchase.service.ts:58-63 | One line keeps the average between the old average and its price, at every price, if and only if the stock was not below zero or is not above zero after it. |
| AverageCost.OrderKeepsHullIff | src/purchase/purchase.service.ts:50-83 | The same for a whole order: exactly when every product stays within its old average and the prices paid, at every price. |
| AverageCost.NegativeOpeningLeavesTheHull | src/purchase/purchase.service.ts:60-63 | From the empty store, a bulk opening of -1 and two units received at 100 leave an average of 200. |
| AverageCost.NextMoves | src/purchase/purchase.service.ts:77-83 | Only a receipt moves an average, by the last line that names the product; identity columns never change. |
| Effects.ReceiveEffect | src/purchase/purchase.service.ts:37-85 | The receiving loop succeeds iff every product is the tenant's; stock grows by the summed quantity and the average is set from the pre-loop snapshot by the last line. |
| PurchaseService.Service.ProcessReceivedItems | src/purchase/purchase.service.ts:37-85 | The loop over the tables, rows and updates interleaved, refines that description. |
| PurchaseService.Service.AverageAfter | src/purchase/purchase.service.ts:53-63 | The service's computation of the new average is the weighted average, then stored in cents. |
| PurchaseService.Service.CreatePurchaseOrder | src/purchase/purchase.service.ts:87-127 | Refines the machine step, with roll-back on any failure and the same exception. |
| PurchaseService.Service.CreatePendingPurchaseOrder | src/purchase/purchase.service.ts:129-152 | Refines the machine step. |
| PurchaseService.Service.CommitReceipt | src/purchase/purchase.service.ts:171-188 | The transaction from a possibly stale read: all or nothing. |
| PurchaseService.Service.ReceivePurchaseOrder | src/purchase/purchase.service.ts:154-189 | Read and commit in one go refine the atomic step. |
| PurchaseService.Service.CancelPurchaseOrder | src/purchase/purchase.service.ts:328-363 | Refines the machine step: only PENDING is cancelled, with the two error cases. |
| Outcomes.DirectPurchaseOutcome | src/purchase/purchase.service.ts:87-127 | Exactly when a direct purchase commits, which error it raises otherwise, and the order, stock and averages it leaves. |
| Outcomes.PendingPurchaseOutcome | src/purchase/purchase.service.ts:129-152 | A pending purchase commits iff keys are free and products exist anywhere; it is receivable iff they are the tenant's. |
| Outcomes.ReceiptOutcome | src/purchase/purchase.service.ts:154-189 | Exactly when receiving succeeds, each error case, and what it leaves. |
| Outcomes.PurchaseCancellationOutcome | src/purchase/purchase.service.ts:165-169 | A cancelled purchase can be received exactly when it could before; only a PENDING one is cancelled. |
| Effects.StockOutSucceeds | src/sales/sales.service.ts:83-110 | Stock-out of a list, repeated products allowed, succeeds iff every product is the tenant's and covers its summed demand. |
| Effects.StockOutShift | src/sales/sales.service.ts:90-101 | On success each product loses exactly its summed demand and nothing else changes. |
| Outcomes.StockOutPermuted | src/sales/sales.service.ts:83-110 | Every permutation of the lines has the same outcome and leaves the same stock. |
| Effects.BuildItemsEffect | src/sales/sales.service.ts:38-81 | Pricing succeeds iff every product is the tenant's, and yields one item for each line at today's average. |
| Outcomes.DirectSaleOutcome | src/sales/sales.service.ts:136-165 | A direct sale commits exactly when its key is new, none of the tenant's orders has its number and stock covers the summed demand; its errors, the order it inserts item by item, and the stock it takes. |
| Outcomes.PendingSaleOutcome | src/sales/sales.service.ts:167-186 | A pending sale needs products of the tenant, a new key and a number none of the tenant's orders has; it looks at no stock and moves none. |
| Outcomes.NextSaleRefusedIffRepeated | prisma/schema.prisma:288 | After a committed sale, the next one of whatever tenant is refused for its keys iff it repeats the key of an order or the number of one of its tenant's, the one just made included. |
| Outcomes.CompletionOutcome | src/sales/sales.service.ts:188-222 | Completing commits iff the order is PENDING and covered; otherwise the whole state is unchanged. |
| Outcomes.SaleCancellationOutcome | src/sales/sales.service.ts:294-330 | Cancelling gives back what an order took out of stock iff it is not COMPLETED or has no line; only a PENDING order is cancelled. |
| SalesService.Service.BuildOrderItemsData | src/sales/sales.service.ts:38-81 | The pricing loop returns the items and the three totals as their sums. |
| SalesService.Service.ProcessStockOut | src/sales/sales.service.ts:83-134 | The guarded decrement loop and its OUT rows refine the specification. |
| SalesService.Service.CreateSalesOrder | src/sales/sales.service.ts:136-165 | Refines the machine step, rolled back as a whole on failure. |
| SalesService.Service.CreatePendingSalesOrder | src/sales/sales.service.ts:167-186 | Refines the machine step. |
| SalesService.Service.CompleteSalesOrder | src/sales/sales.service.ts:188-222 | Refines the machine step. |
| SalesService.Service.CancelSalesOrder | src/sales/sales.service.ts:294-330 | Refines the machine step. |
| Totals.TotalsKeepClosedForm | src/returns/returns.service.ts:111-130 | Through any interleaving of calls and half-calls every order keeps the closed form of its totals. |
| Totals.ReachableTotals | src/returns/returns.service.ts:111-130 | In every reachable state: totalCogs and totalProfit are the kept units at frozen rates, totalPrice = totalCogs + totalProfit + refunds, and cogs/quantity has no remainder. |
| Totals.PriceIsCogsPlusProfitPlusRefunds | src/sales/sales.service.ts:67-69 | Price = COGS + profit + all refunds, from the closed form. |
| Totals.PricedItemIsExact | src/returns/returns.service.ts:117-118 | Dividing the frozen cogs by the quantity gives back the average it was priced at, exactly. |
| Totals.ReversalIsWhole | src/returns/returns.service.ts:111-122 | The reversal loop, computed with quotients, adds up to whole cents. |
| Totals.MarkTakesBack | src/returns/returns.service.ts:87-91 | Marking lines returned lowers the kept amount at any frozen rate by what came back at that rate. |
| Totals.ReversedOrderSound | src/returns/returns.service.ts:111-130 | One return, from a stale read or not, leaves its order in closed form. |
| Totals.NewOrderSound | src/sales/sales.service.ts:49-80 | A new order starts in closed form. |
| StockLedger.LedgerDeterminesStock | src/inventory/inventory.service.ts:32-104 | Over every interleaving, replaying the rows a run wrote gives the change of stock plus exactly twice what negative ADJUSTMENT and manual RETURN took out, an amount the ambiguous rows bound; the ledger only grows. |
| StockLedger.StockFromLedger | src/inventory/inventory.service.ts:35-71 | From the empty store: the difference is even, between 0 and twice the ambiguous rows, and 0 without negative adjustments. |
| StockLedger.StepAccounted | src/inventory/inventory.service.ts:43-105 | The one-call form of the ledger relation, for every call. |
| StockLedger.StockStaysNonNegative | src/sales/sales.service.ts:93-99 | Stock never goes below zero over any interleaving with stale reads, given non-negative openings. |
| StockLedger.StepKeepsStockNonNegative | src/inventory/inventory.service.ts:155-166 | A call keeps stock non-negative if and only if it is not a bulk input creating a line below zero. |
| Orders.PlayAdvances | src/sales/sales.service.ts:294-318 | COMPLETED and CANCELLED are final for sales, RECEIVED for purchases, and everything frozen at creation stays, over every interleaving. |
| Orders.LateCompletionKeepsFrozenTotals | src/sales/sales.service.ts:188-221 | A pending sale completed after any run has the price, COGS and profit frozen at creation. |
| Orders.CancelledCanBeReceived | src/purchase/purchase.service.ts:165-176 | CANCELLED to RECEIVED is a real transition. |
| Orders.NextKeepsTickets | src/returns/returns.service.ts:21-36 | A read in flight keeps naming a COMPLETED order with the same frozen items. |
| ExactlyOnce.SalesMoveStockOnce | src/sales/sales.service.ts:111-121 | Over every interleaving, stale halves included, and beside manual rows, an order has one OUT row for each line iff it is COMPLETED. |
| ReceiptCounts.PurchasesMoveStockPerReceipt | src/purchase/purchase.service.ts:65-75 | Over every interleaving and beside manual rows, the IN rows written for an order are its lines times the number of its committed receipts; it is RECEIVED iff there was one; and there is one at most if receipts are not split. |
| ReceiptCounts.PurchasesMoveStockOnce | src/purchase/purchase.service.ts:154-189 | Where receipts are not split, beside manual rows an order has one IN row for each line iff it is RECEIVED. |
| ExactlyOnce.ReturnsMoveStockOnce | src/returns/returns.service.ts:98-108 | Over every interleaving and beside manual rows, a return has one RETURN row for each line. |
| ExactlyOnce.EveryOrderMovesStockOnce | src/purchase/purchase.service.ts:171-189 | Both order statements for every order reachable from the empty store by calls and half-calls. |
| ExactlyOnce.CancelledSaleNeverMoves | src/sales/sales.service.ts:294-330 | A cancelled sale stays exactly as it was cancelled and writes no row, whatever follows. |
| ReceiptCounts.CancelledPurchaseMovesIfReceived | src/purchase/purchase.service.ts:328-363 | A cancelled purchase stays CANCELLED unless it is received, and its rows are its lines times its receipts. |
| ReceiptCounts.CommitSettlesUnlessReceived | src/purchase/purchase.service.ts:155-189 | Committing a stale receipt keeps the exactly-once relation iff the order was not RECEIVED meanwhile. |
| StaleReads.OverlappingReceiptsDoubleTheStock | src/purchase/purchase.service.ts:155-189 | Two receipts that both read before either commits put the goods into stock twice. |
| StaleReads.SequentialReceiptIsTurnedAway | src/purchase/purchase.service.ts:165-169 | A second sequential receipt changes nothing. |
| StaleReads.OverlappingReturnsOverReturn | src/returns/returns.service.ts:21-133 | Two returns read before either commits bring back more than was sold. |
| StaleReads.RepeatedLineOverReturns | src/returns/returns.service.ts:40-53 | One request naming a line twice brings back more than was sold. |
| Machine.AtomicReceiveIsItsHalves | src/purchase/purchase.service.ts:154-189 | The atomic receipt is its read and its commit played back to back. |
| Machine.AtomicReturnIsItsHalves | src/returns/returns.service.ts:19-134 | The atomic return is its read and its commit played back to back. |
| ReturnPaths.ReturnsArePathIndependent | src/returns/returns.service.ts:40-130 | Two sequences of successful returns with the same total per line leave the same products, orders, totals and refunds. |
| ReturnPaths.NeverMoreThanSold | src/returns/returns.service.ts:40-53 | Requests that name no line twice never return more than was sold, over whole runs. |
| ReturnPaths.CommitKeepsBoundIffFits | src/returns/returns.service.ts:87-91 | A commit keeps returned <= sold iff its lines, added up, fit what is left at that moment. |
| ReturnPaths.FullReturnReversesTotals | src/returns/returns.service.ts:111-130 | Once every line is fully returned, COGS and profit are 0 and refunds equal the price. |
| ReturnPaths.FullReturnRestoresStock | src/returns/returns.service.ts:93-96 | A sequence of returns that takes one untouched order to fully returned leaves stock higher by all it sold. |
| ReturnPaths.ReturnsStayCounted | src/returns/returns.service.ts:73-109 | Over every interleaving, stale returns included: of each product, the returns of an order have put back exactly the units its lines say came back. |
| ReturnPaths.AllUnitsAreBackIff | src/returns/returns.service.ts:87-96 | In every reachable state, for an order with no line over-returned: its returns have put back all it sold of every product iff every line is fully returned. |
| ReturnPaths.CreateReturnEffect | src/returns/returns.service.ts:87-109 | One return adds each line's requested total to the line and the units to the line's product, nothing else. |
| Outcomes.ReturnOutcome | src/returns/returns.service.ts:26-53 | Exactly when a return commits and each error; a validated return never misses a row in its transaction. |
| ReturnPlans.PlanSucceedsIff | src/returns/returns.service.ts:26-67 | In a state whose order items name products of their tenant, a sequence of returns that names no line twice in one request goes through iff its orders are COMPLETED and the tenant's, its numbers free and different, and every line has left what the sequence asks of it in all. |
| ReturnPlans.SameTotalsSucceedTogether | src/returns/returns.service.ts:40-53 | Of two such sequences on COMPLETED orders with free numbers and the same total per line, both go through or neither. |
| Outcomes.ItemsStayStocked | src/sales/sales.service.ts:54-58 | Order items keep naming products of their own tenant, over every interleaving. |
| ReturnsService.Service.Validate | src/returns/returns.service.ts:37-65 | The validation loop accepts the checked lines and returns the sum of their refunds. |
| ReturnsService.Service.ReadAndValidate | src/returns/returns.service.ts:19-65 | Everything before the transaction. |
| ReturnsService.Service.PutBackLines | src/returns/returns.service.ts:87-109 | The first loop of the transaction: quantities, stock and RETURN rows, line by line. |
| ReturnsService.Service.Reversal | src/returns/returns.service.ts:111-122 | The second loop computes the two reversal sums. |
| ReturnsService.Service.ReverseTotals | src/returns/returns.service.ts:124-130 | The order's two totals are decremented and stored, or the update finds no row. |
| ReturnsService.Service.CommitReturn | src/returns/returns.service.ts:67-133 | The transaction from a possibly stale read: all or nothing. |
| ReturnsService.Service.CreateReturn | src/returns/returns.service.ts:19-134 | Refines the machine step. |
| Outcomes.AdjustmentOutcome | src/inventory/inventory.service.ts:32-105 | An adjustment commits iff the product is the tenant's and a decrease leaves stock at or above zero; stock moves by what was asked and one row holds the absolute quantity. |
| BulkInputs.BulkAccountsForLines | src/inventory/inventory.service.ts:121-170 | Each line is created or skipped with a warning unless a key collision ends the loop; what was created before it stays. |
| InventoryService.Service.AdjustStock | src/inventory/inventory.service.ts:18-106 | Direction choice, guarded decrement and row with the absolute quantity refine the machine step. |
| InventoryService.Service.AiProductInput | src/inventory/inventory.service.ts:108-171 | The bulk loop returns the created keys, skips and warnings of the specification, keeping what precedes an error. |
| BulkInputs.BulkIsSetUnion | src/inventory/inventory.service.ts:125-170 | The tenant's SKUs become the union with the batch, (tenant, SKU) stays unique, created + skipped = batch length. |
| BulkInputs.FirstOccurrenceWins | src/inventory/inventory.service.ts:126-133 | A line becomes a product iff its SKU is new and it is the first of that SKU. |
| BulkInputs.ResponseInBatchOrder | src/inventory/inventory.service.ts:118-170 | For any batch, key collisions included: created keys and skipped SKUs are answered in batch order, and a line ends the loop exactly if it creates under a key in use by then. |
| BulkInputs.CreatedProduct | src/inventory/inventory.service.ts:155-166 | A creating line leaves its SKU, its stock or 0, and no cost. |
| BulkInputs.BulkIsIdempotent | src/inventory/inventory.service.ts:125-170 | Running the same batch again creates nothing and skips everything. |
| BulkInputs.KnownBatchIsSkipped | src/inventory/inventory.service.ts:129-133 | A batch of known SKUs is skipped whole, with a warning for each line in order. |
| BulkInputs.BulkKeepsProducts | src/inventory/inventory.service.ts:125-168 | Existing products are untouched whatever the batch. |
| Isolation.RunIsProjection | src/sales/sales.service.ts:43-58 | What a tenant sees after an interleaved run over all tenants is the run of its own calls, if those use fresh keys and name no foreign product. |
| Isolation.PlayIsProjection | src/returns/returns.service.ts:21-67 | The same for interleavings with calls in flight: the tenant's rows and tickets are those of its own calls and half-calls. |
| Isolation.PlayRaisesProjection | src/returns/returns.service.ts:21-67 | And, where its purchases name no foreign product, its calls and half-calls raise what they would have raised alone. |
| Isolation.TenantsCommute | src/purchase/purchase.service.ts:45-48 | Calls of different tenants commute in every tenant's view. |
| Isolation.StepLeavesOthersAlone | src/returns/returns.service.ts:93-96 | No call changes what another tenant sees. |
| Isolation.StepIsLocalUnlessForeign | src/purchase/purchase.service.ts:87-152 | With generated keys that collide with no other tenant's row: what a call leaves of the tenant's rows depends on them alone iff it is not a pending purchase of a foreign product, and what it raises iff it is no such purchase, pending or direct. |
| Isolation.ForeignProductShows | src/purchase/purchase.service.ts:129-152 | One bulk input of another tenant is enough for both: another exception for the direct purchase, a stored order for the pending one. |
| TenantView.ReadReturnsExactly | src/prisma.extension.ts:3-53 | For any model by name, any filter and any client: the rows asked for, live unless the filter names deletedAt, of the tenant unless it names tenantId. |
| TenantView.ConditionsMean | src/prisma.extension.ts:127-147 | What a column condition asks: equality, inequality, membership, nothing for undefined, and null for a missing column. |
| TenantView.PlainReadSeesOwnLiveRows | src/prisma.extension.ts:3-53 | A filter naming neither key, on Product, Category, Supplier, SalesOrder, PurchaseOrder or TenantUser: exactly the tenant's live matching rows. |
| TenantView.PlainReadSeesOwnRows | src/prisma.extension.ts:14-53 | On SalesReturn or StockTransaction: exactly the tenant's matching rows. |
| TenantView.PlainReadSeesLiveRows | src/prisma.extension.ts:12-53 | On PlatformAdmin, PlatformUser or Tenant, or for a client without a tenant: exactly the live matching rows of all. |
| TenantView.EmptyFilterSeesOwnLiveRows | src/prisma.extension.ts:42-53 | With no filter at all: the orders read are the tenant's live ones, the returns read are the tenant's. |
| TenantView.NamedTenantIsKept | src/prisma.extension.ts:143-145 | A filter that names tenantId is taken at its word. |
| TenantView.AddFilterMatches | src/prisma.extension.ts:127-147 | Adding a key asks for one thing more, unless the caller named it; an undefined key counts as unnamed. |
| TenantView.ReadFilterIsIdempotent | src/prisma.extension.ts:149-162 | Filtering a filtered query changes nothing. |
| TenantView.Args.PrepareRead | src/prisma.extension.ts:44-48 | The two in-place rewrites of args.where leave the combined filter. |
| TenantView.Args.ApplySoftDelete | src/prisma.extension.ts:149-154 | Soft-delete models get the live-row filter, others are left alone. |
| TenantView.Args.ApplyTenantFilter | src/prisma.extension.ts:156-162 | Tenant models get the tenant filter unless the tenant id is empty. |
| Lockout.FailuresAreRateLimited | src/auth/auth.service.ts:160-182 | Failed comparisons number at most 5 + 5 per success + one for each half hour between first and last check. |
| Lockout.ExtraFailuresWait | src/auth/auth.service.ts:413-417 | From any account: each failure beyond the free ones waits out a lock. |
| Lockout.LockSoundAlways | src/auth/auth.service.ts:413-425 | lockedUntil is set iff the counter is at least 5, over every run. |
| Lockout.LoginOutcome | src/auth/auth.service.ts:160-182 | After every run of a new account: Blocked exactly while five or more wrong passwords count and half an hour has not passed since the last of them, otherwise a right password is Accepted and a wrong one Rejected; and what each does to the account. |
| Lockout.ColumnsSayWhatCounts | src/auth/auth.service.ts:413-425 | After every run the counter is the number of wrong passwords that count, and from the fifth on lockedUntil is half an hour after the last. |
| Lockout.SuccessStartsAfresh | src/auth/auth.service.ts:177-182 | After an accepted login the account goes on as a new one. |
| Lockout.RightAfterFewWrong | src/auth/auth.service.ts:170-182 | Fewer than five wrong passwords in a row: the right one is Accepted and the account is as new. |
| Lockout.FiveWrongLockHalfAnHour | src/auth/auth.service.ts:400-425 | After five in a row, every login checked within half an hour of the fifth is Blocked and leaves the account alone; from then on a right password is Accepted and a wrong one Rejected. |
| Lockout.AcceptedOnlyWithRightPassword | src/auth/auth.service.ts:170-175 | From any account and after any run: Accepted only with the right password, Rejected only with a wrong one. |
| Lockout.TenantUser.TryLogin | src/auth/auth.service.ts:160-182 | The row update: which login is blocked, accepted or rejected, and the two columns after each. |
| Lockout.TenantUser.IncrementFailedAttempts | src/auth/auth.service.ts:405-425 | Counter and lock after a failure. |
| RefreshTokens.AcceptedAtMostOnce | src/auth/auth.service.ts:222-245 | A token is accepted at most once in any sequential run. |
| RefreshTokens.LogoutEndsAllTokens | src/auth/auth.service.ts:387-394 | A token that has a row of the user at logout, live or rotated, is never accepted after it. |
| RefreshTokens.IssuedTokenEndsWithLogout | src/auth/auth.service.ts:387-394 | A token issued before its user's logout is not accepted after it, whatever happens between. |
| RefreshTokens.IssuedIsGoodUntilExpiry | src/auth/auth.service.ts:195-206 | With an injective hash and a fresh draw: an issued token that is left alone, its user not logged out and nobody refreshing with it in time, is accepted up to the expiry it was issued with and not after, over every run between. |
| RefreshTokens.RotatedIsGoodUntilExpiry | src/auth/auth.service.ts:257-269 | The same for the token a refresh draws: its own expiry, not that of the token it replaces, and the same user. |
| RefreshTokens.OnlyIssuedTokensAreAccepted | src/auth/auth.service.ts:222-232 | With an injective hash, only tokens the table knew or the run drew are accepted. |
| RefreshTokens.LiveTokensAreLoginsSinceLogout | src/auth/auth.service.ts:195-206 | Unrevoked tokens number the issuing calls since the last logout; a refresh conserves the count. |
| RefreshTokens.CollisionLosesAToken | src/auth/auth.service.ts:242-269 | The rotation is no transaction: on a collision the old token is gone and none replaces it. |
| RefreshTokens.TokenStore.RefreshAccessToken | src/auth/auth.service.ts:222-275 | The table after each outcome, the new row with its own expiry, and exactly when each refusal is returned: unknown, revoked, expired, or the new token collides. |
| RefreshTokens.TokenStore.LogoutUser | src/auth/auth.service.ts:387-398 | All unrevoked tokens of the user are revoked, no others. |
| Slug.SlugIsJoinedRuns | src/auth/auth.service.ts:83-86 | Lower-case, collapse and trim equal the maximal [a-z0-9] runs joined by single dashes. |
| Slug.SlugHasWordEnds | src/auth/auth.service.ts:83-86 | A slug never starts or ends with a dash. |
| Slug.SlugSpelling | src/auth/auth.service.ts:83-86 | A slug is spelled with a-z, 0-9 and single dashes between them. |
| Slug.PlainNameIsItsSlug | src/auth/auth.service.ts:83-86 | A name of a-z and 0-9 alone is its own slug. |
| Slug.TwoWordsJoinedByADash | src/auth/auth.service.ts:83-86 | Two such words with any other characters between them are joined by one dash. |
| Slug.SlugIsIdempotent | src/auth/auth.service.ts:287-290 | The slug of a slug is itself. |
| Slug.SlugsCollideIffRunsEqual | src/auth/auth.service.ts:287-296 | Two names collide exactly when their run sequences are equal. |
| ProfitLoss.RevenueAgreesWithLedger | src/reports/reports.service.ts:67-76 | For every sound state and date filter: revenue = COGS + profit + every refund against the selected orders. |
| ProfitLoss.RefundsByOrder | src/reports/reports.service.ts:67-76 | Refunds summed by order equal refunds summed over the returns table. |
| ProfitLoss.Service.GetProfitLoss | src/reports/reports.service.ts:58-88 | The rows written out: the tenant's COMPLETED orders of the period; in sound states revenue is the price of their lines, COGS and profit the kept units at frozen cost and margin; the two ratios; and the agreement with the returns table. |
| ProfitLoss.Service.FindCompleted | src/reports/reports.service.ts:58-72 | The rows of the query: each COMPLETED order of the tenant made from the start on and up to the end, both included, once. |
| ProfitLoss.PeriodsAddUp | src/reports/reports.service.ts:60-76 | The report of a period is the sum of those of its parts, up to an instant and from the next on: counts and every total. |
| ProfitLoss.TotalsOfKeptUnits | src/reports/reports.service.ts:74-76 | The three totals of a list of orders of a sound state, from their lines. |
| SupplierSummary.SpentIsSumOfGroups | src/purchase/purchase.service.ts:294-324 | The total spent equals the sum of the grouped totals. |
| SupplierSummary.GroupProducts | src/purchase/purchase.service.ts:300-313 | The nested loops leave one entry for each product, in the order of first mention, with its summed quantity and cost over all lines. |
| SupplierSummary.PlayKeepsPriced | src/purchase/purchase.service.ts:30-35 | Every stored order total is the sum of its lines, over every interleaving. |
| SupplierSummary.EntryIsReceivedIff | src/purchase/purchase.service.ts:300-313 | An entry counts the received units alone iff no order that was not received names its product; its total is too high by what those orders cost. |
| SupplierSummary.SpentIsReceivedIff | src/purchase/purchase.service.ts:292-298 | The amount spent is the received amount plus the totals of the orders not received, and where no total is negative it is the received amount iff each of those is nil. |
| SupplierSummary.CancelledOrderIsCounted | src/purchase/purchase.service.ts:277-325 | From the empty store, a product opened, ordered and cancelled: no stock, no ledger row, and a summary of 200 spent and two units. |
| SupplierSummary.Service.FindOrders | src/purchase/purchase.service.ts:278-289 | The rows of the query: each order of the supplier in the tenant, once. |
| SupplierSummary.Service.GetSupplierPurchaseSummary | src/purchase/purchase.service.ts:277-325 | Count, total spent and groups over exactly the supplier's orders of the tenant; the two totals agree, and each entry counts received units alone iff no unreceived order names its product. |

## Left out

- Prices off the cent grid: an input price with more than two decimals would be rounded on storage after its totals were computed; the model takes prices on the grid.
- The 20-digit precision of the decimal library: division is exact, then stored with one rounding.
- 32-bit limits of stock and 12-digit limits of money columns.
- Database isolation below the transaction: a transaction is one step; the reads before the transactions of receiving and returning are the only splits.
- Suppliers and users as rows: supplier keys are opaque and their foreign keys are taken to hold; notes, customers and acting users are not stored.
- Soft deletion of products and orders in the ledger: no ledger service sets it, stock updates ignore it, and only tenant removal marks orders. The filter itself is in `TenantView`.
- Keys of order items: an order item is named by its position in its order; a key of another order is an out-of-range position.
- Product creation and update outside bulk input, including setting stock by PATCH without a ledger row; categories and suppliers that bulk input creates on the way.
- Bulk input prices that do not parse, which end the loop like the modelled key collision.
- The `delete` rewriting of the tenant client, its unfiltered `findUnique`, and its write paths other than the tenant filter.
- Password hashing, JWT, Google sign-in and SHA-256: a comparison result is an input and the hash is an injective function.
- Two interleaved logins, or two interleaved refreshes: those runs are sequential.
- Unicode lower-casing: `SlugOf` takes it as a parameter; idempotence asks that it leaves `[a-z0-9-]` strings alone.
- CSV exports, the plain sales and inventory reports, the dashboard, pagination and logging: plumbing over the same rows.
- Floating-point conversion of report sums: sums are exact.
