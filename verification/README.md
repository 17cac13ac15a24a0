# The shop's transactional core

This project models the hard parts of a Go shop backend and proves what the code's comments and tests promise about
them. The tables are values (`Tables.Db`); every committed transaction of the backend is a function from tables to
tables and a reply; a class (`Database`, with one repository class per package) runs the same transactions by updating
its fields in place, loops included, and each of its methods is proved equal to its function. Lemmas then speak about
single transactions, about whole runs of them in any order with any arguments, and about the handlers that talk to a
payment provider between transactions.

| modules | what they model |
|---|---|
| `Basics`, `SortedLists`, `Statuses`, `Tables`, `Pricing`, `EventKeys` | vocabulary: sums, sorted lists, rows, state machines, int64 money, idempotency keys |
| `Orders`, `Payments`, `Refunds`, `Catalog`, `CartMerge`, `Recovery` | the transactions as functions |
| `Database`, `OrderRepository`, `PaymentRepository`, `RefundRepository`, `CartRepository` | the transactions as they update the tables |
| `Outcomes`, `PaymentOutcomes`, `ExpiryOutcomes`, `CatalogOutcomes`, `RefundOutcomes` | when each transaction succeeds, why it is refused otherwise and what exactly it writes, told by the columns alone |
| `Shop`, `PaymentInvariant`, `StockInvariant`, `LedgerInvariant`, `OutboxInvariant`, `ShopInvariant` | the 25 transactions as one transition system and its inductive invariant |
| `Evolution`, `OutboxHistory`, `ShopTheorems`, `CouponLimits` | what holds over whole runs |
| `Processes`, `ProcessInvariant`, `ProcessTheorems` | payment requests, callbacks, reconciliation, the sweep over abandoned attempts and refunds as processes with a program counter that interleave, fail and crash anywhere |
| `ProcessOutcomes` | the run each handler makes when nothing interferes: whom it asks, what it writes |
| `DirectRefunds` | what follows from the one handler that creates refunds |
| `RateLimit` | the token-bucket limiter with eviction |
| `SqlScanner`, `MigrationFiles`, `MigrationRunner`, `MigrationReplay` | loading, scanning, applying and re-applying migrations |
| `SqlScannerOutcomes`, `MigrationOutcomes` | reading back what was written, versions told by file names, and the run that meets no obstacle |
| `OutboxLease`, `OutboxOutcomes` | claiming, delivering and retrying notifications |
| `JsonDecoder`, `ProviderResponse`, `ResponseOutcomes` | the strict decoder, the checks on a provider's answer, and exactly which answers are believed |

Verify everything with `dafny verify dfyconfig.toml`.

## How to read it

* A row's id is its index; a table that never loses rows is a sequence. `redemptions[o]` is the redemption of order `o`.
* A transaction is atomic and transactions are serial: the code locks the order, user, product, coupon or refund row
  first. The one query that reads before it locks, the reservation expiry, gets the older attempts table it saw as an
  argument (`seen`), so its re-check under the lock is really needed.
* The schema's uniqueness constraints and CHECKs that a transaction can run into are branches of it (a second row for
  an authority, a refund amount of zero, an INTEGER overflow, a negative stock or price); `DatabaseError` is their reply.
* `Reachable(db)` means that some sequence of transactions leads from the empty shop to `db`. Clocks, dates, ids picked
  by queries, row locks held elsewhere and all provider answers are arguments, so nothing is assumed about them.
* `ReachedSystem(sys)` is the same for the system of processes: any number of concurrent handler calls, each committed
  transaction, read or provider call being one event, with errors and crashes between any two, and all other traffic of
  the shop in between. Its log lists the calls that reached a provider and the answers that sent a customer there.

## Findings

* `FinalizeVerifiedPayment` re-checks a dozen conditions; of these only two can decide (`VerifiedOutcome`), and both
  rows-affected guards are unreachable.
* An attempt is marked failed only while it has no authority, so no code path ever writes a payment-failed
  notification, and the order's payment status `failed` is never set at all.
* No refund can be created: the one handler that creates them (backend/internal/refund/handler.go:185) passes amount 0,
  which the amount CHECK refuses (`DirectRefundIsRefused`), and backend/internal/refund/repository.go:104 is the only
  INSERT. As shipped, no refund row ever exists, no order and no return is ever refunded and the provider is never asked
  to pay out (`NoRefundEverExists`, `RefundProviderIsNeverCalled`). The other refund theorems allow any amount and
  return, so they hold for a handler that passes the right one; `CreateRefundOutcome` says exactly when it succeeds.
* Editing a coupon checks its new limits against nothing: an edit below the number of live orders that use the coupon is
  accepted and leaves the limit exceeded (`LoweringALimitBreaksIt`). It is the only way to exceed one
  (`LimitsHoldExactlyWhenEditsFit`).
* A client refused because the limiter's table is full can wait the returned Retry-After and be refused again: any other
  request may start a cleanup meanwhile, and the next one is then a whole window away (`ObedientClientRefused`). The
  wait is enough if and only if the table then has room (`RetryAfterIsExact`), as it has when nobody asks meanwhile
  (`QuietWaitIsEnough`). A wait for tokens shorter than the window is exact whatever the others do
  (`RetryAfterIsExactWithinTheWindow`).
* One comment (backend/internal/payment/maintenance.go:8) says that an issued authority is never released on a timeout or
  an ambiguous response. That holds of stored authorities (`UndeniedSessionsHoldTheirOrder`), the only ones a customer is
  sent to the provider with (`RedirectedCustomersHoldTheirOrder`). One that was issued but could not be stored blocks
  exactly while its attempt is pending (`UnstoredSessionsHoldWhilePending`), and the sweep then marks the attempt failed
  without asking (`AnUnstoredSessionIsReleased`).
* A percent discount whose product overflows an int64 wraps; then even two halves of an order can get more than the whole,
  which gets nothing (`SplittingNeverIncreasesPercentDiscount`).
* `COALESCE` keeps a rejection code across later uncertain checks, so the sweep also asks for the latest outcome.
* The retry comment (backend/internal/notification/workers.go:172) lists 2, 4, 8 seconds; the code waits 1, 2, 4.
* One comment (backend/internal/order/model.go:21-22) gives the total as subtotal plus shipping; the code subtracts the
  discount first, as another comment (line 55) says, and the model follows the code.
* A guest-cart merge leaves an existing cart row alone when its product is out of stock, instead of clamping it to 0.
* An order paid online is always recorded as paid through the gateway, so a manual order is never paid or refunded here.

## Model

| member | source | states |
|---|---|---|
| `Pricing.WrapIsIdentityExactlyInRange` | backend/internal/order/repository.go:148-151 | int64 wrap-around keeps a value if and only if it is in range |
| `Pricing.DiscountWithinSubtotal` | backend/internal/coupon/model.go:239-261 | no coupon of any type or value, even on overflow, discounts less than 0 or more than the items cost |
| `Pricing.PercentDiscountIsFloorExactlyWithoutOverflow` | backend/internal/coupon/model.go:244-248 | a percent discount is the exact floor of subtotal·percent/100 if and only if the product fits an int64 |
| `Pricing.SplittingNeverIncreasesPercentDiscount` | backend/internal/coupon/model.go:239-261 | for two orders whose products with the percentage fit an int64, splitting never increases the percent discount if and only if the product of the whole fits as well; beyond that the whole gets no discount |
| `Pricing.SecondFeeLookupSucceeds` | backend/internal/order/repository.go:83-88 | the fee look-up whose second result checkout ignores (line 182) cannot fail once the first has succeeded, and yields 0 or a configured fee |
| `Pricing.SubtotalIsExactModulo64Bits` | backend/internal/order/repository.go:148-151 | the running int64 sum is the true subtotal modulo 2^64, whatever overflows on the way |
| `Pricing.TotalIsExactExactlyWhenItFits` | backend/internal/order/repository.go:182-183 | the persisted total is subtotal − discount + fee exactly when that amount fits an int64 |
| `Pricing.ComputeSubtotal` | backend/internal/order/repository.go:148-151 | the accumulation loop computes the wrapped sum of price times quantity |
| `EventKeys.DecimalRoundTrip` | backend/internal/notification/model.go:80-102 | reading a printed id back gives the id, and a printed id has no colon |
| `EventKeys.KeyIsInjective` | backend/internal/notification/model.go:80-102 | two notifications with the same idempotency key are the same notification, across all families, ids and events |
| `EventKeys.KeysInFull` | backend/internal/notification/model.go:80-102 | the text of each order and reset key |
| `Outcomes.CancellationOutcome` | backend/internal/order/repository.go:548-693 | admin and owner can cancel exactly the pending orders without a blocking attempt and the processing orders without online payment (as long as no stock column overflows); both change the tables alike - every ordered unit back on its shelf, the redemption released, the status - and a second cancellation is refused and changes nothing |
| `Outcomes.CancellableMeansUnblocked` | backend/internal/order/repository.go:707-721 | the checks before a cancellation come down to: pending and unblocked, or processing and manual |
| `Outcomes.CancelOrderCancels` | backend/internal/order/repository.go:729-767 | a cancellation returns each product's ordered quantity exactly, releases only this order's redemption and touches nothing else |
| `Outcomes.AttemptOutcome` | backend/internal/payment/repository.go:109-160 | a session opens exactly for one's own pending order of a payable amount through a configured gateway when every earlier attempt of the order is expired or failed without an authority; the payment-status test adds nothing to that |
| `Outcomes.CheckoutOutcome` | backend/internal/order/repository.go:82-183 | a checkout is accepted exactly when the shipping method is priced, the cart is non-empty, every cart row is in stock and in date, digital delivery is only for education, the coupon is usable and has room, and the row constraints hold |
| `Outcomes.CheckoutEffect` | backend/internal/order/repository.go:151-244 | an accepted checkout takes each cart quantity out of stock, makes it the order's lines at the shelf prices, prices the order by the coupon its code names and the fee of its shipping method, redeems that coupon and empties this user's cart only; a refused one changes nothing |
| `Outcomes.CheckoutLinesAreTheCart` | backend/internal/order/repository.go:101-119 | the checkout rows are the cart, one line per product |
| `Outcomes.CreateRefundOutcome` | backend/internal/refund/repository.go:68-132 | a refund is created exactly for an order with a paid attempt that has no refund of any status, over a positive amount and an existing return if it names one; it starts pending and changes nothing else |
| `Outcomes.CheckoutFee` | backend/internal/order/shipping_config.go:40-52 | an all-education cart ships free; otherwise express costs the express fee, and standard the standard fee unless the threshold is positive and the discounted goods reach it |
| `Outcomes.CheckoutDiscount` | backend/internal/coupon/model.go:239-261 | a fixed coupon takes off the smaller of its value and the subtotal, a percent coupon its floor while the product fits an int64, and no coupon nothing |
| `Outcomes.EligibilityReasons` | backend/internal/coupon/model.go:289-312 | the reason against a coupon is the first that applies: inactive, not started, expired, minimum not met, misconfigured |
| `Outcomes.CheckoutRefusals` | backend/internal/order/repository.go:82-141 | the refusals before the coupon, in order: shipping method, empty cart, stock or date, digital delivery of goods |
| `Outcomes.CouponRefusals` | backend/internal/coupon/repository.go:141-180 | then: unknown code, a reason against the coupon, its usage limit, the customer's limit; a usable coupon is never refused |
| `Outcomes.OrdinaryAmountsAreAccepted` | backend/internal/order/repository.go:185-196 | with prices and fees not negative and goods plus fee within an int64, the order row's own constraints never refuse a checkout |
| `Outcomes.FulfilmentOutcome` | backend/internal/order/repository.go:548-632 | an order goes forward exactly one step at a time and, when paid online, only while its payment is there; the reason of each refusal |
| `Outcomes.CancellationRefusals` | backend/internal/order/repository.go:590-693 | exactly why an admin (status first) or an owner (payment first) is refused a cancellation |
| `PaymentOutcomes.AttemptEffect` | backend/internal/payment/repository.go:148-158 | an opened attempt is for the order's total in IRR, bound to the gateway's account, pending, without authority, reference or code, and makes the order an online one |
| `PaymentOutcomes.AttemptRefusals` | backend/internal/payment/repository.go:109-147 | why no session is opened, the first reason that applies: order, paid, payable, gateway, session in progress |
| `PaymentOutcomes.SetAuthorityOutcome` | backend/internal/payment/repository.go:162-189 | an authority is stored exactly when it is 1 to 64 letters and digits no other attempt carries and the attempt is pending, of this gateway and without another one |
| `PaymentOutcomes.MarkFailedOutcome` | backend/internal/payment/repository.go:191-218 | an attempt is marked failed, with the code, exactly when it is pending, of this gateway and without an authority |
| `PaymentOutcomes.ConfirmedOutcome` | backend/internal/payment/repository.go:318-392 | a confirmed payment of a pending attempt with a new reference pays attempt and order; of any other open attempt it goes to reconciliation; all columns |
| `PaymentOutcomes.VerdictOnAnyTables` | backend/internal/payment/repository.go:346-381 | on any tables, reachable or not, a confirmation settles exactly when every check of status, payment, amounts, currencies and other paid attempts agrees |
| `PaymentOutcomes.UselessConfirmation` | backend/internal/payment/repository.go:318-337 | a repeated, mismatched or malformed confirmation changes nothing and says why |
| `PaymentOutcomes.RejectedOutcome` | backend/internal/payment/repository.go:493-538 | a reported code is recorded as a definitive rejection, a missing one leaves the earlier code and an uncertain outcome; status, order and all other rows stay |
| `PaymentOutcomes.UselessRejection` | backend/internal/payment/repository.go:493-509 | a rejection of an unknown, foreign or verified attempt changes nothing and says why |
| `PaymentOutcomes.ExpiryOutcome` | backend/internal/payment/maintenance.go:52-69 | an attempt is expired exactly when it is unverified, of this gateway, not created after the cut-off and has -51 recorded, while its order is pending and not paid |
| `PaymentOutcomes.RejectedSessionIsReleased` | backend/internal/payment/maintenance.go:8-69 | after a reported -51 the pending session of an order can be expired from its creation time on, and then nothing blocks the order, unless a late success of an earlier session waits for reconciliation |
| `ExpiryOutcomes.ExpiryOutcome` | backend/internal/order/expiry.go:11-61 | in an accepted run exactly the pending, unsettled orders created before the cut-off, not locked, unblocked in the table the query saw and under the lock, are cancelled, unless twenty with smaller ids met the query; everything else about the orders stays |
| `ExpiryOutcomes.ExpiryCounts` | backend/internal/order/expiry.go:53-61 | the count an expiry run returns is the number of orders it cancelled |
| `ExpiryOutcomes.ExpiryIsAccepted` | backend/internal/order/expiry.go:35-61 | an expiry run is accepted whenever stock and reservations of every product together fit the stock column |
| `PaymentInvariant.SettledExactlyWhenOnePaidAttempt` | backend/internal/payment/repository.go:318-392 | an order is paid or refunded exactly when it has a paid attempt, and then only one |
| `PaymentInvariant.CancelledOrderIsClosed` | backend/internal/order/repository.go:707-721 | a cancelled order is neither paid nor refunded and has no pending or paid attempt |
| `PaymentInvariant.VerifiedOutcome` | backend/internal/payment/repository.go:353-381 | a verified payment settles its order if and only if the attempt is still pending and no paid attempt has the same provider reference, otherwise it goes to reconciliation; neither rows-affected guard ever fires, and an open attempt that is not pending is expired |
| `PaymentInvariant.CreateAttemptKeeps` | backend/internal/payment/repository.go:132-158 | opening an attempt keeps attempts compatible: one live attempt per order, unique authorities and references |
| `PaymentInvariant.SetAuthorityKeeps` | backend/internal/payment/repository.go:162-189 | storing an authority keeps authorities unique and bound to one attempt |
| `PaymentInvariant.MarkAttemptFailedKeeps` | backend/internal/payment/repository.go:191-218 | failing an attempt keeps the payment invariant; a failed attempt never has an authority |
| `PaymentInvariant.RecordVerifiedKeeps` | backend/internal/payment/repository.go:346-381 | recording a verification keeps settlement unique |
| `PaymentInvariant.FinalizeVerifiedKeeps` | backend/internal/payment/repository.go:318-392 | the whole verification transaction keeps settlement unique |
| `PaymentInvariant.FinalizeFailedKeeps` | backend/internal/payment/repository.go:493-538 | recording a rejected or uncertain check keeps the payment invariant |
| `PaymentInvariant.ExpireRejectedKeeps` | backend/internal/payment/maintenance.go:52-69 | expiring an attempt keeps the payment invariant |
| `PaymentInvariant.StatusChangeKeeps` | backend/internal/order/repository.go:564-619 | every permitted order status change keeps the payment invariant |
| `PaymentInvariant.SettlingKeeps` | backend/internal/payment/repository.go:353-381 | a pending attempt becoming paid together with its order keeps the invariant |
| `PaymentInvariant.RefundingKeeps` | backend/internal/refund/repository.go:248-257 | a paid order becoming refunded stays settled |
| `StockInvariant.CartLinesMatchCart` | backend/internal/order/repository.go:101-119 | per product, the checkout lines ask for exactly what the cart holds |
| `StockInvariant.CartLinesComeFromCart` | backend/internal/order/repository.go:101-119 | every checkout line is a cart row at the shelf price, and no product has two lines |
| `StockInvariant.AcceptedCheckoutLeavesStockNonNegative` | backend/internal/order/repository.go:130-134 | because a cart has one row per product, checking row by row keeps stock non-negative |
| `StockInvariant.CancellingKeeps` | backend/internal/order/repository.go:729-767 | restoring an order's stock keeps stock conserved |
| `StockInvariant.PlacingKeeps` | backend/internal/order/repository.go:223-239 | taking an order's lines out of stock keeps stock conserved |
| `StockInvariant.LoggedChangeKeeps` | backend/internal/admin/repository.go:178-199 | a stock change logged with its difference keeps stock conserved |
| `StockInvariant.AdjustStockKeeps` | backend/internal/admin/repository.go:150-209 | an admin adjustment keeps stock conserved and non-negative |
| `StockInvariant.UpdateProductKeeps` | backend/internal/product/repository.go:214-275 | a product edit that changes stock logs it, so stock stays conserved |
| `StockInvariant.CreateProductKeeps` | backend/internal/product/repository.go:171-191 | a new product starts conserved: nothing held, nothing logged |
| `LedgerInvariant.ActiveRedemptionsAreLiveOrders` | backend/internal/coupon/repository.go:81-100 | the two redemption counts are the numbers of live orders that use the coupon, in all and per customer |
| `LedgerInvariant.CouponCancelKeeps` | backend/internal/coupon/repository.go:123-133 | a redemption is unreleased exactly while its order is not cancelled |
| `LedgerInvariant.RefundedExactlyWhenARefundSucceeded` | backend/internal/refund/repository.go:248-257 | an order is refunded exactly when one of its refunds succeeded |
| `LedgerInvariant.RefundPrecheckIsImplied` | backend/internal/refund/repository.go:38-64 | the unlocked eligibility check refuses nothing that the payment check under the lock would let through |
| `LedgerInvariant.RefundMoveKeeps` | backend/internal/refund/repository.go:187-257 | a refund's status change and the order's payment status stay coupled |
| `LedgerInvariant.CreateRefundKeeps` | backend/internal/refund/repository.go:68-132 | creating a refund keeps one refund per order, on a settled order |
| `LedgerInvariant.CreateReturnKeeps` | backend/internal/return/repository.go:77-124 | a return belongs to a delivered, settled order of the same customer, and an order has one return |
| `LedgerInvariant.UpdateReturnKeeps` | backend/internal/return/repository.go:276-302 | a return becomes refunded only with a succeeded refund |
| `OutboxInvariant.EnqueueAdds` | backend/internal/notification/repository.go:22-37 | enqueueing adds exactly one key, and only with notifications configured |
| `OutboxInvariant.EnqueueKeeps` | backend/internal/notification/order_events.go:8-56 | a transaction that enqueues exactly what its change makes happen keeps the outbox complete |
| `OutboxInvariant.ExactlyOneRow` | backend/internal/notification/repository.go:28-32 | whatever the tables say has happened has exactly one outbox row, under its key |
| `OutboxInvariant.CancellingIsNotified` | backend/internal/notification/order_events.go:39-41 | a cancellation and its row are written together |
| `OutboxInvariant.AdvancingIsNotified` | backend/internal/notification/order_events.go:48-51 | a fulfilment step and its row are written together |
| `OutboxInvariant.PlacingIsNotified` | backend/internal/notification/order_events.go:18-38 | a new order and its row are written together |
| `OutboxInvariant.SettlingIsNotified` | backend/internal/payment/repository.go:382-386 | a settlement and its row are written together |
| `OutboxInvariant.RefundMoveIsNotified` | backend/internal/refund/repository.go:288-307 | a refund that succeeds, fails or needs review gets its row; one that starts processing gets none |
| `OutboxInvariant.ReturnMoveIsNotified` | backend/internal/return/repository.go:333-337 | each return step gets its row |
| `OutboxInvariant.NewReturnIsNotified` | backend/internal/return/repository.go:115-119 | a new return gets its row |
| `OutboxInvariant.ResetIsNotified` | backend/internal/auth/recovery.go:63-88 | a reset token is stored, the customer's older ones deleted and its mail queued together |
| `OutboxInvariant.PurgeIsSilent` | backend/internal/auth/recovery.go:142-148 | dropping tokens leaves the rows of their mails alone |
| `OutboxHistory.ExpiryRowsAreTrue` | backend/internal/order/expiry.go:35-61 | the new rows of an expiry run tell only of orders that are cancelled at its end |
| `OutboxHistory.StepRowsAreTrue` | backend/internal/notification/order_events.go:8-59 | no transaction writes a row for something that is not so right after it |
| `OutboxHistory.RowsTellTheStep` | backend/internal/notification/order_events.go:8-59 | after a transaction an event has a row exactly if it had one before or is true now |
| `OutboxHistory.RowsTellTheRun` | backend/internal/notification/order_events.go:8-59 | over every run with notifications configured, an event has a row if and only if it was true at some moment of the run, also when the tables no longer tell |
| `ShopInvariant.CancelOrderKeepsInv` | backend/internal/order/repository.go:590-628 | stock, coupon, status and notification of a cancellation together keep the whole shop invariant |
| `ShopInvariant.CancelEachKeepsInv` | backend/internal/order/expiry.go:35-61 | an expiry run keeps the shop invariant even when its query missed fresh attempts, because of the re-check under the lock |
| `ShopInvariant.CancelEachCancelsExactly` | backend/internal/order/expiry.go:35-61 | an expiry run cancels and counts exactly the picked orders no attempt blocks, and no other order |
| `ShopInvariant.CheckoutPlaces` | backend/internal/order/repository.go:82-244 | the order of an accepted checkout: its lines are the cart's, its coupon the named one, usable and with room, its discount that coupon's on its subtotal, its fee and total as priced, and it leaves no stock negative |
| `ShopInvariant.CheckoutKeepsInv` | backend/internal/order/repository.go:82-256 | checkout keeps the shop invariant |
| `ShopInvariant.UpdateStatusKeepsInv` | backend/internal/order/repository.go:548-632 | every admin status change keeps the shop invariant |
| `ShopInvariant.CancelOwnKeepsInv` | backend/internal/order/repository.go:643-705 | self-cancellation keeps the shop invariant |
| `ShopInvariant.CreateAttemptKeepsInv` | backend/internal/payment/repository.go:109-160 | opening an attempt keeps the shop invariant |
| `ShopInvariant.SetAuthorityKeepsInv` | backend/internal/payment/repository.go:162-189 | storing an authority keeps the shop invariant |
| `ShopInvariant.MarkFailedKeepsInv` | backend/internal/payment/repository.go:191-218 | failing an attempt keeps the shop invariant |
| `ShopInvariant.FinalizeVerifiedKeepsInv` | backend/internal/payment/repository.go:318-392 | a verification keeps the shop invariant |
| `ShopInvariant.FinalizeFailedIsSilent` | backend/internal/payment/repository.go:527-531 | no payment-failed notification is ever written: a failed attempt cannot be found by an authority |
| `ShopInvariant.FinalizeFailedKeepsInv` | backend/internal/payment/repository.go:493-538 | a failed check keeps the shop invariant |
| `ShopInvariant.ExpireRejectedKeepsInv` | backend/internal/payment/maintenance.go:52-69 | expiring an attempt keeps the shop invariant |
| `ShopInvariant.CreateRefundKeepsInv` | backend/internal/refund/repository.go:68-132 | creating a refund keeps the shop invariant |
| `ShopInvariant.UpdateRefundKeepsInv` | backend/internal/refund/repository.go:170-269 | a refund status change keeps the shop invariant |
| `ShopInvariant.CreateReturnKeepsInv` | backend/internal/return/repository.go:77-124 | a return request keeps the shop invariant |
| `ShopInvariant.UpdateReturnKeepsInv` | backend/internal/return/repository.go:252-343 | a return status change keeps the shop invariant |
| `ShopInvariant.CartStepKeeps` | backend/internal/cart/repository.go:22-168 | cart and coupon transactions leave stock alone and keep one positive row per user and product |
| `ShopInvariant.StepKeepsInv` | backend/internal/order/repository.go:548-693 | each of the 25 transactions keeps the shop invariant |
| `ShopInvariant.RunKeepsInv` | backend/internal/order/repository.go:548-693 | every run of transactions, in any order and with any arguments, keeps the shop invariant |
| `Evolution.StepEvolves` | backend/migrations/009_payment_settlement_safety.sql:57-73 | no transaction ever changes a row in a way its history forbids; in particular the attempt table's update trigger never fires |
| `Evolution.RunEvolves` | backend/migrations/009_payment_settlement_safety.sql:57-73 | over whole runs: checkout terms are fixed, statuses only move forward, settled and cancelled exclude each other, bindings and verified outcomes are immutable, logs, merge results and outbox rows are only added |
| `Evolution.EvolvesTransitive` | backend/migrations/009_payment_settlement_safety.sql:57-73 | row histories compose |
| `ShopTheorems.SettlementIsUnique` | backend/internal/payment/repository.go:318-392 | in every reachable state an order is paid or refunded exactly when it has exactly one paid attempt, and every attempt is for the order's total in IRR |
| `ShopTheorems.PaidReferencesAreUnique` | backend/internal/payment/repository.go:342-349 | no two paid attempts anywhere share provider, environment, account and reference |
| `ShopTheorems.AtMostOneLiveAttempt` | backend/internal/payment/repository.go:132-147 | an order never has two attempts that are pending, paid, or failed with an authority |
| `ShopTheorems.VerifiedOutcomesArePermanent` | backend/internal/payment/repository.go:353-361 | over any run a verified outcome is never rewritten, and a success verified after expiry is a reconciliation |
| `ShopTheorems.AuthorityBlocksUntilRejected` | backend/internal/payment/maintenance.go:46-68 | the only transaction after which a stored authority stops blocking its order is an expiry with code -51 recorded and the cut-off passed |
| `ShopTheorems.CancelledStaysClosed` | backend/internal/order/repository.go:707-721 | a cancelled order stays cancelled over every later run, is never paid or refunded, has no pending or paid attempt and accepts no new one |
| `ShopTheorems.SettledIsNeverCancelled` | backend/internal/order/repository.go:590-614 | a settled order stays settled over every later run, and none of the three cancellation paths can touch it |
| `ShopTheorems.FulfilledOrdersAreSettled` | backend/internal/order/repository.go:566-577 | a gateway order in processing, shipped or delivered is paid or refunded; a manual order has no attempts and is never settled |
| `ShopTheorems.StockIsConserved` | backend/internal/order/repository.go:729-767 | for every product, stock plus the quantities of live orders equals the created stock plus all logged adjustments, and stock is never negative |
| `ShopTheorems.TotalsAreExactForLife` | backend/internal/order/repository.go:182-183 | an order's total, lines, discount and fee never change, the discount stays within the subtotal, and the total is exact if and only if the true amount fits |
| `ShopTheorems.CouponCountsAreLiveOrders` | backend/internal/coupon/repository.go:81-100 | in every reachable state the coupon counts are the live orders that use it |
| `ShopTheorems.RefundedMeansRefunded` | backend/internal/return/repository.go:288-302 | an order is refunded exactly when it has a succeeded refund, and a refunded return always has one |
| `ShopTheorems.OutboxIsCompleteAndDuplicateFree` | backend/internal/notification/order_events.go:8-59 | over every run, each notification has exactly one row if its event happened at some moment of the run and none otherwise - reached statuses of orders cancelled since, reviews of refunds finished since and purged reset tokens included; without notifications configured there is no row |
| `ShopTheorems.RowsAgreeWithTheTables` | backend/internal/notification/order_events.go:8-59 | in every reachable state, what the tables say has happened has exactly one row, and what they can deny has none |
| `ShopTheorems.CancelledAndPaidAreNotifiedOnce` | backend/internal/notification/order_events.go:39-44 | exactly one cancelled row if and only if cancelled, exactly one payment-succeeded row if and only if settled |
| `ShopTheorems.OutboxRowsPersist` | backend/internal/notification/repository.go:28-32 | an outbox row is never lost or overwritten by a transaction |
| `ShopTheorems.MergeIsIdempotentForever` | backend/internal/cart/merge.go:31-36 | a merge repeated with its key after any run changes nothing and returns the first result |
| `CouponLimits.LimitsHoldOverRuns` | backend/internal/coupon/repository.go:159-176 | from any state of the shop, over every run in which no accepted edit lowers a limit - whatever else the edits change - active redemptions never exceed the usage limit nor, for any customer, the per-user limit, at any moment |
| `CouponLimits.LimitsHoldExactlyWhenEditsFit` | backend/internal/coupon/repository.go:325-335 | over every run from a state that respects them, the limits are respected at every moment if and only if each accepted edit fits the uses there are when it is made |
| `CouponLimits.EditRespectsLimitsExactlyWhenTheyFit` | backend/internal/coupon/repository.go:325-335 | an accepted edit leaves the limits respected if and only if neither new limit is below the live orders that use the coupon, in all and per customer |
| `CouponLimits.LoweringALimitBreaksIt` | backend/internal/coupon/repository.go:325-335 | a run from the empty shop: two customers use an unlimited coupon, then an edit limits it to one use, is accepted, and leaves two uses |
| `CouponLimits.RedeemingRespectsLimits` | backend/internal/coupon/repository.go:159-176 | a redemption is added only when both limits have room for it |
| `CouponLimits.StepRespectsLimits` | backend/internal/coupon/repository.go:107-133 | a transaction leaves the limits of a coupon respected if and only if it is no edit to limits below the uses there are |
| `CouponLimits.CancelEachReleases` | backend/internal/order/expiry.go:49-51 | an expiry run only releases redemptions |
| `DirectRefunds.DirectRefundIsRefused` | backend/internal/refund/handler.go:185-185 | the request for amount 0 that the handler makes is refused whatever the order, with the reason that applies, and changes nothing |
| `DirectRefunds.NoRefundEverExists` | backend/internal/refund/handler.go:185-185 | over every run whose refunds are created as the handler does, no refund row ever exists, no order is ever refunded and no return either |
| `DirectRefunds.RefundProviderIsNeverCalled` | backend/internal/refund/handler.go:394-433 | over every interleaving of handlers and such traffic, no refund handler ever asks the provider to pay anything out |
| `Database.Database.Rollback` | backend/internal/order/repository.go:94-94 | the deferred rollback puts every table back |
| `Database.Database.EnqueueTx` | backend/internal/notification/repository.go:22-37 | inserts the row unless its key exists or notifications are off |
| `Database.Database.ReleaseRedemptionForOrder` | backend/internal/coupon/repository.go:123-133 | releases an unreleased redemption and reports how many rows changed |
| `OrderRepository.OrderRepository.RestoreOrderStock` | backend/internal/order/repository.go:729-767 | the loop returns exactly the ordered quantities, or reports that a column would overflow |
| `OrderRepository.OrderRepository.Cancel` | backend/internal/order/repository.go:601-625 | stock, redemption, status and notification of one cancellation |
| `OrderRepository.OrderRepository.UpdateStatus` | backend/internal/order/repository.go:548-632 | the transaction on the tables is the specified one, including every refusal and the rollback |
| `OrderRepository.OrderRepository.CancelOwnOrder` | backend/internal/order/repository.go:643-705 | the transaction on the tables is the specified one |
| `OrderRepository.OrderRepository.ExpireReservations` | backend/internal/order/expiry.go:9-63 | the loop over the picked orders is the specified run, all or nothing |
| `OrderRepository.OrderRepository.CheckAvailability` | backend/internal/order/repository.go:130-134 | the loop accepts exactly lines that are all in stock and in date |
| `OrderRepository.OrderRepository.CheckAllDigital` | backend/internal/order/repository.go:136-141 | the loop finds whether all products are education |
| `OrderRepository.OrderRepository.Eligible` | backend/internal/coupon/repository.go:141-180 | resolves the coupon and finds the first reason it may not be used |
| `OrderRepository.OrderRepository.InsertItems` | backend/internal/order/repository.go:223-239 | the item loop writes all lines and takes all quantities, or reports the first refused row |
| `OrderRepository.OrderRepository.InsertOrder` | backend/internal/order/repository.go:185-256 | order, items, stock, redemption, cart and notification: all or nothing |
| `OrderRepository.OrderRepository.CreateFromCart` | backend/internal/order/repository.go:82-256 | the checkout transaction on the tables is the specified one |
| `PaymentRepository.PaymentRepository.CreateAttemptForOrder` | backend/internal/payment/repository.go:109-160 | the transaction on the tables is the specified one |
| `PaymentRepository.PaymentRepository.SetAuthority` | backend/internal/payment/repository.go:162-189 | the transaction on the tables is the specified one |
| `PaymentRepository.PaymentRepository.MarkAttemptFailed` | backend/internal/payment/repository.go:191-218 | the transaction on the tables is the specified one |
| `PaymentRepository.PaymentRepository.RecordVerifiedPayment` | backend/internal/payment/repository.go:339-391 | attempt, order and notification of a verification are written together; the order-row guard is unreachable |
| `PaymentRepository.PaymentRepository.FinalizeVerifiedPayment` | backend/internal/payment/repository.go:318-392 | the transaction on the tables is the specified one |
| `PaymentRepository.PaymentRepository.FinalizeFailedPayment` | backend/internal/payment/repository.go:493-538 | the transaction on the tables is the specified one |
| `PaymentRepository.PaymentRepository.ExpireRejected` | backend/internal/payment/maintenance.go:52-69 | the transaction on the tables is the specified one |
| `RefundRepository.RefundRepository.Create` | backend/internal/refund/repository.go:68-132 | the unlocked check followed by the transaction is the specified transaction, with the constraints that refuse a row |
| `RefundRepository.RefundRepository.UpdateStatus` | backend/internal/refund/repository.go:170-269 | the transaction on the tables is the specified one |
| `RefundRepository.ReturnRepository.CreateRequest` | backend/internal/return/repository.go:77-124 | the transaction on the tables is the specified one |
| `RefundRepository.ReturnRepository.UpdateStatus` | backend/internal/return/repository.go:252-343 | the transaction on the tables is the specified one |
| `CartRepository.CartRepository.AddItem` | backend/internal/cart/repository.go:22-91 | the transaction on the tables is the specified one |
| `CartRepository.CartRepository.UpdateItemQuantity` | backend/internal/cart/repository.go:95-148 | the transaction on the tables is the specified one |
| `CartRepository.CartRepository.DeleteItem` | backend/internal/cart/repository.go:152-168 | the transaction on the tables is the specified one |
| `CartRepository.CartRepository.MergeProduct` | backend/internal/cart/merge.go:53-77 | the row and the warning of one product, including a missing product and one out of stock, are the specified ones |
| `CartRepository.CartRepository.MergeAll` | backend/internal/cart/merge.go:52-78 | the sorted loop produces the merged cart and its warnings |
| `CartRepository.CartRepository.Merge` | backend/internal/cart/merge.go:21-87 | the merge transaction on the tables is the specified one |
| `CartRepository.StockRepository.AdjustStock` | backend/internal/admin/repository.go:150-209 | the transaction on the tables is the specified one |
| `CartRepository.StockRepository.Update` | backend/internal/product/repository.go:214-275 | the stock write and its log entry are the specified ones |
| `CartMerge.CappedStep` | backend/internal/cart/merge.go:40-46 | capping after every addition gives the capped sum |
| `CartMerge.AggregateItems` | backend/internal/cart/merge.go:40-46 | the saturating loop computes min(1000, sum) for exactly the posted products |
| `CartMerge.SortIds` | backend/internal/cart/merge.go:47-51 | sorting the map's keys gives their unique ascending listing |
| `SortedLists.AscendingIsUnique` | backend/internal/cart/merge.go:51-51 | the same elements have one ascending listing, so neither the iteration order of the map nor that of a directory matters |
| `CartMerge.MergeRound` | backend/internal/cart/merge.go:52-78 | a round of the loop, on the cart merged so far, gives the merged cart with one more product and the warning that product deserves against the original cart |
| `CartMerge.MergeDependsOnlyOnTheItems` | backend/internal/cart/merge.go:40-78 | final cart and warnings depend only on the multiset of posted items |
| `CartMerge.MergeOutcome` | backend/internal/cart/merge.go:67-77 | every merged product with stock ends at min(stock, current + min(1000, sum)); all other rows, and rows of products out of stock, stay |
| `CatalogOutcomes.AdjustStockOutcome` | backend/internal/admin/repository.go:150-209 | an adjustment adds exactly its delta to the stock and logs delta, old and new stock; when and why it is refused |
| `CatalogOutcomes.UpdateProductOutcome` | backend/internal/product/repository.go:214-275 | an edit writes all columns and logs the stock difference exactly when there is one |
| `CatalogOutcomes.CreateProductOutcome` | backend/internal/product/repository.go:171-191 | a product is created exactly with a non-negative price and a stock that fits, and with that stock |
| `CatalogOutcomes.AddItemOutcome` | backend/internal/cart/repository.go:22-91 | adding puts the quantity on top of what the cart holds, exactly as long as the sum is in stock, and leaves every other row |
| `CatalogOutcomes.UpdateItemOutcome` | backend/internal/cart/repository.go:95-148 | setting a quantity replaces that of an existing row exactly as long as it is in stock, and leaves every other row |
| `CatalogOutcomes.DeleteItemOutcome` | backend/internal/cart/repository.go:152-168 | deleting drops exactly that row |
| `CatalogOutcomes.MergeReplies` | backend/internal/cart/merge.go:21-51 | a merge is refused for a quantity outside 1 to 1000, answered from the record for a known key, and recorded otherwise |
| `CatalogOutcomes.MergeWarns` | backend/internal/cart/merge.go:53-77 | a merge warns of exactly the posted products that are missing or whose capped sum exceeds the stock |
| `CatalogOutcomes.MergeEffect` | backend/internal/cart/merge.go:40-78 | after a first merge each posted product in stock ends at the smaller of its stock and held plus posted, all other rows stay, and the reply warns of exactly the posted products that deserve it |
| `CatalogOutcomes.CreateCouponOutcome` | backend/internal/coupon/model.go:119-171 | a coupon is saved exactly with a code of 1 to 64 characters, a value its kind allows, limits of at least one and an end after its start, under a code not taken |
| `CatalogOutcomes.UpdateCouponOutcome` | backend/internal/coupon/repository.go:325-349 | an edit meets the same conditions and may keep its own code |
| `RefundOutcomes.UpdateRefundOutcome` | backend/internal/refund/repository.go:170-269 | a refund moves exactly along its steps; its success, and only that, turns its paid order refunded |
| `RefundOutcomes.RefundRefusals` | backend/internal/refund/repository.go:38-132 | why no refund is created, by the check without the lock and by the transaction; what a created one holds |
| `RefundOutcomes.CreateReturnOutcome` | backend/internal/return/repository.go:77-124 | a customer can return exactly an own order that is delivered and paid and has no return yet; the reason of each refusal |
| `RefundOutcomes.UpdateReturnOutcome` | backend/internal/return/repository.go:252-343 | a return moves exactly along its steps, and to refunded only when a refund of its order has succeeded |
| `RefundOutcomes.PasswordResetOutcome` | backend/internal/auth/recovery.go:63-88 | a reset leaves exactly the new token of the customer and everybody else's |
| `RefundOutcomes.PurgeOutcome` | backend/internal/auth/recovery.go:142-148 | the purge drops the given tokens and no others |
| `ProcessOutcomes.CallbackVerifies` | backend/internal/payment/handler.go:154-215 | a callback with Status OK for an unverified attempt of this gateway asks the provider once, about the order's total, and records the answer: paid, reconciliation, rejected with its code, or uncertain |
| `ProcessOutcomes.CallbackWithoutStatusOk` | backend/internal/payment/handler.go:178-181 | a callback with any other status ends at once: no call, no table changed |
| `ProcessOutcomes.CallbackWithoutAttempt` | backend/internal/payment/handler.go:158-177 | neither does one whose authority no unverified attempt of this gateway in IRR carries |
| `ProcessOutcomes.RequestOpensSession` | backend/internal/payment/handler.go:64-142 | a request answered with a usable session opens an attempt, asks for the order's total, stores the authority and sends the customer there |
| `ProcessOutcomes.RequestRefused` | backend/internal/payment/handler.go:106-131 | any other answer ends the attempt as failed with the provider's code, if it gave one, and sends nobody anywhere |
| `ProcessOutcomes.ReconciliationAsks` | backend/internal/payment/handler.go:270-307 | a reconciliation asks the provider once about the order's total and records the answer, codes inside errors included |
| `ProcessOutcomes.OnlyAskableAttemptsAreAskedAbout` | backend/internal/payment/handler.go:270-281 | reconciliation and sweep ask about exactly the unverified attempts of this gateway in IRR, of a payable amount and with a usable authority |
| `ProcessOutcomes.InterruptionOutcome` | backend/internal/payment/handler.go:64-307 | a failure or crash of one handler changes no table, no other handler and nothing that has been said |
| `ProcessOutcomes.OtherTrafficOutcome` | backend/internal/payment/handler.go:64-307 | between two steps of a handler every transaction but those of the payment handlers may come, with its own effect |
| `ProcessOutcomes.SweepStarts` | backend/internal/payment/maintenance.go:9-28 | a sweep takes the first twenty abandoned attempts of exactly its account |
| `ProcessOutcomes.SweepReleases` | backend/internal/payment/maintenance.go:42-48 | a swept attempt answered with -51 ends expired, its order keeps everything else, and the sweep goes on |
| `ProcessOutcomes.SweepGoesOn` | backend/internal/payment/maintenance.go:42-48 | any other answer is recorded, the attempt is not given up and the sweep goes on |
| `ProcessOutcomes.SweepMarksUnstored` | backend/internal/payment/maintenance.go:33-38 | a swept pending attempt without an authority is marked failed without asking anybody |
| `ProcessOutcomes.FailuresEndAllButSweeps` | backend/internal/payment/maintenance.go:28-49 | a failure ends a process, but a sweep goes on with its next row |
| `ProcessOutcomes.OnlineRefundOutcome` | backend/internal/refund/handler.go:361-469 | a due online refund claims the refund, asks the provider once about the order's total and ends succeeded, with the order refunded, or in manual review |
| `ProcessOutcomes.ManualRefundOutcome` | backend/internal/refund/handler.go:257-321 | a refund by hand succeeds without the provider, from pending, processing or review alike |
| `ProcessOutcomes.ClaimsDecide` | backend/internal/refund/handler.go:295-305 | a refund handler whose claim is refused stops; one by hand needs no claim once the refund has left pending |
| `ProcessOutcomes.RefundNotDue` | backend/internal/refund/handler.go:329-392 | nothing happens for a return that has not come back, a refund of another method or one that has succeeded |
| `ProcessTheorems.SettledOrdersWereConfirmed` | backend/internal/payment/handler.go:154-215 | under every interleaving, failure and crash, a settled order has a paid attempt whose session the provider issued for the order's total and whose payment it confirmed for that same total, code and reference |
| `ProcessTheorems.RecordedSuccessesWereConfirmed` | backend/internal/payment/handler.go:270-307 | every recorded success, settled or in reconciliation, was confirmed by the provider for the attempt's authority and amount |
| `ProcessTheorems.ExpiredSessionsWereDenied` | backend/internal/payment/maintenance.go:8-50 | a stored authority is only ever given up after the provider answered -51 for it |
| `ProcessTheorems.UndeniedSessionsHoldTheirOrder` | backend/internal/payment/maintenance.go:40-48 | while a stored authority is not denied, its order cannot be cancelled by any of the three paths and no second session opens |
| `ProcessTheorems.RedirectedCustomersHoldTheirOrder` | backend/internal/payment/handler.go:128-137 | a customer is sent to the provider only with an authority that was issued for the order's total and stored, and from then on the order is held until the provider answers -51 |
| `ProcessTheorems.UnstoredSessionsHoldWhilePending` | backend/internal/payment/maintenance.go:33-38 | an attempt without a stored authority holds its order if and only if it is pending |
| `ProcessTheorems.AnUnstoredSessionIsReleased` | backend/internal/payment/handler.go:128-132 | whenever a payment can be started, a run follows in which the provider issues the session, the authority is not stored, and the sweep releases the order without asking the provider; no customer was sent there |
| `ProcessTheorems.BlockingAttemptsHoldTheirOrder` | backend/internal/order/repository.go:707-721 | an attempt that blocks stops both cancellations, the expiry query and a new attempt |
| `ProcessTheorems.VerifiedAmountsAreOrderTotals` | backend/internal/payment/handler.go:186-189 | every verification asks the provider about exactly the total of the order behind the authority |
| `ProcessTheorems.RefundProviderIsCalledAtMostOnce` | backend/internal/refund/handler.go:394-433 | however admin requests interleave, the provider is asked at most once per refund |
| `ProcessTheorems.RefundCallsAreDue` | backend/internal/refund/handler.go:329-357 | the provider is only asked to refund an online payment of a delivered order whose return has been received, for the order's total |
| `ProcessInvariant.StoringStores` | backend/internal/payment/handler.go:128-132 | a request goes on to its redirect only when the attempt carries the authority |
| `ProcessInvariant.TransactionEvidence` | backend/internal/payment/handler.go:154-215 | whatever a process writes about an attempt, the provider's log supports |
| `ProcessInvariant.AdvanceKeepsClaims` | backend/internal/refund/handler.go:394-418 | only the request whose update takes the refund out of pending gets to call the provider |
| `ProcessInvariant.AfterInv` | backend/internal/payment/handler.go:270-307 | what a process has read stays true while others run, and what it learns next is true |
| `ProcessInvariant.HappeningKeepsInv` | backend/internal/payment/handler.go:64-215 | every start, step, provider answer, failure, crash and foreign transaction keeps the system invariant |
| `ProcessInvariant.ReachedSystemsKeepInv` | backend/internal/payment/handler.go:64-307 | every reachable system satisfies the invariant, and its tables are a reachable shop |
| `Processes.FindRefund` | backend/internal/refund/repository.go:136-165 | finds a refund of the order if and only if it has one |
| `RateLimit.CleanupKeepsLevels` | backend/internal/operational/ratelimit.go:79-86 | cleanup deletes only buckets that are full again |
| `RateLimit.RefillKeepsLevel` | backend/internal/operational/ratelimit.go:98-101 | bringing a bucket up to date does not change what it will hold later |
| `RateLimit.TokensAreConserved` | backend/internal/operational/ratelimit.go:72-110 | over any run, admitted requests plus the final level never exceed the initial level plus the tokens earned |
| `RateLimit.ThroughputBound` | backend/internal/operational/ratelimit.go:72-110 | in any stretch of any run, evictions and a full table included, a key is admitted at most limit·(1 + T/window) times |
| `RateLimit.EvictionIsInvisible` | backend/internal/operational/ratelimit.go:79-97 | all decisions equal those of a limiter that never forgets if and only if no request finds the table full |
| `RateLimit.RetryAfterIsExact` | backend/internal/operational/ratelimit.go:79-108 | whatever is asked in between, a refused client that asks again after m whole seconds, with no admission of its key meanwhile, is admitted if and only if it then finds room in the table and, unless it was refused by a full table, m is at least the returned Retry-After |
| `RateLimit.RetryAfterIsExactWithinTheWindow` | backend/internal/operational/ratelimit.go:79-108 | for a client refused for lack of tokens and any m below the window, it is admitted if and only if m is at least the returned Retry-After: its own bucket keeps its place in the table |
| `RateLimit.FullTableMeansTraffic` | backend/internal/operational/ratelimit.go:79-97 | a request is refused for a full table only if ten thousand other keys have asked within the last two windows |
| `RateLimit.QuietWaitIsEnough` | backend/internal/operational/ratelimit.go:89-93 | a client refused for a full table that waits the returned Retry-After is admitted if nobody asks meanwhile |
| `RateLimit.ObedientClientRefused` | backend/internal/operational/ratelimit.go:79-93 | a run from the empty table in which it waits as told and finds the table full again, because one other request has put the next cleanup off |
| `RateLimit.TableIsBounded` | backend/internal/operational/ratelimit.go:89-97 | the table never exceeds 10,000 buckets |
| `RateLimit.HitOutcome` | backend/internal/operational/ratelimit.go:72-112 | one request in numbers: which buckets it finds, when it meets ten thousand of them, how many tokens, when it is admitted, what it leaves and what it is told |
| `RateLimit.RateLimiter.CleanUp` | backend/internal/operational/ratelimit.go:79-86 | the deletion loop leaves exactly the buckets used within the window |
| `RateLimit.RateLimiter.Handle` | backend/internal/operational/ratelimit.go:72-112 | the handler decides and updates the table as specified |
| `SqlScanner.TokensCoverTheText` | backend/internal/migrate/migrate.go:75-158 | the reference tokenizer cuts the text into contiguous tokens: nothing skipped, nothing read twice |
| `SqlScanner.ScanAcceptsExactly` | backend/internal/migrate/migrate.go:73-159 | the scanner passes exactly the texts whose comments, strings and dollar bodies close and in which no statement's first word is one of the seven keywords |
| `SqlScanner.AcceptedExactly` | backend/internal/migrate/migrate.go:68-164 | a migration is accepted if and only if its unframed body is non-empty and passes |
| `SqlScanner.AcceptedTextIsAFixedPoint` | backend/internal/migrate/migrate.go:68-72 | the scanner is the identity on its own accepted output |
| `SqlScanner.FramedTextIsRefused` | backend/internal/migrate/migrate.go:70-72 | a body that still starts with BEGIN; is refused |
| `SqlScanner.LiteralsAreOneToken` | backend/internal/migrate/migrate.go:104-123 | a quoted literal is a single token whatever it contains, quotes doubled |
| `SqlScanner.SkipComment` | backend/internal/migrate/migrate.go:84-102 | the nesting loop finds the end of a comment, or that there is none |
| `SqlScanner.SkipString` | backend/internal/migrate/migrate.go:104-123 | the string loop finds the closing quote, or that there is none |
| `SqlScanner.ReadWord` | backend/internal/migrate/migrate.go:143-148 | the word loop collects exactly the word |
| `SqlScanner.ReadToken` | backend/internal/migrate/migrate.go:75-158 | one round of the loop finds the reference token |
| `SqlScanner.ScanMigration` | backend/internal/migrate/migrate.go:68-164 | the loop returns the specified text or the first problem |
| `SqlScannerOutcomes.TokensUndoWriting` | backend/internal/migrate/migrate.go:75-158 | every text of lexemes that stay apart - line comments, comments nested in comments, quoted literals, dollar bodies, semicolons, words and other characters - is read back exactly as it was written |
| `SqlScannerOutcomes.LexemesAreTokens` | backend/internal/migrate/migrate.go:75-158 | each lexeme is read as one token of its kind, to its last character, wherever it stands |
| `SqlScannerOutcomes.InnerIsPassedOver` | backend/internal/migrate/migrate.go:84-102 | whatever comments are nested in a comment, to any depth, the nesting level is the same behind them |
| `SqlScannerOutcomes.OpenCommentIsReported` | backend/internal/migrate/migrate.go:98-100 | a comment that stays open is refused as such |
| `SqlScannerOutcomes.OpenStringIsReported` | backend/internal/migrate/migrate.go:119-121 | so is a literal whose quote is never closed |
| `SqlScannerOutcomes.OpenBodyIsReported` | backend/internal/migrate/migrate.go:129-132 | so is a dollar body whose tag never comes again |
| `SqlScannerOutcomes.ControlWordsExactly` | backend/internal/migrate/migrate.go:150-153 | exactly the seven keywords, in any mix of upper and lower case, control the transaction |
| `SqlScannerOutcomes.FrameIsRemoved` | backend/internal/migrate/migrate.go:69-72 | a text between BEGIN; and COMMIT; is taken for what stands between, with any white space around |
| `SqlScannerOutcomes.UnframedTextIsTakenAsItStands` | backend/internal/migrate/migrate.go:69-72 | a text without both ends of the frame is taken as it stands, without the white space around it |
| `SqlScannerOutcomes.NothingIsRefused` | backend/internal/migrate/migrate.go:160-162 | a text of white space alone is refused as empty |
| `MigrationRunner.HistoryIsAPrefix` | backend/internal/migrate/migrate.go:196-239 | after any concurrent, failed or interrupted runs, history and schema are the records and texts of one initial segment of a deployed list, in version order, once each |
| `MigrationRunner.SuccessMeansComplete` | backend/internal/migrate/migrate.go:232-237 | a run that succeeded has its whole list applied, and with one list deployed nothing else |
| `MigrationRunner.AppliedStays` | backend/internal/migrate/migrate.go:256-272 | what is applied stays applied, in place, whatever happens later |
| `MigrationReplay.RepeatedRunIsANoOp` | backend/internal/migrate/migrate.go:196-239 | with the lock free, a new run of the applied list can be carried out to the end in every reachable system; it succeeds and leaves everything else as it was |
| `MigrationReplay.RepeatingStep` | backend/internal/migrate/migrate.go:196-239 | once everybody runs the applied list, no event changes history or schema, each step brings its run nearer to success, and a run ends otherwise only by dying |
| `MigrationReplay.RepeatedRunsSucceed` | backend/internal/migrate/migrate.go:196-239 | however many runs of the applied list overlap, wait or die, history and schema stay, and a run that does not die has succeeded exactly when it has taken four steps |
| `MigrationReplay.SuccessStartsRepetition` | backend/internal/migrate/migrate.go:232-237 | once a run of the only deployed list has succeeded, every run is such a repetition |
| `MigrationRunner.RunsAreExclusive` | backend/internal/migrate/migrate.go:182-194 | only one run at a time works on the database |
| `MigrationRunner.HappeningKeepsInv` | backend/internal/migrate/migrate.go:196-272 | deployments, steps, lost acknowledgements, deaths and foreign tables keep history and schema in agreement |
| `MigrationRunner.NextVersionIsNew` | backend/internal/migrate/migrate.go:265-267 | the history's primary key never refuses the next migration of a sorted list |
| `MigrationRunner.Connection.Run` | backend/internal/migrate/migrate.go:196-239 | succeeds exactly on a tracked or empty database whose history is an unchanged prefix, when no remaining migration fails; stops right before the first that does |
| `MigrationRunner.Connection.CheckHistory` | backend/internal/migrate/migrate.go:210-228 | the row loop accepts exactly an unchanged prefix |
| `MigrationRunner.Connection.ApplyFrom` | backend/internal/migrate/migrate.go:232-236 | the loop applies up to the first failing migration |
| `MigrationRunner.Connection.Apply` | backend/internal/migrate/migrate.go:256-272 | a migration and its record are committed together or not at all |
| `MigrationFiles.Load` | backend/internal/migrate/migrate.go:29-66 | loads exactly the directories whose .sql files all have valid names, distinct positive versions and acceptable texts, in strictly ascending version order |
| `MigrationFiles.LoadIgnoresListingOrder` | backend/internal/migrate/migrate.go:61-61 | the loaded list does not depend on the order of the directory listing |
| `MigrationOutcomes.NamesShowTheirVersion` | backend/internal/migrate/migrate.go:27-44 | a name of zeros, the decimal number n, an underscore, a tail and .sql has version n, and is a migration name exactly when the tail is made of letters, digits and underscores |
| `MigrationOutcomes.DirectoryLoadsExactly` | backend/internal/migrate/migrate.go:29-66 | a directory of such files loads exactly when there is one, every tail and text is acceptable, and the numbers are positive, fit an int64 and are distinct |
| `MigrationOutcomes.FilesAreLoadedByNumber` | backend/internal/migrate/migrate.go:44-59 | a file with number n is loaded as version n with the digest of its text |
| `MigrationOutcomes.SmallerNumbersComeFirst` | backend/internal/migrate/migrate.go:61-61 | of two loaded files the one with the numerically smaller version comes first, however the names are padded |
| `MigrationOutcomes.OtherEntriesDoNotCount` | backend/internal/migrate/migrate.go:37-39 | directories and files that do not end in .sql change nothing |
| `MigrationOutcomes.SqlFilesMustBeMigrations` | backend/internal/migrate/migrate.go:40-43 | in a directory that loads, every .sql file has the migration form |
| `MigrationOutcomes.LineEndsAreMadeAlike` | backend/internal/migrate/migrate.go:53-53 | a text and its CRLF form have the same normal form, so the same digest and statements |
| `MigrationOutcomes.RunAppliesWhatIsMissing` | backend/internal/migrate/migrate.go:196-239 | with the lock free, on a tracked or empty database whose history is a first part of the list, a run can be carried out to the end and has then applied exactly what was missing, in order, and given the lock back |
| `MigrationOutcomes.RunStopsAtTheFirstFailure` | backend/internal/migrate/migrate.go:256-272 | a migration the database rolls back ends the run right before it, one whose commit goes unheard right after it |
| `MigrationOutcomes.RunLeavesOthersAlone` | backend/internal/migrate/migrate.go:196-254 | a run on a foreign database, or on a history that is no first part of the list, ends without changing anything |
| `MigrationOutcomes.DyingReleasesTheLock` | backend/internal/migrate/migrate.go:182-194 | a run that dies gives back the lock if it had it and changes nothing else |
| `MigrationOutcomes.WaitingEndsWithTheLock` | backend/internal/migrate/migrate.go:182-194 | a waiting run gets the lock exactly when nobody has it |
| `MigrationOutcomes.ForeignTableStays` | backend/internal/migrate/migrate.go:245-254 | a table of somebody else's marks the database as foreign and changes nothing else |
| `OutboxLease.BackoffIsPositiveExactlyBelow63` | backend/internal/notification/workers.go:170-175 | the backoff is positive if and only if there were fewer than 63 failures, then min(2^failures, 3600) seconds; the first wait is 1 s |
| `OutboxLease.HeldRowsAreNotDue` | backend/internal/notification/repository.go:101-116 | within 40 s + 3 s per item and 170 s before the first, no row of a claimed batch can be claimed again before it is recorded |
| `OutboxLease.LeasesAreExclusive` | backend/internal/notification/repository.go:101-116 | over every run, with workers joining, crashing and failing to record, no two workers hold the same row |
| `OutboxLease.RetriesAreBounded` | backend/internal/notification/workers.go:156-183 | a notification is recorded as sent at most once and as failed at most maxRetry times, and is given up exactly after maxRetry recorded failures; mail goes out at most maxRetry times plus once for each time a worker stopped over it or could not record the result |
| `OutboxLease.TriesAreRecordedOrLost` | backend/internal/notification/workers.go:110-154 | every try is a recorded failure, a recorded success or lost |
| `OutboxLease.FinalRowsStay` | backend/internal/notification/repository.go:164-208 | sent and failed rows are never changed again |
| `OutboxLease.HappeningKeepsInv` | backend/internal/notification/repository.go:101-208 | claims, results, failures to record, stops and the passing of time keep the lease and the retry counts |
| `OutboxLease.Outbox.GetPendingDueLimit` | backend/internal/notification/repository.go:101-161 | claims exactly the picked rows and hands them over with their attempts |
| `OutboxLease.Outbox.MarkSent` | backend/internal/notification/repository.go:164-171 | marks a row sent only while it is being processed |
| `OutboxLease.Outbox.MarkFailed` | backend/internal/notification/repository.go:175-190 | returns a row to the queue with one more attempt only while it is being processed, and tells whether it was |
| `OutboxLease.Outbox.MarkPermanentFailure` | backend/internal/notification/repository.go:193-208 | gives a row up only while it is pending or being processed, and tells whether it was |
| `OutboxLease.DeliveryWorker.HandleSendFailure` | backend/internal/notification/workers.go:156-183 | gives up at the last try, otherwise schedules the next one after the backoff |
| `OutboxLease.DeliveryWorker.ProcessOne` | backend/internal/notification/workers.go:133-154 | records the result of one send |
| `OutboxLease.DeliveryWorker.ProcessBatch` | backend/internal/notification/workers.go:110-131 | works through the batch in order until done or told to stop |
| `OutboxOutcomes.ClaimOutcome` | backend/internal/notification/repository.go:101-116 | a claim takes exactly pending rows that are due and rows taken more than ten minutes ago, not locked by others, at most ten, none in favour of one due later; and what it writes to every column |
| `OutboxOutcomes.RecordOutcome` | backend/internal/notification/workers.go:133-183 | a recorded result makes a row sent, failed at the maxRetry-th failure, or pending again after 1, 2, 4 and so on seconds, at most an hour |
| `OutboxOutcomes.RestOfTheBatch` | backend/internal/notification/workers.go:124-130 | after each item the worker goes on with the rest of its batch |
| `OutboxOutcomes.UnrecordedOutcome` | backend/internal/notification/workers.go:133-154 | a result that cannot be recorded, and a worker that stops, leave the row taken |
| `OutboxOutcomes.LateResultsAreIgnored` | backend/internal/notification/repository.go:164-208 | only a row being processed can be sent or fail, only a pending or processed one be given up; otherwise nothing changes |
| `OutboxOutcomes.JoiningAndWaiting` | backend/internal/notification/workers.go:86-109 | a worker joins idle; time passes as long as workers keep to 43 s an item, plus 170 s before the first, and touches nothing else |
| `OutboxOutcomes.FailedRowComesUpAgain` | backend/internal/notification/repository.go:101-116 | after a failure before the last, an idle worker can claim the row exactly from the end of its wait on |
| `OutboxOutcomes.AbandonedRowComesUpAgain` | backend/internal/notification/repository.go:101-116 | a row whose worker is gone can be claimed again exactly when it was taken more than ten minutes ago |
| `OutboxOutcomes.EnqueuedRowsAreOpen` | backend/internal/notification/repository.go:22-37 | what is enqueued can be claimed at once |
| `JsonDecoder.DecodeUndoesPrint` | backend/internal/payment/zarinpal.go:359-417 | on the tokens of any document followed by anything, the decoder returns its meaning and the rest if and only if it is nested at most 64 deep, its keys are distinct ignoring case at every level and its reserved keys are in lower case |
| `JsonDecoder.DecodedStreamsArePrints` | backend/internal/payment/zarinpal.go:359-417 | every stream the decoder takes is the printing of such a document followed by what it leaves |
| `JsonDecoder.NoFieldIsHidden` | backend/internal/payment/zarinpal.go:369-397 | a decoded object says of every key exactly what the document wrote for it |
| `JsonDecoder.Decoder.DecodeUnique` | backend/internal/payment/zarinpal.go:359-417 | the recursive method over the input decodes as specified and consumes exactly the document |
| `JsonDecoder.Decoder.ReadFields` | backend/internal/payment/zarinpal.go:369-398 | the field loop, with its seen keys, decodes as specified |
| `JsonDecoder.Decoder.ReadItems` | backend/internal/payment/zarinpal.go:398-410 | the item loop decodes as specified |
| `ProviderResponse.BelievedBodiesHideNothing` | backend/internal/payment/zarinpal.go:255-284 | a believed body is one acceptable document to its last token, with exactly one data and one errors field ignoring case, and the response is decided by what is written there |
| `ProviderResponse.VerifyAnswersAreUnambiguous` | backend/internal/payment/zarinpal.go:174-202 | a verification is either a rejection without a reference or a confirmation with a positive one on a 2xx status |
| `ProviderResponse.IssuedSessionsAreUsable` | backend/internal/payment/zarinpal.go:140-172 | an answered request has the success code and a valid authority |
| `ProviderResponse.AnswersHaveACode` | backend/internal/payment/zarinpal.go:273-312 | a believed response has a negative code without payment fields, or 100, or 101 |
| `ResponseOutcomes.ConfirmedExactly` | backend/internal/payment/zarinpal.go:174-202 | a verification is confirmed exactly when the status is 2xx and the body states success, code 100 or 101, with a positive reference, and that is the reference |
| `ResponseOutcomes.RejectedExactly` | backend/internal/payment/zarinpal.go:187-191 | it is rejected exactly when the body states failure on any status but a redirect; everything else is no answer |
| `ResponseOutcomes.IssuedExactly` | backend/internal/payment/zarinpal.go:140-172 | a session is issued exactly when the status is 2xx and the body states success with code 100 and an authority of 1 to 255 letters and digits; the customer goes to that authority's page |
| `ResponseOutcomes.RefusedExactly` | backend/internal/payment/zarinpal.go:158-161 | a refused session carries the provider's code exactly when the body states failure |
| `ResponseOutcomes.SixtyFourDeep` | backend/internal/payment/zarinpal.go:359-362 | lists may be nested sixty-four deep in a body and no deeper |
| `ResponseOutcomes.DocumentedNamesAreInLowerCase` | backend/internal/payment/zarinpal.go:379-386 | a field whose name reads like one of the eleven documented ones is taken exactly when it is written in lower case |

## Left out

* Deleting products and users, addresses, categories, articles, reviews, wishlists, listing and pagination: simple rows.
* HTTP parsing, sessions and roles; a handler starts with its authenticated user, and admin rights are assumed.
* The database engine: locks, isolation levels and deadlocks. Nothing is claimed about deadlock freedom; the expiry run
  locks products of several orders in no global order.
* The gate in front of a guest-cart merge checks the key's length and trimming and the number of items; only its check
  of quantities is kept.
* Column contents without a rule attached: addresses, notes, names, payloads, timestamps other than `createdAt`; the
  refund's provider id and response, and its completion time, which the code computes and never stores.
* Attempt events: only the latest verification outcome of an attempt is kept, in `outcome`, as the reconciliation query
  reads it.
* Cart item ids: an item is addressed by user and product, which is its unique key.
* Coupon codes arrive trimmed and upper-cased, the form the unique index compares; partial coupon edits arrive as the
  full coupon they amount to.
* The preview of a coupon, which takes no lock and persists nothing.
* The handlers are modelled as processes on values, not as methods: any two of their steps may be separated by the
  steps of others, which a sequential method cannot express. Their HTTP replies are not modelled.
* The sweep's order of attempts (by time of last update) is arbitrary; its query's other conditions are kept.
* Legacy rows written before migration 009, and adoption of an existing database by the migration tool.
* Floating point in the rate limiter: times and tokens are reals, the clock is monotone where a lemma says so, and the
  client identity is a string.
* Migration texts are sequences of code points; the scanner compares ASCII only, so this is its behaviour on valid
  UTF-8. The digest of a text is an arbitrary function, and two available migrations with equal records are assumed equal.
* What a migration does when it runs: the schema is the list of applied texts, and a failing text is the world's choice.
* Sending mail: whether a try reaches the customer. A worker that dies between sending and recording leaves the mail sent
  and the row unrecorded; the bounds count each such try.
* Password recovery beyond its mail: a token's expiry and use, the new password and the sessions it ends. The purge drops
  an arbitrary set of tokens. Recovery and the shop's repositories are configured with the same notifications.
* The lease's timing assumption is the code's two time-outs per item; up to 170 s between claim and first item is allowed.
* Lower-casing and integer parsing in the JSON decoder are arbitrary functions; the tokens of a text come from the
  standard decoder.
