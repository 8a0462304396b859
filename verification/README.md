# Money and event protocols of the delivery backend

A Dafny model of the parts of the backend where money or responsibility changes hands, with
proofs about every run of them:

- **Wallets** (`PaystackEvents`, `WalletTables`, `Webhook`, `LedgerRuns`,
  `LedgerConvergence`, `DvaSweep`): signed webhooks, redeliveries, rolled-back attempts and
  the reconciliation sweep feed one transaction that deduplicates twice, by body fingerprint
  and by provider reference; orders are paid from wallets and refunded to them, and
  administrators adjust balances, all through one append-only ledger.
- **Order payments and refunds** (`Payments`, `PaymentRuns`, `Refunds`): the four routes by
  which a payment becomes successful, and the steps that move a refund.
- **Orders** (`OrderStatus`, `HandoffCodes`, `Pricing`, `Fees`): the status machine, the
  hand-off codes of live orders, the quote next to the charge, and the fee arithmetic.
- **Fleets and the outbox** (`FleetMembership`, `HandlerRegistry`, `Outbox`, `OutboxRuns`,
  `OutboxSessions`): many actors whose reads and writes interleave.
- **Self-contained algorithms** (`AuthThrottle`, `Pagination`, `Route`, `Redact`): the rate
  limiter, keyset pagination, route planning and log redaction.

Code that changes state is modelled by classes whose methods change their fields; each
method's contract equates its effect with a specification function, and the properties are
proved about that function, over single steps and whole runs. Whatever the database, the
provider, the clock or a random generator answers is an input. Stored procedures are modelled
from their migrations.

## What the proofs found

- While its clock does not step back, the guard admits a key at most `2 * max - 1` times in
  any interval as long as a window (`max` times when windows last a millisecond), whatever
  the other traffic, and some history reaches the bound.
- The guard keeps step with a limiter that never deletes, in its decisions and in the windows
  behind them, exactly until a request of the key finds its window swept away while that
  limiter's is still open, which takes a clock that steps back to before the last sweep.
- The grossed-up top-up charge is not monotone: credits of 12,663,667 to 12,666,666 kobo cost
  more than the first capped credit. Billed by the published tariff, which waives the flat fee
  by the size of the charge, it falls short exactly for credits of 246,249 to 249,999 kobo.
- The background check reports a payment as reconciled although it stays unpaid, exactly when
  the payment's order has already moved on; the comment in
  `src/modules/payments/payments.service.ts` says otherwise.
- The write that ends a checkout is not conditional. A success that arrives while the
  provider is being asked is overwritten exactly by that write, and nothing makes the payment
  successful again, though its order stays paid for.
- A refund brought back from "failed" is never compared with what is left to refund. A
  payment is over-refunded exactly when a retry or resolution brings back one that no longer
  fits. Cancelled refunds go on occupying a payment, although its details do not show them.
- Recovering an expired order can give two live orders the same hand-off code, exactly when
  another live order holds the recovered order's code.
- A rider enters an inactive fleet exactly when the membership is as it was read and the
  fleet's last change of status before the write was not to "active": joins check the status
  when they decide, attachments never do.
- An outbox lock has no expiry. An event is stranded for ever exactly by a claim of the jobs
  endpoint, a worker's claim whose answer is lost, a crash of the worker that holds it, or a
  failure write that does not go through cleanly. The jobs endpoint also claims dead letters,
  which the migration's comment says are excluded from future claims.
- The deposit sweep's comment says what it cannot credit is recorded as an issue. A failed
  attempt puts a processing failure on file for a reference that had none exactly when the
  answer was a top-up for that reference and the filing itself went through. An attempt
  counted as credited has credited nobody exactly when the top-up was filed under an issue,
  or its reference had reached the ledger since the listing.

## Model

| member | source | states |
|---|---|---|
| AuthThrottle.AuthThrottleGuard.CanActivate | src/common/http/auth-throttle.guard.ts:33-65 | Each call decides and changes windows and sweep time as one step of the specification. |
| AuthThrottle.AuthThrottleGuard.Sweep | src/common/http/auth-throttle.guard.ts:68-78 | At most once a minute, exactly the expired windows are dropped. |
| AuthThrottle.RunRefinesSolo | src/common/http/auth-throttle.guard.ts:33-65 | From agreeing states, one key's decisions over a whole history are those of a limiter that knows that key only and never deletes, as long as no request of the key is dated before the sweep preceding it. |
| AuthThrottle.WhenTheSweepShows | src/common/http/auth-throttle.guard.ts:68-78 | From agreeing states, a step decides like the never-deleting limiter and leaves the states agreeing if and only if the key's window was not swept away while that limiter's is still open. |
| AuthThrottle.WhenTheSweepShowsInARun | src/common/http/auth-throttle.guard.ts:33-78 | Over whole histories, in any order of time, the guard keeps step with it if and only if that never happens to a request of the key. |
| AuthThrottle.SweepIsInvisible | src/common/http/auth-throttle.guard.ts:68-78 | From start-up, lazy deletion never shows in a key's decisions if none of its requests is dated before the last sweep. |
| AuthThrottle.OrderedIsNeverBeforeSweep | src/common/http/auth-throttle.guard.ts:68-78 | That holds of every history in time order. |
| AuthThrottle.OtherTrafficIsIrrelevant | src/common/http/auth-throttle.guard.ts:39-49 | Two histories in which a key's requests are the same give it the same decisions, whatever else they hold. |
| AuthThrottle.ClockStepBackShowsTheSweep | src/common/http/auth-throttle.guard.ts:68-78 | A concrete history in which it shows. |
| AuthThrottle.StoredWindowsAreRecent | src/common/http/auth-throttle.guard.ts:68-78 | After any call, no stored window expired a minute or more before it. |
| AuthThrottle.OpenWindowAdmits | src/common/http/auth-throttle.guard.ts:51-64 | An open window admits exactly the first max - count further requests. |
| AuthThrottle.WindowAdmitsExactlyMax | src/common/http/auth-throttle.guard.ts:46-64 | The window a request opens admits exactly the first max requests that fall in it. |
| AuthThrottle.AtMostTwiceMaxLessOne | src/common/http/auth-throttle.guard.ts:46-64 | No interval one window long, wherever it starts, admits more than 2 * max - 1 requests of the limiter that never deletes. |
| AuthThrottle.NoBurstIsLarger | src/common/http/auth-throttle.guard.ts:46-64 | Its exact bound for every limit: that, or max when windows last one millisecond. |
| AuthThrottle.GuardAdmitsLikeSolo | src/common/http/auth-throttle.guard.ts:33-65 | In every interval the guard admits as many requests of a key as the limiter that never deletes, none of them being dated before the last sweep. |
| AuthThrottle.GuardBurstsAreBounded | src/common/http/auth-throttle.guard.ts:33-65 | Over every history in time order, with any other traffic and with sweeps, the guard admits in no interval one window long more requests of a key than the exact bound. |
| AuthThrottle.GuardBurstIsReached | src/common/http/auth-throttle.guard.ts:33-65 | For every limit and key some history of the guard attains it. |
| AuthThrottle.KeyIsInjective | src/common/http/auth-throttle.guard.ts:42-44 | Two clients, or two routes, never share a window, an address holding no slash and a route starting with one. |
| AuthThrottle.RefusalsSayHowLong | src/common/http/auth-throttle.guard.ts:51-61 | A refusal names the least whole number of seconds, at least one, after which the key is admitted again; a whole second earlier it is still refused. |
| Pagination.LimitIsPositive | src/common/api/pagination.ts:31-44 | The normalized limit is at least 1 if and only if the requested one is not strictly between 0 and 1, which the request validation of the routes never lets through. |
| Pagination.LimitIs | src/common/api/pagination.ts:31-39 | The limit is the requested one made whole and at most 100 if it is positive and finite, and else 20. |
| Pagination.DescendingIsUnique | src/modules/chat/chat.repository.ts:84-114 | A set of rows with distinct ids has only one descending order. |
| Pagination.PageIsPrefix | src/common/api/pagination.ts:62-80 | A page is the newest `limit` rows before the cursor; hasMore holds exactly when rows are left over, and the cursor is that of the last row returned. |
| Pagination.NextPageMatches | src/modules/chat/chat.repository.ts:84-114 | The next cursor's query matches exactly the rows the last query matched and did not return. |
| Pagination.PagesEnumerateTheTable | src/modules/chat/chat.repository.ts:79-115 | Following the cursors ends, and the concatenated pages are the whole table newest first, with no skip and no repeat. |
| Pagination.PagesHoldTheChat | src/modules/chat/chat.repository.ts:79-115 | Read from the top, the pages hold a message if and only if it is one of that chat, newest first. |
| Pagination.InsertsAboveTheCursor | src/modules/chat/chat.repository.ts:84-114 | Rows inserted above the cursor leave all remaining pages unchanged. |
| Pagination.GrowingTableIsReadInOrder | src/modules/chat/chat.repository.ts:79-115 | Whatever is inserted between pages, the rows read are newest first and never repeat. |
| Pagination.GrowingTableInventsNothing | src/modules/chat/chat.repository.ts:79-115 | Every row read was in some version of the table. |
| Pagination.GrowingTableSkipsNothing | src/modules/chat/chat.repository.ts:79-115 | A reader that reaches the end has met every row that was there when it began. |
| Route.NearestIndex | src/domain/geo.ts:66-76 | The scan finds the earliest of the nearest remaining stops. |
| Route.NearestTour | src/domain/geo.ts:63-81 | The loop with its splice yields a nearest-neighbour tour of the located stops, each of them once. |
| Route.NearestTourIsUnique | src/domain/geo.ts:53-83 | With ties going to the earliest stop of the input, there is only one such tour. |
| Route.OrderByNearestNeighbour | src/domain/geo.ts:53-83 | Located stops first, as that tour; unlocated ones last in input order; without a start both groups keep their order. |
| Route.OrderingRearranges | src/domain/geo.ts:53-83 | The result is a permutation of the input. |
| Route.PlanRoute | src/domain/geo.ts:105-151 | Every stop's estimate, the total distance and the final estimate equal their closed forms: known exactly while origin and all stops so far have pins, then the sum of legs plus 120 seconds per earlier stop. |
| Route.EtasIncrease | src/domain/geo.ts:105-151 | Each estimate is at least the hand-over time after the one before it. |
| Route.EtasFormAPrefix | src/domain/geo.ts:105-151 | Estimates stop at the first stop without a pin and never resume; without an origin there are none. |
| Route.MinutesCoverTheTime | src/domain/geo.ts:105-151 | The minutes shown are the least whole number, at least one, that covers the wait; stops keep their order and are numbered from one. |
| Route.LegsAreNearest | src/domain/geo.ts:35-41 | Metres and seconds of a leg are the nearest whole numbers to the distance with its detour and to the time at the given speed. |
| Route.EstimatesAddUp | src/domain/geo.ts:105-151 | The first estimate is the ride from the origin, each other one 120 seconds and the ride after the one before, and the distances of the legs add up. |
| Route.NoOrderingDoesBetter | src/domain/geo.ts:105-151 | No ordering of the stops gives more of them an estimate than have a pin. |
| Route.NearestOrderingReachesEveryPin | src/domain/geo.ts:53-83 | From a known origin the nearest-neighbour ordering gives every located stop an estimate, the most any ordering can. |
| Route.BuildRoute | src/modules/tracking/tracking.service.ts:306-371 | The route of an assignment: its stops are the pickup, if still due, and a rearrangement of the drop-offs; estimates exist exactly for pins, given a recent position and a pickup with a pin; the run has a final one exactly when no pin is missing. |
| Fees.GrossUpCoversItsFee | src/domain/wallet-topup-fee.ts:19-33 | The charge less its fee covers the credit; the surplus is 0 when capped, at most 1 kobo when the fee is under the cap, and at most 3,047 in the band between. |
| Fees.WidestSurplus | src/domain/wallet-topup-fee.ts:19-33 | The bound of the band is reached at 12,666,666 kobo. |
| Fees.MoreCreditCostsMore | src/domain/wallet-topup-fee.ts:19-33 | Asking for more never costs less, if and only if the credit is not between 12,663,667 and 12,666,666 kobo. |
| Fees.GrossUpCoversPublishedTariff | src/domain/wallet-topup-fee.ts:19-33 | With the flat fee chosen by the charge, the charge covers the credit if and only if the credit is not between 246,249 and 249,999 kobo. |
| Fees.SplitConserves | src/domain/wallet-topup-fee.ts:49-62 | Fee and credit add up to the deposit, the credit is at least 1 kobo, and the fee is within rate and cap. |
| Fees.DepositFeeIs | src/domain/wallet-topup-fee.ts:49-62 | The deposit fee is the least of the nearest share, the cap and all but a kobo, the share being given by inequalities. |
| Fees.ChargeIsCreditPlusFee | src/domain/wallet-topup-fee.ts:19-33 | The quoted charge is the credit plus the quoted fee, which is nothing exactly when fees are not passed on. |
| Fees.CreditIsMonotone | src/domain/wallet-topup-fee.ts:49-62 | A larger deposit never credits less. |
| Fees.MergingCostsAtMostOneKobo | src/domain/wallet-topup-fee.ts:49-62 | One transfer costs at most a kobo more than the two it replaces. |
| Fees.MergingCanCostAKobo | src/domain/wallet-topup-fee.ts:49-62 | That kobo can be real. |
| Pricing.QuoteIsExact | src/domain/pricing.ts:47-86 | A quote is given if and only if every amount is whole and non-negative, quantities are positive, the discount fits and, over the threshold, rate and flat amount are valid; the total is then the worth of the lines and fees less the discount, plus the nearest share and the flat amount exactly when over the threshold. |
| Pricing.QuoteRefusals | src/domain/pricing.ts:47-61 | Which refusal a quote meets: no lines; the first bad line, for its price before its quantity; a fee or discount that is no amount; a discount larger than items and fees, if and only if it is. |
| Pricing.ShareIsNearest | src/domain/money.ts:14-20 | The basis-points amount is the nearest whole amount, the upper one in the middle. |
| Pricing.QuoteIgnoresOrder | src/domain/pricing.ts:47-86 | The total does not depend on the order of the lines. |
| Pricing.WorthMoreCostsMore | src/domain/pricing.ts:88-117 | An order worth more costs strictly more; crossing the threshold adds a kobo and the whole surcharge at least. |
| Pricing.RoundingsDifferOnlyBelowZero | supabase/migrations/20260730000300_order_rpc_idempotency_guard.sql:288-291 | The quote's rounding and the database's agree if and only if the number is not in the middle of two negative amounts. |
| Pricing.ChargedAsQuoted | supabase/migrations/20260730000300_order_rpc_idempotency_guard.sql:280-292 | From the quote's subtotal, fees and discount the stored procedure charges exactly the quoted total, and refuses exactly the large orders that were not accepted. |
| Pricing.NegativeFlatIsNone | supabase/migrations/20260730000300_order_rpc_idempotency_guard.sql:288-291 | A negative flat amount is charged as none. |
| OrderStatus.AtMostSixSteps | src/domain/order-status.ts:18-32 | A run from pending_payment changes status at most six times, and one does. |
| OrderStatus.RunFollowsDeliveryPath | src/domain/order-status.ts:18-32 | A run that is at some status of the delivery path has taken exactly the path up to there. |
| OrderStatus.DeliveredWentThroughEveryStage | src/domain/order-status.ts:18-32 | A delivered order was paid, then ready, then out for delivery, with nothing in between. |
| OrderStatus.RefundedWasPaid | src/domain/order-status.ts:18-32 | A refunded order was paid at its first step. |
| HandoffCodes.CodeReadsBack | src/modules/orders/orders.repository.ts:186-186 | Every draw below 10,000 becomes four digits that read back as the draw. |
| HandoffCodes.FirstFreeIsFirst | src/modules/orders/orders.repository.ts:185-215 | The retries yield the first drawn code nobody clashes with, and fail exactly when every draw clashes. |
| HandoffCodes.OrdersTable.EnsureOrderDeliveryMetadata | src/modules/orders/orders.repository.ts:163-216 | An order that has a code keeps it and only its room changes; otherwise it gets the first free draw, or nothing changes. |
| HandoffCodes.OrdersTable.CreateOrder | src/modules/orders/orders.repository.ts:69-105 | The transaction: an order without a code is not kept. |
| HandoffCodes.OrdersTable.AssignDeliveryCode | src/modules/riders/riders.repository.ts:639-691 | At pick-up a code is replaced only if another order of the rider's load has it. |
| HandoffCodes.CreationFailsExactlyWhenDrawsAreTaken | src/modules/orders/orders.repository.ts:185-215 | A creation fails if and only if every drawn code belongs to a live order, and then leaves nothing behind. |
| HandoffCodes.WhatCreationLeaves | src/modules/orders/orders.repository.ts:163-216 | A creation leaves one row with the room asked for and a code that no other live order has, or the code the row had. |
| HandoffCodes.WhatPickUpDoes | src/modules/riders/riders.repository.ts:639-691 | At pick-up the code stays if and only if no other order on the road with the rider has it; otherwise the first drawn code that none of them has replaces it. |
| HandoffCodes.RecoveriesAndTransitions | supabase/migrations/20260707000110_recover_expired_order_on_verified_payment.sql:122-127 | A recovery makes exactly an expired order paid, a transition moves an order exactly where the status machine allows, and both leave every code. |
| HandoffCodes.EndedOrdersStayEnded | src/domain/order-status.ts:18-32 | No allowed transition leads from a status without a reserved code to one with. |
| HandoffCodes.PickUpKeepsCodes | src/modules/riders/riders.repository.ts:639-661 | While live orders have distinct codes, the pick-up check changes no code. |
| HandoffCodes.RecoveryNeedsAFreeCode | supabase/migrations/20260707000110_recover_expired_order_on_verified_payment.sql:122-127 | Recovering an expired order keeps codes distinct if and only if no live order has its code. |
| HandoffCodes.StepKeepsCodesDistinct | src/modules/orders/orders.repository.ts:163-216 | A step keeps the codes of live orders distinct if and only if it revives no code in use, and changes no code already given. |
| HandoffCodes.CodesStayDistinct | src/modules/orders/orders.repository.ts:163-216 | At every point of a run live orders have distinct codes, if and only if every recovery in it found the recovered code unused. |
| HandoffCodes.AllowedRunsKeepCodesDistinct | src/modules/orders/orders.repository.ts:163-216 | Every run of creations, allowed transitions and pick-ups keeps live codes distinct. |
| HandoffCodes.AssignedCodeNeverChanges | src/modules/orders/orders.repository.ts:175-183 | In such runs an order keeps the code it was given first. |
| HandoffCodes.AtMostTenThousandLive | src/modules/orders/orders.repository.ts:185-207 | And at most 10,000 orders are live at once. |
| HandoffCodes.CodeMeansOneOrder | src/modules/riders/riders.repository.ts:695-715 | The lookup of a rider's code yields exactly the one order it was given to. |
| HandoffCodes.RecoveryCanDuplicateACode | supabase/migrations/20260707000110_recover_expired_order_on_verified_payment.sql:122-127 | A concrete run in which a recovery makes two live orders share a code. |
| PaystackEvents.MetadataCannotRedirectADeposit | src/domain/payments.ts:89-110 | A deposit on a dedicated account is routed without regard to its metadata. |
| PaystackEvents.OtherEvents | src/domain/payments.ts:139-174 | Which events become failed charges, refunds and each kind of transfer, and that all others are ignored. |
| PaystackEvents.WhatChargesCarry | src/domain/payments.ts:89-137 | The reference, amount, currency, account, sender, user and asked credit that a successful charge carries. |
| WalletTables.Database.RecordPaymentEvent | supabase/migrations/20260612000400_orders_payments_batches_settlements.sql:1110-1144 | A body is inserted once and the answer says whether it was new. |
| WalletTables.Database.CreditWalletTopup | supabase/migrations/20260727000200_wallets.sql:203-287 | Crediting is a no-op for a known reference, resolves the wallet by account or user, and otherwise appends one entry and flags a balance over the cap. |
| WalletTables.Database.AppendEntry | supabase/migrations/20260727000200_wallets.sql:142-196 | The signed entry is appended and the cached balance moves by its amount; a zero amount, an unknown wallet or a debit below zero is refused and changes nothing. |
| WalletTables.Database.CreatePaidOrderFromWallet | supabase/migrations/20260730000300_order_rpc_idempotency_guard.sql:675-777 | An order paid from a wallet that is not frozen and covers the total: debit, order and payment row together, or nothing. |
| WalletTables.Database.RefundOrderToWallet | supabase/migrations/20260727000400_wallet_admin_and_reconciliation.sql:70-110 | A positive refund is credited to the order's customer. |
| WalletTables.Database.MarkVerifiedPaymentSuccessful | supabase/migrations/20260707000110_recover_expired_order_on_verified_payment.sql:23-148 | A payment becomes successful only for its expected amount and only if its order is pending or expired, and then the order is paid. |
| Webhook.PaystackWebhookService.Process | src/modules/payments/paystack-webhook.service.ts:51-84 | A delivery without a valid signature, without a mapped event, or failing has no effect; any other has the effect and the answer of the transaction. Without a database, duplicates are recognised in memory. |
| Webhook.PaystackWebhookService.CreditVerifiedWalletTopup | src/modules/payments/paystack-webhook.service.ts:92-98 | A sweep credit runs the same transaction without a signature, for top-ups only. |
| Webhook.PaystackWebhookService.ProcessInDatabase | src/modules/payments/paystack-webhook.service.ts:100-114 | A transaction that fails leaves every table as it was, but for the filed failure. |
| Webhook.PaystackWebhookService.RunWebhookTransaction | src/modules/payments/paystack-webhook.service.ts:116-153 | Inbox row, effect and answer are committed together. |
| Webhook.PaystackWebhookService.ApplyPayment | src/modules/payments/paystack-webhook.service.ts:183-266 | A charge that fits its payment marks it; any other files its issue. |
| Webhook.PaystackWebhookService.CreditTopup | src/modules/payments/paystack-webhook.service.ts:275-358 | A top-up that fits is credited; any other files its issue. |
| Webhook.DuplicateInMemory | src/modules/payments/paystack-webhook.service.ts:51-84 | Without a database a delivery is a duplicate if and only if this process took one for the same event and reference before, whatever else the bodies say. |
| Webhook.RefusedDeliveries | src/modules/payments/paystack-webhook.service.ts:51-84 | A delivery without a valid signature, a reference or a known event changes nothing and is told which. |
| Webhook.FailedDeliveries | src/modules/payments/paystack-webhook.service.ts:100-114 | A delivery that the database fails leaves nothing but, at most, the issue of its failure. |
| Webhook.WhichIssue | src/modules/payments/paystack-webhook.service.ts:183-318 | Which issue each misfit of a charge or top-up is filed under, each if and only if its reason applies first. |
| Webhook.UnknownAccountIsRolledBack | src/modules/payments/paystack-webhook.service.ts:275-358 | A transfer to an account nobody owns is rolled back. |
| Webhook.WhatSettles | supabase/migrations/20260707000110_recover_expired_order_on_verified_payment.sql:23-148 | A payment and its order are settled if and only if the payment is known, not yet successful, paid as expected and its order waits; only an unknown reference or a wrong amount is refused. |
| Webhook.WhatAWalletPays | supabase/migrations/20260730000300_order_rpc_idempotency_guard.sql:675-777 | A wallet pays an order if and only if the order is new and costs something and the wallet exists, is not frozen and covers it; then debit, balance, order and payment row are as stated. |
| Webhook.WhatAnAdjustmentDoes | supabase/migrations/20260727000400_wallet_admin_and_reconciliation.sql:7-36 | An adjustment goes through if and only if it has a reason and an amount and the wallet exists and stays out of debt. |
| Webhook.WhatBindingDoes | src/modules/wallets/wallets.repository.ts:201-224 | A number is bound if and only if the user has a wallet and no other wallet has the number; it replaces that wallet's number and leaves all others. |
| LedgerRuns.LedgerStaysSound | supabase/migrations/20260727000200_wallets.sql:142-287 | Over every run each reference has at most one top-up, entries are only appended, every balance is the sum of all its entries, credits and debits, and no wallet was overdrawn at any point of its history. |
| LedgerRuns.NoWalletDrifts | supabase/migrations/20260727000400_wallet_admin_and_reconciliation.sql:116-156 | The nightly check for balances that differ from their ledger never finds one. |
| LedgerRuns.WhatLowersABalance | supabase/migrations/20260730000300_order_rpc_idempotency_guard.sql:675-721 | A balance falls if and only if an unfrozen wallet that covers it pays a new order, or an administrator with a reason takes no more than there is. |
| LedgerRuns.FrozenWalletsOnlyGrow | supabase/migrations/20260730000300_order_rpc_idempotency_guard.sql:675-690 | From the freezing of a wallet to its release no run lowers its balance, unless an administrator takes money out. |
| LedgerRuns.RefundsReachTheCustomer | supabase/migrations/20260727000400_wallet_admin_and_reconciliation.sql:70-110 | Whatever happens after a customer placed an order, a refund of it to the wallet adds its full amount to that customer's balance and nothing to anybody else's. |
| LedgerRuns.WalletOrdersAreDebitedOnce | supabase/migrations/20260730000300_order_rpc_idempotency_guard.sql:712-777 | Over every run each order paid from a wallet has exactly one debit, of its total, from its customer. |
| LedgerRuns.BodiesStayInTheirTables | src/modules/payments/paystack-webhook.service.ts:116-153 | No body touches wallets unless it is a charge for them, nor payments unless it is any other charge. |
| LedgerRuns.NextPreserves | src/modules/payments/paystack-webhook.service.ts:92-153 | No step takes back an inbox row, an issue, a ledger entry, a payment's terms, a wallet payment or an order's customer. |
| LedgerRuns.SettledIsStable | src/modules/payments/paystack-webhook.service.ts:116-153 | Once a top-up is in the ledger or on file, or a charge is on file or its order no longer waits for money, that stays so. |
| LedgerRuns.AcceptedIsSettled | src/modules/payments/paystack-webhook.service.ts:116-153 | "Accepted" is answered only when that is so. |
| LedgerRuns.AcceptedChargeTakesEffect | src/modules/payments/paystack-webhook.service.ts:183-266 | An accepted charge has filed its mismatch, or its payment is successful if and only if it already was or its order still waited for money. |
| LedgerRuns.DuplicateIsSettled | src/modules/payments/paystack-webhook.service.ts:116-135 | "Duplicate" is answered only for a body that is kept and settled, and settled it stays. |
| LedgerRuns.DuplicateChargeHadItsEffect | src/modules/payments/paystack-webhook.service.ts:116-266 | Behind a duplicate charge is an accepting attempt of that very body that filed a mismatch, still on file, or left its payment successful unless the order had moved on; and the payment has been successful ever since if and only if no checkout of it ended. |
| LedgerRuns.WhatUndoesSuccess | src/modules/payments/payments.repository.ts:118-127 | A step leaves a successful payment successful, and unchanged, if and only if it is not the end of a checkout of it. |
| LedgerRuns.SuccessLasts | src/modules/payments/payments.repository.ts:118-127 | The same over every stretch of a run. |
| LedgerRuns.NewInboxBody | src/modules/payments/paystack-webhook.service.ts:116-135 | A body enters the inbox only by being accepted, in the same transaction. |
| LedgerRuns.InboxBodyWasAccepted | src/modules/payments/paystack-webhook.service.ts:116-135 | Every body of the inbox was accepted by an earlier attempt of the run. |
| LedgerConvergence.LedgerHoldsWhatWasProcessed | src/modules/payments/paystack-webhook.service.ts:100-153 | A reference is in the ledger if and only if it was before or an attempt for it went through: rolled-back attempts leave no trace. |
| LedgerConvergence.EntryIsWorthItsEvent | src/modules/payments/paystack-webhook.service.ts:275-358 | Every new top-up has the owner and amount its reference is worth; numbers may be replaced but do not move between wallets. |
| LedgerConvergence.EventHasItsEntry | src/modules/payments/paystack-webhook.service.ts:275-358 | Every new reference that went through has that entry. |
| LedgerConvergence.LedgerIsOrderIndependent | src/modules/payments/paystack-webhook.service.ts:92-153 | Two runs that put the same references through end with the same top-ups, whatever the order, repetitions and failures, and with balances that differ exactly by their other entries. |
| LedgerConvergence.TopupIsFiledRefusedOrCredited | src/modules/payments/paystack-webhook.service.ts:275-358 | Which of a filed issue, a rollback, no change and one new entry a top-up comes to, and what each does to ledger, balances and inbox. |
| LedgerConvergence.DepositIsCreditedLessFee | src/modules/payments/paystack-webhook.service.ts:320-338 | A new naira transfer to a bound account appends, for its owner, what was sent less the fee: the least of the nearest share of the rate, the cap if there is one, and all but a kobo. |
| LedgerConvergence.CheckoutIsCredited | src/modules/payments/paystack-webhook.service.ts:331-338 | A new checkout stamped as a top-up appends, for the user it names, what was asked for if that is positive and was paid, and else what was paid. |
| LedgerConvergence.OnlyBalancesOverTheCapAreFlagged | supabase/migrations/20260727000200_wallets.sql:267-283 | A credit flags the owner's balance if and only if it is over the cap, and files nothing else. |
| LedgerConvergence.WalletRefunds | supabase/migrations/20260727000400_wallet_admin_and_reconciliation.sql:70-110 | A wallet refund goes through if and only if it is positive and the order's customer is known and can have a wallet, who is then credited with it. |
| LedgerConvergence.RedeliveryIsHarmless | src/modules/payments/paystack-webhook.service.ts:100-135 | After any run, a body of the inbox delivered again changes nothing but, when the attempt fails, the issues. |
| LedgerConvergence.CreditIsCoveredByThePayment | src/modules/payments/paystack-webhook.service.ts:320-338 | A wallet is credited at least 1 kobo and never more than was paid. |
| LedgerConvergence.CheckoutCreditsWhatWasAsked | src/domain/wallet-topup-fee.ts:19-33 | A checkout charged by the gross-up credits exactly what was asked for. |
| Payments.PaymentsService.TryReconcilePayment | src/modules/payments/payments.service.ts:166-200 | The background check marks a payment only on a matching provider answer and reports a refusal instead of throwing. |
| PaymentRuns.SweepIsARun | src/modules/payments/payments.service.ts:135-159 | The sweep over stuck payments is a run of background checks, so every property of runs holds of it. |
| PaymentRuns.EachPaymentHasItsOwnFate | src/modules/payments/payments.service.ts:135-159 | What the sweep makes of a payment is what a check of it alone would, however the checks of other orders' payments go. |
| PaymentRuns.ReconciledCountsMatches | src/modules/payments/payments.service.ts:135-200 | `reconciled` is the number of provider answers that match what was read. |
| Payments.PaymentsService.ReconcilePaystackPayment | src/modules/payments/payments.service.ts:310-343 | An administrator's check marks the payment or says why not, changing nothing. |
| Payments.PaymentsService.ForcePaymentPaid | src/modules/payments/payments.service.ts:353-392 | The override marks with the expected amount. |
| Payments.ReportedSuccess | src/modules/payments/payments.service.ts:166-200 | After a reported success the payment is paid if and only if it already was or its order still waited for money. |
| Payments.ForcedSuccess | src/modules/payments/payments.service.ts:353-392 | The same of the override, which always reports success. |
| Payments.MatchingAnswersSettle | src/modules/payments/payments.service.ts:166-343 | A successful answer for exactly the payment's reference, amount and currency settles a payment that waits, by either route. |
| Payments.ReconcileRefusals | src/modules/payments/payments.service.ts:310-343 | Each refusal of an administrator's check, if and only if its reason applies first; a refusal changes nothing. |
| Payments.UnknownOrDone | src/modules/payments/payments.service.ts:310-392 | Unknown payments and overrides of successful ones are refused. |
| Payments.WhenCheckoutOpens | src/modules/payments/payments.service.ts:202-220 | Checkout opens if and only if the payment is under way and its order still waits and has not expired; ending it at once loses no success. |
| PaymentRuns.PaymentsStayHealthy | src/modules/payments/payments.service.ts:166-392 | In every run a successful payment has been paid exactly what was expected, and no order is paid twice, by the provider or from a wallet. |
| PaymentRuns.TooLateToSucceed | supabase/migrations/20260707000110_recover_expired_order_on_verified_payment.sql:63-80 | A payment whose order has moved on never becomes successful. |
| PaymentRuns.LateCheckoutLosesTheSuccess | src/modules/payments/payments.repository.ts:118-127 | A checkout that ends after its payment succeeded makes it pending for ever, with its order still paid for. |
| PaymentRuns.SuccessCanBeLost | src/modules/payments/payments.service.ts:202-248 | A concrete run in which that happens. |
| PaymentRuns.WalletPaymentHasGrounds | supabase/migrations/20260730000300_order_rpc_idempotency_guard.sql:675-777 | A wallet payment appears only with a debit of its total from an unfrozen wallet that covers it. |
| PaymentRuns.SuccessHasGrounds | src/modules/payments/paystack-webhook.service.ts:183-266 | A payment became successful only by a signed charge or provider answer for exactly its reference, amount and currency, or by the override. |
| PaymentRuns.MismatchedChargeIsFiled | src/modules/payments/paystack-webhook.service.ts:183-266 | A charge is refused if and only if its reference is unknown or amount or currency differ; it then files one issue, touches nothing else, and its redelivery does nothing. |
| DvaSweep.DvaTopupSweepService.CollectReferences | src/modules/payments/dva-topup-sweep.service.ts:34-51 | The page loop collects the dedicated-account references up to the last page or the tenth. |
| DvaSweep.WhatIsCollected | src/modules/payments/dva-topup-sweep.service.ts:34-52 | A reference is collected if and only if one of the first ten pages, none before it being the last, holds a dedicated-account transaction with it. |
| DvaSweep.HowManyAreCollected | src/modules/payments/dva-topup-sweep.service.ts:34-52 | `seen` counts every such transaction on those pages, repeats included. |
| DvaSweep.DvaTopupSweepService.CreditedReferences | src/modules/payments/dva-topup-sweep.service.ts:84-91 | Exactly the listed references that the ledger holds. |
| DvaSweep.DvaTopupSweepService.SweepOnce | src/modules/payments/dva-topup-sweep.service.ts:34-81 | The sweep's effect on the tables and its counters equal the specification. |
| DvaSweep.DvaTopupSweepService.CreditMissing | src/modules/payments/dva-topup-sweep.service.ts:60-78 | The retry loop credits each missing reference by itself and counts outcomes. |
| DvaSweep.SweepAccountsForEveryReference | src/modules/payments/dva-topup-sweep.service.ts:34-81 | Afterwards every listed reference has a ledger entry, has an issue on file, was not verified as a success, is counted as failed, or got an answer that named another reference which has an entry; and seen >= missing >= credited + failed. |
| DvaSweep.WhatTheCountersSay | src/modules/payments/dva-topup-sweep.service.ts:54-81 | The counters are the number of listed transactions, of those missing from the ledger, of the attempts that were accepted and of those that threw; an empty listing changes nothing. |
| DvaSweep.FailedAttemptIsFiled | src/modules/payments/dva-topup-sweep.service.ts:65-77 | A failed attempt leaves a new issue if and only if the answer was a top-up for that reference and the filing went through. |
| DvaSweep.CreditedMayBeFiled | src/modules/payments/dva-topup-sweep.service.ts:65-73 | An attempt counted as credited leaves the ledger as it was if and only if the top-up was filed under an issue or its reference was there already. |
| DvaSweep.FailureCanLeaveNoTrace | src/modules/payments/dva-topup-sweep.service.ts:34-81 | A sweep that counts a failure and changes nothing. |
| DvaSweep.CreditedCanMeanFiled | src/modules/payments/dva-topup-sweep.service.ts:34-81 | A sweep that counts a credit, files the deposit and credits nobody. |
| DvaSweep.CreditedCanMeanTooLate | src/modules/payments/dva-topup-sweep.service.ts:34-81 | A sweep overtaken by the webhook counts a credit, and credits and files nothing. |
| DvaSweep.WebhookCanOvertakeTheSweep | src/modules/payments/dva-topup-sweep.service.ts:34-81 | A concrete run in which that happens. |
| DvaSweep.SweepIsARun | src/modules/payments/dva-topup-sweep.service.ts:34-81 | A sweep, with all that happens meanwhile, is a run, so it keeps one top-up per reference, balances equal to their sums and no wallet in debt. |
| DvaSweep.CleanSweepLeavesNothingToCredit | src/modules/payments/dva-topup-sweep.service.ts:34-81 | After a sweep without failures a reference not in the ledger was not verified as a success or its body is in the inbox for good. |
| DvaSweep.SecondSweepCreditsNothing | src/modules/payments/dva-topup-sweep.service.ts:34-81 | A second sweep over the same answers then credits nothing, whatever happened in between. |
| Refunds.RefundDesk.GetRefundedAmountKobo | src/modules/payments/payments.repository.ts:470-480 | The sum of the payment's refunds that have not failed. |
| Refunds.RefundDesk.Initiate | src/modules/payments/payments.service.ts:394-443 | A refund of an unsuccessful payment, over what is left or not positive is refused; any other is appended as requested and moves on with the wallet or provider, or stays requested when those fail. |
| Refunds.RefundDesk.Decide | src/modules/payments/refunds.service.ts:204-239 | Only a requested refund is decided: approved or cancelled; anything else is refused and changes nothing. |
| Refunds.RefundDesk.Push | src/modules/payments/refunds.service.ts:155-198 | Only an approved refund is pushed, for no more than its amount; a provider that throws leaves it approved. |
| Refunds.RefundDesk.Retry | src/modules/payments/refunds.service.ts:69-100 | Only a failed refund is retried; a provider that throws leaves it failed. |
| Refunds.RefundDesk.Resolve | src/modules/payments/refunds.service.ts:106-148 | Anything that has not succeeded can be set to succeeded, failed or cancelled by hand. |
| Refunds.StepContinues | src/modules/payments/refunds.service.ts:69-239 | No step removes a refund, changes its amount or payment, or takes it out of "succeeded". |
| Refunds.StatusesMoveAlong | src/modules/payments/refunds.service.ts:69-239 | Every change of a refund's status is one of a fixed table of moves, made by the step that names it. |
| Refunds.SuccessNeedsMoney | src/modules/payments/refunds.service.ts:69-198 | A refund becomes succeeded only by a wallet credit, a provider that says so, or a resolution by hand. |
| Refunds.InitiationFollowsTheReply | src/modules/payments/payments.service.ts:394-455 | An initiation that is not refused leaves a row of its amount: succeeded if and only if the wallet was credited or the provider says processed or success, failed if and only if it says failed, processing on any other reply, requested when wallet or provider threw. |
| Refunds.InitiationRefused | src/modules/payments/payments.service.ts:394-420 | Each refusal of an initiation, if and only if its reason applies first; a refusal changes nothing. |
| Refunds.PushAndRetryFollowTheReply | src/modules/payments/refunds.service.ts:34-198 | A push of an approved refund within its amount and a retry of a failed one follow the reply in the same way. |
| Refunds.DecisionsAndResolutionsTakeEffect | src/modules/payments/refunds.service.ts:106-239 | A decision on a requested refund and a resolution of one that has not succeeded set exactly the status they say. |
| Refunds.RefundRefusals | src/modules/payments/refunds.service.ts:69-239 | Each refusal of the work on an existing refund, if and only if its reason applies first; a refusal changes nothing. |
| Refunds.SettledAndLost | supabase/migrations/20260707000110_recover_expired_order_on_verified_payment.sql:82-89 | A payment that settles has been paid what was expected; one that loses its success keeps what it recorded. |
| Refunds.RunContinues | src/modules/payments/refunds.service.ts:69-239 | Over every run "succeeded" is never left. |
| Refunds.InitiateStep | src/modules/payments/payments.service.ts:394-443 | A new refund fits what is left of its payment. |
| Refunds.StepChangesTotal | src/modules/payments/payments.service.ts:394-443 | An initiation keeps the refunded total within what was paid; any other step adds at most what it brings back from "failed". |
| Refunds.RefundsAreCovered | src/modules/payments/payments.repository.ts:470-480 | Over every run, the refunds of a payment never exceed what was paid plus the refunds brought back from "failed". |
| Refunds.NeverOverRefunded | src/modules/payments/payments.repository.ts:470-480 | In runs that bring none back, they never exceed what was paid. |
| Refunds.WalletGetsAtMostWhatWasPaid | src/modules/payments/payments.service.ts:394-443 | Over every run the wallet is credited for a payment at most what was paid plus what was brought back, less what had succeeded before. |
| Refunds.WhatOverRefunds | src/modules/payments/refunds.service.ts:69-148 | A step over-refunds a payment if and only if it is a retry not answered "failed", or a resolution to anything else, of a failed refund of more than is left. |
| Refunds.RunsThatOverRefund | src/modules/payments/refunds.service.ts:69-148 | A payment is covered at every point of a run if and only if no step of it does that. |
| Refunds.RefusedForCancelledRefunds | src/modules/payments/payments.repository.ts:470-480 | A refund that the payment's details show room for is refused if and only if it falls into the part that cancelled refunds occupy. |
| Refunds.OverRefundIsReachable | src/modules/payments/refunds.service.ts:69-100 | A concrete run that does. |
| FleetMembership.FleetService.UpdateRiderFleet | src/modules/fleet/fleet.repository.ts:326-340 | The conditional write: only on the expected membership, always off shift, never across campuses. |
| FleetMembership.FleetService.MoveRider | src/modules/fleet/fleet.service.ts:594-598 | A move that finds another membership reports the conflict and changes nothing. |
| FleetMembership.FleetService.JoinFleet | src/modules/fleet/fleet.service.ts:456-487 | A join ends in a refusal, in nothing to do, or in the conditional write, as decided on what it read. |
| FleetMembership.FleetService.LeaveFleet | src/modules/fleet/fleet.service.ts:489-506 | The same of leaving. |
| FleetMembership.FleetService.AttachRiderAsAdmin | src/modules/fleet/fleet.service.ts:292-320 | The same of an administrator's attachment. |
| FleetMembership.FleetService.ReleaseRider | src/modules/fleet/fleet.service.ts:571-592 | The same of a release. |
| FleetMembership.EnteringOutcome | src/modules/fleet/fleet.service.ts:292-320 | A join or attachment succeeds if and only if the campus matches, the rider is in no other fleet and, for a join, the partner is active; the rider is then in the fleet, and a refusal changes nothing. |
| FleetMembership.LeavingUndoesJoining | src/modules/fleet/fleet.service.ts:489-592 | Leaving or being released undoes a join, but for the shift. |
| FleetMembership.ReleaseOutcome | src/modules/fleet/fleet.service.ts:571-592 | A partner's release succeeds if and only if the rider is in that partner's fleet; it takes out exactly that rider, off shift, and is otherwise answered as not in this fleet, changing nothing. |
| FleetMembership.LeaveOutcome | src/modules/fleet/fleet.service.ts:489-506 | A leave succeeds if and only if the rider is in a fleet, with the same effect. |
| FleetMembership.EnteringRefusals | src/modules/fleet/fleet.service.ts:456-476 | Which of its refusals a join or attachment gets, each if and only if its reason applies first. |
| FleetMembership.JoiningTakesTheCode | src/modules/fleet/fleet.service.ts:456-460 | A join code leads to a fleet if and only if it is that fleet's code at the time it is looked up. |
| FleetMembership.SettingsTakeEffect | src/modules/fleet/fleet.repository.ts:113-139 | A new status, a new code and a rider's own shift change that one field of that one row. |
| FleetMembership.MovesOutAreOfTheRidersFleet | src/modules/fleet/fleet.service.ts:571-592 | In an interleaving a release is decided if and only if the rider is read in the fleet of the partner that releases, a leave if and only if in some fleet. |
| FleetMembership.UndisturbedRelease | src/modules/fleet/fleet.service.ts:571-592 | Without interference the steps of a release do what the method does. |
| FleetMembership.UndisturbedLeave | src/modules/fleet/fleet.service.ts:489-506 | The same of a leave. |
| FleetMembership.RunStaysConsistent | src/modules/fleet/fleet.service.ts:456-598 | Under every interleaving each rider's fleet is on the rider's campus, and each rider's changes form a chain in which every change leads into a fleet or out of one, never from fleet to fleet. |
| FleetMembership.WriteSucceedsOnUnchangedMembership | src/modules/fleet/fleet.repository.ts:326-340 | A write goes through if and only if the membership is still what was read; the campus check never fires. |
| FleetMembership.HistoryAlternates | src/modules/fleet/fleet.service.ts:456-506 | A rider's next change starts where the last one ended and goes the other way. |
| FleetMembership.BetweenTwoJoinsALeave | src/modules/fleet/fleet.service.ts:456-506 | Between two joins of a rider there is a departure from the first fleet: of racing joins at most one wins. |
| FleetMembership.SecondWriterIsRefused | src/modules/fleet/fleet.service.ts:594-598 | Of two writes based on the same reading, the second finds no match and changes nothing. |
| FleetMembership.MoveClearsAvailability | src/modules/fleet/fleet.repository.ts:320-340 | A move changes exactly one rider, to the target, off shift. |
| FleetMembership.OnlyWritesMoveRiders | src/modules/fleet/fleet.repository.ts:146-153 | Nothing but a successful conditional write changes anybody's fleet. |
| FleetMembership.WhoGoesOffShift | src/modules/fleet/fleet.repository.ts:146-153 | Taking a fleet off shift takes off exactly its riders and changes nothing else. |
| FleetMembership.WriteIgnoresStatus | src/modules/fleet/fleet.repository.ts:326-340 | A write puts a rider into an inactive fleet if and only if the membership is as read and the fleet is not active at that moment. |
| FleetMembership.EnteringAfterOthers | src/modules/fleet/fleet.service.ts:292-309 | After any steps of others, a decided move enters an inactive fleet if and only if the membership is unchanged and the last status since the decision, or else the one at it, is not "active"; so an attachment needs no change at all. |
| FleetMembership.JoinEntersInactive | src/modules/fleet/fleet.service.ts:456-476 | A join does so if and only if the membership is unchanged and the last change of status since its decision was not to "active". |
| FleetMembership.JoinCanReachASuspendedFleet | src/modules/fleet/fleet.service.ts:456-476 | A concrete interleaving in which a suspended fleet gains a rider. |
| FleetMembership.UndisturbedJoin | src/modules/fleet/fleet.service.ts:456-476 | Without interference, the interleaved steps of a join do what the method does. |
| FleetMembership.UndisturbedAttach | src/modules/fleet/fleet.service.ts:292-309 | The same of an attachment. |
| HandlerRegistry.Registry.Register | src/worker/handler-registry.ts:21-25 | One exact registration is added after the earlier ones. |
| HandlerRegistry.Registry.RegisterPrefix | src/worker/handler-registry.ts:27-29 | One prefix registration is added after the earlier ones. |
| HandlerRegistry.Registry.HandlersForEvent | src/worker/handler-registry.ts:31-37 | The exact group, then the prefix group, of the log of registrations. |
| HandlerRegistry.GroupsKeepRegistrationOrder | src/worker/handler-registry.ts:31-37 | Each group is in the order of registration. |
| HandlerRegistry.GroupsAreComplete | src/worker/handler-registry.ts:31-37 | A registration is in its group if and only if it concerns the event. |
| HandlerRegistry.ExactBeforePrefix | src/worker/handler-registry.ts:31-37 | An event's handlers are first one for each exact registration of its type, then one for each prefix registration that concerns it, and no others. |
| HandlerRegistry.WhoIsConcerned | src/worker/handler-registry.ts:31-37 | An exact registration concerns its own type, a prefix registration every type that continues it. |
| HandlerRegistry.UnrelatedRegistration | src/worker/handler-registry.ts:31-37 | Registering for something else changes nothing for an event. |
| Outbox.OutboxProcessor.DrainOnce | src/worker/outbox-processor.ts:13-27 | A claim that fails ends the drain with nothing claimed, a claim whose answer is lost with the batch locked; otherwise the batch is drained. |
| Outbox.OutboxProcessor.DrainBatch | src/worker/outbox-processor.ts:15-25 | The claimed events are handled one after the other; only a failure write that fails ends the loop. |
| Outbox.OutboxProcessor.HandleEvent | src/worker/outbox-processor.ts:16-24 | Handlers, then the completion; whatever throws, then the failure write. |
| Outbox.OutboxProcessor.RunHandlers | src/worker/outbox-processor.ts:17-19 | Handlers are called in order until one throws. |
| Outbox.EachEventHasItsOwnFate | src/worker/outbox-processor.ts:13-27 | The drain ends early if and only if some failure write failed; an event before that ends as its own outcomes say, whatever happened to the others, and an event after it stays claimed. |
| Outbox.FateOfARow | supabase/migrations/20260619000800_outbox_worker_lifecycle.sql:29-63 | When a handled row is processed, a dead letter, or still locked. |
| Outbox.BatchExists | supabase/migrations/20260619000800_outbox_worker_lifecycle.sql:15-22 | For every table there is a batch of the earliest claimable rows, as many as asked for or all there are. |
| Outbox.NobodyIsPassedOver | supabase/migrations/20260619000800_outbox_worker_lifecycle.sql:9-22 | A claim takes only unprocessed, unlocked, due events, and for a worker no dead letters; one that it leaves although it could take it has at least as many others that are not later as were asked for. |
| Outbox.WhatAClaimDoes | supabase/migrations/20260619000800_outbox_worker_lifecycle.sql:23-27 | Exactly the claimed rows are locked for the claimer with one more attempt; nothing else about them, and no other row, changes. |
| Outbox.FailureBacksOff | supabase/migrations/20260619000800_outbox_worker_lifecycle.sql:40-63 | After a failure the worker may claim an event again if and only if attempts are left and the wait, doubling each time, is over. |
| OutboxRuns.EveryRunIsSound | src/worker/outbox-processor.ts:13-27 | Under every interleaving of any number of workers an event is held by at most one session, a held event is locked for it, and every processed event went through all its handlers, in order and once each, in the session that completed it. |
| OutboxRuns.NextKeepsPossession | supabase/migrations/20260619000800_outbox_worker_lifecycle.sql:9-27 | No step gives an event to a second session. |
| OutboxRuns.HeldRowsAreUntouched | src/worker/outbox.repository.ts:25-42 | What a session holds nobody else changes. |
| OutboxRuns.CompletionIsEarned | src/worker/outbox-processor.ts:16-20 | Only a completion makes an event processed, after exactly the handlers due were called. |
| OutboxRuns.ProcessedIsFinal | supabase/migrations/20260619000800_outbox_worker_lifecycle.sql:9-27 | A processed event stays processed, is never claimed by either rule, and no handler is called for it any more. |
| OutboxRuns.WhatAbandons | src/worker/outbox-processor.ts:13-27 | A step leaves an event locked with nobody to release it if and only if it is a claim of the jobs endpoint, a worker's claim whose answer is lost, a crash of the event's holder, or a failure write of its holder that fails, or is lost while the event is still to come. |
| OutboxRuns.AbandonedStaysLocked | src/modules/jobs/jobs.repository.ts:66-99 | Such an event stays as it is for ever. |
| OutboxRuns.CrashStrandsItsBatch | src/worker/outbox-processor.ts:13-27 | What a crashed worker held unprocessed is never processed, whatever happens afterwards. |
| OutboxRuns.EventsCanBeStranded | src/worker/outbox-processor.ts:13-27 | A concrete run that strands an event. |
| OutboxRuns.AttemptsStayBounded | supabase/migrations/20260619000800_outbox_worker_lifecycle.sql:40-63 | No event is attempted more often than configured (or once, if that is less), except a dead letter claimed once more by the jobs endpoint. |
| OutboxRuns.JobsClaimTakesDeadLetters | src/modules/jobs/jobs.repository.ts:66-99 | Over every run a dead letter is claimed by no worker, handled by no handler and never processed, and its row stays as it is if and only if the jobs endpoint does not claim it. |
| OutboxSessions.DrainIsARun | src/worker/outbox-processor.ts:13-27 | The processor's loop is one run of a session of the many-worker model. |
| Redact.RedactionForgetsExactlyTheSecrets | src/common/logging/redact.ts:15-48 | Two trees have the same redaction if and only if they agree everywhere outside sensitive keys. |
| Redact.RedactionAlongAPath | src/common/logging/redact.ts:15-48 | Along harmless keys leaves, array lengths and keys are preserved; under a sensitive key there is nothing but "[REDACTED]". |
| Redact.NothingSurvivesUnderASensitiveKey | src/common/logging/redact.ts:15-19 | A redacted tree holds nothing else under a sensitive key, at any depth. |
| Redact.RedactionIsIdempotent | src/common/logging/redact.ts:15-48 | Redacting again changes nothing, with or without a key. |
| Redact.SensitiveKeysSpellASecret | src/common/logging/redact.ts:1-17 | A key is sensitive if and only if some part of it spells one of the eleven names, each letter in either case. |
| Redact.SecretInsideAKey | src/common/logging/redact.ts:16-17 | So a name inside a longer key, in any case, is caught. |
| Redact.FragmentsAreSensitive | src/common/logging/redact.ts:1-17 | Every listed fragment is itself a sensitive key. |
| Redact.TheMarker | src/common/logging/redact.ts:15-32 | A value becomes the marker if and only if some part of its key spells one of the eleven names; otherwise it becomes its own redaction. |

## Left out

- Signatures and hashing: whether a delivery is authentic is an input, and a body is its own fingerprint.
- The cursor's base64url and JSON text: a cursor is the payload it decodes to, so a malformed cursor does not occur.
- Distances are any non-negative function of two points, leg times whole seconds, and rates exact fractions: haversine, floating-point rounding and the range of dates are not modelled.
- JavaScript numbers that are not finite, and amounts beyond the database's 32-bit integers, other than as a failing transaction.
- The text of error messages, last_error, order numbers, audit records and the sender's own flag of a chat message.
- Fleet errors in interleavings: the many-actor model keeps what is written, not what is answered; the methods' contracts keep both.
- Join codes: any partner whose code matches may be found, since the uniqueness of codes is not needed; riders and partners do not move between campuses.
- Races inside one payment or refund method: each is one step, so a read before a provider call and the write after it do not interleave with others.
- Concurrent code assignments under READ COMMITTED: each creation is one step, and no unique index on codes exists to fall back on.
- Orders that existed before codes did: runs of hand-off codes start from an empty table.
- Claims racing with each other under SKIP LOCKED: each claim is one step that takes the earliest rows.
- Pricing.ChargedAsQuoted: takes subtotal, fees and discount as the quote has them; the stored procedure reads prices, zones and promotions from tables of its own.
- A page listing that throws: it ends the sweep before anything is credited.
- Refund amounts sent to the provider: a row keeps its approved amount, as in the source.
- The balance snapshot each ledger entry carries, and wallet refunds as part of the refund ledger: whether a wallet credit succeeds is an input there.
- Transfers and payouts: a reconciled transfer only enters the inbox; settlements are not part of this model.
- Inventory, batching and outbox rows written beside a payment, and how a wallet order's total is assembled.
- Redaction of values that are not JSON (dates, class instances), and lower-casing beyond ASCII.
- Promotions, spoon limits, campus scopes of administrators, controllers, printing and analytics.
