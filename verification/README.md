# Verification of the commerce platform's core

This project models, in Dafny, the parts of the platform where rows are shared and calls interleave,
and proves what those parts promise. It is organised by component.

**The commerce ledger.** Orders, payments, stock pools, bookings and carts are rows. `Ledger` gives each
`$transaction` body, and each guarded Prisma call, as a function that commits new rows or aborts.
`Database` is the mutable table object; `Orders`, `Payments`, `Inventory`, `CartAdministration`,
`OutboxAdministration` and `PosServices` are the services over it, with their loops, guarded writes and
rollbacks, each proved to do what its function says. `OrderPayments` and `StockLaws` hold the laws of the
ledger: what an order and its payments agree on, and where every unit of stock is.

**The running platform.** `Platform` is the transition system: any number of sync calls, online sales and
stock adjustments, each with a program counter that advances one Prisma call or one transaction at a time,
interleaved with the public order and payment calls, administration, recorded intents and crashes at any
point. `PlatformSafety` and `PlatformSteps` prove an inductive invariant of it; `SyncTheorems`, `Acceptance`
and `StockTheorems` are the theorems over every interleaving. `Schedules` builds runs: how a call can always be
brought to its next milestone. With it `SyncLimits` proves that the bounds cannot be improved and says exactly
when the weaker guarantees fail, and `Episodes` gives complete runs from an empty platform in which they do.
`SoloSync` ties the machine back to the services: a sync call that runs alone on the machine is the sequential
call.

**Listing.** `Cursor`, `Paginate` and `KeysetWalk`: cursors, the filter fingerprint, the keyset predicate,
and the walk over pages on a fixed and on a changing table.

**Tenancy.** `TenantScoping` is the rewriting of queries. `TenantDatabase` is what the database makes of a
statement: unique indexes, exclusion constraints, foreign keys and their delete actions. `TenantPrivacy` and
`TenantIsolation` say exactly which statements, and which whole programs, run as on a database without the rows
of other tenants and leave those rows alone. `TenantOwnership` gives two disciplines under which all of them do,
`TenantSchema` is the schema's own constraints, and `TenantEpisodes` are inputs at which another tenant's row decides.

**People and time.** `Reservations`, `ReservationAdministration` and `ReservationTheorems` (the calendar, call by
call), `ReservationRaces` (the same calls interleaved statement by statement),
`Rbac`, `RbacAdministration`, `RbacTheorems` and `OwnerLock` (roles, grants, the last active owner, and the
row lock statement by statement), `Tokens` and `Authentication` (refresh-token rotation), `Carts` and
`Outbox`.

**Outcomes.** `OrderOutcomes`, `SyncOutcomes`, `TenantOutcomes`, `ReservationOutcomes` and `RbacOutcomes` say what
each call comes to in terms of the rows alone, without the functions that the services are proved against: when it is
accepted, for all inputs, which error each missing condition gives, and every field of the rows it leaves. `Inventory`,
`Outbox`, `Tokens` and `Carts` hold the same for their calls.

## Conventions and assumptions

- One Prisma call is one atomic step and a `$transaction` is atomic with rollback; an `updateMany` is an
  atomic conditional write with a count.
- Server-generated ids are new. Unique indexes: one stock row per (variant, pool), one price per (variant,
  currency), one provenance row per order and per payment, one cart item per (cart, variant), one operation
  per (device, client uuid) and per (device, seq), one membership per (user, tenant), one role per key, one
  permission per key, one token per hash.
- The ledger is that of one tenant; tenancy is treated on its own in the Tenant modules, where a
  delete with RESTRICT is refused while any row still refers to a row that would go.
- Amounts and quantities are mathematical integers, request quantities are at least one. Instants are
  milliseconds. Hashes, ids and the cursor's text encoding are abstract values; a cursor is the JSON value its
  text decodes to, or text that does not decode.
- Price rows are a sequence, in the order in which the database returns them: the order engine takes its
  currency from the first.
- In the interleaving machine the verdict of validation and of the authority check may be anything at any
  time, because their reads are spread over several calls; the sequential calls compute both exactly.
- Errors are values; a thrown error is the refusal that the member names.

## Where the code and its comments differ

- A stale claim is described as recoverable because the engine is atomic. The engine is four transactions,
  so after a release the sale can run again: `ExecutedAtMostOncePerRelease` is the bound that holds,
  `ExecutionBoundIsReached` gives a run that reaches it for every number of releases, and `ReleaseResellsIff` and
  `FirstReleaseDoublesIff` say exactly when a release leads to another sale.
- Validation and rejection happen outside the claim, so a REJECTED operation may still have an order:
  `RejectedHasNoOrderIff` is the exact condition, `RejectedYetPaid` a run in which such an order is paid.
- A validated intent is not always sold at the observed price: the engine uses the currency of the first price
  row. `SoldAsObservedIff` gives the exact condition, `RepricedInOtherCurrency` a call that is accepted at another price.
- A point-of-sale order cancelled before its provenance row exists is restocked to the global pool:
  `CancelBalancedIff` is the exact condition, `EarlyCancelMovesStock` the effect, `EarlyCancelHappens` a run.
- A completed reservation can be cancelled, so COMPLETED is not final: `StatusMoves`.
- The last-active-owner guarantee covers demotions and suspensions. With a promotion between a stale pre-read
  and its write the last owner can be lost: `LastOwnerLostIff` and `StalePreReadLosesOwner`.
- Onboarding a member leaves the permission memo in place: `MemberService.CreateMember` says when it stays
  current.
- A comment says a point-of-sale sale links the booking it names (src/pos/pos-sale.service.ts:143), but the order
  service reads the booking from its options only, and the sale passes the stock pool alone there. No sale links a
  booking or fails for one: `SaleLinksNoBooking`.
- Two calls on one reservation can overwrite each other, because a transition reads the status and then writes
  without a guard: a start or completion that has read the row makes a cancelled reservation live again.
  `CancelledForeverIff` says exactly when, `StartOverwritesCancellation` is a run; one holder per instant survives
  every interleaving (`OneHolderAlways`).
- Many constraints of tenant-scoped tables leave the tenant out: unique indexes (prices, cart items, provenance rows
  and others), the two exclusion constraints, and all foreign keys but one. What a statement of one tenant answers
  and does then depends on another tenant's row exactly when what it puts collides with that row or refers to it, or
  when that row refers to what it deletes: `StatementAloneIff` for a statement, `ProgramAloneIff` for a program, and
  `SharedKeyIsVisible`, `ReservationIsVisible`, `CategoryIsVisible` and `DeleteReachesOthers` as inputs. Programs that
  refer to their own tenant's rows only, as the services do after a tenant-scoped lookup, are isolated:
  `SchemaNoninterference`.
- prisma/schema.prisma:731 declares the feed sequence unique by itself; the migration that creates the index makes
  it unique per tenant. `SchemaKeys` follows the migration.

## Model

| member | source | states |
|---|---|---|
| `SyncTheorems.SettledForever` | src/pos/pos-sync.service.ts:112-203 | over every interleaving with crashes and releases: once an operation is ACCEPTED or REJECTED, its whole row never changes again |
| `SyncTheorems.ReturnedIsDurable` | src/pos/pos-sync.service.ts:117-183 | every result a sync call returns is the settled outcome stored in the row, never an intermediate one |
| `SyncTheorems.ReturnedStays` | src/pos/pos-sync.service.ts:99-203 | a call that has returned keeps its result through any continuation |
| `SyncTheorems.SyncResultsAgree` | src/pos/pos-sync.service.ts:332-376 | any two sync calls on one operation that return, whenever they do, return the same result |
| `Acceptance.AcceptedIsBacked` | src/pos/pos-sync.service.ts:150-184 | in every reachable state, and ever after, an ACCEPTED operation points to a PAID order of its own cashier and customer holding exactly its intent's total quantity of every variant, its one CAPTURED payment of exactly the order's subtotal (the sum of its line totals), and a provenance row with the operation's own session, device, store and cashier, charged to that store's pool |
| `Acceptance.AcceptedShareNothing` | src/pos/pos-sync.service.ts:164-175 | in every reachable state two ACCEPTED operations have different orders and different payments |
| `SyncTheorems.ExecutedAtMostOncePerRelease` | src/pos/pos-sync.service.ts:129-144 | engine executions of one operation number at most one plus its stale-claim releases; without a release at most one |
| `SyncLimits.ExecutionBoundIsReached` | src/pos/pos-sync.service.ts:361-371 | for every n there is a run from an empty platform with exactly n releases of one operation and n + 1 orders created for it |
| `SyncLimits.ReleaseResellsIff` | src/pos/pos-sync.service.ts:361-371 | from any reachable state, a release leads to a sale beyond those of the calls already selling if and only if the row is still PENDING when it is made |
| `SyncLimits.FirstReleaseDoublesIff` | src/pos/pos-sync.service.ts:361-371 | a first release makes a second order for the operation possible if and only if the row is still PENDING when it is made |
| `SyncLimits.RejectedHasNoOrderIff` | src/pos/pos-sync.service.ts:118-136 | a REJECTED operation never has an order, whatever happens next, if and only if no sync call on it holds an order id and none is between its claim and its order |
| `SyncLimits.NoNewSeller` | src/pos/pos-sync.service.ts:129-136 | no step makes a settled operation's calls enter the engine: only winning the claim of a PENDING row does |
| `Schedules.AdvanceToOrder` | src/pos/pos-sale.service.ts:78-155 | from any state of the invariant, administration, stock adjustments and its own steps bring a sync call that has claimed to its order |
| `Episodes.RejectedYetPaid` | src/pos/pos-sync.service.ts:118-136 | a run from an empty platform: one call validates and claims, the price rises, a second call rejects with PRICE_CHANGED, the first sells at the new price; both report REJECTED, the order is PAID and its units are gone |
| `PlatformSteps.ActOk` | src/pos/pos-sync.service.ts:99-203 | every action of every party keeps the global invariant and only extends settled rows |
| `PlatformSteps.ExecOk` | src/pos/pos-sale.service.ts:78-190 | the same over every run |
| `PlatformSteps.ClaimOk` | src/pos/pos-sync.service.ts:129-136 | the guarded claim step keeps the platform invariant and settled rows: only a call that claimed is in the engine |
| `PlatformSteps.RejectOk` | src/pos/pos-sync.service.ts:332-341 | the rejection step keeps the platform invariant: only a PENDING row is settled, with its code and no order |
| `PlatformSteps.ReleaseOk` | src/pos/pos-sync.service.ts:361-371 | the release step keeps the platform invariant and settled rows |
| `PlatformSteps.OrderTxOk` | src/pos/pos-sale.service.ts:144-155 | the order step keeps the platform invariant: the call then holds an order charged to its session's store |
| `PlatformSteps.PaymentTxOk` | src/pos/pos-sale.service.ts:157-161 | the payment step keeps the platform invariant: the call then holds a payment of its own order |
| `PlatformSteps.CaptureTxOk` | src/pos/pos-sale.service.ts:166-173 | the capture step keeps the platform invariant: past it the call's payment is CAPTURED |
| `PlatformSteps.FinalizeOk` | src/pos/pos-sync.service.ts:164-184 | the final update keeps the platform invariant: an ACCEPTED row points to its own paid and recorded sale |
| `PlatformSteps.ProvenanceOk` | src/pos/pos-sale.service.ts:154-186 | the provenance step keeps the platform invariant: a sync call past it has a paid order, a captured payment and a provenance row of its own session |
| `PlatformSafety.CommitOk` | src/order/order.service.ts:135-258 | every commit any party makes keeps the books sound, pools non-negative and each order charged to one pool |
| `StockTheorems.StockConserved` | src/inventory/inventory.service.ts:90-161 | in every interleaving, stock over all pools plus quantities in live orders equals the net of the adjustments that took effect; when none is mid-answer, exactly those that returned success |
| `StockTheorems.NeverNegative` | src/order/order.service.ts:180-190 | no pool is negative in any reachable state, whatever orders, cancellations, sales, sync calls and adjustments have run |
| `StockTheorems.FailedPutsNothing` | src/inventory/inventory.service.ts:103-155 | a failed adjustment has written nothing, a successful one exactly its delta, once |
| `StockTheorems.PoolConserved` | src/order/order.service.ts:325-369 | when point-of-sale orders are cancelled only after their provenance row exists, every pool balances on its own in every state |
| `StockTheorems.CancelBalancedIff` | src/order/order.service.ts:338-342 | a cancellation keeps every pool's total if and only if the order was charged to the global pool or its provenance row exists |
| `StockTheorems.EarlyCancelMovesStock` | src/order/order.service.ts:338-342 | cancelling a pending store order without provenance row takes the held units out of the charged pool's total and adds them to the global pool's, and touches no other pool |
| `Episodes.EarlyCancelHappens` | src/order/order.service.ts:338-342 | a run from an empty platform that ends in such a cancellation: the store's pool total falls by two, the global pool's rises by two, the adjustments unchanged |
| `StockTheorems.OneCommit` | src/order/order.service.ts:89-259 | every action of the platform changes stock, orders and charges by at most one ledger commit |
| `StockLaws.TotalStep` | src/order/order.service.ts:135-369 | one committed write changes stock plus held quantities by exactly what an adjustment put in |
| `StockLaws.PoolStep` | src/order/order.service.ts:135-369 | the same for a single pool, misdirected cancellations excepted |
| `StockLaws.CancelKeepsPoolsIff` | src/order/order.service.ts:326-369 | cancelling keeps every pool's total exactly when it restocks the charged pool |
| `StockLaws.CancelOnce` | src/order/order.service.ts:326-330 | a second cancellation aborts and changes nothing |
| `StockLaws.NonNegativeStep` | src/order/order.service.ts:180-190 | guarded writes keep every pool non-negative |
| `OrderPayments.PaidIffOneCapture` | src/payment/payment.service.ts:83-119 | an order is PAID exactly when it has exactly one CAPTURED payment, and otherwise has none |
| `OrderPayments.SoundStep` | src/payment/payment.service.ts:43-156 | every committed transaction keeps the order and payment invariant (payments match their order's amount and currency, subtotals are the sum of line totals) |
| `OrderPayments.RunSound` | src/payment/payment.service.ts:43-156 | the invariant, and only the allowed status moves, over whole runs |
| `OrderPayments.StepMoves` | src/payment/payment.service.ts:83-156 | the only status moves are PENDING to PAID or CANCELLED and PROCESSING to CAPTURED or FAILED; everything else in the rows is frozen |
| `OrderPayments.OrderRowSound` | src/order/order.service.ts:192-243 | the snapshot's line totals and currency match, and the subtotal is their sum |
| `Lines.Keys` | src/order/order.service.ts:380-388 | the aggregated variants are distinct and are exactly those requested |
| `Lines.AggregationPreservesValue` | src/order/order.service.ts:192-198 | the value summed per aggregated variant equals the value of the raw lines |
| `Orders.OrderService.AggregateItems` | src/order/order.service.ts:380-388 | the map loop yields the distinct variants in order of first occurrence with their total quantities |
| `Orders.OrderService.GroupPrices` | src/order/order.service.ts:149-157 | the price map groups the rows per variant, in the order returned |
| `Orders.OrderService.PriceVariants` | src/order/order.service.ts:158-172 | the pricing loop throws exactly the first refusal, and otherwise prices every variant in the first row's currency |
| `Orders.OrderService.CheckOrder` | src/order/order.service.ts:135-172 | the catalogue checks before the first write, in their order |
| `Orders.OrderService.DecrementAll` | src/order/order.service.ts:180-190 | the guarded decrements succeed exactly when the pool covers every variant, and then charge exactly that |
| `Orders.ChargeAt` | src/order/order.service.ts:180-190 | charging takes each variant's quantity from its own pool row and touches no other row |
| `Orders.OrderService.Subtotal` | src/order/order.service.ts:192-199 | the running subtotal is the value of the aggregated entries |
| `Orders.OrderService.SnapshotItems` | src/order/order.service.ts:225-243 | one snapshot row per entry, with the unit amount and line total |
| `Orders.OrderService.InsertOrder` | src/order/order.service.ts:192-243 | the order row and its snapshot rows as one row: subtotal, currency, one line per variant |
| `Orders.OrderService.LinkOrder` | src/order/order.service.ts:213-223 | a booking is linked only when it exists and is not linked yet |
| `Orders.FirstOpenCart` | src/order/order.service.ts:118-121 | the first open cart of the user from a position on, or none exactly when there is none |
| `Ledger.ItemsFor` | src/order/order.service.ts:225-243 | one snapshot line per distinct variant with its aggregated quantity |
| `Orders.OrderService.WriteOrder` | src/order/order.service.ts:180-251 | the guarded writes refuse with the error of the first that fails, and otherwise leave exactly the new rows; the sold cart is CONVERTED, with its items kept, and no other cart changes |
| `Orders.OrderService.CreateOrderTx` | src/order/order.service.ts:135-258 | the order transaction commits all of its writes, the conversion of the sold cart among them, or rolls back to none |
| `Orders.OrderService.CreateOrder` | src/order/order.service.ts:89-259 | the whole call: items or open cart, customer check, transaction; a checkout converts exactly the first open cart, direct items no cart, and a call that throws changes nothing |
| `OrderOutcomes.PricingVerdict` | src/order/order.service.ts:149-172 | pricing succeeds exactly when every line has a price in the currency of the first line's first price row; otherwise the first line that has none decides the error |
| `OrderOutcomes.NothingAsked` | src/order/order.service.ts:111-125 | the call is answered with an empty cart exactly when it has neither lines nor an open cart with items |
| `OrderOutcomes.PlacedOrTold` | src/order/order.service.ts:89-223 | for all inputs: the order is committed if and only if the customer is known, all variants are active and priced, the pool covers the totals and the booking is free; otherwise exactly the error of the first need not met |
| `OrderOutcomes.PlacedOrderIs` | src/order/order.service.ts:180-251 | a committed call leaves a pending order of the caller with one line per variant at its total quantity and current price, charges exactly that to the pool, and changes no other order, payment or provenance row |
| `OrderOutcomes.SoldCartIsConverted` | src/order/order.service.ts:246-251 | a checkout converts exactly the earliest open cart, keeps its owner and items, and leaves every other cart; direct items leave all carts |
| `OrderOutcomes.NextCartIsLater` | src/order/order.service.ts:118-121 | after a checkout the user's next open cart is a later one, or none |
| `OrderOutcomes.NoSecondCheckout` | src/order/order.service.ts:118-121 | with no later open cart another checkout is refused, whatever it asks |
| `OrderOutcomes.BookingIsLinked` | src/order/order.service.ts:213-223 | the requested booking, which was there and free, points to the new order; no other booking changes |
| `Orders.OrderService.CancelOrder` | src/order/order.service.ts:317-372 | guarded flip and restock; refused unless PENDING |
| `OrderOutcomes.Cancelled` | src/order/order.service.ts:317-372 | exactly pending orders are cancelled; their units go back to the provenance store's pool, or to the global one, and nothing else changes |
| `Orders.OrderService.RestockAll` | src/order/order.service.ts:344-368 | the restock loop returns every quantity, creating missing rows |
| `Orders.RestockAt` | src/order/order.service.ts:349-368 | restocking returns each variant's quantity to its own pool row and touches no other row |
| `Orders.RefusalSticks` | src/order/order.service.ts:159-171 | once pricing is refused no later variant changes the error |
| `Database.Prisma.AddToStock` | src/order/order.service.ts:181-188 | the conditional stock write and its count |
| `Database.Prisma.MovePendingOrder` | src/order/order.service.ts:326-330 | the guarded status move of an order and its count |
| `Database.Prisma.MoveProcessingPayment` | src/payment/payment.service.ts:93-99 | the guarded status move of a payment and its count |
| `Database.Prisma.Restore` | src/order/order.service.ts:135-258 | rollback puts every commerce row back |
| `Payments.PaymentService.CreatePayment` | src/payment/payment.service.ts:40-69 | a PROCESSING payment of the order's amount and currency, only for a PENDING order without a captured one |
| `Payments.PaymentService.CapturePayment` | src/payment/payment.service.ts:80-120 | payment and order move together or not at all; repeating is idempotent |
| `Payments.PaymentService.FailPayment` | src/payment/payment.service.ts:122-156 | only PROCESSING fails; repeating is idempotent |
| `OrderOutcomes.PaymentCreated` | src/payment/payment.service.ts:40-69 | which error each obstacle gives, and the one row a created payment adds |
| `OrderOutcomes.PaymentCaptured` | src/payment/payment.service.ts:80-120 | exactly a processing payment of a pending order is captured, with the order; everything else stays, and each obstacle has its error |
| `OrderOutcomes.PaymentFailed` | src/payment/payment.service.ts:122-156 | exactly a processing payment fails; a capture is never undone |
| `OrderOutcomes.SaleInserted` | prisma/schema.prisma:574-578 | a provenance row goes in exactly when neither its order nor its payment has one |
| `Inventory.InventoryService.AdjustScoped` | src/inventory/inventory.service.ts:90-161 | without interference: refused exactly for an unknown variant or store or a negative result, else the pool holds the sum |
| `Inventory.AloneIsAdjustScoped` | src/inventory/inventory.service.ts:90-161 | the stepped call, run alone, is that method |
| `Inventory.AdjustNeeds` | src/inventory/inventory.service.ts:90-161 | which adjustments are refused, and with which error |
| `PosServices.PosSaleService.CreateSale` | src/pos/pos-sale.service.ts:78-190 | the session, device and cashier checks, then four transactions on the session's store pool without a booking, each kept once committed; the rows and the error of the first that fails; a cash sale that succeeds left the order PAID by the returned payment, with a provenance row of the session and cashier |
| `PosServices.PosSaleService.PayAndRecord` | src/pos/pos-sale.service.ts:144-186 | payment, capture when cash, and provenance of a fresh order; on success the provenance row is that of the session and the cash order is PAID by the returned payment |
| `PosServices.PosSyncService.ValidateIntent` | src/pos/pos-sync.service.ts:271-325 | the verdict is the first refusal of emptiness, unknown or inactive variants, mixed currency, missing or changed price, or stock |
| `PosServices.PosSyncService.CheckLines` | src/pos/pos-sync.service.ts:306-315 | the line loop reports the first line whose currency or price disagrees |
| `PosServices.PosSyncService.MapPrices` | src/pos/pos-sync.service.ts:291-296 | the nested price map holds the last amount per variant and currency |
| `PosServices.PosSyncService.AwaitConcurrentResult` | src/pos/pos-sync.service.ts:348-376 | a settled row is returned as it is; otherwise nothing is, and the claim of a PENDING row is released exactly when one of the 200 polls finds it older than five minutes |
| `PosServices.PosSyncService.PersistRejection` | src/pos/pos-sync.service.ts:332-341 | only a PENDING row is rejected |
| `PosServices.PosSyncService.Execute` | src/pos/pos-sync.service.ts:146-203 | claim, engine, then ACCEPTED, or OUT_OF_STOCK when the engine lost the stock race, or the error with the claim left; a result is the settled row's, and an ACCEPTED one names a PAID order and its captured payment |
| `PosServices.PosSyncService.AssertSyncAuthority` | src/pos/pos-sync.service.ts:227-252 | passes exactly when the device is active, the credential is that device's, and the caller is the recorded cashier with the current permission; else the first error in the source's order |
| `PosServices.PosSyncService.SyncOperation` | src/pos/pos-sync.service.ts:99-203 | the whole sequential call; a result, or any change, needs the operation's own active device with its credential, the recorded cashier and the current permission; a result is the settled row's, and a call on a settled operation changes nothing |
| `SoloSync.AloneIsSync` | src/pos/pos-sync.service.ts:99-203 | from any platform state, the machine's steps of one call run alone leave the same rows and the same result (or an error) as the sequential call, whatever the clock |
| `SoloSync.EngineAlone` | src/pos/pos-sale.service.ts:78-190 | the same for the engine part, from the session read to the final update |
| `SoloSync.EngineRecords` | src/pos/pos-sale.service.ts:144-186 | payment, capture, order read and provenance on the machine are the sequential ones, and never fail with the stock error |
| `SoloSync.PollOut` | src/pos/pos-sync.service.ts:348-376 | a call that meets a held claim gives up, after releasing it exactly when it is stale |
| `PosTheorems.ValidatedIntentIsSold` | src/pos/pos-sync.service.ts:271-325 | a validated intent priced in its own currency ends ACCEPTED: paid, recorded, subtotal the observed prices times quantities, and only the store's pool drops, by exactly the recorded quantities |
| `PosTheorems.SoldAsObservedIff` | src/order/order.service.ts:161-171 | a validated intent is sold as observed if and only if the first price row of its first variant is in the intent's currency |
| `PosTheorems.SingleCurrencySuffices` | src/order/order.service.ts:161-171 | that holds when the first variant is priced in one currency only |
| `PosTheorems.RejectionLeavesOnlyVerdict` | src/pos/pos-sync.service.ts:118-127 | a rejected intent changes nothing but its own verdict |
| `PosTheorems.ReplayChangesNothing` | src/pos/pos-sync.service.ts:109-114 | replaying a returned call changes nothing and returns the same, whatever has happened to catalogue, stock and sessions |
| `PosTheorems.RepricedInOtherCurrency` | src/order/order.service.ts:161-171 | a concrete sync call whose intent validates at EUR 5 and which returns ACCEPTED with an order of USD 900: not sold as observed |
| `PosTheorems.SameAmount` | src/pos/pos-sync.service.ts:291-315 | with unique price rows, validator and engine read the same amount |
| `PosTheorems.EngineCurrency` | src/order/order.service.ts:161-171 | the order is in the intent's currency exactly when the first price row is |
| `PosTheorems.SaleLinksNoBooking` | src/pos/pos-sale.service.ts:139-155 | a point-of-sale sale leaves every booking link as it was, whatever booking its request names, and is never refused for one |
| `SyncOutcomes.OnlyTheEntitledSync` | src/pos/pos-sync.service.ts:227-252 | a sync call returns a result or changes any row only if the operation exists, the presented credential is that of its own device, the device is active, and the caller is the recorded cashier and may create sales |
| `SyncOutcomes.RefusedCallersAreTold` | src/pos/pos-sync.service.ts:210-252 | which error each missing condition gives, by the first that fails |
| `SyncOutcomes.EntitledCallersAreServed` | src/pos/pos-sync.service.ts:227-252 | with all of them no authority error is given, whatever the rows and the intent |
| `SyncOutcomes.ExecutableIff` | src/pos/pos-sync.service.ts:271-325 | an intent validates exactly when it has lines, every variant is active, every line is in one currency at the variant's current price, and the store's pool covers the totals |
| `SyncOutcomes.VerdictMeans` | src/pos/pos-sync.service.ts:271-325 | each rejection code is given exactly in its own case; among prices the first bad line decides |
| `SyncOutcomes.SettledIsAnswered` | src/pos/pos-sync.service.ts:109-114 | a settled operation is answered from its row and nothing changes |
| `SyncOutcomes.RefusedIsRejected` | src/pos/pos-sync.service.ts:117-127 | a refused intent is rejected with its code, and only that verdict is written |
| `SyncOutcomes.HeldClaimIsLeft` | src/pos/pos-sync.service.ts:348-376 | a held claim is never taken over; it is released exactly when one of two hundred polls finds it more than five minutes old |
| `SyncOutcomes.ExecutableIsSold` | src/pos/pos-sync.service.ts:129-203 | an unclaimed executable operation is claimed and sold for cash to its recorded cashier, session and customer; the three ways this ends, with every field of the row |
| `SyncOutcomes.SaleRefused` | src/pos/pos-sale.service.ts:78-137 | a sale that is not allowed writes nothing; which error each missing condition gives |
| `SyncOutcomes.SaleLeaves` | src/pos/pos-sale.service.ts:139-190 | an allowed sale stands or falls with its order; a cash sale leaves it paid and captured, a card sale pending with a PROCESSING payment, both recorded with the session's device, store and cashier |
| `Outbox.RecordKeepsKeys` | src/pos/pos-operation.service.ts:94-179 | recording keeps (device, client uuid) and (device, seq) unique |
| `Outbox.ReplayReturnsOriginal` | src/pos/pos-operation.service.ts:150-172 | pushing the same client uuid again, later and with any payload, returns the original row and changes nothing |
| `Outbox.RecordIsPlatformStep` | src/pos/pos-operation.service.ts:94-134 | a push inserts exactly when the platform may record the intent, and inserts that row |
| `Outbox.PushNeeds` | src/pos/pos-operation.service.ts:94-179 | every answer of a push with its condition, and every field of the row it inserts |
| `OutboxAdministration.PosOperationService.RecordOfflineSaleIntent` | src/pos/pos-operation.service.ts:94-179 | unknown or foreign session refused; replay returns the original; a taken seq conflicts; else the row carries the session's device, store and cashier |
| `OutboxAdministration.PosOperationService.InsertIntent` | src/pos/pos-operation.service.ts:115-149 | the parent row and its lines, written in a loop, are the whole intent |
| `Cursor.RoundTrip` | src/common/pagination/cursor.ts:59-117 | a written cursor is accepted exactly by requests with its sort column, direction and fingerprint, and yields its key |
| `Cursor.AcceptedIsWritable` | src/common/pagination/cursor.ts:80-117 | whatever is accepted stands for a position the server could have written |
| `Cursor.FilterFingerprint` | src/common/pagination/cursor.ts:123-135 | the loop hashes the sorted entries that carry a value |
| `Cursor.FingerprintIsCanonical` | src/common/pagination/cursor.ts:123-135 | filter records that agree on their values have one fingerprint, in whatever order they were built |
| `Cursor.NormalFormIff` | src/common/pagination/cursor.ts:123-135 | two filter records have one normal form if and only if they carry the same values under the same keys |
| `Cursor.BoundToFilters` | src/common/pagination/cursor.ts:80-135 | where the hash tells two normal forms apart, a cursor is accepted if and only if sort column, direction and filters are those it was written under |
| `Paginate.OrderByIsBefore` | src/common/pagination/paginate.ts:32-40 | the orderBy clause is the two-key order |
| `Paginate.KeysetIsAfter` | src/common/pagination/paginate.ts:48-63 | the OR expansion selects exactly the rows strictly after the cursor, in both directions |
| `Paginate.Sorted` | src/common/pagination/paginate.ts:32-40 | the list order of a table: exactly its rows, ascending |
| `Paginate.SortedUnique` | src/common/pagination/paginate.ts:32-40 | that order is unique |
| `KeysetWalk.ListIsNextStretch` | src/common/pagination/paginate.ts:69-147 | a request with the right cursor is never refused; its page is the next stretch of the list, and it has a next cursor exactly when rows are left |
| `KeysetWalk.FetchTrims` | src/common/pagination/paginate.ts:69-89 | the probe row is dropped and the cursor is that of the last row kept |
| `KeysetWalk.WalkUnderChange` | src/common/pagination/paginate.ts:48-89 | with any inserts and deletes between requests: no request is refused, keys are strictly monotone, no position comes twice and, when sort keys never change, no id does, only matching rows of the tables come, and every row present throughout a completed walk comes |
| `KeysetWalk.FixedWalk` | src/common/pagination/paginate.ts:69-147 | on a fixed table, for every limit and both directions, exactly max(1, ceil(n/limit)) requests return exactly the sorted, filtered table |
| `TenantScoping.OperationArgs.ScopeArgs` | src/common/database/prisma/tenant-scoping.extension.ts:47-87 | the argument object after the in-place rewrite, operation by operation: every condition and field given is kept, the tenant alone is added or put in place of a given one |
| `TenantPrivacy.MatchingIsOwn` | src/common/database/prisma/tenant-scoping.extension.ts:47-62 | a scoped filter matches only the tenant's rows, whatever other conditions it carries |
| `TenantPrivacy.ScopedWritesStamped` | src/common/database/prisma/tenant-scoping.extension.ts:60-83 | everything a named operation writes carries the tenant |
| `TenantOutcomes.MatchesChosen` | src/common/database/prisma/tenant-scoping.extension.ts:47-80 | a scoped filter matches a row if and only if it is the tenant's and meets every condition the caller gave |
| `TenantOutcomes.WritesAsGiven` | src/common/database/prisma/tenant-scoping.extension.ts:60-83 | create, every row of createMany, update and both sides of upsert store every field as the caller gave it, and the tenant |
| `TenantOutcomes.ReadsChosen` | src/common/database/prisma/tenant-scoping.extension.ts:50-59 | a read answers from exactly the rows the caller means and changes nothing |
| `TenantOutcomes.UpdateManyLeaves` | src/common/database/prisma/tenant-scoping.extension.ts:70-74 | updateMany writes exactly the rows the caller means, as given, and counts them |
| `TenantOutcomes.UpdateLeaves` | src/common/database/prisma/tenant-scoping.extension.ts:70-74 | update writes one of them, as given, and answers it |
| `TenantOutcomes.CreateLeaves` | src/common/database/prisma/tenant-scoping.extension.ts:60-62 | create adds one row with the fields as given |
| `TenantOutcomes.CreateManyLeaves` | src/common/database/prisma/tenant-scoping.extension.ts:63-69 | createMany adds one row for each record, as given |
| `TenantOutcomes.UpsertLeaves` | src/common/database/prisma/tenant-scoping.extension.ts:79-83 | upsert updates a row the caller means with its update side, or creates one with its create side when there is none |
| `TenantOutcomes.DeleteManyLeaves` | src/common/database/prisma/tenant-scoping.extension.ts:75-78 | deleteMany takes out exactly the rows the caller means, with what goes with them |
| `TenantOutcomes.DeleteLeaves` | src/common/database/prisma/tenant-scoping.extension.ts:75-78 | delete takes out one of them and answers it |
| `TenantPrivacy.StatementKeepsOthersIff` | src/common/database/prisma/tenant-scoping.extension.ts:47-87 | a named operation leaves other tenants' rows as they were if and only if it is no accepted delete of a row that one of them refers to, with no assumption on keys or ids |
| `TenantPrivacy.AcceptsIff` | prisma/schema.prisma:75-979 | the constraints decide a put with and without other tenants' rows alike if and only if it neither collides with one of them on a unique or exclusion constraint nor takes a new reference to one |
| `TenantPrivacy.RemovedKeepsIff` | prisma/schema.prisma:70-955 | a delete that is not refused leaves other tenants' rows as they were if and only if none of them refers to a row that goes, cascades included |
| `TenantPrivacy.StatementAloneIff` | src/common/database/prisma/tenant-scoping.extension.ts:47-87 | a named operation answers and acts as on the database without other tenants' rows, and leaves those alone, if and only if none of them decides it by collision, reference or delete action; otherwise the answers or those rows differ |
| `TenantIsolation.ProgramTouchesOwnRowsOnly` | src/common/database/prisma/tenant-scoping.extension.ts:163-181 | whatever a program does, for however long, other tenants' rows are never added or written; they are only lost or emptied by the delete of a row they refer to, and stay as they were if and only if no delete of the run hits one |
| `TenantIsolation.ProgramAloneIff` | src/common/database/prisma/tenant-scoping.extension.ts:163-181 | a program of any length is answered as on the database without other tenants' rows and leaves those alone if and only if no statement of its run is decided by one of them, and then the rows it sees end up the same |
| `TenantIsolation.UndecidedRunsAgree` | src/common/database/prisma/tenant-scoping.extension.ts:163-181 | two databases that show a tenant the same rows answer such a program alike and go on showing the same rows |
| `TenantIsolation.FailsClosed` | src/common/database/prisma/tenant-scoping.extension.ts:170-176 | a program of any length without a tenant is refused every statement on a scoped model and writes nothing there; scoped tables stay as they were if and only if no delete of a global row hits one of their rows |
| `TenantIsolation.NothingReadWithoutTenant` | src/common/database/prisma/tenant-scoping.extension.ts:170-176 | such a program gets the same answers on all databases with the same global rows, when it deletes no global row and writes none that refers to a scoped one |
| `TenantOwnership.Noninterference` | src/common/database/prisma/tenant-scoping.extension.ts:163-181 | programs that put only their own tenant's references into anchored columns get the same answers on any two sane databases that show the tenant the same rows, which go on doing so, and keep all other tenants' rows |
| `TenantOwnership.NoninterferenceOfTenantKeys` | src/common/database/prisma/tenant-scoping.extension.ts:163-181 | the same for every program of named operations on tables whose keys and references all contain the tenant, whatever it writes |
| `TenantSchema.SchemaKeysAnchored` | prisma/schema.prisma:75-979 | every unique index and exclusion constraint of the tenant-scoped tables, those written in the migrations included, has a column whose values belong to one tenant |
| `TenantSchema.SchemaRulesAnchored` | prisma/schema.prisma:65-976 | with its foreign keys, the schema meets what isolation asks of the constraints |
| `TenantSchema.SchemaNoninterference` | prisma/schema.prisma:65-979 | noninterference under the schema's own unique indexes, exclusion constraints, foreign keys and delete actions, for programs that refer to their own tenant's rows and delete no global row |
| `TenantSchema.TenantKeyedExactly` | prisma/schema.prisma:65-979 | the eight models whose keys and references all contain the tenant or lead to global tables are exactly those listed |
| `TenantSchema.TenantRowsAreScoped` | src/common/database/prisma/tenant-scoping.extension.ts:4-41 | a model with the tenant in a key or a reference to a scoped model is itself scoped, the role and permission links excepted |
| `TenantSchema.TenantKeyedNoninterference` | prisma/schema.prisma:65-979 | on those models noninterference holds for every program of named operations, on databases where no other tenant's row refers to the tenant's |
| `TenantEpisodes.ReservationIsVisible` | prisma/migrations/20260821020000_add_reservation_domain/migration.sql:55-64 | two databases that show tenant b the same rows: its reservation of tenant a's equipment is refused exactly where tenant a holds the window |
| `TenantEpisodes.CategoryIsVisible` | prisma/schema.prisma:246-246 | two databases that show tenant b the same rows: its product in tenant a's category is accepted exactly where the category exists |
| `TenantEpisodes.SharedKeyIsVisible` | prisma/schema.prisma:299-316 | two databases that show tenant b the same rows: its price is refused exactly where tenant a has priced the variant in that currency |
| `TenantEpisodes.DeleteReachesOthers` | prisma/schema.prisma:70-70 | deleting tenant b's store changes tenant a's asset that refers to it |
| `ReservationAdministration.ReservationService.CreateReservation` | src/reservation/reservation.service.ts:209-237 | references, instants, range and overlap checked in this order, then a RESERVED row |
| `ReservationAdministration.ReservationService.UpdateReservation` | src/reservation/reservation.service.ts:239-281 | only RESERVED rows, effective interval and overlap checked as the merge of given and stored times; afterwards given fields have their given values, absent ones their old ones, and no other row changes |
| `ReservationAdministration.ReservationService.AssertNoOverlap` | src/reservation/reservation.service.ts:349-370 | true exactly when no other holding row of the equipment intersects the window |
| `ReservationAdministration.ReservationService.Transition` | src/reservation/reservation.service.ts:405-428 | source status, then time gate, then the new status |
| `ReservationAdministration.ReservationService.StartReservation` | src/reservation/reservation.service.ts:288-293 | RESERVED to ACTIVE, not before startAt |
| `ReservationAdministration.ReservationService.CompleteReservation` | src/reservation/reservation.service.ts:301-306 | ACTIVE to COMPLETED, not before endAt |
| `ReservationAdministration.ReservationService.DeleteReservation` | src/reservation/reservation.service.ts:313-327 | soft cancel, refused when already cancelled |
| `ReservationTheorems.CreateOverlapIff` | src/reservation/reservation.service.ts:345-370 | creation is refused for overlap exactly when some instant of the window is already held, and otherwise succeeds |
| `ReservationTheorems.UpdateOverlapIff` | src/reservation/reservation.service.ts:252-262 | an update is refused for overlap exactly when somebody else holds an instant of the merged window |
| `ReservationOutcomes.CreateTold` | src/reservation/reservation.service.ts:209-237 | when a booking is taken, for all inputs, and which error each failing check gives |
| `ReservationOutcomes.CreateLeaves` | src/reservation/reservation.service.ts:209-237 | an accepted booking is a RESERVED row of its customer with its notes, holding exactly the requested instants; every other row stays |
| `ReservationOutcomes.UpdateTold` | src/reservation/reservation.service.ts:239-264 | when an update is accepted, for all inputs, and which error each failing check gives |
| `ReservationOutcomes.UpdateLeaves` | src/reservation/reservation.service.ts:264-281 | an accepted update leaves given fields with their given values and absent ones with their old ones, customer, equipment, status and all other rows as they were; the row then holds exactly the merged window |
| `ReservationOutcomes.LifecycleTold` | src/reservation/reservation.service.ts:288-428 | start, complete and cancel: when each is accepted, which error otherwise, and the one status it moves |
| `ReservationOutcomes.RefusedChangesNothing` | src/reservation/reservation.service.ts:209-428 | a refused call changes nothing |
| `ReservationTheorems.DoSafe` | src/reservation/reservation.service.ts:209-327 | every call keeps every instant of every equipment with at most one holder |
| `ReservationTheorems.RowStaysClocked` | src/reservation/reservation.service.ts:405-428 | every call keeps each row's recorded moments consistent with its interval and status |
| `ReservationTheorems.EveryRun` | src/reservation/reservation.service.ts:209-428 | in every state of every run no instant of any equipment has two holders, intervals are non-empty, started rows started at or after startAt and completed ones completed at or after endAt |
| `ReservationTheorems.LaterInTheRun` | src/reservation/reservation.service.ts:239-428 | links and started intervals are frozen, recorded moments stay, cancelled rows never change |
| `ReservationTheorems.StatusMoves` | src/reservation/reservation.service.ts:288-327 | the only status moves, and exactly which call makes each |
| `ReservationTheorems.ReleasedWindowIsFree` | src/reservation/reservation.service.ts:295-327 | a window freed by cancelling or completing can be booked again as it was |
| `ReservationRaces.ConstraintIsSafety` | prisma/migrations/20260821020000_add_reservation_domain/migration.sql:45-64 | the CHECK and the exclusion constraint are calendar safety: no instant of any equipment has two holders |
| `ReservationRaces.OneHolderAlways` | src/reservation/reservation.service.ts:209-428 | with all calls interleaved statement by statement no instant of any equipment ever has two holders |
| `ReservationRaces.AloneIsDo` | src/reservation/reservation.service.ts:209-428 | a call whose statements nothing interrupts is the sequential call: same rows, same answer |
| `ReservationRaces.CancelledForeverIff` | src/reservation/reservation.service.ts:405-428 | from any reachable state a cancelled reservation stays cancelled under every continuation if and only if no start or completion of it is past its read |
| `ReservationRaces.StartOverwritesCancellation` | src/reservation/reservation.service.ts:313-327 | a run from the empty book in which a start's write makes a cancelled reservation ACTIVE, both calls reporting success |
| `RbacAdministration.PermissionService.GetPermissions` | src/rbac/permission.service.ts:26-41 | memoised or loaded, the answer is the current one: owner exactly for an ACTIVE membership with the owner role, otherwise exactly the keys an ACTIVE membership's role grants |
| `RbacAdministration.PermissionService.LoadSnapshot` | src/rbac/permission.service.ts:70-99 | the same, read from the membership, its status, its role and the role's catalogue permissions, custom role or not |
| `RbacAdministration.PermissionService.AssertPermission` | src/rbac/permission.service.ts:43-68 | passes exactly for an active owner or a member who holds the key |
| `Rbac.SnapshotIff` | src/rbac/permission.service.ts:70-99 | a user holds a key if and only if an ACTIVE membership with a role other than the owner role grants a catalogue permission of that key, custom or not; owner if and only if an ACTIVE membership has the owner role |
| `Rbac.CheckPassesIff` | src/rbac/permission.service.ts:43-68 | a check passes if and only if the user is an active owner or holds one, or all, of the keys |
| `RbacAdministration.LockActiveOwners` | src/rbac/last-active-owner.ts:24-34 | the lock query returns, once each, exactly the ACTIVE memberships whose role is an owner role |
| `RbacAdministration.LastActiveOwner` | src/rbac/last-active-owner.ts:19-38 | refuses unless two different memberships are ACTIVE and hold the owner role |
| `RbacAdministration.MemberService.ResolveTargetRole` | src/member/member.service.ts:237-252 | the requested role of the tenant, or its employee system role |
| `RbacAdministration.RoleService.ResolvePermissions` | src/rbac/role.service.ts:354-377 | the size, length, duplicate and catalogue checks by counting are the checks by content |
| `RbacAdministration.RoleService.AssertBoundedGrants` | src/rbac/role.service.ts:384-400 | an actor grants only held permissions; owners exempt |
| `RbacAdministration.RoleService.CreateRole` | src/rbac/role.service.ts:68-108 | the whole call with its refusals in order; the memo is current afterwards |
| `RbacAdministration.RoleService.DeleteRole` | src/rbac/role.service.ts:198-226 | only custom roles without members |
| `RbacAdministration.RoleService.AssignPermissions` | src/rbac/role.service.ts:228-255 | grants replaced, never on system roles |
| `RbacAdministration.RoleService.AssignRoleToMembership` | src/rbac/role.service.ts:257-303 | self change and owner assignment refused; demotion of an owner only with another active owner |
| `RbacAdministration.MemberService.UpdateMemberStatus` | src/member/member.service.ts:108-143 | self change refused; suspending an active owner only with another active owner |
| `RbacAdministration.MemberService.CreateMember` | src/member/member.service.ts:162-235 | onboarding with its refusals; the memo stays current exactly when it holds nothing outdated of the new member |
| `RbacOutcomes.CreateRoleTold` | src/rbac/role.service.ts:68-108 | when a role is created: the actor may manage roles and grants only what the actor holds; which error each failing check gives |
| `RbacOutcomes.CreateRoleLeaves` | src/rbac/role.service.ts:91-108 | one new custom role with exactly the requested permissions; nothing else changes |
| `RbacOutcomes.DeleteRoleTold` | src/rbac/role.service.ts:198-226 | when a role is deleted, and which error each failing check gives |
| `RbacOutcomes.DeleteRoleLeaves` | src/rbac/role.service.ts:198-226 | the role is gone and nothing else changes |
| `RbacOutcomes.AssignPermissionsTold` | src/rbac/role.service.ts:228-255 | when grants are replaced, and which error each failing check gives |
| `RbacOutcomes.AssignPermissionsLeaves` | src/rbac/role.service.ts:228-255 | the role grants exactly the requested permissions; nothing else changes |
| `RbacOutcomes.AssignRoleTold` | src/rbac/role.service.ts:257-303 | when a role is assigned, and which error each failing check gives |
| `RbacOutcomes.AssignRoleLeaves` | src/rbac/role.service.ts:257-303 | the membership has exactly the requested role, its user and status as before; nothing else changes |
| `RbacOutcomes.UpdateStatusTold` | src/member/member.service.ts:108-143 | when a member is suspended or reactivated, and which error each failing check gives |
| `RbacOutcomes.UpdateStatusLeaves` | src/member/member.service.ts:108-143 | the membership has exactly the requested status; nothing else changes |
| `RbacOutcomes.CreateMemberTold` | src/member/member.service.ts:162-235 | when somebody is onboarded, and which error each failing check gives |
| `RbacOutcomes.NoTargetTold` | src/member/member.service.ts:237-252 | which error a missing role gives |
| `RbacOutcomes.CreateMemberLeaves` | src/member/member.service.ts:162-235 | one new ACTIVE membership of the user whom the email names, with the role asked for |
| `RbacTheorems.DoWellFormed` | src/rbac/role.service.ts:68-303 | every call keeps the foreign keys and unique keys |
| `RbacTheorems.NonOwnerIsConfined` | src/rbac/role.service.ts:384-400 | no call by a non-owner widens the tenant's grants or the circle of owner memberships |
| `RbacTheorems.GrantClosure` | src/rbac/role.service.ts:228-303 | over any run in which no owner acts, the union of all roles' permissions and the set of owner memberships never grow |
| `RbacTheorems.NoEscalation` | src/rbac/permission.service.ts:70-99 | after such a run every user's effective permissions lie within the initial grants, and owner power only where the owner role was held |
| `RbacTheorems.OwnMembershipUntouched` | src/rbac/role.service.ts:276-278 | nobody changes their own membership by any call |
| `RbacTheorems.KeepsAnActiveOwner` | src/rbac/last-active-owner.ts:19-38 | one atomic call leaves an active owner |
| `RbacTheorems.AlwaysAnActiveOwner` | src/rbac/last-active-owner.ts:19-38 | a tenant with an active owner has one after every run of atomic calls |
| `OwnerLock.LockedWriteIsSafe` | src/rbac/last-active-owner.ts:19-38 | with rows locked one at a time and pre-reads unlocked, a write that went through the lock never removes the last active owner, promotions included |
| `OwnerLock.ActInv` | src/rbac/last-active-owner.ts:24-37 | locked and counted rows stay active owners until their holder writes, and no row has two holders |
| `OwnerLock.ConcurrentRemovalsKeepAnOwner` | src/member/member.service.ts:126-137 | concurrent demotions and suspensions with arbitrarily stale pre-reads keep an active owner |
| `OwnerLock.ConcurrentRemovalsFromRest` | src/rbac/role.service.ts:287-302 | the same from a state with no call under way |
| `OwnerLock.LastOwnerLostIff` | src/rbac/role.service.ts:287-302 | any step of any run loses the last active owner if and only if an unlocked call now writes to the only active owner |
| `OwnerLock.StalePreReadLosesOwner` | src/rbac/role.service.ts:287-302 | a concrete run with a promotion in between that does |
| `Authentication.AuthService.Login` | src/auth/auth.service.ts:72-109 | a token only for an active user with a valid password |
| `Authentication.AuthService.Refresh` | src/auth/auth.service.ts:119-167 | rotation exactly for a live token of an active user; revoke and insert together or neither |
| `Authentication.AuthService.LogOut` | src/auth/auth.service.ts:175-181 | revokes a live token, otherwise changes nothing |
| `Authentication.AuthService.UpdateManyRevoke` | src/auth/auth.service.ts:141-147 | the conditional revoke and its count |
| `Tokens.LoginNeeds` | src/auth/auth.service.ts:72-109 | who may log in, and that a token lives seven days |
| `Tokens.RefreshNeeds` | src/auth/auth.service.ts:119-167 | a refresh succeeds if and only if the token is known, unrevoked, unexpired and its user active; both rows it leaves, field by field |
| `Tokens.LogoutLeaves` | src/auth/auth.service.ts:175-181 | exactly the presented token is revoked, once |
| `Tokens.AloneIsRefresh` | src/auth/auth.service.ts:119-167 | the four interleavable steps of a refresh, run alone, are the atomic call |
| `Tokens.ActInv` | src/auth/auth.service.ts:125-161 | every step of every call keeps the chains |
| `Tokens.RotateKeepsChains` | src/auth/auth.service.ts:139-161 | revoking a live token and extending its chain by the successor keeps every token in one place of one chain, with at most the youngest unrevoked |
| `Tokens.OneLiveTokenPerLogin` | src/auth/auth.service.ts:125-161 | over every interleaving the tokens of one login form a chain with at most the youngest unrevoked, one user, and at most seven days to live |
| `Tokens.OneLoginPerToken` | src/auth/auth.service.ts:99-106 | every token has exactly one place in exactly one chain |
| `Tokens.RevokedForever` | src/auth/auth.service.ts:139-147 | a revoked token stays revoked and is never rotated again |
| `Tokens.RotatedAtMostOnce` | src/auth/auth.service.ts:139-161 | no token is rotated twice in any run |
| `Tokens.DeadFamilyStaysDead` | src/auth/auth.service.ts:175-181 | after the youngest token is revoked the family never has another descendant or a live member |
| `CartAdministration.CartService.GetOrCreateCart` | src/cart/cart.service.ts:167-190 | the first open cart of the user, created when there is none |
| `Carts.CartOfCall` | src/cart/cart.service.ts:167-190 | the caller's earliest open cart, or a new empty one; no other cart is touched |
| `Carts.OnlyItems` | src/cart/cart.service.ts:70-83 | writing a cart's items changes nothing else of it and no other cart |
| `CartAdministration.CartService.AddItem` | src/cart/cart.service.ts:62-113 | merge into the variant's item or append one; one item per variant is kept |
| `CartAdministration.CartService.UpdateItem` | src/cart/cart.service.ts:115-135 | sets an item of the caller's own open cart, else refused |
| `CartAdministration.CartService.RemoveItem` | src/cart/cart.service.ts:137-150 | removes an item of the caller's own open cart, else refused |
| `CartAdministration.CartService.EnrichTotals` | src/cart/cart.service.ts:266-282 | the nested totals loop has a total for exactly the offered currencies, equal to the sum of the line totals |
| `CartAdministration.CartService.AddRows` | src/cart/cart.service.ts:268-277 | the inner loop adds one item's line totals, currency by currency |
| `Carts.MergeAdds` | src/cart/cart.service.ts:70-83 | merging adds exactly the quantity to exactly the variant |
| `Carts.SetQuantitySets` | src/cart/cart.service.ts:128-131 | setting leaves that quantity and every other variant as it was |
| `Carts.WithoutRemoves` | src/cart/cart.service.ts:146-146 | removing takes out the variant and nothing else |
| `Carts.CartTotalIsValue` | src/cart/cart.service.ts:266-282 | with unique prices a cart total is the sum of unit amounts times quantities |
| `Carts.KeysOfCart` | src/order/order.service.ts:380-388 | aggregating a cart keeps its items in their order |
| `Carts.CheckoutAgrees` | src/order/order.service.ts:111-125 | a cart checkout that succeeds creates the cart: an offered currency, the cart's total in it as subtotal, and one line per item with its quantity and displayed line total |

## Left out

- Controllers, DTO decorators, guards, modules, logging, health and exception filters: framework plumbing.
- PostgreSQL's isolation levels: each Prisma call and each transaction is one atomic step; only the owner lock is modelled row by row.
- Wall-clock delays between polls; a stale claim is whatever the clock readings say.
- Integer widths: amounts and quantities do not overflow.
- JavaScript's ordering of integer-like object keys in the fingerprint: keys sort as strings.
- Product names, SKUs and product rows in order snapshots, and order, payment and sale summaries.
- Deletion of variants, stores, customers, users and carts (`discardCart`), and the cascades that go with it.
- `BookingService`: its overlap rule lives in a database constraint; only the order link of a booking row is modelled.
- Device and session lifecycles beyond what sync reads, reconciliation reports and `pullFeed`.
- Asset, category, customer, equipment, product, service, store and tenant administration: unique-key CRUD with the same pagination.
- Interleaved cart calls: these calls are atomic here, so the duplicate-item retry path is not reached; the same retry shape is modelled, interleaved, for stock adjustments.
- `TenantScoping.OperationArgs.ScopeArgs`: operations it does not name pass through unchanged; the theorems speak of the ones it names. Nested writes, relation traversal and raw SQL are outside the extension and outside the model, as are filters that test other tables.
- `TenantOutcomes.WritesAsGiven`: a createMany without a data argument, which the client's types exclude, is scoped to one record that holds only the tenant.
- Foreign keys of the tenant column to the tenant row, and deletes of tenants; updates of ids and their ON UPDATE actions. Types, required columns and CHECK constraints are any test of a single row.
- `applyTenantScoping`'s copying of client properties: object plumbing.
- `RbacAdministration.RoleService.CreateRole`: names and descriptions, and with them `updateRole`, `listRoles` and `getRole`, are not modelled.
- `Authentication.AuthService.Login`: registration, access tokens, password hashing and its timing equalisation; password validity is a parameter.
- `Acceptance.AcceptedIsBacked`: tenancy is not part of the ledger rows.
