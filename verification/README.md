# Verification of the Aurel & Co. shop

A Dafny 4.11 model of the shop's order, stock and payment protocol and of the smaller algorithms
around it, with proofs. `dafny verify dfyconfig.toml` checks everything.

## What is modelled

**Orders, stock, payments, spending limits.** The tables are `Shop.Db`. `Transactions` gives every
write as one atomic step on the tables; the conditional ones return `None` when they lose the race.
`OrderServices` and `CreateOrder` are the services in imperative form: line loops that change rows one
at a time, roll back on failure, retry on a taken order code, and are proved to do exactly the atomic
step. `OrderProtocol` is the concurrent system: each operation is split where the code awaits the
database, so a reading step captures rows that may be stale when the committing step runs. Any number of
actors interleave; an actor that never takes its next step has crashed. `OrderLaws` holds what is true
of each order, `OrderInvariant` and `OrderSteps` what every step keeps, and `OrderTheorems`, `Settlements`,
`Receipts` and `LinkLimit` what follows over all runs. `OrderScenarios` holds concrete runs from the empty shop, one for
each thing the protocol does not prevent. `CreateRun` shows that a whole create request is one of the
protocol's runs, made of one actor's own steps. The two facts that
make stale snapshots harmless are that no status is ever revisited, and that the goods, totals and books
of an order can only change together with its status.

**VNPay.** `VnpayQuery` is the signed query at the level of bytes, with a decoder; `SettleFallback` is
`settlePayment`'s guards and its non-atomic path. The atomic path is part of `OrderProtocol`.

**The multi-process store** (`JsonStore`, `JsonProtocol`), **promotions** (`Promotions`), the
**notification queue** (`Notify`), the **rate limiter** (`RateLimiter`), **event framing** (`Sse`),
**phone numbers** (`Phone`), **trusted proxies** (`TrustProxy`) and **money** (`Pricing`, `Checkout`).

Databases, clocks, randomness and digests are parameters: random order codes and payment references are
arguments, `digest` and `hmac` are arbitrary functions, clocks move forward by arbitrary amounts.
Numbers are exact integers and rationals. Text is ASCII or bytes.

## Where the code and its descriptions differ

The model follows the code.

- A VNPay settlement moves an order to PAID without writing an event and without booking `paidUsd`
  (backend/src/payments/payments.service.ts:97-113). So the audit trail replays, and a paid order is
  booked in full, exactly when no settlement moved it (`TrailReplaysIff`, `PaidOrdersBookedIff`,
  `LedgerBalances`; `SettlementLeavesAGap` is such a run).
- A settlement looks only at its own payment row, so an order can be paid twice: by two open links, or by
  one link and an administrator's manual confirmation beside it. Exactly when is `ReceiptsExact`, and
  exactly which step does it `CollectionOverpaysIff` and `ConfirmationOverpaysIff`; the runs are `PaidTwice`
  and `PaidByHandAndByLink`. Money that collects after the order stopped waiting stays beside it, whatever
  its status (`StrayMoneyIff`, `MoneyBesideACancelledOrder`). A collected row is never seen beside a
  *pending* order (`CollectedMeansNotPending`).
- Open links are counted in one query and inserted in another, so requests that overlap can pass the limit
  of three together (`FourOpenLinks`), but never by more than the overlap (`OpenLinksBounded`).
- A cart is taken for an earlier order when totals, numbers of lines and products match, which another cart
  can do (`DuplicateOfAnotherCart`).
- After a rolled-back settling transaction a callback can report "already set, not settled" for a row that
  another callback then collects (`StaleAnswer`). Exactly which reports stay right is `AnswerIsFinalIff`.
- The drift check skips a product it cannot read, and runs before the promotion's snapshot is taken. So
  the price recorded at staging comes back exactly when the product still has it at the moment of the
  snapshot, whatever the drift check said (`PromotionRoundTripIff`, `LateEditLosesStagedPrice`).
- The promotion clash check skips promotions that have ended but are not yet closed. Opening over one
  whose price is already changed loses the product's own price for good; opening is safe exactly when no
  open promotion has changed a listed price (`OpenedCleanIff`, `UnsafeOpeningLosesAPrice`,
  `EndedButOpenOverlap`).
- The store's merge says the newer copy wins; the cached copy always wins. The cap is applied before the
  purge, so a removal can lose another item (`RemovalCanLoseAnother`; exactly when it does not is
  `RemovalLosesNothingElseIff`). `remove` answers true even when the
  save failed (`RemovedMeans`). Loading gives up on a file with one invalid object; merging skips it
  (`LoadKeepsAllIff`, `InvalidRowEmptiesLoad`).
- The retry delays are announced as 30 seconds, 2 minutes, 8 minutes; the third is never used. A new
  message waits for a timer that is already set, for up to two minutes (`FreshMessageWaits`).
- An unlisted item with an empty slug does not mark the cart as custom work, so a simulated payment
  settles it without review (`UnreviewedLineCollectedIff`, `UnreviewedWorkSettles`).
- CONTEXT.md calls settlement the only way to PAID; an administrator's manual confirmation is the one
  other (`BecomesPaidIff`).

## Model

| member | source | states |
|---|---|---|
| OrderTheorems.StockConserved | backend/src/orders/orders.service.ts:426-438 | in every reachable state and for every product, stock is non-negative and stock plus the units of orders neither cancelled nor refunded is everything ever supplied |
| OrderTheorems.SupplyFixed | backend/src/admin/admin-listings.service.ts:170-174 | the supply is the product's initial stock until an administrator sets a new count, over any continuation of any run |
| OrderTheorems.TerminalStays | backend/src/admin/admin-orders.service.ts:74-82 | completed, cancelled and refunded orders keep status and trail for ever, whatever stale readers commit |
| OrderTheorems.BecomesPaidIff | backend/src/admin/admin-orders.service.ts:113-157 | a step takes an order to paid if and only if it is a settlement collecting while the order is pending, or an administrator's confirmation that finds the status it read, which was pending or confirmed |
| OrderTheorems.StatusNeverRevisited | backend/src/admin/admin-orders.service.ts:113-123 | if an order has one status at two moments it had the same status, books and trail at every moment between, so a conditional update cannot be fooled by a status that went away and came back |
| OrderTheorems.TrailReplaysIff | backend/src/admin/admin-orders.service.ts:159-171 | replaying an order's events from nothing gives its current status if and only if no VNPay settlement moved it |
| OrderTheorems.GapIff | backend/src/payments/payments.service.ts:97-113 | an order's trail has a gap if and only if some settling step of the run took it from pending to paid |
| OrderTheorems.LedgerBalances | backend/src/admin/admin-orders.service.ts:141-157 | SUCCESS rows outside VNPay always sum to paidUsd, which never exceeds the total; all SUCCESS rows do if and only if none came through VNPay |
| OrderTheorems.PaidOrdersBookedIff | backend/src/admin/admin-orders.service.ts:106-157 | a paid or refunded order, deposits included, is booked in full in both currencies if and only if no settlement moved it; one that was has nothing booked |
| OrderTheorems.ReferencesOnFile | backend/src/admin/admin-orders.service.ts:93-112 | no reachable refunded order lacks its refund reference and no manual collection lacks its payment reference |
| OrderTheorems.CollectedMeansNotPending | backend/src/common/vnpay.ts:136-148 | a collected VNPay row is never beside a pending order |
| Settlements.SettledOnce | backend/src/common/vnpay.ts:196-216 | over any run at most one callback settles a row, and its verdict is the row's status ever after |
| Settlements.ReferenceSettledOnce | backend/src/payments/payments.service.ts:44-47 | as long as no two rows share a reference, at most one callback that names it settles anything |
| Settlements.AnswerIsFinalIff | backend/src/common/vnpay.ts:185-212 | an already-set answer stays right over every continuation if and only if it said settled or the row has failed; without a roll-back it always does |
| Receipts.ReceiptsExact | backend/src/payments/payments.service.ts:97-113 | every reachable order has received what is booked plus its total once per collected link; it is overpaid if and only if two links collected, or one did beside a booked amount |
| Receipts.CollectionOverpaysIff | backend/src/payments/payments.service.ts:97-107 | a collecting callback adds the order's total, and overpays if and only if the order had already received anything |
| Receipts.ConfirmationOverpaysIff | backend/src/admin/admin-orders.service.ts:141-157 | a manual confirmation brings receipts to the total plus the total once per collected link, so it overpays if and only if a link has collected |
| Receipts.LinksCounted | backend/src/payments/payments.service.ts:97-113 | every collected link of an order either took it from pending to paid, which at most one did, or was collected by a step of the run when the order was no longer pending |
| Receipts.StrayMoneyIff | backend/src/payments/payments.service.ts:97-113 | for every order, whatever its status, some step collected when it was no longer pending if and only if it has more collected links than the one that may have moved it; for a confirmed or cancelled order that is all its link money, and it stood so then too |
| Receipts.OverpaidIff | backend/src/payments/payments.service.ts:97-113 | an order is overpaid if and only if one step collected beside it after a settlement or a booking, or two steps did |
| Receipts.SettlingCollects | backend/src/payments/payments.service.ts:97-113 | a settling step adds one collected link exactly when it collects a row of the order, then pays the order exactly when it was pending, and moves no order anywhere else |
| Receipts.OnlySettlingCollects | backend/src/common/vnpay.ts:136-148 | no other step changes an existing payment row or adds collected VNPay money |
| OrderScenarios.StaleAnswer | backend/src/payments/payments.service.ts:114-118 | a run in which a callback, rolled back, answers not settled and another callback then collects |
| OrderScenarios.SettlementLeavesAGap | backend/src/payments/payments.service.ts:97-113 | a run in which a settlement pays an order whose trail still replays to pending and whose books are empty |
| OrderScenarios.MoneyBesideACancelledOrder | backend/src/payments/payments.service.ts:103-107 | a run that ends with a cancelled order beside a collected row |
| OrderScenarios.PaidTwice | backend/src/payments/payments.service.ts:147-166 | a run in which two links collect twice the order's total |
| OrderScenarios.PaidByHandAndByLink | backend/src/admin/admin-orders.service.ts:141-157 | a run in which a manual confirmation and the link left open collect twice the total, with the books saying paid in full |
| OrderScenarios.FourOpenLinks | backend/src/payments/payments.service.ts:147-166 | a run in which two overlapping requests leave four links open |
| OrderScenarios.UnreviewedWorkSettles | backend/src/orders/orders.service.ts:363-366 | a run that confirms and collects a bespoke line without a slug |
| OrderTheorems.IntentUsedOnce | backend/src/orders/orders.service.ts:561-566 | once an intent is attached to an order it stays attached to that order only; the order is its user's, within the approved maximum, and the intent was active and unexpired when checked |
| OrderTheorems.AbandonedForEver | backend/src/orders/orders.service.ts:351-360 | a locked intent that no actor is on its way to attach never changes again |
| OrderTheorems.SoldOutAbandons | backend/src/orders/orders.service.ts:427-438 | running out of stock leaves the intent so |
| OrderTheorems.SecondLockLoses | backend/src/orders/orders.service.ts:351-360 | of two requests that both checked an active intent, the second to lock it changes nothing and holds nothing |
| OrderSteps.StepKeeps | backend/src/orders/orders.service.ts:412-471 | every step of every actor keeps conservation, trail, ledger, row, snapshot and intent invariants, and only moves rows forward |
| OrderSteps.UpdatedOrderOk | backend/src/admin/admin-orders.service.ts:113-171 | an administrator's commit that finds the status it read keeps the order's laws although it works from the stale row |
| OrderSteps.NobodyGrips | backend/src/orders/orders.service.ts:351-360 | no actor holds an intent that is still active |
| OrderInvariant.LaterTransitive | backend/src/orders/order-expire.service.ts:52-57 | being a later version of an order is transitive, so snapshots stay valid across any number of foreign steps |
| Shop.AllowedIff | backend/src/admin/admin-orders.service.ts:74-82 | the status graph has exactly nine edges |
| Shop.ReachesIff | backend/src/admin/admin-orders.service.ts:74-82 | the relation by which orders move on is exactly repeated moves along allowed edges |
| OrderInvariant.StableGrows | backend/src/admin/admin-orders.service.ts:83-88 | what an actor knows from its captured rows survives every step of the others |
| OrderInvariant.StockKept | backend/src/orders/orders.service.ts:680-687 | goods return to the shelf exactly when an order stops holding them, which conserves the total |
| OrderLaws.ReplaysIff | backend/src/orders/orders.service.ts:462 | for one order, replay succeeds if and only if its trail has no gap |
| OrderLaws.PaidInFullIff | backend/src/admin/admin-orders.service.ts:141-157 | a paid or refunded order is booked in full if and only if its own trail replays |
| OrderLaws.BalancesIff | backend/src/payments/payments.service.ts:156-166 | SUCCESS rows sum to paidUsd if and only if no VNPay row collected |
| OrderLaws.CollectKeeps | backend/src/admin/admin-orders.service.ts:141-157 | confirming a transfer books exactly what was owed, also after a deposit, and keeps trail and rows |
| OrderLaws.SettleKeeps | backend/src/payments/payments.service.ts:97-113 | a settlement keeps an order's laws with a gap opened at the end of the trail when it moves the order |
| OrderLaws.MoveKeeps | backend/src/orders/orders.service.ts:669-697 | moving along an allowed edge with its event keeps trail, ledger and rows |
| OrderLaws.NewOrderOk | backend/src/orders/orders.service.ts:439-464 | a new order starts with a replaying trail, balanced books and sound rows |
| Transactions.ReserveIff | backend/src/orders/orders.service.ts:427-438 | the line-by-line conditional decrement succeeds if and only if for each product the summed quantity over all lines is in stock |
| Transactions.ReserveExact | backend/src/orders/orders.service.ts:427-438 | it then takes exactly those sums and touches nothing else |
| Transactions.RestockExact | backend/src/orders/orders.service.ts:680-687 | giving back adds exactly the summed quantities |
| Transactions.RestockUndoesReserve | backend/src/orders/orders.service.ts:669-687 | cancelling gives back exactly what placing took |
| Transactions.CommitCreateIff | backend/src/orders/orders.service.ts:426-471 | the create transaction commits if and only if the sums are in stock and the code is free, and then takes the sums and adds one order |
| Transactions.CollectedLandsIff | backend/src/payments/payments.service.ts:103-107 | after a collection the order is paid if and only if it was pending or already paid |
| LinkLimit.OpenLinksBounded | backend/src/payments/payments.service.ts:147-166 | when at most n requests for an order overlap between count and insert, its open links and those requests never exceed two more than n, so requests that do not overlap keep the limit of three |
| Transactions.RevokeActive | backend/src/payments/payments.service.ts:222-227 | exactly the user's active intents become revoked |
| OrderServices.Database.Return | backend/src/orders/orders.service.ts:680-687 | the restocking loop computes Restock |
| OrderServices.Database.Take | backend/src/orders/orders.service.ts:427-438 | the decrement loop succeeds exactly when Reserve does, with its result |
| OrderServices.OrdersService.CreateTransaction | backend/src/orders/orders.service.ts:426-471 | the transaction does CommitCreate or leaves no trace |
| OrderServices.OrdersService.Place | backend/src/orders/orders.service.ts:413-487 | the six-attempt loop computes TryCodes and leaves the tables alone on failure |
| OrderServices.TryCodesIff | backend/src/orders/orders.service.ts:423-487 | an order is placed if and only if the goods are there and some drawn code is free; it carries the first free code and takes exactly the sums |
| OrderServices.FirstFree | backend/src/orders/orders.service.ts:473-483 | the first drawn code that no order has, or that there is none |
| OrderServices.OrdersService.Cancel | backend/src/orders/orders.service.ts:652-699 | a cancel succeeds if and only if the order is there, pending, and the caller is signed in as its own user or gives its contact; which refusal each other caller gets; and the whole effect on row, event and goods |
| OrderTheorems.EventsHaveAuthors | backend/src/admin/admin-orders.service.ts:159-171 | over any run every event after an order's first was written by a customer's cancel by an entitled caller, by an expiry of an order older than its sweep's cutoff, or by an administrator's update that asked for that status and is signed with its actor |
| OrderTheorems.CustomerCancelsEntitled | backend/src/orders/orders.service.ts:652-699 | over any run every cancellation on file as a customer's was committed by a caller entitled to the order and names the user that caller was signed in as |
| OrderServices.AdminOrdersService.UpdateStatus | backend/src/admin/admin-orders.service.ts:62-177 | each refusal exactly when, from the nine edges and the two references, and the whole effect on row, event, receipt, goods and the statistics cache |
| OrderServices.StaleIdsExact | backend/src/orders/order-expire.service.ts:43-48 | the sweep lists exactly the pending orders older than the cutoff |
| OrderServices.ExpireAllExact | backend/src/orders/order-expire.service.ts:50-81 | a sweep cancels exactly the listed orders with one event each, returns exactly their goods and changes nothing else |
| OrderServices.OrderExpireService.ExpireOrder | backend/src/orders/order-expire.service.ts:52-74 | one order's transaction does CommitCancel with the captured goods, or nothing when it lost |
| OrderServices.OrderExpireService.Sweep | backend/src/orders/order-expire.service.ts:49-81 | the loop has the effect of ExpireAll and counts every order it cancelled |
| OrderServices.OrderExpireService.ExpirePending | backend/src/orders/order-expire.service.ts:33-85 | exactly the keys older than the cutoff go; at most a hundred orders are swept and counted, and when fewer were no stale pending order is left |
| OrderServices.PaymentsService.CreatePayUrl | backend/src/payments/payments.service.ts:124-166 | who gets a payment link and which refusal everyone else gets, each exactly when; the row it adds freezes the total |
| OrderServices.PaymentsService.Settle | backend/src/payments/payments.service.ts:90-119 | the settling transaction does exactly SettleAtomically and says whether the row was still unsettled; when the database rolls it back nothing changes and it says no |
| Checkout.PriceLines | backend/src/orders/orders.service.ts:279-318 | the pricing loop with its running totals computes the quote, whose lines cost what LineCosts says, or the error that CartRefusedIff names |
| Checkout.LineCosts | backend/src/orders/orders.service.ts:282-318 | a listed product costs its own price, an unlisted item the client's price rounded down and never below zero, both plus the strap's surcharge; the quantity is the asked one rounded down and held within 1 and 99, or 1 |
| Checkout.ListedPricesIgnored | backend/src/orders/orders.service.ts:300-305 | carts that differ only in the client's prices of listed products get one quote |
| Checkout.CartRefusedIff | backend/src/orders/orders.service.ts:289-297 | a cart is refused if and only if some item is off show or short of stock, and the first such item gives the reason |
| Checkout.OrderPlaced | backend/src/orders/orders.service.ts:363-372 | every field of a new order: confirmed if and only if the method is simulated and all named products exist, with everything or the deposit paid, and otherwise pending with nothing paid |
| Pricing.StrapDeltaIs | backend/src/common/pricing.ts:15-19 | the metal strap adds 4500, the rubber one 1200, any other nothing |
| Checkout.QuoteLines | backend/src/orders/orders.service.ts:282-318 | lines and cart items correspond one to one in order, and a product-backed line was on show with enough stock for its quantity of 1 to 99 |
| Checkout.QuoteTotals | backend/src/orders/orders.service.ts:298-305 | the USD total is the sum of the lines and the VND total is 25200 times it |
| Checkout.CustomIff | backend/src/orders/orders.service.ts:284-288 | a cart counts as custom if and only if it holds a non-empty unknown slug |
| Checkout.UnreviewedLineCollectedIff | backend/src/orders/orders.service.ts:363-366 | exactly when an order settles at once although one of its lines has no product |
| Pricing.DepositSplits | backend/src/orders/orders.service.ts:365-372 | the deposit is within the total in both currencies, 5040 VND per dollar exactly, and within 10080 VND of the converted rounded dollars |
| Pricing.RoundFifthIsNearest | backend/src/orders/orders.service.ts:367 | the deposit rounds a fifth to the nearest integer, halves up |
| CreateOrder.HandleCreate | backend/src/orders/orders.service.ts:228-589 | the handler changes the tables and replies exactly as Create says |
| CreateOrder.EarlyRefusalsIff | backend/src/orders/orders.service.ts:242-267 | each refusal before pricing exactly when: blank fields, terms, a key of someone else, an unknown or disabled method, an empty cart |
| CreateOrder.NormalizeKeyIff | backend/src/orders/orders.service.ts:82-87 | a key counts if and only if, trimmed, it is 8 to 64 letters, digits, dashes and underscores |
| CreateOrder.PreparedIff | backend/src/orders/orders.service.ts:241-320 | only the first fifty items count; a cart is refused for a blocked item or a total of nothing and otherwise priced for the caller and method asked |
| CreateOrder.ConsumeIntentIff | backend/src/orders/orders.service.ts:328-361 | what naming a spending limit needs, and that it is then locked and nothing else changes |
| CreateOrder.RecordedKeyDecides | backend/src/orders/orders.service.ts:204-225 | a recorded key decides the request: no change, the recorded order for its owner, a conflict for anyone else |
| CreateOrder.CreateAddsOne | backend/src/orders/orders.service.ts:493-515 | a request adds at most one order; when it adds one its key is recorded for it and its owner, and no other key changes |
| CreateOrder.Newest | backend/src/orders/orders.service.ts:379-397 | content deduplication finds the newest look-alike order |
| CreateOrder.DoubleSubmitIsCaught | backend/src/orders/orders.service.ts:374-410 | a signed-in user who sends the same cart again within three minutes at the same prices gets the order just placed |
| CreateOrder.DuplicateMeans | backend/src/orders/orders.service.ts:379-410 | the order a deduplicated answer names is the user's, recent and open, with the cart's total and as many lines, all for products in the cart |
| CreateOrder.DuplicateOneLineIff | backend/src/orders/orders.service.ts:379-410 | for a cart of one product line it has the cart's own line if and only if the unit price is unchanged |
| CreateOrder.DuplicateSameProducts | backend/src/orders/orders.service.ts:379-410 | when neither lists a product twice it holds exactly the cart's products |
| CreateOrder.DuplicateOfAnotherCart | backend/src/orders/orders.service.ts:379-410 | a cart taken for an order that lacks one of its products |
| CreateOrder.KeyLasts | backend/src/orders/order-expire.service.ts:36-42 | a recorded key keeps its record until a sweep drops it |
| CreateOrder.KeyCreatesOnce | backend/src/orders/orders.service.ts:249-256 | two requests with one key both create an order only if a sweep dropped the key between them |
| CreateOrder.RetryIsHarmless | backend/src/orders/orders.service.ts:204-225 | until then every retry changes nothing and answers with the first order or a refusal; a signed-in caller gets the order if and only if it is theirs, a guest if and only if a guest placed it and the digests of the contacts agree |
| CreateRun.CreateIsARun | backend/src/orders/orders.service.ts:228-589 | whatever a create request does to products, orders and intents, one idle actor does by reading, vetting, locking, placing, attaching and linking alone, with the supply and every other actor's work unchanged |
| CreateRun.RequestConservesStock | backend/src/orders/orders.service.ts:426-471 | a request handled in any reachable state conserves stock for every product |
| VnpayQuery.EncodeStep | backend/src/common/vnpay.ts:47-49 | the textual replacement of "%20" acts byte by byte |
| VnpayQuery.DecodeUndoesEncode | backend/src/common/vnpay.ts:47-49 | encoding is reversible |
| VnpayQuery.EncodeIsClean | backend/src/common/vnpay.ts:47-49 | encoded text holds neither separator |
| VnpayQuery.SortKeysSorts | backend/src/common/vnpay.ts:56 | sorting keeps the keys and puts them in strictly ascending order, which KeysInByteOrder spells out |
| VnpayQuery.KeysInByteOrder | backend/src/common/vnpay.ts:56 | of two sorted keys the earlier is a beginning of the later or has the smaller byte where they first differ |
| VnpayQuery.ByteText | backend/src/common/vnpay.ts:47-49 | which bytes stay as they are, that a space becomes a plus, and that any other byte becomes two capital hexadecimal digits |
| VnpayQuery.EncodeHead | backend/src/common/vnpay.ts:47-49 | a text is escaped byte by byte |
| VnpayQuery.QueryOfTwo | backend/src/common/vnpay.ts:56-57 | the text of any query of two parameters, whichever was given first |
| VnpayQuery.QueryIgnoresOrder | backend/src/common/vnpay.ts:52-63 | the query does not depend on parameter order |
| VnpayQuery.ParseUndoesQuery | backend/src/common/vnpay.ts:52-63 | reading the query gives the parameters back |
| VnpayQuery.QueryInjective | backend/src/common/vnpay.ts:52-63 | two parameter maps have one query if and only if they are equal |
| VnpayQuery.VerifyReturn | backend/src/common/vnpay.ts:99-112 | the loop that copies all but the signature parameters decides Verifies, and refuses an empty secret |
| VnpayQuery.SignedIsAccepted | backend/src/common/vnpay.ts:99-112 | what was signed is accepted in any order, with or without the hash type |
| VnpayQuery.NoSecretNoCallback | backend/src/common/vnpay.ts:99-104 | without a secret nothing is accepted |
| VnpayQuery.SignatureCaseIgnored | backend/src/common/vnpay.ts:111-112 | the letter case of the received signature does not matter |
| VnpayQuery.SignatureBindsParams | backend/src/common/vnpay.ts:99-112 | with a collision-free digest a signature is accepted with exactly the parameters it was made for |
| VnpayQuery.LinkCarriesParams | backend/src/common/vnpay.ts:73-96 | the gateway reads from a payment link exactly the parameters and their signature, and they verify |
| SettleFallback.AmountOkIff | backend/src/common/vnpay.ts:179-183 | exactly which amounts pass |
| SettleFallback.GuardAnswersIff | backend/src/common/vnpay.ts:166-191 | each answer of the guards exactly when: bad checksum, row or order missing, amount half a unit or more away from the frozen one, already settled with the row's own verdict |
| SettleFallback.GuardPassesIff | backend/src/common/vnpay.ts:166-191 | exactly when a callback goes on to settle |
| SettleFallback.ReportsOnce | backend/src/common/vnpay.ts:218-237 | on the fallback path at most one callback reports success or unpaid, and each report agrees with payment and order |
| SettleFallback.TornIff | backend/src/common/vnpay.ts:219-233 | payment collected beside an unpaid order if and only if the winning callback still owes the order write, suspended or crashed |
| SettleFallback.TornRun | backend/src/common/vnpay.ts:219-233 | a run that ends with the payment collected and the order pending |
| SettleFallback.CompletedRunsAgree | backend/src/common/vnpay.ts:219-233 | when every callback completed, the payment succeeded if and only if the order is paid |
| JsonStore.DiskOnlyIds | agent/aurel_agents/proactive.py:225-236 | the ids a merge adds are those on disk that the cache lacks, each once |
| JsonStore.DiskOnlyMembers | agent/aurel_agents/proactive.py:225-236 | a merge adds exactly the first valid row of every id the cache lacks |
| JsonStore.MergedMembers | agent/aurel_agents/proactive.py:201-237 | within the cap, what a merge holds |
| JsonStore.SavedFile | agent/aurel_agents/proactive.py:162-192 | a locked save writes exactly the cache plus disk-only items, cut and then purged; a failed one leaves the file alone |
| JsonStore.RemovedMeans | agent/aurel_agents/proactive.py:247-258 | what both answers of a removal mean for cache and file, failures included |
| JsonStore.RemovalLosesNothingElseIff | agent/aurel_agents/proactive.py:182-185 | a removal loses nothing else if and only if the file is unreadable, or the rest of the cache with what the file alone holds fits the cap, or is one over it with the file's copy of the removed item in front |
| JsonStore.RemovalCanLoseAnother | agent/aurel_agents/proactive.py:182-185 | a concrete removal at the cap that loses a second item |
| JsonStore.JsonListStore.MergeFromDisk | agent/aurel_agents/proactive.py:201-237 | the merge loop with its table of known ids computes Merged |
| JsonStore.JsonListStore.Save | agent/aurel_agents/proactive.py:162-192 | a save does exactly Saved, whatever fails |
| JsonStore.JsonListStore.Remove | agent/aurel_agents/proactive.py:247-258 | a removal does exactly Removed |
| JsonStore.JsonListStore.Add | agent/aurel_agents/proactive.py:273-277 | an add appends, cuts and saves |
| JsonStore.AddKeepsNewest | agent/aurel_agents/proactive.py:273-277 | an add ends with the new item and keeps the last items up to the cap, all of them for a cap of zero |
| JsonStore.LoadKeepsNewest | agent/aurel_agents/proactive.py:149-160 | loading takes the last items up to the cap |
| JsonStore.ReopenedHolds | agent/aurel_agents/proactive.py:142-160 | opening a store after a successful save gives exactly what was saved, in order |
| JsonStore.LoadKeepsAllIff | agent/aurel_agents/proactive.py:149-160 | within the cap, loading keeps every valid row if and only if no object is invalid or there is no valid row |
| JsonStore.InvalidRowEmptiesLoad | agent/aurel_agents/proactive.py:201-236 | where one invalid object empties a fresh cache, a merge keeps the valid rows around it |
| JsonProtocol.StepKeeps | agent/aurel_agents/proactive.py:177-186 | every step of every process keeps the store's invariant, and the file only grows |
| JsonProtocol.FileIsSound | agent/aurel_agents/proactive.py:162-192 | the file has unique ids and only added items, and holds everything cached by a process whose last save succeeded |
| JsonProtocol.AddedIsKept | agent/aurel_agents/proactive.py:177-192 | without crashes every added item is in the file or in the cache of a process that has yet to save it, swallowed failures included |
| JsonProtocol.NothingLost | agent/aurel_agents/proactive.py:165-169 | what reached the file stays in it through all interleavings, failed saves and crashes |
| JsonProtocol.EveryAddIsInTheFile | agent/aurel_agents/proactive.py:273-277 | when all saves are done and nobody crashed, the file holds exactly the added items |
| JsonProtocol.OnlyReplaceWrites | agent/aurel_agents/proactive.py:239-242 | only the rename changes the file, to a complete list that includes the old one |
| Promotions.OpenedCleanIff | backend/src/admin/admin-promotions.service.ts:55-75 | a new snapshot holds the products' own prices if and only if no open promotion has changed a listed price |
| Promotions.UpToDateIsSafe | backend/src/admin/admin-promotions.service.ts:57-67 | when no open promotion has ended, the clash check alone is enough |
| Promotions.OwnPricesComeBack | backend/src/admin/admin-promotions.service.ts:114-146 | after any run of edits, safe openings and closings an uncovered product sells at its own price in both currencies |
| Promotions.UnsafeOpeningLosesAPrice | backend/src/admin/admin-promotions.service.ts:57-67 | every unsafe opening leaves some listed product at another price once all is closed, the new one last |
| Promotions.EndedButOpenOverlap | backend/src/admin/admin-promotions.service.ts:57-60 | a concrete run in which an ended but open promotion is overlapped and a price is lost |
| Promotions.StagedPrices | agent/aurel_agents/merchant/backend.py:474-487 | one change per product in the order listed, from its current price to the integer nearest to that price less the discount, the even one of two; never above the price nor below zero for a discount of 0 to 100 |
| Promotions.ListedSellAtStagedPrice | agent/aurel_agents/merchant/backend.py:624-639 | after an apply that could set every price each listed product sells at its staged price in both currencies until it is set again or closed, and other products keep theirs |
| Promotions.ApplyRefusedIff | agent/aurel_agents/merchant/backend.py:590-623 | an apply is refused as drifted if and only if a recorded price that was read has moved, and otherwise exactly when the promotion is |
| Promotions.PromotionRoundTripIff | agent/aurel_agents/merchant/backend.py:474-515 | staged, applied, edited at will and closed, a product is back at its staged price if and only if it had that price when the promotion was opened; what the drift check read plays no part |
| Promotions.PromotionRoundTrip | agent/aurel_agents/merchant/backend.py:590-611 | so a product the drift check read, and nobody edited before the opening, is back at its staged price in both currencies |
| Promotions.LateEditLosesStagedPrice | agent/aurel_agents/merchant/backend.py:600-627 | a run in which an edit after the drift check, or on a product it could not read, loses the staged price |
| Promotions.ClosingRestoresStagedPriceIff | agent/aurel_agents/merchant/backend.py:624-639 | closing returns a listed product to the recorded price if and only if that was its price when the snapshot was taken, and its VND price always follows |
| Promotions.CloseTwice | backend/src/admin/admin-promotions.service.ts:118-120 | a second close changes nothing |
| Promotions.SweepLeavesNoneDue | backend/src/admin/promotion-expire.service.ts:29-45 | a sweep with at most fifty due promotions leaves none due |
| Promotions.NamedIs | backend/src/admin/admin-promotions.service.ts:44-46 | empty names are dropped from the listing and nothing else, in order |
| Promotions.AdminPromotionsService.FindClash | backend/src/admin/admin-promotions.service.ts:55-67 | the nested search finds a clash if and only if some active, unended promotion lists one of the slugs |
| Promotions.AdminPromotionsService.TakeSnapshot | backend/src/admin/admin-promotions.service.ts:68-75 | the loop records the current price of exactly the listed products that exist |
| Promotions.AdminPromotionsService.CreatePromotion | backend/src/admin/admin-promotions.service.ts:32-92 | a bad body or a clash is refused with nothing changed; otherwise one active promotion is added that remembers the current prices of the listed products, and no price changes |
| Promotions.AdminPromotionsService.RestorePrices | backend/src/admin/admin-promotions.service.ts:123-144 | the loop, in any order, restores exactly the snapshot and counts the products that moved |
| Promotions.AdminPromotionsService.ClosePromotion | backend/src/admin/admin-promotions.service.ts:114-162 | closing does exactly Closed and reports the number of restored prices |
| Promotions.PromotionExpireService.ExpireDue | backend/src/admin/promotion-expire.service.ts:29-49 | the sweep closes the first fifty due promotions and counts them |
| Notify.MessagesConserved | backend/src/notify/notify.service.ts:90-114 | every message is in exactly one of queued, in flight, delivered, dropped; it is sent at most three times and dropped exactly after three failures |
| Notify.SendsBounded | backend/src/notify/notify.service.ts:95-112 | sends never exceed three per message |
| Notify.NothingStranded | backend/src/notify/notify.service.ts:73-88 | when no timer is set and no tick runs, every message was delivered or dropped |
| Notify.FreshMessageWaits | backend/src/notify/notify.service.ts:67-83 | a new message's tick is due at once if and only if no later timer was set, and within two minutes always |
| Notify.RetryTimes | backend/src/notify/notify.service.ts:95-112 | a failed send is tried again after 30 seconds, then after two minutes, and given up after the third |
| Notify.DueIs | backend/src/notify/notify.service.ts:90-93 | a tick takes exactly the messages whose time has come, in order, and leaves the others |
| Notify.FireIs | backend/src/notify/notify.service.ts:81-93 | a tick starts only when its timer has run out, with exactly what is due |
| Notify.ScheduledIs | backend/src/notify/notify.service.ts:73-88 | a set timer stays; otherwise it is set for the earliest message, or for now when one is due |
| Notify.StepKeeps | backend/src/notify/notify.service.ts:66-114 | enqueues, timers and ticks suspended at a send keep placement, counts and timing |
| Notify.NotifyService.Schedule | backend/src/notify/notify.service.ts:73-88 | one pass sets the timer for the earliest message unless one is set |
| Notify.NotifyService.Enqueue | backend/src/notify/notify.service.ts:66-70 | the message joins the end of the queue and a timer is set |
| Notify.NotifyService.StartTick | backend/src/notify/notify.service.ts:90-93 | exactly the due messages leave the queue, in order |
| Notify.NotifyService.Sent | backend/src/notify/notify.service.ts:95-112 | a failed message is queued again with the next delay or given up after the third attempt |
| RateLimiter.Limiter.Allow | agent/aurel_agents/session_pool.py:492-502 | the answer and the key's new window are Decide's, and no other key changes |
| RateLimiter.RefinesFullHistory | agent/aurel_agents/session_pool.py:486-502 | on every call the deque answers as a limiter that remembers all accepted calls |
| RateLimiter.AtMostLimit | agent/aurel_agents/session_pool.py:486-502 | no closed 60-second interval holds more accepted calls than the limit |
| RateLimiter.PrunedIsRecent | agent/aurel_agents/session_pool.py:497-499 | the pruned window has exactly the accepted calls of the last 60 seconds |
| RateLimiter.SixtySecondsCount | agent/aurel_agents/session_pool.py:497-499 | a call exactly 60 seconds old still counts, an older one does not |
| RateLimiter.NoLimit | agent/aurel_agents/session_pool.py:493-494 | a limit of nothing or less allows every call and remembers none |
| RateLimiter.KeysAreIndependent | agent/aurel_agents/session_pool.py:492-502 | in mixed traffic each key gets the answers, and keeps the window, that its own calls alone would give |
| RateLimiter.MixedTraffic | agent/aurel_agents/session_pool.py:486-502 | in mixed traffic every key is answered as by full history and never exceeds the limit in 60 seconds |
| Sse.ParseSseBody | src/lib/agent-events.ts:202-212 | the loops collect the decodable data lines of all blocks, in order |
| Sse.BlocksAreLines | src/lib/agent-events.ts:204-206 | cutting into blocks first never changes which data lines are parsed, for any body |
| Sse.DataOfIs | src/lib/agent-events.ts:206-208 | which lines carry data, and that one white space after the colon is dropped |
| Sse.FramesRoundTrip | agent/aurel_agents/host.py:504-506 | parsing the frames of newline-free bodies gives those that decode, in order |
| Sse.EventsRoundTrip | agent/aurel_agents/host.py:504-506 | events whose bodies decode and hold no newline come out exactly as they went in |
| Sse.RawFrame | agent/aurel_agents/host.py:504-506 | what any framed text is parsed into |
| Sse.FrameFaithfulIff | agent/aurel_agents/host.py:504-506 | a framed text comes back as itself if and only if it holds no newline |
| Phone.NormalizesIff | backend/src/common/phone.ts:10-22 | a text normalises to a number if and only if, without separators, it is one of that number's four spellings |
| Phone.NumberIff | backend/src/common/phone.ts:10-22 | what a number is, digit by digit, and its four spellings |
| Phone.StripIs | backend/src/common/phone.ts:14 | which characters are separators, and that no other character is dropped |
| Phone.SameContactIff | backend/src/common/phone.ts:28-36 | two contacts are the same if and only if neither is blank and they are the same text up to blanks and case or spellings of one number |
| Phone.NormalizeIdempotent | backend/src/common/phone.ts:10-22 | normalising twice is normalising once |
| Phone.SpellingsMatch | backend/src/common/phone.ts:28-36 | any two spellings of one number, with any separators, are the same contact |
| Phone.SameContactIsEquivalence | backend/src/common/phone.ts:28-36 | on non-blank texts sameContact is reflexive, symmetric and transitive |
| TrustProxy.ParseIp | backend/src/common/trust-proxy.ts:33-43 | the accumulating loop computes IpToLong |
| TrustProxy.QuadIsRead | backend/src/common/trust-proxy.ts:33-43 | a canonical dotted quad is read as its 32-bit value |
| TrustProxy.ValueInjective | backend/src/common/trust-proxy.ts:37-42 | different quads have different values |
| TrustProxy.MaskedEqualIff | backend/src/common/trust-proxy.ts:54-55 | values agree under the mask if and only if they have the same quotient by 2^(32-bits) |
| TrustProxy.MatchesIffSamePrefix | backend/src/common/trust-proxy.ts:45-56 | an address matches an entry if and only if both share the prefix (section 3.1 of RFC 4632) |
| TrustProxy.PlainEntryIff | backend/src/common/trust-proxy.ts:45-48 | every text matches itself, and an entry without a slash nothing else |
| TrustProxy.BadEntryMatchesNothing | backend/src/common/trust-proxy.ts:49-53 | a prefix over 32 bits or on a bad base matches only its own text |
| TrustProxy.QuadReadIff | backend/src/common/trust-proxy.ts:33-43 | a quad is an address if and only if all four numbers are at most 255 |
| TrustProxy.LongerPrefixNarrower | backend/src/common/trust-proxy.ts:54-55 | a longer prefix of a base matches only what a shorter one does |

## Left out

- Controllers, guards, cookies, tokens, password and contact hashing internals: plumbing or library calls; digests are arbitrary functions.
- Carts, notifications sent on order events, invoices, search synchronisation, language-model calls: no effect on the modelled tables.
- Fields that only carry text (names, addresses, images, engravings) and the byte length limits on them.
- Idempotency keys inside interleavings: `CreateOrder` covers requests that do not overlap; the code accepts duplicates from fully simultaneous ones.
- Deleting orders by hand: orders are never deleted, so the reply path for a key whose order is gone is modelled but cannot be reached.
- Freeing intents left LOCKED after an out-of-stock or deduplicated request: the code has no step that does.
- Payment references are arbitrary: that two rows never share one rests on random draws, so it is a condition of `ReferenceSettledOnce`, not a result.
- Duplicate orders by content compare a bespoke line as "not in the list"; the database's treatment of an absent slug in such a filter is not modelled further.
- Reading an order list, statistics, and looking up an order by code: queries without effect.
- Re-activating a promotion and two promotions created at the same moment: neither repeats the clash check.
- Applying a promotion opens it and then sets its prices; steps of others between these are covered by the steps that follow, and the ledger's guardrails are not part of this model.
- JsonStore.RemovalLosesNothingElseIff: asks for distinct ids in the cache, which every add with a fresh id keeps; a cut copy of a repeated item may survive in a later one.
- JsonProtocol.EveryAddIsInTheFile: asks for distinct ids within the cap, because the merge keeps neither a clashing nor an evicted item; removals by one process can be undone by another that still caches the item.
- `trim_before`, per-user watch limits, tickets and tasks of the agent's stores: the same merge and purge with other predicates.
- A platform without file locks: its save is modelled in `JsonStore.Saved`, not in the protocol.
- RateLimiter.RefinesFullHistory: for a fixed limit; callers that change the limit between calls for one key are not covered.
- JavaScript's Number beyond decimal digits and the empty text (signs, exponents, hexadecimal, spaces): such address parts are read as not a number.
- `isTrustedProxyIp`'s fixed private ranges: constant prefixes without further content.
- Non-numeric quantities and prices, floating-point rounding, and characters outside ASCII in text comparisons.
