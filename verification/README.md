# Verified model of the restaurant back office

A Dafny model of the parts of the repository where correctness depends on more
than one function: refresh-token families under concurrent requests, the
append-only stock ledger with prepared batches, the loyalty ledger, order
numbering and idempotent creation, the money of an order, keyset paging, and
four small algorithms (edit distance, the CSV printer, rupee parsing, the GST
split of a receipt).

`dafny verify dfyconfig.toml` checks everything.

## How it is organised

Each component has three layers.

* **Protocol or ledger** (`TokenProtocol`, `StockLedger`, `LoyaltyLedger`,
  `OrderNumbering`, `OrderMoney`, `Coupons`, `WriteOnce`): tables as sequences and maps, one
  atomic step per database statement (tokens, loyalty, numbering, idempotency
  keys) or per transaction (stock, payments, coupons), and `Run` over any sequence of
  steps. Where statements interleave, a request keeps its local variables in the
  state, so an arbitrary sequence of steps is an arbitrary interleaving.
* **Safety** (`TokenSafety`, `StockRows`, `StockSafety`, `StockTheorems`,
  `PlacementTheorems`, `PrepTheorems`, `LoyaltySafety`, and the second half of the
  other protocol modules): an inductive invariant, and theorems about every run.
* **Services** (`TokenService`, `InventoryService`, `LoyaltyService`,
  `OrderCreation`, `OrdersService`): classes whose methods update the tables
  statement by statement as the source does. Where requests interleave, a method
  takes the steps other requests perform in each of its gaps and keeps a log;
  `Valid` says that the tables are the protocol's run over that log, so the
  theorems hold of every execution of the methods.

`Sales` joins numbering, stock, money, coupons and points into one state machine in
which the transaction of create commits or rolls back over all of them at once.

`Fefo`, `EditDistance`, `LoyaltyRules`, `OrderPricing`, `OrderPaging`, `Csv`,
`Money` and `TaxGroups` are algorithms proved against definitions that do not
share their shape. `Sums`, `StableSort`, `Tallies`, `Rounding`, `Traces`, `Keys`
and `Options` hold what several modules need: sums over rows, a stable sort and
how it commutes with filtering, the running totals of a JavaScript `Map`,
`Math.round`, interleaved logs, the lookup of idempotency keys.

## Results that differ from what one might expect

* Reuse detection revokes a family, but a refresh that already claimed a token
  of it still inserts a live replacement afterwards. The comment at
  `token.service.ts:76-81` reads as if the family were dead at once.
  `TokenSafety.SweptFamilyRevivesIff` gives the exact condition under which the
  family comes back, `TokenSafety.ReuseSweepIsOvertaken` a run from every live
  token in which it does, and `TokenSafety.FamilySweepIsFinalIff` what follows
  when it cannot.
* The session epoch is compared strictly, so sign-out-everywhere binds a refresh
  in flight exactly when its family began strictly earlier
  (`TokenSafety.LogoutAllBindsTheFuture`, `TokenSafety.ReplacementRefreshesIff`);
  one begun in the epoch's own millisecond goes on refreshing
  (`TokenSafety.SameInstantIsNotBound`). `TokenSafety.RotatedAgainIff` says
  exactly which families do.
* A fully discounted, untaxed order cannot be created together with a payment:
  the payment would be for nothing, which its constraint forbids
  (`OrderPricing.NothingToPayIff`, with an input in
  `OrderPricing.FreeOrderIsRefused`).
* An empty idempotency key is stored but never looked up, so a second call with
  it fails where one with any other key is answered
  (`WriteOnce.SecondCallIsAnsweredIff`, `OrderNumbering.SecondCallIsAnsweredIff`,
  `LoyaltySafety.SecondDebitIsAnsweredIff`).
* The CSV text does not determine a table that has a row without cells, and a
  reader that ignores a final line break loses a last row of one empty cell
  (`Csv.ReadsBackIff`, `Csv.LenientReadsBack`).
* The loyalty balance itself can go below zero, by a refund reversal worth more
  than is left and in no other way (`LoyaltySafety.DropsBelowZeroIff`,
  `LoyaltySafety.NegativeSinceAReversal`). Reversals take no lock of their own;
  that no debit overdraws (`LoyaltySafety.DebitsNeverOverdraw`) rests on the
  foreign key of `loyalty_ledger.customer_id`, whose check shares the row that a
  debit holds `FOR UPDATE` and so makes their inserts wait.
* A prep recipe is checked against loops of one and two items only; a ring of
  three is accepted (`PrepTheorems.NoShortLoops`,
  `PrepTheorems.ThreeStepLoopIsReachable`).

## Model

| member | source | states |
|---|---|---|
| `TokenSafety.ClaimsAreCurrent` | apps/api/src/modules/auth/token.service.ts:161-182 | In every interleaving, a refresh whose conditional update succeeds holds a token whose family the owner's session epoch does not condemn, although epoch and family were read in earlier statements |
| `TokenSafety.CurrentIffNoOlderRow` | apps/api/src/modules/auth/token.service.ts:168-178 | An epoch condemns a family exactly when some row of the family is older than it; a family begun in the epoch's own instant is let through |
| `TokenSafety.LogoutAllBindsTheFuture` | apps/api/src/modules/auth/token.service.ts:149-160 | Once sign-out-everywhere has committed, no family begun before it is ever rotated again for that user, not even through a replacement inserted after the sweep |
| `TokenSafety.ReplacementRefreshesIff` | apps/api/src/modules/auth/token.service.ts:149-178 | A refresh overtaken by sign-out-everywhere inserts a replacement that refreshes again if and only if the family began in the very instant of the stamp: a family begun earlier is bound, one begun then is not |
| `TokenSafety.RotatedAgainIff` | apps/api/src/modules/auth/token.service.ts:149-182 | After sign-out-everywhere some continuation rotates a family for that user again if and only if the family began in the stamp's very instant and, after the sweep, a live token or a refresh in flight still carries it |
| `TokenSafety.SameInstantIsNotBound` | apps/api/src/modules/auth/token.service.ts:149-178 | From every reachable state a login, its refresh and a sign-out that overtakes it, all within one instant, leave a session that goes on refreshing |
| `TokenSafety.SweepAloneDoesNotBind` | apps/api/src/modules/auth/token.service.ts:236-244 | Without the epoch the sweep would not do: from any live token, a refresh overtaken by it still inserts a live replacement in the old family |
| `TokenSafety.AtMostOneHolder` | apps/api/src/modules/auth/token.service.ts:113-124 | Unrevoked tokens of a family plus refreshes that claimed but have not yet issued never exceed one, in every interleaving |
| `TokenSafety.DeadFamilyStaysDead` | apps/api/src/modules/auth/token.service.ts:229-234 | A family with no live token and no refresh in flight never comes back, whatever runs later |
| `TokenSafety.ConsumedAtMostOnce` | apps/api/src/modules/auth/token.service.ts:113-122 | A token is consumed at most once over any run, and a revoked one never |
| `TokenSafety.FamilySweepIsFinalIff` | apps/api/src/modules/auth/token.service.ts:97-106 | Revoking a reused token's family leaves it dead, and dead in every continuation, exactly when no other request has already claimed a token of it |
| `TokenSafety.SweptFamilyRevivesIff` | apps/api/src/modules/auth/token.service.ts:97-124 | After the sweep some continuation has a live token of the family again if and only if another refresh of it was in flight; that one needs only to finish |
| `TokenSafety.ReuseSweepIsOvertaken` | apps/api/src/modules/auth/token.service.ts:97-124 | From any live, current token: a first refresh claims it, a second presentation sweeps the family, and the first one's insert leaves a live token in it |
| `TokenSafety.UndisturbedRefreshSucceedsIff` | apps/api/src/modules/auth/auth.service.ts:141-156 | A refresh nobody interleaves with adds one token exactly when the presented one is unrevoked, unexpired and of a family the epoch allows; success moves the family to that token and retires the old one |
| `TokenSafety.FreshLoginRefreshes` | apps/api/src/modules/auth/token.service.ts:149-160 | A login after sign-out-everywhere is unaffected by the epoch: its first refresh succeeds |
| `TokenSafety.StepKeepsInv` | apps/api/src/modules/auth/token.service.ts:83-125 | Every statement of every request keeps: what a request remembers of the epoch and the family still holds while its token is unrevoked, and each family has one holder |
| `TokenSafety.RevokedByStepIff` | apps/api/src/modules/auth/token.service.ts:113-256 | A token is revoked after a step exactly if it was before or the step claims, reissues or logs out that very token, revokes its own family, or signs its own user out everywhere; everyone else's tokens stay as they were |
| `TokenSafety.StaysLiveIff` | apps/api/src/modules/auth/token.service.ts:113-256 | Over any run a live token stays live if and only if no step of it is one of those |
| `TokenSafety.DoomedIff` | apps/api/src/modules/auth/token.service.ts:97-178 | A request comes to revoke a family exactly by presenting a revoked token of it, by finding in it a row older than the epoch it read, or by claiming a token of it for an inactive user |
| `TokenProtocol.StartIsMinimum` | apps/api/src/modules/auth/token.service.ts:171-175 | The family start is the least creation time over the family's rows, and exists exactly when the family has rows |
| `TokenService.ClaimKeepsStart` | apps/api/src/modules/auth/token.service.ts:171-175 | A bulk revocation, whatever rows it selects, moves no family's start, so no claim or sweep changes which families an epoch condemns |
| `TokenService.Server.Rotate` | apps/api/src/modules/auth/token.service.ts:83-125 | With other requests running before each statement, rotate performs one of five statement sequences; success claims the presented row and leaves its family current, reuse leaves the whole family revoked, and every failure drops the request |
| `TokenService.Server.CheckSession` | apps/api/src/modules/auth/token.service.ts:108-112 | Expiry test and epoch check: passes on to the claim, or fails after exactly the statements the source performs |
| `TokenService.Server.ClaimToken` | apps/api/src/modules/auth/token.service.ts:118-122 | The conditional update counts one exactly when the row was still unrevoked, and then the family is current |
| `TokenService.Server.RefuseReuse` | apps/api/src/modules/auth/token.service.ts:97-106 | A revoked token presented again revokes every row of its family, and no row of any other |
| `TokenService.Server.Refresh` | apps/api/src/modules/auth/auth.service.ts:141-156 | rotate, re-read of the user, issue: the log is that of the statements performed; success inserts exactly one live token in the same family for the same user, an inactive user revokes the family |
| `TokenService.Server.RevokeAllForUser` | apps/api/src/modules/auth/token.service.ts:245-256 | Stamps the epoch with the current time and revokes every row of the user, and no row of another user, in one transaction |
| `TokenService.Server.SignIn` | apps/api/src/modules/auth/auth.service.ts:103-139 | A login inserts one row into a family no row belonged to |
| `TokenService.Server.SignOut` | apps/api/src/modules/auth/auth.service.ts:158-161 | Logging out revokes the presented row, leaves every other row as it was, and does nothing without one |
| `TokenService.Server.RotateForReissue` | apps/api/src/modules/auth/token.service.ts:137-148 | Revokes the presented row and hands its family on exactly if it was unrevoked, without treating a revoked one as theft |
| `TokenService.Server.SelectRestaurant` | apps/api/src/modules/auth/auth.service.ts:459-474 | The new session continues the presented token's family exactly if that was live, else starts one of its own; the presented row ends revoked |
| `StockTheorems.OrderConservation` | apps/api/src/modules/inventory/inventory.service.ts:572-743 | Over every run an order's net per (ingredient, batch) is zero while held, cancelled or voided, and otherwise per ingredient exactly minus the expansion by the recipes of its placement |
| `StockTheorems.LaterEditsDoNotMatter` | apps/api/src/modules/inventory/inventory.service.ts:572-640 | Placing a held order takes the expansion by the recipes of that moment; no later recipe edit, sale or batch changes it, and reversal alone undoes it |
| `StockTheorems.DirectSaleTakes` | apps/api/src/modules/inventory/inventory.service.ts:572-640 | A sale that was never held takes the expansion of its lines, combos included, by the recipes of the moment it was made; no later recipe edit, sale or batch changes it, and reversal alone undoes it |
| `StockTheorems.PlacementIsFixed` | apps/api/src/modules/orders/orders.service.ts:640-675 | What an order was placed with never changes afterwards, and no order becomes a draft again |
| `StockTheorems.TerminalOrdersAreFrozen` | apps/api/src/modules/orders/order-status.ts:15-31 | A completed, cancelled or voided order gets no further status and no further row, so a reversal happens at most once |
| `PlacementTheorems.SaleTakesFirstExpiring` | apps/api/src/modules/inventory/inventory.service.ts:572-690 | Each row a sale appends to the ledger is a consumption tagged only with a batch that still held something and had not expired at the sale; of each prepared item the untagged part is what live stock then did not cover, and by every cutoff the lesser of the need and the live stock expiring by it is drawn |
| `PlacementTheorems.ResumedSaleTakesFirstExpiring` | apps/api/src/modules/orders/orders.service.ts:640-675 | The same of a held order when it is placed, at that moment's time, for its product lines |
| `PlacementTheorems.NoOrderDrawsOnExpired` | apps/api/src/modules/inventory/prep.ts:112-123 | In no run does an order draw on a batch that had expired when the order was placed |
| `PlacementTheorems.SaleConsumes` | apps/api/src/modules/orders/orders.service.ts:437-470 | What a sale takes of an ingredient is summed over its items: a product's quantity by its recipe, a combo's quantity by each component's quantity and recipe; a resumed hold counts its products alone |
| `StockTheorems.BatchesStayWithinYield` | apps/api/src/modules/inventory/stock-queries.ts:23-48 | Over every run of preparing, selling, wasting and reversing, 0 <= remaining <= actual quantity for every batch |
| `StockTheorems.StockIsBatchesPlusLoose` | apps/api/src/modules/inventory/stock-queries.ts:12-48 | The stock of an item is the sum of its batches' remaining plus its rows without a batch plus what it gave up as a component |
| `PrepTheorems.PrepareNeverOverdraws` | apps/api/src/modules/inventory/prep.service.ts:411-536 | In every reachable ledger preparing either finds a scaled component of which stock holds less and changes nothing, or takes every scaled component from stock that covers it, adds the actual yield to the item's stock, and opens a batch with that yield remaining and the expiry given |
| `PrepTheorems.AcceptedIff` | apps/api/src/modules/inventory/prep.service.ts:330-359 | setRecipe lets a recipe through exactly when it leaves no duplicate component, no item made from itself and no two items made from each other |
| `PrepTheorems.NoShortLoops` | apps/api/src/modules/inventory/prep.service.ts:321-359 | In no run is an item made from itself, or two items from each other, and only prepared items have recipes |
| `PrepTheorems.ThreeStepLoopIsReachable` | apps/api/src/modules/inventory/prep.service.ts:344-359 | The check looks one recipe deep: three items made from each other in a ring are let through |
| `PrepTheorems.ScaleIsNearest` | apps/api/src/modules/inventory/prep.ts:25-47 | A batch needs of each listed component the whole number nearest to its quantity times planned over standard yield, halves up, and no component that rounds to nothing |
| `PrepTheorems.StandardYieldIsTheRecipe` | apps/api/src/modules/inventory/prep.ts:25-47 | Planning the standard yield needs exactly the recipe |
| `StockTheorems.LedgerOnlyGrows` | apps/api/src/modules/inventory/inventory.service.ts:572-743 | Whatever transactions run, every row and batch stays where and as it was, and every order keeps its number and its items |
| `StockSafety.StepKeepsInv` | apps/api/src/modules/inventory/inventory.service.ts:572-743 | Every transaction keeps the ledger's invariant: tags are consistent, orders are conserved, batches stay within their yield whichever orders are reversed |
| `StockRows.DepletionTakesExpansion` | apps/api/src/modules/inventory/inventory.service.ts:588-676 | The rows pushed for a placement sum, per ingredient, to minus what the lines take by the recipes, raw and prepared alike |
| `StockRows.DepletionWithinBatch` | apps/api/src/modules/inventory/inventory.service.ts:641-676 | A placement never draws more from a batch than it has left |
| `StockRows.RestockUndoes` | apps/api/src/modules/inventory/inventory.service.ts:693-743 | The rows a reversal appends are exactly the negated consumption, over any selection of (ingredient, batch) pairs |
| `StockRows.ViewIsFaithful` | apps/api/src/modules/inventory/inventory.service.ts:641-656 | FEFO sees each batch of the item once, with the remaining quantity the ledger gives it, its own expiry and its own creation time |
| `InventoryService.Service.SumNeeds` | apps/api/src/modules/inventory/inventory.service.ts:588-630 | The nested loop's running totals are the recipes' entries summed per ingredient, in first-seen order, with the prepared ones listed once |
| `InventoryService.Service.DepleteForOrder` | apps/api/src/modules/inventory/inventory.service.ts:572-690 | The loops append one row per raw ingredient and one per FEFO allocation; the rows draw on live batches only, first expiring first, at the time given |
| `InventoryService.Service.RestockForReversedOrder` | apps/api/src/modules/inventory/inventory.service.ts:693-743 | The loop over consumed rows appends exactly one give-back per (ingredient, batch) that is not already level |
| `InventoryService.Service.CreateOrder` | apps/api/src/modules/orders/orders.service.ts:437-470 | Creating an order depletes its lines, combos expanded, from live batches at that time, first expiring first, unless it is held; the ledger's invariant is kept |
| `InventoryService.Service.UpdateStatus` | apps/api/src/modules/orders/orders.service.ts:598-709 | Succeeds exactly on a legal or repeated status; placing a held order depletes its product lines from live batches at that time, first expiring first, and reversing restocks, in the same transaction |
| `InventoryService.Service.FindShortfalls` | apps/api/src/modules/inventory/prep.ts:63-84 | Lists exactly the components of which stock holds less than asked, each with both quantities, in order |
| `InventoryService.Service.CreateBatch` | apps/api/src/modules/inventory/prep.service.ts:411-536 | Opens a batch exactly when the item is prepared, has a recipe with components, and stock holds every scaled component; each refusal names its cause and changes nothing |
| `InventoryService.Service.SetRecipe` | apps/api/src/modules/inventory/prep.service.ts:321-375 | Replaces the recipe exactly when the item is prepared and the components are distinct, active, not the item and not made from it; each refusal names its cause and changes nothing |
| `InventoryService.Service.Waste` | apps/api/src/modules/inventory/prep.service.ts:563-605 | Wastes exactly when no more than what remains of the batch is asked for |
| `Fefo.AllocateFefo` | apps/api/src/modules/inventory/prep.ts:109-136 | The loop over sorted live batches computes the recursive allocation |
| `Fefo.AllocationIsSound` | apps/api/src/modules/inventory/prep.ts:109-136 | An allocation totals the need, takes from no batch more than a live batch holds, and leaves untagged exactly what live stock does not cover |
| `Fefo.FefoIsEarliest` | apps/api/src/modules/inventory/prep.ts:89-108 | For every cutoff, FEFO takes at least as much from batches expiring by then as any other feasible allocation of the same need |
| `Fefo.DrawnByCutoff` | apps/api/src/modules/inventory/prep.ts:115-135 | By every cutoff exactly the lesser of the need and the live stock expiring by then is drawn |
| `Fefo.FefoComposes` | apps/api/src/modules/inventory/prep.ts:115-135 | Allocating a, then b from what is left, draws per batch and leaves untagged the same as allocating a + b at once, ties included |
| `Fefo.SoonerIsEmptiedFirst` | apps/api/src/modules/inventory/prep.ts:115-135 | Nothing is drawn from a batch while one that expires sooner, or as soon and was made earlier, still holds something live |
| `StableSort.FilterSort` | apps/api/src/modules/inventory/prep.ts:115-123 | Sorting stably and then filtering is filtering and then sorting |
| `OrderStatus.LifecycleOnlyAdvances` | apps/api/src/modules/orders/order-status.ts:15-31 | Whatever statuses are requested, an order only moves forward and stops where it ends |
| `OrderStatus.MovesInto` | apps/api/src/modules/orders/order-status.ts:15-31 | Every legal move, by the status it leads to |
| `LoyaltySafety.NeverOverspent` | apps/api/src/modules/loyalty/loyalty.service.ts:305-399 | With debits locking the customer and earns and reversals landing anywhere between their read and their append, the ledger without refund reversals is never negative, in every interleaving |
| `LoyaltySafety.DebitsNeverOverdraw` | apps/api/src/modules/loyalty/loyalty.service.ts:304-399 | In every interleaving each redemption or negative adjustment, where it stands in the ledger, left its customer at zero or more |
| `LoyaltySafety.DropsBelowZeroIff` | apps/api/src/modules/loyalty/loyalty.service.ts:192-232 | A step takes a balance below zero exactly when it appends the reversal of earned points of which less is left; no debit, earning or restored redemption ever does |
| `LoyaltySafety.NegativeSinceAReversal` | apps/api/src/modules/loyalty/loyalty.service.ts:192-232 | Whenever a balance is negative, it last fell below zero by a refund reversal that found less than the points it takes back, and no debit of the customer was written since |
| `LoyaltySafety.ReversalOverdrawsIff` | apps/api/src/modules/loyalty/loyalty.service.ts:196-232 | A refund reversal nobody interleaves with waits if a debit holds the customer's row; otherwise it goes through, disturbs no other request, and leaves the balance negative exactly when less than the earned points is left |
| `LoyaltySafety.LockProtects` | apps/api/src/modules/loyalty/loyalty.service.ts:412-429 | While a debit holds the lock, no step of another request changes the customer's balance or frees the lock |
| `LoyaltySafety.AtMostOneRow` | apps/api/src/modules/loyalty/loyalty.service.ts:133-300 | However calls are retried and interleaved, an order has at most one row of each kind |
| `LoyaltySafety.OneRowPerKey` | apps/api/src/modules/loyalty/loyalty.service.ts:431-439 | However calls are retried and interleaved, at most one row carries a client's key |
| `LoyaltySafety.SecondDebitIsAnsweredIff` | apps/api/src/modules/loyalty/loyalty.service.ts:431-439 | A second redemption or adjustment with a key in use writes nothing, and is answered as a replay exactly if the key is not empty |
| `LoyaltySafety.UndisturbedDebitIsWrittenIff` | apps/api/src/modules/loyalty/loyalty.service.ts:305-399 | A debit nobody interleaves with is written exactly if neither its key nor its order and kind is on the ledger and the balance covers it, the last point included |
| `LoyaltySafety.UndisturbedEarnIsWrittenIff` | apps/api/src/modules/loyalty/loyalty.service.ts:133-190 | An earning nobody interleaves with is written exactly if its order has none yet |
| `LoyaltySafety.ReversalNegates` | apps/api/src/modules/loyalty/loyalty.service.ts:196-300 | For each customer, the points of an order's reversal are the exact negation of the points of the original row, which is still there |
| `LoyaltySafety.ReversedOrderIsNeutral` | apps/api/src/modules/orders/orders.service.ts:959-984 | An order whose legs are reversed contributes nothing to any customer's balance or lifetime points |
| `LoyaltySafety.StepKeepsInv` | apps/api/src/modules/loyalty/loyalty.service.ts:133-399 | Every statement of every request keeps the ledger's invariant and what each request in flight relies on |
| `LoyaltySafety.WritesIff` | apps/api/src/modules/loyalty/loyalty.service.ts:133-399 | A request that has come to its insert writes its row exactly if no other transaction holds the customer's row and neither its order and kind nor its key is on the ledger |
| `LoyaltyService.Service.Debit` | apps/api/src/modules/loyalty/loyalty.service.ts:239-399 | Lock (waiting for it), replay, the caller's own rule, balance, append, with others running in between: a written debit is the last row and leaves zero or more, a refusal by the balance means it was short, a rejected row is answered exactly for a usable key; the ledger stays solvent |
| `LoyaltyService.Service.Redeem` | apps/api/src/modules/loyalty/loyalty.service.ts:305-363 | Points spent outside a sale: refused exactly for the programme being off, points that are no multiple of a block, too few or too many, in that order and only after the replay check; otherwise a debit, which an empty key already in use turns away |
| `LoyaltyRules.RedeemingAgreesWithSales` | apps/api/src/modules/loyalty/loyalty.service.ts:317-341 | What this refuses no sale accepts, for the same reason, and what it lets through some sale accepts if it is worth anything |
| `LoyaltyService.Service.ReverseForOrder` | apps/api/src/modules/loyalty/loyalty.service.ts:196-300 | Ends with exactly one reversal row unless there was nothing to reverse or its insert still waits for a debit that holds the customer's row |
| `LoyaltyService.Service.AwaitInsert` | apps/api/src/modules/loyalty/loyalty.service.ts:441-477 | The insert of a credit or a reversal waits while others run until no debit holds the customer's row, is rejected by an index at once, and once it returns the order has exactly one row of the kind |
| `LoyaltyService.Service.EarnForOrder` | apps/api/src/modules/loyalty/loyalty.service.ts:133-190 | An unknown order, one without a customer, a reversed one and one whose net spend pays for no point each end it without a row, exactly then; otherwise, once its insert need not wait, it ends with exactly one EARN row for the order, whoever wrote it, and a written one carries the most points the net spend pays for at the configured rate |
| `LoyaltyService.Service.AwaitLock` | apps/api/src/modules/loyalty/loyalty.service.ts:412-429 | Waits while others run until the customer's row is free, and then holds it; not holding it means that it is still taken |
| `LoyaltyService.Summarize` | apps/api/src/modules/loyalty/loyalty.service.ts:486-500 | The three accumulators over the grouped sums give balance, lifetime points and redeemed points whatever order the groups come in |
| `LoyaltyService.KindsPartition` | apps/api/src/modules/loyalty/loyalty.service.ts:486-500 | A customer's rows split by type: balance and lifetime points are sums of the types' sums |
| `LoyaltyRules.RewardIsLeastRedeemable` | apps/api/src/modules/loyalty/loyalty.rules.ts:145-163 | For every accepted configuration, the offered reward is the least point count not above the balance that some order accepts, redeemable on exactly the orders that cover its discount; none is offered exactly when no such count exists |
| `LoyaltyRules.RedeemableIs` | apps/api/src/modules/loyalty/loyalty.rules.ts:98-136 | Which point counts some order accepts, in terms of the configuration |
| `LoyaltyRules.RedeemsIff` | apps/api/src/modules/loyalty/loyalty.rules.ts:98-136 | Points are accepted for a discount exactly if they are positive whole blocks within the limits, the discount is the blocks' worth and positive, and the subtotal covers it |
| `LoyaltyRules.RedeemRefusalIff` | apps/api/src/modules/loyalty/loyalty.service.ts:317-341 | Outside a sale each refusal is given exactly for its cause, first cause first |
| `LoyaltyRules.ConfigAcceptedIff` | apps/api/src/modules/loyalty/loyalty.rules.ts:173-219 | Which configurations an owner may save |
| `LoyaltyRules.EarningIsFair` | apps/api/src/modules/loyalty/loyalty.rules.ts:74-88 | Splitting an order and its discount in two never gains a point and loses at most one |
| `LoyaltyRules.EarnsMostTheNetPaysFor` | apps/api/src/modules/loyalty/loyalty.rules.ts:74-88 | An enabled programme awards the greatest whole number of points whose price the subtotal less the discount, or nothing if that is negative, pays for, never more points than paise; a disabled one awards none |
| `OrderNumbering.NumbersAreGapFree` | apps/api/src/modules/orders/orders.service.ts:363-367 | Under every interleaving of max+1 reads and inserts with retry, the committed numbers are exactly 1..n, each once, in commit order |
| `OrderNumbering.OneRowPerKey` | apps/api/src/modules/orders/orders.service.ts:100-143 | Every call that returns for a key returns the one order that carries it |
| `OrderNumbering.RepliesAgree` | apps/api/src/modules/orders/orders.service.ts:100-143 | Two calls that return for the same key return the same order |
| `OrderNumbering.AnswersAreFinal` | apps/api/src/modules/orders/orders.service.ts:100-143 | Whatever runs later, no order is taken back or renumbered and no answer changes |
| `OrderNumbering.LostRacesAreAnswered` | apps/api/src/modules/orders/orders.service.ts:131-139 | Unless a payment holds the key, only a call with the empty key is turned away for it, and only because an order carries that key |
| `OrderNumbering.SecondCallIsAnsweredIff` | apps/api/src/modules/orders/orders.service.ts:97-143 | A second create with a key in use adds no order, and is answered exactly if the key is not empty |
| `OrderNumbering.ExhaustionNeedsFiveWinners` | apps/api/src/modules/orders/orders.service.ts:106-143 | Giving up on a number takes at least five other orders committed during the call |
| `OrderNumbering.UndisturbedNumberIsFree` | apps/api/src/modules/orders/orders.service.ts:363-391 | A number read from the current table is accepted unless the key is taken |
| `OrderNumbering.OnlyNextIsFree` | apps/api/src/modules/orders/orders.service.ts:363-367 | In a gap-free table a candidate number is free exactly when it is the next one |
| `OrderNumbering.StepKeepsInv` | apps/api/src/modules/orders/orders.service.ts:100-143 | Every statement keeps numbers gap-free, keys unique, candidates in range and answers pointing at their order |
| `OrderNumbering.FifthRefusalIsFinal` | apps/api/src/modules/orders/orders.service.ts:106-143 | A refused number is tried again after the first four refusals and ends the call at the fifth |
| `OrderNumbering.CheckIff` | apps/api/src/modules/orders/orders.service.ts:131-143 | Which insert the unique indexes let through, and what each rejection proves about the table |
| `OrderNumbering.FreshCallCreates` | apps/api/src/modules/orders/orders.service.ts:100-143 | A call nobody interleaves with and whose key is free adds the next order under its key and returns it |
| `OrderCreation.Service.Create` | apps/api/src/modules/orders/orders.service.ts:100-143 | Lookup, at most five attempts, recovery read, with others running in every gap: a returned order carries the key, exhaustion means five attempts and five newer orders, a key error means no order holds it |
| `OrderCreation.Service.Attempt` | apps/api/src/modules/orders/orders.service.ts:363-391 | One attempt: a refused number was taken by an order committed since it was read |
| `OrderCreation.Service.FindByKey` | apps/api/src/modules/orders/orders.service.ts:1009-1017 | Finds the order carrying the key exactly if there is one |
| `WriteOnce.KeyIsWrittenOnce` | apps/api/src/modules/inventory/inventory.service.ts:456-481 | However calls with one key interleave, at most one movement carries it, every call that returns gives that movement, and none fails for the key |
| `WriteOnce.SecondCallIsAnsweredIff` | apps/api/src/modules/inventory/inventory.service.ts:467-479 | A second call with a key in use adds nothing and is answered exactly if the key is not empty |
| `WriteOnce.StepKeepsInv` | apps/api/src/modules/inventory/inventory.service.ts:463-493 | Every statement keeps keys unique and every lost race paired with a winner |
| `WriteOnce.FreshCallWrites` | apps/api/src/modules/inventory/inventory.service.ts:463-493 | A call nobody interleaves with and whose key is new writes one movement and returns it |
| `WriteOnce.Ledger.WriteOnce` | apps/api/src/modules/inventory/inventory.service.ts:463-493 | Lookup, write, recovery read: performs a prefix of these and returns a row with the key; only the empty key, stored but never looked up, can be turned away |
| `OrderPricing.Price` | apps/api/src/modules/orders/orders.service.ts:261-361 | A priced order costs its items: subtotal the sum of quantity times price plus modifiers over products and quantity times price over combos, and tax a sum of line taxes each within half a paisa of its rate; the total adds up; the discount is zero or positive, within the subtotal and what the one source given allows, and pricing succeeds exactly if that source is available |
| `OrderPricing.PricedByItem` | apps/api/src/modules/orders/orders.service.ts:280-313 | Subtotal and tax in terms of the requested items alone |
| `OrderPricing.ModifiersArePaidFor` | apps/api/src/modules/orders/orders.service.ts:280-293 | Raising one product's modifiers by x raises the subtotal by its quantity times x and leaves every other line alone |
| `OrderPricing.GuardIff` | apps/api/src/modules/orders/orders.service.ts:48-95 | Each guard of create in terms of the request: no payment on a hold, one discount source, and the permissions, customer and live sale that discounts need |
| `OrderPricing.ValidateAndComputeDiscount` | apps/api/src/modules/marketing/marketing.service.ts:103-157 | Accepts exactly the coupons that apply now and are worth something, and gives the first reason otherwise; the discount is the largest amount that rate or face value, cap and subtotal all allow |
| `OrderPricing.CouponAppliesIff` | apps/api/src/modules/marketing/marketing.service.ts:103-136 | A coupon applies while active, from its first instant through its last, from its minimum subtotal up, and until its last allowed redemption |
| `OrderPricing.CouponDiscountIff` | apps/api/src/modules/marketing/marketing.service.ts:138-150 | A PERCENT coupon takes the most whole paise within its basis points of the subtotal, a FIXED one its amount, each within the cap and the subtotal |
| `Coupons.LimitIsNeverExceeded` | apps/api/src/modules/marketing/marketing.service.ts:128-136 | Over every run of creating, toggling and redeeming coupons, a limited coupon is redeemed at most as often as it allows |
| `Coupons.SwitchedOffRedeemsNothing` | apps/api/src/modules/marketing/marketing.service.ts:82-125 | Whatever runs later, a coupon switched off is not redeemed before it is switched on again |
| `Coupons.SwitchedOnRedeemsIff` | apps/api/src/modules/marketing/marketing.service.ts:30-157 | A coupon just created or switched on is redeemed exactly if its dates, minimum and limit allow and it gives at least a paisa |
| `Coupons.DiscountIsLargest` | apps/api/src/modules/marketing/marketing.service.ts:138-150 | The stepwise minimum is the one amount that neither face value, cap nor subtotal forbids and no larger amount satisfies |
| `Coupons.Service.RedeemForOrder` | apps/api/src/modules/marketing/marketing.service.ts:103-174 | Counts the coupon's rows, prices it and appends one row with that discount exactly when the coupon exists, applies now and affords at least one paisa; the limit is kept and a refusal changes nothing |
| `OrderPricing.ChecksRejectIff` | apps/api/src/modules/orders/orders.service.ts:357-361 | The database constraints reject a priced order exactly when a line has a negative price or a rate outside 0..10000, or a payment would be for nothing |
| `OrderPricing.NothingToPayIff` | apps/api/src/modules/orders/orders.service.ts:418-432 | Of the orders with sellable lines, the constraints refuse exactly the paid ones that are fully discounted and untaxed |
| `OrderPricing.FreeOrderIsRefused` | apps/api/src/modules/orders/orders.service.ts:418-432 | One untaxed item, discounted in full and paid, passes every guard, is priced, and is then refused |
| `OrderPricing.TaxIsWithinHalfAPaisaPerLine` | apps/api/src/modules/orders/orders.service.ts:292-309 | Rounding each line moves the order's tax by at most half a paisa per line |
| `OrderMoney.MoneyStaysWithinCeilings` | apps/api/src/modules/orders/orders.service.ts:733-895 | Over every run 0 <= refunded <= captured <= total for every order, and refunds exist only on finished orders |
| `OrderMoney.OnlyTheLastLegSettles` | apps/api/src/modules/orders/orders.service.ts:768-807 | Only an order's last payment can bring its captured sum to its total |
| `OrderMoney.SettledOrdersAreCreditedOnce` | apps/api/src/modules/orders/orders.service.ts:119-124 | Settlement asks for loyalty points once, exactly for customers' orders paid in full |
| `OrderMoney.ReversedOrdersTakeNoMoney` | apps/api/src/modules/orders/orders.service.ts:758-763 | A voided or cancelled order keeps its captured sum whatever is requested later |
| `OrderMoney.TillIsWithinSales` | apps/api/src/modules/orders/orders.service.ts:733-895 | Over all orders together, refunds never exceed payments and payments never exceed what was sold |
| `OrderMoney.OneLegPerKey` | apps/api/src/modules/orders/orders.service.ts:733-940 | Over every run a key marks at most one payment and at most one refund; a repeated call with it changes nothing and, unless the key is empty, is answered with the order of the first |
| `OrderMoney.StepKeepsInv` | apps/api/src/modules/orders/orders.service.ts:733-895 | Creation, payment, refund and status change each keep the ceilings, the one-time credit and every leg on an existing order |
| `OrderMoney.PaymentRecordedIff` | apps/api/src/modules/orders/orders.service.ts:733-823 | A payment is recorded exactly if its key is new and its order exists, is not reversed and has that much left to pay |
| `OrderMoney.RefundRecordedIff` | apps/api/src/modules/orders/orders.service.ts:832-940 | A refund is recorded exactly if its key is new and its order exists, is completed, voided or cancelled, and captured that much more than it gave back |
| `OrderMoney.PaymentRefusals` | apps/api/src/modules/orders/orders.service.ts:733-823 | What each refusal of a payment was for, the amount still due included; a key in use is answered exactly if it is not empty |
| `OrderMoney.RefundRefusals` | apps/api/src/modules/orders/orders.service.ts:832-940 | The same of refunds |
| `OrderMoney.PayableInFull` | apps/api/src/modules/orders/orders.service.ts:733-823 | In every run an order that is not reversed can be paid any part of what is left, down to the last paisa, and settling a customer's order asks for its points |
| `OrderMoney.RefundableInFull` | apps/api/src/modules/orders/orders.service.ts:832-940 | In every run a finished order can be refunded any part of what is left of its captured sum, down to the last paisa |
| `OrdersService.Service.Create` | apps/api/src/modules/orders/orders.service.ts:48-143 | An order is committed exactly if it passes the guards, its discount is available, every constraint holds and its key is new; it then costs its items, adds up and, if paid, is captured in full; a rejected one changes nothing |
| `OrdersService.Service.Insert` | apps/api/src/modules/orders/orders.service.ts:362-495 | Commits the order and, if paid, its payment in full exactly if every constraint holds and the key is on no order and no payment; otherwise names which and changes nothing |
| `Sales.SoldOncePerKey` | apps/api/src/modules/orders/orders.service.ts:97-495 | However creates with one key are repeated and interleaved with everything else, the run commits exactly one sale under it if an order carries it, and none otherwise |
| `Sales.SaleIsWhole` | apps/api/src/modules/orders/orders.service.ts:362-495 | One commit writes the whole sale: the next number and the key, stock for exactly the expanded lines (none when held), the payment of the full total if paid, the coupon redemption, and the points as a debit that leaves the customer at zero or more |
| `Sales.SellsIff` | apps/api/src/modules/orders/orders.service.ts:362-495 | A commit sells exactly if its number is the next one, its key is on no order and, if it pays, on no payment, its amounts add up with a coupon that applies now or points that make its discount, and its customer is neither locked nor short of the points |
| `Sales.TablesAgree` | apps/api/src/modules/orders/orders.service.ts:362-495 | In every run the tables tell one story about an order: same position, key and status, no net stock while it is held or reversed, refunded <= captured <= total |
| `Sales.RedemptionIsTheDiscount` | apps/api/src/modules/orders/orders.service.ts:409-417 | In every run a coupon redemption belongs to one order, is the only one of that order, and is for exactly the discount the order carries |
| `Sales.PointsAreTheDiscount` | apps/api/src/modules/orders/orders.service.ts:340-437 | In every run a sale's redeemed points are one row, for the order's own customer, as many as the order's discount was priced at by some configuration, and never beside a coupon |
| `Sales.SalesNeverOverdraw` | apps/api/src/modules/orders/orders.service.ts:424-437 | With sales spending points among all other loyalty requests, each debit row still left its customer at zero or more |
| `Sales.PointsOutsideSales` | apps/api/src/modules/loyalty/loyalty.service.ts:133-399 | Between sales the ledger goes on as before: points are redeemed or adjusted, and earned for an order's own customer, exactly if the row is fresh and the balance covers it |
| `Sales.SalesAreFinal` | apps/api/src/modules/orders/orders.service.ts:97-495 | Whatever runs later, no committed sale is taken back, renumbered or repriced, and no payment, refund, redemption or loyalty row written for it goes away |
| `Sales.StepKeepsInv` | apps/api/src/modules/orders/orders.service.ts:97-495 | Every statement and every transaction keeps numbering, stock, money, coupons and points aligned and each within its own invariant |
| `OrdersService.Service.RecordPayment` | apps/api/src/modules/orders/orders.service.ts:733-823 | Records a payment exactly if its key is new, the order is not reversed and captured plus amount stays within the total; it then raises the captured sum by that amount, and reports settlement exactly when that clears a customer's order |
| `OrdersService.Service.RecordRefund` | apps/api/src/modules/orders/orders.service.ts:832-940 | Records a refund exactly if its key is new, the order is completed, voided or cancelled, and refunded plus amount stays within what was captured |
| `OrdersService.Service.UpdateStatus` | apps/api/src/modules/orders/order-status.ts:29-31 | Changes the status exactly along a legal transition and leaves the amounts alone |
| `OrderPaging.LoadAll` | apps/web/src/app/dashboard/orders/orders-client.tsx:120-165 | Fetching pages until one is short ends and shows exactly the first read's orders, each once, newest first, however many newer orders arrive in between |
| `OrderPaging.LoadMore` | apps/web/src/app/dashboard/orders/orders-client.tsx:139-158 | One more page continues the first read: dropping rows already shown drops nothing |
| `OrderPaging.NextPage` | apps/api/src/modules/orders/orders.service.ts:509-520 | Below a cursor the page is the next stretch of the first read, whatever newer orders arrived |
| `OrderPaging.PageIsTopBelowCursor` | apps/api/src/modules/orders/orders.service.ts:509-520 | A page holds the newest rows below the cursor, newest first, as many as there are up to the limit, 50 when none is given and 100 at most |
| `EditDistance.Distance` | apps/api/src/modules/menu-import/menu-import.match.ts:30-51 | The two swapped rows compute the recursive Levenshtein distance |
| `EditDistance.NextRow` | apps/api/src/modules/menu-import/menu-import.match.ts:37-47 | The inner loop fills a row of the table from the row above |
| `EditDistance.DistanceIsShortestScript` | apps/api/src/modules/menu-import/menu-import.match.ts:30-51 | The distance is at most k exactly when some script of at most k insertions, deletions and substitutions turns one name into the other |
| `EditDistance.Symmetric` | apps/api/src/modules/menu-import/menu-import.match.ts:30-51 | The distance is symmetric |
| `EditDistance.Triangle` | apps/api/src/modules/menu-import/menu-import.match.ts:30-51 | The distance satisfies the triangle inequality |
| `EditDistance.ZeroOnlyForEqual` | apps/api/src/modules/menu-import/menu-import.match.ts:30-51 | The distance is zero exactly for equal strings |
| `EditDistance.SimilarName` | apps/api/src/modules/menu-import/menu-import.match.ts:53-61 | The method decides similarity of the normalised names |
| `EditDistance.SimilarIsSymmetric` | apps/api/src/modules/menu-import/menu-import.match.ts:53-61 | Similarity is symmetric, holds of a name with itself exactly when it normalises to something, and below five characters means equality |
| `EditDistance.SimilarIff` | apps/api/src/modules/menu-import/menu-import.match.ts:53-61 | Two names are similar exactly if neither normalises to nothing some script of the allowed edits turns one into the other: none while the longer has fewer than five characters, one below ten, two from there on |
| `Csv.CsvCell` | apps/web/src/lib/csv.ts:11-17 | Whatever separator follows, a reader of section 2 of RFC 4180 gets the neutralised value back from the text the reassignments make |
| `Csv.ToCsv` | apps/web/src/lib/csv.ts:25-32 | The loop prints the table's rows joined by CRLF |
| `Csv.ReadsBackIff` | apps/web/src/lib/csv.ts:25-32 | A reader for section 2 of RFC 4180 recovers exactly the neutralised cells if and only if every row has a cell |
| `Csv.LenientReadsBack` | apps/web/src/lib/csv.ts:25-32 | A reader that takes the final line break as optional agrees, except that it drops a last row of one empty cell |
| `Csv.CellReadsBack` | apps/web/src/lib/csv.ts:11-17 | A printed cell, followed by a separator, reads back as the neutralised text |
| `Csv.NothingReadsAsFormula` | apps/web/src/lib/csv.ts:4-15 | No field recovered from the file begins like a formula |
| `Csv.NeutralKeepsTheText` | apps/web/src/lib/csv.ts:11-15 | Neutralising adds one apostrophe in front of what looks like a formula and changes no character |
| `Csv.NeutralCollidesIff` | apps/web/src/lib/csv.ts:11-15 | Two texts neutralise alike exactly if they are equal or one is the other, a formula, with the apostrophe already written |
| `Csv.QuotedIff` | apps/web/src/lib/csv.ts:16-16 | A cell is quoted exactly if it holds a quote, a comma, a CR or an LF |
| `Money.PrintedAmountsParse` | apps/web/src/lib/money.ts:23-29 | Parsing undoes printing for every amount from 0 to 999999999 paise |
| `Money.LargeAmountsAreRefused` | apps/web/src/lib/money.ts:25-25 | Printed amounts above that are refused |
| `Money.NegativeAmountsAreRefused` | apps/web/src/lib/csv.ts:20-22 | Printed negative amounts are refused |
| `Money.ParsedAmountsPrint` | apps/web/src/lib/money.ts:23-29 | Whatever parses is in that range and prints to a text that parses to the same amount |
| `Money.AcceptedIff` | apps/web/src/lib/money.ts:23-29 | Exactly one to seven digits, optionally followed by a dot and one or two more, are accepted once surrounding spaces are gone |
| `Money.AmountIs` | apps/web/src/lib/money.ts:23-29 | An accepted text with a dot is worth a hundred paise a rupee, and ten for a lone digit after it |
| `Money.SpacesAreIgnored` | apps/web/src/lib/money.ts:24-24 | A space before or after changes nothing |
| `TaxGroups.ComputeTaxGroups` | apps/web/src/lib/receipt.tsx:140-161 | The Map loop, filter, sort and split compute the specified groups |
| `TaxGroups.PrintedGstIsStoredTax` | apps/web/src/lib/receipt.tsx:134-139 | The printed CGST and SGST together are exactly the stored tax |
| `TaxGroups.ReceiptAddsUp` | apps/web/src/lib/receipt.tsx:134-161 | For every order insert can commit, subtotal less discount plus printed GST is the total |
| `TaxGroups.GroupsAreExact` | apps/web/src/lib/receipt.tsx:149-160 | Each group carries its own lines' sums and splits them with the odd paisa on SGST |
| `TaxGroups.DroppedGroupsCarryNoTax` | apps/web/src/lib/receipt.tsx:149-149 | A group the receipt leaves out has no tax |
| `TaxGroups.RatesRise` | apps/web/src/lib/receipt.tsx:150-150 | One line per rate, lowest rate first |
| `TaxGroups.RateIsShown` | apps/web/src/lib/receipt.tsx:149-149 | A rate is printed exactly if it is positive and its lines carry tax |
| `Rounding.RoundDivIsNearest` | apps/api/src/modules/orders/orders.service.ts:298-299 | Math.round of an exact quotient is within half a unit, halves going up |

## Left out

- Prisma, SQL, row-level security, HTTP, guards, JWT signing, hashing, mail, events, sockets and all user interface: tables are sequences and maps of one tenant; the unique indexes the source relies on (order number, idempotency keys, one loyalty row per order and type) are taken as given, so is that an insert into loyalty_ledger or orders shares the customer's row for its foreign key and waits while another transaction holds it FOR UPDATE (section 13.3.2 of the PostgreSQL documentation), and so is the repeatable effect of a committed statement.
- Token hashes and random ids: a token is named by its row, and a new family id is any id no row carries.
- TokenService.Server.RotateForReissue: read and update are one atomic statement, because the source's update is unconditional and two of them could otherwise both hand the family on; the later insert is a separate step.
- TokenService.Server.RevokeAllForUser: the time stamped is the clock at its commit, and the server's and the database's clocks are one; socket listeners and the access-token check of select-restaurant are not modelled.
- TokenService.Server.Refresh: whether the user is still active is a parameter.
- OrdersService.Service.RecordPayment: one atomic transaction, as are RecordRefund, UpdateStatus, DepleteForOrder, CreateBatch and Waste; the source takes no row lock there and says so of payments, so concurrent calls on one order are outside the model; so are concurrent redemptions of one coupon.
- OrdersService.Service.Create: the money side alone; Sales joins it with numbering, stock, coupons and points.
- Sales.SoldOncePerKey: a call's statements before its transaction interleave; the transaction itself, with its pricing, is one step that waits while a debit holds the customer's row, and the amounts it commits are those pricing returned. Two sales that each share a customer's row and then ask to lock it deadlock, and the database rolls one of them back: that is the step Fail.
- OrderCreation.Service.Create: the content of the order is not part of the numbering model; other exceptions are the protocol's Fail step, and the method covers the calls in which none is thrown.
- WriteOnce.Ledger.WriteOnce: covers the calls whose write does not throw for another reason; the protocol's Fail step covers the rest.
- LoyaltyService.Service.EarnForOrder: the order row and the configuration are parameters; that the order is settled is checked before the part modelled.
- LoyaltyService.Service.AwaitLock: what others do while it, or AwaitInsert, waits is a finite schedule; StillWaiting stands for a call that has not returned yet. An unknown customer is not modelled.
- LoyaltyService.Summarize: the ten recent entries it also returns are not modelled.
- Loyalty EXPIRE rows, tiers and settings screens: no code writes EXPIRE rows, and tiers are read off the balances modelled.
- InventoryService.Service.UpdateStatus: held orders resume with their product lines only, as in the source, so for combos a hold that is placed later depletes less than a direct sale; nothing is claimed about the two being equal.
- InventoryService.Service.CreateBatch: its idempotency key, batch code and cost are not modelled, nor the retry on a code collision; the expiry is a parameter.
- Fefo.AllocateFefo: the order in which the database returns batches is the order of creation; soundness, optimality and composition are proved for any order.
- PrepTheorems.NoShortLoops: setRecipe is one atomic transaction here; the source takes no lock before its check, so two calls that make two items use each other at the same moment are outside the model.
- InventoryService.Service.SetRecipe: which ingredients are active is a parameter.
- Ingredient administration, purchase orders, stock counts, suppliers and costing: their stock effects are the untagged append step.
- OrderPricing.Price: catalogue lookups, the validity of modifier selections and the product-or-combo test come before it; a line arrives with its price and its modifiers' sum.
- OrderPaging.Page: the status filter is left out, since an order whose status changes between pages may leave or enter the listing; ids are numbers in database order and newer orders have larger ids.
- EditDistance.SimilarName: normalisation is an arbitrary function on strings, and the ratio test d / max <= 0.2 is done exactly as 5 d <= max.
- Csv.ToCsv: a number arrives as the text String() gives it.
- Money.ParsedAmountsPrint: toFixed(2) is exact decimal printing; strings are sequences of characters, and trim's spaces are those of ECMAScript outside the astral planes.
- TaxGroups.ComputeTaxGroups: the displayed half rate is left out, and the Map of pairs is held as two running totals over the same keys.
- Analytics, segments, timesheets, cash sessions and menu import beyond name matching: reports over the tables modelled, or tables nothing here depends on.
