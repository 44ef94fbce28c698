# Inventra: stock, ledger, cache and seed data

A Dafny model of Inventra's inventory backend, and proofs about it. Inventra keeps `Product.current_stock` next to an
append-only ledger of `InventoryTransaction` rows. Five requests move stock or reserve it: receiving a purchase order,
completing a sales order, filing a return, approving a return, and writing off damage. Each runs in a database
transaction that takes `select_for_update` row locks. Reports on the ledger are cached behind a version counter that
every stock mutation bumps after its commit.

The project proves what this design is for, over every run:

* any interleaving of any number of locked transactions, with crashes anywhere, leaves the store and the answers of
  serving the answered requests one at a time (`Serializability.dfy`), cannot deadlock, and always ends (`Progress.dfy`);
* stock follows the ledger, is never negative, every order is posted exactly once, and returns stay within sales
  (`History.dfy`, `Conservation.dfy`, lifted to all interleavings in `Guarantees.dfy`);
* without locks on `complete`, beside any other requests, stock is still never negative, and never below opening minus
  sold and written off (`LockingOff.dfy`); for requests that name existing rows the proofs give exactly when stock and
  ledger stay in step over every run (`UnlockedExact.dfy`, `UnlockedLosses.dfy`) and exactly when an order can be
  completed twice (`Ceilings.dfy`, `UnlockedRuns.dfy`); when only `complete` runs, sales are lost from the stock only
  upwards (`OnlySales.dfy`);
* the cached inventory report is the plain one, sequentially always, and under races exactly when the version key exists
  at the start or no two readers share user, role and query (`VersionCache.dfy`, `CacheRaces.dfy`, `CachedReport.dfy`);
  with locked transactions, hooks and readers all interleaving, and under the same condition, every report is that of a
  prefix of the serial run (`WholeSite.dfy`);
* reconciliation, report totals and the low-stock sweep are exact and restartable (`Tasks.dfy`, `Reports.dfy`);
* the demo-data generator, whatever its random draws and whatever was in the database, adds exactly what is drawn, and
  that is what a run of the real endpoints would have left (`SeedDraws.dfy`, `SeedRuns.dfy`, `SeedDemo.dfy`).

## Reading order

`Sums` and `Ledger` hold order lines, ledger rows and their sums. `Endpoints` says what each request does when it runs
alone (`Serve`), and `Replies` spells out which request gets which answer; `InventoryViews` is the same code in its
own form, a class whose methods loop over lines, save product rows and append ledger rows, each proved equal to
`Serve`. `RowLocks` breaks the same requests into statements: each transaction has a phase, its uncommitted writes and
the rows it holds; steps of different transactions interleave, locking reads wait, and a commit replaces the committed
rows. With the switch off `complete` reads without locks and only its own UPDATEs lock. `Serializability` connects the
two layers, and everything proved of `Serve` over a history then holds of every reachable state.

The modules on the unlocked `complete` build on each other. `UnlockedSales` and `UnlockedMix` construct runs. `Ceilings`
bounds how high stock can get: the opening stock plus the open purchases and pending returns that some request of the mix
names. A sale can succeed when it is open and every line is within that ceiling. `MixInStep` shows that stock and ledger
stay in step as long as nobody commits a change to a product that a sale relies on; `UnlockedExact` derives this from a
condition on the opening store and the requests, `UnlockedLosses` gives a losing run whenever the condition fails, and
`UnlockedApart` covers mixes that create the orders and returns they name.

The random source of the demo-data generator is a tape that holds the outcome of each draw. `SeedDraws` says what each
builder makes of its draws, `SeedRuns` which requests to the endpoints have the same effect, and `SeedDemo` is the
generator itself.

Products, orders and returns are numbered by their position in their table. For products the number is also the rank
of the primary key, so that `order_by("product_id")` and the lock order are the order of the numbers. `fetched` and
`items` are the lines of an order as the database returned them; among equal products any order is allowed.

## What the proofs found

* `complete` reads one copy of the product per line before it deducts anything (`apps/inventory/views.py:250-263`), and
  nothing rejects an order that repeats a product (`apps/inventory/serializers.py:83-91`). The last saved copy wins while
  the ledger gets every line. Stock therefore agrees with the ledger if and only if no completed sale repeats a product
  (`History.InStepIffDistinctSales`), and the gap is exactly the sum of all but the last line of each repeated product
  (`History.StockFollowsLedger`). `receive` re-reads the product for every line and has no such gap.
* While the version key is missing, both `get_version` and `bump_version` read and then set (`apps/core/cache.py:28-31`,
  `41-47`), and a late set can undo a bump. `CachedReport.StaleHit` does it with a late `get_version` of a third reader,
  `CachedReport.StaleHitOfTwo` with nothing but the hooks of three commits: a reader that starts after a bump is served
  the page from before that commit. With the key present no run does this, and without it none in which all readers
  differ in user, role or query (`CachedReport.TrustedIffInitialisedOrDifferent`).
* `loadtest/README.md:40-43` expects negative stock as the sign of running without locks. The code writes absolute
  values that were checked against the copy they came from, so stock never goes negative, under any mix of requests
  (`LockingOff.StockKeepsItsFloor`): it stays too high, as `docs/v2/LOAD_TEST_RESULTS.md` reports. The model follows the
  code.
* Without locks, a mix of requests on existing rows keeps stock and ledger in step over every run if and only if no
  sale that can succeed repeats a product, no two of them share one, and none crosses another request: a receipt or
  non-empty return of a product on the sale that is not needed for the sale's lines up to that product, or a write-off
  of it within the ceiling (`UnlockedLosses.KeptIffSafe`).
* Without locks the status check does not protect either: in a mix of requests on existing rows an order is completed
  twice in some run if and only if two requests name it and it can succeed (`UnlockedRuns.TwiceIffSellable`). The opening
  stock need not cover it: a receipt in the mix may (`UnlockedRuns.SoldTwiceAfterReceipt`).
* A return of quantity 0 is accepted however much has been returned already
  (`Conservation.NothingCanBeReturned`), and a negative one is refused only by the database
  (`apps/inventory/views.py:339-356`, `apps/inventory/models.py:107`).
* With fewer than three products the demo-data generator raises for some draws, because a purchase order samples up to
  three (`SeedDraws.CanRaiseIffFew`); the transaction then leaves nothing behind.

## Model

| member | source | states |
|---|---|---|
| Endpoints.Serve | apps/inventory/views.py:87-426 | Any call, accepted or refused, keeps every foreign key valid and every line positive, keeps the product table, and only appends to the ledger |
| Replies.SaleAcceptedIff | apps/inventory/serializers.py:83-91 | A sales order is created if and only if it has a line and every line, by its index, names an existing active product with quantity at least 1; the store then gains exactly that order, open, with exactly those lines, and is otherwise unchanged |
| Replies.PurchaseAcceptedIff | apps/inventory/serializers.py:44-52 | The same for purchase orders, whose supplier must also exist and be active |
| Replies.ClosingReplies | apps/inventory/views.py:119-130 | The answer to every receive, complete and approve: an error for a missing row, 409 for a closed one, 409 for a sale with a line beyond the stock, else Ok |
| Replies.WriteOffReplies | apps/inventory/views.py:394-411 | The answer to every write-off: 400 for a quantity below 1 or a product that is missing or inactive, 409 beyond the stock, else Ok |
| Replies.FilingReplies | apps/inventory/views.py:329-357 | The answer to every filed return: an error for a missing sale, 400 for an open one, for a product it did not sell and for more than is left, a database error for a negative quantity, else created |
| InventoryViews.Inventory.OrderByProduct | apps/inventory/views.py:136 | The fetched lines are a permutation of the order's lines in ascending product order |
| InventoryViews.Inventory.CreatePurchase | apps/inventory/views.py:87-96 | A new order of an active supplier with a valid list of active products is appended open; any other is 400 and changes nothing |
| InventoryViews.Inventory.CreateSale | apps/inventory/views.py:183-199 | As for purchases, with the sales serializer's check |
| InventoryViews.Inventory.AddStock | apps/inventory/views.py:137-148 | The loop raises each product by the sum of its lines, repeated products included, posts one row per line, and reports the products and the total |
| InventoryViews.Inventory.Receive | apps/inventory/views.py:118-163 | The whole request equals the atomic receive: stock, order status, ledger, reply; it reports the product of each fetched line, in ascending order, and as delta the sum over the products of what was ordered of each |
| InventoryViews.Inventory.CheckStock | apps/inventory/views.py:246-257 | Accepts exactly when every line alone is covered by the stock, and then holds one copy of the current stock per line |
| InventoryViews.Inventory.Deduct | apps/inventory/views.py:259-270 | Leaves each product at its old stock minus its last line only, and posts a row for every line |
| InventoryViews.Inventory.Complete | apps/inventory/views.py:228-286 | The whole request equals the atomic complete: all lines or none; it reports the product of each fetched line, in ascending order, and as delta minus the sum over the products of what was sold of each |
| InventoryViews.Inventory.FileReturn | apps/inventory/views.py:329-357 | Equals the atomic filing: what was sold minus what is pending or approved bounds the new return, with each refusal in its place |
| InventoryViews.Inventory.Approve | apps/inventory/views.py:360-387 | Equals the atomic approval: stock, ledger row and status together, 409 on a repeat |
| InventoryViews.Inventory.WriteOff | apps/inventory/views.py:394-426 | Equals the atomic write-off: 400 for a bad quantity or product, 409 beyond the stock, else stock and ledger move together |
| Ledger.NoOverhangIffDistinct | apps/inventory/views.py:250-270 | A list of lines loses nothing to last-save-wins if and only if it repeats no product |
| History.RefusalsLeaveNoTrace | apps/inventory/views.py:128-130 | Striking every refused call from a history, and no other, leaves the same store and the same answers to the others |
| History.ReceiveIgnoresOrder | apps/inventory/views.py:136-148 | A receive has the same effect whatever order the lines come back in |
| History.CompleteSurplus | apps/inventory/views.py:245-270 | A completed sale moves stock and ledger apart by exactly all but the last line of each repeated product; a refused one by nothing |
| History.StockFollowsLedger | apps/inventory/views.py:136-148 | Over every run, stock minus signed ledger is its opening value plus the accumulated drift of completed sales |
| History.InStepIffDistinctSales | apps/inventory/views.py:250-270 | Over every run, stock and ledger move together on all products if and only if no completed sale repeats a product |
| History.RepeatedSaleDrifts | apps/inventory/serializers.py:83-91 | Every completed sale that repeats a product leaves some product's stock above its ledger for the rest of the run |
| History.StockStaysNonNegative | apps/inventory/views.py:252-263 | No run sells or writes off what is not there, repeated lines included |
| History.RunsPostOnce | apps/inventory/views.py:142-152 | After every run each reference has no ledger row while its order or return is open and exactly its own rows, once, when closed |
| History.RepeatsAreConflicts | apps/inventory/views.py:241-243 | After a successful receive, complete or approve every later one like it, anywhere in the run, is a 409 that changes nothing |
| Conservation.FilingAcceptedIff | apps/inventory/views.py:334-356 | While returns stay within sales, a return is accepted if and only if the sale is completed, sold the product, and the quantity is between 0 and what is left |
| Conservation.NothingCanBeReturned | apps/inventory/views.py:339-356 | A return of quantity 0 of a sold product is always accepted, adds a pending row, and reserves nothing |
| Conservation.StepWithinSales | apps/inventory/views.py:340-351 | Every call keeps pending plus approved returns within the quantity sold, for each sale and product |
| Conservation.RunsStayWithinSales | apps/inventory/views.py:329-378 | The same over whole runs, with the ledger's sale and return totals matching completed sales and approved returns |
| Conservation.ReturnsNeverExceedSales | apps/inventory/views.py:329-378 | In the ledger of every run a product's returns never exceed its sales |
| Serializability.CommitIsServe | apps/inventory/views.py:141-152 | A transaction's private writes, at its commit, are one atomic call on the store it commits to, although each was computed earlier |
| Serializability.RefusalIsServe | apps/inventory/views.py:252-256 | A refusal decided on locked rows is still the right answer when it is given |
| Serializability.WritesWithinLocks | apps/inventory/views.py:139-141 | A transaction writes only rows it has locked |
| Serializability.Frame | apps/inventory/views.py:238-251 | What a transaction has read stays true as long as the rows it has locked do not change |
| Serializability.ReachableInv | apps/inventory/views.py:119-152 | No two transactions ever hold the same row, and each one's reads and pending writes fit the committed store |
| Serializability.Serializable | apps/inventory/views.py:118-426 | Every interleaving, crashes included, equals the serial run of the answered requests in the order of the log, store and answers alike; each finished transaction is in the log once, crashed and unfinished ones never |
| RowLocks.RollsBack | apps/inventory/views.py:118-130 | Any unfinished transaction can roll back at any point, which leaves the committed rows and the other transactions as they are and frees its locks |
| Progress.AsksInOrder | apps/inventory/views.py:132-139 | Every transaction asks for rows in one fixed order: order or return row, then products by ascending id |
| Progress.SomeoneCanStep | apps/inventory/views.py:132-139 | In every reachable state with an unfinished transaction, some transaction can take its next step |
| Progress.RunsAreFinite | apps/inventory/views.py:138-148 | No run takes more steps than transactions times twice the longest order plus six |
| Progress.CanAlwaysFinish | apps/inventory/views.py:132-139 | From every reachable state all unfinished transactions can be carried to an answer without a crash |
| Guarantees.ReachableStock | apps/inventory/views.py:118-426 | Under every interleaving committed stock is non-negative and off its ledger by the opening difference plus the logged drift |
| Guarantees.ReachableInStep | apps/inventory/views.py:228-286 | Under every interleaving stock and ledger agree if and only if no completed sale repeats a product |
| Guarantees.ReachableBalance | apps/inventory/tasks.py:120-132 | Under every interleaving without repeated sale lines, stock is opening plus purchases plus returns minus sales minus damage |
| Guarantees.ReachablePostings | apps/inventory/views.py:128-152 | Under every interleaving closed orders and returns are posted exactly once, open ones not at all |
| Guarantees.ReachableReturns | apps/inventory/views.py:331-351 | Concurrent return requests never reserve more than was sold |
| Guarantees.OneWinner | apps/inventory/views.py:120-130 | Of any two concurrent requests to close the same order or return, at most one succeeds |
| LockingOff.StockKeepsItsFloor | apps/inventory/views.py:118-426 | With locking on or off, every interleaving of any requests keeps stock at or above zero and at or above opening minus sold minus written off |
| Ceilings.SoldWithinCeiling | apps/inventory/views.py:136-140 | With locking off, no run of a mix on existing rows lifts a product above its opening stock plus what the mix can receive and approve, each row once, and only open sales within that ceiling are ever completed |
| UnlockedRuns.ServesMovers | apps/inventory/views.py:119-152 | Some run brings every product exactly to that ceiling, or to the ceiling without chosen rows, before anything else starts |
| UnlockedRuns.TwiceIffSellable | apps/inventory/views.py:238-243 | With locking off, some run of a mix on existing rows completes an order twice if and only if two requests name it, it is open, and every line is within the ceiling |
| UnlockedRuns.SoldTwiceAfterReceipt | apps/inventory/views.py:238-243 | A concrete mix whose opening stock does not cover the order, with a run that completes it twice after a receipt |
| MixInStep.StepStaysInStep | apps/inventory/views.py:141-152 | One step of an unlocked mix keeps stock and ledger in step when only sales without repeats save and nobody commits a change to a product that an unlocked sale has read |
| UnlockedExact.ReachableSafe | apps/inventory/views.py:250-263 | In every run of a mix without clashes, copies and pending writes fit the committed store, and stock and ledger are in step |
| UnlockedLosses.KeptIffSafe | apps/inventory/views.py:235-275 | With locking off, stock and ledger stay in step over every run of a mix on existing rows if and only if no sale that can succeed repeats a product, shares one with another such sale, or crosses a receipt, return or write-off |
| UnlockedLosses.BringingLoses | apps/inventory/views.py:247-263 | A receipt or return served after a sale has read the product, and perhaps needed by its later lines, is lost from the stock |
| UnlockedLosses.CallIsUndone | apps/inventory/views.py:247-263 | Any other request served between a sale's check and its saves stays in the ledger and vanishes from the stock of every product the sale sells |
| UnlockedApart.ApartKeeps | apps/inventory/views.py:235-275 | With locking off, over every run of any requests, those on orders and returns the mix creates included, stock and ledger stay in step if no sale that may be completed repeats a product or touches one that another request may touch |
| OnlySales.UpdatesAreOnlyLostUpwards | apps/inventory/views.py:235-275 | With locking off, every interleaving of completes keeps stock between opening minus sold and opening, and at or above zero |
| OnlySales.SalesKeptIffApart | apps/inventory/views.py:235-275 | With locking off, every run of nothing but completes keeps stock equal to opening minus sold if and only if no request that can succeed repeats a product and no two share one |
| OnlySales.TwiceIffTwoLive | apps/inventory/views.py:238-243 | With locking off, in runs of nothing but completes, an order is completed twice in some run if and only if two requests name it, it is open and the opening stock covers it |
| UnlockedSales.MeetingLoses | apps/inventory/views.py:229-235 | Any two sales that the opening stock covers and that share a product have a run in which both succeed and stock stays above opening minus sold |
| UnlockedSales.RepeatLoses | apps/inventory/views.py:250-263 | Any sale that the opening stock covers and that repeats a product loses part of its effect even when it runs alone |
| UnlockedSales.UpdateLost | apps/inventory/views.py:229-235 | A concrete run in which two units are sold, the stock drops by less, and one order is completed twice |
| UnlockedMix.SaleOverwrites | apps/inventory/views.py:247-263 | With locking off, any other request can be served between a sale's check and its saves, answered as if alone, and the saves then overwrite what it did to the sale's products |
| UnlockedMix.ReceiptLost | apps/inventory/views.py:138-141 | With locking off, a receipt between a sale's check and its saves is posted but missing from the stock |
| Reports.ReportAgainstStock | apps/reports/views.py:125-130 | Units in stock minus the report's purchased plus returned minus sold minus damaged is the joint surplus over the ledger |
| Reports.ReportBalancesIffDistinctSales | apps/reports/views.py:125-130 | Over every run the report's net movement is the change of all stock since its opening if and only if no completed sale repeats a product |
| Reports.ReportByProduct | apps/reports/views.py:125-130 | Each of the four totals is the sum over all products of the ledger rows of its own type, and the report lists every row |
| Reports.ReportFollowsOrders | apps/reports/views.py:125-130 | Over every run, purchased rises by exactly the units on the orders received, sold by those on the sales completed, returned by the returns approved, damaged by the write-offs answered Ok |
| Tasks.GroupingIsExact | apps/inventory/tasks.py:120-132 | The one-pass grouped total equals each product's own sum; exactly the products without rows are absent |
| Tasks.MismatchesAre | apps/inventory/tasks.py:134-138 | The mismatch list holds exactly the products whose stock is not their total, each once |
| Tasks.ReconcileFindsExactly | apps/inventory/tasks.py:108-155 | After any run the reconciliation reports exactly the products whose opening difference plus drift is not zero, with both numbers |
| Tasks.SilentIffDistinctSales | apps/inventory/tasks.py:108-155 | From a reconciled start the reconciliation stays silent if and only if no completed sale repeated a product |
| Tasks.CandidatesAre | apps/inventory/tasks.py:88-94 | The candidates are exactly the active products with stock at or below 0, as out of stock, and those above 0 and at or below their threshold, as low, each once |
| Tasks.SweepAdds | apps/inventory/tasks.py:96-102 | A sweep flags exactly the candidates without an unread notification, and adds for each of them one unread notification per recipient, and nothing else |
| Tasks.Notifications.SweepLowStock | apps/inventory/tasks.py:79-104 | The loop leaves the notifications of that sweep over the candidates, counted per notification, and returns how many candidates there were and how many it flagged |
| Tasks.SweepFlags | apps/inventory/tasks.py:96-102 | A sweep only adds notifications and, with somebody to notify, leaves every candidate flagged |
| Tasks.CrashThenRerun | config/settings/base.py:144-148 | A sweep that died after any prefix of its candidates and is run again ends with what one full sweep leaves |
| Tasks.SecondSweepIsSilentIff | apps/notifications/services.py:11-17 | A second sweep flags nothing if and only if there is an active admin or manager or the first one flagged nothing |
| VersionCache.Cache.GetVersion | apps/core/cache.py:26-32 | Returns the counter, setting a missing one to 1 |
| VersionCache.Cache.BumpVersion | apps/core/cache.py:35-47 | Raises the counter by one, counting a missing one as 1 |
| VersionCache.Site.Cached | apps/core/cache.py:61-86 | For every endpoint: a hit exactly when a page for this endpoint and caller is stored under the current version, and then that page; after a miss the page is stored exactly if its status is 2xx; no other page changes; the inventory report is what the plain view answers now |
| VersionCache.Site.Call | apps/inventory/views.py:155 | An endpoint call does what it does alone and raises the counter by one exactly when it answers Ok |
| VersionCache.Site.Run | apps/core/cache.py:26-86 | Over every one-at-a-time history of endpoint calls, reads and expiries, the key missing at first or not, every operation is answered, hit or miss, as the history before it demands; the inventory report always is what the plain view says at that moment; the counter rises once per Ok answer and never otherwise |
| VersionCache.ReadHitsIff | apps/core/cache.py:69-86 | A read hits if and only if an earlier read of the same endpoint and caller was answered 2xx since the last Ok call and the last expiry of its key, or the page was there from the start and neither came; it then returns that very page, and otherwise what the view answers |
| VersionCache.OkIffStockMoved | apps/inventory/views.py:278 | A call answers Ok, and so bumps, if and only if it is a receive, complete, approve or write-off that changed something; refusals, new orders and filed returns never do |
| CacheRaces.ReachableInv | apps/core/cache.py:26-86 | Under every interleaving with the key present, whatever was stored under earlier versions, each page of the starting version or a later one is a snapshot with every commit bumped before its version, and nothing is stored under a version to come |
| CacheRaces.StoredThenFound | apps/core/cache.py:71-83 | Under races too, a 2xx page once stored is what the next look-up under its version and for its caller gets, until it expires |
| CacheRaces.InitialisedIsFresh | apps/core/cache.py:61-86 | With the key present no answer misses a commit whose bump ran before the reader read the version, and the counter is its start plus the bumps run, exactly one for each commit whose hook is not still waiting |
| CacheRaces.DifferentCallersAreFresh | apps/core/cache.py:50-58 | Without the key, readers that differ in user, role or query get no answer that misses a commit bumped before they read the version |
| CachedReport.StaleHit | apps/core/cache.py:28-31 | A run without the key in which a late set of a reader undoes a bump and a later reader is served the old report |
| CachedReport.StaleHitOfTwo | apps/core/cache.py:41-47 | The same for any two readers with one user, role and query, with a late set of `bump_version` itself |
| CachedReport.TrustedIffInitialisedOrDifferent | apps/core/cache.py:26-47 | Every answer over every run is fresh if and only if the version key exists at the start or no two readers share user, role and query |
| WholeSite.EachOnItsOwn | apps/inventory/views.py:155 | With transactions, hooks, readers and expiries all interleaving, with or without a version key, the cache sees exactly the successful mutations of the database's log, in its order |
| WholeSite.ReportsAreSerial | apps/reports/views.py:114-141 | With the version key present at the start, or readers that differ in user, role or query, every report of the whole site, hit or miss, is that of the store after a prefix of the serial run, with every mutation bumped before the reader came |
| WholeSite.CounterCountsMutations | apps/core/cache.py:35-47 | With the version key present at the start, the counter has risen once for every committed mutation whose hook is not still waiting, and for nothing else |
| WholeSite.SiteTrustedIff | apps/core/cache.py:26-47 | For every starting cache: over every database, all requests and every run, no report misses a mutation bumped before its reader came, if and only if the version key exists or no two readers share user, role and query |
| SeedDemo.Seeder.Sample | apps/catalog/management/commands/seed_demo.py:213 | That many different members of the population; no caller asks for more than there are |
| SeedDraws.EveryDraw | apps/catalog/management/commands/seed_demo.py:213-214 | No outcome of a draw is left out: every number of a range, both sides of a coin, and every sample without repetition in every order has a tape |
| SeedDraws.OneOutcome | apps/catalog/management/commands/seed_demo.py:179-194 | Given the draws and the stock, a turn of the order loop raises or builds one order and no other |
| SeedDraws.OnlyOrders | apps/catalog/management/commands/seed_demo.py:179-194 | Of two lists of orders drawn from the same tape, the longer starts with the shorter: the draws determine the whole loop |
| SeedDraws.NoOrdersBeyond | apps/catalog/management/commands/seed_demo.py:179-194 | If the draws make the loop raise after some orders, they allow no orders beyond |
| SeedDraws.CanRaiseIffFew | apps/catalog/management/commands/seed_demo.py:213 | Some draws make the loop raise if and only if it takes a turn and there are fewer than three products |
| SeedDraws.NothingIffNoneInStock | apps/catalog/management/commands/seed_demo.py:239-241 | A turn builds nothing if and only if the coin is for a sale and none of the up to three sampled products is in stock |
| SeedDraws.InStockIs | apps/catalog/management/commands/seed_demo.py:239 | The candidates are exactly the picked products with positive stock, each once |
| SeedDraws.CompletedSinceAre | apps/catalog/management/commands/seed_demo.py:193-194 | The sales that can have returns are exactly the generated ones that are completed, each once |
| SeedDraws.HowMuchIsGenerated | apps/catalog/management/commands/seed_demo.py:196-197 | One turn for each order; for n completed sales n / 20 returns, one when that is 0, none without sales; and one write-off for every forty orders, at least one, as far as there are products in stock |
| SeedDemo.Seeder.BuildPurchaseOrder | apps/catalog/management/commands/seed_demo.py:212-236 | It fails exactly when it samples more products than there are; else the order is the one drawn, with the supplier of the first product, active, acceptable, without repeated products, and running stock and rows are those of receiving it, if received |
| SeedDemo.Seeder.BuildSalesOrder | apps/catalog/management/commands/seed_demo.py:238-265 | Nothing, exactly when no sampled product is in stock, or the order drawn: one line for every sampled product in stock, acceptable, without repeated products and covered by the stock, with the effect of completing it, if completed |
| SeedDemo.Seeder.BuildReturns | apps/catalog/management/commands/seed_demo.py:267-286 | The returns drawn: their number, the sales, and for each one of its lines and a quantity within it; at most one per sale, with stock and rows of approving the approved ones |
| SeedDemo.Seeder.BuildDamage | apps/catalog/management/commands/seed_demo.py:288-298 | The write-offs drawn, for as many products in stock as asked for or there are; each takes one to five units and no more than there is |
| SeedDemo.Seeder.OpeningRows | apps/catalog/management/commands/seed_demo.py:169-175 | One purchase row for each generated product that starts with stock |
| SeedDemo.Seeder.OrderLoop | apps/catalog/management/commands/seed_demo.py:179-194 | The loop takes every turn, each building what is drawn from the stock its predecessors left, or raises in the turn after some of them; the database is what those orders, one after another, make of the opening one, and the sales noted for returns are exactly the completed ones |
| SeedDemo.Seeder.SeedOrders | apps/catalog/management/commands/seed_demo.py:156-210 | For every draw and every database, the saved rows are exactly those drawn: the orders of all turns, returns, write-offs; they are what some history of real requests adds, starting from the opening purchases; at most one return per sale, within one of its lines |
| SeedRuns.AnotherSale | apps/catalog/management/commands/seed_demo.py:238-265 | A generated sale is a create and, if completed, a complete that the endpoints would have accepted |
| SeedRuns.AnotherReturn | apps/catalog/management/commands/seed_demo.py:267-286 | A generated return is a filing and, if approved, an approval that the endpoints would have accepted |
| SeedDemo.GeneratedRowsAreSound | apps/catalog/management/commands/seed_demo.py:159-174 | Whatever was there before: no foreign key dangles, no stock turns negative, and a sound database (non-negative, posted once, within its sales, reconciled) stays sound, so the nightly run finds nothing |
| SeedDemo.EmptyIsSound | apps/catalog/management/commands/seed_demo.py:62-84 | An empty database is sound, so seeding one leaves a sound one |
| SeedDemo.Seeder.Handle | apps/catalog/management/commands/seed_demo.py:62-84 | It generates the products, orders, returns and write-offs that are drawn, or raises in a turn whose purchase order samples more products than there are, so never without orders or with three products, and then leaves everything as it was, as it does when demo data is present; a sound database, empty or not, stays sound |

## Left out

- Order `update` (`apps/inventory/views.py:98-115`, `201-225`): it checks the status outside its transaction and takes no lock, so the guarantees exclude it.
- Inherited `destroy` of orders and returns: deleting a return frees its reservation, deleting an order removes lines.
- Product create and edit with a stock value, and `reset_loadtest_stock`: they change stock without a ledger row. Opening stock is arbitrary, and no run edits it afterwards.
- Notifications sent inside the endpoints and by the reconciliation, their messages, and the recipients' roles: only the sweep's notifications are modelled.
- Primary keys are table positions instead of random UUIDs, and no product is added, removed or deactivated during a run.
- Timestamps and date ranges: the report covers the whole ledger, in the order of the commits, where the view lists the newest first.
- Requests that fail to parse, authentication, permissions, throttling, HTTP, PDF invoices, Celery transport and logging.
- Foreign-key share locks: the model allows every interleaving the database does.
- Column widths: stocks and quantities are unbounded integers.
- The SHA-256 digest in the cache key: keys are the tuple of namespace, version, endpoint, user, role and query string, so collisions of the truncated digest are not modelled.
- The dashboard and the product, sales and purchase reports: they read data that changes without a bump, and only their cache entries are there, under other endpoint names.
- Eviction of the version key: it has no timeout and is taken never to be dropped once set. Without the key, the concurrent cache starts without stored pages.
- `reconcile_ledger` running beside mutations: it issues separate queries without a common snapshot.
- Prices, users, categories, suppliers and `--flush` of the demo data; random floats are arbitrary coin tosses, one sample is one draw, and the draws of what is left out are not counted.
- UnlockedLosses.KeptIffSafe: the condition is exact for requests that name existing rows, or missing ones that nobody creates; primary keys are random and first known from the answer to the create. For mixes whose requests name rows the mix itself creates, `UnlockedApart.ApartKeeps` gives a sufficient condition only.
- UnlockedRuns.TwiceIffSellable: likewise for requests that name existing rows, or missing ones that nobody creates.
- Progress.RunsAreFinite: concerns explicit row locks; the database's own lock timeouts are not modelled.
