# Accounting and ordering core of the exchange, in Dafny

The project models how the exchange keeps its books and proves what holds over whole runs of it:

- **Ledger** (`Domain`, `Rows`, `Ledger`, `Admission`, `Exchange`): users' balances split into total, locked and
  available; orders that lock funds when placed; trade batches that settle many makers against one
  taker; cancel, Cancel-Replace, bulk placement, stop triggers, refunds and administrators'
  adjustments. `Ledger` gives each transaction as a function from one committed state to the next.
  `Exchange.Services` carries the transactions out on mutable tables, and each of its methods is
  proved to do what the function says.
- **Invariants over runs** (`Soundness`, `Claims`, `OrderTerms`, `FillBooks`, `BaseLocks`, `QuoteLocks`,
  `Matches`, `Settlement`, `PayerRows`, `MarketBuys`, `StopLifecycle`, `PrintPath`), **what one request undoes**
  (`AllOrNothing`, `RoundTrips`) and **reachable states that fall short** (`Shortfalls`).
- **Optimistic updates** (`OptimisticRow`, `Uncontended`): any interleaving of version-checked clients
  and row-lock writers on one balance row, and what a client alone on it gets.
- **Book arithmetic** (`AskWalk`, `ScoreCodec`, `OrderBook`, with `Division` for integer division):
  the walk that prices a market buy, the packed score with exact IEEE 754 rounding, and the views of
  the book.
- **Rate limiter** (`RateLimiter`), **candles** on both sides of the wire (`Candles`), **trailing
  stops** (`TrailingStops`) and the three **open-order indexes** (`OpenOrderIndex`).

Amounts are exact reals, or scaled integers for scores. Ids are positions in the order table. The
matcher is used through a contract only (`Soundness.MatcherContract`, `QuoteLocks.PriceContract`):
executions are positive, against known orders of the opposite side, within what remains of maker and
taker and within both limits. Clocks, ask snapshots and order hashes are parameters.

`dafny verify dfyconfig.toml` checks the whole project.

## What the code does not do as described

Where the code and its own comments or the obvious reading differ, the code is modelled. One lemma
says exactly when the promise holds, another shows a state in which it fails.

- The refund after a buy releases everything the user has locked in the quote asset, not this order's
  leftover. Other buys stay covered if and only if there is no other live priced buy
  (`QuoteLocks.RefundKeepsCoverIff`, `Shortfalls.RefundUncovers`).
- A market buy's lock is not stored on its order: a cancel gives back what the order's own price, or
  else its stop price, computes, capped at what is locked. That restores every amount if and only if
  it computes the lock, or more when the user has nothing else locked
  (`RoundTrips.PlaceThenCancelRestoresIff`, `Shortfalls.CancelKeepsMarketLock`).
- A party without a balance row is skipped in a settlement: what it was due is lost, and what it owed
  is created. The two cancel out if and only if they are equal (`Settlement.BatchConservesIff`). Over
  runs from the empty exchange a payer always has a row, so funds are lost only, and exactly when a
  payee has none (`PayerRows.RunConservesIff`, `Shortfalls.BatchLosesFunds`).
- A batch that settles a sale of an order no longer live, or for more than remains of it, out of an
  existing row breaks the exact sell-side locks (`BaseLocks.BatchKeepsExactIff`, `Shortfalls.FillingCancelledUnlocks`).
- An unlock of more than is locked reports a version conflict although nothing else happened
  (`OptimisticRow.LoneUnlockConflictsIff`, `OptimisticRow.UnlockOfNothingConflicts`).
- A Cancel-Replace with invalid new terms has already released the old lock when it raises
  (`AllOrNothing.ModifyFailureRestoresIff`, `Shortfalls.InvalidTermsReleaseLock`).
- A Cancel-Replace checks neither the largest lot nor the tick of the pair
  (`RoundTrips.ModifyAnswers`, `Shortfalls.ReplacementExceedsLot`); every order that did not replace
  another keeps both (`Admission.RunKeepsRules`).
- Requests in the same microsecond share one entry of the rate limiter, so bursts are not limited
  (`RateLimiter.DecisionIsPromisedIff`, `RateLimiter.BurstIsUnlimited`). A key whose only entry is the
  last request has no expiry (`RateLimiter.NeverExpiresIff`, `RateLimiter.FirstRequestNeverExpires`).
- The comment at backend/app/redis_client/orderbook.py:97-100 says that a score at price 1,000,000
  is exact; with sequence number 999,999 it is not (`ScoreCodec.RoundTripIff`,
  `ScoreCodec.MillionIsNotExact`).
- Bids of one price are served newest first (`OrderBook.LoadedAreBest`, `OrderBook.NewestBidIsBest`).
- A trailing stop's first move can loosen its trigger (`TrailingStops.FirstMoveLowersIff`,
  `TrailingStops.FirstMoveRaisesIff`, `TrailingStops.FirstMoveLowers`), and a stop registered late can
  miss an extreme (`TrailingStops.SellTracksHighestIff`, `TrailingStops.LateStopMissesHigh`).
- On the print path neither price nor side limits which stops are attempted
  (`TrailingStops.CandidatesAreAll`): a queued stop that no price has crossed fires if and only if its
  requirement is computable, positive and available (`PrintPath.PrintFiresIff`,
  `Shortfalls.PrintFiresUncrossedStop`).
- The chart equals the server's candles only while the client's clock falls into the trade's bucket
  (`Candles.ClientFollowsServerIff`, `Candles.SlowClockMisplacesTrade`).
- Cancelling all orders of a user leaves the indexes inconsistent if an order has lost its hash
  (`OpenOrderIndex.DrainConsistentIff`, `OpenOrderIndex.LostHashLeavesOrder`).

## Model

| member | source | states |
|---|---|---|
| `BaseLocks.RunKeepsExact` | backend/app/services/order_service.py:534-570 | over any run of placements, bulk placements, matches, cancels, Cancel-Replaces, triggers, refunds and adjustments, each user's locked amount of a base asset equals what remains of the user's live sell orders |
| `BaseLocks.BatchKeepsExactIff` | backend/app/services/trade_service.py:132-187 | a committed batch keeps sell locks exact if and only if each sale in it is settled for a live order with that much left or, for a seller without a row, completes an order |
| `Shortfalls.FillingCancelledUnlocks` | backend/app/services/trade_service.py:132-187 | a reachable state in which filling a cancelled ask leaves nothing locked for the seller's other one |
| `BaseLocks.BatchFunded` | backend/app/services/trade_service.py:231-290 | under the matcher's contract a batch never fails for want of locked base funds |
| `BaseLocks.CancelNeverClipsSell` | backend/app/services/order_service.py:548-562 | the cap at the locked balance never bites for a sell: all that remains of it becomes available |
| `QuoteLocks.RunKeepsCovered` | backend/app/services/order_service.py:241-247 | over any run where refunds and market buys meet no other live priced buy of the user, locked quote is at least what the live priced buys may still pay |
| `QuoteLocks.MatchKeepsCovered` | backend/app/matching/worker.py:353-368 | settlement at prices within the limits, followed by the refund, leaves every user's buys covered |
| `QuoteLocks.RefundKeepsCoverIff` | backend/app/matching/worker.py:443-454 | releasing the whole locked quote keeps the user's buys covered if and only if no live priced buy is left |
| `Matches.MatchRefundsExactly` | backend/app/matching/worker.py:353-368 | an accepted match of a market buy, or of a limit or stop-limit buy with nothing remaining, ends with the buyer's locked quote all available; any other ends as settlement left it, and a rejection changes nothing |
| `Shortfalls.RefundUncovers` | backend/app/matching/worker.py:443-454 | a run from the empty exchange in which the refund of a market buy leaves the same user's bid uncovered |
| `QuoteLocks.RunOfSingleBuysKeepsCovered` | backend/app/matching/worker.py:353-368 | over any run in which no user ever has two active buys in the asset and takers are live, locked quote covers what live priced buys may still pay |
| `QuoteLocks.OneActiveBuyIsEnough` | backend/app/matching/worker.py:353-368 | at most one active buy per user meets the conditions of refund, market buy and cancel |
| `Settlement.RunConserves` | backend/app/services/balance_service.py:371-391 | over any run the sum of all totals of an asset changes by what administrators grant or withdraw and by what batches lose to missing rows, and by nothing else |
| `PayerRows.RunConservesIff` | backend/app/services/trade_service.py:231-290 | from a state whose payers have rows, as the empty exchange, no run creates funds, and it conserves an asset if and only if every committed batch pays it only into existing rows |
| `PayerRows.RunKeepsPayers` | backend/app/services/order_service.py:301-361 | over any run the owner of every live order has a row of the asset it pays with |
| `Settlement.BatchConservesIff` | backend/app/services/trade_service.py:231-290 | a committed batch conserves an asset if and only if as much is due to parties without a row as from parties without one; when all payers have rows it creates nothing, and conserves if and only if all payees have rows, too |
| `Shortfalls.BatchLosesFunds` | backend/app/services/trade_service.py:231-290 | a reachable match that loses what the buyer pays, because the seller has no quote row |
| `Settlement.BatchFlowIsZero` | backend/app/services/trade_service.py:88-187 | for any executions, repeated makers and self-trades included, what the makers give equals what the taker gets, in both assets |
| `Settlement.BatchCommits` | backend/app/services/trade_service.py:132-187 | with exact sell locks and covered buys, a batch within the contract always settles unless its taker is a market buy |
| `Settlement.BatchFailsFor` | backend/app/services/trade_service.py:231-290 | a batch fails only for an unknown order or for a party with less locked than it must pay, and then the error names that party's row |
| `Settlement.RunMatchesCommit` | backend/app/services/trade_service.py:132-187 | after any run of single buys no match of a priced or selling taker within the contract fails, in settlement or refund |
| `MarketBuys.MarketBuyCommits` | backend/app/services/order_service.py:275-297 | a market buy settles if its executions follow the walk that priced it and its account holds the walk's lock |
| `FillBooks.RunKeepsBooks` | backend/app/services/trade_service.py:84-176 | over any run each order's filled quantity and filled quote equal the sums over the trade log where it is maker or taker |
| `FillBooks.AggregateIsGroupBy` | backend/app/services/trade_service.py:88-130 | each maker's delta is the sum of its executions, and all deltas add up to the taker's totals |
| `FillBooks.FillsReplace` | backend/app/services/trade_service.py:138-176 | a batch rewrites exactly the filled orders, each once with its own fill, and no other |
| `OrderTerms.BatchSetsStatus` | backend/app/services/trade_service.py:138-176 | a committed batch leaves each order that took part FILLED if and only if all of it is filled, PARTIALLY_FILLED otherwise, and changes no other order |
| `OrderTerms.RunStatusesTell` | backend/app/services/trade_service.py:138-176 | over any run a live order is NEW exactly when nothing of it is filled and PARTIALLY_FILLED exactly when some but not all is; any other than a stop is FILLED exactly when nothing remains |
| `OrderTerms.RunKeepsTerms` | backend/app/models/order.py:60-155 | no step changes an order's user, pair, side, kind, prices, quantity or origin |
| `Matches.RunNamesParties` | backend/app/services/trade_service.py:92-112 | over any run every trade names its two orders' users and the taker's side, and its orders are of opposite sides of one pair |
| `FillBooks.AvgPriceWithin` | backend/app/models/order.py:160-168 | the average fill price lies between the lowest and the highest execution price of the order |
| `Soundness.RunKeepsSound` | backend/app/models/balance.py:65-76 | over any run total == locked + available with both non-negative, live orders have something left, and each triggered stop has exactly one child |
| `StopLifecycle.TriggerExactly` | backend/app/services/stop_monitor_service.py:199-334 | a pending stop fires if and only if its requirement is computable, positive and available; it then locks exactly that, completes, and adds a new order of its user, pair, side and quantity, limit at its price for a stop-limit and market otherwise; else nothing moves |
| `StopLifecycle.RunChildrenInherit` | backend/app/services/stop_monitor_service.py:223-299 | over any run every child has its stop's user, pair, side and quantity, and is a limit order at the stop's price if that is a stop-limit, a market order without a price otherwise |
| `StopLifecycle.ChildLocksLikeTicket` | backend/app/services/stop_monitor_service.py:238-285 | a trigger requires exactly what placing its child by hand would |
| `StopLifecycle.StopSpawnsAtMostOnce` | backend/app/services/stop_monitor_service.py:208-216 | over any run a stop has at most one child, has one exactly when it is filled, and never leaves a final status |
| `StopLifecycle.AttemptsExactly` | backend/app/services/stop_monitor_service.py:344-379 | a rescan attempts exactly the pending stops of the pair with a stop price that the last price has fallen to, for a sell, or risen to, for a buy, each once |
| `StopLifecycle.RescanTouchesOnlyCrossed` | backend/app/services/stop_monitor_service.py:356-379 | every other order is left as it was, and an attempted one is at most completed |
| `AllOrNothing.LockAllIff` | backend/app/services/order_service.py:847-867 | the asset-by-asset locks succeed if and only if every summed need is available, lock exactly the sums, and otherwise compensate to where they started |
| `AllOrNothing.BulkIsAllOrNothing` | backend/app/services/order_service.py:818-892 | bulk placement locks all sums and appends a fresh order for each request in turn, or leaves every amount and order as it was |
| `Admission.BulkExactly` | backend/app/services/order_service.py:818-892 | bulk placement succeeds if and only if every ticket is admitted and, per asset, the sum of what the tickets must lock is available; it then locks those sums, and the error tells which condition failed |
| `Admission.AdmitsIff` | backend/app/services/order_service.py:156-215 | a ticket is admitted if and only if its pair trades, it has the fields of its kind, its quantity is within the lots and its price on the tick, and asks cover a market buy |
| `Admission.LocksExactly` | backend/app/services/order_service.py:219-247 | a stop locks nothing, a sell its quantity of the base, a priced buy price times quantity of the quote, a market buy what the walk computes |
| `Admission.RunKeepsRules` | backend/app/services/order_service.py:171-215 | over any run every order is at least a smallest lot and, unless it replaced another, within the largest lot and on the tick |
| `AllOrNothing.ModifyRefusedIff` | backend/app/services/order_service.py:650-712 | Cancel-Replace is refused for funds if and only if the new lock exceeds available plus the old lock |
| `AllOrNothing.ModifyFailureRestoresIff` | backend/app/services/order_service.py:674-712 | a failed Cancel-Replace has restored every amount itself, unless a replaceable order with its lock behind it was given invalid terms; the rollback restores the rest |
| `Shortfalls.InvalidTermsReleaseLock` | backend/app/services/order_service.py:674-691 | a reachable bid whose replacement at price zero fails with the old lock released |
| `RoundTrips.PlaceExactly` | backend/app/services/order_service.py:301-361 | a ticket is taken if and only if admissible and affordable; exactly its lock moves in the account its order pays from, and its order joins last with the ticket's terms, pending if a stop and new otherwise, without history |
| `RoundTrips.CancelExactly` | backend/app/services/order_service.py:504-573 | an owner's active order can always be cancelled; only what it computes, capped at the locked amount, moves back |
| `RoundTrips.CancelAnswers` | backend/app/services/order_service.py:523-530 | a cancel succeeds if and only if the order is the user's own and NEW, PARTIALLY_FILLED or PENDING; the error tells which of the two failed |
| `RoundTrips.CancelTakesChildren` | backend/app/repositories/order_repo.py:136-145 | whatever the state, exactly the order and its active children become CANCELED |
| `RoundTrips.PlaceThenCancelRestoresIff` | backend/app/services/order_service.py:534-562 | placing and then cancelling restores every amount, for a market buy if and only if its own price or stop price computes the lock, or more with nothing else locked |
| `Shortfalls.CancelKeepsMarketLock` | backend/app/services/order_service.py:541-546 | a reachable market buy without a price whose cancel leaves its funds locked |
| `RoundTrips.ModifyExactly` | backend/app/services/order_service.py:655-712 | a successful Cancel-Replace moves exactly new lock minus old lock in one account, cancels the old order with a link forward and adds the new terms under the same user, pair, side and kind with a link back and the count raised |
| `RoundTrips.ModifyAnswers` | backend/app/services/order_service.py:640-712 | the answer of a Cancel-Replace in every case: not the user's, not active, not a resting kind, lock missing, terms invalid, funds short, or done |
| `Shortfalls.ReplacementExceedsLot` | backend/app/services/order_service.py:679-688 | a reachable bid that is replaced by one of twice the largest lot |
| `RoundTrips.ModifyBackRestores` | backend/app/services/order_service.py:714-737 | replacing the replacement by what remained of the original succeeds, restores every amount and extends the chain |
| `Claims.CancelGap` | backend/app/services/order_service.py:534-570 | a cancel changes locked funds and the order's claim by the same amount |
| `Claims.ModifyGap` | backend/app/services/order_service.py:665-736 | a Cancel-Replace changes locked funds and claims by the same amount |
| `Claims.TriggerGap` | backend/app/services/stop_monitor_service.py:238-299 | a trigger locks at least its child's claim, for a sell exactly |
| `Claims.BulkGap` | backend/app/services/order_service.py:818-892 | bulk placement locks at least the claims of all its orders, for base assets exactly |
| `Rows.Lock` | backend/app/repositories/balance_repo.py:210-227 | succeeds on a sound row exactly when the amount is available; total kept, row stays sound |
| `Rows.Unlock` | backend/app/repositories/balance_repo.py:229-242 | succeeds on a sound row exactly when the amount is locked; total kept, row stays sound |
| `Rows.Settle` | backend/app/repositories/balance_repo.py:244-257 | succeeds on a sound row exactly when the amount is locked; available kept, row stays sound |
| `Rows.Credit` | backend/app/repositories/balance_repo.py:259-267 | succeeds on a sound row for any non-negative amount; locked kept, row stays sound |
| `Rows.Adjust` | backend/app/services/balance_service.py:371-391 | succeeds on a sound row exactly when available stays non-negative; locked kept, row stays sound |
| `Rows.AmountsMoved` | backend/app/repositories/balance_repo.py:210-267 | which amounts each operation moves and that it raises the version by one; on a row out of balance every operation raises |
| `Rows.BalanceRow.LockPessimistic` | backend/app/repositories/balance_repo.py:210-227 | the in-place lock does what the row function says and changes nothing when it raises |
| `Rows.BalanceRow.UnlockPessimistic` | backend/app/repositories/balance_repo.py:229-242 | the in-place unlock does what the row function says and changes nothing when it raises |
| `Rows.BalanceRow.SettlePessimistic` | backend/app/repositories/balance_repo.py:244-257 | the in-place settle does what the row function says and changes nothing when it raises |
| `Rows.BalanceRow.CreditPessimistic` | backend/app/repositories/balance_repo.py:259-267 | the in-place credit does what the row function says and changes nothing when it raises |
| `Rows.BalanceRow.AdminAdjust` | backend/app/services/balance_service.py:371-391 | the signed in-place adjustment, refused when the debit exceeds what is available |
| `Rows.SettleTradePessimistic` | backend/app/services/balance_service.py:319-340 | moves the amount from locked of one row to available of the other, conserving their sum even when both are one object; a failure changes nothing |
| `Exchange.Services.PlaceOrder` | backend/app/services/order_service.py:301-361 | validates, locks and inserts as the placement step prescribes, or leaves the tables alone |
| `Exchange.Services.CancelOrder` | backend/app/services/order_service.py:504-573 | unlocks, cancels the order and its active children as the cancel step prescribes |
| `Exchange.Services.ModifyOrder` | backend/app/services/order_service.py:626-737 | leaves exactly the session state and error of the Cancel-Replace step, compensation included |
| `Exchange.Services.PlaceBulkOrders` | backend/app/services/order_service.py:792-892 | sums, locks, compensates and inserts with loops, ending in the bulk step's session state |
| `Exchange.Services.SettleTradeBalances` | backend/app/services/trade_service.py:231-290 | settles the paid asset and credits the received one on the party's rows, skipping missing rows |
| `Exchange.Services.PersistTradeBatch` | backend/app/services/trade_service.py:44-193 | logs, aggregates per maker, fills and settles everyone, or restores all three tables |
| `Exchange.Services.HandlePlace` | backend/app/matching/worker.py:257-373 | the worker's place step: batch, then the refund under its branch conditions; a rejection changes nothing |
| `Exchange.Services.RefundLeftover` | backend/app/matching/worker.py:405-459 | unlocks all locked quote of the account |
| `Exchange.Services.TriggerStopOrder` | backend/app/services/stop_monitor_service.py:199-334 | recheck of the status, requirement, lock, completion and child as the trigger step prescribes |
| `Exchange.Services.RescanPendingStops` | backend/app/services/stop_monitor_service.py:344-379 | attempts the crossed pending stops in order of their ids, each with the asks loaded for it |
| `Exchange.Services.AdminAdjust` | backend/app/services/balance_service.py:354-391 | creates the row if needed and adjusts it, or leaves the tables alone |
| `AskWalk.ComputeMarketBuyLock` | backend/app/services/order_service.py:249-297 | the loop computes the walk's cost with the 0.1% buffer, or refuses an empty or short book |
| `AskWalk.LockSucceedsIffCovered` | backend/app/services/order_service.py:275-297 | the walk succeeds if and only if the quantity is at most what the iceberg asks show plus what the other asks hold |
| `AskWalk.LockIsLeastCost` | backend/app/services/order_service.py:275-297 | the lock is 1.001 times the least cost of taking the quantity, from an iceberg no more than its visible part |
| `Shortfalls.IcebergLocksShownPart` | backend/app/services/order_service.py:281-288 | a reachable market buy of three that takes one from an iceberg showing one locks 50.05 |
| `AskWalk.WalkIsCheapest` | backend/app/services/order_service.py:275-297 | no way of taking the quantity from the loaded price-sorted asks, of an iceberg at most its visible part, costs less |
| `AskWalk.GreedyIsAWay` | backend/app/services/stop_monitor_service.py:256-271 | the walk's cost is what an actual way of taking the quantity costs, so the minimum is attained |
| `AskWalk.LockCoversFill` | backend/app/services/order_service.py:292-297 | the lock covers any part of the walked fill, even at prices up to 0.1% worse |
| `OptimisticRow.NoLostUpdate` | backend/app/repositories/balance_repo.py:96-204 | for any interleaving of the four conditional operations with row-lock writers, administrators included, the row stays sound, the version counts the committed updates, the final amounts are the initial ones plus exactly those updates, every call that reports success has committed its own operation and amount exactly once, and every other call has committed nothing |
| `OptimisticRow.LockConflictNeedsThreeOthers` | backend/app/services/balance_service.py:123-166 | a lock ends in a version conflict only if at least three updates, all by others, committed since it began |
| `OptimisticRow.LockGuardIsImplied` | backend/app/repositories/balance_repo.py:111-126 | for a lock an unchanged version implies the overdraft condition |
| `OptimisticRow.LoneUnlockConflictsIff` | backend/app/services/balance_service.py:168-201 | undisturbed, an unlock ends in a version conflict if and only if it asks for more than is locked |
| `OptimisticRow.LoneCallEnds` | backend/app/services/balance_service.py:123-262 | undisturbed, each of the four operations succeeds exactly when its amount fits, all that is locked included, moves exactly that, and otherwise is refused or reports a conflict |
| `OptimisticRow.LockedEndsAt` | backend/app/repositories/balance_repo.py:210-267 | a writer holding the row lock takes effect exactly when its amount fits, and moves exactly that |
| `Uncontended.LockIsUncontended` | backend/app/services/balance_service.py:123-166 | the ledger's lock is what a client alone on the row gets from the retry loop |
| `Uncontended.UnlockIsUncontended` | backend/app/services/balance_service.py:168-201 | the ledger's unlock is what a client alone on the row gets from the retry loop |
| `OptimisticRow.UnlockOfNothingConflicts` | backend/app/services/balance_service.py:168-201 | an undisturbed unlock on a row with nothing locked ends in a version conflict with no update ever committed |
| `OptimisticRow.SharedRow.LockOptimistic` | backend/app/services/balance_service.py:123-166 | the retry loop applies its lock once on top of whatever others did before and after each read, is overtaken in every attempt it loses, and gives up after three |
| `OptimisticRow.SharedRow.OptimisticLock` | backend/app/repositories/balance_repo.py:96-126 | the guarded update takes effect exactly when version and available amount match |
| `RateLimiter.Limiter.CheckAndConsume` | backend/app/redis_client/rate_limit.py:47-92 | evicts, counts, sets the expiry and adds the stamp in the code's order, as the bucket function says |
| `RateLimiter.Limiter.GetCurrentCount` | backend/app/redis_client/rate_limit.py:95-112 | evicts and counts without consuming |
| `RateLimiter.BucketRefinesHistory` | backend/app/redis_client/rate_limit.py:64-83 | the key holds exactly the distinct microseconds of the last window with an allowed request |
| `RateLimiter.DecisionCountsHistory` | backend/app/redis_client/rate_limit.py:64-83 | with strictly increasing times a request is allowed if and only if fewer than the limit were allowed in the last window of the whole history |
| `RateLimiter.NoWindowOverLimit` | backend/app/redis_client/rate_limit.py:64-83 | no window of that length ever holds more allowed requests than the limit |
| `RateLimiter.DecisionIsPromisedIff` | backend/app/redis_client/rate_limit.py:78-83 | with shared microseconds the decision is the promised one if and only if the shared requests do not make up the difference to the limit |
| `RateLimiter.BurstIsUnlimited` | backend/app/redis_client/rate_limit.py:80-82 | from a limit of two, any number of requests in one microsecond is allowed |
| `RateLimiter.RetryAfterSuffices` | backend/app/redis_client/rate_limit.py:85-92 | after a rejection 1 <= retry_after <= window, and a request made after that wait is allowed, whatever was rejected or only counted in between |
| `RateLimiter.RetryAfterIsLeastIff` | backend/app/redis_client/rate_limit.py:85-92 | with one second less the next request is still rejected if and only if the oldest entry does not leave the window after whole seconds |
| `RateLimiter.CountIsReported` | backend/app/redis_client/rate_limit.py:76-83 | the count in the answer is the number of requests allowed in the window, this one included |
| `RateLimiter.ExpiryIsHarmless` | backend/app/redis_client/rate_limit.py:73-74 | when the key expires, every entry it still holds has left the window |
| `RateLimiter.FirstRequestNeverExpires` | backend/app/redis_client/rate_limit.py:68-82 | the first request of all leaves its stamp in a key without an expiry |
| `RateLimiter.NeverExpiresIff` | backend/app/redis_client/rate_limit.py:64-82 | after any calls a key exists without an expiry if and only if its only entry is the last request so far, which found an empty window |
| `ScoreCodec.RoundTripIff` | backend/app/redis_client/orderbook.py:111-149 | decoding returns price and sequence number if and only if the packed integer is a double |
| `ScoreCodec.ExactRange` | backend/app/redis_client/orderbook.py:107-149 | up to 2^53 scores round-trip and are ordered as (price, sequence) pairs |
| `ScoreCodec.EncodeAcceptsIff` | backend/app/redis_client/orderbook.py:121-133 | prices up to 9.2e9 and sequence numbers below a million are accepted, and the score is a double |
| `ScoreCodec.FullRange` | backend/app/redis_client/orderbook.py:125-149 | over all accepted prices the order is kept weakly and the decoded price is off by at most one unit |
| `ScoreCodec.ToDoubleIsNearest` | backend/app/redis_client/orderbook.py:133-133 | the modelled conversion yields a double, and no double is nearer, as section 4.3.1 of IEEE 754-2008 asks |
| `ScoreCodec.MillionIsNotExact` | backend/app/redis_client/orderbook.py:95-100 | the score of price 1,000,000 with sequence number 999,999 decodes to another price |
| `OrderBook.AsksByPriceThenTime` | backend/app/redis_client/orderbook.py:217-269 | after any run with exact scores and no wrap the ask view lists exactly the resting sells by price, then arrival |
| `OrderBook.BestAskIsLowest` | backend/app/redis_client/orderbook.py:308-315 | the first ask has the lowest price and is the oldest at it |
| `OrderBook.BestBidIsHighestNewest` | backend/app/redis_client/orderbook.py:297-305 | the last bid has the highest price and is the newest at it |
| `OrderBook.NewestBidIsBest` | backend/app/redis_client/orderbook.py:297-305 | of two bids at one price the second is the best bid |
| `OrderBook.LoadedAreBest` | backend/app/redis_client/orderbook.py:373-421 | the list loaded for the matcher is in service order, asks oldest first and bids newest first within a price, keeps exactly the orders with a hash, and whatever rests beyond the limit is served later |
| `OrderBook.RunHoldsResting` | backend/app/redis_client/orderbook.py:230-292 | over any such run each sorted set is ordered and holds exactly the orders at rest |
| `OrderBook.RunIsInOrder` | backend/app/redis_client/orderbook.py:230-292 | after any run, exact scores or not, each side is ordered by score and then by the string of the id, each id once, with decoded prices in order |
| `OrderBook.TenBeforeNine` | backend/app/redis_client/orderbook.py:257-265 | with equal scores order 10 comes before order 9 |
| `OrderBook.BookStore.AddRestingOrder` | backend/app/redis_client/orderbook.py:230-269 | takes the next sequence number, encodes and adds; a price out of range is refused after the number is spent |
| `OrderBook.BookStore.OppositeOrders` | backend/app/redis_client/orderbook.py:373-421 | up to the limit of the opposite side, asks ascending and bids descending, without those whose hash is gone |
| `Candles.GetCandles` | backend/app/api/v1/trades.py:149-188 | the loop with its candle under construction computes the last candles of the fold |
| `Candles.FoldIsGroupBy` | backend/app/api/v1/trades.py:149-181 | for time-ordered trades the fold is group-by-bucket: increasing times, first and last price, extremes, exact volume, one candle per bucket traded in |
| `Candles.FoldKeepsVolume` | backend/app/api/v1/trades.py:154-181 | no volume is lost before truncation, in any order of trades |
| `Candles.AtMostLimitPlusOne` | backend/app/api/v1/trades.py:131-147 | trades of the queried period make at most limit + 1 candles |
| `Candles.ClientEqualsServer` | frontend/src/store/chartStore.ts:56-118 | the client's two updates per trade lead to the last 500 candles of the server's fold over all trades and to the last trade's price |
| `Candles.ClientFollowsServerIff` | frontend/src/hooks/useOrderbook.ts:31-35 | one trade keeps the chart equal to the server's fold if and only if the clock of the second update falls into the trade's bucket and that of the first does, too, or is behind while the bucket has a candle |
| `Candles.SlowClockMisplacesTrade` | frontend/src/store/chartStore.ts:56-118 | a trade of second 60 seen at second 59 leaves the chart different from the server's fold |
| `TrailingStops.RunRatchets` | backend/app/redis_client/stops.py:299-338 | from its first move on a sell stop's trigger lies delta below its extreme, a buy's above it, in price or in percent of the extreme, and extreme and trigger never loosen |
| `TrailingStops.PrintRatchets` | backend/app/services/stop_monitor_service.py:161-197 | one print moves no extreme the wrong way and puts the trigger of what it moves at delta from its extreme |
| `TrailingStops.RunKeepsMirror` | backend/app/redis_client/stops.py:186-199 | over any run the sorted-set score of every trailing stop mirrors its trigger |
| `TrailingStops.RunHoldsRegistered` | backend/app/redis_client/stops.py:160-208 | over any run exactly the stops registered and not removed since have a state and a score |
| `TrailingStops.ZeroMovesNothing` | backend/app/services/stop_monitor_service.py:173-181 | a print of zero is never passed on as an extreme |
| `TrailingStops.SellTracksHighestIff` | backend/app/services/stop_monitor_service.py:165-181 | a sell stop's extreme is the highest of its initial value and all prints if and only if the monitor had seen nothing higher before; registered first, always |
| `TrailingStops.BuyTracksLowestIff` | backend/app/services/stop_monitor_service.py:165-181 | the same for a buy stop and the lowest print |
| `TrailingStops.LateStopMissesHigh` | backend/app/services/stop_monitor_service.py:165-181 | a stop registered at 100 after a print of 200 ignores a print of 150 |
| `TrailingStops.SellExtreme` | backend/app/services/stop_monitor_service.py:165-181 | the exact extreme of a sell stop and of the monitor after any positive prints |
| `TrailingStops.BuyExtreme` | backend/app/services/stop_monitor_service.py:165-181 | the exact extreme of a buy stop and of the monitor after any positive prints |
| `TrailingStops.FirstMoveLowersIff` | backend/app/redis_client/stops.py:160-199 | a sell's first move by an absolute delta lowers its trigger if and only if the market rose by less than delta |
| `TrailingStops.FirstMoveRaisesIff` | backend/app/redis_client/stops.py:160-199 | a buy's first move by an absolute delta raises its trigger if and only if the market fell by less than delta |
| `TrailingStops.FirstMoveLowers` | backend/app/redis_client/stops.py:299-338 | a sell stop registered at 100 with delta 10 has its trigger lowered to 95 by a print of 105 |
| `TrailingStops.CandidatesAreAll` | backend/app/redis_client/stops.py:126-149 | at any price the two range queries together return every registered stop with a non-negative score |
| `PrintPath.PrintFiresIff` | backend/app/services/stop_monitor_service.py:183-221 | every queued stop is a candidate of a print at any price, and fires if and only if its requirement is computable, positive and available, crossed or not |
| `Shortfalls.PrintFiresUncrossedStop` | backend/app/services/stop_monitor_service.py:218-221 | a reachable sell stop at 90 that a print of 100 turns into its child order |
| `TrailingStops.Deduplicate` | backend/app/redis_client/stops.py:136-149 | the joined query results without repetition, nothing lost and nothing added, in order of first appearance |
| `TrailingStops.MonitorStore.UpdateTrailingExtremes` | backend/app/redis_client/stops.py:266-338 | walking the members in any order rewrites exactly the stops that the new extremes move |
| `TrailingStops.MonitorStore.ProcessPrint` | backend/app/services/stop_monitor_service.py:161-181 | updates the local extremes and passes on the new ones only |
| `OpenOrderIndex.RunKeepsConsistent` | backend/app/redis_client/orders_index.py:50-75 | over any run of adds, removes and cancel-alls the three indexes agree |
| `OpenOrderIndex.ConsistentUnions` | backend/app/redis_client/orders_index.py:80-93 | then a user's set is the union of the per-symbol sets and a symbol's set the union over users |
| `OpenOrderIndex.StepKeepsConsistent` | backend/app/redis_client/orders_index.py:123-175 | each operation opens or closes exactly the orders it names; a cancel-all exactly the selected slice |
| `OpenOrderIndex.DrainConsistentIff` | backend/app/redis_client/orders_index.py:150-175 | draining a user keeps the indexes consistent if and only if every drained order has its hash |
| `OpenOrderIndex.LostHashLeavesOrder` | backend/app/redis_client/orders_index.py:150-175 | an order without a hash stays in two of the three indexes when its user is drained |
| `OpenOrderIndex.IndexStore.CancelAllOfSymbol` | backend/app/redis_client/orders_index.py:123-175 | empties exactly one symbol's slice of a user and returns it sorted |
| `OpenOrderIndex.IndexStore.CancelAll` | backend/app/redis_client/orders_index.py:123-175 | drains a user by way of the order hashes and returns the user's orders sorted |

## Left out

- Matching engine: its source (`engine.pyx`) is not part of this model; a batch is any one that its
  contract admits. The contract excludes fills of an order cancelled meanwhile and fills beyond what
  remains of a maker, which the full quantity stored with a resting taker would allow;
  `BaseLocks.BatchKeepsExactIff` says what such a batch does.
- Stop-loss and take-profit children, whose activation takes no lock.
- Iceberg refills and the visible and hidden parts of an order after placement; fees, which are zero.
- Conversion between float and Decimal and rounding to 18 digits: amounts are exact reals.
- `Exchange.Services.HandlePlace`: settlement and refund run in two transactions and are taken as one.
- The user ids in the trade log come from order hashes in the source, and from the orders here; a
  missing hash, which the log's foreign key rejects, is not modelled.
- Redis pipelines are taken as atomic, sessions as serializable: stale reads through the ORM's
  identity map, queues, reconnects and published events are left out.
- Optimistic calls start on an existing row; `Ledger` models creation of a missing row only where it
  survives the transaction (stop triggers, adjustments).
- `Exchange.Services.PlaceBulkOrders`: locks in any given enumeration of the assets, not only in the
  order of their names.
- `BaseLocks.RunKeepsExact`: for an asset that is nobody's quote asset, as on a single pair with base and
  quote distinct; `QuoteLocks.RunKeepsCovered` likewise for an asset that is nobody's base asset.
- `PayerRows.RunConservesIff`: asks have positive prices and assets have names, as validation ensures.
- `FillBooks.RunKeepsBooks`: starts from a state whose books agree, as the empty exchange does.
- `RateLimiter.RetryAfterSuffices`: strictly increasing times and a constant limit up to the rejection,
  as the promise of the header assumes; a window of zero seconds is left out.
- `OrderBook.AsksByPriceThenTime`: scores up to 2^53 and fewer than a million arrivals, where the packed
  order is the promised one; prices are whole units of 10^-4.
- Bulk cancel (a sequence of cancels), book snapshots, deltas sent to clients, match results written back
  to hashes, authentication, permissions, routers and pages.
