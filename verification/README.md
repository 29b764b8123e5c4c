# Proofs about the paper-trading engine

A Dafny 4.11 model of the parts of the trading engine that carry money and risk, and proofs about
it. `dafny verify dfyconfig.toml` checks everything.

A strategy asks an executor for a trade. The executor lets every circuit breaker look at the account
first; if none trips, the order manager submits the order to the paper venue, which keeps orders,
positions and the latest books in dictionaries and fires callbacks; from those callbacks the order
manager rebuilds the same orders and appends every version to a journal. A supervisor moves the whole
system between BOOTING, RECONCILING, RUNNING, QUARANTINE, DRAINING and STOPPED, and reacts to breakers
that trip on its periodic tick.

## Parts

| file | part |
|---|---|
| `Domain.dfy`, `Sorting.dfy` | values (orders, fills, books), real arithmetic, `sorted` |
| `Positions.dfy` | `_apply_fill`: mark-to-market identity, rounding drift, which of two positions is worse |
| `FillEngines.dfy` | `_walk` and the two fill engines |
| `MarketData.dfy` | the live order book from snapshots and deltas |
| `Venue.dfy` | the venue's dictionaries under arbitrary interleaving of suspended calls |
| `VenueEffects.dfy` | what each of its segments does, in levels, prices and quantities; no listed order is forgotten |
| `Account.dfy` | the account balance over those runs, and the dominance of the optimistic engine |
| `Journal.dfy` | the append-only order journal and its two readers |
| `Desk.dfy`, `OrderTracking.dfy` | venue, order manager and journal with callbacks run to completion |
| `DeskEffects.dfy` | what a submit, a book, a cancel and a fill leave there, from the state before to the state after |
| `PaperTrading.dfy` | the classes: clock, venue, order manager, proved against `Desk` |
| `Breakers.dfy` | windows, latches and cooldowns of the three stateful breakers |
| `RiskLoop.dfy`, `RiskSafety.dfy` | breakers, bus, risk manager, supervisor and executor as one state machine; its log and wiring |
| `RiskDesk.dfy` | that machine drives the order manager only through its inputs; its reachable states |
| `RiskReactions.dfy` | ticks, the gate in front of the order manager, the drawdown latch |
| `SupervisorEffects.dfy` | what starting, stopping, quarantining and acknowledging achieve; ticks outside RUNNING |
| `BreakerRuns.dfy`, `BreakersAtWork.dfy` | when the stateful breakers trip, counted over all they ever heard and were asked, and over every run of the system |
| `RiskObjects.dfy` | the classes: breakers, event bus and the system around an order manager, proved against `RiskLoop` |
| `Serde.dfy` | the typed JSON encoding |

Two semantics are used for the venue. `Venue.Exec` runs uninterrupted segments: every call may be
suspended at every callback, and any other segment may run in between. `Desk.Run` runs callbacks to
completion. What only the first can break (safety of the dictionaries, conservation of the balance,
dominance) is proved for the first; agreement of the order manager and recovery from the journal are
proved for the second.

Functions are the specification: `Desk.Submit`, `RiskLoop.Tick` and the like follow the code branch by
branch, the methods of the classes are proved to compute them, and the lemmas prove what they mean.
Where a specification is itself a choice (which requests are rejected, what a book does to resting orders,
what a fee, a mark or a trigger is), `VenueEffects`, `DeskEffects`, `SupervisorEffects`, `BreakerRuns` and lemmas
beside the functions say it again without them, in the raw levels, prices, quantities and stamps.
The table under "Model" lists the results and the methods with loops or several effects. Every other
method of a class (`OnOrderUpdate`, `OnStateChange`, `MoveTo`, `Acknowledge`, the lifecycle of the bus
and so on) has the same kind of contract: its whole new state is the specified function of the old one.

| definition | follows |
|---|---|
| `Positions.ApplyFill`, `Positions.ApplyRounded` | `src/trading/venues/paper.py`, lines 62-107 |
| `FillEngines.Walk`, `FillEngines.FillEngine.TryFill` | `src/trading/fill/orderbook.py`, lines 57-131; `src/trading/fill/immediate.py`, lines 34-83 |
| `MarketData.ApplyMessage`, `MarketData.Merge`, `MarketData.Emit` | `src/trading/market_data/live.py`, lines 52-95 |
| `Venue.Accept`, `Venue.CancelOrder`, `Venue.ApplyToOrder`, `Venue.Step` | `src/trading/venues/paper.py`, lines 146-213 and 260-307 |
| `Account.Balance`, `Account.Mark` | `src/trading/venues/paper.py`, lines 232-245 and 341-359 |
| `Journal.ReadLatest`, `Journal.ReadLast` | `src/trading/persistence/order_journal/sqlite.py`, lines 155-179; `src/trading/persistence/order_journal/in_memory.py`, lines 40-47 |
| `Desk.Submit`, `Desk.OnFill`, `Desk.CancelAll`, `Desk.Restart` | `src/trading/oms/default.py`, lines 71-194 |
| `Breakers.EvaluateDrawdown`, `Breakers.EvaluateRate`, `Breakers.PruneErrors` | `src/trading/risk/breakers/`: `drawdown.py`, `rate_limit.py`, `consecutive_error.py` |
| `RiskLoop.Tick`, `RiskLoop.CheckUpTo`, `RiskLoop.SubmitIntent` | `src/trading/risk/default.py`, lines 58-94; `src/trading/executor/default.py`, lines 42-49 |
| `RiskLoop.StartUp`, `RiskLoop.ShutDown`, `RiskLoop.EnterQuarantine`, `RiskLoop.Acknowledge`, `RiskLoop.OnTrip` | `src/trading/runtime/supervisor/default.py`, lines 82-294 |
| `Serde.Encode`, `Serde.Decode` | `src/trading/persistence/_serde.py`, lines 53-98 |

## Assumptions

`Decimal` is `real`, except in the drift bound, where every average-price division has a relative error
of at most `u`. Timestamps are integers. Order quantities and the prices of orders and book levels are
positive, level sizes are positive in the books the engines see (`MarketData.EmittedForEngines` shows that a sensible
feed emits only such books, sorted), fee rates are not negative, windows are not negative, and a
breaker's evaluation times do not decrease. A clock is an arbitrary function from the number of
readings taken to a time. The venue, the order manager's cache, the fills and the whole risk loop are proved
on every such clock, one that goes backwards included; only what is read back from the journal by
time depends on it, and those theorems say on which readings.

## Where the code and its documentation disagree

The model follows the code.

- `src/trading/venues/paper.py`, lines 14-21, says the paper venue has no fees and realizes PnL only when the
  direction changes or the position is closed. The code takes the fill's fee out of realized PnL and
  realizes on every partial reduction; `Positions.MarkToMarket` is about that.
- POST_ONLY is meant to reject what would take liquidity (lines 151-154 there). The test looks at the
  request's price only, so a market request without a price, or priced away from the book, is
  accepted and trades at once as taker: `Venue.PostOnlyTakesIff`, and `Venue.PostOnlyMarketTrades` for a run.
- `src/trading/oms/default.py`, lines 98-101, takes the submission time first so that the SUBMITTED row is the earliest.
  It is earlier only if the clock advances between the readings, which `RealClock` (wall time) does not
  promise. On a tie the journal recovers the SUBMITTED row instead of the venue's: `OrderTracking.EveryPrefixRecoversIff`,
  `OrderTracking.RestartRecoversIff`, `OrderTracking.SubmitRecoversIff`, and `OrderTracking.StoppedClockRevivesOrder` for an order that comes back although it was filled.
- The in-memory journal keeps the row written last and so never recovers a fresh submit over this
  venue, whatever the clock: `OrderTracking.LastWrittenMisses`. `scripts/paper_demo.py`, line 137, wires this journal; what a
  restart of the order manager finds in it: `OrderTracking.InMemoryRestartIff`.
- `src/trading/runtime/system_state.py`, lines 6-15, lists RECONCILING to QUARANTINE and RUNNING to STOPPED. The
  code takes neither, and takes BOOTING and RECONCILING to DRAINING, which are not listed: `RiskSafety.LogAgainstTable`,
  `RiskSafety.DrainsOutsideTable`.
- `src/trading/runtime/supervisor/base.py`, lines 64-69, says that a failed acknowledgement stays in QUARANTINE. The
  code is then in RECONCILING, and nothing but stopping leaves that state: `RiskSafety.FailureIsFinal`.
- The same file, lines 53-54, says that a quarantine stops new submissions. The executor asks the breakers, not
  the supervisor: `RiskReactions.GateIsTheBreakers`, `RiskReactions.QuarantineTakesOrders`.
- `src/trading/persistence/_serde.py`, lines 4-10, promises optional values. For enums and nested
  dataclasses that holds for `Optional[T]` but not for `T | None`, which has another origin before
  Python 3.14: `Serde.LosslessIff`. To come back means with its type: for a str-enum under `T | None` the decoder
  returns the plain string, which Python's `==` still calls equal to the member.

## Limits the theorems make precise

- The drawdown breaker compares with the peak only, as documented. For thresholds above 1 and negative
  equity a drop from an earlier, smaller equity goes unnoticed: `Breakers.PeakIsEnoughIff`.
- The two fill engines trade the same quantities exactly while every market order finds depth: `Account.RealismDominance`.
- After a process restart the venue is empty and numbers its orders from 1 again, over a journal that still
  has the old ones: `OrderTracking.NewProcessMirrorsIff`, `OrderTracking.NewProcessCancelsNothing`,
  `OrderTracking.NewProcessReusesIds`.

## Model

| member | source | states |
|---|---|---|
| `Positions.FillMovesEquity` | `src/trading/venues/paper.py:69-107` | Opening, adding, reducing, closing and flipping all move equity at any mark by the fill's cash plus its marked quantity, less the rounding defect of that fill |
| `Positions.EntryAndRealized` | `src/trading/venues/paper.py:69-107` | What one fill does to net quantity, entry price and realized PnL, case by case: opening, averaging in, reducing, closing, flipping |
| `Positions.MarkToMarket` | `src/trading/venues/paper.py:62-107` | For every fill sequence and every mark, realized plus marked-to-market PnL is cash flow plus marked inventory, and net quantity is the signed sum |
| `Positions.FlatRealizesCash` | `src/trading/venues/paper.py:92-107` | A position that ends flat has realized exactly its cash flow, whatever path it took |
| `Positions.DefectBound` | `src/trading/venues/paper.py:82-90` | Rounding of one fill changes the identity by at most `u` times the notional averaged, and not at all unless it adds in the same direction |
| `Positions.DriftBound` | `src/trading/venues/paper.py:82-107` | After any run with relative division error at most `u`, the identity is off by at most `u` times the sum of the post-add entry notionals |
| `Positions.WorseStays` | `src/trading/venues/paper.py:62-107` | Of two positions, the one that is worse stays worse after fills of the same side and quantity of which its own is the worse, through adds, reductions, closes and flips |
| `Positions.WorseIsPoorer` | `src/trading/venues/paper.py:92-107` | A worse position has no more equity at any mark |
| `FillEngines.WalkLevels` | `src/trading/fill/orderbook.py:119-131` | The loop with its early exit computes the recursive walk and fills the smaller of the order and the depth |
| `FillEngines.WalkFills` | `src/trading/fill/orderbook.py:119-131` | The walk fills exactly the smaller of what the order wants and what the book has |
| `FillEngines.WalkIsFeasible` | `src/trading/fill/orderbook.py:119-131` | What the walk fills and pays is one of the allocations over the levels that the next two results compare it with |
| `FillEngines.GreedyIsCheapest` | `src/trading/fill/orderbook.py:72-76` | On ascending asks no allocation of the same total over the levels costs less than the walk |
| `FillEngines.GreedyIsDearest` | `src/trading/fill/orderbook.py:72-76` | On descending bids no allocation of the same total earns more than the walk |
| `FillEngines.AverageBetween` | `src/trading/fill/orderbook.py:73-77` | The average price lies between the best level and the last level touched |
| `FillEngines.MarginalFromLast` | `src/trading/fill/orderbook.py:125-130` | Beyond a given size, every further unit costs at least the last price touched for that size |
| `FillEngines.AverageWorsens` | `src/trading/fill/orderbook.py:73-77` | A larger purchase never has a better average price |
| `FillEngines.SaleAverageWorsens` | `src/trading/fill/orderbook.py:73-77` | A larger sale never has a better average price, nor one above the best bid |
| `FillEngines.FillIsSane` | `src/trading/fill/orderbook.py:57-116` | Whatever the engine, a fill names its order, trades a positive amount within what remains, at a positive price, and its fee is not negative |
| `FillEngines.FillsIffMarketable` | `src/trading/fill/immediate.py:34-83` | Both engines trade exactly the marketable orders, never break a limit, and trade at the price and quantity that each promises |
| `FillEngines.TradesIff` | `src/trading/fill/immediate.py:34-83` | An engine trades exactly if the order is on the book's symbol and not yet filled, the other side is not empty, and it is a market order or a priced limit order whose price reaches the first level |
| `FillEngines.FillTerms` | `src/trading/fill/orderbook.py:69-116` | A market fill pays the taker rate times the notional of the walk, a limit fill the maker rate times limit price times what was left, an immediate fill nothing; and each carries its order's id, symbol and side, the time and the currency |
| `FillEngines.BookAwareIsWorse` | `src/trading/fill/orderbook.py:57-116` | Both engines fill the same orders; the quantities agree exactly if the order is not a market order or the book is deep enough, and then the book-aware fill is never better |
| `MarketData.MergeLookup` | `src/trading/market_data/live.py:76-83` | After merging a list of levels a price has the size its last entry gave it, is gone if that is zero, and is as before without an entry |
| `MarketData.LastWriterWins` | `src/trading/market_data/live.py:52-95` | For every feed, a level is in the emitted book exactly if the last entry for its price since the latest snapshot has that size and the size is not zero |
| `MarketData.EmittedSorted` | `src/trading/market_data/live.py:85-95` | Emitted bids are strictly descending and asks strictly ascending |
| `MarketData.EmittedForEngines` | `src/trading/market_data/live.py:52-95` | A feed of positive prices and sizes that are not negative emits only the sorted, positive books the engines assume |
| `MarketData.OrderInMessageIsIrrelevant` | `src/trading/market_data/live.py:76-83` | Permuting distinct-price levels within a message changes nothing |
| `MarketData.EmittedStamp` | `src/trading/market_data/live.py:52-95` | The emitted book has the symbol, the time, and the last update id any message brought, or 0 |
| `MarketData.DeltasEqualSnapshots` | `src/trading/market_data/live.py:52-73` | Deltas on top of a snapshot rebuild what pre-merged full snapshots rebuild, message by message |
| `MarketData.OrderbookState.Apply` | `src/trading/market_data/live.py:52-83` | The loops over the two dictionaries compute the merge of the message, and the update id with it |
| `MarketData.OrderbookState.ToSnapshot` | `src/trading/market_data/live.py:85-95` | The snapshot is sorted and holds exactly the levels of the two dictionaries |
| `Venue.AcceptKeeps` | `src/trading/venues/paper.py:146-179` | Accepting or rejecting an order keeps the dictionaries consistent and explained by the fills |
| `Venue.PostOnlyTakesIff` | `src/trading/venues/paper.py:151-203` | On a known book a POST_ONLY request trades on submission exactly if it is a market request not priced to cross and the other side is not empty |
| `Venue.PostOnlyMarketTrades` | `src/trading/venues/paper.py:146-191` | A run, book first, in which a POST_ONLY market order is filled on submission as taker |
| `Venue.CancelKeeps` | `src/trading/venues/paper.py:205-213` | Cancelling keeps the dictionaries consistent and explained by the fills |
| `Venue.FillKeeps` | `src/trading/venues/paper.py:278-307` | A fill keeps them too, average price, status and position included |
| `Venue.AverageOfFills` | `src/trading/venues/paper.py:280-285` | The new average price times the filled quantity grows by exactly the fill's notional |
| `Venue.VenueSafety` | `src/trading/venues/paper.py:146-307` | Under every interleaving: open orders are exactly the orders not terminal, filled quantities fit their status and are the sums of the fills, net positions are the signed sums of filled quantities, and every position is the fold of its fills |
| `Venue.RunsExtend` | `src/trading/venues/paper.py:205-307` | Under every interleaving: terminal orders never change again, fills of an order come only while it is not terminal, and filled quantities only grow |
| `VenueEffects.Placed` | `src/trading/venues/paper.py:146-203` | A new order carries the request's fields; it is rejected exactly if the request is POST_ONLY and priced, its symbol has a book, and the first level of the other side is at or through the price; otherwise it works; no other order, position or book changes |
| `VenueEffects.AttemptTries` | `src/trading/venues/paper.py:269-307` | An attempt gives its order what the book has for it, all that is left, the depth, or nothing, sets status and time by that, and changes no other order and no book |
| `VenueEffects.CancelSegment` | `src/trading/venues/paper.py:205-213` | A cancel turns a working order into the same order CANCELLED at that time, and refuses anything else unchanged |
| `VenueEffects.BookSegment` | `src/trading/venues/paper.py:260-266` | A book that arrives is stored and left waiting with exactly the working orders on its symbol, each listed once |
| `VenueEffects.ResumeSegment` | `src/trading/venues/paper.py:181-191` | A suspended call that goes on tries its order on the latest book, or the first listed one on the book that arrived, and fires a fill exactly if that takes something |
| `VenueEffects.EveryListedOrderIsTried` | `src/trading/venues/paper.py:260-267` | Under every interleaving: how often an order worked when a book arrived is how often it was tried on that book plus how often it still waits to be |
| `Account.BalanceConserved` | `src/trading/venues/paper.py:232-245` | In a consistent state the balance is initial balance plus all cash flow plus marked inventory over all symbols |
| `Account.ReachableBalance` | `src/trading/venues/paper.py:232-245` | So it is in every state any interleaving reaches |
| `Account.MarkIsMid` | `src/trading/venues/paper.py:341-353` | The mark is the one price half way between the first bid and the first ask, the first price of the only side there is, or the entry price; it lies between bid and ask |
| `Account.ReachableBalanceAtTheBooks` | `src/trading/venues/paper.py:232-245` | In every state any interleaving reaches, for every family of prices that are those marks, the balance is initial balance, cash of the fills, and net filled quantities at these prices |
| `Account.StepDominates` | `src/trading/venues/paper.py:260-307` | One segment of any call keeps two venues, one per engine, in step if the market order it tries finds depth: same orders and quantities, fills and positions no better in the book-aware one |
| `Account.StepDiverges` | `src/trading/fill/orderbook.py:69-77` | If it does not, both engines fill the order, with different quantities |
| `Account.NoBetterBalance` | `src/trading/venues/paper.py:232-245` | Venues so related have balances so ordered |
| `Account.RealismDominance` | `src/trading/fill/immediate.py:34-61` | For every interleaved run over sorted books, both engines trade the same quantities exactly if every market order found depth whenever it was tried; then the book-aware account never has the larger balance, nor the larger equity over all symbols at any other marks |
| `Account.AccountDrift` | `src/trading/venues/paper.py:82-107` | In every state any interleaving reaches, equity over all symbols kept with rounded divisions is within `u` times the summed entry notionals of the exact one, at any marks |
| `Journal.LatestIsRankedFirst` | `src/trading/persistence/order_journal/sqlite.py:155-179` | The row the reader folds to is exactly the row the window query numbers 1 |
| `Journal.ReadersReturn` | `src/trading/persistence/order_journal/sqlite.py:155-179` | An order is read back exactly if its row ranked first (by the in-memory reader: written last) is SUBMITTED, ACKED or PARTIALLY_FILLED, and then as that row |
| `Journal.ReadersPickSameRow` | `src/trading/persistence/order_journal/in_memory.py:40-47` | The two readers pick the same row of an order exactly if its last written row has the latest time |
| `Journal.JournalsAgree` | `src/trading/persistence/order_journal/in_memory.py:40-47` | Written in time order per order, the rows read back as the same open orders from both journals |
| `Journal.OrderJournal.ReadOpenLastWritten` | `src/trading/persistence/order_journal/in_memory.py:40-47` | The dictionary loop returns the last written row of each order, terminal ones and other symbols left out |
| `Desk.FilledKeeps` | `src/trading/oms/default.py:157-194` | A fill followed by its order update keeps the venue explained by the fills and the cache in step with it, whatever the clock |
| `Desk.FilledRows` | `src/trading/oms/default.py:157-194` | It also keeps the journal in step: last and latest row of every order are the venue's version, or its SUBMITTED row where nothing happened since |
| `OrderTracking.NextKeeps` | `src/trading/oms/default.py:71-194` | On any clock every input keeps venue, fills, cache and journal consistent; every input but a restart keeps the cache a mirror, and a full cache full |
| `OrderTracking.CacheIsVenue` | `src/trading/oms/default.py:134-194` | After any run without a restart, on any clock, the cache is the venue's dictionary, field for field |
| `OrderTracking.FillsAddUp` | `src/trading/oms/default.py:162-170` | After any run, restarts included, on any clock, the journaled fills of each order add up to its filled quantity |
| `OrderTracking.UpdateFirstOvercounts` | `src/trading/venues/paper.py:309-318` | Fill before update ends in the venue's version; update before fill counts the fill's quantity twice, exactly |
| `OrderTracking.SwappedRunOvercounts` | `src/trading/venues/paper.py:309-318` | Over every stream of callbacks with the two swapped, each cached order shows as filled what it should plus exactly the fill last heard of, if a fill was the last thing heard |
| `OrderTracking.RestartRecovers` | `src/trading/oms/default.py:71-80` | On a clock whose readings all differ, after any run with any number of restarts, the journal reads back exactly the venue's open orders |
| `OrderTracking.RestartRecoversIff` | `src/trading/persistence/order_journal/sqlite.py:155-179` | On a clock that only does not go backwards, it does so exactly if the journal reads back no order as SUBMITTED, that is if no order's last row is a SUBMITTED row as late as the venue's version |
| `OrderTracking.EveryPrefixRecoversIff` | `src/trading/oms/default.py:98-134` | On such a clock the journal recovers the working orders after every input of a run exactly if, at every submit, the clock advances from the submission to the last change it makes |
| `OrderTracking.InMemoryRestartIff` | `src/trading/persistence/order_journal/in_memory.py:40-47` | With the in-memory reader the restored cache mirrors the venue exactly if something happened to every order after its submit returned |
| `OrderTracking.NewProcessMirrorsIff` | `src/trading/venues/paper.py:128-132` | A new process over the old journal mirrors its empty venue exactly if the journal reads nothing back |
| `OrderTracking.NewProcessCancelsNothing` | `src/trading/oms/default.py:140-146` | In a new process `cancel_all` cancels and counts none of the old working orders, and all of them stay cached as working |
| `OrderTracking.NewProcessReusesIds` | `src/trading/venues/paper.py:147-148` | The first order of a new process takes id 1 and writes its rows after the old order's rows of the same id |
| `OrderTracking.RestartMirrorsIff` | `src/trading/oms/default.py:71-80` | On any clock a restored cache mirrors the venue exactly if the journal reads back the open orders |
| `OrderTracking.SubmitRecoversIff` | `src/trading/oms/default.py:98-134` | One submit, on any clock, keeps the journal recovering the working orders exactly under a condition on the readings it takes and on whether request and book trade at once; without going backwards: exactly if the clock advances from the submission to the second reading after it for an order that trades at once, to the first otherwise |
| `OrderTracking.StoppedClockRevivesOrder` | `src/trading/oms/default.py:98-134` | On a clock that stands still a market order is filled, and the journal reads it back as SUBMITTED |
| `OrderTracking.LastWrittenMisses` | `src/trading/oms/default.py:127-134` | After any submit, on any clock, the in-memory reader has the new order as SUBMITTED, so not the venue's open orders |
| `OrderTracking.SubmitSplitsReaders` | `src/trading/persistence/order_journal/in_memory.py:40-47` | After a submit the two readers differ on the new order exactly if a reading after the submission is later; without going backwards, exactly if the SQL reader has the venue's version; and then the rows are not written in time order |
| `OrderTracking.CancelEachExact` | `src/trading/oms/default.py:143-146` | Cancelling a list of distinct open orders cancels exactly those, once each, and touches no other order, position or fill |
| `OrderTracking.CancelAllCancels` | `src/trading/oms/default.py:140-146` | `cancel_all` leaves open exactly the orders on other symbols, and returns how many it cancelled |
| `OrderTracking.CancelAllEmpties` | `src/trading/oms/default.py:140-146` | Without a symbol nothing stays open at the venue or in the order manager |
| `DeskEffects.PlacedOnDesk` | `src/trading/venues/paper.py:146-191` | After placing: the order carries the request, is rejected exactly as in `VenueEffects.Placed`, otherwise has taken what the known book gives it, with the status that goes with that; no other order is touched |
| `DeskEffects.FilledOnPlacingIff` | `src/trading/venues/paper.py:183-191` | A request that is not POST_ONLY has something filled on return exactly if its symbol has a book whose other side is not empty and it is a market order, or a priced limit order that reaches the first level there |
| `DeskEffects.BookTriesOrders` | `src/trading/venues/paper.py:260-276` | A book that arrives is tried on every working order on its symbol, each at a reading of its own; every other order is unchanged |
| `DeskEffects.BookFillsMarketable` | `src/trading/venues/paper.py:260-276` | After it every working limit order the book reaches is FILLED, and every working market order has the smaller of what was left and the depth more, or with the immediate engine all of it |
| `DeskEffects.CancelledOnDesk` | `src/trading/venues/paper.py:205-213` | A cancel leaves the order CANCELLED at the next reading, at the venue, in the cache and as the last row, and touches nothing else |
| `DeskEffects.FillHeard` | `src/trading/oms/default.py:162-194` | A fill heard is journaled; a cached order has its quantity added, is FILLED exactly if that is all of it, and its average times its filled quantity grows by the notional; an unknown order stays unknown |
| `DeskEffects.SubmitPlaces` | `src/trading/oms/default.py:85-116` | A submit leaves the venue, the cache and the fills as placing a request with the intent's own fields does, and the order carries them |
| `DeskEffects.SubmitWritesLast` | `src/trading/oms/default.py:98-134` | The last row of a submit is the intent as SUBMITTED under the venue's id, stamped before the venue was called |
| `PaperTrading.PaperVenue.PlaceOrder` | `src/trading/venues/paper.py:146-191` | Moves venue, order manager and journal to the specified state, callbacks included, and returns the new id |
| `PaperTrading.PaperVenue.OnOrderbook` | `src/trading/venues/paper.py:260-267` | The loop over the ids listed beforehand computes the specified state |
| `PaperTrading.PaperVenue.TryFillOrder` | `src/trading/venues/paper.py:269-276` | Nothing without an open order or a fill; otherwise the fill and its two callbacks |
| `PaperTrading.PaperVenue.ApplyFillToOrder` | `src/trading/venues/paper.py:278-318` | Updates three dictionaries, then fires the fill, then the update |
| `PaperTrading.PaperVenue.GetBalance` | `src/trading/venues/paper.py:232-250` | The loops over the positions add up to the balance that `Account` is about |
| `PaperTrading.DefaultOrderManager.Submit` | `src/trading/oms/default.py:85-135` | Moves venue, order manager and journal to the specified state, the SUBMITTED row written last |
| `PaperTrading.DefaultOrderManager.CancelAll` | `src/trading/oms/default.py:140-146` | The loop with its counter computes the specified state and count |
| `PaperTrading.DefaultOrderManager.OnFill` | `src/trading/oms/default.py:162-194` | Appends the fill, and for a cached order the locally updated version |
| `Breakers.PruneAgain` | `src/trading/risk/breakers/consecutive_error.py:56-59` | Pruning at an older cutoff first loses nothing a newer cutoff keeps |
| `Breakers.PeakIsEnoughIff` | `src/trading/risk/breakers/drawdown.py:84-90` | Looking at the peak alone finds every drop by more than the threshold, after every run that leaves the breaker unlatched, exactly if the threshold is at most 1 or equity is not negative |
| `Breakers.WatchIsPruned` | `src/trading/risk/breakers/drawdown.py:79-82` | Over every run the pruned history is the window of everything seen since the last reset |
| `Breakers.SlidingPeak` | `src/trading/risk/breakers/drawdown.py:69-101` | The history is not empty when its maximum is taken, and an unlatched evaluation trips exactly if the true window maximum has been lost by more than the threshold |
| `Breakers.NoErrorLost` | `src/trading/risk/breakers/consecutive_error.py:47-71` | With errors stamped in any order, pruning leaves as many as were ever accepted with a stamp in the window |
| `Breakers.CooldownHolds` | `src/trading/risk/breakers/rate_limit.py:64-73` | During the cooldown every evaluation trips, and neither errors nor evaluations extend it |
| `Breakers.CooldownEnds` | `src/trading/risk/breakers/rate_limit.py:74-80` | The first evaluation at or after its end does not trip and forgets every error |
| `Breakers.RateCountsAll` | `src/trading/risk/breakers/rate_limit.py:78-92` | Outside a cooldown an evaluation counts all errors in the window received since the breaker last forgot, and trips and starts the cooldown exactly at the threshold |
| `BreakerRuns.ErrorWindowTripsIff` | `src/trading/risk/breakers/consecutive_error.py:47-71` | Whatever the breaker heard and whenever it was asked, it trips exactly if at least `threshold` of all the errors ever reported to it from its components are stamped at or after `now - window` |
| `BreakersAtWork.RunTells` | `src/trading/runtime/event_bus/in_memory.py:47-57` | In every run of the system each breaker is as hearing the errors reported on a live bus, once each and in order, and being asked at times in order, leave it |
| `BreakersAtWork.ErrorWindowInRuns` | `src/trading/risk/breakers/consecutive_error.py:47-71` | After every run of the system the error window trips exactly if at least `threshold` of the errors reported in it, from its components and on a live bus, are stamped at or after `now - window` |
| `BreakerRuns.RateLimitTripsIff` | `src/trading/risk/breakers/rate_limit.py:56-92` | Until its first trip it trips exactly if at least `threshold` of all the errors reported whose type mentions its text are stamped in the window; the cooldown then starts |
| `BreakerRuns.RateLimitCoolsDown` | `src/trading/risk/breakers/rate_limit.py:64-77` | After a trip every evaluation before the end of the cooldown trips whatever is heard, and the first one after it does not and leaves the breaker as it was built |
| `BreakerRuns.ContainsIff` | `src/trading/risk/breakers/rate_limit.py:56-58` | The filter accepts an exception type exactly if the text occurs somewhere in it |
| `BreakerRuns.DrawdownTripsIff` | `src/trading/risk/breakers/drawdown.py:69-101` | Until its first trip it trips, at the evaluation itself, exactly if the greatest equity shown to it in the window is positive and more than the threshold of it has been lost |
| `BreakerRuns.DrawdownLatches` | `src/trading/risk/breakers/drawdown.py:58-75` | After a trip every evaluation trips until a release, which leaves the breaker as it was built |
| `RiskSafety.DeliverReaches` | `src/trading/runtime/event_bus/in_memory.py:47-57` | Published over the breakers' own subscriptions, an event of any kind is heard exactly once by every breaker, errors included, which twice would count twice |
| `RiskSafety.ReturnNeedsAck` | `src/trading/runtime/system_state.py:6-18` | In a chain of the code's transitions RUNNING comes after QUARANTINE only past a human acknowledgement |
| `RiskSafety.StopsForGood` | `src/trading/runtime/supervisor/default.py:168-217` | After DRAINING the log holds at most STOPPED |
| `RiskSafety.SupervisorRuns` | `src/trading/runtime/supervisor/default.py:82-294` | For every sequence of calls, reconciliation failing or not, the log is a chain of the code's transitions from BOOTING to the current state, nothing follows STOPPED, and RUNNING after a quarantine follows a logged acknowledgement |
| `RiskSafety.LogAgainstTable` | `src/trading/runtime/system_state.py:6-18` | Every logged step of every run is in the documented table, or goes from BOOTING or RECONCILING to DRAINING; RECONCILING to QUARANTINE and RUNNING to STOPPED never occur |
| `RiskSafety.DrainsOutsideTable` | `src/trading/runtime/supervisor/default.py:168-180` | Runs that take those two steps: stopping at once, and stopping after a start whose reconciliation failed |
| `RiskSafety.ReconcilingIsATrap` | `src/trading/runtime/supervisor/default.py:259-270` | From RECONCILING no sequence of calls leads anywhere but to STOPPED |
| `RiskSafety.FailureIsFinal` | `src/trading/runtime/supervisor/default.py:95-136` | An acknowledgement or a start whose restore or reconciliation fails leaves RECONCILING, and the system never runs again |
| `RiskReactions.TickRealisesStrongest` | `src/trading/risk/default.py:69-82` | A tick in RUNNING ends in QUARANTINE exactly if some breaker asks for QUARANTINE or FLATTEN; over an order manager that mirrors the venue it leaves no order open anywhere if one asks for CANCEL_ALL or more, and otherwise touches no order |
| `RiskReactions.OrderOfBreakersIrrelevant` | `src/trading/runtime/supervisor/default.py:272-294` | The state after a tick does not depend on the order of the breakers, nor, over a mirroring order manager, do the open orders |
| `RiskReactions.CheckRejectsIff` | `src/trading/risk/default.py:58-67` | The check rejects exactly if some breaker trips: in the name of the first that does, every breaker up to it asked once and none after it |
| `RiskReactions.GateIsTheBreakers` | `src/trading/executor/default.py:42-49` | An intent reaches the order manager exactly if no breaker trips, and is rejected in the name of the first that does; the supervisor's state is not asked |
| `RiskReactions.QuarantineTakesOrders` | `src/trading/runtime/supervisor/base.py:50-61` | A system started and then quarantined by hand, with a quiet breaker, places the next order it is given |
| `RiskReactions.OnlyAckReleases` | `src/trading/risk/breakers/drawdown.py:58-63` | No call but an acknowledgement in QUARANTINE changes a latched drawdown breaker or its history |
| `RiskReactions.AckReleases` | `src/trading/runtime/supervisor/default.py:259-265` | An acknowledgement in QUARANTINE clears latch and history of every drawdown breaker |
| `RiskReactions.LatchHolds` | `src/trading/risk/breakers/drawdown.py:69-75` | From the latch on, over any calls without such an acknowledgement, every intent is rejected and no order is placed |
| `RiskReactions.LatchQuarantines` | `src/trading/runtime/supervisor/default.py:272-292` | The first tick in RUNNING over a latched breaker that quarantines ends in QUARANTINE, and over a mirroring order manager with nothing open |
| `SupervisorEffects.StopDrains` | `src/trading/runtime/supervisor/default.py:168-217` | Stopping ends in STOPPED with the bus offline; with `drain` no order stays working at the venue or in an order manager that mirrored it, without it none is touched |
| `SupervisorEffects.StopDrainsInRuns` | `src/trading/runtime/supervisor/default.py:179-185` | So it is after every run from a fresh desk that placed nothing before the start, or on a strict clock |
| `SupervisorEffects.QuarantineEmpties` | `src/trading/runtime/supervisor/default.py:228-257` | Quarantining does something only in RUNNING, and there leaves nothing open that the order manager knew of |
| `SupervisorEffects.StartEnds` | `src/trading/runtime/supervisor/default.py:95-136` | A start does something only from BOOTING on a bus not stopped; it reaches RUNNING exactly if everything succeeds, RECONCILING otherwise, and a restored cache is what the journal reads back |
| `SupervisorEffects.AcknowledgeEnds` | `src/trading/runtime/supervisor/default.py:259-270` | An acknowledgement does something only in QUARANTINE, goes back to RUNNING exactly if the reconciliation succeeds, and touches no order |
| `SupervisorEffects.TickElsewhere` | `src/trading/runtime/supervisor/default.py:272-294` | A tick in QUARANTINE or RECONCILING changes no state; it leaves no order open if some breaker asks for CANCEL_ALL or FLATTEN, and otherwise, a QUARANTINE asked for included, touches none |
| `SupervisorEffects.TickLogs` | `src/trading/runtime/supervisor/default.py:228-246` | A tick in RUNNING logs one transition, in the name of the first breaker that asks for QUARANTINE or FLATTEN, however many do, and none if none does |
| `SupervisorEffects.TickOffline` | `src/trading/risk/default.py:69-82` | On a bus that is not up a tick touches no order and no state, and raises exactly if some breaker trips |
| `SupervisorEffects.ContextShows` | `src/trading/risk/default.py:84-94` | Breakers are shown the next reading, the balance, and, by an order manager that mirrors it, exactly the venue's open orders |
| `RiskDesk.CallDrives` | `src/trading/runtime/supervisor/default.py:95-294` | Every call moves venue, order manager and journal as some sequence of their own inputs does, a submit among them only for an intent that passes the check, a restart only for a start from BOOTING |
| `RiskDesk.ReachableReady` | `src/trading/runtime/supervisor/default.py:95-294` | On any clock, every state reachable without placing an order before the start has a chained log, live wiring and an order manager that mirrors the venue |
| `RiskDesk.StartMirrorsIff` | `src/trading/runtime/supervisor/default.py:115-121` | With orders placed before it, a start leaves a cache that mirrors the venue exactly if the journal reads back the open orders; on a clock that does not go backwards, exactly if no order is tied with its SUBMITTED row |
| `RiskDesk.StrictClockReady` | `src/trading/oms/default.py:71-80` | On a strict clock orders placed before the start do no harm: every reachable state is as in `ReachableReady` |
| `RiskReactions.DrawdownLatchEndToEnd` | `src/trading/risk/default.py:58-82` | For every reachable latched state and every continuation without an effective acknowledgement, on any clock: intents are rejected, nothing is placed, and a tick in RUNNING ends in QUARANTINE; with no order open anywhere, if none was placed before the start or the clock is strict |
| `RiskObjects.DrawdownBreaker.Evaluate` | `src/trading/risk/breakers/drawdown.py:69-101` | The fields and the trigger after an evaluation are those `Breakers` is about |
| `RiskObjects.RateLimitBreaker.Evaluate` | `src/trading/risk/breakers/rate_limit.py:64-92` | The fields and the trigger after an evaluation are those `Breakers` is about |
| `RiskObjects.ConsecutiveErrorBreaker.Evaluate` | `src/trading/risk/breakers/consecutive_error.py:55-71` | The fields and the trigger after an evaluation are those `Breakers` is about |
| `RiskObjects.TradingSystem.constructor` | `src/trading/runtime/event_bus/in_memory.py:33-45` | A new system has every breaker subscribed once, in order, and is BOOTING with an empty log |
| `RiskObjects.TradingSystem.PublishToBreakers` | `src/trading/runtime/event_bus/in_memory.py:47-57` | The dispatch loop reaches exactly the matching subscribers, in registration order |
| `RiskObjects.TradingSystem.Start` | `src/trading/runtime/supervisor/default.py:95-136` | The boot sequence, with persistence, restoring the order manager, or reconciliation possibly failing |
| `RiskObjects.TradingSystem.Stop` | `src/trading/runtime/supervisor/default.py:168-217` | The shutdown sequence, draining or not, from any state |
| `RiskObjects.TradingSystem.Tick` | `src/trading/risk/default.py:69-82` | The loop asks every breaker in order and publishes each trigger before asking the next; it ends if publishing raises |
| `RiskObjects.TradingSystem.Check` | `src/trading/risk/default.py:58-67` | The loop returns at the first breaker that trips |
| `RiskObjects.TradingSystem.SubmitIntent` | `src/trading/executor/default.py:42-49` | The check, then the order manager or the rejection |
| `Serde.RoundTripIff` | `src/trading/persistence/_serde.py:53-98` | A well-typed value comes back from its encoding exactly if no dataclass in it has a field named like a marker and no enum member or dataclass stands where the hint is written `T \| None` |
| `Serde.LosslessIff` | `src/trading/persistence/_serde.py:4-10` | Every value of a type comes back exactly if its declaration has no marker as a field name and `T \| None` only over primitives, decimals and datetimes |
| `Serde.NestedOptionals` | `src/trading/persistence/_serde.py:72-82` | `Optional[T] \| None` and `Optional[T \| None]` are one `Optional[T]`, and give back the values that come back at `T` |
| `Serde.EncodingIsInjective` | `src/trading/persistence/_serde.py:53-62` | Two values of one type never share an encoding, even where neither comes back |
| `Serde.WrittenForms` | `src/trading/persistence/_serde.py:53-62` | Decimals and datetimes are written under their markers, enums as their text, a dataclass as an object with exactly its fields |
| `Serde.ReadForms` | `src/trading/persistence/_serde.py:65-88` | `null` is `None` at every type, a marked object is that decimal or datetime or raises, an enum takes exactly its own texts |
| `Serde.RecordReads` | `src/trading/persistence/_serde.py:90-96` | A dataclass is read exactly if every field is there and is read, and is then those fields in order |
| `Serde.UnionReads` | `src/trading/persistence/_serde.py:74-84` | A union of several types is read as the first that does not raise, or left raw if all do |

## Left out

- `Decimal` context precision, apart from the relative error of the average-price division in `Positions.DriftBound`; sums and products are exact.
- Agreement of the order manager with the venue under interleaved callbacks: `OrderTracking` is about callbacks that run to completion.
- Supervisor calls interleaved at their suspension points: each supervisor call is one step, so two overlapping calls to `quarantine` and `acknowledge` are not covered.
- More than one subscriber to the venue's callbacks: the order manager is the only one.
- `submit` when the venue raises (`SubmissionFailed`): the paper venue does not raise.
- `RiskObjects.TradingSystem.Tick`: breakers are held by value inside one object that is supervisor, risk manager and executor together, since a list of objects of different classes needs a common supertype; aliasing between those objects is not modelled, and the breaker classes are tied to these values by their own contracts.
- `PaperTrading.PaperVenue.OnOrderbook`: dictionaries iterate in the order of order ids, which is their insertion order; after a restart the cache is in the order of the query's rows, which SQL leaves open, and only the times of the cancels depend on it.
- Heartbeats and the stateless breakers (leverage, notional, liquidation distance, funding, heartbeat) are the constructor `RiskLoop.Other`: any answer at all, depending on the context and on how often it was asked.
- The position manager: the balance a breaker sees is an arbitrary input of each tick and each intent.
- Clock readings for heartbeats and for position and balance objects, which no property depends on.
- Exceptions in subscribers and in the event log, alerts and their routing, reason strings.
- Closing positions on FLATTEN, which the code does not do either.
- SQL and JSON text, `isoformat` ordering, and the inverse pairs `str`/`Decimal` and `isoformat`/`fromisoformat` are trusted; rows are a sequence and the window query is a function.
- A process restart together with the risk loop: `RiskDesk` starts from an empty journal. What a new process finds over an old one is stated for the order manager alone.
- `read_order_history`, `read_fills_since`, `get_positions`, `get_order`: filters and copies of the state modelled here.
- Unions of several types besides `None` and containers in `Serde`: decoded as the code does (`Serde.UnionReads`), but no round trip is promised or claimed.
- Order expiry, `reduce_only`, repeated client order ids and book depletion: the paper venue does none of these.
- The exchange connector, its threads and lookup tables, the command line, demos and strategies.
