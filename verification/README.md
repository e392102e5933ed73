# quant_engine core, modelled in Dafny

This project models the bookkeeping core of a C++ event-driven backtesting
engine and proves properties of it. The core has four parts:

- **The event queue.** A FIFO of market, signal, order and fill events: `push`, a
  `pop` that throws on an empty queue, `empty` and `size`. It is modelled in
  `event_queue.dfy` as the class `EventQueue.Queue` over a `seq<Event>`. The
  module also gives a trace semantics for runs of calls, which states the FIFO
  property. Event records are in `events.dfy`.
- **The order book.** Two `std::multiset`s in price/time priority, one for bids
  and one for asks, each with an id-to-iterator index, plus a ledger of
  retired orders.
  - `order_priority.dfy` holds the record, the two comparators and the
    sorted-side operations:
    - the multiset insert after every equivalent entry;
    - erasure by id;
    - the pruned walk.
  - `order_queue.dfy` holds the class `OrderBook.OrderQueue`. Its fields are
    the sides as sorted sequences, the indexes as maps from id to entry, and
    the ledger as a sequence.
- **The execution engine's fill tracker.** `emit_fill` updates a per-order
  record and pushes a fill event. `get_order` reads the record. Both are in
  `execution.dfy`: the class `Execution.ExecutionEngine` and the pure
  `TrackFill`, which `EmitFill` is proved against.
- **The portfolio manager.**
  - `positions.dfy` holds the pure fill-application algorithm (`ApplyFill`)
    and its cost-basis invariant.
  - `portfolio.dfy` holds the class `Portfolio.PortfolioManager`:
    - cash;
    - realized P&L;
    - positions and market prices, as maps;
    - the trade log.

    It has the fill and market handlers and the two folds over the positions.
    Two ghost fields record the starting cash and the commissions paid. With
    them, the class invariant is the accounting identity
    `cash + commissions + Σ qty·avg − realized == starting cash`.
  - The folds are sums over the map's key set (`sums.dfy`), because the
    source iterates a hash map in unspecified order.

Doubles are modelled as exact `real`s, and C++ integers as unbounded `int`s.
Time points are integers, passed in as parameters.

## Model

| member | source | states |
|---|---|---|
| EventQueue.Queue.constructor | include/events/event_queue.hpp:13-37 | a new queue is empty |
| EventQueue.Queue.Push | src/events/event_queue.cpp:7-11 | appends the event at the back; nothing else changes; the new contents are the `Apply` step of a push |
| EventQueue.Queue.Pop | src/events/event_queue.cpp:13-25 | on an empty queue: fails with `QueueEmpty` and changes nothing; otherwise: returns the front and leaves the rest in order; the result and new contents are the `Apply` step of a pop |
| EventQueue.Queue.Empty | src/events/event_queue.cpp:27-30 | true exactly when the size is 0 |
| EventQueue.Queue.Size | src/events/event_queue.cpp:32-35 | 0 exactly when no event is queued |
| EventQueue.Apply | src/events/event_queue.cpp:7-25 | one push or pop: delivered events followed by what is left equal the old contents followed by what was pushed; a pop fails exactly on an empty queue |
| EventQueue.RunIsFifo | tests/test_event_queue.cpp:33-58 | for any interleaving of pushes and pops, the events delivered and then the remaining queue are the start contents followed by the pushes, in push order |
| EventQueue.DeliveredAppend | src/events/event_queue.cpp:13-25 | what two runs of pops deliver is the concatenation of what each delivers |
| EventQueue.RunSize | src/events/event_queue.cpp:32-35 | final size = start size + pushes − successful pops |
| EventQueue.FailedPopOnlyWhenEmpty | tests/test_event_queue.cpp:97-102 | a pop fails exactly when the queue is empty, and a failed pop leaves the queue unchanged |
| EventQueue.PushThenPop | tests/test_event_queue.cpp:13-31 | push onto an empty queue, then pop: returns that event and leaves the queue empty |
| OrderPriority.BidBefore | include/orders/order_queue.hpp:23-37 | `bid_cmp`: higher price first, then earlier timestamp (its properties are in the lemmas below) |
| OrderPriority.AskBefore | include/orders/order_queue.hpp:42-56 | `ask_cmp`: lower price first, then earlier timestamp (its properties are in the lemmas below) |
| OrderPriority.BeforeIsStrictWeakOrder | include/orders/order_queue.hpp:23-56 | `bid_cmp` and `ask_cmp` are strict weak orders; two entries are equivalent exactly when price and timestamp agree |
| OrderPriority.PriceDecides | include/orders/order_queue.hpp:30-33 | a different price decides: higher first for bids, lower first for asks |
| OrderPriority.TimestampBreaksTies | include/orders/order_queue.hpp:34-35 | at equal price, the earlier timestamp comes first on both sides |
| OrderPriority.BeforeIgnoresIdentity | include/orders/order_queue.hpp:23-56 | the comparators read only price and timestamp |
| OrderPriority.UpperBound | include/orders/order_queue.hpp:59-60 | the multiset insert position: after every entry the new one does not beat, before the first one it beats |
| OrderPriority.InsertSorted | include/orders/order_queue.hpp:59-60 | insert adds exactly the new entry (multiset equality) |
| OrderPriority.InsertSortedKeepsSorted | include/orders/order_queue.hpp:59-60 | insertion keeps a side in priority order |
| OrderPriority.EraseId | src/orders/order_queue.cpp:14-18 | erases exactly the entries with the id; no-op for an absent id |
| OrderPriority.EraseIdKeepsSorted | src/orders/order_queue.cpp:71-72 | erasure keeps a side in priority order |
| OrderPriority.EraseIdKeepsUnique | src/orders/order_queue.cpp:71-72 | erasure keeps ids unique and removes exactly one entry when the id was present |
| OrderPriority.EraseIdIds | src/orders/order_queue.cpp:71-72 | erasure removes exactly that id from the side's ids |
| OrderPriority.Replace | src/orders/order_queue.cpp:14-21 | one side of `emplace`: erase the entry with the id, then insert; `ReplaceKeepsInvariant` states its properties |
| OrderPriority.ReplaceKeepsInvariant | src/orders/order_queue.cpp:11-22 | emplace on one side leaves it sorted and id-unique, with `x` as the only entry of its id; every other entry is kept; the side grows by one exactly for a new id |
| OrderPriority.UniqueIdsCount | include/orders/order_queue.hpp:80 | on an id-unique side, the entry count is the number of distinct ids |
| OrderPriority.FirstFailure | include/orders/order_queue.hpp:129-132 | the first entry the callable rejects; all entries before it are accepted |
| OrderPriority.PrunedWalk | include/orders/order_queue.hpp:129-132 | a prefix of the side, up to and including the first rejected entry; every visited entry but the last is accepted |
| OrderBook.IndexedIds | include/orders/order_queue.hpp:140-141 | an index holds exactly the ids on its side |
| OrderBook.EmplaceSide | src/orders/order_queue.cpp:11-22 | emplace keeps a side valid (sorted, id-unique, indexed, one direction) and adds one distinct id exactly for a new id |
| OrderBook.EraseSide | src/orders/order_queue.cpp:68-74 | erasing from a side keeps it valid and removes one id exactly when it was present |
| OrderBook.Lookup | src/orders/order_queue.cpp:37-63 | the bid index first, then the ask index; found exactly when one of them holds the id |
| OrderBook.EraseEntry | src/orders/order_queue.cpp:16 | erasure through an iterator: removes one copy of the designated entry (multiset difference), no-op when absent |
| OrderBook.EmplaceSideAsWritten | src/orders/order_queue.cpp:8-35 | emplace as written: the inserted entry is on the side, but the index's new key is the moved-from id, and the order's own id is no longer indexed |
| OrderBook.EmplaceAsWrittenLosesId | src/orders/order_queue.cpp:20-21 | as written, after emplacing bid "A" into an empty book, the lookup of "A" finds nothing; the intended emplace finds it |
| OrderBook.EmplaceAsWrittenDuplicates | src/orders/order_queue.cpp:14-21 | as written, emplacing the same order twice leaves two copies with one id on its side |
| OrderBook.OrderQueue.constructor | include/orders/order_queue.hpp:69 | a new book and its ledger are empty |
| OrderBook.OrderQueue.Size | include/orders/order_queue.hpp:80 | number of distinct order ids on the bid side plus on the ask side |
| OrderBook.OrderQueue.Empty | include/orders/order_queue.hpp:81 | true exactly when both sides hold no order |
| OrderBook.OrderQueue.BestBid | include/orders/order_queue.hpp:82 | a buy order in the book that no bid outranks |
| OrderBook.OrderQueue.BestAsk | include/orders/order_queue.hpp:83 | a sell order in the book that no ask outranks |
| OrderBook.OrderQueue.Get | src/orders/order_queue.cpp:37-63 | found exactly when either side holds the id; the bid side is searched first; the result has the requested id |
| OrderBook.OrderQueue.Emplace | src/orders/order_queue.cpp:8-35 | the direction picks the side; erase-then-insert on that side and its index; the other side and the ledger are unchanged; `Get` then finds the new state; size grows exactly for a new id; validity is preserved |
| OrderBook.OrderQueue.EmplaceOrder | include/orders/order_queue.hpp:96 | emplaces `order_state{ev}`: the order with the remaining members value-initialised (nothing filled, average 0, not active; the record type at include/orders/order_state.hpp:13-19 has no member initialisers) |
| OrderBook.OrderQueue.Inactive | src/orders/order_queue.cpp:65-81 | the entry goes to the ledger and leaves its side and index, bid side first; an unknown id changes nothing; size drops by one when found; validity is preserved |
| OrderBook.OrderQueue.ForEachPruned | include/orders/order_queue.hpp:127-137 | visits the bids in priority order up to the first rejection, then the asks the same way, regardless of how the bid walk ended |
| Execution.Base | include/execution_engine_base.hpp:65-73 | a record with an empty id (including a missing one) is re-initialised from the order; any other record is kept |
| Execution.TrackFill | include/execution_engine_base.hpp:64-91 | filled quantity grows by the fill; avg·filled grows by price·qty while filled > 0, else avg is 0; active exactly while still active and below the order quantity |
| Execution.ExecutionEngine.constructor | include/execution_engine_base.hpp:47 | no records |
| Execution.ExecutionEngine.GetOrder | include/execution_engine_base.hpp:39-43 | absent exactly for an unknown id; otherwise the stored record, under its own id |
| Execution.FillFor | include/execution_engine_base.hpp:93-100 | the pushed fill event: the order's symbol, id, quantity and side, the filled quantity, the price and the time |
| Execution.ExecutionEngine.EmitFill | include/execution_engine_base.hpp:58-103 | only this order's record changes, to `TrackFill` of the old one; exactly one fill event, carrying the order's data, is pushed at the back |
| Execution.FilledIsTotal | include/execution_engine_base.hpp:76 | after any run of fills, the filled quantity is their sum (overfills and zero fills included) |
| Execution.AverageIsVolumeWeighted | include/execution_engine_base.hpp:78-86 | with positive fills, the average fill price is total notional over total quantity |
| Execution.NotionalInvariant | include/execution_engine_base.hpp:78-86 | avg × filled = Σ price·qty throughout a run of positive fills |
| Execution.ActiveUntilFilled | include/execution_engine_base.hpp:88-91 | active exactly when no prefix of the fills reached the order quantity; once inactive, never active again |
| Execution.EmptyIdForgetsEarlierFills | include/execution_engine_base.hpp:65-73 | an order with an empty id is re-initialised by every fill, so only the last fill counts |
| Positions.AverageCostSpreads | src/portfolio/portfolio_manager.cpp:46 | average price × abs(quantity) gives back the total cost |
| Positions.ApplyFill | src/portfolio/portfolio_manager.cpp:39-68 | quantity moves by the signed fill; flat ⇒ avg 0; same side realizes nothing; the record's own realized field is untouched |
| Positions.CostBasisStep | src/portfolio/portfolio_manager.cpp:39-68 | in all four cases, qty·avg − realized grows by exactly signedQty·price |
| Positions.SameSideAverages | src/portfolio/portfolio_manager.cpp:40-47 | adding on the same side: the new avg is the quantity-weighted mean of the old avg and the fill price |
| Positions.PartialCloseRealizes | src/portfolio/portfolio_manager.cpp:51-53 | a partial close realizes |fill|·(price − avg) on a long or |fill|·(avg − price) on a short; the avg is kept |
| Positions.CloseToFlatRealizesAll | src/portfolio/portfolio_manager.cpp:59-62 | closing to flat realizes qty·(price − avg) and clears the avg |
| Positions.FlipRestartsCostBasis | src/portfolio/portfolio_manager.cpp:63-67 | a flip realizes only the closed units and restarts the avg at the fill price |
| Positions.Step | src/portfolio/portfolio_manager.cpp:39-68 | one fill in a replay: quantity adds up, and the basis grows by qty·price |
| Positions.CostBasisInvariant | src/portfolio/portfolio_manager.cpp:39-68 | from flat, after any fills: quantity is the net signed quantity, and qty·avg − realized = Σ signedQty·price |
| Positions.AddsToLongAveragesPrice | tests/test_portfolio.cpp:34-44 | buy 10 @ 100, then 10 @ 120: long 20 @ 110, nothing realized |
| Positions.ReducesLongRealizesPnl | tests/test_portfolio.cpp:46-55 | buy 20 @ 100, sell 5 @ 130: long 15 @ 100, 150 realized |
| Positions.ClosesLongResetsPosition | tests/test_portfolio.cpp:57-66 | buy 20 @ 100, sell 20 @ 90: flat with avg 0, −200 realized |
| Positions.FlipsLongToShort | tests/test_portfolio.cpp:68-77 | buy 10 @ 100, sell 15 @ 110: short 5 @ 110, 100 realized |
| Positions.CoversShortPartially | tests/test_portfolio.cpp:89-98 | sell 10 @ 200, buy 5 @ 180: short 5 @ 200, 100 realized |
| Positions.FlipsShortToLong | tests/test_portfolio.cpp:100-109 | sell 10 @ 200, buy 15 @ 210: long 5 @ 210, −100 realized |
| Positions.OpenFromFlat | tests/test_portfolio.cpp:23-32 | the first fill from flat opens a position of its size at its price and realizes nothing |
| Portfolio.SignedQty | src/portfolio/portfolio_manager.cpp:15 | a buy is non-negative and a sell non-positive; magnitude equals the filled quantity |
| Portfolio.EffectivePrice | src/portfolio/portfolio_manager.cpp:17-22 | no slippage for a rate ≤ 0; otherwise buys pay more and sells receive less |
| Portfolio.TradeValue | src/portfolio/portfolio_manager.cpp:25 | effective price times filled quantity |
| Portfolio.Commission | src/portfolio/portfolio_manager.cpp:26 | trade value times the commission rate; `CommissionIsACost` states its sign |
| Portfolio.CashMovesAgainstPosition | src/portfolio/portfolio_manager.cpp:29-37 | cash moves by −signedQty × effective price |
| Portfolio.CommissionIsACost | src/portfolio/portfolio_manager.cpp:24-27 | with non-negative inputs and slippage ≤ 100%, commission never adds cash |
| Portfolio.HoldingsSplit | src/portfolio/portfolio_manager.cpp:101-113 | when every held symbol is priced, holdings = cost basis + unrealized |
| Portfolio.EquityDecomposition | src/portfolio/portfolio_manager.cpp:101-113 | under the accounting identity: cash + holdings = start − commissions + realized + unrealized |
| Portfolio.CostBasisUpdate | src/portfolio/portfolio_manager.cpp:14 | replacing one symbol's record changes the total cost basis by exactly that record's change |
| Portfolio.CostsAgreeElsewhere | src/portfolio/portfolio_manager.cpp:14 | replacing one symbol's record leaves every other symbol's cost alone |
| Portfolio.BookCash | src/portfolio/portfolio_manager.cpp:17-37 | new cash = cash − signedQty × effective price − commission |
| Portfolio.UpdatePosition | src/portfolio/portfolio_manager.cpp:39-68 | the step-by-step update gives exactly `ApplyFill` |
| Portfolio.FillKeepsAccounts | src/portfolio/portfolio_manager.cpp:11-72 | one fill preserves the accounting identity and the well-formedness of the records |
| Portfolio.PortfolioManager.constructor | src/portfolio/portfolio_manager.cpp:8-9 | only cash, zero realized P&L, the given rates, and no positions, prices or trades |
| Portfolio.PortfolioManager.PositionOf | src/portfolio/portfolio_manager.cpp:120-125 | an unknown symbol gives the all-zero record; a flat record has avg 0 |
| Portfolio.PortfolioManager.CashBalance | src/portfolio/portfolio_manager.cpp:115-118 | cash = start − commissions − (cost basis − realized) |
| Portfolio.PortfolioManager.RealizedPnl | src/portfolio/portfolio_manager.cpp:96-99 | realized = cash + commissions + cost basis − start |
| Portfolio.PortfolioManager.OnFill | src/portfolio/portfolio_manager.cpp:11-72 | the symbol's record moves by `ApplyFill` and realized P&L by what it realized; cash moves by the trade and the commission; the fill is appended to the log; prices are unchanged; the invariant is kept |
| Portfolio.PortfolioManager.OnMarket | src/portfolio/portfolio_manager.cpp:74-78 | sets that symbol's last price; nothing else changes |
| Portfolio.PortfolioManager.UnrealizedPnl | src/portfolio/portfolio_manager.cpp:80-94 | Σ over priced positions of qty·(mkt − avg), in any iteration order |
| Portfolio.PortfolioManager.TotalEquity | src/portfolio/portfolio_manager.cpp:101-113 | cash + Σ qty·mkt over priced positions; when all held symbols are priced, = start − commissions + realized + unrealized |

## Left out

- OrderBook.OrderQueue.Emplace models `emplace` as evidently intended: the index is keyed by the order's id as it was before the move. The code reads that id after moving the record into the set; see Findings and `OrderBook.EmplaceSideAsWritten`.
- OrderBook.OrderQueue.EmplaceOrder inherits that choice. It also takes the members that `order_state{ev}` leaves out as value-initialised, because the record type (include/orders/order_state.hpp:13-19) declares no default member initialisers.
- OrderBook.EmplaceSide states the intended per-side behaviour, with the same choice.
- Floating point. Prices, averages, cash and P&L are exact reals. Rounding and NaN are not modelled, and neither is the tolerance the unit tests compare with.
- Integer widths. Quantities are unbounded. The `int` narrowing of `closing_qty` and `old_qty` (src/portfolio/portfolio_manager.cpp:51,55) is not modelled, and neither is 64-bit overflow.
- Order timestamp. The comparators read an order timestamp. The order event record has no such field, so `OrderEvent` carries one.
- Mutable `get`. The mutable `get` returns a pointer through which callers may change an entry in place; only the lookup is modelled.
- Iterators. They are modelled as the entry they designate. Iterator stability and hashing are not modelled.
- The ledger. `revolving_recency_buffer` is not part of this model. The ledger is an unbounded sequence, so the buffer's capacity and overwrite policy are not captured.
- OrderBook.OrderQueue.BestBid and OrderBook.OrderQueue.BestAsk require a non-empty side, because the engine dereferences `begin()` of an empty set, which is undefined.
- OrderBook.OrderQueue.ForEachPruned: the callable is a total function, and the method returns the entries handed to it. A callable's side effects on the entries are not modelled.
- OrderBook.OrderQueue.Inactive: it follows the code, which stops after the bid side. If an id sits on both sides, the ask entry survives and a later `get` still finds it; the contract says so.
- Time. `emit_fill`'s default argument (the system clock) is an explicit `timestamp` parameter.
- Engine dispatch. The CRTP dispatch of `on_order` and the engine base class (`engine_base`) are not modelled. Strategies, the data feed and matching are outside the core.
- Header-only members. `on_cancel`, `last_price` and `last_quantity` are declared in the portfolio header but have no definition among the core files, so they are not part of this model. The header also declares `on_market` with a quantity parameter and the constructor without a slippage rate; the model follows the definitions (src/portfolio/portfolio_manager.cpp:8-9, 74-78) and drops the header's default arguments.
- Position realized field. The `realized_pnl` field of a position record is never written by the portfolio. The model keeps it and proves it stays 0.
- Portfolio.PortfolioManager.OnFill is written as two helpers, `BookCash` for cash and `UpdatePosition` for the position, run in the source's order. This changes structure, not behaviour.
- Trade log accessor. `trade_log` is the field `tradeLog` itself.

## Findings

| source | as written | input that shows it | evidently intended | confidence | as-written member | corrected member |
|---|---|---|---|---|---|---|
| src/orders/order_queue.cpp:20-21 (and 32-33) | the new index entry is keyed by `order.order_id_`. `order` refers into `state`, and `state` has just been moved into the set, so with libstdc++ or libc++ the key is the empty string | emplace a bid with id "A" into an empty book, then get("A"): the entry is on the bid side but the lookup finds nothing. A second emplace of "A" misses too and leaves two entries with id "A" | the index is keyed by the order's own id: get("A") finds the entry, and re-emplacing replaces it, so ids stay unique per side | not executed; depends on the moved-from string being empty, which the C++ standard leaves unspecified | OrderBook.EmplaceAsWrittenLosesId | OrderBook.OrderQueue.Emplace |
