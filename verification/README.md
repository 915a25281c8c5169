# FrogQuant engine: model and proofs

FrogQuant is a small trading engine: a long-only grid strategy, an order core with
risk limits and an exposure counter, a control layer with bounded caches and a
settings file, an asynchronous log writer, and hand-written text printers and
scanners. This project models those parts in Dafny and proves what they keep over
whole runs. `double` is idealised as `real`; prices are rounded to whole cents
as the strategy rounds them.

To verify: `dafny verify dfyconfig.toml`.

## How it is organised

| files | content |
|---|---|
| `Prelude`, `Rounding` | shared types; `std::round` and the cent rounding built on it |
| `Grid`, `GridGeometry`, `GridPairing`, `GridDrift`, `GridReach` | the strategy as a state machine, and its properties |
| `GridJournal`, `GridCycle`, `GridTerms` | what the record of a run says about every level, and what each event then emits or moves |
| `LongGridStrategy` | the strategy object with its loops, proved to implement `Grid.Step` |
| `Orders`, `Oms`, `TradingCore` | risk check, order book object, core object, proved to implement `Trading.Step` |
| `TradingRuns`, `OrderRecords` | properties of all runs of the core; its order book read off the events |
| `Desk`, `DeskRuns`, `DeskRequests`, `DeskNotes`, `DeskSettings`, `DeskExposure`, `Engine` | the whole service: state machine, properties across components, the object with its routes |
| `Scanning`, `DecimalText`, `RuntimeState`, `TradeJson` | substring search, number text, the settings file, the feed extractor |
| `JsonLines`, `LogProtocol`, `AsyncLogger` | log records, the logger's interleavings, the logger object |

Where the source updates an object, there is a class whose methods have the source's
branches and loops and whose contracts equate the new state with a step function on
values. The properties are then lemmas about those functions, over all event
sequences. Fold functions such as `Grid.After`, `Trading.RunFrom`, `Desk.Run` and
`LogProtocol.Run` are the runs; `DeskRuns.GridRuns` and `DeskRuns.CoreRuns` show that
inside the service the strategy and the core go through runs of their own, so their
theorems hold there too.

## Main results

- Strategy: no run ever sells more than it bought; every SELL closes its own earlier
  BUY of the same grid, level and quantity at no loss, for any configuration, and at a
  gain under an exact condition; rebuilds are paid for by price movement (an amortised
  bound that also covers configuration updates); successive anchors separate
  geometrically; at a resting price the eligible levels drain one by one in ascending
  order; the run's own record determines every level's state, so that a level is bought
  again only after its sale was reported, and then is bought again.
- Core: the final order book is what the events of the run make it, record by record;
  the exposure is the sum over accepted and cancelled buys and stays under the
  largest cap ever in force; a batch of identical buys is admitted exactly up to the
  cap; sells and cancels never influence buys; each order is cancelled at most once.
- Service: limits, switch and notes are what the requests of the run say; the order cache is a gap-free suffix of the submissions whose length
  follows a closed formula; a restart comes up with the last saved switch and its limits to
  six significant digits, which are the saved limits iff they have no more digits, and the
  live ones whenever the latest accepted change was written; exposure stays within the
  equity in every run iff the limits at start-up allow no more.
- Logger: in every interleaving accepted = written followed by queued; a stop drains
  in a bounded number of worker steps; the file has one line per event and each line reads back.
- Text: escaping, the settings file, number text and the feed extractor each round-trip.

## Where the code does less than one would expect

Each of these is stated exactly, for all inputs; where a whole run is meant, the failing
side is a run:

- A level can sell below its buy price iff the band exceeds twice the anchor; then a
  single tick is enough to get one (`GridReach.NoLossRunsIff`). Such levels have
  negative prices and are never bought, so traded levels are unaffected
  (`GridPairing.SellsCloseBuys`).
- A closed trade may gain nothing (`GridPairing.BreakEvenTrade`). It gains iff the level's
  unrounded sell price is at least half a cent above its buy price, which a cent of
  unrounded profit guarantees (`GridPairing.ClosedTradeGainsIff`).
- A tick leaves its price between the outer levels in every run iff the grid is dynamic
  with a threshold of at most half the band; otherwise two ticks can end outside
  (`GridReach.CoversTicksIff`).
- The newest order is in the order cache after every run iff the trim batch is no larger
  than the cache; otherwise the submission that overflows the cache empties it
  (`DeskRuns.NewestCachedIff`).
- A grid request answered with success takes effect as asked iff three parameters that
  the route does not check are in range (`DeskSettings.GridRequestTakenIff`); a take-profit
  of zero is accepted and replaced (`DeskSettings.GridRequestReplaced`).
- Saved settings come back iff each number has at most six significant digits
  (`DeskSettings.RestartRestores`); an accepted limit of 1234567 comes back as 1234570
  (`DeskSettings.RestartLosesDigits`).
- The exposure stays within the equity in every run iff the position ratio at start-up is
  at most one, or no buy is accepted at all; requests are checked for that, start-up is
  not (`DeskExposure.ExposureWithinEquityIff`).
- An escaped string is accepted by a strict reader of RFC 8259 section 7 iff the newline
  is its only control character (`JsonLines.EscapeRoundTrip`).
- `stop` leaves exactly those events behind that were accepted after the worker's last
  look at the queue (`LogProtocol.LeftBehindIffLate`, `LogProtocol.StopLosesLateEvent`).

`docs/config_and_runtime_policy.md` says that risk limits are not changed by clients;
the code has a route that changes them, and the model follows the code.

## Model

| member | source | states |
|---|---|---|
| Rounding.Round | cpp/src/strategy/long_grid_strategy.cpp:84-86 | the nearest integer; at a tie, the one further from zero |
| Rounding.GainSurvivesRounding | cpp/src/strategy/long_grid_strategy.cpp:84-110 | a gain survives cent rounding at every positive price iff it is at least one cent |
| Grid.ReachableInv | cpp/src/strategy/long_grid_strategy.cpp:12-112 | after any run: no grid iff no anchor iff no rebuild; otherwise exactly `levels` levels with the ids and prices of the layout formula for the current anchor and configuration; `BuyFilled` is never reached |
| GridGeometry.ExactSymmetric | cpp/src/strategy/long_grid_strategy.cpp:100-108 | unrounded prices run from lower to upper edge and mirror about the anchor |
| GridGeometry.BuyOrder | cpp/src/strategy/long_grid_strategy.cpp:103-110 | rounded buy prices never decrease with the level, and increase strictly once levels are a cent apart |
| GridGeometry.ReachableSorted | cpp/src/strategy/long_grid_strategy.cpp:105-111 | in every reachable state the levels are sorted by rounded buy price and have ids 1..n |
| GridGeometry.SellCoversBuy | cpp/src/strategy/long_grid_strategy.cpp:107-110 | a level with a positive rounded buy price sells at or above it, strictly above when buy times take-profit is a cent or more |
| GridGeometry.SellGainsIff | cpp/src/strategy/long_grid_strategy.cpp:107-110 | a level with a positive rounded buy price sells above it iff its unrounded sell price is at least half a cent above the rounded buy price |
| GridGeometry.NoLossLayoutIff | cpp/src/strategy/long_grid_strategy.cpp:88-110 | every level of every grid sells at or above its buy price iff the band ratio is at most 2 |
| GridGeometry.BracketsIff | cpp/src/strategy/long_grid_strategy.cpp:22-27 | every settled price in whole cents lies between the outer levels iff the threshold is at most half the band |
| GridReach.NoLossRunsIff | cpp/src/strategy/long_grid_strategy.cpp:12-112 | with an unchanged configuration, every level of every reachable grid sells at or above its buy price iff the band ratio is at most 2; else a one-tick run has a level that does not |
| GridReach.CoversTicksIff | cpp/src/strategy/long_grid_strategy.cpp:16-27 | with an unchanged configuration, every positive tick in whole cents, after every run, ends up between the outer levels iff the grid is dynamic and the threshold at most half the band |
| LongGridStrategies.LongGridStrategy.constructor | cpp/src/strategy/long_grid_strategy.cpp:8-10 | starts in the initial state of the sanitised configuration, with an empty history |
| LongGridStrategies.LongGridStrategy.SanitizeConfig | cpp/src/strategy/long_grid_strategy.cpp:88-94 | exactly the out-of-range parameters are replaced by their defaults |
| LongGridStrategies.LongGridStrategy.RebuildGrid | cpp/src/strategy/long_grid_strategy.cpp:96-112 | the fill loop yields the layout formula's grid, the new anchor and one more rebuild |
| LongGridStrategies.LongGridStrategy.NearestIdle | cpp/src/strategy/long_grid_strategy.cpp:29-39 | on sorted levels the strict-less argmin scan finds an eligible level of least distance to the price, namely the first eligible one in index order, or none iff none is eligible |
| LongGridStrategies.LongGridStrategy.Recentre | cpp/src/strategy/long_grid_strategy.cpp:16-27 | at most one rebuild, iff there is no grid or the distance reaches threshold times anchor |
| LongGridStrategies.LongGridStrategy.OnPriceTick | cpp/src/strategy/long_grid_strategy.cpp:12-51 | whole new state and intents equal the tick step, characterised in TickBuysLowest, MovesExactly and JournalTells; the object stays in a state of its recorded run |
| LongGridStrategies.LongGridStrategy.OnBuyFilled | cpp/src/strategy/long_grid_strategy.cpp:53-64 | the id search hits the level with that id; state and SELL intent equal the buy-fill step, characterised in FillSellsIff and JournalTells |
| LongGridStrategies.LongGridStrategy.OnSellFilled | cpp/src/strategy/long_grid_strategy.cpp:66-70 | the new state equals the sale step: the level with that id becomes free whatever its state, as SaleFreesLevel and CycleCloses say |
| LongGridStrategies.LongGridStrategy.UpdateConfig | cpp/src/strategy/long_grid_strategy.cpp:72-78 | sanitised configuration, and a rebuild at the same anchor if there is one |
| GridPairing.SellsCloseBuys | cpp/src/strategy/long_grid_strategy.cpp:41-64 | in every run's log each SELL's partner, the previous entry of its level and rebuild epoch, is a BUY of equal quantity at a positive price no higher (strictly lower exactly as ClosedTradeGainsIff says) |
| GridPairing.ClosedTradeGainsIff | cpp/src/strategy/long_grid_strategy.cpp:53-64 | for every run and every buy fill in it that emits a SELL: the SELL's entry has a partner in the run's log, strictly cheaper iff the level's unrounded sell price is at least its buy price plus half a cent, so in particular when unrounded buy times take-profit is a cent or more |
| GridPairing.PartnerInjective | cpp/src/strategy/long_grid_strategy.cpp:41-64 | no two entries share a partner |
| GridPairing.NoRealisedLoss | cpp/src/strategy/long_grid_strategy.cpp:41-64 | over every run the SELLs bring in at least what the BUYs they close cost |
| GridPairing.BreakEvenTrade | cpp/src/strategy/long_grid_strategy.cpp:107-110 | a concrete run whose closed trade buys and sells at the same price |
| GridPairing.NeverShort | cpp/src/strategy/long_grid_strategy.cpp:12-78 | over every run of ticks, fills and updates: sold quantity plus quantity still on order is at most bought quantity |
| GridJournal.JournalTells | cpp/src/strategy/long_grid_strategy.cpp:12-78 | after every run each level waits for its buy iff the last thing noted about it in this grid is a BUY, for its sell iff it is a SELL, and is free iff it is a reported sale or nothing |
| GridJournal.TickBuysLowest | cpp/src/strategy/long_grid_strategy.cpp:12-51 | every positive tick of every run, moving the grid or not, either adds nothing to the log and leaves no free level at or above the price, or adds the BUY of one level, now waiting for it, with no free level at or above the price below it; any other tick changes nothing |
| GridJournal.FillSellsIff | cpp/src/strategy/long_grid_strategy.cpp:53-64 | in every run a reported buy emits exactly the SELL of that level iff the last thing noted about it in this grid is a BUY; otherwise it changes nothing |
| GridJournal.BoughtAgainOnlyAfterSale | cpp/src/strategy/long_grid_strategy.cpp:53-70 | between two BUYs of one level of one grid a sale of that level has been reported |
| GridCycle.SaleFreesLevel | cpp/src/strategy/long_grid_strategy.cpp:66-70 | in every run a reported sale frees its level, whatever its state, and changes no other level, no anchor and no log |
| GridCycle.CycleCloses | cpp/src/strategy/long_grid_strategy.cpp:12-70 | after any run, once a level's sale is reported and the price rests at or below its buy price, the log gets a new BUY of it within as many ticks as there are levels |
| GridTerms.ParametersInForce | cpp/src/strategy/long_grid_strategy.cpp:72-94 | after every run each parameter is the one asked for last if in range, otherwise its own default |
| GridTerms.MovesExactly | cpp/src/strategy/long_grid_strategy.cpp:16-27 | in every run an event makes one new grid iff it is the first positive price, a relative distance of at least the threshold in dynamic mode, or a configuration of an existing grid; the anchor changes only to the price of such a tick |
| GridTerms.PricesInPlace | cpp/src/strategy/long_grid_strategy.cpp:96-112 | in every reachable grid level i's buy price is within half a cent of the i-th of evenly spread prices over the band, its sell price within half a cent of that times one plus the take-profit |
| GridDrift.TickTracksPrice | cpp/src/strategy/long_grid_strategy.cpp:12-27 | after a positive tick: at most one rebuild, the anchor is the price iff there was one, dynamic grids are settled, and bracket the price when the threshold allows |
| GridDrift.RebuildsBounded | cpp/src/strategy/long_grid_strategy.cpp:16-27 | rebuilds beyond the first and one per update, times threshold times price floor, plus the distance to the anchor, are at most the total variation of the positive prices |
| GridDrift.SeparationRising | cpp/src/strategy/long_grid_strategy.cpp:22-27 | along rising prices the anchor is at least first price times (1 + threshold) to the number of further rebuilds |
| GridDrift.SeparationFalling | cpp/src/strategy/long_grid_strategy.cpp:22-27 | along falling prices the anchor is at most first price times (1 - threshold) to the number of further rebuilds |
| GridDrift.RepeatedPriceDrains | cpp/src/strategy/long_grid_strategy.cpp:21-51 | n ticks at a resting price cause no rebuild and emit exactly min(n, eligible levels) BUYs at or above it with strictly ascending ids |
| GridDrift.TickRests | cpp/src/strategy/long_grid_strategy.cpp:16-27 | every positive tick leaves the strategy resting at its price |
| Orders.CheckIsGate | cpp/src/core/risk_engine.cpp:9-29 | the check as computed, with its division, rejects by the first of: order size over the limit, exposure plus size over equity times ratio, loss at or over its share of equity (1 counted when equity is not positive) |
| OrderManagement.OMS.Submit | cpp/src/core/oms.cpp:5-9 | a new id is inserted; a known id is refused and the book unchanged |
| OrderManagement.OMS.Accept | cpp/src/core/oms.cpp:11-17 | only New becomes Accepted; otherwise refused and unchanged |
| OrderManagement.OMS.Reject | cpp/src/core/oms.cpp:19-26 | only New becomes Rejected, with the reason; otherwise refused and unchanged |
| OrderManagement.OMS.Cancel | cpp/src/core/oms.cpp:28-34 | only Accepted becomes Cancelled; otherwise refused and unchanged |
| OrderManagement.OMS.Get | cpp/src/core/oms.cpp:36-40 | the record with this id, or none |
| Trading.TradingCore.OnTick | cpp/src/core/trading_core.cpp:45-53 | only the last price changes; later orders refer to it as BookFromEvents says |
| Trading.TradingCore.SubmitManualOrder | cpp/src/core/trading_core.cpp:55-120 | whole new state of core and book equals the submission step, including the duplicate-id branch; the returned id is the next number |
| Trading.TradingCore.CancelOrder | cpp/src/core/trading_core.cpp:122-131 | cancels in the book, succeeds iff the order was Accepted, exposure untouched |
| Trading.TradingCore.UpdateRiskConfig | cpp/include/core/trading_core.hpp:31-31 | only the limits change |
| TradingRuns.SubmitEffect | cpp/src/core/trading_core.cpp:55-120 | with dense ids the duplicate branch is dead, and a submission adds one decided record and its contribution to the exposure, nothing else |
| TradingRuns.ReachableInv | cpp/src/core/trading_core.cpp:55-131 | after any run: ids are 1..n, no order is New, Rejected iff it has a reason, exposure is the sum of quantity times price over accepted and cancelled buys, equity and day loss are as at the start |
| OrderRecords.FieldsFromEvents | cpp/src/core/trading_core.cpp:45-64 | after every run the last price is that of the latest tick, the limits those set last, and the order number the count of submissions |
| OrderRecords.BookFromEvents | cpp/src/core/trading_core.cpp:55-131 | after every run each submission has its record under its number: the request as made; reference price its own limit if a limit order with a positive one, else the latest tick before it; as reason the first check it fails under the limits set last before it; Cancelled iff admitted and a cancel request followed; and the book holds nothing else |
| TradingRuns.ExposureCapped | cpp/src/core/trading_core.cpp:92-102 | for any equity that is not negative and any day loss, exposure is at most zero or equity times the largest ratio in force so far |
| TradingRuns.FrozenAboveCap | cpp/src/core/risk_engine.cpp:16-19 | while exposure exceeds the current cap every new order of either side is rejected and exposure stays, cancels included |
| TradingRuns.OrderImmutable | cpp/src/core/oms.cpp:11-34 | in any further run a decided order keeps all its fields, except Accepted turning Cancelled |
| TradingRuns.CancelledOnce | cpp/src/core/oms.cpp:28-34 | successful cancels of an id number one iff it ends Cancelled, else none |
| TradingRuns.SellsAndCancelsIrrelevant | cpp/src/core/trading_core.cpp:55-131 | striking all sells and cancels from a run leaves the verdicts on its buys, the account, limits and price unchanged |
| TradingRuns.AdmissionsExact | cpp/src/core/risk_engine.cpp:9-29 | for any equity and any day loss below the stop, of n identical buys of notional v exactly the first min(n, floor(room / v)) are accepted, the rest rejected with MaxPositionRatio, each accepted one adding v |
| Desk.Clamp | cpp/src/app/main.cpp:68-70 | event cache at least 1, order cache at least 100, batch at least 1, never smaller than asked; a size already in range is kept, any other becomes its minimum |
| Engine.Service.constructor | cpp/src/app/main.cpp:44-70 | live settings are the configuration overridden by the settings file; the core starts with the live limits and the default account |
| Engine.Service.OnMarketTick | cpp/src/app/runtime_loop.cpp:8-22 | the core always gets the price; the grid only while enabled, with one note per intent |
| Engine.Service.Remember | cpp/src/app/control_api_router.cpp:156-165 | appends the decided order and, over the maximum, drops the batch from the front |
| Engine.Service.Manual | cpp/src/app/control_api_router.cpp:146-179 | whole new service state equals the order step; 400 iff quantity is not positive, otherwise 200: the missing-order branch never happens |
| Engine.Service.Cancel | cpp/src/app/control_api_router.cpp:181-189 | whole new service state equals the cancel step; 200 iff an id is given and that order is Accepted |
| Engine.Service.UpdateRisk | cpp/src/app/control_api_router.cpp:120-144 | whole new service state equals the risk step, characterised in LimitsAreLastNamed; out-of-range limits answer 400 and change nothing |
| Engine.Service.SwitchStrategy | cpp/src/app/control_api_router.cpp:77-90 | whole new service state equals the switch step |
| Engine.Service.ConfigureGrid | cpp/src/app/control_api_router.cpp:92-110 | whole new service state equals the grid step; levels outside 2..200 or quantity outside (0, 1000] answer 400 and change nothing |
| Engine.Service.Note | cpp/src/app/main.cpp:72-76 | appends and, over the maximum, drops the oldest |
| DeskRuns.CacheAgrees | cpp/src/app/control_api_router.cpp:155-189 | after any run the cache is the gap-free suffix of all submissions, of the closed-formula length, agreeing with the book in id, reason, time and status except Accepted for a later Cancelled |
| DeskRuns.NewestCachedIff | cpp/src/app/control_api_router.cpp:159-165 | after every run the newest order is the last cache entry iff the batch is at most the cache size; else a run of one order more than the cache holds empties it |
| DeskRuns.EventsAreRecent | cpp/src/app/main.cpp:72-76 | the event cache is always the latest notes of the run up to its maximum |
| DeskRuns.CoreRuns | cpp/src/app/control_api_router.cpp:120-189 | inside the service the core is in a state of its own run over the events that reach it |
| DeskRuns.GridRuns | cpp/src/app/runtime_loop.cpp:8-22 | inside the service the grid is in a state of its own run: ticks while enabled, accepted configurations |
| DeskRuns.RiskCopiesAgree | cpp/src/app/control_api_router.cpp:137-138 | the shown and the applied limits are equal after every run |
| DeskExposure.ExposureWithinEquityIff | cpp/src/app/main.cpp:44-57 | with positive equity, every run keeps exposure between zero and equity iff the limits at start-up have a ratio of at most one, a single-order limit of at most zero, or a loss stop already reached |
| DeskRequests.LimitsAreLastNamed | cpp/src/app/control_api_router.cpp:120-144 | after every run each limit, as shown and as applied, is what the last accepted request naming it gave, else its value at start-up; a request is accepted iff all three limits would be in range |
| DeskRequests.SwitchIsLast | cpp/src/app/control_api_router.cpp:77-90 | after every run the switch is what the last switch request with a value asked for, else as at start-up |
| DeskRequests.GridFieldsTaken | cpp/src/app/control_api_router.cpp:92-110 | in every run a grid request is accepted iff levels and quantity are in range; then each parameter is the named value, its default if that is out of range, or as before if not named |
| DeskRequests.ConfiguredUnlessSaved | cpp/src/app/main.cpp:44-57 | without a settings file all configured settings are live; with one, each setting whose key it lacks |
| DeskNotes.IntentsNoted | cpp/src/app/runtime_loop.cpp:8-22 | the strategy notes of every run name, in order, the levels of exactly the entries of the grid's log |
| DeskNotes.RequestsNoted | cpp/src/app/control_api_router.cpp:77-189 | every request carried out, and no other, leaves its one note, in order, with orders numbered from 1 |
| DeskSettings.RestartUnsaved | cpp/src/app/main.cpp:52-57 | with no successful save in between, a restart on the same configuration comes up with the settings of the last start |
| DeskSettings.GridRequestTakenIff | cpp/src/app/control_api_router.cpp:92-110 | an accepted grid request takes effect as asked iff take-profit, threshold and band are in range as well |
| DeskSettings.GridRequestReplaced | cpp/src/app/control_api_router.cpp:92-110 | from any start-up a request for a take-profit of zero is accepted and leaves the default in force |
| DeskSettings.FileHoldsLastSave | cpp/src/app/control_api_router.cpp:77-144 | after every run the file is the text of the settings at the last successful save, or the one at start-up |
| DeskSettings.RestartRestores | cpp/src/app/main.cpp:52-57 | a restart after any run with a successful save comes up with the last saved switch and its limits to six digits; those are the saved settings iff the limits have no more digits, and the saved settings are the live ones if the latest accepted change was written, whatever failed before |
| DeskSettings.RestartLosesDigits | cpp/src/app/app_support.cpp:309-319 | a single-order limit of 1234567 is accepted, applied and saved, and a restart comes up with 1234570 |
| DecimalText.ReadShow | cpp/src/app/app_support.cpp:298-319 | reading a printed number yields it rounded to six significant digits |
| DecimalText.SurvivesIffSixDigits | cpp/src/app/app_support.cpp:298-319 | a number is read back exactly iff it can be written with at most six significant digits |
| DecimalText.RoundedNear | cpp/src/app/app_support.cpp:309-319 | a printed number is off by at most half a unit in its sixth significant digit |
| DecimalText.NotationIs | cpp/src/app/app_support.cpp:309-319 | a positive number is printed with an exponent of at least two digits iff it rounds below 0.0001 or to a million or more; its decimals never end in a zero |
| Scanning.FindsFirstField | cpp/src/app/app_support.cpp:284-299 | first-match search for a key token stops at the first field with that key, never inside another key or a value |
| RuntimeState.LoadAfterSave | cpp/src/app/app_support.cpp:277-322 | loading saved text yields the saved switch and, per limit, what its printed text reads as, whatever was there before |
| RuntimeState.SavedTextIs | cpp/src/app/app_support.cpp:309-322 | the saved text, written out with its key names |
| RuntimeState.RestoresIffSixDigits | cpp/src/app/app_support.cpp:277-322 | saving and loading restores everything iff each limit has at most six significant digits |
| TradeJson.ExtractJsonValue | cpp/src/market/binance_ws_client.cpp:130-152 | the index loops compute the value text after the first match of the key's token |
| TradeJson.ExtractInvertsPrinting | cpp/src/market/binance_ws_client.cpp:130-152 | from any printed flat object, extraction yields the value of the first member with the key, or nothing |
| TradeJson.EveryMemberRecovered | cpp/src/market/binance_ws_client.cpp:99-104 | with distinct keys every member's value is recovered, in any member order |
| TradeJson.CutOffYieldsNothing | cpp/src/market/binance_ws_client.cpp:130-152 | a value cut off before its closing quote or separator is read as nothing |
| TradeJson.ParseTradeJson | cpp/src/market/binance_ws_client.cpp:99-118 | result and tick, on failure too, equal the specification ParsedTrade |
| TradeJson.TradeRecovered | cpp/src/market/binance_ws_client.cpp:99-118 | from any printed trade record, whatever its other members and their order: success iff symbol and price are not empty and the price and a present event time convert; the tick then carries the record's own symbol, price and event time and the feed as source; on failure exactly what had been assigned has changed |
| JsonLines.EscapeJson | cpp/src/logger/async_jsonl_logger.cpp:96-106 | the loop escapes the C string up to its NUL |
| JsonLines.EscapeRoundTrip | cpp/src/logger/async_jsonl_logger.cpp:96-106 | a reader stops at exactly the closing quote and yields the string; a strict reader accepts iff newline is the only control character |
| JsonLines.EscapeLength | cpp/src/logger/async_jsonl_logger.cpp:96-106 | escaping adds one character for each quote, backslash and newline, and nothing else |
| JsonLines.RecordIs | cpp/src/logger/async_jsonl_logger.cpp:49-58 | a record, written out with its key and level names |
| JsonLines.RecordRoundTrip | cpp/src/logger/async_jsonl_logger.cpp:50-58 | every record reads back as its event, its two values to six significant digits |
| JsonLines.FileGrows | cpp/src/logger/async_jsonl_logger.cpp:49-60 | writing one more event appends its record and a line end and changes nothing before it |
| JsonLines.OneLinePerEvent | cpp/src/logger/async_jsonl_logger.cpp:49-60 | the file has exactly one line per event, in order, each reading back as its event |
| LogProtocol.NothingLostOrReordered | cpp/src/logger/async_jsonl_logger.cpp:15-84 | in every interleaving accepted items are the written ones followed by the queued ones, attempts are accepted plus dropped |
| LogProtocol.OneWorkerPerStart | cpp/src/logger/async_jsonl_logger.cpp:15-23 | in every interleaving the flag is set iff the last call was a start; each start of a stopped logger, and no repeated one, gives one worker; each stop of a started one waits for one, which there is |
| LogProtocol.BatchCounts | cpp/src/logger/async_jsonl_logger.cpp:40-66 | in every interleaving a batch has counted exactly its pops since the flag was looked at, at most 256 |
| LogProtocol.RunConserves | cpp/src/logger/async_jsonl_logger.cpp:25-84 | from any state, an interleaving leaves written and queued together what they were, followed by what it accepted |
| LogProtocol.ProducerOrderKept | cpp/src/logger/async_jsonl_logger.cpp:25-31 | file and queue together hold each producer's accepted items in its order |
| LogProtocol.StopDrains | cpp/src/logger/async_jsonl_logger.cpp:44-84 | after the stop flag, with the file opening and no further successful push, the worker can always step until it ends, takes at most queue length plus a constant of steps, and ends with everything accepted written |
| LogProtocol.LeftBehindIffLate | cpp/src/logger/async_jsonl_logger.cpp:20-23 | when the worker has ended, the queue is what was accepted after its last look; everything is written iff that is nothing |
| LogProtocol.StopLosesLateEvent | cpp/src/logger/async_jsonl_logger.cpp:20-31 | a concrete interleaving in which an accepted event never reaches the file |
| LogProtocol.CompleteLogReadsBack | cpp/src/logger/async_jsonl_logger.cpp:37-84 | after a stop with no late push the file's lines read back as exactly the accepted events in push order |
| AsyncLogger.AsyncJsonlLogger.TryLog | cpp/src/logger/async_jsonl_logger.cpp:25-31 | one push step: queued, or counted as dropped |
| AsyncLogger.AsyncJsonlLogger.Start | cpp/src/logger/async_jsonl_logger.cpp:15-18 | one start step: nothing when running, otherwise flag and worker |
| AsyncLogger.AsyncJsonlLogger.SignalStop | cpp/src/logger/async_jsonl_logger.cpp:20-22 | one stop step: nothing when not running, otherwise the flag is cleared |
| AsyncLogger.AsyncJsonlLogger.WriteBatch | cpp/src/logger/async_jsonl_logger.cpp:45-66 | with other threads pushing before each pop: the batch loop is a run of the protocol with those pushes, at most 256 pops stopping short only at an empty queue, and the end-of-batch step; nothing is lost or reordered |
| AsyncLogger.AsyncJsonlLogger.WriteRest | cpp/src/logger/async_jsonl_logger.cpp:69-83 | with other threads pushing before each pop: the final drain is a run of the protocol with those pushes that pops until the queue is empty and ends the worker; everything queued by then is written in order |

## Left out

- HTTP server, WebSocket and REST transport, request signing, exchange order placement, the Qt client and the scripts: input and output over libraries whose code is not part of this model.
- Parsing of request bodies (`json_get_*`) and of the two configuration files: routes take their parameters already parsed, absent ones as `None`.
- Health, credentials and read-only routes, tick counters and clocks: they only read or report; times are parameters.
- IEEE rounding, NaN and infinity: numbers are `real`; an exact tie in printing is rounded away from zero, and the number reader knows decimal notation only.
- Wrap-around of the 64-bit ids and counters, and casting a negative or fractional request number to an id.
- Data races: every call is one atomic step; the lock-free queue is a FIFO whose push may fail; start and stop are called one after the other.
- The core's log calls: the logger is modelled on its own, and nothing the core does depends on it.
- A failed settings write leaves the old file as it was; partial writes are not modelled.
- The account's equity and day loss are parameters of a run and constant in it, as nothing in the code changes them; the service object starts with the code's 1000 and 0.
- The service never routes exchange fills to the strategy; fill events are events of the strategy's own runs, and a fill is matched by grid id only, as in the code.
- Order status and reject reason texts and event texts: the caches hold the enumerated values.
- The logger object keeps the written items, whose text is `JsonLines.FileText`, in place of an output stream.
- DecimalText.ReadShow: one number format, the stream default, is modelled; other formats are covered by `RuntimeState.LoadAfterSave` for any printer that avoids quotes, commas and closing braces.
