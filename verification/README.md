# Maker trade engine: a verified model

Maker is a trading front end for the Binance exchange.  Its core is a service that owns a set of trades: it posts
their buy and sell orders, follows the execution reports the exchange sends back (in whatever order they arrive),
watches the price stream for stop losses and trailing profits, keeps one price stream per symbol in use, and picks
everything up again after a restart.  This project models that core in Dafny and proves what it keeps.

The model has two layers.

* **Objects.**  `Trade`, `TradeStreamManager` and `TradeService` are classes with the fields of the original and
  methods that update them in place: the fill loops, the two maps of the service, the tick loop over all trades, the
  recovery loop over the saved ones.  Every method is proved to do exactly what a function on values says.
* **Values.**  `TradeState` (one trade), `Tracked` (a trade with the log of everything it asked of the outside),
  `Engine` (all trades, the index by client ID, the stream counts) and `StreamState` (counts and stream goroutines
  as program counters) are immutable; `Apply`, `Step` and `StreamStep` are their transitions.  What the service
  promises over whole runs is proved about these.

| file | content |
|---|---|
| `numbers.dfy`, `fills.dfy` | rounding, unguarded division, sums over fills |
| `tradestate.dfy`, `trade.dfy` | the trade: values and aggregates; the mutable object |
| `pricing.dfy`, `pricelaws.dfy` | lot size, limit sell price, profit estimate, and their bounds |
| `tradeops.dfy`, `tradelaws.dfy`, `costlaws.dfy`, `booklaws.dfy` | every operation on one trade; fills, aggregates and quantities over runs, in the figures of the exchange |
| `requestlaws.dfy` | what a trade asks of the exchange, how much it puts up for sale, automatic sells |
| `settinglaws.dfy`, `reportlaws.dfy` | the limit sell, and what a trade shows of orders and prices, over every run |
| `ticklaws.dfy` | stop loss and trailing profit over every run |
| `confluence.dfy`, `unnamedfills.dfy` | reports out of order |
| `streams.dfy` | reference-counted streams and their goroutines |
| `engine.dfy`, `enginelaws.dfy`, `streamlaws.dfy`, `livestreams.dfy` | the service over all trades: index, routing, reference counts, and its goroutines |
| `service.dfy`, `handlers.dfy` | the service object; the handlers that drive it |
| `restore.dfy`, `recoverylaws.dfy`, `restartlaws.dfy` | recovery after a restart, and its agreement with live reports; how trades enter and leave the service |
| `instances.dfy` | two buys in figures, and small inputs on which properties fail |
| `flatten.dfy`, `password.dfy` | configuration flattening; the password record |

Whatever the outside answers is a parameter: whether a request succeeds and which order ID is made (`SellOracle`,
`TickOracle`), the exchange's orders and trade histories (`Exchange`), the time, whether the database took a trade.

## Where the code does less than it means to

The model follows the code.  Where a property one would expect fails, the exact condition under which it holds is
proved, usually beside a concrete case.

* The fee a trade ends with is that of the fill that *arrived* last.  Fee and outcome are independent of the order of
  arrival exactly when all fills were charged at one rate (`FeeIgnoresOrderIffOneRate`,
  `OutcomeIgnoresOrderIffOneRate`; `MixedCommissions`).
* A fill that names no commission asset does not refresh the sellable quantity, so the order of arrival matters unless
  such fills complete no lot (`OutcomeIgnoresOrderIff`).
* A limit sell is posted as soon as FILLED arrives.  Fills that arrive later are missing from it, unless they complete
  no further lot (`LimitSellMissesLateFills`; `LateFillUnsold`).
* A stop loss and a trailing profit that fire on one tick sell twice: each posts a market order for all that is left
  (`TwoSalesOnOneTickIff`).
* A NEW report for a sell order that arrives after FILLED is not noted: order ID and terms stay what they were
  (`SellTermsUnlessFilledFirst`).
* Every report after the FILLED sell report drops the stream of the symbol again, so the drop happens once exactly when
  FILLED arrives last (`StreamDropsCountLateReports`).  A late report can also reopen a closed trade.  The count of a
  stream is the number of its open trades exactly until a step reopens a closed trade or drops a stream that is still
  needed (`ExactIffHarmless`); from then on an open trade can be without its stream (`LateFillLosesStream`).
* A symbol that is removed and added back before its goroutine looks has two streams
  (`OneStreamIffNeverAddedTooSoon`).
* A dust trade can be offered below its buy price, one-tick repair included (`DustLimitSellBelowBuyPrice`; exactly when:
  `LimitSellAboveBuyPriceIff`).
* A limit sell at a percentage of a trade with nothing to sell is posted at an infinite price (`LimitSellOfNothing`).
* A limit sell at a fixed price offers the whole sellable quantity, more than is left exactly when something was sold
  before (`FixedPriceOversellsIff`).
* A market sale (`SaleRequests`) and a stop loss (`StopLossRequests`) from PENDING_SELL cancel the pending order twice.
* Recovery appends the fills it finds in the exchange's history to those recorded before: a trade with recorded fills
  counts them twice (`RecoveredBuyMatchesReports`, `RecoveredSellMatchesReports`; `RecordedBuyCountsTwice`,
  `RecordedSaleStaysOpen`).  It triggers no limit sell.
* Recovery closes a sold trade only when the quantity sold equals the quantity bought.  When the whole sellable quantity
  was sold, that is when the last buy commission was paid in BNB or the quantity bought is a whole number of lot steps
  (`WholeSaleRecoversIff`); live reports close it in any case.
* Recovery does not catch up with everything: not with a NEW trade's order that was partially filled or canceled, a
  PENDING_BUY trade's that was filled or canceled, nor the fills of a partial sale (`RecoveryCatchesUpIff`,
  `RecoveredFillsIff`).
* Decoding a password record does not notice a malformed salt: the error of the second `decode` overwrites that of the
  first (`DecodeOkOnLastPart`).

## Model

| member | source | states |
|---|---|---|
| Numbers.RoundIsNearest | go/util/round.go:5-7 | rounding moves a number by at most one half |
| Numbers.RoundxNear | go/util/round.go:5-7 | `Roundx(v, 1/unit)` is a whole number of units at most half a unit away from v, for every positive unit |
| Numbers.RoundxOfSteps | go/util/round.go:5-7 | rounding to a grid leaves a point of the grid alone |
| Numbers.Round8Within | go/types/trade.go:195-197 | eight-decimal rounding lands on the grid, at most half a unit of the eighth decimal away |
| Numbers.Round8FixesGrid | go/types/trade.go:195-197 | it changes a number exactly when the number is off the grid |
| Fills.SumPermutation | go/types/trade.go:163-193 | what the fill loops accumulate does not depend on the order of the fills |
| TradeModel.BuyAggregatesOfPermutation | go/types/trade.go:163-193 | the five buy aggregates are determined by the multiset of fills and the commission kind of the last one |
| TradeModel.SellAggregatesOfPermutation | go/types/trade.go:137-161 | likewise the sell aggregates and, at equal buy cost, the profit |
| TradeModel.ReloadOfSettled | go/types/trade.go:45-55 | reloading a state whose aggregates match its fills touches at most the profit, is the identity exactly when the profit matches the buy cost, and is idempotent |
| Trades.Trade.NewTrade | go/types/trade.go:33-43 | NEW, opened now, at the default fee, and everything else empty, zero or off |
| Trades.Trade.NewTradeWithState | go/types/trade.go:45-55 | the sell aggregates are recomputed before the buy aggregates |
| Trades.Trade.IsDone | go/types/trade.go:57-67 | true exactly for DONE, CANCELED, FAILED and ABANDONED |
| Trades.Trade.FeeAsset | go/types/trade.go:82-88 | the commission asset of the last buy fill, empty without fills |
| Trades.Trade.SetLimitSellByPercent | go/types/trade.go:90-94 | changes three limit sell fields and nothing else |
| Trades.Trade.SetLimitSellByPrice | go/types/trade.go:96-100 | changes three limit sell fields and nothing else |
| Trades.Trade.SetStopLoss | go/types/trade.go:102-105 | the settings change, the latch does not |
| Trades.Trade.SetTrailingProfit | go/types/trade.go:107-111 | the settings change; activation, recorded high and latch do not |
| Trades.Trade.AddClientOrderID | go/types/trade.go:133-135 | the ID joins the trade's set |
| Trades.Trade.DoAddBuyFill | go/types/trade.go:123-126 | the fill is appended and the aggregates are those of all fills |
| Trades.Trade.DoAddSellFill | go/types/trade.go:128-131 | the fill is appended and the aggregates are those of all fills |
| Trades.Trade.UpdateSellState | go/types/trade.go:137-161 | the loop computes the sums over the sell fills; nothing changes when they sold nothing |
| Trades.Trade.UpdateBuyState | go/types/trade.go:163-193 | the loop computes the sums over the buy fills and the fee of the last; nothing changes when they delivered nothing |
| PriceLaws.FixQuantityIsFloor | go/tradeservice/tradeservice.go:933-939 | the lot size adjustment is exactly the floor to a multiple of the step, for every quantity and step |
| PriceLaws.LimitSellAboveBuyPrice | go/tradeservice/tradeservice.go:692-708 | with 8-decimal fills, a tick of at least 1e-8, a percentage of at least 0 and a cost whose fee exceeds half a unit of the eighth decimal (so with any cost from 1e-5 on), the limit sell price is on the tick grid and strictly above the effective buy price |
| PriceLaws.LimitSellAboveBuyPriceIff | go/tradeservice/tradeservice.go:691-708 | for every trade with something to sell and every tick, cost, fee and percentage: the posted price beats the effective buy price exactly when the marked-up cost pays for the sellable quantity at half a tick below the tick the effective buy price lies on (if it is negative: at more than that) |
| PriceLaws.LimitSellOfNothing | go/tradeservice/tradeservice.go:691-708 | with nothing to sell the posted price is infinite, or not a number for a cost of nothing |
| PriceLaws.DustLimitSellBelowBuyPrice | go/tradeservice/tradeservice.go:692-708 | a concrete trade of cost 1e-8 that is offered at 0.00000011 after buying at 0.00000014 |
| PriceLaws.LimitSellProfitBounds | go/tradeservice/tradeservice.go:95-100 | at the price posted for percent p, the profit estimate is between p - (100+p)*fee^2 - 50 and + 150 times the relative net value of one tick, repaired or not |
| PriceLaws.EstimateMatchesOutcome | go/types/trade.go:137-161 | selling the whole sellable quantity at price p for BNB, in any split, realises the estimate for p up to 0.5e-8*100/cost + 0.5e-8 |
| TradeLaws.RunAggregates | go/types/trade.go:113-193 | after any run, the fills are those the run's fill reports (and recoveries) brought, in order, and all aggregates match them |
| TradeLaws.ReloadIsFixpoint | go/types/trade.go:45-55 | in every reachable state reloading keeps all fill aggregates and the fee, and is idempotent |
| TradeLaws.ReloadAfterSellFill | go/types/trade.go:45-55 | and keeps the profit whenever no buy fill came after the last sell fill, whatever else did; without a price tick since, the reload is exact |
| TradeLaws.ReloadKeepsProfit | go/types/trade.go:45-55 | the same for every run without buy fills from a state whose profit is up to date |
| TradeLaws.ApplySides | go/types/trade.go:113-193 | an operation that records no buy fill leaves all buy aggregates alone, one that records no sell fill all sell aggregates and the profit |
| TradeLaws.NewTradeIsBlank | go/types/trade.go:33-55 | a new trade has no past, and a reload leaves it alone |
| TradeLaws.LifeOfATrade | go/types/trade.go:33-193 | from a new trade on, over every run: the fills are those reported or recovered, the aggregates those of the fills, and of proper fills no more is sellable than was bought |
| TradeLaws.RunBounded | go/tradeservice/tradeservice.go:339-352 | with commissions between 0 and the quantity, 0 <= sellable <= bought holds in every reachable state, failed step lookups included |
| BookLaws.BooksAreTotals | go/types/trade.go:113-193 | from a trade without fills, over every run: the books are the rounded totals of what reports and histories say, in the fields of these (executed price and quantity, commission): delivered quantity, average price, cost with a BNB commission on top, effective price; sold quantity, average price, proceeds |
| BookLaws.CostAtOnePrice | go/types/trade.go:163-193 | fills at one price p of quantity q in total: for BNB the cost is 1.00075 * p * q, otherwise p * q for q less the commissions |
| BookLaws.ProfitBetweenPrices | go/types/trade.go:137-161 | buying and selling one quantity for BNB earns the difference of the prices less both commissions, up to two roundings; at one price it loses both |
| Instances.ThreeAtTwo | go/types/trade.go:113-193 | three units at price two for BNB: quantity 3, average 2, cost 6.0045, fee 0.00075 |
| Instances.ThreeAtTwoLessCommission | go/types/trade.go:113-193 | the same with a commission of a tenth of a unit: quantity 2.9, cost 6, fee 0.001 |
| CostLaws.ProfitIsANumber | go/tradeservice/tradeservice.go:95-100 | from a new trade on: if buy fills deliver something at a price that does not round to nothing, sell reports follow a buy fill and a recovered FILLED order has a fill, then a trade in WATCHING or PENDING_SELL has buy fills and a positive cost, and its profit estimate is a number at every price |
| RequestLaws.RunRequests | go/tradeservice/tradeservice.go:642-675 | over every run, each order is posted under an ID registered before, and the automatic sells started are exactly the latches set: at most one stop loss and one trailing profit |
| RequestLaws.PostedQuantities | go/tradeservice/tradeservice.go:683-811 | every sell order any operation posts asks for sellable minus sold, except that a fixed-price limit sell asks for all that was ever sellable |
| RequestLaws.FixedPriceOversellsIff | go/tradeservice/tradeservice.go:776-811 | over the life of a trade, a fixed-price limit sell offers more than is left exactly when some sell fill was recorded before |
| RequestLaws.StopLossRequests | go/tradeservice/tradeservice.go:141-162 | exactly what a stop loss sends: from PENDING_SELL two cancels, one before the sale starts and one as part of it; nothing when it does not fire |
| SettingLaws.LimitSellAfter | go/tradeservice/tradeservice.go:878-907 | what one operation makes of the limit sell: an accepted sale at a percentage notes percentage and posted price, a handler names new terms, and everything else changes at most the switch: off exactly if a cancellation is accepted or a handler says so |
| SettingLaws.LimitSellOnIff | go/tradeservice/tradeservice.go:590-618 | over every run the limit sell is on exactly if it was turned on, or on from the start, and not turned off since |
| SettingLaws.CanceledStaysQuiet | go/tradeservice/tradeservice.go:878-907 | after an accepted cancellation no report makes the trade send anything until a handler turns the limit sell on |
| ReportLaws.BuyOrderIsLastNew | go/tradeservice/tradeservice.go:490-502 | after every run the trade shows ID, quantity, price and time of the last NEW buy report, and a cancellation of the buy names that order |
| ReportLaws.SellOrderIsLastNew | go/tradeservice/tradeservice.go:525-541 | likewise the sell order of the last NEW report that found the trade not DONE |
| ReportLaws.BuyStatusIsFurthest | go/tradeservice/tradeservice.go:490-522 | after every run, in whatever order reports came, the status of the buy order is the furthest reached since the last CANCELED |
| ReportLaws.SellStatusIsFurthest | go/tradeservice/tradeservice.go:524-573 | likewise that of the sell order, since the last report that replaces it |
| ReportLaws.PriceIsLastTick | go/tradeservice/tradeservice.go:112-130 | after every run the price is that of the last tick that found the trade for sale, and until something is sold the profit is the estimate at it |
| ReportLaws.ClosedByReport | go/tradeservice/tradeservice.go:487-584 | the status after a report, by side, report and status before; the close time is stamped and the stream given back exactly if that is DONE, CANCELED or FAILED |
| ReportLaws.AbandonedOnce | go/tradeservice/tradeservice.go:290-301 | abandoning closes an open trade and does nothing to a closed one; abandoning again or a tick changes nothing |
| TickLaws.LosesMeans | go/tradeservice/tradeservice.go:151-151 | the stop loss test in money: price*sellable*(1-fee)*100 < cost*(100-percent) |
| TickLaws.GainsMeans | go/tradeservice/tradeservice.go:202-202 | the activation test in money: price*sellable*(1-fee)*100 > cost*(100+percent) |
| TickLaws.TestsWithoutCost | go/tradeservice/tradeservice.go:95-100 | both tests divide by the cost: when it is zero, any net loss fires the one, any proceeds activate the other |
| TickLaws.TickStep | go/tradeservice/tradeservice.go:112-215 | one tick advances stop loss and trailing profit independently of each other |
| TickLaws.ApplyAutoSells | go/tradeservice/tradeservice.go:112-215 | and no other operation moves them, but for their settings |
| TickLaws.TickSends | go/tradeservice/tradeservice.go:141-215 | exactly what one tick sends: the stop loss' sale, then the trailing profit's, both for the trade as the tick found it |
| TickLaws.TwoSalesOnOneTickIff | go/tradeservice/tradeservice.go:126-139 | a tick posts two market orders exactly when it sets both latches and both IDs can be made; together they ask for twice what is left |
| TickLaws.StopLossFiresAtFirstLoss | go/tradeservice/tradeservice.go:141-162 | over every run of reports, ticks, settings and commands, the stop loss has fired exactly if it had before or some tick that found the trade for sale met too large a loss, by the settings, the cost and the quantity of then |
| TickLaws.StopLossStartsOnce | go/tradeservice/tradeservice.go:141-162 | its sale is started exactly at the first such tick: not before, at it, never again |
| TickLaws.StopLossOverTicks | go/tradeservice/tradeservice.go:141-162 | while nothing but ticks happens: exactly if one of their prices loses more than allowed |
| TickLaws.TrailingProfitTracksPrices | go/tradeservice/tradeservice.go:164-215 | over every run of reports, ticks, settings and commands, on the ticks that find the trade for sale with the trailing profit on: activated at the first profit above the percentage in force, the recorded high is the maximum of the later prices, and the sell comes exactly at the first later drop beyond the deviation in force |
| TickLaws.TrailingProfitOverTicks | go/tradeservice/tradeservice.go:164-215 | while nothing but ticks happens: read off their prices |
| Confluence.BuyConfluence | go/tradeservice/tradeservice.go:457-522 | every reordering of the reports of a buy order (one NEW, commissions in assets of one kind) leaves the same state up to the order of the fills and the price of a limit sell it triggered; with FILLED among them, WATCHING |
| Confluence.OutcomeIgnoresOrderIffOneRate | go/tradeservice/tradeservice.go:457-522 | when every fill names its commission asset, the outcome is independent of the order of arrival exactly when all fills were charged at one rate |
| UnnamedFills.OutcomeIgnoresOrderIff | go/tradeservice/tradeservice.go:339-352 | whatever assets the fills name or fail to name: exactly when, besides, what the unnamed fills deliver completes no further lot |
| UnnamedFills.LastEffective | go/tradeservice/tradeservice.go:339-352 | the sellable quantity is the one the fills up to the last that names its asset call for |
| UnnamedFills.ConfluenceUpToSellable | go/tradeservice/tradeservice.go:457-522 | at one rate, nothing but the sellable quantity can depend on the order |
| Instances.MixedCommissions | go/types/trade.go:188-191 | two fills, two fees |
| Confluence.LimitSellMissesLateFills | go/tradeservice/tradeservice.go:516-522 | the order a limit sell posts when FILLED arrives, quantity and price: for the fills up to then; it asks for everything exactly when what the later fills deliver completes no further lot |
| Confluence.LimitSellCompleteIffNoLateFill | go/tradeservice/tradeservice.go:516-522 | with BNB commissions: exactly when no fill arrives after FILLED |
| Instances.LateFillUnsold | go/tradeservice/tradeservice.go:516-522 | two units bought, one put up for sale |
| Confluence.FeeIgnoresOrderIffOneRate | go/types/trade.go:188-191 | with mixed commissions, the fee is independent of the order of arrival exactly when all fills were charged at one rate |
| Confluence.SellConfluence | go/tradeservice/tradeservice.go:524-562 | every reordering of the reports of a sell order with FILLED among them ends DONE with the same proceeds and profit |
| Confluence.SellableAfterBuys | go/tradeservice/tradeservice.go:339-352 | after any run of buy reports that brought fills, everything bought is sellable for BNB commissions, otherwise the largest multiple of the step that fits, and nothing changes when the step is unknown |
| Confluence.SellTermsUnlessFilledFirst | go/tradeservice/tradeservice.go:526-541 | the sell order's ID and terms are those of its NEW report, wherever it arrives, unless FILLED came first: then they are never noted |
| Confluence.LateNewsLeavesNoTrace | go/tradeservice/tradeservice.go:527-530 | any number of reports without fills after the FILLED one change only the close time |
| Confluence.StreamDropsCountLateReports | go/tradeservice/tradeservice.go:576-584 | FILLED and every later report drop the stream once each, so exactly once in all if and only if FILLED arrives last |
| Streams.TradeStreamManager.AddSymbol | go/binanceex/tradestreammanager.go:62-73 | the count goes up; a goroutine starts exactly when the symbol was not counted |
| Streams.TradeStreamManager.RemoveSymbol | go/binanceex/tradestreammanager.go:75-88 | the count goes down, and away at one |
| Streams.TradeStreamManager.StreamRefCount | go/binanceex/tradestreammanager.go:90-98 | the count, zero for unknown symbols |
| Streams.TradeStreamManager.RunStream | go/binanceex/tradestreammanager.go:100-157 | one atomic step of one goroutine is the transition of its program counter and touches nothing else |
| Streams.NoLostStream | go/binanceex/tradestreammanager.go:62-136 | for every interleaving, a stored count is at least one and a counted symbol has a goroutine that has not decided to exit |
| Streams.DroppedStreamEnds | go/binanceex/tradestreammanager.go:100-136 | a goroutine whose symbol is dropped for good exits within four of its own steps, whatever is interleaved |
| Streams.DisconnectsIff | go/binanceex/tradestreammanager.go:100-136 | a goroutine disconnects exactly when reading fails or after it found its symbol not counted; none exits with its connection open |
| Streams.OneStreamIffNeverAddedTooSoon | go/binanceex/tradestreammanager.go:62-136 | over every run, a symbol has at most one live goroutine all along exactly when it is never added back while an old one has not noticed its removal |
| Streams.SecondStreamIffAddedTooSoon | go/binanceex/tradestreammanager.go:62-73 | of one step: it creates a second live goroutine exactly when it adds the symbol back too soon |
| Streams.TwoStreamsForOneSymbol | go/binanceex/tradestreammanager.go:62-88 | three calls lead to two live goroutines for one symbol |
| Streams.CountedStreamDelivers | go/binanceex/tradestreammanager.go:100-136 | while its symbol stays counted a goroutine stays alive and hands out one message per three of its own steps that failures of opening or reading do not cost it |
| Streams.SameStreamIff | go/binanceex/tradestreammanager.go:62-73 | two symbols share a stream exactly when they differ at most in case |
| EngineLaws.RunAgreement | go/tradeservice/tradeservice.go:303-425 | in every run with fresh IDs the index holds exactly the client IDs of the live trades, each leading to its owner |
| EngineLaws.RouteIsScan | go/tradeservice/tradeservice.go:440-455 | a lookup finds exactly the trade a linear scan finds, by client ID first and by original client ID if no trade has the first |
| EngineLaws.Demultiplexing | go/tradeservice/tradeservice.go:459-588 | in every run, whatever is interleaved, a live trade is what its own operations in order make of it |
| EngineLaws.ProjectedBooks | go/types/trade.go:123-193 | its fills are the in-order projection of the run to its own fill reports, and its aggregates the sums over them |
| EngineLaws.RunOwnsPosts | go/tradeservice/tradeservice.go:323-331 | every order ever posted for a live trade carries a client ID of that trade |
| EngineLaws.PostedOrdersAreRoutable | go/tradeservice/tradeservice.go:440-455 | so a report for it reaches that trade, in every run, until the trade is archived |
| EngineLaws.ServiceFromStart | go/tradeservice/tradeservice.go:65-85 | all of this from the state the constructor leaves, with every trade's aggregates those of its fills |
| StreamLaws.ApplyReleases | go/tradeservice/tradeservice.go:626-634 | an open trade closes (for whichever reason) exactly when the operation gives its stream reference back |
| StreamLaws.NoStreamHeldForNothing | go/binanceex/tradestreammanager.go:62-88 | in every run, late reports included, no symbol is counted more often than it has open trades |
| StreamLaws.CountsAreOpenTrades | go/tradeservice/tradeservice.go:354-393 | if no report reaches a closed trade and only open trades fail, each count is the number of open trades, absent exactly at zero |
| StreamLaws.CommitExactIffHarmless | go/tradeservice/tradeservice.go:576-584 | one operation keeps every count equal to the number of open trades exactly when it is harmless: on a closed trade, it neither reopens it nor gives back a stream an open trade needs, both known from status, bought quantity and report before the operation |
| StreamLaws.HarmStealsOneReference | go/tradeservice/tradeservice.go:576-584 | any other operation leaves the stream of that trade, and no other, counted exactly once too little |
| StreamLaws.ExactIffHarmless | go/tradeservice/tradeservice.go:354-393 | over every run, the counts are exact all along if and only if every step is harmless |
| StreamLaws.LateFillLosesStream | go/tradeservice/tradeservice.go:576-584 | four events from the start of the service after which a trade is open and its stream not counted |
| StreamLaws.CountsFromStart | go/binanceex/tradestreammanager.go:62-88 | these laws from the state the constructor leaves |
| LiveStreams.OpenTradesAreServed | go/binanceex/tradestreammanager.go:62-136 | the service and its goroutines interleaved in any way, from the start: while every event is harmless, each open trade's symbol has a live goroutine |
| RestartLaws.RunCurrent | go/tradeservice/tradeservice.go:339-352 | over every run working out the sellable quantity again changes nothing |
| RestartLaws.RestartKeepsTrade | go/tradeservice/tradeservice.go:354-365 | a trade saved at any moment of its life and put back loses nothing but profit figures of an outdated cost; it takes a stream exactly if it is open |
| RestartLaws.NewTradeEnters | go/tradeservice/tradeservice.go:367-408 | a trade enters as NEW under its own or the new ID, keeps a price it has and takes the ticker's otherwise |
| RestartLaws.LiveUntilArchived | go/tradeservice/tradeservice.go:303-315 | over every run a trade stays in the service exactly until it is archived: closed, and taken by the database |
| StreamLaws.ClosedTradesAreTimed | go/tradeservice/tradeservice.go:626-634 | in every run each closed trade has a close time |
| TradeServices.TradeService.constructor | go/tradeservice/tradeservice.go:65-85 | the service starts without trades, index and streams |
| TradeServices.TradeService.ViewAgrees | go/tradeservice/tradeservice.go:45-54 | whenever the two maps are consistent, the index agrees with the trades |
| TradeServices.TradeService.AddClientOrderId | go/tradeservice/tradeservice.go:323-331 | trade and index learn the ID together, before anything is posted |
| TradeServices.TradeService.PostOrder | go/tradeservice/tradeservice.go:660-673 | may only be called for an order whose ID already leads to the trade |
| TradeServices.TradeService.UpdateSellableQuantity | go/tradeservice/tradeservice.go:339-352 | by fee asset; a failed step lookup changes nothing |
| TradeServices.TradeService.CancelSell | go/tradeservice/tradeservice.go:878-907 | one cancellation of the sell order is sent; the limit sell is disabled exactly when the exchange accepts, its terms stay |
| TradeServices.TradeService.CancelBuy | go/tradeservice/tradeservice.go:915-930 | one request, no change of state |
| TradeServices.TradeService.MarketSell | go/tradeservice/tradeservice.go:642-675 | cancel, register, post in this order; success exactly when an ID was made and the order accepted |
| TradeServices.TradeService.LimitSellByPercent | go/tradeservice/tradeservice.go:683-768 | price, quantity and order of requests, which failures leave the trade untouched, and success exactly when the symbol is listed, an ID was made and the order accepted; then, and only then, percentage and price are noted |
| TradeServices.TradeService.LimitSellByPrice | go/tradeservice/tradeservice.go:776-811 | the same at a given price; success exactly when an ID was made and the order accepted |
| TradeServices.TradeService.TriggerLimitSell | go/tradeservice/tradeservice.go:590-618 | dispatch on the limit sell settings |
| TradeServices.TradeService.CheckStopLoss | go/tradeservice/tradeservice.go:141-162 | the latch is set before the sale starts |
| TradeServices.TradeService.CheckTrailingProfit | go/tradeservice/tradeservice.go:164-215 | raise the high, or fire, or activate: at most one of the three |
| TradeServices.TradeService.OnLastTradeOf | go/tradeservice/tradeservice.go:112-139 | one trade's share of a tick |
| TradeServices.TradeService.OnLastTrade | go/tradeservice/tradeservice.go:112-139 | the loop over all trades, in any order, is one simultaneous step of all of them; index and trades stay in agreement |
| TradeServices.TradeService.OnBuyReport | go/tradeservice/tradeservice.go:490-522 | the buy half of a report |
| TradeServices.TradeService.OnSellReport | go/tradeservice/tradeservice.go:524-573 | the sell half of a report |
| TradeServices.TradeService.FindTradeForReport | go/tradeservice/tradeservice.go:440-455 | returns the object of the trade the report is routed to, or null |
| TradeServices.TradeService.HandleReport | go/tradeservice/tradeservice.go:489-584 | the stream is dropped exactly when the report leaves the trade DONE, CANCELED or FAILED |
| TradeServices.TradeService.OnExecutionReport | go/tradeservice/tradeservice.go:459-588 | updating one object in place is one step of the whole service: no other trade changes, the maps stay consistent |
| TradeServices.TradeService.CloseTrade | go/tradeservice/tradeservice.go:626-634 | status, close time (now when none is given) and one stream reference |
| TradeServices.TradeService.AbandonTrade | go/tradeservice/tradeservice.go:296-301 | does nothing to a closed trade, stream included |
| TradeServices.TradeService.Execute | go/tradeservice/tradeservice.go:814-930 | every command of a handler on a live trade is one step of the whole service |
| TradeServices.TradeService.AddNewTrade | go/tradeservice/tradeservice.go:367-408 | a trade with new IDs enters as NEW with all its client IDs indexed and one stream reference |
| TradeServices.TradeService.RestoreTrade | go/tradeservice/tradeservice.go:354-365 | a saved trade enters; it takes a stream reference exactly if it is open |
| TradeServices.TradeService.RemoveTrade | go/tradeservice/tradeservice.go:416-425 | the deletion loop removes the trade and exactly its client IDs |
| TradeServices.TradeService.ArchiveTrade | go/tradeservice/tradeservice.go:303-315 | only closed trades leave, and only when the database took them |
| Handlers.PostBuyHandler | go/server/handlers.go:635-752 | the trade is registered, then the order posted, then a refusal fails the trade; without an ID or a price nothing happens |
| Handlers.BuyOutcome | go/server/handlers.go:635-752 | a buy request opens one trade with the stop loss, trailing profit and limit sell asked for, that owns and has sent exactly one limit order: to buy the requested quantity of the symbol at the price found; it touches no other trade; a refused one is FAILED, timed, and leaves all stream counts as they were |
| Handlers.ReadyBeforePosting | go/server/handlers.go:635-752 | posting is the last step of an accepted request; by then the trade is live under the ID of its order and carries everything asked for |
| Handlers.SellHandler | go/server/handlers.go:265-468 | each sell handler makes the calls its status switch prescribes, and none for an unknown trade |
| Handlers.SaleRequests | go/server/handlers.go:265-468 | exactly which requests reach the exchange, in order, for each handler and status, unlisted symbols and failing IDs included |
| Handlers.SaleSettings | go/server/handlers.go:265-468 | before anything was bought a limit sale becomes a setting and a cancellation turns it off; later a cancellation turns it off exactly if the exchange accepts |
| Recovery.FetchHistory | go/server/restoretrades.go:57-64 | caching histories is invisible: the answer is always the exchange's |
| Recovery.RecoverNewTrade | go/server/restoretrades.go:52-103 | the switch for a trade saved in NEW, with its history loop |
| Recovery.RecoverPendingSell | go/server/restoretrades.go:123-181 | the switch for a trade saved in PENDING_SELL; the stream is dropped exactly if the trade closes |
| Recovery.RecoverTrade | go/server/restoretrades.go:41-183 | the loop body; a failed lookup of a NEW trade skips the rest |
| Recovery.RestoreTrades | go/server/restoretrades.go:28-187 | restoring any list of saved trades with distinct IDs is the run that enters and recovers them one by one |
| Recovery.RestartBringsBack | go/server/restoretrades.go:28-187 | after a restart exactly the saved trades have joined, each as it was saved, but for profit figures of an outdated cost, and caught up with its order |
| RecoveryLaws.RecoveredBuyMatchesReports | go/server/restoretrades.go:41-103 | a trade saved in NEW and filled meanwhile recovers the fills of any order of the live reports exactly when none was recorded before it was saved; then also aggregates and sellable quantity, and the status exactly when NEW or FILLED was among the reports |
| RecoveryLaws.RecoveredSellMatchesReports | go/server/restoretrades.go:123-181 | a trade in PENDING_SELL and sold meanwhile recovers the fills of the live reports exactly when none was recorded before; then also proceeds and profit; it is DONE exactly if the quantity counted, recorded fills twice, equals the quantity bought |
| RecoveryLaws.WholeSaleRecoversIff | go/server/restoretrades.go:159-172 | if the whole sellable quantity was sold, that is exactly when the last buy commission was in BNB or the quantity bought is a whole number of steps |
| RecoveryLaws.RecoveryCatchesUpIff | go/server/restoretrades.go:41-172 | one report missed while the trade waits for its order: for each status of trade and order, whether recovery ends in the status the report would have led to; a canceled sale is back in WATCHING, an accepted buy in PENDING_BUY |
| RecoveryLaws.RecoveredFillsIff | go/server/restoretrades.go:52-158 | and exactly when it ends with the same fills |
| Instances.RecordedBuyCountsTwice | go/server/restoretrades.go:41-103 | one recorded unit and one more: live reports count two, recovery three |
| Instances.RecordedSaleStaysOpen | go/server/restoretrades.go:123-181 | live reports close the trade, recovery leaves it in PENDING_SELL |
| FlattenedJson.FlattenJson | webapp/src/app/maker-api.service.ts:114-137 | the recursive loops compute one table in which later members overwrite earlier ones, on every tree |
| FlattenedJson.NestedLeaf | webapp/src/app/maker-api.service.ts:125-131 | a leaf two levels down is found under its two keys with a dot between them |
| FlattenedJson.FlattenIsLeaves | webapp/src/app/maker-api.service.ts:114-137 | with dot-free keys the table holds exactly the dotted leaf paths with the values of the leaves |
| FlattenedJson.EveryEntryIsALeaf | webapp/src/app/maker-api.service.ts:114-137 | whatever the keys are, no entry is invented: each is some leaf under its dotted path |
| FlattenedJson.FlattenDeterminesTree | webapp/src/app/maker-api.service.ts:114-137 | two trees with dot-free keys, no empty objects and no nulls have the same table exactly if they are the same tree up to member order |
| FlattenedJson.DottedKeysCollide | webapp/src/app/maker-api.service.ts:125-131 | with a dotted key two different trees have the same table |
| FlattenedJson.EmptyObjectsVanish | webapp/src/app/maker-api.service.ts:122-124 | an empty object or a null leaves no trace |
| Passwords.DecodePrinted | go/auth/auth.go:68-88 | decoding a printed record recovers its type, salt and hash, for every salt, hash and type without `$` |
| Passwords.CheckEncoded | go/auth/auth.go:53-66 | a password is accepted exactly if it has the same hash, under the stored salt, as the encoded one |
| Passwords.CheckPasswordIff | go/auth/auth.go:53-66 | for every record: an error exactly without three parts or hex in the last; accepted exactly if the type is argon2id and the hashes agree; another type rejects every password |
| Passwords.StoredRecord | go/auth/auth.go:45-88 | a concrete record, printed and read |
| Passwords.DecodeOkOnLastPart | go/auth/auth.go:68-78 | decoding reports success exactly for three parts whose last is hex of even length, whatever the salt looks like |
| Passwords.PrintDecodedIff | go/auth/auth.go:68-88 | a record that decodes is reproduced by printing exactly if both hex parts are lower-case hex |
| Passwords.DecodeOkIff | go/auth/auth.go:49-51 | a string decodes exactly if it is hex of even length |
| Passwords.EncodeDecodeIff | go/auth/auth.go:45-51 | encoding undoes decoding exactly on lower-case hex |
| Passwords.HexStringIff | go/auth/auth.go:49-51 | what counts as hex: an even number of digits and letters a to f of either case |
| Passwords.DecodeIgnoresCase | go/auth/auth.go:49-51 | upper-case hex decodes to the same bytes |

## Left out

- Floating point: all numbers are exact; a division whose divisor may be zero yields infinity or not-a-number as in float64, but rounding errors and signed zeros are not modelled.
- Interleaving inside handlers: a handler runs its calls on the service without other events in between; the laws over runs hold for every interleaving of the single calls.
- Trade.Sent: the log of requests is ghost state of the model; trade history entries, subscriber channels, broadcasts, logging and database writes are not modelled.
- Confluence.OutcomeIgnoresOrderIffOneRate: fills without a commission asset are the subject of `UnnamedFills.OutcomeIgnoresOrderIff`.
- UnnamedFills.OutcomeIgnoresOrderIff: assumes that the fills, and those among them that name an asset, deliver something in total, and that a fill without an asset takes nothing away.
- TickLaws.TrailingProfitTracksPrices: assumes that prices are positive.
- TradeServices.TradeService.Execute: assumes that new order IDs are unused (`FreshIds`); the ID generator itself is not part of this model.
- TradeServices.TradeService.OnLastTrade: likewise assumes that the IDs issued during one tick are unused and pairwise different.
- Recovery.RestoreTrades: assumes that saved trades have distinct trade IDs and disjoint client IDs, and that the exchange's answers do not change during recovery; the migration of old records is not modelled.
- Recovery.RecoverTrade: the order lookup of a trade saved in PENDING_BUY is left out, because it only logs.
- Streams.TradeStreamManager.RunStream: opening, reading, decoding and delivering messages are reduced to success or failure; subscriptions are not modelled.
- Streams.TradeStreamManager.AddSymbol: lower-casing covers ASCII letters only, which is all the exchange uses in symbols.
- PriceLaws.LimitSellAboveBuyPrice: the exact condition is `LimitSellAboveBuyPriceIff`; tick and step sizes are taken to be positive, as exchange filters are, and the exchange information does not change during a run.
- Handlers.PostBuyHandler: parsing, validation of the price source, price offsets and the response are not modelled; the buy price is a parameter.
- FlattenedJson.FlattenJson: leaf values are opaque strings, and the root is an object, an array or null; a key named `__proto__` is not treated specially.
- Passwords.CheckEncoded: the hash function and the random salt are parameters.
- HTTP and websocket clients, sessions, configuration files, TLS, the database and its schema, health and notice services, and the user interface: input and output without properties of their own.
