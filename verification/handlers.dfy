/** The handlers that drive the trade service (`go/server/handlers.go`): the order in which they call it.  Parsing,
    lookups and answers of the exchange are parameters, and no other event comes between the calls of one handler. */
module Handlers {
  import opened Numbers
  import opened TradeModel
  import opened Pricing
  import opened TradeOps
  import opened TradeLaws
  import opened RequestLaws
  import opened Trades
  import opened Streams
  import opened Engines
  import opened EngineLaws
  import opened TradeServices

  datatype LimitSellRequest = NoLimitSell | AtPercent(percent: real) | AtPrice(price: real)

  datatype TrailingRequest = TrailingRequest(percent: real, deviation: real)

  datatype BuyRequest = BuyRequest(
    symbol: string,
    quantity: real,
    limitSell: LimitSellRequest,
    stopLoss: Option<real>,
    trailing: Option<TrailingRequest>
  )

  /** The trade `PostBuyHandler` opens. */
  function OpenedTrade(request: BuyRequest, orderId: string, now: int): TradeState {
    var s := NewTradeState(now).(symbol := request.symbol, clientOrderIds := {orderId});
    s.(stopLoss := match request.stopLoss
                   case None => s.stopLoss
                   case Some(percent) => StopLoss(true, percent, false),
       trailing := match request.trailing
                   case None => s.trailing
                   case Some(r) => TrailingProfit(true, r.percent, r.deviation, false, 0.0, false))
  }

  function BuyOrder(request: BuyRequest, orderId: string, price: real): Order {
    Order(request.symbol, Buy, Limit, request.quantity, Finite(price), orderId)
  }

  function LimitSellCommands(request: LimitSellRequest): seq<Command> {
    match request
    case NoLimitSell => []
    case AtPercent(percent) => [SetLimitSellByPercent(percent)]
    case AtPrice(price) => [SetLimitSellByPrice(price)]
  }

  function Commands(id: string, commands: seq<Command>): seq<Event> {
    seq(|commands|, i requires 0 <= i < |commands| => OnTrade(id, commands[i]))
  }

  /** The trade joins the service first, then the order is posted, and a refused order fails the trade. */
  function BuyEvents(request: BuyRequest, orderId: string, price: real, tradeId: string, ticker: Option<real>, now: int,
                     postOk: bool): seq<Event>
  {
    [AddNewTrade(OpenedTrade(request, orderId, now), tradeId, ticker)]
    + Commands(tradeId, LimitSellCommands(request.limitSell) + [PostBuy(BuyOrder(request, orderId, price))]
                        + if postOk then [] else [Fail(now)])
  }

  lemma RunAppend(e: Engine, events: seq<Event>, ev: Event)
    ensures Run(e, events + [ev]) == Step(Run(e, events), ev)
  {
    hide Step;
    assert (events + [ev])[..|events|] == events;
  }

  lemma CommandsAppend(id: string, commands: seq<Command>, c: Command)
    ensures Commands(id, commands + [c]) == Commands(id, commands) + [OnTrade(id, c)]
  {
  }

  /** Makes one more call on behalf of a handler that has already caused `events`. */
  method Call(service: TradeService, trade: Trade, command: Command, ghost e: Engine, ghost opening: seq<Event>,
              ghost commands: seq<Command>)
    requires service.Valid() && service.Live(trade) && service.Performable(trade, command)
    requires FreshIds(service.View(), OnTrade(trade.State.tradeId, command))
    requires service.View() == Run(e, opening + Commands(trade.State.tradeId, commands))
    modifies service`TradesByClientID, trade, service.tradeStreamManager`streamCount
    ensures service.Valid() && service.Live(trade) && trade.State.tradeId == old(trade.State.tradeId)
    ensures old(trade.State.clientOrderIds) <= trade.State.clientOrderIds
    ensures service.View() == Run(e, opening + Commands(trade.State.tradeId, commands + [command]))
  {
    hide service.Valid, service.View, service.Performable, Step, Run, FreshIds;
    ghost var id := trade.State.tradeId;
    service.Execute(trade, command);
    RunAppend(e, opening + Commands(id, commands), OnTrade(id, command));
    CommandsAppend(id, commands, command);
    assert opening + Commands(id, commands + [command])
        == opening + Commands(id, commands) + [OnTrade(id, command)];
  }

  method OpenTrade(request: BuyRequest, orderId: string, now: int) returns (trade: Trade)
    ensures fresh(trade) && trade.State == OpenedTrade(request, orderId, now) && trade.Sent == []
  {
    trade := new Trade.NewTrade(now);
    trade.State := trade.State.(symbol := request.symbol);
    trade.AddClientOrderID(orderId);
    if request.stopLoss.Some? {
      trade.SetStopLoss(true, request.stopLoss.value);
    }
    if request.trailing.Some? {
      trade.SetTrailingProfit(true, request.trailing.value.percent, request.trailing.value.deviation);
    }
  }

  method RequestLimitSell(service: TradeService, trade: Trade, request: LimitSellRequest, ghost e: Engine,
                          ghost opening: seq<Event>)
    requires service.Valid() && service.Live(trade)
    requires service.View() == Run(e, opening)
    modifies service`TradesByClientID, trade, service.tradeStreamManager`streamCount
    ensures service.Valid() && service.Live(trade) && trade.State.tradeId == old(trade.State.tradeId)
    ensures old(trade.State.clientOrderIds) <= trade.State.clientOrderIds
    ensures service.View() == Run(e, opening + Commands(trade.State.tradeId, LimitSellCommands(request)))
  {
    hide service.Valid, service.View, Run;
    assert opening + Commands(trade.State.tradeId, []) == opening;
    assert [] + LimitSellCommands(request) == LimitSellCommands(request);
    match request {
      case NoLimitSell =>
      case AtPercent(percent) => Call(service, trade, SetLimitSellByPercent(percent), e, opening, []);
      case AtPrice(price) => Call(service, trade, SetLimitSellByPrice(price), e, opening, []);
    }
  }

  /** Posts the order; a refusal fails the trade. */
  method PostOrFail(service: TradeService, trade: Trade, order: Order, now: int, postOk: bool, ghost e: Engine,
                    ghost opening: seq<Event>, ghost commands: seq<Command>)
    requires service.Valid() && service.Live(trade) && order.clientOrderId in trade.State.clientOrderIds
    requires service.View() == Run(e, opening + Commands(trade.State.tradeId, commands))
    modifies service`TradesByClientID, trade, service.tradeStreamManager`streamCount
    ensures service.Valid()
    ensures service.View() ==
            Run(e, opening + Commands(old(trade.State.tradeId),
                                      commands + [PostBuy(order)] + if postOk then [] else [Fail(now)]))
  {
    hide service.Valid, service.View, Run;
    service.OwnIdIsIndexed(trade, order.clientOrderId);
    Call(service, trade, PostBuy(order), e, opening, commands);
    if !postOk {
      Call(service, trade, Fail(now), e, opening, commands + [PostBuy(order)]);
    } else {
      assert commands + [PostBuy(order)] + [] == commands + [PostBuy(order)];
    }
  }

  /** Registers the trade, then posts its order. */
  method RegisterAndPost(service: TradeService, trade: Trade, request: BuyRequest, orderId: string, price: real,
                         newTradeId: string, ticker: Option<real>, now: int, postOk: bool, ghost e: Engine)
    requires service.Valid() && service.Newcomer(trade, newTradeId) && newTradeId != "" && e == service.View()
    requires trade.State == OpenedTrade(request, orderId, now)
    modifies service, trade, service.tradeStreamManager
    ensures service.Valid()
    ensures service.View() == Run(e, BuyEvents(request, orderId, price, newTradeId, ticker, now, postOk))
  {
    assert NewTradeId(trade.State, newTradeId) == newTradeId && trade.State.clientOrderIds == {orderId};
    ghost var opening := [AddNewTrade(trade.State, newTradeId, ticker)];
    OneEvent(e, opening[0]);
    BuyEventsSplit(request, orderId, price, newTradeId, ticker, now, postOk);
    hide *;
    service.AddNewTrade(trade, newTradeId, ticker);
    RequestLimitSell(service, trade, request.limitSell, e, opening);
    PostOrFail(service, trade, BuyOrder(request, orderId, price), now, postOk, e, opening,
               LimitSellCommands(request.limitSell));
  }

  lemma BuyEventsSplit(request: BuyRequest, orderId: string, price: real, tradeId: string, ticker: Option<real>, now: int,
                       postOk: bool)
    ensures BuyOrder(request, orderId, price).clientOrderId == orderId
    ensures BuyEvents(request, orderId, price, tradeId, ticker, now, postOk) ==
            [AddNewTrade(OpenedTrade(request, orderId, now), tradeId, ticker)]
            + Commands(tradeId, LimitSellCommands(request.limitSell) + [PostBuy(BuyOrder(request, orderId, price))]
                                + if postOk then [] else [Fail(now)])
  {
  }

  /** `PostBuyHandler`.  `orderId` and `price` are `None` when `MakeOrderID`, respectively the price service, fails. */
  method PostBuyHandler(service: TradeService, request: BuyRequest, orderId: Option<string>, price: Option<real>,
                        newTradeId: string, ticker: Option<real>, now: int, postOk: bool)
    returns (tradeId: Option<string>)
    requires service.Valid() && newTradeId != "" && newTradeId !in service.TradesByLocalID
    requires orderId.Some? ==> orderId.value !in service.TradesByClientID
    modifies service, service.tradeStreamManager
    ensures service.Valid()
    ensures tradeId == if orderId.Some? && price.Some? && postOk then Some(newTradeId) else None
    ensures service.View() ==
            if orderId.Some? && price.Some?
            then Run(old(service.View()),
                     BuyEvents(request, orderId.value, price.value, newTradeId, ticker, now, postOk))
            else old(service.View())
  {
    if orderId.None? || price.None? {
      return None;
    }
    ghost var e := service.View();
    var trade := OpenTrade(request, orderId.value, now);
    hide service.Valid, service.View, BuyEvents, Run;
    RegisterAndPost(service, trade, request, orderId.value, price.value, newTradeId, ticker, now, postOk, e);
    return if postOk then Some(newTradeId) else None;
  }

  lemma OneEvent(e: Engine, ev: Event)
    ensures Run(e, [ev]) == Step(e, ev)
  {
    hide Step;
    assert [ev][..0] == [];
  }

  // ---------- what a buy request leaves behind ----------

  /** A trade with one client ID, on its way through `PostBuyHandler`. */
  ghost predicate Opened(e: Engine, v: Engine, tradeId: string, orderId: string) {
    && v.info == e.info && tradeId in v.trades
    && v.trades == e.trades[tradeId := v.trades[tradeId]]
    && v.index == e.index[orderId := tradeId]
    && v.trades[tradeId].state.clientOrderIds == {orderId}
  }

  lemma CommandKeepsOpened(e: Engine, v: Engine, tradeId: string, orderId: string, c: Command)
    requires Opened(e, v, tradeId, orderId)
    requires c.PostBuy? || c.SetLimitSellByPercent? || c.SetLimitSellByPrice? || c.Fail?
    ensures var w := Step(v, OnTrade(tradeId, c));
            && Opened(e, w, tradeId, orderId)
            && w.trades[tradeId] == DoCommand(v.info, v.trades[tradeId], c)
            && w.counts == if c.Fail? then RemoveCount(v.counts, v.trades[tradeId].state.symbol) else v.counts
  {
    hide RemoveCount;
    var w := Step(v, OnTrade(tradeId, c));
    assert w.trades[tradeId] == DoCommand(v.info, v.trades[tradeId], c);
    assert w.index == e.index[orderId := tradeId];
  }

  lemma AddThenRemove(counts: Counts, symbol: string)
    requires forall name | name in counts :: counts[name] >= 1
    ensures RemoveCount(AddCount(counts, symbol), symbol) == counts
  {
  }

  /** The limit sell is the one that was asked for. */
  predicate SellsAs(limitSell: LimitSell, request: LimitSellRequest) {
    match request
    case NoLimitSell => !limitSell.enabled
    case AtPercent(percent) => limitSell.enabled && limitSell.kind == ByPercent && limitSell.percent == percent
    case AtPrice(price) => limitSell.enabled && limitSell.kind == ByPrice && limitSell.price == Finite(price)
  }

  /** The order is the one that was asked for. */
  predicate BuysAsAsked(order: Order, request: BuyRequest, orderId: string, price: real) {
    && order.symbol == request.symbol && order.side == Buy && order.kind == Limit
    && order.quantity == request.quantity && order.price == Finite(price) && order.clientOrderId == orderId
  }

  /** The trade is the one that was asked for, and nothing has happened to it yet. */
  predicate Carries(s: TradeState, request: BuyRequest, tradeId: string, ticker: Option<real>, now: int) {
    && s.tradeId == tradeId && s.symbol == request.symbol && s.openTime == now && Unfilled(s, now)
    && s.stopLoss.enabled == request.stopLoss.Some? && !s.stopLoss.triggered
    && (request.stopLoss.Some? ==> s.stopLoss.percent == request.stopLoss.value)
    && s.trailing.enabled == request.trailing.Some? && !s.trailing.activated && !s.trailing.triggered
    && s.trailing.price == 0.0
    && (request.trailing.Some? ==> s.trailing.percent == request.trailing.value.percent
                                   && s.trailing.deviation == request.trailing.value.deviation)
    && s.lastPrice == if ticker.Some? then ticker.value else 0.0
  }

  lemma LimitSellKeepsOpened(e: Engine, v: Engine, request: BuyRequest, orderId: string, tradeId: string,
                             opening: seq<Event>)
    requires Run(e, opening) == v && Opened(e, v, tradeId, orderId)
    ensures var t, w := v.trades[tradeId], Run(e, opening + Commands(tradeId, LimitSellCommands(request.limitSell)));
            && Opened(e, w, tradeId, orderId) && w.counts == v.counts && w.trades[tradeId].sent == t.sent
            && w.trades[tradeId].state == t.state.(limitSell := w.trades[tradeId].state.limitSell)
            && (!t.state.limitSell.enabled ==> SellsAs(w.trades[tradeId].state.limitSell, request.limitSell))
  {
    assert tradeId in v.trades;
    hide Run, Step, Opened;
    if request.limitSell.NoLimitSell? {
      assert opening + Commands(tradeId, []) == opening;
      assert v.trades[tradeId].state == v.trades[tradeId].state.(limitSell := v.trades[tradeId].state.limitSell);
    } else {
      var c := LimitSellCommands(request.limitSell)[0];
      assert Commands(tradeId, [c]) == [OnTrade(tradeId, c)];
      RunAppend(e, opening, OnTrade(tradeId, c));
      CommandKeepsOpened(e, v, tradeId, orderId, c);
    }
  }

  /** Reached after the first call of the handler: open, NEW, as it was asked for but for the limit sell, and with a stream
      of its own. */
  ghost predicate OpenedFor(e: Engine, v: Engine, request: BuyRequest, orderId: string, tradeId: string,
                            ticker: Option<real>, now: int)
  {
    && Opened(e, v, tradeId, orderId)
    && v.counts == AddCount(e.counts, request.symbol)
    && Carries(v.trades[tradeId].state, request, tradeId, ticker, now) && v.trades[tradeId].state.status == New
    && v.trades[tradeId].state.closeTime == None
  }

  lemma Opening(e: Engine, request: BuyRequest, orderId: string, tradeId: string, ticker: Option<real>, now: int)
    requires tradeId != "" && tradeId !in e.trades && orderId !in e.index
    ensures var v := Step(e, AddNewTrade(OpenedTrade(request, orderId, now), tradeId, ticker));
            OpenedFor(e, v, request, orderId, tradeId, ticker, now) && v.trades[tradeId].sent == []
            && !v.trades[tradeId].state.limitSell.enabled
  {
    hide AddCount;
    var v := Step(e, AddNewTrade(OpenedTrade(request, orderId, now), tradeId, ticker));
    assert v.index == e.index[orderId := tradeId];
  }

  lemma OpenedIsLive(e: Engine, v: Engine, tradeId: string, orderId: string)
    requires Opened(e, v, tradeId, orderId)
    ensures tradeId in v.trades
  {
  }

  lemma PostingKeepsOpened(e: Engine, v: Engine, request: BuyRequest, orderId: string, tradeId: string,
                           ticker: Option<real>, now: int, order: Order)
    requires OpenedFor(e, v, request, orderId, tradeId, ticker, now)
    ensures var w := Step(v, OnTrade(tradeId, PostBuy(order)));
            OpenedFor(e, w, request, orderId, tradeId, ticker, now)
            && w.trades[tradeId].sent == v.trades[tradeId].sent + [Post(order)]
            && w.trades[tradeId].state == v.trades[tradeId].state
  {
    hide Step, Opened, AddCount, Carries;
    OpenedIsLive(e, v, tradeId, orderId);
    CommandKeepsOpened(e, v, tradeId, orderId, PostBuy(order));
    OpenedIsLive(e, Step(v, OnTrade(tradeId, PostBuy(order))), tradeId, orderId);
  }

  lemma SettingCarries(s: TradeState, u: TradeState, request: BuyRequest, tradeId: string, ticker: Option<real>, now: int)
    requires Carries(s, request, tradeId, ticker, now) && u == s.(limitSell := u.limitSell)
    ensures Carries(u, request, tradeId, ticker, now)
  {
  }

  lemma BuyPosted(e: Engine, request: BuyRequest, orderId: string, price: real, tradeId: string, ticker: Option<real>,
                  now: int)
    requires tradeId != "" && tradeId !in e.trades && orderId !in e.index
    ensures var v := Run(e, BuyEvents(request, orderId, price, tradeId, ticker, now, true));
            OpenedFor(e, v, request, orderId, tradeId, ticker, now)
            && v.trades[tradeId].sent == [Post(BuyOrder(request, orderId, price))]
            && SellsAs(v.trades[tradeId].state.limitSell, request.limitSell)
  {
    var order, ev := BuyOrder(request, orderId, price), AddNewTrade(OpenedTrade(request, orderId, now), tradeId, ticker);
    var limit := LimitSellCommands(request.limitSell);
    hide Run, Step, AddCount, OpenedTrade, LimitSellCommands, SellsAs, Carries;
    OneEvent(e, ev);
    Opening(e, request, orderId, tradeId, ticker, now);
    LimitSellKeepsOpened(e, Step(e, ev), request, orderId, tradeId, [ev]);
    var v := Run(e, [ev] + Commands(tradeId, limit));
    SettingCarries(Step(e, ev).trades[tradeId].state, v.trades[tradeId].state, request, tradeId, ticker, now);
    assert OpenedFor(e, v, request, orderId, tradeId, ticker, now);
    RunAppend(e, [ev] + Commands(tradeId, limit), OnTrade(tradeId, PostBuy(order)));
    CommandsAppend(tradeId, limit, PostBuy(order));
    PostingKeepsOpened(e, v, request, orderId, tradeId, ticker, now, order);
    assert limit + [PostBuy(order)] + [] == limit + [PostBuy(order)];
    assert [ev] + Commands(tradeId, limit + [PostBuy(order)])
        == [ev] + Commands(tradeId, limit) + [OnTrade(tradeId, PostBuy(order))];
  }

  lemma RefusedIsFailed(e: Engine, request: BuyRequest, orderId: string, price: real, tradeId: string,
                        ticker: Option<real>, now: int)
    ensures BuyEvents(request, orderId, price, tradeId, ticker, now, false) ==
            BuyEvents(request, orderId, price, tradeId, ticker, now, true) + [OnTrade(tradeId, Fail(now))]
  {
    var posted := LimitSellCommands(request.limitSell) + [PostBuy(BuyOrder(request, orderId, price))];
    assert posted + [] == posted;
    CommandsAppend(tradeId, posted, Fail(now));
  }

  /** A buy request that reaches the exchange opens one trade, with the stop loss, the trailing profit and the limit sell
      it asks for, that owns exactly one order: a limit order to buy the quantity asked for at the price found.  Nothing
      else is touched; when the exchange refuses the order, the trade is closed and its stream given back. */
  lemma BuyOutcome(e: Engine, request: BuyRequest, orderId: string, price: real, tradeId: string, ticker: Option<real>,
                   now: int, postOk: bool)
    requires tradeId != "" && tradeId !in e.trades && orderId !in e.index
    requires forall name | name in e.counts :: e.counts[name] >= 1
    ensures var v := Run(e, BuyEvents(request, orderId, price, tradeId, ticker, now, postOk));
            && Opened(e, v, tradeId, orderId)
            && |v.trades[tradeId].sent| == 1 && v.trades[tradeId].sent[0].Post?
            && BuysAsAsked(v.trades[tradeId].sent[0].order, request, orderId, price)
            && Carries(v.trades[tradeId].state, request, tradeId, ticker, now)
            && SellsAs(v.trades[tradeId].state.limitSell, request.limitSell)
            && v.trades[tradeId].state.status == (if postOk then New else Failed)
            && v.trades[tradeId].state.closeTime == (if postOk then None else Some(now))
            && v.counts == if postOk then AddCount(e.counts, request.symbol) else e.counts
  {
    hide Run, Step, RemoveCount, AddCount, BuyEvents, Carries, SellsAs, Opened;
    BuyPosted(e, request, orderId, price, tradeId, ticker, now);
    var posted := BuyEvents(request, orderId, price, tradeId, ticker, now, true);
    var v := Run(e, posted);
    OpenedIsLive(e, v, tradeId, orderId);
    CarriedSymbol(v.trades[tradeId].state, request, tradeId, ticker, now);
    if !postOk {
      RefusedIsFailed(e, request, orderId, price, tradeId, ticker, now);
      RunAppend(e, posted, OnTrade(tradeId, Fail(now)));
      CommandKeepsOpened(e, v, tradeId, orderId, Fail(now));
      OpenedIsLive(e, Step(v, OnTrade(tradeId, Fail(now))), tradeId, orderId);
      FailingCarries(v.info, v.trades[tradeId], request, tradeId, ticker, now);
      AddThenRemove(e.counts, request.symbol);
    }
  }

  /** By the time the order goes out, which is the last thing an accepted request does, the trade is live under the ID of
      the order, nothing was sent for it, and it carries all that was asked for. */
  lemma ReadyBeforePosting(e: Engine, request: BuyRequest, orderId: string, price: real, tradeId: string,
                           ticker: Option<real>, now: int)
    requires tradeId != "" && tradeId !in e.trades && orderId !in e.index
    ensures var events := BuyEvents(request, orderId, price, tradeId, ticker, now, true);
            var last, v := events[|events| - 1], Run(e, events[..|events| - 1]);
            && last.OnTrade? && last.id == tradeId && last.command.PostBuy?
            && BuysAsAsked(last.command.order, request, orderId, price)
            && OpenedFor(e, v, request, orderId, tradeId, ticker, now) && v.trades[tradeId].sent == []
            && SellsAs(v.trades[tradeId].state.limitSell, request.limitSell)
  {
    var ev, limit := AddNewTrade(OpenedTrade(request, orderId, now), tradeId, ticker), LimitSellCommands(request.limitSell);
    var order := BuyOrder(request, orderId, price);
    BuyEventsEnd(request, orderId, price, tradeId, ticker, now);
    hide Run, Step, AddCount, OpenedTrade, LimitSellCommands, SellsAs, Carries, BuyEvents;
    OneEvent(e, ev);
    Opening(e, request, orderId, tradeId, ticker, now);
    LimitSellKeepsOpened(e, Step(e, ev), request, orderId, tradeId, [ev]);
    SettingCarries(Step(e, ev).trades[tradeId].state, Run(e, [ev] + Commands(tradeId, limit)).trades[tradeId].state,
                   request, tradeId, ticker, now);
  }

  lemma BuyEventsEnd(request: BuyRequest, orderId: string, price: real, tradeId: string, ticker: Option<real>, now: int)
    ensures BuyEvents(request, orderId, price, tradeId, ticker, now, true) ==
            [AddNewTrade(OpenedTrade(request, orderId, now), tradeId, ticker)]
            + Commands(tradeId, LimitSellCommands(request.limitSell))
            + [OnTrade(tradeId, PostBuy(BuyOrder(request, orderId, price)))]
  {
    hide LimitSellCommands;
    var order, limit := BuyOrder(request, orderId, price), LimitSellCommands(request.limitSell);
    CommandsAppend(tradeId, limit, PostBuy(order));
    assert limit + [PostBuy(order)] + [] == limit + [PostBuy(order)];
  }

  lemma CarriedSymbol(s: TradeState, request: BuyRequest, tradeId: string, ticker: Option<real>, now: int)
    requires Carries(s, request, tradeId, ticker, now)
    ensures s.symbol == request.symbol
  {
  }

  lemma FailingCarries(info: ExchangeInfo, t: Tracked, request: BuyRequest, tradeId: string, ticker: Option<real>, now: int)
    requires Carries(t.state, request, tradeId, ticker, now)
    ensures var u := DoCommand(info, t, Fail(now));
            Carries(u.state, request, tradeId, ticker, now) && u.state.limitSell == t.state.limitSell && u.sent == t.sent
            && u.state.status == Failed && u.state.closeTime == Some(now)
  {
  }

  // ---------- sell requests ----------

  datatype SellRequest = MarketSale | LimitSaleAtPercent(percent: real) | LimitSaleAtPrice(price: real) | CancelSale

  predicate BuyPending(s: TradeState) {
    s.status == New || s.status == PendingBuy
  }

  /** The calls each sell handler makes, by the status it finds the trade in. */
  function SellCommands(s: TradeState, request: SellRequest, cancelOk: bool, oracle: SellOracle): seq<Command> {
    var cancel := if s.status == PendingSell then [CancelSell(cancelOk)] else [];
    match request
    case MarketSale => cancel + [MarketSell(oracle)]
    case LimitSaleAtPercent(percent) =>
      if BuyPending(s) then [SetLimitSellByPercent(percent)] else cancel + [LimitSellByPercent(percent, oracle)]
    case LimitSaleAtPrice(price) =>
      if BuyPending(s) then [SetLimitSellByPrice(price)] else cancel + [LimitSellByPrice(price, oracle)]
    case CancelSale => if BuyPending(s) then [DisableLimitSell] else [CancelSell(cancelOk)]
  }

  lemma NoEvents(e: Engine, id: string)
    ensures Run(e, [] + Commands(id, [])) == e
  {
  }

  lemma FirstCall(e: Engine, id: string, c: Command)
    ensures [] + Commands(id, [] + [c]) == Commands(id, [c])
    ensures [] + [c] == [c]
    ensures Run(e, Commands(id, [c])) == Step(e, OnTrade(id, c))
  {
    hide Step;
    assert Commands(id, [c]) == [OnTrade(id, c)];
    OneEvent(e, OnTrade(id, c));
  }

  lemma SecondCall(id: string, a: Command, b: Command)
    ensures [] + Commands(id, [a] + [b]) == Commands(id, [a] + [b])
    ensures [] + Commands(id, [a]) == Commands(id, [a])
  {
  }

  lemma MayPerform(service: TradeService, trade: Trade, c: Command)
    requires !c.Recover? && !c.PostBuy?
    ensures service.Performable(trade, c)
  {
  }

  /** Cancels a pending sell order, then makes the call that follows. */
  method CancelThen(service: TradeService, trade: Trade, cancelOk: bool, command: Command, ghost e: Engine)
    requires service.Valid() && service.Live(trade) && e == service.View()
    requires !command.Recover? && !command.PostBuy? && FreshIds(e, OnTrade(trade.State.tradeId, command))
    modifies service`TradesByClientID, trade, service.tradeStreamManager`streamCount
    ensures service.Valid()
    ensures var cancel := if old(trade.State.status) == PendingSell then [CancelSell(cancelOk)] else [];
            service.View() == Run(e, Commands(old(trade.State.tradeId), cancel + [command]))
  {
    ghost var id := trade.State.tradeId;
    NoEvents(e, id);
    FirstCall(e, id, CancelSell(cancelOk));
    FirstCall(e, id, command);
    SecondCall(id, CancelSell(cancelOk), command);
    service.ViewAgrees();
    hide *;
    MayPerform(service, trade, CancelSell(cancelOk));
    MayPerform(service, trade, command);
    if trade.State.status == PendingSell {
      CancelKeepsFresh(e, id, cancelOk, command);
      Call(service, trade, CancelSell(cancelOk), e, [], []);
      MayPerform(service, trade, command);
      Call(service, trade, command, e, [], [CancelSell(cancelOk)]);
    } else {
      Call(service, trade, command, e, [], []);
      assert [] + [command] == [command];
    }
  }

  lemma CancelKeepsFresh(e: Engine, id: string, cancelOk: bool, command: Command)
    requires Agreement(e) && FreshIds(e, OnTrade(id, command))
    ensures FreshIds(e, OnTrade(id, CancelSell(cancelOk)))
    ensures FreshIds(Step(e, OnTrade(id, CancelSell(cancelOk))), OnTrade(id, command))
  {
    assert IssuedIds(CommandOp(CancelSell(cancelOk))) == {};
    hide IssuedIds;
  }

  /** Before anything was bought a sell request is a setting, afterwards a sale. */
  method SetOrSell(service: TradeService, trade: Trade, cancelOk: bool, setting: Command, sale: Command, ghost e: Engine)
    requires service.Valid() && service.Live(trade) && e == service.View()
    requires setting.SetLimitSellByPercent? || setting.SetLimitSellByPrice? || setting.DisableLimitSell?
    requires !sale.Recover? && !sale.PostBuy? && FreshIds(e, OnTrade(trade.State.tradeId, sale))
    modifies service`TradesByClientID, trade, service.tradeStreamManager`streamCount
    ensures service.Valid()
    ensures var s := old(trade.State);
            var cancel := if s.status == PendingSell then [CancelSell(cancelOk)] else [];
            service.View() == Run(e, Commands(s.tradeId, if BuyPending(s) then [setting] else cancel + [sale]))
  {
    hide *;
    ghost var id := trade.State.tradeId;
    if BuyPending(trade.State) {
      MayPerform(service, trade, setting);
      NoEvents(e, id);
      FirstCall(e, id, setting);
      SettingFresh(e, id, setting);
      Call(service, trade, setting, e, [], []);
    } else {
      CancelThen(service, trade, cancelOk, sale, e);
    }
  }

  method CancelOrDisable(service: TradeService, trade: Trade, cancelOk: bool, ghost e: Engine)
    requires service.Valid() && service.Live(trade) && e == service.View()
    modifies service`TradesByClientID, trade, service.tradeStreamManager`streamCount
    ensures service.Valid()
    ensures var s := old(trade.State);
            service.View() == Run(e, Commands(s.tradeId, [if BuyPending(s) then DisableLimitSell else CancelSell(cancelOk)]))
  {
    hide *;
    ghost var id := trade.State.tradeId;
    var command := if BuyPending(trade.State) then DisableLimitSell else CancelSell(cancelOk);
    NoEvents(e, id);
    FirstCall(e, id, command);
    SettingFresh(e, id, command);
    MayPerform(service, trade, command);
    Call(service, trade, command, e, [], []);
  }

  method SellTrade(service: TradeService, trade: Trade, request: SellRequest, cancelOk: bool, oracle: SellOracle,
                   ghost e: Engine)
    requires service.Valid() && service.Live(trade) && e == service.View()
    requires FreshIds(e, OnTrade(trade.State.tradeId, MarketSell(oracle)))
    modifies service`TradesByClientID, trade, service.tradeStreamManager`streamCount
    ensures service.Valid()
    ensures service.View() ==
            Run(e, Commands(old(trade.State.tradeId), SellCommands(old(trade.State), request, cancelOk, oracle)))
  {
    SaleIdsFresh(e, trade.State.tradeId, oracle);
    hide service.Valid, service.View, service.Live, FreshIds, Run, Commands;
    match request {
      case MarketSale => CancelThen(service, trade, cancelOk, MarketSell(oracle), e);
      case LimitSaleAtPercent(percent) =>
        SetOrSell(service, trade, cancelOk, SetLimitSellByPercent(percent), LimitSellByPercent(percent, oracle), e);
      case LimitSaleAtPrice(price) =>
        SetOrSell(service, trade, cancelOk, SetLimitSellByPrice(price), LimitSellByPrice(price, oracle), e);
      case CancelSale => CancelOrDisable(service, trade, cancelOk, e);
    }
  }

  /** The sell handlers: `marketSellHandler`, `limitSellByPercentHandler`, `limitSellByPriceHandler` and
      `DeleteSellHandler`. */
  method SellHandler(service: TradeService, tradeId: string, request: SellRequest, cancelOk: bool, oracle: SellOracle)
    returns (found: bool)
    requires service.Valid() && FreshIds(service.View(), OnTrade(tradeId, MarketSell(oracle)))
    modifies service`TradesByClientID, service.TradesByLocalID.Values, service.tradeStreamManager`streamCount
    ensures service.Valid() && found == (tradeId in old(service.TradesByLocalID))
    ensures found ==> tradeId in old(service.View()).trades
    ensures service.View() ==
            if found
            then Run(old(service.View()),
                     Commands(tradeId, SellCommands(old(service.View()).trades[tradeId].state, request, cancelOk, oracle)))
            else old(service.View())
  {
    if tradeId !in service.TradesByLocalID {
      return false;
    }
    ghost var e := service.View();
    var trade := service.TradesByLocalID[tradeId];
    service.ViewOf(tradeId);
    assert trade.State.tradeId == tradeId;
    hide service.Valid, service.View, Run, SellCommands;
    SellTrade(service, trade, request, cancelOk, oracle, e);
    return true;
  }

  lemma SettingFresh(e: Engine, id: string, c: Command)
    requires c.SetLimitSellByPercent? || c.SetLimitSellByPrice? || c.DisableLimitSell? || c.CancelSell?
    ensures FreshIds(e, OnTrade(id, c))
  {
  }

  lemma SaleIdsFresh(e: Engine, id: string, oracle: SellOracle)
    requires FreshIds(e, OnTrade(id, MarketSell(oracle)))
    ensures forall percent :: FreshIds(e, OnTrade(id, LimitSellByPercent(percent, oracle)))
    ensures forall price :: FreshIds(e, OnTrade(id, LimitSellByPrice(price, oracle)))
  {
  }

  function CommandOps(commands: seq<Command>): seq<Op> {
    seq(|commands|, i requires 0 <= i < |commands| => CommandOp(commands[i]))
  }

  lemma PriceIgnoresSettings(s: TradeState, u: TradeState)
    requires u == s.(limitSell := u.limitSell)
    ensures forall tickSize, percent | tickSize > 0.0 ::
              LimitSellPrice(u, tickSize, percent) == LimitSellPrice(s, tickSize, percent)
  {
    hide Roundx, Quotient;
  }

  lemma OneCommand(info: ExchangeInfo, t: Tracked, c: Command)
    ensures RunOps(info, t, CommandOps([c])) == DoCommand(info, t, c)
  {
    hide DoCommand;
    assert CommandOps([c]) == [] + [CommandOp(c)];
    RunOpsAppend(info, t, [], CommandOp(c));
  }

  lemma TwoCommands(info: ExchangeInfo, t: Tracked, a: Command, b: Command)
    ensures RunOps(info, t, CommandOps([a, b])) == DoCommand(info, DoCommand(info, t, a), b)
  {
    hide DoCommand;
    OneCommand(info, t, a);
    assert CommandOps([a, b]) == CommandOps([a]) + [CommandOp(b)];
    RunOpsAppend(info, t, CommandOps([a]), CommandOp(b));
  }

  /** What a sell request asks of the exchange, in order. */
  function SaleSent(info: ExchangeInfo, s: TradeState, request: SellRequest, newId: Option<string>): seq<Effect> {
    match request
    case MarketSale => CancelOf(s) + CancelOf(s) + MarketSaleOf(s, newId)
    case LimitSaleAtPercent(percent) =>
      if s.status in {New, PendingBuy} then [] else CancelOf(s) + PercentSaleOf(info, s, percent, newId)
    case LimitSaleAtPrice(price) =>
      if s.status in {New, PendingBuy} then [] else CancelOf(s) + PriceSaleOf(s, Finite(price), newId)
    case CancelSale => if s.status in {New, PendingBuy} then [] else [Cancel(s.sellOrderId)]
  }

  /** The handlers ask for exactly that.  Before anything was bought, settings change and nothing is sent, unless the
      request is a market sale; a pending sell order is cancelled first, and by a market sale twice. */
  lemma SaleRequests(info: ExchangeInfo, t: Tracked, request: SellRequest, cancelOk: bool, oracle: SellOracle)
    ensures RunOps(info, t, CommandOps(SellCommands(t.state, request, cancelOk, oracle))).sent ==
            t.sent + SaleSent(info, t.state, request, oracle.newId)
  {
    hide RunOps, CommandOps, MarketSaleOf, PercentSaleOf, PriceSaleOf;
    var commands := SellCommands(t.state, request, cancelOk, oracle);
    if t.state.status == PendingSell && !request.CancelSale? {
      assert commands == [commands[0], commands[1]];
      TwoCommands(info, t, commands[0], commands[1]);
      SaleAfterCancel(info, t, request, cancelOk, oracle);
    } else {
      assert commands == [commands[0]];
      OneCommand(info, t, commands[0]);
      SaleAtOnce(info, t, request, cancelOk, oracle);
    }
  }

  /** What the handlers leave of the trade: before anything was bought, a limit sale is noted as asked for and a
      cancellation turns it off; afterwards, a cancellation turns it off exactly if the exchange accepts. */
  lemma SaleSettings(info: ExchangeInfo, t: Tracked, request: SellRequest, cancelOk: bool, oracle: SellOracle)
    requires (t.state.status in {New, PendingBuy} && !request.MarketSale?) || request.CancelSale?
    ensures var s, u := t.state, RunOps(info, t, CommandOps(SellCommands(t.state, request, cancelOk, oracle))).state;
            && u == s.(limitSell := u.limitSell)
            && match request
               case LimitSaleAtPercent(percent) => SellsAs(u.limitSell, AtPercent(percent))
               case LimitSaleAtPrice(price) => SellsAs(u.limitSell, AtPrice(price))
               case _ => u.limitSell.enabled <==> s.status !in {New, PendingBuy} && s.limitSell.enabled && !cancelOk
  {
    hide RunOps, CommandOps;
    var commands := SellCommands(t.state, request, cancelOk, oracle);
    assert commands == [commands[0]];
    OneCommand(info, t, commands[0]);
  }

  lemma SaleAtOnce(info: ExchangeInfo, t: Tracked, request: SellRequest, cancelOk: bool, oracle: SellOracle)
    requires t.state.status != PendingSell || request.CancelSale?
    ensures DoCommand(info, t, SellCommands(t.state, request, cancelOk, oracle)[0]).sent ==
            t.sent + SaleSent(info, t.state, request, oracle.newId)
  {
    hide DoMarketSell, DoLimitSellByPercent, DoLimitSellByPrice, MarketSaleOf, PercentSaleOf, PriceSaleOf;
    match request
    case MarketSale => SellsSend(info, t, 0.0, NotANumber, oracle);
    case LimitSaleAtPercent(percent) => SellsSend(info, t, percent, NotANumber, oracle);
    case LimitSaleAtPrice(price) => SellsSend(info, t, 0.0, Finite(price), oracle);
    case CancelSale =>
  }

  lemma SaleAfterCancel(info: ExchangeInfo, t: Tracked, request: SellRequest, cancelOk: bool, oracle: SellOracle)
    requires t.state.status == PendingSell && !request.CancelSale?
    ensures DoCommand(info, DoCancelSell(t, cancelOk), SellCommands(t.state, request, cancelOk, oracle)[1]).sent ==
            t.sent + SaleSent(info, t.state, request, oracle.newId)
  {
    var u := DoCancelSell(t, cancelOk);
    CancelOnlySends(t, cancelOk);
    SalesIgnoreSettings(info, t.state, u.state);
    hide DoMarketSell, DoLimitSellByPercent, DoLimitSellByPrice, DoCancelSell, MarketSaleOf, PercentSaleOf, PriceSaleOf;
    match request
    case MarketSale => SellsSend(info, u, 0.0, NotANumber, oracle);
    case LimitSaleAtPercent(percent) => SellsSend(info, u, percent, NotANumber, oracle);
    case LimitSaleAtPrice(price) => SellsSend(info, u, 0.0, Finite(price), oracle);
  }

  lemma SalesIgnoreSettings(info: ExchangeInfo, s: TradeState, u: TradeState)
    requires u == s.(limitSell := u.limitSell)
    ensures forall newId :: MarketSaleOf(u, newId) == MarketSaleOf(s, newId)
    ensures forall percent, newId :: PercentSaleOf(info, u, percent, newId) == PercentSaleOf(info, s, percent, newId)
    ensures forall price, newId :: PriceSaleOf(u, price, newId) == PriceSaleOf(s, price, newId)
  {
    PriceIgnoresSettings(s, u);
    hide LimitSellPrice;
  }
}
