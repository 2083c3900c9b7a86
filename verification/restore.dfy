/** Recovery after a restart (`go/server/restoretrades.go`): the loop over the saved trades, and how far its outcome
    agrees with what live reports would have produced. */
module Recovery {
  import opened Numbers
  import opened Fills
  import opened TradeModel
  import opened Pricing
  import opened TradeOps
  import opened TradeLaws
  import opened Trades
  import opened Streams
  import opened Engines
  import opened EngineLaws
  import opened TradeServices
  import opened RestartLaws

  /** What the exchange says during recovery: the order of each saved trade, and the trade history of each symbol;
      `None` is a failed request. */
  datatype Exchange = Exchange(orders: map<string, ExchangeOrder>, histories: map<string, seq<MyTrade>>) {
    function Order(tradeId: string): Option<ExchangeOrder> {
      if tradeId in orders then Some(orders[tradeId]) else None
    }

    function History(symbol: string): seq<MyTrade> {
      if symbol in histories then histories[symbol] else []
    }
  }

  // ---------- one trade ----------

  lemma NextHistoryFill(s: TradeState, history: seq<MyTrade>, i: nat, orderId: int)
    requires i < |history|
    ensures var fills, more := HistoryFills(history[..i], orderId), HistoryFills(history[..i + 1], orderId);
            && AddBuyFills(s, more) == (if history[i].orderId == orderId
                                        then TradeModel.AddBuyFill(AddBuyFills(s, fills), history[i].fill)
                                        else AddBuyFills(s, fills))
            && AddSellFills(s, more) == (if history[i].orderId == orderId
                                         then TradeModel.AddSellFill(AddSellFills(s, fills), history[i].fill)
                                         else AddSellFills(s, fills))
  {
    hide TradeModel.AddBuyFill, TradeModel.AddSellFill;
    assert history[..i + 1][..i] == history[..i];
    var fills := HistoryFills(history[..i], orderId);
    assert (fills + [history[i].fill])[..|fills|] == fills;
    assert fills + [] == fills;
  }

  method AddHistoryBuyFills(service: TradeService, trade: Trade, history: seq<MyTrade>, orderId: int)
    requires service.Valid() && service.Live(trade)
    modifies trade`State
    ensures service.Valid() && trade.State == AddBuyFills(old(trade.State), HistoryFills(history, orderId))
  {
    assert AddBuyFills(trade.State, HistoryFills(history[..0], orderId)) == trade.State;
    hide service.Valid, TradeModel.AddBuyFill, AddBuyFills, HistoryFills;
    var i := 0;
    while i < |history|
      invariant 0 <= i <= |history| && service.Valid() && service.Live(trade)
      invariant trade.State == AddBuyFills(old(trade.State), HistoryFills(history[..i], orderId))
    {
      NextHistoryFill(old(trade.State), history, i, orderId);
      if history[i].orderId == orderId {
        service.AddBuyFill(trade, history[i].fill);
      }
      i := i + 1;
    }
    assert history[..i] == history;
  }

  method AddHistorySellFills(service: TradeService, trade: Trade, history: seq<MyTrade>, orderId: int)
    requires service.Valid() && service.Live(trade)
    modifies trade`State
    ensures service.Valid() && trade.State == AddSellFills(old(trade.State), HistoryFills(history, orderId))
  {
    assert AddSellFills(trade.State, HistoryFills(history[..0], orderId)) == trade.State;
    hide service.Valid, TradeModel.AddSellFill, AddSellFills, HistoryFills;
    var i := 0;
    while i < |history|
      invariant 0 <= i <= |history| && service.Valid() && service.Live(trade)
      invariant trade.State == AddSellFills(old(trade.State), HistoryFills(history[..i], orderId))
    {
      NextHistoryFill(old(trade.State), history, i, orderId);
      if history[i].orderId == orderId {
        service.AddSellFill(trade, history[i].fill);
      }
      i := i + 1;
    }
    assert history[..i] == history;
  }

  /** The trade histories fetched so far. */
  type HistoryCache = map<string, seq<MyTrade>>

  /** Every cached history is the exchange's. */
  ghost predicate Faithful(cache: HistoryCache, exchange: Exchange) {
    forall symbol | symbol in cache :: symbol in exchange.histories && cache[symbol] == exchange.histories[symbol]
  }

  method FetchHistory(exchange: Exchange, symbol: string, cached: HistoryCache)
    returns (history: seq<MyTrade>, cache: HistoryCache)
    requires Faithful(cached, exchange)
    ensures history == exchange.History(symbol) && Faithful(cache, exchange)
  {
    cache := cached;
    if symbol in cache {
      return cache[symbol], cache;
    }
    history := [];
    if symbol in exchange.histories {
      history := exchange.histories[symbol];
      cache := cache[symbol := history];
    }
  }

  method RecoverNewTrade(service: TradeService, trade: Trade, order: ExchangeOrder, exchange: Exchange,
                         cached: HistoryCache)
    returns (cache: HistoryCache)
    requires service.Valid() && service.Live(trade) && Faithful(cached, exchange)
    modifies trade`State
    ensures service.Valid() && Faithful(cache, exchange)
    ensures trade.State == RecoverBuy(old(trade.State), order, exchange.History(old(trade.State.symbol)))
  {
    hide service.Valid, AddBuyFills, HistoryFills;
    cache := cached;
    match order.status {
      case OrderNew => service.Store(trade, trade.State.(status := PendingBuy));
      case OrderPartiallyFilled =>
        service.Store(trade, trade.State.(status := PendingBuy));
        var history;
        history, cache := FetchHistory(exchange, trade.State.symbol, cache);
        AddHistoryBuyFills(service, trade, history, order.orderId);
      case OrderFilled =>
        service.Store(trade, trade.State.(status := Watching));
        var history;
        history, cache := FetchHistory(exchange, trade.State.symbol, cache);
        AddHistoryBuyFills(service, trade, history, order.orderId);
      case _ =>
    }
  }

  method RecoverPendingSell(service: TradeService, trade: Trade, order: ExchangeOrder, exchange: Exchange,
                            cached: HistoryCache)
    returns (cache: HistoryCache)
    requires service.Valid() && service.Live(trade) && Faithful(cached, exchange) && trade.State.status == PendingSell
    modifies trade`State, service.tradeStreamManager`streamCount
    ensures service.Valid() && Faithful(cache, exchange)
    ensures trade.State == RecoverSell(old(trade.State), order, exchange.History(old(trade.State.symbol)))
    ensures service.tradeStreamManager.streamCount ==
            if trade.State.status == Done
            then RemoveCount(old(service.tradeStreamManager.streamCount), old(trade.State.symbol))
            else old(service.tradeStreamManager.streamCount)
  {
    hide service.Valid, AddSellFills, HistoryFills;
    cache := cached;
    match order.status {
      case OrderCanceled => service.Store(trade, trade.State.(status := Watching));
      case OrderFilled =>
        var history;
        history, cache := FetchHistory(exchange, trade.State.symbol, cache);
        AddSellFillsAppends(trade.State, HistoryFills(history, trade.State.sellOrderId));
        AddHistorySellFills(service, trade, history, trade.State.sellOrderId);
        if trade.State.sellFillQuantity == trade.State.buyFillQuantity {
          service.CloseTrade(trade, Done, Some(order.time), order.time);
        }
      case _ =>
    }
  }

  method RecoverTrade(service: TradeService, trade: Trade, exchange: Exchange, cached: HistoryCache)
    returns (cache: HistoryCache)
    requires service.Valid() && service.Live(trade) && Faithful(cached, exchange)
    modifies trade`State, service.tradeStreamManager`streamCount
    ensures service.Valid() && Faithful(cache, exchange)
    ensures var s := old(trade.State);
            trade.State == DoRecover(service.binanceExchangeInfo, s, exchange.Order(s.tradeId), exchange.History(s.symbol))
    ensures service.tradeStreamManager.streamCount ==
            if old(trade.State.status) == PendingSell && trade.State.status == Done
            then RemoveCount(old(service.tradeStreamManager.streamCount), old(trade.State.symbol))
            else old(service.tradeStreamManager.streamCount)
  {
    hide service.Valid, RecoverBuy, RecoverSell, UpdateSellable;
    cache := cached;
    var s := trade.State;
    var order := exchange.Order(s.tradeId);
    SellableFrame(service.binanceExchangeInfo, s);
    if s.status == New {
      if order == None {
        return;
      }
      RecoverBuyFrame(s, order.value, exchange.History(s.symbol));
      cache := RecoverNewTrade(service, trade, order.value, exchange, cache);
    } else if s.status == PendingSell && order != None {
      RecoverSellFrame(s, order.value, exchange.History(s.symbol));
      SellableFrame(service.binanceExchangeInfo, RecoverSell(s, order.value, exchange.History(s.symbol)));
      cache := RecoverPendingSell(service, trade, order.value, exchange, cache);
    }
    service.UpdateSellableQuantity(trade);
  }

  // ---------- the loop over the saved trades ----------

  function RecoveryOf(exchange: Exchange, s: TradeState): Command {
    Recover(exchange.Order(s.tradeId), exchange.History(s.symbol))
  }

  /** Each saved trade is rebuilt, put back into the service and recovered. */
  function RecoveryEvents(exchange: Exchange, saved: seq<TradeState>): seq<Event> {
    if saved == [] then []
    else
      var s := saved[|saved| - 1];
      RecoveryEvents(exchange, saved[..|saved| - 1])
      + [RestoreTrade(Reload(s)), OnTrade(s.tradeId, RecoveryOf(exchange, s))]
  }

  method RecoverStep(service: TradeService, trade: Trade, exchange: Exchange, cached: HistoryCache)
    returns (cache: HistoryCache)
    requires service.Valid() && service.Live(trade) && Faithful(cached, exchange)
    modifies trade, service.tradeStreamManager`streamCount
    ensures service.Valid() && Faithful(cache, exchange)
    ensures service.View() ==
            Step(old(service.View()), OnTrade(old(trade.State.tradeId), RecoveryOf(exchange, old(trade.State))))
  {
    hide service.Valid, service.View, DoRecover, Commit, RemoveCount, Agreement, Apply, Releases, IssuedIds;
    ghost var e := service.View();
    ghost var id := trade.State.tradeId;
    ghost var op := CommandOp(RecoveryOf(exchange, trade.State));
    service.StoredUnderId(trade);
    service.ViewOf(id);
    service.ViewAgrees();
    RecoveryIsOp(service.binanceExchangeInfo, trade.View(), exchange);
    cache := RecoverTrade(service, trade, exchange, cached);
    service.OthersUnchanged(trade);
    service.ViewOf(id);
    service.Committed(e, trade, op);
  }

  lemma RecoveryIsOp(info: ExchangeInfo, t: Tracked, exchange: Exchange)
    ensures var s, c := t.state, RecoveryOf(exchange, t.state);
            var u := DoRecover(info, s, exchange.Order(s.tradeId), exchange.History(s.symbol));
            && Apply(info, t, CommandOp(c)) == Tracked(u, t.sent) && u.tradeId == s.tradeId
            && (Releases(s, CommandOp(c), u) <==> s.status == PendingSell && u.status == Done)
            && IssuedIds(CommandOp(c)) == {}
  {
    ApplyAppends(info, t, CommandOp(RecoveryOf(exchange, t.state)));
    hide DoRecover;
  }

  /** The saved trades are new to the service and share no IDs. */
  ghost predicate Restorable(e: Engine, saved: seq<TradeState>) {
    && (forall s | s in saved :: s.tradeId !in e.trades && s.clientOrderIds !! e.index.Keys)
    && (forall i, j | 0 <= i < j < |saved| ::
          saved[i].tradeId != saved[j].tradeId && saved[i].clientOrderIds !! saved[j].clientOrderIds)
  }

  lemma ReloadKeepsIdentity(s: TradeState)
    ensures SameIdentity(s, Reload(s))
  {
    hide Sum, Round8, Round8Number, Percent;
  }

  lemma RestoredIds(e: Engine, s: TradeState)
    ensures var restored := Step(e, RestoreTrade(Reload(s)));
            && restored.trades.Keys == e.trades.Keys + {s.tradeId}
            && restored.index.Keys == e.index.Keys + s.clientOrderIds
            && SameIdentity(s, restored.trades[s.tradeId].state) && s.clientOrderIds <= restored.index.Keys
  {
    hide Reload, UpdateSellable, AddCount;
    ReloadKeepsIdentity(s);
    SellableFrame(e.info, Reload(s));
  }

  lemma RecoveredIds(e: Engine, id: string, c: Command)
    requires id in e.trades && e.trades[id].state.clientOrderIds <= e.index.Keys && c.Recover?
    ensures Step(e, OnTrade(id, c)).trades.Keys == e.trades.Keys
    ensures Step(e, OnTrade(id, c)).index.Keys == e.index.Keys
  {
    RecoverAppends(e.info, e.trades[id].state, c.lookup, c.history);
    hide DoRecover, Releases, RemoveCount;
  }

  lemma RestorableRest(e: Engine, exchange: Exchange, saved: seq<TradeState>)
    requires Restorable(e, saved) && saved != []
    ensures var s := saved[0];
            Restorable(Step(Step(e, RestoreTrade(Reload(s))), OnTrade(s.tradeId, RecoveryOf(exchange, s))), saved[1..])
  {
    hide Step;
    RestoredIds(e, saved[0]);
    RecoveredIds(Step(e, RestoreTrade(Reload(saved[0]))), saved[0].tradeId, RecoveryOf(exchange, saved[0]));
  }

  lemma RestorableFirst(e: Engine, saved: seq<TradeState>)
    requires Restorable(e, saved) && saved != []
    ensures Restorable(e, [saved[0]])
  {
  }

  lemma RecoveryRun(e: Engine, exchange: Exchange, saved: seq<TradeState>, i: nat)
    requires i < |saved|
    ensures Run(e, RecoveryEvents(exchange, saved[..i + 1])) ==
            Step(Step(Run(e, RecoveryEvents(exchange, saved[..i])), RestoreTrade(Reload(saved[i]))),
                 OnTrade(saved[i].tradeId, RecoveryOf(exchange, saved[i])))
  {
    hide Step;
    assert saved[..i + 1][..i] == saved[..i];
    var events, s := RecoveryEvents(exchange, saved[..i]), saved[i];
    var a, b := RestoreTrade(Reload(s)), OnTrade(s.tradeId, RecoveryOf(exchange, s));
    assert (events + [a, b])[..|events| + 1] == events + [a];
    assert (events + [a])[..|events|] == events;
  }

  lemma SameRecovery(exchange: Exchange, s: TradeState, u: TradeState)
    requires SameIdentity(s, u)
    ensures u.tradeId == s.tradeId && RecoveryOf(exchange, u) == RecoveryOf(exchange, s)
  {
  }

  lemma IsNewcomer(service: TradeService, trade: Trade, saved: TradeState)
    requires service.Valid() && Restorable(service.View(), [saved]) && trade !in service.TradesByLocalID.Values
    requires trade.Sent == [] && SameIdentity(saved, trade.State)
    ensures service.Newcomer(trade, trade.State.tradeId)
  {
    assert saved in [saved];
    assert service.View().trades.Keys == service.TradesByLocalID.Keys;
    assert service.View().index.Keys == service.TradesByClientID.Keys;
  }

  method RestoreOne(service: TradeService, saved: TradeState, exchange: Exchange, cached: HistoryCache)
    returns (cache: HistoryCache)
    requires service.Valid() && Restorable(service.View(), [saved]) && Faithful(cached, exchange)
    modifies service, service.tradeStreamManager
    ensures service.Valid() && Faithful(cache, exchange)
    ensures service.View() == Step(Step(old(service.View()), RestoreTrade(Reload(saved))),
                                   OnTrade(saved.tradeId, RecoveryOf(exchange, saved)))
  {
    hide *;
    ReloadKeepsIdentity(saved);
    var position := new Trade.NewTradeWithState(saved);
    assert service.Valid() && Restorable(service.View(), [saved]);
    IsNewcomer(service, position, saved);
    ghost var rebuilt := position.State;
    service.RestoreTrade(position);
    SameRecovery(exchange, saved, rebuilt);
    SameRecovery(exchange, rebuilt, position.State);
    cache := RecoverStep(service, position, exchange, cached);
  }

  lemma NoRecoveries(e: Engine, exchange: Exchange, saved: seq<TradeState>)
    ensures Run(e, RecoveryEvents(exchange, saved[..0])) == e && saved[0..] == saved
    ensures Faithful(map[], exchange)
  {
  }

  /** `restoreTrades` */
  method RestoreTrades(service: TradeService, tradeStates: seq<TradeState>, exchange: Exchange)
    requires service.Valid() && Restorable(service.View(), tradeStates)
    modifies service, service.tradeStreamManager
    ensures service.Valid()
    ensures service.View() == Run(old(service.View()), RecoveryEvents(exchange, tradeStates))
  {
    hide *;
    ghost var e := service.View();
    var tradeHistoryCache: HistoryCache := map[];
    var i := 0;
    NoRecoveries(e, exchange, tradeStates);
    while i < |tradeStates|
      invariant 0 <= i <= |tradeStates| && service.Valid() && Faithful(tradeHistoryCache, exchange)
      invariant service.View() == Run(e, RecoveryEvents(exchange, tradeStates[..i]))
      invariant Restorable(service.View(), tradeStates[i..])
    {
      RecoveryRun(e, exchange, tradeStates, i);
      RestorableFirst(service.View(), tradeStates[i..]);
      RestorableRest(service.View(), exchange, tradeStates[i..]);
      assert tradeStates[i..][1..] == tradeStates[i + 1..];
      tradeHistoryCache := RestoreOne(service, tradeStates[i], exchange, tradeHistoryCache);
      i := i + 1;
    }
    assert tradeStates[..i] == tradeStates;
  }

  // ---------- what a restart leaves behind ----------

  /** One saved trade as recovery leaves it. */
  lemma RecoveredOne(e: Engine, exchange: Exchange, s: TradeState)
    ensures var back := UpdateSellable(e.info, Reload(s));
            var v := Step(Step(e, RestoreTrade(Reload(s))), OnTrade(s.tradeId, RecoveryOf(exchange, s)));
            && v.info == e.info
            && v.trades == e.trades[s.tradeId := Tracked(DoRecover(e.info, back, exchange.Order(s.tradeId),
                                                                   exchange.History(s.symbol)), [])]
  {
    hide UpdateSellable, Reload, DoRecover, Releases, RemoveCount, AddCount;
    ReloadKeepsIdentity(s);
    SellableFrame(e.info, Reload(s));
  }

  /** The trade is back as it was saved, up to profit figures of an outdated cost, and caught up with its order. */
  ghost predicate IsBack(info: ExchangeInfo, exchange: Exchange, s: TradeState, t: Tracked) {
    && t.sent == []
    && exists profit, percent ::
         t.state == DoRecover(info, s.(profit := profit, profitPercent := percent), exchange.Order(s.tradeId),
                              exchange.History(s.symbol))
  }

  lemma SavedIsBack(e: Engine, exchange: Exchange, s: TradeState)
    requires Settled(s) && SellableCurrent(e.info, s)
    ensures var v := Step(Step(e, RestoreTrade(Reload(s))), OnTrade(s.tradeId, RecoveryOf(exchange, s)));
            v.info == e.info && s.tradeId in v.trades && v.trades == e.trades[s.tradeId := v.trades[s.tradeId]]
            && IsBack(e.info, exchange, s, v.trades[s.tradeId])
  {
    hide Step, DoRecover;
    RecoveredOne(e, exchange, s);
    var back := Reload(s);
    ReloadOfSettled(s);
    hide Reload, Settled, UpdateSellable, SellableCurrent;
    SameSellableCurrent(e.info, s, back);
    CurrentMeans(e.info, back);
    assert back == s.(profit := back.profit, profitPercent := back.profitPercent);
  }

  /** Exactly the saved trades have joined, and each of them is back. */
  ghost predicate AllBack(e: Engine, exchange: Exchange, saved: seq<TradeState>, v: Engine) {
    && v.info == e.info && v.trades.Keys == e.trades.Keys + (set s | s in saved :: s.tradeId)
    && (forall i | 0 <= i < |saved| ::
          saved[i].tradeId in v.trades && IsBack(e.info, exchange, saved[i], v.trades[saved[i].tradeId]))
  }

  ghost predicate DistinctIds(saved: seq<TradeState>) {
    forall i, j | 0 <= i < j < |saved| :: saved[i].tradeId != saved[j].tradeId
  }

  lemma OneMoreBack(e: Engine, exchange: Exchange, saved: seq<TradeState>, m: Engine, v: Engine)
    requires saved != [] && DistinctIds(saved) && AllBack(e, exchange, saved[..|saved| - 1], m)
    requires var last := saved[|saved| - 1];
             v.info == m.info && last.tradeId in v.trades && v.trades == m.trades[last.tradeId := v.trades[last.tradeId]]
             && IsBack(e.info, exchange, last, v.trades[last.tradeId])
    ensures AllBack(e, exchange, saved, v)
  {
    hide IsBack;
    var n := |saved| - 1;
    assert saved == saved[..n] + [saved[n]];
    forall i | 0 <= i < n
      ensures saved[i].tradeId in v.trades && IsBack(e.info, exchange, saved[i], v.trades[saved[i].tradeId])
    {
      assert saved[i] == saved[..n][i] && saved[i].tradeId != saved[n].tradeId;
    }
  }

  /** After a restart exactly the saved trades have joined the service, and each of them, saved at any moment of a life in
      it, is back. */
  lemma {:induction false} RestartBringsBack(e: Engine, exchange: Exchange, saved: seq<TradeState>)
    requires forall i | 0 <= i < |saved| :: Settled(saved[i]) && SellableCurrent(e.info, saved[i])
    requires DistinctIds(saved)
    ensures AllBack(e, exchange, saved, Run(e, RecoveryEvents(exchange, saved)))
  {
    hide Step, Run, IsBack, Settled, SellableCurrent;
    if saved == [] {
      NoRecoveries(e, exchange, saved);
    } else {
      hide AllBack, RecoveryEvents;
      var n := |saved| - 1;
      RestartBringsBack(e, exchange, saved[..n]);
      RecoveryRun(e, exchange, saved, n);
      assert saved[..n + 1] == saved;
      var m := Run(e, RecoveryEvents(exchange, saved[..n]));
      BackInfo(e, exchange, saved[..n], m);
      SavedIsBack(m, exchange, saved[n]);
      OneMoreBack(e, exchange, saved, m, Run(e, RecoveryEvents(exchange, saved)));
    }
  }

  lemma BackInfo(e: Engine, exchange: Exchange, saved: seq<TradeState>, v: Engine)
    requires AllBack(e, exchange, saved, v)
    ensures v.info == e.info
  {
  }
}
