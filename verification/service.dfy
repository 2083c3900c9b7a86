/** The trade service object (`go/tradeservice/tradeservice.go`): two maps over shared trade objects, refining the
    state machine `Engines`.  The lock makes every public method one atomic step; time, identifiers and the
    exchange's answers are parameters. */
module TradeServices {
  import opened Numbers
  import opened Fills
  import opened TradeModel
  import opened Pricing
  import opened TradeOps
  import opened TradeLaws
  import opened Trades
  import opened Streams
  import opened Engines
  import opened EngineLaws

  class TradeService {
    var TradesByLocalID: map<string, Trade>
    var TradesByClientID: map<string, Trade>
    const tradeStreamManager: TradeStreamManager
    const binanceExchangeInfo: ExchangeInfo

    ghost predicate Valid()
      reads this, TradesByLocalID.Values
    {
      && (forall id | id in TradesByLocalID :: TradesByLocalID[id].State.tradeId == id)
      && (forall id, c | HoldsId(id, c) :: c in TradesByClientID && TradesByClientID[c] == TradesByLocalID[id])
      && (forall c | c in TradesByClientID ::
            TradesByClientID[c] in TradesByLocalID.Values && HoldsId(TradesByClientID[c].State.tradeId, c))
    }

    ghost predicate HoldsId(id: string, c: string)
      reads this, TradesByLocalID.Values
    {
      id in TradesByLocalID && c in TradesByLocalID[id].State.clientOrderIds
    }

    ghost predicate Live(trade: Trade)
      reads this
    {
      trade in TradesByLocalID.Values
    }

    ghost function View(): Engine
      requires Valid()
      reads this, TradesByLocalID.Values, tradeStreamManager
    {
      Engine(binanceExchangeInfo,
             map id | id in TradesByLocalID :: TradesByLocalID[id].View(),
             map c | c in TradesByClientID :: TradesByClientID[c].State.tradeId,
             tradeStreamManager.streamCount)
    }

    lemma ViewAgrees()
      requires Valid()
      ensures Agreement(View())
    {
      var e := View();
      forall id, c | Holds(e.trades, id, c) ensures c in e.index && e.index[c] == id {
        assert HoldsId(id, c);
      }
      forall c | c in e.index ensures Holds(e.trades, e.index[c], c) {
        assert HoldsId(TradesByClientID[c].State.tradeId, c);
      }
    }

    constructor (info: ExchangeInfo)
      ensures Valid() && View() == Engine(info, map[], map[], map[])
      ensures fresh(tradeStreamManager)
    {
      TradesByLocalID := map[];
      TradesByClientID := map[];
      tradeStreamManager := new TradeStreamManager();
      binanceExchangeInfo := info;
    }

    // ---------- one trade ----------

    /** The only client IDs that became known are in `ids`, and they lead to `trade`. */
    twostate predicate OnlyIndexed(trade: Trade, ids: set<string>)
      reads this
    {
      && TradesByLocalID == old(TradesByLocalID)
      && (forall c | c in TradesByClientID ::
            if c in old(TradesByClientID) then TradesByClientID[c] == old(TradesByClientID)[c]
            else c in ids && TradesByClientID[c] == trade)
    }

    ghost predicate FreeIds(trade: Trade, ids: set<string>)
      reads this
    {
      forall c | c in ids && c in TradesByClientID :: TradesByClientID[c] == trade
    }

    method AddClientOrderId(trade: Trade, orderId: string)
      requires Valid() && Live(trade) && FreeIds(trade, {orderId})
      modifies this`TradesByClientID, trade
      ensures Valid() && OnlyIndexed(trade, {orderId}) && orderId in TradesByClientID && TradesByClientID[orderId] == trade
      ensures trade.View() == TradeOps.AddClientOrderId(old(trade.View()), orderId)
    {
      trade.AddClientOrderID(orderId);
      trade.Sent := trade.Sent + [Register(orderId)];
      TradesByClientID := TradesByClientID[orderId := trade];
      forall c | c in TradesByClientID
        ensures TradesByClientID[c] in TradesByLocalID.Values && HoldsId(TradesByClientID[c].State.tradeId, c)
      {
        if c != orderId { assert old(HoldsId(TradesByClientID[c].State.tradeId, c)); }
        else { var id :| id in TradesByLocalID && TradesByLocalID[id] == trade; }
      }
      forall id, c | HoldsId(id, c) ensures c in TradesByClientID && TradesByClientID[c] == TradesByLocalID[id] {
        if c != orderId || TradesByLocalID[id] != trade { assert old(HoldsId(id, c)); }
      }
    }

    /** Hands an order to the exchange; by then reports for it can be routed. */
    ghost method PostOrder(trade: Trade, order: Order)
      requires Valid() && Live(trade)
      requires order.clientOrderId in TradesByClientID && TradesByClientID[order.clientOrderId] == trade
      modifies trade`Sent
      ensures Valid() && trade.Sent == old(trade.Sent) + [Post(order)]
    {
      trade.Sent := trade.Sent + [Post(order)];
      ValidAfter(trade);
    }

    /** The maps and the client IDs of every trade are as before. */
    twostate lemma ValidAfter(trade: Trade)
      requires old(Valid()) && old(Live(trade))
      requires unchanged(this) && forall t: Trade | t in TradesByLocalID.Values && t != trade :: unchanged(t)
      requires trade.State.tradeId == old(trade.State.tradeId)
      requires trade.State.clientOrderIds == old(trade.State.clientOrderIds)
      ensures Valid()
    {
      forall id, c ensures HoldsId(id, c) <==> old(HoldsId(id, c)) {
        if id in TradesByLocalID {
          var t := TradesByLocalID[id];
          assert t in TradesByLocalID.Values;
        }
      }
      forall c | c in TradesByClientID
        ensures TradesByClientID[c].State.tradeId == old(TradesByClientID[c].State.tradeId)
      {
        var t := TradesByClientID[c];
        assert t in TradesByLocalID.Values;
      }
      forall id | id in TradesByLocalID ensures TradesByLocalID[id].State.tradeId == id {
        var t := TradesByLocalID[id];
        assert t in TradesByLocalID.Values;
      }
    }

    /** Stores a new state under the trade's identity. */
    method Store(trade: Trade, s: TradeState)
      requires Valid() && Live(trade)
      requires s.tradeId == trade.State.tradeId && s.clientOrderIds == trade.State.clientOrderIds
      modifies trade`State
      ensures Valid() && trade.State == s
    {
      trade.State := s;
      ValidAfter(trade);
    }

    method CancelSell(trade: Trade, ok: bool)
      requires Valid() && Live(trade)
      modifies trade
      ensures Valid() && trade.View() == DoCancelSell(old(trade.View()), ok)
      ensures trade.State.limitSell == old(trade.State.limitSell).(enabled := old(trade.State.limitSell.enabled) && !ok)
      ensures trade.Sent == old(trade.Sent) + [Cancel(old(trade.State.sellOrderId))]
    {
      trade.Sent := trade.Sent + [Cancel(trade.State.sellOrderId)];
      if ok {
        trade.State := trade.State.(limitSell := trade.State.limitSell.(enabled := false));
      }
      ValidAfter(trade);
    }

    method MarketSell(trade: Trade, oracle: SellOracle) returns (ok: bool)
      requires Valid() && Live(trade) && FreeIds(trade, SellIds(oracle))
      modifies this`TradesByClientID, trade
      ensures Valid() && OnlyIndexed(trade, SellIds(oracle))
      ensures trade.View() == DoMarketSell(old(trade.View()), oracle)
      ensures ok <==> oracle.newId.Some? && oracle.postOk
    {
      hide Valid;
      var quantity := trade.State.sellableQuantity - trade.State.sellFillQuantity;
      if trade.State.status == PendingSell {
        CancelSell(trade, oracle.cancelOk);
      }
      if oracle.newId.None? {
        return false;
      }
      var clientOrderId := oracle.newId.value;
      AddClientOrderId(trade, clientOrderId);
      PostOrder(trade, Order(trade.State.symbol, Sell, Market, quantity, Finite(0.0), clientOrderId));
      return oracle.postOk;
    }

    method LimitSellByPercent(trade: Trade, percent: real, oracle: SellOracle) returns (ok: bool)
      requires Valid() && Live(trade) && FreeIds(trade, SellIds(oracle))
      modifies this`TradesByClientID, trade
      ensures Valid() && OnlyIndexed(trade, SellIds(oracle))
      ensures trade.View() == DoLimitSellByPercent(binanceExchangeInfo, old(trade.View()), percent, oracle)
      ensures ok <==> trade.State.symbol in binanceExchangeInfo && oracle.newId.Some? && oracle.postOk
      ensures var noted := trade.State.limitSell;
              noted == if ok then LimitSell(true, ByPercent, percent, noted.price) else old(trade.State.limitSell)
    {
      hide Valid, Roundx;
      if trade.State.symbol !in binanceExchangeInfo {
        return false;
      }
      var tickSize := binanceExchangeInfo[trade.State.symbol].tickSize;
      var price := TargetPrice(trade.State, percent).Map((v: real) => Roundx(v, 1.0 / tickSize));
      if price.AtMost(trade.State.effectiveBuyPrice) {
        price := price.Map(v => v + tickSize);
      }
      assert price == LimitSellPrice(trade.State, tickSize, percent);
      hide LimitSellPrice, TargetPrice;
      if oracle.newId.None? {
        return false;
      }
      var clientOrderId := oracle.newId.value;
      AddClientOrderId(trade, clientOrderId);
      var quantity := trade.State.sellableQuantity - trade.State.sellFillQuantity;
      PostOrder(trade, Order(trade.State.symbol, Sell, Limit, quantity, price, clientOrderId));
      if !oracle.postOk {
        return false;
      }
      Store(trade, trade.State.(limitSell := LimitSell(true, ByPercent, percent, price)));
      return true;
    }

    method LimitSellByPrice(trade: Trade, price: Number, oracle: SellOracle) returns (ok: bool)
      requires Valid() && Live(trade) && FreeIds(trade, SellIds(oracle))
      modifies this`TradesByClientID, trade
      ensures Valid() && OnlyIndexed(trade, SellIds(oracle))
      ensures trade.View() == DoLimitSellByPrice(old(trade.View()), price, oracle)
      ensures ok <==> oracle.newId.Some? && oracle.postOk
    {
      hide Valid;
      if oracle.newId.None? {
        return false;
      }
      var clientOrderId := oracle.newId.value;
      AddClientOrderId(trade, clientOrderId);
      PostOrder(trade, Order(trade.State.symbol, Sell, Limit, trade.State.sellableQuantity, price, clientOrderId));
      return oracle.postOk;
    }

    method TriggerLimitSell(trade: Trade, oracle: SellOracle)
      requires Valid() && Live(trade) && FreeIds(trade, SellIds(oracle))
      modifies this`TradesByClientID, trade
      ensures Valid() && OnlyIndexed(trade, SellIds(oracle))
      ensures trade.View() == TradeOps.TriggerLimitSell(binanceExchangeInfo, old(trade.View()), oracle)
    {
      hide Valid, DoLimitSellByPercent, DoLimitSellByPrice;
      if trade.State.limitSell.enabled {
        if trade.State.limitSell.kind == ByPercent {
          var _ := LimitSellByPercent(trade, trade.State.limitSell.percent, oracle);
        } else if trade.State.limitSell.kind == ByPrice {
          var _ := LimitSellByPrice(trade, trade.State.limitSell.price, oracle);
        }
      }
    }

    method UpdateSellableQuantity(trade: Trade)
      requires Valid() && Live(trade)
      modifies trade`State
      ensures Valid() && trade.State == UpdateSellable(binanceExchangeInfo, old(trade.State))
    {
      hide Valid, FixQuantityToStepSize;
      var feeAsset := trade.FeeAsset();
      if feeAsset == BNB {
        Store(trade, trade.State.(sellableQuantity := trade.State.buyFillQuantity));
      } else if feeAsset != "" {
        if trade.State.symbol in binanceExchangeInfo {
          var stepSize := binanceExchangeInfo[trade.State.symbol].stepSize;
          Store(trade, trade.State.(sellableQuantity :=
                                      FixQuantityToStepSize(trade.State.buyFillQuantity, stepSize)));
        }
      }
    }

    // ---------- price ticks ----------

    ghost method NoteAutoSell(trade: Trade, trigger: Trigger)
      requires Valid() && Live(trade)
      modifies trade`Sent
      ensures Valid() && trade.Sent == old(trade.Sent) + [AutoSell(trigger)]
    {
      trade.Sent := trade.Sent + [AutoSell(trigger)];
      ValidAfter(trade);
    }

    method CheckStopLoss(trade: Trade, o: TickOracle)
      requires Valid() && Live(trade) && FreeIds(trade, SellIds(o.stopSell))
      modifies this`TradesByClientID, trade
      ensures Valid() && OnlyIndexed(trade, SellIds(o.stopSell))
      ensures trade.View() == TradeOps.CheckStopLoss(old(trade.View()), o)
    {
      hide Valid, DoMarketSell;
      if trade.State.status != PendingSell && trade.State.status != Watching {
        return;
      }
      if trade.State.stopLoss.triggered {
        return;
      }
      if trade.State.profitPercent.Below(Abs(trade.State.stopLoss.percent) * -1.0) {
        if trade.State.status == PendingSell {
          CancelSell(trade, o.cancelOk);
        }
        Store(trade, trade.State.(stopLoss := trade.State.stopLoss.(triggered := true)));
        NoteAutoSell(trade, ByStopLoss);
        var _ := MarketSell(trade, o.stopSell);
      }
    }

    method CheckTrailingProfit(trade: Trade, price: real, o: TickOracle)
      requires Valid() && Live(trade) && FreeIds(trade, SellIds(o.trailingSell))
      modifies this`TradesByClientID, trade
      ensures Valid() && OnlyIndexed(trade, SellIds(o.trailingSell))
      ensures trade.View() == TradeOps.CheckTrailingProfit(old(trade.View()), price, o)
    {
      hide Valid, DoMarketSell, Percent;
      if trade.State.status != PendingSell && trade.State.status != Watching {
        return;
      }
      if trade.State.trailing.triggered {
        return;
      }
      if trade.State.trailing.activated {
        if price > trade.State.trailing.price {
          Store(trade, trade.State.(trailing := trade.State.trailing.(price := price)));
        } else {
          var deviation := Percent(price - trade.State.trailing.price, trade.State.trailing.price);
          if deviation.Magnitude().Above(trade.State.trailing.deviation) {
            Store(trade, trade.State.(trailing := trade.State.trailing.(triggered := true)));
            NoteAutoSell(trade, ByTrailingProfit);
            var _ := MarketSell(trade, o.trailingSell);
          }
        }
      } else if trade.State.profitPercent.Above(trade.State.trailing.percent) {
        Store(trade, trade.State.(trailing := trade.State.trailing.(activated := true)));
      }
    }

    /** The body of the loop of `onLastTrade`. */
    method OnLastTradeOf(trade: Trade, symbol: string, price: real, o: TickOracle)
      requires Valid() && Live(trade) && FreeIds(trade, SellIds(o.stopSell) + SellIds(o.trailingSell))
      modifies this`TradesByClientID, trade
      ensures Valid() && OnlyIndexed(trade, SellIds(o.stopSell) + SellIds(o.trailingSell))
      ensures trade.View() == OnTick(old(trade.View()), symbol, price, o)
    {
      hide Valid, TradeOps.CheckStopLoss, TradeOps.CheckTrailingProfit, CalculateProfit;
      var done := trade.IsDone();
      if done || trade.State.symbol != symbol {
        return;
      }
      if trade.State.status != PendingSell && trade.State.status != Watching {
        return;
      }
      Store(trade, trade.State.(lastPrice := price));
      PriceIgnored(old(trade.State), price);
      Store(trade, trade.State.(profitPercent := CalculateProfit(trade.State, price)));
      if trade.State.stopLoss.enabled {
        CheckStopLoss(trade, o);
      }
      if trade.State.trailing.enabled {
        CheckTrailingProfit(trade, price, o);
      }
    }

    lemma PriceIgnored(s: TradeState, price: real)
      ensures CalculateProfit(s.(lastPrice := price), price) == CalculateProfit(s, price)
    {
    }

    // ---------- execution reports ----------

    method AddBuyFill(trade: Trade, fill: OrderFill)
      requires Valid() && Live(trade)
      modifies trade`State
      ensures Valid() && trade.State == TradeModel.AddBuyFill(old(trade.State), fill)
    {
      FillKeepsIdentity(trade.State, fill);
      trade.DoAddBuyFill(fill);
      ValidAfter(trade);
    }

    method AddSellFill(trade: Trade, fill: OrderFill)
      requires Valid() && Live(trade)
      modifies trade`State
      ensures Valid() && trade.State == TradeModel.AddSellFill(old(trade.State), fill)
    {
      FillKeepsIdentity(trade.State, fill);
      trade.DoAddSellFill(fill);
      ValidAfter(trade);
    }

    lemma FillKeepsIdentity(s: TradeState, fill: OrderFill)
      ensures SameIdentity(s, TradeModel.AddBuyFill(s, fill)) && SameIdentity(s, TradeModel.AddSellFill(s, fill))
    {
      hide Sum, Round8, Round8Number, Percent;
    }

    method OnBuyReport(trade: Trade, report: Report, time: int, oracle: SellOracle)
      requires Valid() && Live(trade) && FreeIds(trade, SellIds(oracle))
      modifies this`TradesByClientID, trade
      ensures Valid() && OnlyIndexed(trade, SellIds(oracle))
      ensures trade.View() == TradeOps.OnBuyReport(binanceExchangeInfo, old(trade.View()), report, time, oracle)
    {
      hide Valid, TradeModel.AddBuyFill, UpdateSellable, TradeOps.TriggerLimitSell;
      var s := trade.State;
      match report.status
      case OrderNew =>
        s := s.(openTime := time, buyOrder := OrderTerms(report.quantity, report.price), buyOrderId := report.orderId);
        if s.status == New {
          s := s.(status := PendingBuy);
        }
        if s.lastBuyStatus == Unset {
          s := s.(lastBuyStatus := report.status);
        }
        Store(trade, s);
      case OrderCanceled =>
        s := if s.buyFillQuantity == 0.0 then s.(status := Canceled) else s.(status := Watching);
        Store(trade, s.(lastBuyStatus := report.status));
      case OrderPartiallyFilled =>
        if s.lastBuyStatus != OrderFilled {
          Store(trade, s.(lastBuyStatus := report.status));
        }
        AddBuyFill(trade, ReportFill(report));
        UpdateSellableQuantity(trade);
      case OrderFilled =>
        AddBuyFill(trade, ReportFill(report));
        UpdateSellableQuantity(trade);
        Store(trade, trade.State.(status := Watching));
        Store(trade, trade.State.(lastBuyStatus := report.status));
        TriggerLimitSell(trade, oracle);
      case _ =>
    }

    method OnSellReport(trade: Trade, report: Report)
      requires Valid() && Live(trade)
      modifies trade`State
      ensures Valid() && trade.State == TradeOps.OnSellReport(old(trade.State), report)
    {
      hide Valid, TradeModel.AddSellFill;
      var s := trade.State;
      match report.status
      case OrderNew =>
        if s.status == Done {
          return;
        }
        s := s.(sellOrderId := report.orderId, status := PendingSell);
        if s.sellOrder.status != OrderPartiallyFilled && s.sellOrder.status != OrderFilled {
          s := s.(sellOrder := s.sellOrder.(status := report.status));
        }
        Store(trade, s.(sellOrder := s.sellOrder.(orderType := report.orderType, quantity := report.quantity,
                                                  price := report.price)));
      case OrderPartiallyFilled =>
        AddSellFill(trade, ReportFill(report));
        if trade.State.sellOrder.status != OrderFilled {
          Store(trade, trade.State.(sellOrder := trade.State.sellOrder.(status := report.status)));
        }
      case OrderFilled =>
        AddSellFill(trade, ReportFill(report));
        Store(trade, trade.State.(status := Done));
        Store(trade, trade.State.(sellOrder := trade.State.sellOrder.(status := report.status)));
      case OrderCanceled =>
        Store(trade, s.(status := Watching, sellOrder := s.sellOrder.(status := report.status)));
      case _ =>
        Store(trade, s.(sellOrder := s.sellOrder.(status := report.status)));
    }

    method FindTradeForReport(report: Report) returns (trade: Trade?)
      requires Valid()
      ensures match Route(View(), report)
              case None => trade == null
              case Some(id) => id in TradesByLocalID && trade == TradesByLocalID[id]
    {
      assert forall c | c in TradesByClientID :: HoldsId(TradesByClientID[c].State.tradeId, c);
      if report.clientOrderId in TradesByClientID {
        return TradesByClientID[report.clientOrderId];
      }
      if report.originalClientOrderId in TradesByClientID {
        return TradesByClientID[report.originalClientOrderId];
      }
      return null;
    }

    /** Two agreeing views of the same trades have the same index. */
    lemma AgreementUnique(e: Engine, v: Engine)
      requires Agreement(e) && Agreement(v) && e.trades == v.trades
      ensures e.index == v.index
    {
      forall c | c in e.index ensures c in v.index && v.index[c] == e.index[c] {
        assert Holds(v.trades, e.index[c], c);
      }
      forall c | c in v.index ensures c in e.index {
        assert Holds(e.trades, v.index[c], c);
      }
    }

    /** A trade object changed by one operation is one step of the state machine. */
    lemma Committed(e: Engine, trade: Trade, op: Op)
      requires Valid() && Agreement(e) && e.info == binanceExchangeInfo
      requires trade.State.tradeId in e.trades && FreeFor(e, trade.State.tradeId, IssuedIds(op))
      requires View().trades == e.trades[trade.State.tradeId := trade.View()]
      requires trade.View() == Apply(e.info, e.trades[trade.State.tradeId], op)
      requires View().counts == if Releases(e.trades[trade.State.tradeId].state, op, trade.State)
                                then RemoveCount(e.counts, e.trades[trade.State.tradeId].state.symbol) else e.counts
      ensures View() == Commit(e, trade.State.tradeId, op)
    {
      hide Apply, Releases, IssuedIds, FreeFor, Agreement, Valid, Engines.Commit;
      var id := trade.State.tradeId;
      CommitParts(e, id, op);
      ViewAgrees();
      CommitAgreement(e, id, op);
      AgreementUnique(View(), Commit(e, id, op));
    }

    twostate lemma StoredUnderId(trade: Trade)
      requires old(Valid()) && old(Live(trade))
      ensures old(trade.State.tradeId in TradesByLocalID && TradesByLocalID[trade.State.tradeId] == trade)
    {
      var x :| x in old(TradesByLocalID) && old(TradesByLocalID)[x] == trade;
    }

    twostate lemma OthersUnchanged(trade: Trade)
      requires old(Valid()) && Valid() && old(Live(trade)) && TradesByLocalID == old(TradesByLocalID)
      requires forall t: Trade | t in TradesByLocalID.Values && t != trade :: unchanged(t)
      ensures View().trades == old(View()).trades[old(trade.State.tradeId) := trade.View()]
    {
      StoredUnderId(trade);
      forall id | id in TradesByLocalID && id != old(trade.State.tradeId)
        ensures View().trades[id] == old(View()).trades[id]
      {
        var t := TradesByLocalID[id];
        assert t in TradesByLocalID.Values;
      }
    }

    lemma CommitParts(e: Engine, id: string, op: Op)
      requires id in e.trades
      ensures var v, u := Commit(e, id, op), Apply(e.info, e.trades[id], op);
              && v.info == e.info && v.trades == e.trades[id := u]
              && v.counts == if Releases(e.trades[id].state, op, u.state)
                             then RemoveCount(e.counts, e.trades[id].state.symbol) else e.counts
    {
      hide Apply, Releases, RemoveCount;
    }

    lemma FreeIdsOf(trade: Trade, ids: set<string>)
      requires Valid() && Live(trade) && FreeFor(View(), trade.State.tradeId, ids)
      ensures FreeIds(trade, ids)
    {
      forall c | c in ids && c in TradesByClientID ensures TradesByClientID[c] == trade {
        assert View().index[c] == trade.State.tradeId;
        assert HoldsId(TradesByClientID[c].State.tradeId, c);
        var x :| x in TradesByLocalID && TradesByLocalID[x] == trade;
      }
    }

    method OnExecutionReport(report: Report, time: int, oracle: SellOracle)
      requires Valid() && FreshIds(View(), ExecutionReport(report, time, oracle))
      modifies this`TradesByClientID, TradesByLocalID.Values, tradeStreamManager`streamCount
      ensures Valid() && View() == Step(old(View()), ExecutionReport(report, time, oracle))
    {
      hide Valid, OnReport, Commit, RemoveCount, Agreement, View, Apply, Releases, IssuedIds;
      ghost var e := View();
      ghost var op := ReportOp(report, time, oracle);
      var trade := FindTradeForReport(report);
      if trade == null {
        return;
      }
      RoutedTrade(trade, report);
      ReportIsOp(binanceExchangeInfo, trade.View(), report, time, oracle);
      FreeIdsOf(trade, SellIds(oracle));
      ViewAgrees();
      ghost var id := trade.State.tradeId;
      ViewOf(id);
      HandleReport(trade, report, time, oracle);
      OthersUnchanged(trade);
      ViewOf(id);
      ReportReleases(old(trade.State), report, time, oracle, trade.State);
      Committed(e, trade, op);
    }

    lemma ViewOf(id: string)
      requires Valid() && id in TradesByLocalID
      ensures View().info == binanceExchangeInfo && View().counts == tradeStreamManager.streamCount
      ensures id in View().trades && View().trades[id] == TradesByLocalID[id].View()
    {
    }

    lemma ReportIsOp(info: ExchangeInfo, t: Tracked, r: Report, time: int, oracle: SellOracle)
      ensures Apply(info, t, ReportOp(r, time, oracle)) == OnReport(info, t, r, time, oracle)
      ensures IssuedIds(ReportOp(r, time, oracle)) == SellIds(oracle)
    {
      hide OnReport;
    }

    lemma ReportReleases(s: TradeState, r: Report, time: int, oracle: SellOracle, u: TradeState)
      ensures Releases(s, ReportOp(r, time, oracle), u) <==> ReportCloses(u)
    {
    }

    lemma RoutedTrade(trade: Trade, report: Report)
      requires Valid()
      requires Route(View(), report).Some? && Route(View(), report).value in TradesByLocalID
      requires trade == TradesByLocalID[Route(View(), report).value]
      ensures Live(trade) && Route(View(), report) == Some(trade.State.tradeId)
    {
    }

    method HandleReport(trade: Trade, report: Report, time: int, oracle: SellOracle)
      requires Valid() && Live(trade) && FreeIds(trade, SellIds(oracle))
      modifies this`TradesByClientID, trade, tradeStreamManager`streamCount
      ensures Valid() && OnlyIndexed(trade, SellIds(oracle))
      ensures trade.View() == OnReport(binanceExchangeInfo, old(trade.View()), report, time, oracle)
      ensures trade.State.tradeId == old(trade.State.tradeId)
      ensures tradeStreamManager.streamCount ==
              if ReportCloses(trade.State) then RemoveCount(old(tradeStreamManager.streamCount), old(trade.State.symbol))
              else old(tradeStreamManager.streamCount)
    {
      hide Valid, TradeOps.OnBuyReport, TradeOps.OnSellReport;
      ReportAppends(binanceExchangeInfo, trade.View(), report, time, oracle);
      match report.side {
        case Buy => OnBuyReport(trade, report, time, oracle);
        case Sell => OnSellReport(trade, report);
        case OtherSide =>
      }
      if trade.State.status == Done || trade.State.status == Canceled || trade.State.status == Failed {
        Store(trade, trade.State.(closeTime := Some(time)));
        RemoveStream(trade);
      }
    }

    /** `RemoveSymbol` for the trade's symbol. */
    method RemoveStream(trade: Trade)
      requires Valid()
      modifies tradeStreamManager`streamCount
      ensures Valid()
      ensures tradeStreamManager.streamCount == RemoveCount(old(tradeStreamManager.streamCount), trade.State.symbol)
    {
      ghost var before := tradeStreamManager.View();
      tradeStreamManager.RemoveSymbol(trade.State.symbol);
      assert tradeStreamManager.View().counts == StreamStep(before, Remove(trade.State.symbol)).counts;
    }

    // ---------- commands on one trade ----------

    method CloseTrade(trade: Trade, status: TradeStatus, closeTime: Option<int>, now: int)
      requires Valid() && Live(trade)
      modifies trade`State, tradeStreamManager`streamCount
      ensures Valid() && trade.State == TradeOps.CloseTrade(old(trade.State), status, closeTime, now)
      ensures tradeStreamManager.streamCount ==
              RemoveCount(old(tradeStreamManager.streamCount), old(trade.State.symbol))
    {
      hide Valid;
      var time := closeTime;
      if time == None {
        time := Some(now);
      }
      Store(trade, trade.State.(status := status));
      Store(trade, trade.State.(closeTime := time));
      RemoveStream(trade);
    }

    method AbandonTrade(trade: Trade, now: int)
      requires Valid() && Live(trade)
      modifies trade`State, tradeStreamManager`streamCount
      ensures Valid()
      ensures trade.State == if IsDone(old(trade.State)) then old(trade.State)
                             else TradeOps.CloseTrade(old(trade.State), Abandoned, None, now)
      ensures tradeStreamManager.streamCount ==
              if IsDone(old(trade.State)) then old(tradeStreamManager.streamCount)
              else RemoveCount(old(tradeStreamManager.streamCount), old(trade.State.symbol))
    {
      var done := trade.IsDone();
      if !done {
        CloseTrade(trade, Abandoned, None, now);
      }
    }

    method CancelBuy(trade: Trade)
      requires Valid() && Live(trade)
      modifies trade`Sent
      ensures Valid() && trade.Sent == old(trade.Sent) + [Cancel(trade.State.buyOrderId)]
    {
      trade.Sent := trade.Sent + [Cancel(trade.State.buyOrderId)];
      ValidAfter(trade);
    }

    /** Settings the handlers write straight into the trade. */
    method ChangeSettings(trade: Trade, command: Command)
      requires Valid() && Live(trade)
      requires command.SetLimitSellByPercent? || command.SetLimitSellByPrice? || command.DisableLimitSell?
               || command.SetStopLoss? || command.SetTrailingProfit?
      modifies trade`State
      ensures Valid() && trade.View() == DoCommand(binanceExchangeInfo, old(trade.View()), command)
    {
      match command {
        case SetLimitSellByPercent(percent) => trade.SetLimitSellByPercent(percent);
        case SetLimitSellByPrice(price) => trade.SetLimitSellByPrice(price);
        case DisableLimitSell =>
          trade.State := trade.State.(limitSell := trade.State.limitSell.(enabled := false));
        case SetStopLoss(enable, percent) => trade.SetStopLoss(enable, percent);
        case SetTrailingProfit(enable, percent, deviation) => trade.SetTrailingProfit(enable, percent, deviation);
      }
      ValidAfter(trade);
    }

    predicate Performable(trade: Trade, command: Command)
      reads this
    {
      && !command.Recover?
      && (command.PostBuy? ==>
            command.order.clientOrderId in TradesByClientID && TradesByClientID[command.order.clientOrderId] == trade)
    }

    lemma OwnIdIsIndexed(trade: Trade, orderId: string)
      requires Valid() && Live(trade) && orderId in trade.State.clientOrderIds
      ensures orderId in TradesByClientID && TradesByClientID[orderId] == trade
    {
      var id :| id in TradesByLocalID && TradesByLocalID[id] == trade;
      assert HoldsId(id, orderId);
    }

    method Perform(trade: Trade, command: Command)
      requires Valid() && Live(trade) && FreeIds(trade, IssuedIds(CommandOp(command))) && Performable(trade, command)
      modifies this`TradesByClientID, trade, tradeStreamManager`streamCount
      ensures Valid() && OnlyIndexed(trade, IssuedIds(CommandOp(command)))
      ensures trade.View() == DoCommand(binanceExchangeInfo, old(trade.View()), command)
      ensures tradeStreamManager.streamCount ==
              if Releases(old(trade.State), CommandOp(command), trade.State)
              then RemoveCount(old(tradeStreamManager.streamCount), old(trade.State.symbol))
              else old(tradeStreamManager.streamCount)
    {
      hide Valid, DoMarketSell, DoLimitSellByPercent, DoLimitSellByPrice;
      match command {
        case PostBuy(order) => PostOrder(trade, order);
        case SetLimitSellByPercent(_) => ChangeSettings(trade, command);
        case SetLimitSellByPrice(_) => ChangeSettings(trade, command);
        case DisableLimitSell => ChangeSettings(trade, command);
        case SetStopLoss(_, _) => ChangeSettings(trade, command);
        case SetTrailingProfit(_, _, _) => ChangeSettings(trade, command);
        case CancelBuy => CancelBuy(trade);
        case CancelSell(ok) => CancelSell(trade, ok);
        case MarketSell(oracle) => var _ := MarketSell(trade, oracle);
        case LimitSellByPercent(percent, oracle) => var _ := LimitSellByPercent(trade, percent, oracle);
        case LimitSellByPrice(price, oracle) => var _ := LimitSellByPrice(trade, Finite(price), oracle);
        case Fail(now) => CloseTrade(trade, Failed, None, now);
        case Abandon(now) => AbandonTrade(trade, now);
      }
    }

    /** A handler's call on a live trade, under the lock. */
    method Execute(trade: Trade, command: Command)
      requires Valid() && Live(trade) && Performable(trade, command)
      requires FreshIds(View(), OnTrade(trade.State.tradeId, command))
      modifies this`TradesByClientID, trade, tradeStreamManager`streamCount
      ensures Valid() && TradesByLocalID == old(TradesByLocalID)
      ensures trade.State.tradeId == old(trade.State.tradeId)
      ensures old(trade.State.clientOrderIds) <= trade.State.clientOrderIds
      ensures View() == Step(old(View()), OnTrade(old(trade.State.tradeId), command))
    {
      hide Valid, DoCommand, Commit, RemoveCount, Agreement, View, Apply, Releases, IssuedIds, Performable;
      ghost var e := View();
      ghost var id := trade.State.tradeId;
      StoredUnderId(trade);
      ViewOf(id);
      FreeIdsOf(trade, IssuedIds(CommandOp(command)));
      ViewAgrees();
      CommandIsOp(binanceExchangeInfo, trade.View(), command);
      Perform(trade, command);
      OthersUnchanged(trade);
      ViewOf(id);
      Committed(e, trade, CommandOp(command));
    }

    lemma CommandIsOp(info: ExchangeInfo, t: Tracked, command: Command)
      ensures Apply(info, t, CommandOp(command)) == DoCommand(info, t, command)
      ensures DoCommand(info, t, command).state.tradeId == t.state.tradeId
      ensures t.state.clientOrderIds <= DoCommand(info, t, command).state.clientOrderIds
    {
      ApplyAppends(info, t, CommandOp(command));
      hide DoCommand;
    }

    // ---------- trades that enter and leave ----------

    /** A trade that is not in the service, with IDs the service does not know. */
    ghost predicate Newcomer(trade: Trade, id: string)
      reads this, trade
    {
      && trade !in TradesByLocalID.Values && trade.Sent == []
      && id !in TradesByLocalID && trade.State.clientOrderIds !! TradesByClientID.Keys
    }

    method IndexClientOrderIds(trade: Trade)
      modifies this`TradesByClientID
      ensures TradesByClientID == old(TradesByClientID) + map c | c in trade.State.clientOrderIds :: trade
    {
      var todo := trade.State.clientOrderIds;
      while todo != {}
        invariant todo <= trade.State.clientOrderIds
        invariant TradesByClientID == old(TradesByClientID) + map c | c in trade.State.clientOrderIds - todo :: trade
        decreases |todo|
      {
        var clientOrderId :| clientOrderId in todo;
        IndexOneMore(old(TradesByClientID), trade.State.clientOrderIds, todo, clientOrderId, trade);
        TradesByClientID := TradesByClientID[clientOrderId := trade];
        todo := todo - {clientOrderId};
      }
      assert trade.State.clientOrderIds - {} == trade.State.clientOrderIds;
    }

    static lemma IndexOneMore(index: map<string, Trade>, all: set<string>, todo: set<string>, c: string, trade: Trade)
      requires c in todo && todo <= all
      ensures index + (map x | x in all - (todo - {c}) :: trade) == (index + map x | x in all - todo :: trade)[c := trade]
    {
    }

    lemma NewcomerMeans(trade: Trade, id: string)
      ensures Newcomer(trade, id) <==>
              trade !in TradesByLocalID.Values && trade.Sent == []
              && id !in TradesByLocalID && trade.State.clientOrderIds !! TradesByClientID.Keys
    {
    }

    /** Puts a trade into both maps. */
    method Enlist(trade: Trade)
      requires Valid() && Newcomer(trade, trade.State.tradeId)
      modifies this
      ensures Valid() && Live(trade) && TradesByLocalID == old(TradesByLocalID)[trade.State.tradeId := trade]
      ensures View().trades == old(View()).trades[trade.State.tradeId := trade.View()]
    {
      hide *;
      NewcomerMeans(trade, trade.State.tradeId);
      ghost var byId, byClient := TradesByLocalID, TradesByClientID;
      EveryHolder();
      TradesByLocalID := TradesByLocalID[trade.State.tradeId := trade];
      IndexClientOrderIds(trade);
      Enlisted(byId, byClient, trade);
    }

    /** What `Valid` says, as a relation between two maps. */
    static ghost predicate Consistent(byId: map<string, Trade>, byClient: map<string, Trade>)
      reads byId.Values, byClient.Values
    {
      && (forall id | id in byId :: byId[id].State.tradeId == id)
      && (forall id, c | id in byId && c in byId[id].State.clientOrderIds :: c in byClient && byClient[c] == byId[id])
      && (forall c | c in byClient ::
            var id := byClient[c].State.tradeId;
            id in byId && byId[id] == byClient[c] && c in byId[id].State.clientOrderIds)
    }

    static ghost function ViewOfMaps(info: ExchangeInfo, byId: map<string, Trade>, byClient: map<string, Trade>,
                                     counts: Counts): Engine
      reads byId.Values, byClient.Values
    {
      Engine(info, map id | id in byId :: byId[id].View(), map c | c in byClient :: byClient[c].State.tradeId, counts)
    }

    lemma EveryHolder()
      requires Valid()
      ensures Consistent(TradesByLocalID, TradesByClientID)
      ensures View() ==
              ViewOfMaps(binanceExchangeInfo, TradesByLocalID, TradesByClientID, tradeStreamManager.streamCount)
    {
      forall id, c | id in TradesByLocalID && c in TradesByLocalID[id].State.clientOrderIds
        ensures c in TradesByClientID && TradesByClientID[c] == TradesByLocalID[id]
      {
        assert HoldsId(id, c);
      }
      forall c | c in TradesByClientID
        ensures c in TradesByClientID[c].State.clientOrderIds
        ensures TradesByClientID[c].State.tradeId in TradesByLocalID
        ensures TradesByLocalID[TradesByClientID[c].State.tradeId] == TradesByClientID[c]
      {
        assert HoldsId(TradesByClientID[c].State.tradeId, c);
        var id :| id in TradesByLocalID && TradesByLocalID[id] == TradesByClientID[c];
      }
    }

    lemma Enlisted(byId: map<string, Trade>, byClient: map<string, Trade>, trade: Trade)
      requires Consistent(byId, byClient)
      requires trade.State.tradeId !in byId && trade.State.clientOrderIds !! byClient.Keys
      requires TradesByLocalID == byId[trade.State.tradeId := trade]
      requires TradesByClientID == byClient + map c | c in trade.State.clientOrderIds :: trade
      ensures Valid() && Live(trade)
      ensures View().trades ==
              ViewOfMaps(binanceExchangeInfo, byId, byClient, tradeStreamManager.streamCount)
              .trades[trade.State.tradeId := trade.View()]
    {
      assert TradesByLocalID[trade.State.tradeId] == trade;
      forall c | c in TradesByClientID
        ensures TradesByClientID[c] in TradesByLocalID.Values && HoldsId(TradesByClientID[c].State.tradeId, c)
      {
        var id := TradesByClientID[c].State.tradeId;
        assert TradesByLocalID[id] == TradesByClientID[c];
      }
    }

    /** A trade object that joined the others is the step that enters it. */
    lemma Entered(e: Engine, trade: Trade)
      requires Valid() && Agreement(e) && e.info == binanceExchangeInfo
      requires trade.State.tradeId !in e.trades && trade.State.clientOrderIds !! e.index.Keys
      requires View().trades == e.trades[trade.State.tradeId := Tracked(trade.State, [])]
      requires View().counts == if IsDone(trade.State) then e.counts else AddCount(e.counts, trade.State.symbol)
      ensures View() == Enter(e, trade.State)
    {
      hide Agreement, Valid;
      ViewAgrees();
      EnterAgreement(e, trade.State);
      AgreementUnique(View(), Enter(e, trade.State));
    }

    lemma LastWins(trades: map<string, Tracked>, id: string, t: Tracked, u: Tracked)
      ensures trades[id := t][id := u] == trades[id := u]
    {
    }

    method RefreshSellable(trade: Trade)
      requires Valid() && Live(trade)
      modifies trade`State
      ensures Valid() && SameIdentity(old(trade.State), trade.State)
      ensures trade.State == UpdateSellable(binanceExchangeInfo, old(trade.State))
      ensures View().trades == old(View()).trades[old(trade.State.tradeId) := trade.View()]
    {
      UpdateSellableQuantity(trade);
      OthersUnchanged(trade);
    }

    method FillLastPrice(trade: Trade, ticker: Option<real>)
      requires Valid() && Live(trade)
      modifies trade`State
      ensures Valid()
      ensures trade.State == old(trade.State).(lastPrice :=
                if ticker.Some? && old(trade.State.lastPrice) == 0.0 then ticker.value else old(trade.State.lastPrice))
      ensures View().trades == old(View()).trades[old(trade.State.tradeId) := trade.View()]
    {
      if ticker.Some? {
        if trade.State.lastPrice == 0.0 {
          Store(trade, trade.State.(lastPrice := ticker.value));
        }
      }
      OthersUnchanged(trade);
    }

    method RestoreTrade(trade: Trade)
      requires Valid() && Newcomer(trade, trade.State.tradeId)
      modifies this, trade, tradeStreamManager
      ensures Valid() && Live(trade) && TradesByLocalID == old(TradesByLocalID)[trade.State.tradeId := trade]
      ensures SameIdentity(old(trade.State), trade.State)
      ensures View() == Step(old(View()), Event.RestoreTrade(old(trade.State)))
    {
      ghost var e := View();
      ViewAgrees();
      assert e.counts == tradeStreamManager.streamCount;
      StepEnters(e, trade.State, "", None);
      hide Valid, View, UpdateSellable, Agreement, AddCount, Step, Enter;
      Enlist(trade);
      ghost var id := trade.State.tradeId;
      ghost var t := trade.View();
      RefreshSellable(trade);
      LastWins(e.trades, id, t, trade.View());
      assert View().trades == e.trades[id := trade.View()];
      AddStreamUnlessDone(trade);
      ViewOf(id);
      Entered(e, trade);
    }

    method NameTrade(trade: Trade, newId: string)
      requires Valid() && trade !in TradesByLocalID.Values
      modifies trade`State
      ensures Valid() && View() == old(View())
      ensures trade.State == old(trade.State).(tradeId := NewTradeId(old(trade.State), newId), status := New)
    {
      if trade.State.tradeId == "" {
        trade.State := trade.State.(tradeId := newId);
      }
      trade.State := trade.State.(status := New);
    }

    method AddNewTrade(trade: Trade, newId: string, ticker: Option<real>)
      requires Valid() && Newcomer(trade, NewTradeId(trade.State, newId))
      modifies this, trade, tradeStreamManager
      ensures Valid() && Live(trade) && TradesByLocalID == old(TradesByLocalID)[trade.State.tradeId := trade]
      ensures trade.State.tradeId == NewTradeId(old(trade.State), newId)
      ensures trade.State.clientOrderIds == old(trade.State.clientOrderIds)
      ensures View() == Step(old(View()), Event.AddNewTrade(old(trade.State), newId, ticker))
    {
      ghost var e := View();
      ViewAgrees();
      StepEnters(e, trade.State, newId, ticker);
      assert e.counts == tradeStreamManager.streamCount && e.info == binanceExchangeInfo;
      assert e.trades.Keys == TradesByLocalID.Keys && e.index.Keys == TradesByClientID.Keys;
      hide *;
      NewcomerMeans(trade, NewTradeId(trade.State, newId));
      NameTrade(trade, newId);
      NewcomerMeans(trade, trade.State.tradeId);
      Enlist(trade);
      AddStream(trade);
      ghost var id, t := trade.State.tradeId, trade.View();
      FillLastPrice(trade, ticker);
      LastWins(e.trades, id, t, trade.View());
      ViewOf(trade.State.tradeId);
      AddedTradeIs(old(trade.State), newId, ticker, trade.State);
      Entered(e, trade);
    }

    lemma AddedTradeIs(s: TradeState, newId: string, ticker: Option<real>, u: TradeState)
      requires u == s.(tradeId := NewTradeId(s, newId), status := New,
                       lastPrice := if ticker.Some? && s.lastPrice == 0.0 then ticker.value else s.lastPrice)
      ensures u == AddedTrade(s, newId, ticker) && !IsDone(u)
    {
    }

    lemma StepEnters(e: Engine, s: TradeState, newId: string, ticker: Option<real>)
      ensures Step(e, Event.RestoreTrade(s)) == Enter(e, UpdateSellable(e.info, s))
      ensures Step(e, Event.AddNewTrade(s, newId, ticker)) == Enter(e, AddedTrade(s, newId, ticker))
    {
    }

    method AddStreamUnlessDone(trade: Trade)
      requires Valid()
      modifies tradeStreamManager
      ensures Valid() && View().trades == old(View()).trades
      ensures tradeStreamManager.streamCount ==
              if IsDone(trade.State) then old(tradeStreamManager.streamCount)
              else AddCount(old(tradeStreamManager.streamCount), trade.State.symbol)
    {
      var done := trade.IsDone();
      if !done {
        AddStream(trade);
      }
    }

    /** `AddSymbol` for the trade's symbol. */
    method AddStream(trade: Trade)
      requires Valid()
      modifies tradeStreamManager
      ensures Valid() && View().trades == old(View()).trades
      ensures tradeStreamManager.streamCount == AddCount(old(tradeStreamManager.streamCount), trade.State.symbol)
    {
      ghost var before := tradeStreamManager.View();
      tradeStreamManager.AddSymbol(trade.State.symbol);
      assert tradeStreamManager.View().counts == StreamStep(before, Add(trade.State.symbol)).counts;
    }

    lemma LiveMeans(trade: Trade)
      ensures Live(trade) <==> trade in TradesByLocalID.Values
    {
    }

    method RemoveTrade(trade: Trade)
      requires Valid() && Live(trade)
      modifies this
      ensures Valid() && TradesByLocalID == old(TradesByLocalID) - {trade.State.tradeId}
      ensures trade.State.tradeId in old(View()).trades && View() == Leave(old(View()), trade.State.tradeId)
    {
      hide *;
      ghost var e, byId, byClient := View(), TradesByLocalID, TradesByClientID;
      EveryHolder();
      LiveMeans(trade);
      TradesByLocalID := TradesByLocalID - {trade.State.tradeId};
      ForgetClientOrderIds(trade);
      Delisted(e, byId, byClient, trade);
    }

    method ForgetClientOrderIds(trade: Trade)
      modifies this`TradesByClientID
      ensures TradesByClientID == old(TradesByClientID) - trade.State.clientOrderIds
    {
      var todo := trade.State.clientOrderIds;
      ghost var done: set<string> := {};
      while todo != {}
        invariant done + todo == trade.State.clientOrderIds && done !! todo
        invariant TradesByClientID == old(TradesByClientID) - done
        decreases |todo|
      {
        var clientOrderId :| clientOrderId in todo;
        TradesByClientID := TradesByClientID - {clientOrderId};
        todo := todo - {clientOrderId};
        done := done + {clientOrderId};
      }
      assert done == trade.State.clientOrderIds;
    }

    lemma Delisted(e: Engine, byId: map<string, Trade>, byClient: map<string, Trade>, trade: Trade)
      requires Consistent(byId, byClient)
      requires trade in byId.Values
      requires e == ViewOfMaps(binanceExchangeInfo, byId, byClient, tradeStreamManager.streamCount)
      requires TradesByLocalID == byId - {trade.State.tradeId}
      requires TradesByClientID == byClient - trade.State.clientOrderIds
      ensures Valid() && trade.State.tradeId in e.trades && View() == Leave(e, trade.State.tradeId)
    {
      var x :| x in byId && byId[x] == trade;
      forall id, c | HoldsId(id, c) ensures c in TradesByClientID && TradesByClientID[c] == TradesByLocalID[id] {
        assert byClient[c] == byId[id];
        assert id != trade.State.tradeId && byClient[c] != trade;
      }
      forall c | c in TradesByClientID
        ensures TradesByClientID[c] in TradesByLocalID.Values && HoldsId(TradesByClientID[c].State.tradeId, c)
      {
        var id := TradesByClientID[c].State.tradeId;
        assert TradesByLocalID[id] == TradesByClientID[c];
      }
    }

    /** `saved`: the database took the trade. */
    method ArchiveTrade(trade: Trade, saved: bool) returns (ok: bool)
      requires Valid() && Live(trade)
      modifies this
      ensures Valid() && ok == (IsDone(trade.State) && saved)
      ensures View() == Step(old(View()), Event.ArchiveTrade(trade.State.tradeId, saved))
    {
      ghost var e := View();
      StoredUnderId(trade);
      ViewOf(trade.State.tradeId);
      hide Valid, View, Leave;
      var done := trade.IsDone();
      if done {
        if !saved {
          return false;
        }
        RemoveTrade(trade);
        return true;
      }
      return false;
    }

    // ---------- one price tick for all trades ----------

    method TickTrade(id: string, symbol: string, price: real, oracle: TickOracle)
      requires Valid() && id in TradesByLocalID
      requires FreeIds(TradesByLocalID[id], IssuedIds(TickOp(symbol, price, oracle)))
      modifies this`TradesByClientID, TradesByLocalID[id]
      ensures Valid() && TradesByLocalID == old(TradesByLocalID)
      ensures forall c | c in TradesByClientID ::
                if c in old(TradesByClientID) then TradesByClientID[c] == old(TradesByClientID)[c]
                else c in IssuedIds(TickOp(symbol, price, oracle)) && TradesByClientID[c] == TradesByLocalID[id]
      ensures id in old(View()).trades
      ensures View().trades == old(View()).trades[id := OnTick(old(View()).trades[id], symbol, price, oracle)]
    {
      var trade := TradesByLocalID[id];
      ViewOf(id);
      assert trade.State.tradeId == id;
      TickIsOp(binanceExchangeInfo, trade.View(), symbol, price, oracle);
      ApplyAppends(binanceExchangeInfo, trade.View(), TickOp(symbol, price, oracle));
      hide Valid, OnTick, Apply;
      OnLastTradeOf(trade, symbol, price, oracle);
      OthersUnchanged(trade);
    }

    /** The client IDs the trades in `todo` may still be given are theirs to take. */
    ghost predicate StillFree(todo: set<string>, symbol: string, price: real, oracles: string -> TickOracle)
      reads this
    {
      forall id | id in todo && id in TradesByLocalID ::
        FreeIds(TradesByLocalID[id], IssuedIds(TickOp(symbol, price, oracles(id))))
    }

    static ghost function TickSome(trades: map<string, Tracked>, todo: set<string>, symbol: string, price: real,
                                   oracles: string -> TickOracle): map<string, Tracked>
    {
      map id | id in trades :: if id in todo then trades[id] else OnTick(trades[id], symbol, price, oracles(id))
    }

    static lemma TickOneMore(trades: map<string, Tracked>, todo: set<string>, id: string, symbol: string, price: real,
                             oracles: string -> TickOracle)
      requires id in todo && id in trades
      ensures TickSome(trades, todo, symbol, price, oracles)[id] == trades[id]
      ensures TickSome(trades, todo - {id}, symbol, price, oracles) ==
              TickSome(trades, todo, symbol, price, oracles)[id := OnTick(trades[id], symbol, price, oracles(id))]
    {
      hide OnTick;
    }

    static lemma TickSomeEnds(trades: map<string, Tracked>, symbol: string, price: real, oracles: string -> TickOracle)
      ensures TickSome(trades, trades.Keys, symbol, price, oracles) == trades
      ensures TickSome(trades, {}, symbol, price, oracles) == TickAll(trades, symbol, price, oracles)
    {
      hide OnTick;
    }

    ghost predicate FreeInOthers(was: map<string, Trade>, ids: set<string>, todo: set<string>, symbol: string,
                                 price: real, oracles: string -> TickOracle)
      reads this`TradesByLocalID
    {
      forall id, c | id in todo && id in TradesByLocalID && c in IssuedIds(TickOp(symbol, price, oracles(id))) ::
        (c in was ==> was[c] == TradesByLocalID[id]) && c !in ids
    }

    lemma OthersAreFree(e: Engine, id: string, todo: set<string>, symbol: string, price: real,
                        oracles: string -> TickOracle)
      requires FreshTick(e, symbol, price, oracles) && StillFree(todo, symbol, price, oracles)
      requires e.trades.Keys == TradesByLocalID.Keys && id in todo && id in TradesByLocalID
      ensures FreeInOthers(TradesByClientID, IssuedIds(TickOp(symbol, price, oracles(id))), todo - {id}, symbol, price,
                           oracles)
      ensures FreeIds(TradesByLocalID[id], IssuedIds(TickOp(symbol, price, oracles(id))))
    {
      hide IssuedIds, FreeFor;
    }

    /** One trade's new client IDs are not those another trade is about to take. */
    lemma OthersStayFree(was: map<string, Trade>, trade: Trade, ids: set<string>, todo: set<string>, symbol: string,
                         price: real, oracles: string -> TickOracle)
      requires forall c | c in TradesByClientID ::
                 if c in was then TradesByClientID[c] == was[c] else c in ids && TradesByClientID[c] == trade
      requires FreeInOthers(was, ids, todo, symbol, price, oracles)
      ensures StillFree(todo, symbol, price, oracles)
    {
      hide IssuedIds;
    }

    /** The trades in `todo` have not seen the tick yet, the others have. */
    ghost predicate Ticking(e: Engine, todo: set<string>, symbol: string, price: real, oracles: string -> TickOracle)
      reads this, TradesByLocalID.Values, tradeStreamManager
    {
      && Valid() && todo <= TradesByLocalID.Keys
      && View().trades == TickSome(e.trades, todo, symbol, price, oracles)
      && StillFree(todo, symbol, price, oracles)
    }

    lemma BeforeTick(e: Engine, todo: set<string>, id: string, symbol: string, price: real,
                     oracles: string -> TickOracle)
      requires Ticking(e, todo, symbol, price, oracles) && id in todo && FreshTick(e, symbol, price, oracles)
      ensures Valid() && id in TradesByLocalID && todo <= TradesByLocalID.Keys
      ensures var ids := IssuedIds(TickOp(symbol, price, oracles(id)));
              FreeIds(TradesByLocalID[id], ids)
              && FreeInOthers(TradesByClientID, ids, todo - {id}, symbol, price, oracles)
      ensures id in View().trades
      ensures View().trades[id := OnTick(View().trades[id], symbol, price, oracles(id))] ==
              TickSome(e.trades, todo - {id}, symbol, price, oracles)
    {
      assert e.trades.Keys == TickSome(e.trades, todo, symbol, price, oracles).Keys == View().trades.Keys;
      hide OnTick, IssuedIds, FreeInOthers, StillFree, FreshTick, FreeIds;
      ViewOf(id);
      OthersAreFree(e, id, todo, symbol, price, oracles);
      TickOneMore(e.trades, todo, id, symbol, price, oracles);
    }

    method TickNext(ghost e: Engine, ghost todo: set<string>, id: string, symbol: string, price: real,
                    oracles: string -> TickOracle)
      requires Ticking(e, todo, symbol, price, oracles) && id in todo && FreshTick(e, symbol, price, oracles)
      requires id in TradesByLocalID
      modifies this`TradesByClientID, TradesByLocalID[id]
      ensures TradesByLocalID == old(TradesByLocalID) && Ticking(e, todo - {id}, symbol, price, oracles)
    {
      hide *;
      BeforeTick(e, todo, id, symbol, price, oracles);
      ghost var ids := IssuedIds(TickOp(symbol, price, oracles(id)));
      TickTrade(id, symbol, price, oracles(id));
      OthersStayFree(old(TradesByClientID), TradesByLocalID[id], ids, todo - {id}, symbol, price, oracles);
      AfterTick(e, todo - {id}, symbol, price, oracles);
    }

    lemma AfterTick(e: Engine, todo: set<string>, symbol: string, price: real, oracles: string -> TickOracle)
      requires Valid() && todo <= TradesByLocalID.Keys && StillFree(todo, symbol, price, oracles)
      requires View().trades == TickSome(e.trades, todo, symbol, price, oracles)
      ensures Ticking(e, todo, symbol, price, oracles)
    {
      hide Valid, StillFree, TickSome;
    }

    lemma StartTick(symbol: string, price: real, oracles: string -> TickOracle)
      requires Valid() && FreshIds(View(), LastTrade(symbol, price, oracles))
      ensures Agreement(View()) && FreshTick(View(), symbol, price, oracles)
      ensures View().info == binanceExchangeInfo && View().counts == tradeStreamManager.streamCount
      ensures Ticking(View(), TradesByLocalID.Keys, symbol, price, oracles)
    {
      ViewAgrees();
      hide OnTick, IssuedIds, FreeIds;
      TickSomeEnds(View().trades, symbol, price, oracles);
      assert View().trades.Keys == TradesByLocalID.Keys;
      forall id | id in TradesByLocalID
        ensures FreeIds(TradesByLocalID[id], IssuedIds(TickOp(symbol, price, oracles(id))))
      {
        FreeIdsOf(TradesByLocalID[id], IssuedIds(TickOp(symbol, price, oracles(id))));
      }
    }

    lemma FinishTick(e: Engine, symbol: string, price: real, oracles: string -> TickOracle)
      requires Ticking(e, {}, symbol, price, oracles) && Agreement(e) && FreshTick(e, symbol, price, oracles)
      requires e.info == binanceExchangeInfo && e.counts == tradeStreamManager.streamCount
      ensures Valid()
      ensures View() == Step(e, LastTrade(symbol, price, oracles))
    {
      hide OnTick, FreshTick, Valid, StillFree, Agreement, TickSome;
      TickSomeEnds(e.trades, symbol, price, oracles);
      TickAgreement(e, symbol, price, oracles);
      ViewAgrees();
      AgreementUnique(View(), Step(e, LastTrade(symbol, price, oracles)));
    }

    method OnLastTrade(symbol: string, price: real, oracles: string -> TickOracle)
      requires Valid() && FreshIds(View(), LastTrade(symbol, price, oracles))
      modifies this`TradesByClientID, TradesByLocalID.Values
      ensures Valid() && TradesByLocalID == old(TradesByLocalID)
      ensures View() == Step(old(View()), LastTrade(symbol, price, oracles))
    {
      hide *;
      ghost var e := View();
      StartTick(symbol, price, oracles);
      var todo := TradesByLocalID.Keys;
      while todo != {}
        invariant todo <= TradesByLocalID.Keys && TradesByLocalID == old(TradesByLocalID)
        invariant Ticking(e, todo, symbol, price, oracles)
        decreases |todo|
      {
        var id :| id in todo;
        TickNext(e, todo, id, symbol, price, oracles);
        todo := todo - {id};
      }
      FinishTick(e, symbol, price, oracles);
    }
  }
}
