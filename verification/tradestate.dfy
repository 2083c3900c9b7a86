/** The value a trade carries, `TradeState`, and what `go/types/trade.go` computes from it. */
module TradeModel {
  import opened Numbers
  import opened Fills

  datatype Option<+T> = None | Some(value: T)

  datatype TradeStatus = New | Failed | PendingBuy | Watching | PendingSell | Done | Canceled | Abandoned

  /** An exchange order status; `Unset` is the empty string of a trade that saw no report yet. */
  datatype OrderStatus = Unset | OrderNew | OrderPartiallyFilled | OrderFilled | OrderCanceled | OrderOther(name: string)

  datatype LimitSellKind = ByPercent | ByPrice | Unknown

  datatype OrderTerms = OrderTerms(quantity: real, price: real)

  datatype SellOrder = SellOrder(status: OrderStatus, orderType: string, quantity: real, price: real)

  datatype StopLoss = StopLoss(enabled: bool, percent: real, triggered: bool)

  datatype LimitSell = LimitSell(enabled: bool, kind: LimitSellKind, percent: real, price: Number)

  datatype TrailingProfit =
    TrailingProfit(enabled: bool, percent: real, deviation: real, activated: bool, price: real, triggered: bool)

  datatype TradeState = TradeState(
    tradeId: string,
    symbol: string,
    openTime: int,
    closeTime: Option<int>,
    status: TradeStatus,
    fee: real,
    clientOrderIds: set<string>,
    buyOrderId: int,
    buyOrder: OrderTerms,
    buyFills: seq<OrderFill>,
    buyFillQuantity: real,
    sellableQuantity: real,
    averageBuyPrice: real,
    buyCost: real,
    effectiveBuyPrice: real,
    sellOrderId: int,
    sellFills: seq<OrderFill>,
    sellFillQuantity: real,
    averageSellPrice: real,
    sellCost: real,
    stopLoss: StopLoss,
    limitSell: LimitSell,
    trailing: TrailingProfit,
    profit: real,
    profitPercent: Number,
    lastBuyStatus: OrderStatus,
    sellOrder: SellOrder,
    lastPrice: real
  )

  /** The state `NewTrade` starts from. */
  function NewTradeState(now: int): TradeState {
    TradeState(
      "", "", now, None, New, DEFAULT_FEE, {},
      0, OrderTerms(0.0, 0.0), [], 0.0, 0.0, 0.0, 0.0, 0.0,
      0, [], 0.0, 0.0, 0.0,
      StopLoss(false, 0.0, false),
      LimitSell(false, Unknown, 0.0, Finite(0.0)),
      TrailingProfit(false, 0.0, 0.0, false, 0.0, false),
      0.0, Finite(0.0), Unset, SellOrder(Unset, "", 0.0, 0.0), 0.0)
  }

  /** Nothing has been bought, sold, set or heard, and the fee is a tenth of a percent. */
  predicate Blank(s: TradeState, openTime: int) {
    && s.status == New && s.openTime == openTime && s.closeTime == None && s.fee == 0.001
    && s.tradeId == s.symbol == "" && s.clientOrderIds == {} && s.lastPrice == 0.0
    && s.buyOrderId == s.sellOrderId == 0 && s.lastBuyStatus == s.sellOrder.status == Unset && s.sellOrder.orderType == ""
    && s.buyOrder.quantity == s.buyOrder.price == s.sellOrder.quantity == s.sellOrder.price == 0.0
    && s.buyFills == s.sellFills == [] && s.buyFillQuantity == s.sellableQuantity == s.sellFillQuantity == 0.0
    && s.averageBuyPrice == s.effectiveBuyPrice == s.averageSellPrice == 0.0
    && s.buyCost == s.sellCost == s.profit == 0.0 && s.profitPercent == Finite(0.0)
    && !s.stopLoss.enabled && !s.stopLoss.triggered && s.stopLoss.percent == 0.0
    && !s.limitSell.enabled && s.limitSell.kind == Unknown && s.limitSell.percent == 0.0
    && s.limitSell.price == Finite(0.0)
    && !s.trailing.enabled && !s.trailing.activated && !s.trailing.triggered
    && s.trailing.percent == s.trailing.deviation == s.trailing.price == 0.0
  }

  predicate IsDone(s: TradeState) {
    s.status == Done || s.status == Canceled || s.status == Failed || s.status == Abandoned
  }

  function FeeAsset(s: TradeState): string {
    FeeAssetOf(s.buyFills)
  }

  // ---------- aggregates ----------

  function UpdateBuy(s: TradeState): TradeState {
    var quantity := Sum(s.buyFills, Received);
    if quantity > 0.0 then
      s.(averageBuyPrice := Round8(Sum(s.buyFills, Notional) / quantity),
         buyFillQuantity := Round8(quantity),
         buyCost := Round8(Sum(s.buyFills, BuyCharge)),
         effectiveBuyPrice := Round8(Sum(s.buyFills, BuyCharge) / quantity),
         fee := LastFee(s.buyFills))
    else
      s
  }

  function UpdateSell(s: TradeState): TradeState {
    var quantity := Sum(s.sellFills, Quantity);
    if quantity > 0.0 then
      var sellCost := Round8(Sum(s.sellFills, Proceeds));
      s.(averageSellPrice := Round8(Sum(s.sellFills, Notional) / quantity),
         sellFillQuantity := Round8(quantity),
         sellCost := sellCost,
         profit := Round8(sellCost - s.buyCost),
         profitPercent := Round8Number(Percent(sellCost - s.buyCost, s.buyCost)))
    else
      s
  }

  function AddBuyFill(s: TradeState, fill: OrderFill): TradeState {
    UpdateBuy(s.(buyFills := s.buyFills + [fill]))
  }

  function AddSellFill(s: TradeState, fill: OrderFill): TradeState {
    UpdateSell(s.(sellFills := s.sellFills + [fill]))
  }

  /** `NewTradeWithState`: the sell side first, then the buy side. */
  function Reload(s: TradeState): TradeState {
    UpdateBuy(UpdateSell(s))
  }

  // ---------- settled aggregates ----------

  /** The buy aggregates are the ones the buy fills call for. */
  predicate BuySettled(s: TradeState) {
    UpdateBuy(s) == s
  }

  /** Likewise the sell aggregates; profit is relative to a buy cost that may have moved since. */
  predicate SellSettled(s: TradeState) {
    UpdateSell(s) == s.(profit := UpdateSell(s).profit, profitPercent := UpdateSell(s).profitPercent)
  }

  /** The profit fields are those of the current buy cost. */
  predicate ProfitSettled(s: TradeState) {
    Sum(s.sellFills, Quantity) > 0.0 ==>
      && s.profit == s.sellCost - s.buyCost
      && s.profitPercent == Round8Number(Percent(s.sellCost - s.buyCost, s.buyCost))
  }

  /** The buy aggregates depend on the fills only through their multiset and the commission asset of the last. */
  lemma BuyAggregatesOfPermutation(s: TradeState, t: TradeState)
    requires BuySettled(s) && BuySettled(t)
    requires multiset(s.buyFills) == multiset(t.buyFills) && LastFee(s.buyFills) == LastFee(t.buyFills)
    requires Sum(s.buyFills, Received) > 0.0
    ensures s.averageBuyPrice == t.averageBuyPrice && s.buyFillQuantity == t.buyFillQuantity
    ensures s.buyCost == t.buyCost && s.effectiveBuyPrice == t.effectiveBuyPrice && s.fee == t.fee
  {
    SumPermutation(s.buyFills, t.buyFills, Received);
    SumPermutation(s.buyFills, t.buyFills, Notional);
    SumPermutation(s.buyFills, t.buyFills, BuyCharge);
  }

  lemma SellAggregatesOfPermutation(s: TradeState, t: TradeState)
    requires SellSettled(s) && SellSettled(t)
    requires multiset(s.sellFills) == multiset(t.sellFills)
    requires Sum(s.sellFills, Quantity) > 0.0
    ensures s.averageSellPrice == t.averageSellPrice && s.sellFillQuantity == t.sellFillQuantity
    ensures s.sellCost == t.sellCost
    ensures s.buyCost == t.buyCost && ProfitSettled(s) && ProfitSettled(t) ==>
              s.profit == t.profit && s.profitPercent == t.profitPercent
  {
    SumPermutation(s.sellFills, t.sellFills, Quantity);
    SumPermutation(s.sellFills, t.sellFills, Notional);
    SumPermutation(s.sellFills, t.sellFills, Proceeds);
  }

  lemma AddBuyFillSettles(s: TradeState, fill: OrderFill)
    ensures BuySettled(AddBuyFill(s, fill))
    ensures SellSettled(s) ==> SellSettled(AddBuyFill(s, fill))
  {
  }

  lemma AddSellFillSettles(s: TradeState, fill: OrderFill)
    ensures SellSettled(AddSellFill(s, fill))
    ensures BuySettled(s) ==> BuySettled(AddSellFill(s, fill))
    ensures Decimal8(s.buyCost) ==> ProfitSettled(AddSellFill(s, fill))
  {
    var u := s.(sellFills := s.sellFills + [fill]);
    if Decimal8(s.buyCost) && Sum(u.sellFills, Quantity) > 0.0 {
      Round8Within(Sum(u.sellFills, Proceeds));
      Decimal8Closed(UpdateSell(u).sellCost, s.buyCost);
      Round8FixesGrid(UpdateSell(u).sellCost - s.buyCost);
    }
  }

  /** Reloading a settled state recomputes nothing but the profit, and a second reload nothing at all. */
  lemma ReloadOfSettled(s: TradeState)
    requires BuySettled(s) && SellSettled(s) && Decimal8(s.buyCost)
    ensures Reload(s) == s.(profit := Reload(s).profit, profitPercent := Reload(s).profitPercent)
    ensures ProfitSettled(Reload(s))
    ensures Reload(s) == s <==> ProfitSettled(s)
    ensures Reload(Reload(s)) == Reload(s)
  {
    if Sum(s.sellFills, Quantity) > 0.0 {
      Round8Within(Sum(s.sellFills, Proceeds));
      Decimal8Closed(s.sellCost, s.buyCost);
      Round8FixesGrid(s.sellCost - s.buyCost);
    }
  }
}
