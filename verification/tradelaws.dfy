/** What every operation keeps about a trade, and what therefore holds after every run. */
module TradeLaws {
  import opened Numbers
  import opened Fills
  import opened TradeModel
  import opened Pricing
  import opened TradeOps
  import PriceLaws

  // ---------- fills ----------

  /** The buy fills one operation contributes: those of a fill report, or those found in the trade history
      when a trade that was saved in NEW is recovered. */
  function BuyFillsFrom(s: TradeState, op: Op): seq<OrderFill> {
    match op
    case ReportOp(r, _, _) =>
      if r.side == Buy && (r.status == OrderPartiallyFilled || r.status == OrderFilled) then [ReportFill(r)] else []
    case CommandOp(Recover(Some(order), history)) =>
      if s.status == New && (order.status == OrderPartiallyFilled || order.status == OrderFilled)
      then HistoryFills(history, order.orderId) else []
    case _ => []
  }

  function SellFillsFrom(s: TradeState, op: Op): seq<OrderFill> {
    match op
    case ReportOp(r, _, _) =>
      if r.side == Sell && (r.status == OrderPartiallyFilled || r.status == OrderFilled) then [ReportFill(r)] else []
    case CommandOp(Recover(Some(order), history)) =>
      if s.status == PendingSell && order.status == OrderFilled then HistoryFills(history, s.sellOrderId) else []
    case _ => []
  }

  ghost predicate Settled(s: TradeState) {
    BuySettled(s) && SellSettled(s) && Decimal8(s.buyCost)
  }

  /** The fills and everything computed from them agree. */
  predicate SameBooks(s: TradeState, u: TradeState) {
    && s.buyFills == u.buyFills && s.averageBuyPrice == u.averageBuyPrice && s.buyFillQuantity == u.buyFillQuantity
    && s.buyCost == u.buyCost && s.effectiveBuyPrice == u.effectiveBuyPrice && s.fee == u.fee
    && s.sellFills == u.sellFills && s.averageSellPrice == u.averageSellPrice
    && s.sellFillQuantity == u.sellFillQuantity && s.sellCost == u.sellCost
  }

  predicate SameIdentity(s: TradeState, u: TradeState) {
    s.tradeId == u.tradeId && s.symbol == u.symbol && s.clientOrderIds == u.clientOrderIds
  }

  lemma SameBooksSettled(s: TradeState, u: TradeState)
    requires SameBooks(s, u) && Settled(s)
    ensures Settled(u)
  {
    hide Sum, Round8, Round8Number, Percent, Decimal8;
  }

  lemma FillSettled(s: TradeState, f: OrderFill)
    requires Settled(s)
    ensures Settled(AddBuyFill(s, f)) && Settled(AddSellFill(s, f))
  {
    hide Sum, Round8, Round8Number, Percent, Decimal8;
    Round8Within(Sum(s.buyFills + [f], BuyCharge));
  }

  lemma {:induction false} AddBuyFillsAppends(s: TradeState, fills: seq<OrderFill>)
    ensures AddBuyFills(s, fills).buyFills == s.buyFills + fills
    ensures Settled(s) ==> Settled(AddBuyFills(s, fills))
    ensures var u := AddBuyFills(s, fills);
            u == s.(buyFills := u.buyFills, averageBuyPrice := u.averageBuyPrice, buyFillQuantity := u.buyFillQuantity,
                    buyCost := u.buyCost, effectiveBuyPrice := u.effectiveBuyPrice, fee := u.fee)
  {
    hide Round8, Sum, Settled;
    if fills != [] {
      var n := |fills| - 1;
      AddBuyFillsAppends(s, fills[..n]);
      var u := AddBuyFills(s, fills[..n]);
      assert u.buyFills + [fills[n]] == s.buyFills + fills;
      if Settled(u) { FillSettled(u, fills[n]); }
    }
  }

  lemma {:induction false} AddSellFillsAppends(s: TradeState, fills: seq<OrderFill>)
    ensures AddSellFills(s, fills).sellFills == s.sellFills + fills
    ensures Settled(s) ==> Settled(AddSellFills(s, fills))
    ensures var u := AddSellFills(s, fills);
            u == s.(sellFills := u.sellFills, averageSellPrice := u.averageSellPrice,
                    sellFillQuantity := u.sellFillQuantity, sellCost := u.sellCost,
                    profit := u.profit, profitPercent := u.profitPercent)
  {
    hide Round8, Round8Number, Percent, Sum, Settled;
    if fills != [] {
      var n := |fills| - 1;
      AddSellFillsAppends(s, fills[..n]);
      var u := AddSellFills(s, fills[..n]);
      assert u.sellFills + [fills[n]] == s.sellFills + fills;
      if Settled(u) { FillSettled(u, fills[n]); }
    }
  }

  /** Nothing but order bookkeeping, sell settings and the price estimate differs. */
  predicate OnlyOrders(s: TradeState, u: TradeState) {
    && u == s.(clientOrderIds := u.clientOrderIds, limitSell := u.limitSell, stopLoss := u.stopLoss,
               trailing := u.trailing, lastPrice := u.lastPrice, profitPercent := u.profitPercent)
    && s.clientOrderIds <= u.clientOrderIds
  }

  lemma SellsOnlyOrder(info: ExchangeInfo, t: Tracked, percent: real, price: Number, oracle: SellOracle)
    ensures OnlyOrders(t.state, DoMarketSell(t, oracle).state)
    ensures OnlyOrders(t.state, DoLimitSellByPercent(info, t, percent, oracle).state)
    ensures OnlyOrders(t.state, DoLimitSellByPrice(t, price, oracle).state)
    ensures OnlyOrders(t.state, TriggerLimitSell(info, t, oracle).state)
  {
    hide LimitSellPrice;
  }

  lemma TickOnlyOrders(t: Tracked, symbol: string, price: real, o: TickOracle)
    ensures OnlyOrders(t.state, OnTick(t, symbol, price, o).state)
  {
    hide CalculateProfit, DoMarketSell, Percent;
    SellsOnlyOrder(map[], StopLossLatched(OnPrice(t, price), o), 0.0, NotANumber, o.stopSell);
    var t1 := OnPrice(t, price);
    var t2 := if t1.state.stopLoss.enabled then CheckStopLoss(t1, o) else t1;
    SellsOnlyOrder(map[], TrailingLatched(t2), 0.0, NotANumber, o.trailingSell);
  }

  /** The trade as the stop loss, respectively the trailing profit, hands it to the market sell. */
  function StopLossLatched(t: Tracked, o: TickOracle): Tracked {
    var u := if t.state.status == PendingSell then DoCancelSell(t, o.cancelOk) else t;
    u.(state := u.state.(stopLoss := u.state.stopLoss.(triggered := true))).Send(AutoSell(ByStopLoss))
  }

  function TrailingLatched(t: Tracked): Tracked {
    t.(state := t.state.(trailing := t.state.trailing.(triggered := true))).Send(AutoSell(ByTrailingProfit))
  }

  lemma CommandOnlyOrders(info: ExchangeInfo, t: Tracked, c: Command)
    requires !c.Fail? && !c.Abandon? && !c.Recover?
    ensures OnlyOrders(t.state, DoCommand(info, t, c).state)
  {
    hide DoMarketSell, DoLimitSellByPercent, DoLimitSellByPrice;
    match c
    case MarketSell(oracle) => SellsOnlyOrder(info, t, 0.0, NotANumber, oracle);
    case LimitSellByPercent(percent, oracle) => SellsOnlyOrder(info, t, percent, NotANumber, oracle);
    case LimitSellByPrice(price, oracle) => SellsOnlyOrder(info, t, 0.0, Finite(price), oracle);
    case _ =>
  }

  lemma SellableFrame(info: ExchangeInfo, s: TradeState)
    ensures UpdateSellable(info, s) == s.(sellableQuantity := UpdateSellable(info, s).sellableQuantity)
    ensures Settled(s) ==> Settled(UpdateSellable(info, s))
  {
    hide Settled, FixQuantityToStepSize;
    if Settled(s) { SameBooksSettled(s, UpdateSellable(info, s)); }
  }

  lemma RecoverBuyFrame(s: TradeState, order: ExchangeOrder, history: seq<MyTrade>)
    ensures var u := RecoverBuy(s, order, history);
            var filled := order.status == OrderPartiallyFilled || order.status == OrderFilled;
            && u.buyFills == s.buyFills + (if filled then HistoryFills(history, order.orderId) else [])
            && u.sellFills == s.sellFills && SameIdentity(s, u)
            && (u.status == s.status || u.status == PendingBuy || u.status == Watching) && u.closeTime == s.closeTime
            && u.stopLoss == s.stopLoss && u.trailing == s.trailing
            && (Settled(s) ==> Settled(u))
  {
    hide Settled, AddBuyFills;
    var bought := HistoryFills(history, order.orderId);
    AddBuyFillsAppends(s.(status := PendingBuy), bought);
    AddBuyFillsAppends(s.(status := Watching), bought);
    if Settled(s) {
      SameBooksSettled(s, s.(status := PendingBuy));
      SameBooksSettled(s, s.(status := Watching));
    }
  }

  lemma RecoverSellFrame(s: TradeState, order: ExchangeOrder, history: seq<MyTrade>)
    ensures var u := RecoverSell(s, order, history);
            && u.sellFills ==
                 s.sellFills + (if order.status == OrderFilled then HistoryFills(history, s.sellOrderId) else [])
            && u.buyFills == s.buyFills && SameIdentity(s, u)
            && (((u.status == s.status || u.status == Watching) && u.closeTime == s.closeTime)
                || (u.status == Done && u.closeTime.Some?))
            && u.stopLoss == s.stopLoss && u.trailing == s.trailing
            && (Settled(s) ==> Settled(u))
  {
    hide Settled, AddSellFills;
    var sold := AddSellFills(s, HistoryFills(history, s.sellOrderId));
    AddSellFillsAppends(s, HistoryFills(history, s.sellOrderId));
    if Settled(s) {
      SameBooksSettled(s, s.(status := Watching));
      SameBooksSettled(sold, CloseTrade(sold, Done, Some(order.time), order.time));
    }
  }

  lemma RecoverAppends(info: ExchangeInfo, s: TradeState, lookup: Option<ExchangeOrder>, history: seq<MyTrade>)
    ensures var u := DoRecover(info, s, lookup, history);
            var op := CommandOp(Recover(lookup, history));
            && u.buyFills == s.buyFills + BuyFillsFrom(s, op)
            && u.sellFills == s.sellFills + SellFillsFrom(s, op)
            && SameIdentity(s, u)
            && (Settled(s) ==> Settled(u))
  {
    hide Settled, RecoverBuy, RecoverSell, UpdateSellable;
    SellableFrame(info, s);
    if lookup.Some? {
      RecoverBuyFrame(s, lookup.value, history);
      RecoverSellFrame(s, lookup.value, history);
      SellableFrame(info, RecoverBuy(s, lookup.value, history));
      SellableFrame(info, RecoverSell(s, lookup.value, history));
    }
  }

  lemma OnlyOrdersBooks(s: TradeState, u: TradeState)
    requires OnlyOrders(s, u)
    ensures SameBooks(s, u)
  {
  }

  lemma BuyReportAppends(info: ExchangeInfo, t: Tracked, r: Report, time: int, oracle: SellOracle)
    requires r.side == Buy
    ensures var s, u := t.state, OnBuyReport(info, t, r, time, oracle).state;
            && u.buyFills == s.buyFills + BuyFillsFrom(s, ReportOp(r, time, oracle))
            && u.sellFills == s.sellFills
            && u.tradeId == s.tradeId && u.symbol == s.symbol && s.clientOrderIds <= u.clientOrderIds
            && (Settled(s) ==> Settled(u))
  {
    hide Settled, UpdateBuy, UpdateSell, UpdateSellable, TriggerLimitSell;
    var s, u := t.state, OnBuyReport(info, t, r, time, oracle).state;
    var f := ReportFill(r);
    if r.status == OrderPartiallyFilled || r.status == OrderFilled {
      var s0 := if r.status == OrderFilled || s.lastBuyStatus == OrderFilled then s
                else s.(lastBuyStatus := OrderPartiallyFilled);
      BuyFillFrame(info, s0, r);
      if Settled(s) { SameBooksSettled(s, s0); }
      var filled := OnBuyFill(info, s0, r).(status := Watching, lastBuyStatus := OrderFilled);
      SellsOnlyOrder(info, t.(state := filled), 0.0, NotANumber, oracle);
      if Settled(s) {
        SameBooksSettled(OnBuyFill(info, s0, r), filled);
        var u0 := TriggerLimitSell(info, t.(state := filled), oracle).state;
        OnlyOrdersBooks(filled, u0);
        SameBooksSettled(filled, u0);
      }
    } else if Settled(s) {
      SameBooksSettled(s, u);
    }
  }

  lemma BuyFillFrame(info: ExchangeInfo, s: TradeState, r: Report)
    ensures var u := OnBuyFill(info, s, r);
            && u.buyFills == s.buyFills + [ReportFill(r)] && u.sellFills == s.sellFills && SameIdentity(s, u)
            && (Settled(s) ==> Settled(u))
  {
    var f := AddBuyFill(s, ReportFill(r));
    assert SameBooks(f, UpdateSellable(info, f)) by { hide UpdateBuy; }
    if Settled(s) {
      hide *;
      FillSettled(s, ReportFill(r));
      SameBooksSettled(f, OnBuyFill(info, s, r));
    }
  }

  lemma SellReportAppends(s: TradeState, r: Report, time: int, oracle: SellOracle)
    requires r.side == Sell
    ensures var u := OnSellReport(s, r);
            && u.buyFills == s.buyFills
            && u.sellFills == s.sellFills + SellFillsFrom(s, ReportOp(r, time, oracle))
            && SameIdentity(s, u)
            && (Settled(s) ==> Settled(u))
  {
    hide Settled, Sum, Round8, Round8Number, Percent;
    var u := OnSellReport(s, r);
    if Settled(s) {
      if r.status == OrderPartiallyFilled || r.status == OrderFilled {
        FillSettled(s, ReportFill(r));
        SameBooksSettled(AddSellFill(s, ReportFill(r)), u);
      } else {
        SameBooksSettled(s, u);
      }
    }
  }

  lemma ReportAppends(info: ExchangeInfo, t: Tracked, r: Report, time: int, oracle: SellOracle)
    ensures var s, u := t.state, OnReport(info, t, r, time, oracle).state;
            var op := ReportOp(r, time, oracle);
            && u.buyFills == s.buyFills + BuyFillsFrom(s, op)
            && u.sellFills == s.sellFills + SellFillsFrom(s, op)
            && u.tradeId == s.tradeId && u.symbol == s.symbol && s.clientOrderIds <= u.clientOrderIds
            && (Settled(s) ==> Settled(u))
  {
    hide Settled, OnBuyReport, OnSellReport;
    var s, u := t.state, OnReport(info, t, r, time, oracle).state;
    var op := ReportOp(r, time, oracle);
    match r.side
    case Buy =>
      BuyReportAppends(info, t, r, time, oracle);
      var v := OnBuyReport(info, t, r, time, oracle).state;
      if Settled(v) { SameBooksSettled(v, u); }
    case Sell =>
      SellReportAppends(s, r, time, oracle);
      var v := OnSellReport(s, r);
      if Settled(v) { SameBooksSettled(v, u); }
    case OtherSide =>
      if Settled(s) { SameBooksSettled(s, u); }
  }

  /** One operation appends exactly its own fills, keeps the trade's identity, never forgets a client ID, and
      leaves the aggregates functions of the fill list. */
  lemma ApplyAppends(info: ExchangeInfo, t: Tracked, op: Op)
    ensures var s, u := t.state, Apply(info, t, op).state;
            && u.buyFills == s.buyFills + BuyFillsFrom(s, op)
            && u.sellFills == s.sellFills + SellFillsFrom(s, op)
            && u.tradeId == s.tradeId && u.symbol == s.symbol && s.clientOrderIds <= u.clientOrderIds
            && (Settled(s) ==> Settled(u))
  {
    hide OnReport, OnTick, DoRecover, Settled;
    var s, u := t.state, Apply(info, t, op).state;
    match op
    case ReportOp(r, time, oracle) => ReportAppends(info, t, r, time, oracle);
    case TickOp(symbol, price, o) =>
      TickOnlyOrders(t, symbol, price, o);
      OnlyOrdersBooks(s, u);
      if Settled(s) { SameBooksSettled(s, u); }
    case CommandOp(c) =>
      if c.Recover? {
        RecoverAppends(info, s, c.lookup, c.history);
      } else {
        if !c.Fail? && !c.Abandon? {
          hide DoCommand;
          CommandOnlyOrders(info, t, c);
          OnlyOrdersBooks(s, u);
        }
        if Settled(s) { SameBooksSettled(s, u); }
      }
  }

  function BuyFillsOver(info: ExchangeInfo, t: Tracked, ops: seq<Op>): seq<OrderFill> {
    if ops == [] then []
    else
      var before := ops[..|ops| - 1];
      BuyFillsOver(info, t, before) + BuyFillsFrom(RunOps(info, t, before).state, ops[|ops| - 1])
  }

  function SellFillsOver(info: ExchangeInfo, t: Tracked, ops: seq<Op>): seq<OrderFill> {
    if ops == [] then []
    else
      var before := ops[..|ops| - 1];
      SellFillsOver(info, t, before) + SellFillsFrom(RunOps(info, t, before).state, ops[|ops| - 1])
  }

  // ---------- settled aggregates over every run ----------

  /** After every run the fills are the in-order projection of the run, and the aggregates are their closed-form
      sums. */
  lemma {:induction false} RunAggregates(info: ExchangeInfo, t: Tracked, ops: seq<Op>)
    requires Settled(t.state)
    ensures var s := RunOps(info, t, ops).state;
            && s.buyFills == t.state.buyFills + BuyFillsOver(info, t, ops)
            && s.sellFills == t.state.sellFills + SellFillsOver(info, t, ops)
            && Settled(s)
  {
    hide Apply, Settled, BuyFillsFrom, SellFillsFrom;
    if ops != [] {
      var before, op := ops[..|ops| - 1], ops[|ops| - 1];
      RunAggregates(info, t, before);
      ApplyAppends(info, RunOps(info, t, before), op);
    }
  }

  /** Saving and reloading a trade after any run changes nothing but the profit figures; a second reload changes
      nothing. */
  lemma ReloadIsFixpoint(info: ExchangeInfo, t: Tracked, ops: seq<Op>)
    requires Settled(t.state)
    ensures var s := RunOps(info, t, ops).state;
            && Reload(s) == s.(profit := Reload(s).profit, profitPercent := Reload(s).profitPercent)
            && (Reload(s) == s <==> ProfitSettled(s))
            && Reload(Reload(s)) == Reload(s)
  {
    RunAggregates(info, t, ops);
    ReloadOfSettled(RunOps(info, t, ops).state);
  }

  // ---------- operations without fills ----------

  /** Everything computed from the sell fills, the profit included. */
  predicate SameSellSide(s: TradeState, u: TradeState) {
    && s.sellFills == u.sellFills && s.averageSellPrice == u.averageSellPrice
    && s.sellFillQuantity == u.sellFillQuantity && s.sellCost == u.sellCost && s.profit == u.profit
  }

  predicate SameBuySide(s: TradeState, u: TradeState) {
    && s.buyFills == u.buyFills && s.averageBuyPrice == u.averageBuyPrice && s.buyFillQuantity == u.buyFillQuantity
    && s.buyCost == u.buyCost && s.effectiveBuyPrice == u.effectiveBuyPrice && s.fee == u.fee
  }

  lemma FillSides(s: TradeState, f: OrderFill)
    ensures SameSellSide(s, AddBuyFill(s, f)) && s.profitPercent == AddBuyFill(s, f).profitPercent
    ensures SameBuySide(s, AddSellFill(s, f))
  {
    hide Sum, Round8, Round8Number, Percent;
  }

  lemma OnlyOrdersSides(s: TradeState, u: TradeState)
    requires OnlyOrders(s, u)
    ensures SameSellSide(s, u) && SameBuySide(s, u)
  {
  }

  lemma BuyReportSides(info: ExchangeInfo, t: Tracked, r: Report, time: int, oracle: SellOracle)
    ensures var s, u := t.state, OnBuyReport(info, t, r, time, oracle).state;
            && SameSellSide(s, u) && s.profitPercent == u.profitPercent
            && (r.status != OrderPartiallyFilled && r.status != OrderFilled ==> SameBuySide(s, u))
  {
    hide UpdateBuy, UpdateSellable, TriggerLimitSell;
    var s := t.state;
    var last := if s.lastBuyStatus != OrderFilled then OrderPartiallyFilled else s.lastBuyStatus;
    var partial, filled := AddBuyFill(s.(lastBuyStatus := last), ReportFill(r)), AddBuyFill(s, ReportFill(r));
    FillSides(s.(lastBuyStatus := last), ReportFill(r));
    FillSides(s, ReportFill(r));
    SellableFrame(info, partial);
    SellableFrame(info, filled);
    var watching := t.(state := UpdateSellable(info, filled).(status := Watching, lastBuyStatus := OrderFilled));
    LimitSellKeepsProfit(info, watching, oracle);
  }

  lemma LimitSellKeepsProfit(info: ExchangeInfo, t: Tracked, oracle: SellOracle)
    ensures var u := TriggerLimitSell(info, t, oracle).state;
            SameSellSide(t.state, u) && SameBuySide(t.state, u) && t.state.profitPercent == u.profitPercent
  {
    hide LimitSellPrice;
  }

  lemma SellReportSides(s: TradeState, r: Report)
    ensures SameBuySide(s, OnSellReport(s, r))
    ensures r.status != OrderPartiallyFilled && r.status != OrderFilled ==>
              SameSellSide(s, OnSellReport(s, r)) && s.profitPercent == OnSellReport(s, r).profitPercent
  {
    hide UpdateSell;
    FillSides(s, ReportFill(r));
  }

  lemma RecoverBuySides(s: TradeState, order: ExchangeOrder, history: seq<MyTrade>)
    ensures var u := RecoverBuy(s, order, history);
            var filled := order.status == OrderPartiallyFilled || order.status == OrderFilled;
            && SameSellSide(s, u) && s.profitPercent == u.profitPercent
            && (!filled || HistoryFills(history, order.orderId) == [] ==> SameBuySide(s, u))
  {
    hide AddBuyFills, HistoryFills;
    var bought := HistoryFills(history, order.orderId);
    NoFillsToAdd(s.(status := PendingBuy));
    NoFillsToAdd(s.(status := Watching));
    AddBuyFillsAppends(s.(status := PendingBuy), bought);
    AddBuyFillsAppends(s.(status := Watching), bought);
  }

  lemma RecoverSellSides(s: TradeState, order: ExchangeOrder, history: seq<MyTrade>)
    ensures var u := RecoverSell(s, order, history);
            && SameBuySide(s, u)
            && (order.status != OrderFilled || HistoryFills(history, s.sellOrderId) == [] ==>
                  SameSellSide(s, u) && s.profitPercent == u.profitPercent)
  {
    hide AddSellFills, HistoryFills;
    NoFillsToAdd(s);
    AddSellFillsAppends(s, HistoryFills(history, s.sellOrderId));
  }

  lemma RecoverSides(info: ExchangeInfo, s: TradeState, lookup: Option<ExchangeOrder>, history: seq<MyTrade>)
    ensures var u, op := DoRecover(info, s, lookup, history), CommandOp(Recover(lookup, history));
            && (BuyFillsFrom(s, op) == [] ==> SameBuySide(s, u))
            && (SellFillsFrom(s, op) == [] ==> SameSellSide(s, u) && s.profitPercent == u.profitPercent)
  {
    hide RecoverBuy, RecoverSell, UpdateSellable, HistoryFills;
    SellableFrame(info, s);
    if lookup.Some? {
      RecoverBuySides(s, lookup.value, history);
      RecoverSellSides(s, lookup.value, history);
      SellableFrame(info, RecoverBuy(s, lookup.value, history));
      SellableFrame(info, RecoverSell(s, lookup.value, history));
    }
  }

  lemma NoFillsToAdd(s: TradeState)
    ensures AddBuyFills(s, []) == s && AddSellFills(s, []) == s
  {
  }

  /** An operation that records no buy fill leaves the buy aggregates alone, one that records no sell fill the sell
      aggregates and the profit; its percentage moves with price ticks only. */
  lemma ApplySides(info: ExchangeInfo, t: Tracked, op: Op)
    ensures var s, u := t.state, Apply(info, t, op).state;
            && (BuyFillsFrom(s, op) == [] ==> SameBuySide(s, u))
            && (SellFillsFrom(s, op) == [] ==> SameSellSide(s, u) && (!op.TickOp? ==> s.profitPercent == u.profitPercent))
  {
    hide OnBuyReport, OnSellReport, OnTick, DoRecover, DoMarketSell, DoLimitSellByPercent, DoLimitSellByPrice;
    var s, u := t.state, Apply(info, t, op).state;
    match op
    case ReportOp(r, time, oracle) =>
      BuyReportSides(info, t, r, time, oracle);
      SellReportSides(s, r);
    case TickOp(symbol, price, o) =>
      TickOnlyOrders(t, symbol, price, o);
      OnlyOrdersSides(s, u);
    case CommandOp(c) =>
      if c.Recover? {
        RecoverSides(info, s, c.lookup, c.history);
      } else if !c.Fail? && !c.Abandon? {
        CommandOnlyOrders(info, t, c);
        CommandKeepsPercent(info, t, c);
        OnlyOrdersSides(s, u);
      }
  }

  lemma CommandKeepsPercent(info: ExchangeInfo, t: Tracked, c: Command)
    requires !c.Recover?
    ensures DoCommand(info, t, c).state.profitPercent == t.state.profitPercent
  {
    hide LimitSellPrice;
  }

  // ---------- statuses ----------

  /** The status a report leaves a trade in. */
  function StatusAfterReport(status: TradeStatus, nothingBought: bool, side: OrderSide, report: OrderStatus): TradeStatus {
    match side
    case Buy =>
      (match report
       case OrderNew => if status == New then PendingBuy else status
       case OrderCanceled => if nothingBought then Canceled else Watching
       case OrderFilled => Watching
       case _ => status)
    case Sell =>
      (match report
       case OrderNew => if status == Done then Done else PendingSell
       case OrderCanceled => Watching
       case OrderFilled => Done
       case _ => status)
    case OtherSide => status
  }

  lemma BuyReportStatus(info: ExchangeInfo, t: Tracked, r: Report, time: int, oracle: SellOracle)
    ensures var s, u := t.state, OnBuyReport(info, t, r, time, oracle).state;
            u.status == StatusAfterReport(s.status, s.buyFillQuantity == 0.0, Buy, r.status) && u.closeTime == s.closeTime
  {
    hide DoLimitSellByPercent, DoLimitSellByPrice, OnBuyFill, TriggerLimitSell;
    var s := t.state;
    var last := if s.lastBuyStatus != OrderFilled then OrderPartiallyFilled else s.lastBuyStatus;
    BuyFillStatus(info, s.(lastBuyStatus := last), r);
    BuyFillStatus(info, s, r);
    var filled := t.(state := OnBuyFill(info, s, r).(status := Watching, lastBuyStatus := OrderFilled));
    SellsOnlyOrder(info, filled, filled.state.limitSell.percent, filled.state.limitSell.price, oracle);
  }

  lemma SellReportStatus(s: TradeState, r: Report)
    ensures var u := OnSellReport(s, r);
            u.status == StatusAfterReport(s.status, s.buyFillQuantity == 0.0, Sell, r.status) && u.closeTime == s.closeTime
  {
    hide AddSellFill;
    SellFillStatus(s, ReportFill(r));
  }

  lemma BuyFillStatus(info: ExchangeInfo, s: TradeState, r: Report)
    ensures OnBuyFill(info, s, r).status == s.status && OnBuyFill(info, s, r).closeTime == s.closeTime
  {
    hide Sum, Round8, FixQuantityToStepSize;
  }

  lemma SellFillStatus(s: TradeState, f: OrderFill)
    ensures AddSellFill(s, f).status == s.status && AddSellFill(s, f).closeTime == s.closeTime
  {
    hide Sum, Round8, Round8Number, Percent;
  }

  lemma ReportStatus(info: ExchangeInfo, t: Tracked, r: Report, time: int, oracle: SellOracle)
    ensures var s, u := t.state, OnReport(info, t, r, time, oracle).state;
            && u.status == StatusAfterReport(s.status, s.buyFillQuantity == 0.0, r.side, r.status)
            && u.closeTime == if ReportCloses(u) then Some(time) else s.closeTime
  {
    hide OnBuyReport, OnSellReport;
    BuyReportStatus(info, t, r, time, oracle);
    SellReportStatus(t.state, r);
  }

  lemma RecoverStatus(info: ExchangeInfo, s: TradeState, lookup: Option<ExchangeOrder>, history: seq<MyTrade>)
    ensures var u := DoRecover(info, s, lookup, history);
            && (s.status != New && s.status != PendingSell ==> u.status == s.status && u.closeTime == s.closeTime)
            && (IsDone(u) && !IsDone(s) ==> s.status == PendingSell && u.status == Done && u.closeTime.Some?)
  {
    hide RecoverBuy, RecoverSell, UpdateSellable, Settled;
    SellableFrame(info, s);
    if lookup.Some? {
      RecoverBuyFrame(s, lookup.value, history);
      RecoverSellFrame(s, lookup.value, history);
      SellableFrame(info, RecoverBuy(s, lookup.value, history));
      SellableFrame(info, RecoverSell(s, lookup.value, history));
    }
  }

  // ---------- the profit of a reloaded trade ----------

  /** The profit is that of the current buy cost. */
  predicate ProfitCurrent(s: TradeState) {
    Sum(s.sellFills, Quantity) > 0.0 ==> s.profit == s.sellCost - s.buyCost
  }

  lemma SellFillsSettleProfit(s: TradeState, fills: seq<OrderFill>)
    requires fills != [] && Decimal8(s.buyCost)
    ensures ProfitSettled(AddSellFills(s, fills))
  {
    hide ProfitSettled, AddSellFill, Decimal8;
    AddSellFillsAppends(s, fills[..|fills| - 1]);
    AddSellFillSettles(AddSellFills(s, fills[..|fills| - 1]), fills[|fills| - 1]);
  }

  /** Any sell fill brings the profit up to date, however it was recorded. */
  lemma SellFillMakesProfitCurrent(info: ExchangeInfo, t: Tracked, op: Op)
    requires Decimal8(t.state.buyCost) && SellFillsFrom(t.state, op) != []
    ensures ProfitSettled(Apply(info, t, op).state)
  {
    hide AddSellFill, AddSellFills, HistoryFills, ProfitSettled, UpdateSellable, Decimal8;
    var s, u := t.state, Apply(info, t, op).state;
    match op
    case ReportOp(r, time, oracle) =>
      AddSellFillSettles(s, ReportFill(r));
      SameProfitSettled(AddSellFill(s, ReportFill(r)), u);
    case CommandOp(c) =>
      var sold := AddSellFills(s, HistoryFills(c.history, s.sellOrderId));
      SellFillsSettleProfit(s, HistoryFills(c.history, s.sellOrderId));
      SellableFrame(info, RecoverSell(s, c.lookup.value, c.history));
      SameProfitSettled(sold, u);
  }

  lemma SameProfitSettled(s: TradeState, u: TradeState)
    requires SameSellSide(s, u) && s.buyCost == u.buyCost
    ensures ProfitCurrent(s) ==> ProfitCurrent(u)
    ensures ProfitSettled(s) && s.profitPercent == u.profitPercent ==> ProfitSettled(u)
  {
    hide Sum, Round8Number, Percent;
  }

  lemma ApplyKeepsProfit(info: ExchangeInfo, t: Tracked, op: Op)
    requires Decimal8(t.state.buyCost) && BuyFillsFrom(t.state, op) == []
    ensures ProfitCurrent(t.state) ==> ProfitCurrent(Apply(info, t, op).state)
    ensures ProfitSettled(t.state) && !op.TickOp? ==> ProfitSettled(Apply(info, t, op).state)
  {
    hide Apply, Sum, Round8Number, Percent, BuyFillsFrom, SellFillsFrom, Decimal8, SameSellSide;
    ApplySides(info, t, op);
    if SellFillsFrom(t.state, op) == [] {
      SameProfitSettled(t.state, Apply(info, t, op).state);
    } else {
      SellFillMakesProfitCurrent(info, t, op);
    }
  }

  ghost predicate NoTicks(ops: seq<Op>) {
    forall i | 0 <= i < |ops| :: !ops[i].TickOp?
  }

  lemma {:induction false} RunKeepsProfit(info: ExchangeInfo, t: Tracked, ops: seq<Op>)
    requires Settled(t.state) && BuyFillsOver(info, t, ops) == []
    ensures ProfitCurrent(t.state) ==> ProfitCurrent(RunOps(info, t, ops).state)
    ensures ProfitSettled(t.state) && NoTicks(ops) ==> ProfitSettled(RunOps(info, t, ops).state)
  {
    hide Apply, ProfitCurrent, ProfitSettled, BuyFillsFrom, BuySettled, SellSettled;
    if ops != [] {
      var before := ops[..|ops| - 1];
      RunKeepsProfit(info, t, before);
      RunAggregates(info, t, before);
      ApplyKeepsProfit(info, RunOps(info, t, before), ops[|ops| - 1]);
    }
  }

  lemma ReloadOfCurrentProfit(s: TradeState)
    requires Settled(s)
    ensures Reload(s).profit == s.profit <==> ProfitCurrent(s)
  {
    hide Percent, Round8Number;
    ReloadOfSettled(s);
    if Sum(s.sellFills, Quantity) > 0.0 {
      Round8Within(Sum(s.sellFills, Proceeds));
      Decimal8Closed(s.sellCost, s.buyCost);
      Round8FixesGrid(s.sellCost - s.buyCost);
    }
  }

  lemma {:induction false} RunOpsConcat(info: ExchangeInfo, t: Tracked, a: seq<Op>, b: seq<Op>)
    ensures RunOps(info, t, a + b) == RunOps(info, RunOps(info, t, a), b)
  {
    hide Apply;
    if b == [] {
      assert a + b == a;
    } else {
      var n := |b| - 1;
      assert (a + b)[..|a + b| - 1] == a + b[..n];
      RunOpsConcat(info, t, a, b[..n]);
    }
  }

  /** When no buy fill came after the last sell fill, saving and reloading keeps the profit: `op` is any operation that
      recorded a sell fill, and what follows may be anything that records no buy fill, further sell fills included.
      Without a price tick among it the reload is exact. */
  lemma ReloadAfterSellFill(info: ExchangeInfo, t: Tracked, before: seq<Op>, op: Op, after: seq<Op>)
    requires Settled(t.state)
    requires SellFillsFrom(RunOps(info, t, before).state, op) != []
    requires BuyFillsOver(info, RunOps(info, t, before + [op]), after) == []
    ensures var s := RunOps(info, t, before + [op] + after).state;
            && Reload(s) == s.(profitPercent := Reload(s).profitPercent)
            && (NoTicks(after) ==> Reload(s) == s)
  {
    hide Apply, ProfitCurrent, ProfitSettled, SellFillsFrom, BuySettled, SellSettled, Reload;
    var u := RunOps(info, t, before + [op]);
    RunAggregates(info, t, before);
    RunAggregates(info, t, before + [op]);
    RunOpsAppend(info, t, before, op);
    SellFillMakesProfitCurrent(info, RunOps(info, t, before), op);
    SettledIsCurrent(u.state);
    RunKeepsProfit(info, u, after);
    RunOpsConcat(info, t, before + [op], after);
    ReloadIsFixpoint(info, t, before + [op] + after);
    RunAggregates(info, u, after);
    ReloadOfCurrentProfit(RunOps(info, u, after).state);
  }

  lemma SettledIsCurrent(s: TradeState)
    requires ProfitSettled(s)
    ensures ProfitCurrent(s)
  {
    hide Sum, Percent, Round8Number;
  }

  /** The same when nothing was sold before the run began, or the profit was up to date. */
  lemma ReloadKeepsProfit(info: ExchangeInfo, t: Tracked, ops: seq<Op>)
    requires Settled(t.state) && ProfitCurrent(t.state) && BuyFillsOver(info, t, ops) == []
    ensures var s := RunOps(info, t, ops).state;
            Reload(s).profit == s.profit
  {
    hide Apply, ProfitCurrent, Reload, BuySettled, SellSettled;
    RunKeepsProfit(info, t, ops);
    RunAggregates(info, t, ops);
    ReloadOfCurrentProfit(RunOps(info, t, ops).state);
  }

  // ---------- sellable quantity ----------

  /** A fill the exchange can produce: its commission is taken out of what was bought. */
  predicate ProperFill(f: OrderFill) {
    0.0 <= f.commissionAmount <= f.quantity
  }

  ghost predicate ProperFills(fills: seq<OrderFill>) {
    forall i | 0 <= i < |fills| :: ProperFill(fills[i])
  }

  /** The bought quantity is the rounded net quantity of the fills, and no more than that can be sold. */
  ghost predicate Bounded(s: TradeState) {
    && ProperFills(s.buyFills)
    && s.buyFillQuantity == Round8(Sum(s.buyFills, Received))
    && 0.0 <= s.sellableQuantity <= s.buyFillQuantity
  }

  lemma ProperSum(fills: seq<OrderFill>)
    requires ProperFills(fills)
    ensures Sum(fills, Received) >= 0.0
  {
    SumNonNegative(fills, Received);
  }

  lemma BuyFillBounded(s: TradeState, f: OrderFill)
    requires Bounded(s) && ProperFill(f)
    ensures Bounded(AddBuyFill(s, f))
  {
    hide Round8;
    var fills := s.buyFills + [f];
    SumAppend(s.buyFills, f, Received);
    ProperSum(s.buyFills);
    Round8Monotone(Sum(s.buyFills, Received), Sum(fills, Received));
  }

  lemma {:induction false} BuyFillsBounded(s: TradeState, fills: seq<OrderFill>)
    requires Bounded(s) && ProperFills(fills)
    ensures Bounded(AddBuyFills(s, fills))
  {
    if fills != [] {
      hide Bounded, AddBuyFill;
      BuyFillsBounded(s, fills[..|fills| - 1]);
      BuyFillBounded(AddBuyFills(s, fills[..|fills| - 1]), fills[|fills| - 1]);
    }
  }

  lemma SellableBounded(info: ExchangeInfo, s: TradeState)
    requires Bounded(s)
    ensures Bounded(UpdateSellable(info, s))
  {
    hide Round8, Sum, FixQuantityToStepSize;
    if s.symbol in info {
      PriceLaws.FixQuantityIsFloor(s.buyFillQuantity, info[s.symbol].stepSize);
      PriceLaws.FixQuantityNonNegative(s.buyFillQuantity, info[s.symbol].stepSize);
    }
  }

  predicate SameQuantities(s: TradeState, u: TradeState) {
    s.buyFills == u.buyFills && s.buyFillQuantity == u.buyFillQuantity && s.sellableQuantity == u.sellableQuantity
  }

  lemma ReportBounded(info: ExchangeInfo, t: Tracked, r: Report, time: int, oracle: SellOracle)
    requires Bounded(t.state) && ProperFills(BuyFillsFrom(t.state, ReportOp(r, time, oracle)))
    ensures Bounded(OnReport(info, t, r, time, oracle).state)
  {
    hide TriggerLimitSell, UpdateSellable, UpdateBuy, UpdateSell, Bounded;
    var s, u := t.state, OnReport(info, t, r, time, oracle).state;
    if r.side == Buy && (r.status == OrderPartiallyFilled || r.status == OrderFilled) {
      var f := ReportFill(r);
      assert BuyFillsFrom(s, ReportOp(r, time, oracle))[0] == f;
      var s0 := if r.status == OrderFilled || s.lastBuyStatus == OrderFilled then s
                else s.(lastBuyStatus := OrderPartiallyFilled);
      SameQuantitiesBounded(s, s0);
      BuyFillBounded(s0, f);
      SellableBounded(info, AddBuyFill(s0, f));
      var filled := OnBuyFill(info, s0, r).(status := Watching, lastBuyStatus := OrderFilled);
      SellsOnlyOrder(info, t.(state := filled), 0.0, NotANumber, oracle);
      SameQuantitiesBounded(OnBuyFill(info, s0, r), u);
    } else {
      assert SameQuantities(s, u) by { SellReportQuantities(s, r); }
      SameQuantitiesBounded(s, u);
    }
  }

  lemma SellReportQuantities(s: TradeState, r: Report)
    ensures SameQuantities(s, OnSellReport(s, r))
  {
    hide Sum, Round8, Round8Number, Percent;
  }

  lemma SameQuantitiesBounded(s: TradeState, u: TradeState)
    requires SameQuantities(s, u) && Bounded(s)
    ensures Bounded(u)
  {
  }

  lemma RecoverBounded(info: ExchangeInfo, s: TradeState, lookup: Option<ExchangeOrder>, history: seq<MyTrade>)
    requires Bounded(s) && ProperFills(BuyFillsFrom(s, CommandOp(Recover(lookup, history))))
    ensures Bounded(DoRecover(info, s, lookup, history))
  {
    hide Bounded, UpdateSellable, AddBuyFills, AddSellFills, ProperFills;
    SellableBounded(info, s);
    if lookup.Some? {
      var order := lookup.value;
      if s.status == New {
        var status := if order.status == OrderFilled then Watching else PendingBuy;
        SameQuantitiesBounded(s, s.(status := status));
        if order.status == OrderPartiallyFilled || order.status == OrderFilled {
          BuyFillsBounded(s.(status := status), HistoryFills(history, order.orderId));
        }
        SellableBounded(info, RecoverBuy(s, order, history));
      } else {
        AddSellFillsAppends(s, HistoryFills(history, s.sellOrderId));
        SameQuantitiesBounded(s, RecoverSell(s, order, history));
        SellableBounded(info, RecoverSell(s, order, history));
      }
    }
  }

  lemma ApplyBounded(info: ExchangeInfo, t: Tracked, op: Op)
    requires Bounded(t.state) && ProperFills(BuyFillsFrom(t.state, op))
    ensures Bounded(Apply(info, t, op).state)
  {
    hide OnReport, OnTick, DoRecover, Bounded, ProperFills;
    var s, u := t.state, Apply(info, t, op).state;
    match op
    case ReportOp(r, time, oracle) => ReportBounded(info, t, r, time, oracle);
    case TickOp(symbol, price, o) =>
      TickOnlyOrders(t, symbol, price, o);
      SameQuantitiesBounded(s, u);
    case CommandOp(c) =>
      if c.Recover? {
        RecoverBounded(info, s, c.lookup, c.history);
      } else {
        if !c.Fail? && !c.Abandon? {
          hide DoCommand;
          CommandOnlyOrders(info, t, c);
        }
        SameQuantitiesBounded(s, u);
      }
  }

  /** Over every run of proper fills the sellable quantity stays between zero and the bought quantity, whether or
      not the step size lookups succeed. */
  lemma {:induction false} RunBounded(info: ExchangeInfo, t: Tracked, ops: seq<Op>)
    requires Bounded(t.state) && ProperFills(BuyFillsOver(info, t, ops))
    ensures Bounded(RunOps(info, t, ops).state)
  {
    hide Bounded, Apply, BuyFillsFrom;
    if ops != [] {
      var before, op := ops[..|ops| - 1], ops[|ops| - 1];
      var earlier, last := BuyFillsOver(info, t, before), BuyFillsFrom(RunOps(info, t, before).state, op);
      assert forall i | 0 <= i < |earlier| :: earlier[i] == BuyFillsOver(info, t, ops)[i];
      assert forall i | 0 <= i < |last| :: last[i] == BuyFillsOver(info, t, ops)[|earlier| + i];
      RunBounded(info, t, before);
      ApplyBounded(info, RunOps(info, t, before), op);
    }
  }

  // ---------- from the start ----------

  /** A trade that has not bought anything yet, whatever its settings are. */
  predicate Unfilled(s: TradeState, now: int) {
    var n := NewTradeState(now);
    SameBooks(s, n) && s.sellableQuantity == n.sellableQuantity && s.profit == n.profit
  }

  /** A new trade has no past; its books are those of its fills, and a reload changes nothing. */
  lemma NewTradeIsBlank(now: int)
    ensures Blank(NewTradeState(now), now) && Unfilled(NewTradeState(now), now) && Settled(NewTradeState(now))
    ensures Reload(NewTradeState(now)) == NewTradeState(now)
  {
    NewTradeSettled(now);
  }

  lemma NewTradeSettled(now: int)
    ensures Settled(NewTradeState(now)) && Bounded(NewTradeState(now)) && ProfitCurrent(NewTradeState(now))
  {
    OnGrid(0.0, 0);
    Round8FixesGrid(0.0);
  }

  lemma {:induction false} UnsoldUntilSellFill(info: ExchangeInfo, t: Tracked, ops: seq<Op>)
    requires SellFillsOver(info, t, ops) == []
    ensures SameSellSide(t.state, RunOps(info, t, ops).state)
  {
    hide Apply, SellFillsFrom;
    if ops != [] {
      UnsoldUntilSellFill(info, t, ops[..|ops| - 1]);
      ApplySides(info, RunOps(info, t, ops[..|ops| - 1]), ops[|ops| - 1]);
    }
  }

  /** The whole life of a trade, from `NewTrade` on and whatever happens to it: its fills are exactly those that were
      reported or recovered, in order, its aggregates are those of its fills, a reload disturbs at most the profit
      figures, and of proper fills no more can be sold than was bought. */
  lemma LifeOfATrade(info: ExchangeInfo, t: Tracked, now: int, ops: seq<Op>)
    requires Unfilled(t.state, now)
    ensures var s := RunOps(info, t, ops).state;
            && s.buyFills == BuyFillsOver(info, t, ops) && s.sellFills == SellFillsOver(info, t, ops)
            && Settled(s)
            && Reload(Reload(s)) == Reload(s) == s.(profit := Reload(s).profit, profitPercent := Reload(s).profitPercent)
            && (ProperFills(s.buyFills) ==> 0.0 <= s.sellableQuantity <= s.buyFillQuantity)
            && (s.sellFills == [] ==> s.sellFillQuantity == 0.0)
  {
    hide Apply, BuySettled, SellSettled, Reload;
    NewTradeSettled(now);
    UnfilledIsSettled(t.state, now);
    RunAggregates(info, t, ops);
    ReloadIsFixpoint(info, t, ops);
    assert [] + BuyFillsOver(info, t, ops) == BuyFillsOver(info, t, ops);
    if ProperFills(RunOps(info, t, ops).state.buyFills) { RunBounded(info, t, ops); }
    if SellFillsOver(info, t, ops) == [] { UnsoldUntilSellFill(info, t, ops); }
  }

  lemma UnfilledIsSettled(s: TradeState, now: int)
    requires Unfilled(s, now)
    ensures Settled(s) && Bounded(s) && s.buyFills == [] && s.sellFills == [] && s.sellFillQuantity == 0.0
  {
    NewTradeSettled(now);
    SameBooksSettled(NewTradeState(now), s);
  }
}
