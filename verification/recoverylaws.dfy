/** How far recovery from the exchange's trade history agrees with the reports the service would have seen live. */
module RecoveryLaws {
  import opened Numbers
  import opened Fills
  import opened TradeModel
  import opened Pricing
  import opened TradeOps
  import opened TradeLaws
  import opened Confluence
  import PriceLaws

  // ---------- a buy order that was filled meanwhile ----------

  lemma ReloadWithoutSales(s: TradeState)
    requires BuySettled(s) && s.sellFills == []
    ensures Reload(s) == s
  {
  }

  /** The history repeats what is recorded already exactly when something is: then it counts twice. */
  lemma RepeatedFills(recorded: seq<OrderFill>, found: seq<OrderFill>, reported: seq<OrderFill>)
    requires multiset(found) == multiset(recorded) + multiset(reported)
    ensures multiset(recorded + found) == multiset(recorded + reported) <==> recorded == []
    ensures recorded == [] ==> multiset(found) == multiset(reported)
    ensures forall f | f in reported :: f in found
    ensures reported != [] ==> found != []
  {
    assert |multiset(found)| == |found| && |multiset(recorded)| == |recorded| && |multiset(reported)| == |reported|;
    assert |multiset(recorded + found)| == |recorded| + |found|;
    assert |multiset(recorded + reported)| == |recorded| + |reported|;
    forall f | f in reported ensures f in found {
      assert f in multiset(reported);
      assert f in multiset(found);
    }
    if recorded == [] { assert recorded + found == found && recorded + reported == reported; }
  }

  lemma PaidMembers(found: seq<OrderFill>, reported: seq<OrderFill>, asset: string)
    requires PaidIn(found, asset) && forall f | f in reported :: f in found
    ensures PaidIn(reported, asset)
  {
    forall i | 0 <= i < |reported| ensures AlikeAssets(reported[i].commissionAsset, asset) {
      assert reported[i] in reported;
      var k :| 0 <= k < |found| && found[k] == reported[i];
    }
  }

  lemma {:induction false} AddBuyFillsSettles(s: TradeState, fills: seq<OrderFill>)
    requires fills != []
    ensures BuySettled(AddBuyFills(s, fills))
  {
    hide BuySettled, TradeModel.AddBuyFill;
    AddBuyFillSettles(AddBuyFills(s, fills[..|fills| - 1]), fills[|fills| - 1]);
  }

  /** What recovery makes of a trade that was saved in NEW, when the exchange has seen fills for its order. */
  lemma RecoveredBuy(info: ExchangeInfo, s: TradeState, order: ExchangeOrder, history: seq<MyTrade>, asset: string)
    requires s.status == New
    requires order.status == OrderPartiallyFilled || order.status == OrderFilled
    requires HistoryFills(history, order.orderId) != [] && PaidIn(HistoryFills(history, order.orderId), asset)
    ensures var u := DoRecover(info, s, Some(order), history);
            && u.buyFills == s.buyFills + HistoryFills(history, order.orderId) && BuySettled(u)
            && u.status == (if order.status == OrderFilled then Watching else PendingBuy)
            && u.sellableQuantity == SellableFor(info, s.sellableQuantity, s.symbol, asset, u.buyFillQuantity)
            && u == s.(status := u.status, buyFills := u.buyFills, averageBuyPrice := u.averageBuyPrice,
                       buyFillQuantity := u.buyFillQuantity, buyCost := u.buyCost,
                       effectiveBuyPrice := u.effectiveBuyPrice, fee := u.fee, sellableQuantity := u.sellableQuantity)
  {
    hide AddBuyFills, HistoryFills, UpdateBuy, FixQuantityToStepSize;
    var fills := HistoryFills(history, order.orderId);
    var before := s.(status := if order.status == OrderFilled then Watching else PendingBuy);
    AddBuyFillsAppends(before, fills);
    AddBuyFillsSettles(before, fills);
    var bought := AddBuyFills(before, fills);
    SellableFrame(info, bought);
    SameBuyBooksSettled(bought, UpdateSellable(info, bought));
  }

  lemma BoughtQuantity(s: TradeState)
    requires BuySettled(s) && Sum(s.buyFills, Received) > 0.0
    ensures s.buyFillQuantity == Round8(Sum(s.buyFills, Received))
  {
    hide Round8;
  }

  /** A trade saved in NEW whose order was partially or fully filled meanwhile, against any order of the live reports;
      the exchange's history holds the fills recorded before and those of the reports.  Recovery appends all of them, so
      the fills are those of the live trade exactly when none was recorded before.  Then, up to the order of the fills
      and the limit sell recovery does not trigger, everything agrees but the terms and the ID of the buy order, the
      last buy status, and the status unless NEW or FILLED was among the reports. */
  lemma RecoveredBuyMatchesReports(info: ExchangeInfo, s: TradeState, ops: seq<Op>, order: ExchangeOrder,
                                   history: seq<MyTrade>, asset: string)
    requires s.status == New && BuySettled(s) && s.sellFills == [] && UpdateSellable(info, s) == s
    requires AllProgress(ops, Buy) && PaidIn(HistoryFills(history, order.orderId), asset)
    requires order.status == if Saw(ops, OrderFilled) then OrderFilled else OrderPartiallyFilled
    requires multiset(HistoryFills(history, order.orderId)) == multiset(s.buyFills) + multiset(ReportFills(ops))
    requires Sum(ReportFills(ops), Received) > 0.0 && Sum(s.buyFills, Received) >= 0.0
    ensures var live := RunOps(info, Tracked(s, []), ops).state;
            var recovered := DoRecover(info, UpdateSellable(info, Reload(s)), Some(order), history);
            && (multiset(recovered.buyFills) == multiset(live.buyFills) <==> s.buyFills == [])
            && live.buyFillQuantity == Round8(Sum(s.buyFills, Received) + Sum(ReportFills(ops), Received))
            && recovered.buyFillQuantity ==
                 Round8(2.0 * Sum(s.buyFills, Received) + Sum(ReportFills(ops), Received))
            && recovered.status == (if order.status == OrderFilled then Watching else PendingBuy)
            && (recovered.status == live.status <==> Saw(ops, OrderNew) || Saw(ops, OrderFilled))
            && (s.buyFills == [] ==>
                  recovered == live.(buyFills := recovered.buyFills, status := recovered.status,
                                     lastBuyStatus := s.lastBuyStatus, openTime := s.openTime, buyOrder := s.buyOrder,
                                     buyOrderId := s.buyOrderId, limitSell := s.limitSell,
                                     clientOrderIds := s.clientOrderIds))
  {
    hide RunOps, Sum, UpdateBuy, SameBooks, HistoryFills, ReportFills, DoRecover, Reload, Saw, Round8;
    var t, reported, found := Tracked(s, []), ReportFills(ops), HistoryFills(history, order.orderId);
    var live, recovered := RunOps(info, Quiet(t), ops).state, DoRecover(info, s, Some(order), history);
    ReloadWithoutSales(s);
    NoFillsNoSum(reported);
    RepeatedFills(s.buyFills, found, reported);
    PaidMembers(found, reported, asset);
    RecoveredBuy(info, s, order, history, asset);
    BuyRun(info, Quiet(t), ops);
    BuyRunBooks(info, Quiet(t), ops, asset);
    SaleRun(info, t, ops);
    HistorySums(s.buyFills, found, reported, Received);
    BoughtQuantity(live);
    BoughtQuantity(recovered);
    if s.buyFills == [] {
      assert [] + reported == reported && [] + found == found;
      SameAggregates(info, s, reported, found, asset, live, recovered);
    }
  }

  lemma HistorySums(recorded: seq<OrderFill>, found: seq<OrderFill>, reported: seq<OrderFill>, f: OrderFill -> real)
    requires multiset(found) == multiset(recorded) + multiset(reported)
    ensures Sum(recorded + reported, f) == Sum(recorded, f) + Sum(reported, f)
    ensures Sum(recorded + found, f) == 2.0 * Sum(recorded, f) + Sum(reported, f)
  {
    SumPermutation(found, recorded + reported, f);
    SumConcat(recorded, reported, f);
    SumConcat(recorded, found, f);
  }

  lemma NoFillsNoSum(fills: seq<OrderFill>)
    ensures fills == [] ==> Sum(fills, Received) == 0.0
  {
  }

  // ---------- a sell order that was filled meanwhile ----------

  lemma {:induction false} AddSellFillsSettles(s: TradeState, fills: seq<OrderFill>)
    requires fills != [] && Decimal8(s.buyCost)
    ensures SellSettled(AddSellFills(s, fills)) && ProfitSettled(AddSellFills(s, fills))
  {
    hide SellSettled, ProfitSettled, TradeModel.AddSellFill, Decimal8;
    AddSellFillsAppends(s, fills[..|fills| - 1]);
    AddSellFillSettles(AddSellFills(s, fills[..|fills| - 1]), fills[|fills| - 1]);
  }

  lemma SoldQuantity(s: TradeState)
    requires SellSettled(s) && Sum(s.sellFills, Quantity) > 0.0
    ensures s.sellFillQuantity == Round8(Sum(s.sellFills, Quantity))
  {
    hide Round8, Round8Number, Percent;
  }

  lemma SoldSomething(fills: seq<OrderFill>)
    requires Sum(fills, Quantity) > 0.0
    ensures fills != []
  {
  }

  lemma RecoveredSell(info: ExchangeInfo, s: TradeState, order: ExchangeOrder, history: seq<MyTrade>)
    requires s.status == PendingSell && Decimal8(s.buyCost) && UpdateSellable(info, s) == s
    requires order.status == OrderFilled && HistoryFills(history, s.sellOrderId) != []
    requires Sum(s.sellFills + HistoryFills(history, s.sellOrderId), Quantity) > 0.0
    ensures var u := DoRecover(info, s, Some(order), history);
            && u.sellFills == s.sellFills + HistoryFills(history, s.sellOrderId) && SellSettled(u) && ProfitSettled(u)
            && u.sellFillQuantity == Round8(Sum(u.sellFills, Quantity))
            && SameOutsideSell(s, u) && u.sellOrderId == s.sellOrderId && u.sellOrder == s.sellOrder
            && (if u.sellFillQuantity == s.buyFillQuantity then u.status == Done && u.closeTime == Some(order.time)
                else u.status == PendingSell && u.closeTime == s.closeTime)
  {
    hide AddSellFills, HistoryFills, UpdateSell, FixQuantityToStepSize, Sum, Round8, Decimal8, ProfitSettled;
    var fills := HistoryFills(history, s.sellOrderId);
    AddSellFillsAppends(s, fills);
    AddSellFillsSettles(s, fills);
    var sold := AddSellFills(s, fills);
    SoldQuantity(sold);
    var closed := RecoverSell(s, order, history);
    SameSellBooksSettled(sold, closed);
    SellableOfSame(info, s, closed);
  }

  lemma SellableOfSame(info: ExchangeInfo, s: TradeState, u: TradeState)
    requires UpdateSellable(info, s) == s
    requires u.buyFills == s.buyFills && u.buyFillQuantity == s.buyFillQuantity && u.symbol == s.symbol
    requires u.sellableQuantity == s.sellableQuantity
    ensures UpdateSellable(info, u) == u
  {
    hide FixQuantityToStepSize;
  }

  /** A trade restored in PENDING_SELL whose sell order was filled meanwhile, against any order of the live reports; the
      exchange's history holds the fills recorded before and those of the reports.  Recovery appends all of them, so the
      fills are those of the live trade exactly when none was recorded before, and then so are proceeds and profit.
      The reports leave the trade DONE; recovery does if and only if what it counts as sold, the recorded fills twice,
      equals the quantity bought, and otherwise leaves it in PENDING_SELL. */
  lemma RecoveredSellMatchesReports(info: ExchangeInfo, s: TradeState, ops: seq<Op>, order: ExchangeOrder,
                                    history: seq<MyTrade>)
    requires s.status == PendingSell && Decimal8(s.buyCost) && UpdateSellable(info, s) == s
    requires AllProgress(ops, Sell) && Saw(ops, OrderFilled) && order.status == OrderFilled
    requires multiset(HistoryFills(history, s.sellOrderId)) == multiset(s.sellFills) + multiset(ReportFills(ops))
    requires Sum(ReportFills(ops), Quantity) > 0.0 && Sum(s.sellFills, Quantity) >= 0.0
    ensures var live := RunOps(info, Tracked(s, []), ops).state;
            var recovered := DoRecover(info, s, Some(order), history);
            && live.status == Done && live.sellOrder.status == OrderFilled
            && (multiset(recovered.sellFills) == multiset(live.sellFills) <==> s.sellFills == [])
            && recovered.status in {Done, PendingSell}
            && (recovered.status == Done <==>
                  Round8(2.0 * Sum(s.sellFills, Quantity) + Sum(ReportFills(ops), Quantity)) == s.buyFillQuantity)
            && (s.sellFills == [] ==>
                  recovered == live.(sellFills := recovered.sellFills, status := recovered.status,
                                     closeTime := recovered.closeTime, sellOrderId := s.sellOrderId,
                                     sellOrder := s.sellOrder))
  {
    hide RunOps, Sum, UpdateSell, SameBooks, HistoryFills, ReportFills, DoRecover, Saw, Round8, ProfitSettled, Decimal8;
    var t, reported, found := Tracked(s, []), ReportFills(ops), HistoryFills(history, s.sellOrderId);
    FilledHasFills(ops);
    RepeatedFills(s.sellFills, found, reported);
    HistorySums(s.sellFills, found, reported, Quantity);
    RecoveredSell(info, s, order, history);
    SellRun(info, t, ops);
    SellRunBooks(info, t, ops);
    if s.sellFills == [] {
      SellAggregatesOfPermutation(RunOps(info, t, ops).state, DoRecover(info, s, Some(order), history));
    }
  }

  /** So a trade whose whole sellable quantity was sold is recovered as DONE exactly when what was bought is a whole
      number of steps, or its last buy commission was paid in BNB: otherwise the lot size remainder keeps it open. */
  lemma WholeSaleRecoversIff(info: ExchangeInfo, s: TradeState, order: ExchangeOrder, history: seq<MyTrade>)
    requires s.status == PendingSell && s.sellFills == [] && Decimal8(s.buyCost) && UpdateSellable(info, s) == s
    requires FeeAsset(s) != "" && s.symbol in info
    requires order.status == OrderFilled
    requires Sum(HistoryFills(history, s.sellOrderId), Quantity) == s.sellableQuantity > 0.0
    requires Decimal8(s.sellableQuantity)
    ensures DoRecover(info, s, Some(order), history).status == Done <==>
            FeeAsset(s) == BNB || MultipleOf(s.buyFillQuantity, info[s.symbol].stepSize)
  {
    hide DoRecover, Sum, HistoryFills, Round8, FixQuantityToStepSize, MultipleOf, Decimal8;
    SoldSomething(HistoryFills(history, s.sellOrderId));
    assert [] + HistoryFills(history, s.sellOrderId) == HistoryFills(history, s.sellOrderId);
    RecoveredSell(info, s, order, history);
    Round8FixesGrid(s.sellableQuantity);
    WholeStepsIff(s.buyFillQuantity, info[s.symbol].stepSize);
  }

  lemma WholeStepsIff(quantity: real, stepSize: real)
    requires stepSize > 0.0
    ensures FixQuantityToStepSize(quantity, stepSize) == quantity <==> MultipleOf(quantity, stepSize)
  {
    hide FixQuantityToStepSize;
    PriceLaws.FixQuantityIsFloor(quantity, stepSize);
    if MultipleOf(quantity, stepSize) {
      var n :| quantity == Steps(n, stepSize);
      StepsOver(n, stepSize);
    }
  }

  // ---------- what recovery catches up with ----------

  /** The trade waits for its buy order, respectively its sell order, and the report is about that order. */
  predicate AboutPending(s: TradeState, r: Report) {
    && (if s.status == PendingSell then r.side == Sell else (s.status == New || s.status == PendingBuy) && r.side == Buy)
    && r.status in {OrderNew, OrderPartiallyFilled, OrderFilled, OrderCanceled}
  }

  lemma LiveStatus(info: ExchangeInfo, s: TradeState, r: Report, time: int, oracle: SellOracle)
    requires AboutPending(s, r)
    ensures var live := Apply(info, Tracked(s, []), ReportOp(r, time, oracle)).state;
            && live.status == StatusAfterReport(s.status, s.buyFillQuantity == 0.0, r.side, r.status)
            && (r.status in {OrderNew, OrderCanceled} ==> SameBooks(s, live))
            && live.buyFills == s.buyFills + BuyFillsFrom(s, ReportOp(r, time, oracle))
            && live.sellFills == s.sellFills + SellFillsFrom(s, ReportOp(r, time, oracle))
  {
    hide Apply, BuyFillsFrom, SellFillsFrom;
    var op := ReportOp(r, time, oracle);
    StatusOfReport(info, s, op);
    ApplyAppends(info, Tracked(s, []), op);
    ApplySides(info, Tracked(s, []), op);
    if r.status in {OrderNew, OrderCanceled} { NoFillsFrom(s, op); }
  }

  lemma NoFillsFrom(s: TradeState, op: Op)
    requires op.ReportOp? && op.report.status in {OrderNew, OrderCanceled}
    ensures BuyFillsFrom(s, op) == [] && SellFillsFrom(s, op) == []
  {
  }

  lemma StatusOfReport(info: ExchangeInfo, s: TradeState, op: Op)
    requires op.ReportOp?
    ensures Apply(info, Tracked(s, []), op).state.status
         == StatusAfterReport(s.status, s.buyFillQuantity == 0.0, op.report.side, op.report.status)
  {
    ReportStatus(info, Tracked(s, []), op.report, op.time, op.oracle);
    hide OnReport;
  }

  /** What recovery makes of the status, and of the books when the order brought no fill. */
  lemma RecoveredStatus(info: ExchangeInfo, s: TradeState, order: ExchangeOrder, history: seq<MyTrade>)
    requires UpdateSellable(info, s) == s && s.status in {New, PendingBuy, PendingSell}
    requires order.status in {OrderNew, OrderPartiallyFilled, OrderFilled, OrderCanceled}
    ensures var u := DoRecover(info, s, Some(order), history);
            && u.status == (match s.status
                            case New => if order.status == OrderCanceled then New
                                        else if order.status == OrderFilled then Watching else PendingBuy
                            case PendingSell =>
                              if order.status == OrderCanceled then Watching
                              else if order.status == OrderFilled && u.sellFillQuantity == s.buyFillQuantity then Done
                              else PendingSell
                            case _ => PendingBuy)
            && (order.status in {OrderNew, OrderCanceled} || s.status == PendingBuy ==> SameBooks(s, u))
  {
    hide UpdateSellable, HistoryFills, AddBuyFills, AddSellFills;
    SellableFrame(info, s);
    AddBuyFillsAppends(s.(status := PendingBuy), HistoryFills(history, order.orderId));
    AddBuyFillsAppends(s.(status := Watching), HistoryFills(history, order.orderId));
    AddSellFillsAppends(s, HistoryFills(history, s.sellOrderId));
    SellableFrame(info, RecoverBuy(s, order, history));
    SellableFrame(info, RecoverSell(s, order, history));
  }

  /** A trade saved while it waits for an order, one report about that order missed while the service is down, and the
      order looked up afterwards.  Recovery ends in the status the report would have led to exactly when: a NEW trade's
      order was accepted or filled; a PENDING_BUY trade's order was not filled or canceled; a PENDING_SELL trade's order,
      if filled, sold what was bought.  A canceled sale is back in WATCHING with its books untouched. */
  lemma RecoveryCatchesUpIff(info: ExchangeInfo, s: TradeState, r: Report, time: int, oracle: SellOracle,
                             order: ExchangeOrder, history: seq<MyTrade>)
    requires UpdateSellable(info, s) == s && AboutPending(s, r) && order.status == r.status
    ensures var live := Apply(info, Tracked(s, []), ReportOp(r, time, oracle)).state;
            var recovered := DoRecover(info, s, Some(order), history);
            && (recovered.status == live.status <==>
                  match s.status
                  case New => r.status in {OrderNew, OrderFilled}
                  case PendingBuy => r.status in {OrderNew, OrderPartiallyFilled}
                  case _ => r.status == OrderFilled ==> recovered.sellFillQuantity == s.buyFillQuantity)
            && (s.status == New && r.status == OrderNew ==> recovered.status == PendingBuy)
            && (s.status == PendingSell && r.status == OrderCanceled ==> recovered.status == Watching)
            && (r.status in {OrderNew, OrderCanceled} ==> SameBooks(recovered, live) && SameBooks(s, live))
  {
    hide Apply, DoRecover, UpdateSellable;
    LiveStatus(info, s, r, time, oracle);
    RecoveredStatus(info, s, order, history);
  }

  /** The fills agree exactly when the report was none, or recovery reads the history of the order (that of a NEW trade's
      order, and that of a sale if it was filled completely) and finds there this one fill. */
  lemma RecoveredFillsIff(info: ExchangeInfo, s: TradeState, r: Report, time: int, oracle: SellOracle,
                          order: ExchangeOrder, history: seq<MyTrade>)
    requires UpdateSellable(info, s) == s && AboutPending(s, r) && order.status == r.status
    ensures var live := Apply(info, Tracked(s, []), ReportOp(r, time, oracle)).state;
            var recovered := DoRecover(info, s, Some(order), history);
            var fill := OrderFill(r.lastPrice, r.lastQuantity, r.commissionAsset, r.commissionAmount);
            (recovered.buyFills == live.buyFills && recovered.sellFills == live.sellFills <==>
             || r.status in {OrderNew, OrderCanceled}
             || (s.status == New && HistoryFills(history, order.orderId) == [fill])
             || (s.status == PendingSell && r.status == OrderFilled && HistoryFills(history, s.sellOrderId) == [fill]))
  {
    hide Apply, DoRecover, UpdateSellable, HistoryFills;
    LiveStatus(info, s, r, time, oracle);
    RecoverAppends(info, s, Some(order), history);
    forall a: seq<OrderFill>, b: seq<OrderFill> | s.buyFills + a == s.buyFills + b ensures a == b {
      assert (s.buyFills + a)[|s.buyFills|..] == a && (s.buyFills + b)[|s.buyFills|..] == b;
    }
    forall a: seq<OrderFill>, b: seq<OrderFill> | s.sellFills + a == s.sellFills + b ensures a == b {
      assert (s.sellFills + a)[|s.sellFills|..] == a && (s.sellFills + b)[|s.sellFills|..] == b;
    }
  }
}
