/** What a trade shows of its orders, its price and its end, read off the run that led there. */
module ReportLaws {
  import opened Numbers
  import opened Fills
  import opened TradeModel
  import opened Pricing
  import opened TradeOps
  import opened TradeLaws
  import opened RequestLaws
  import opened TickLaws
  import Engines

  predicate IsReport(op: Op, side: OrderSide, status: OrderStatus) {
    op.ReportOp? && op.report.side == side && op.report.status == status
  }

  /** A NEW report for a sell order counts unless the trade is DONE already. */
  predicate NewSellHeard(s: TradeState, op: Op) {
    IsReport(op, Sell, OrderNew) && s.status != Done
  }

  predicate ShowsBuyOrder(u: TradeState, r: Report, time: int) {
    u.buyOrderId == r.orderId && u.openTime == time && u.buyOrder == OrderTerms(r.quantity, r.price)
  }

  predicate ShowsSellOrder(u: TradeState, r: Report) {
    && u.sellOrderId == r.orderId
    && u.sellOrder == SellOrder(u.sellOrder.status, r.orderType, r.quantity, r.price)
  }

  predicate SameBuyOrder(s: TradeState, u: TradeState) {
    s.buyOrderId == u.buyOrderId && s.openTime == u.openTime && s.buyOrder == u.buyOrder
  }

  predicate SameSellOrder(s: TradeState, u: TradeState) {
    s.sellOrderId == u.sellOrderId && u.sellOrder == s.sellOrder.(status := u.sellOrder.status)
  }

  predicate SameOrderStatuses(s: TradeState, u: TradeState) {
    s.lastBuyStatus == u.lastBuyStatus && s.sellOrder.status == u.sellOrder.status
  }

  // ---------- one operation ----------

  lemma FillsKeepOrders(info: ExchangeInfo, s: TradeState, r: Report)
    ensures var u := OnBuyFill(info, s, r);
            SameBuyOrder(s, u) && SameSellOrder(s, u) && SameOrderStatuses(s, u) && u.lastPrice == s.lastPrice
    ensures var u := TradeModel.AddSellFill(s, ReportFill(r));
            SameBuyOrder(s, u) && SameSellOrder(s, u) && SameOrderStatuses(s, u) && u.lastPrice == s.lastPrice
            && u.status == s.status
  {
    hide Sum, Round8, Round8Number, Percent, FixQuantityToStepSize;
  }

  lemma RecoverKeepsOrders(info: ExchangeInfo, s: TradeState, lookup: Option<ExchangeOrder>, history: seq<MyTrade>)
    ensures var u := DoRecover(info, s, lookup, history);
            SameBuyOrder(s, u) && SameSellOrder(s, u) && SameOrderStatuses(s, u) && u.lastPrice == s.lastPrice
  {
    hide AddBuyFills, AddSellFills, HistoryFills, UpdateSellable;
    SellableFrame(info, s);
    if lookup.Some? {
      var order := lookup.value;
      AddBuyFillsAppends(s.(status := PendingBuy), HistoryFills(history, order.orderId));
      AddBuyFillsAppends(s.(status := Watching), HistoryFills(history, order.orderId));
      AddSellFillsAppends(s, HistoryFills(history, s.sellOrderId));
      SellableFrame(info, RecoverBuy(s, order, history));
      SellableFrame(info, RecoverSell(s, order, history));
    }
  }

  lemma SellReportOrders(s: TradeState, r: Report)
    requires r.side == Sell
    ensures var u := OnSellReport(s, r);
            && SameBuyOrder(s, u) && u.lastBuyStatus == s.lastBuyStatus && u.lastPrice == s.lastPrice
            && (if r.status == OrderNew && s.status != Done then ShowsSellOrder(u, r) else SameSellOrder(s, u))
            && u.sellOrder.status ==
               match r.status
               case OrderNew =>
                 if s.status == Done || s.sellOrder.status in {OrderPartiallyFilled, OrderFilled} then s.sellOrder.status
                 else OrderNew
               case OrderPartiallyFilled => if s.sellOrder.status == OrderFilled then OrderFilled else OrderPartiallyFilled
               case _ => r.status
  {
    hide TradeModel.AddSellFill;
    FillsKeepOrders(map[], s, r);
  }

  lemma BuyReportOrders(info: ExchangeInfo, t: Tracked, r: Report, time: int, oracle: SellOracle)
    requires r.side == Buy
    ensures var s, u := t.state, OnBuyReport(info, t, r, time, oracle).state;
            && SameSellOrder(s, u) && u.sellOrder.status == s.sellOrder.status && u.lastPrice == s.lastPrice
            && (if r.status == OrderNew then ShowsBuyOrder(u, r, time) else SameBuyOrder(s, u))
            && u.lastBuyStatus ==
               match r.status
               case OrderNew => if s.lastBuyStatus == Unset then OrderNew else s.lastBuyStatus
               case OrderPartiallyFilled => if s.lastBuyStatus == OrderFilled then OrderFilled else OrderPartiallyFilled
               case OrderFilled => OrderFilled
               case OrderCanceled => OrderCanceled
               case _ => s.lastBuyStatus
  {
    hide OnBuyFill, TriggerLimitSell;
    var s := t.state;
    FillsKeepOrders(info, s, r);
    FillsKeepOrders(info, s.(lastBuyStatus := OrderPartiallyFilled), r);
    var filled := t.(state := OnBuyFill(info, s, r).(status := Watching, lastBuyStatus := OrderFilled));
    SellsOnlyOrder(info, filled, 0.0, NotANumber, oracle);
    TriggerKeepsPrice(info, filled, oracle);
  }

  lemma TriggerKeepsPrice(info: ExchangeInfo, t: Tracked, oracle: SellOracle)
    ensures TriggerLimitSell(info, t, oracle).state.lastPrice == t.state.lastPrice
  {
    hide LimitSellPrice;
  }

  /** Only reports move what a trade shows of its orders. */
  lemma OthersKeepOrders(info: ExchangeInfo, t: Tracked, op: Op)
    requires !op.ReportOp?
    ensures var s, u := t.state, Apply(info, t, op).state;
            SameBuyOrder(s, u) && SameSellOrder(s, u) && SameOrderStatuses(s, u)
  {
    hide OnTick, DoCommand, DoRecover;
    match op
    case TickOp(symbol, price, o) => TickOnlyOrders(t, symbol, price, o);
    case CommandOp(c) =>
      if c.Recover? {
        RecoverIsState(info, t, c);
        RecoverKeepsOrders(info, t.state, c.lookup, c.history);
      } else if c.Fail? || c.Abandon? {
        ClosingKeepsOrders(info, t, c);
      } else {
        CommandOnlyOrders(info, t, c);
      }
  }

  lemma RecoverIsState(info: ExchangeInfo, t: Tracked, c: Command)
    requires c.Recover?
    ensures DoCommand(info, t, c).state == DoRecover(info, t.state, c.lookup, c.history)
  {
  }

  lemma ClosingKeepsOrders(info: ExchangeInfo, t: Tracked, c: Command)
    requires c.Fail? || c.Abandon?
    ensures var s, u := t.state, DoCommand(info, t, c).state;
            SameBuyOrder(s, u) && SameSellOrder(s, u) && SameOrderStatuses(s, u) && u.lastPrice == s.lastPrice
  {
  }

  lemma OrderStep(info: ExchangeInfo, t: Tracked, op: Op)
    ensures var s, u := t.state, Apply(info, t, op).state;
            && (if IsReport(op, Buy, OrderNew) then ShowsBuyOrder(u, op.report, op.time) else SameBuyOrder(s, u))
            && (if NewSellHeard(s, op) then ShowsSellOrder(u, op.report) else SameSellOrder(s, u))
  {
    hide OnBuyReport, OnSellReport, Apply;
    if op.ReportOp? {
      ReportIsApplied(info, t, op);
      if op.report.side == Buy { BuyReportOrders(info, t, op.report, op.time, op.oracle); }
      if op.report.side == Sell { SellReportOrders(t.state, op.report); }
    } else {
      OthersKeepOrders(info, t, op);
    }
  }

  lemma ReportIsApplied(info: ExchangeInfo, t: Tracked, op: Op)
    requires op.ReportOp?
    ensures var r, s, u := op.report, t.state, Apply(info, t, op).state;
            var v := (if r.side == Buy then OnBuyReport(info, t, r, op.time, op.oracle).state
                      else if r.side == Sell then OnSellReport(s, r) else s);
            u == v.(closeTime := u.closeTime)
  {
    hide OnBuyReport, OnSellReport;
  }

  // ---------- the order a trade shows ----------

  /** No operation after position `k` is a NEW report for the buy order, respectively one for a sell order that counts. */
  ghost predicate LastNewBuy(ops: seq<Op>, k: nat) {
    forall j | k < j < |ops| :: !IsReport(ops[j], Buy, OrderNew)
  }

  ghost predicate LastNewSell(info: ExchangeInfo, t: Tracked, ops: seq<Op>, k: nat) {
    forall j | k < j < |ops| :: !NewSellHeard(RunOps(info, t, ops[..j]).state, ops[j])
  }

  /** After every run, the trade shows the buy order of the last NEW report, and opened when that arrived; a cancellation
      of the buy names that order. */
  lemma {:induction false} BuyOrderIsLastNew(info: ExchangeInfo, t: Tracked, ops: seq<Op>, k: nat)
    requires k < |ops| && IsReport(ops[k], Buy, OrderNew) && LastNewBuy(ops, k)
    ensures ShowsBuyOrder(RunOps(info, t, ops).state, ops[k].report, ops[k].time)
    ensures RunOps(info, t, ops + [CommandOp(CancelBuy)]).sent ==
            RunOps(info, t, ops).sent + [Cancel(ops[k].report.orderId)]
  {
    hide Apply;
    var n := |ops| - 1;
    OrderStep(info, RunOps(info, t, ops[..n]), ops[n]);
    if k < n { BuyOrderIsLastNew(info, t, ops[..n], k); }
    RunOpsAppend(info, t, ops, CommandOp(CancelBuy));
    CancelNames(info, RunOps(info, t, ops), false);
  }

  lemma CancelNames(info: ExchangeInfo, t: Tracked, ok: bool)
    ensures Apply(info, t, CommandOp(CancelBuy)) == t.Send(Cancel(t.state.buyOrderId))
    ensures Apply(info, t, CommandOp(CancelSell(ok))).sent == t.sent + [Cancel(t.state.sellOrderId)]
  {
  }

  /** Likewise the sell order of the last NEW report that did not come after the trade was DONE, and the cancellation of
      the sale. */
  lemma {:induction false} SellOrderIsLastNew(info: ExchangeInfo, t: Tracked, ops: seq<Op>, k: nat, ok: bool)
    requires k < |ops| && NewSellHeard(RunOps(info, t, ops[..k]).state, ops[k]) && LastNewSell(info, t, ops, k)
    ensures ShowsSellOrder(RunOps(info, t, ops).state, ops[k].report)
    ensures RunOps(info, t, ops + [CommandOp(CancelSell(ok))]).sent ==
            RunOps(info, t, ops).sent + [Cancel(ops[k].report.orderId)]
  {
    hide Apply;
    var n := |ops| - 1;
    OrderStep(info, RunOps(info, t, ops[..n]), ops[n]);
    if k < n {
      assert forall j | 0 <= j <= n :: ops[..n][..j] == ops[..j];
      SellOrderIsLastNew(info, t, ops[..n], k, ok);
    }
    RunOpsAppend(info, t, ops, CommandOp(CancelSell(ok)));
    CancelNames(info, RunOps(info, t, ops), ok);
  }

  // ---------- the status of the orders ----------

  ghost predicate SawSince(ops: seq<Op>, c: nat, side: OrderSide, status: OrderStatus) {
    exists k :: c <= k < |ops| && IsReport(ops[k], side, status)
  }

  lemma SawSinceLast(ops: seq<Op>, c: nat, side: OrderSide, status: OrderStatus)
    requires c < |ops|
    ensures SawSince(ops, c, side, status) <==>
            SawSince(ops[..|ops| - 1], c, side, status) || IsReport(ops[|ops| - 1], side, status)
  {
    var before := ops[..|ops| - 1];
    if SawSince(before, c, side, status) {
      var k :| c <= k < |before| && IsReport(before[k], side, status);
      assert IsReport(ops[k], side, status);
    }
    if SawSince(ops, c, side, status) {
      var k :| c <= k < |ops| && IsReport(ops[k], side, status);
      assert k < |before| ==> IsReport(before[k], side, status);
    }
  }

  lemma BuyStatusStep(info: ExchangeInfo, t: Tracked, op: Op)
    ensures var last, next := t.state.lastBuyStatus, Apply(info, t, op).state.lastBuyStatus;
            next == if IsReport(op, Buy, OrderFilled) then OrderFilled
                    else if IsReport(op, Buy, OrderCanceled) then OrderCanceled
                    else if IsReport(op, Buy, OrderPartiallyFilled) && last != OrderFilled then OrderPartiallyFilled
                    else if IsReport(op, Buy, OrderNew) && last == Unset then OrderNew
                    else last
  {
    hide OnBuyReport, OnSellReport, Apply;
    if op.ReportOp? {
      ReportIsApplied(info, t, op);
      if op.report.side == Buy { BuyReportOrders(info, t, op.report, op.time, op.oracle); }
      if op.report.side == Sell { SellReportOrders(t.state, op.report); }
    } else {
      OthersKeepOrders(info, t, op);
    }
  }

  /** The status of the buy order after any run, whatever the order in which its reports arrived: with position `c` right
      after the last CANCELED (or the start, if there was none), it is the furthest the reports since then went. */
  lemma {:induction false} BuyStatusIsFurthest(info: ExchangeInfo, t: Tracked, ops: seq<Op>, c: nat)
    requires c <= |ops| && !SawSince(ops, c, Buy, OrderCanceled)
    requires if c == 0 then t.state.lastBuyStatus == Unset else IsReport(ops[c - 1], Buy, OrderCanceled)
    ensures RunOps(info, t, ops).state.lastBuyStatus ==
            if SawSince(ops, c, Buy, OrderFilled) then OrderFilled
            else if SawSince(ops, c, Buy, OrderPartiallyFilled) then OrderPartiallyFilled
            else if c > 0 then OrderCanceled
            else if SawSince(ops, c, Buy, OrderNew) then OrderNew
            else Unset
  {
    hide Apply;
    if ops != [] {
      var n := |ops| - 1;
      BuyStatusStep(info, RunOps(info, t, ops[..n]), ops[n]);
      if c < |ops| {
        SawSinceLast(ops, c, Buy, OrderCanceled);
        SawSinceLast(ops, c, Buy, OrderFilled);
        SawSinceLast(ops, c, Buy, OrderPartiallyFilled);
        SawSinceLast(ops, c, Buy, OrderNew);
        BuyStatusIsFurthest(info, t, ops[..n], c);
      }
    }
  }

  /** A report that replaces the status of the sell order whatever it was. */
  predicate Replaces(op: Op) {
    && op.ReportOp? && op.report.side == Sell
    && op.report.status != OrderNew && op.report.status != OrderPartiallyFilled && op.report.status != OrderFilled
  }

  ghost predicate NewHeardSince(info: ExchangeInfo, t: Tracked, ops: seq<Op>, c: nat) {
    exists k :: c <= k < |ops| && NewSellHeard(RunOps(info, t, ops[..k]).state, ops[k])
  }

  lemma NewHeardLast(info: ExchangeInfo, t: Tracked, ops: seq<Op>, c: nat)
    requires c < |ops|
    ensures var n := |ops| - 1;
            NewHeardSince(info, t, ops, c) <==>
            NewHeardSince(info, t, ops[..n], c) || NewSellHeard(RunOps(info, t, ops[..n]).state, ops[n])
  {
    hide RunOps, NewSellHeard;
    var n := |ops| - 1;
    assert forall k | 0 <= k <= n :: ops[..n][..k] == ops[..k];
    if NewHeardSince(info, t, ops[..n], c) {
      var k :| c <= k < n && NewSellHeard(RunOps(info, t, ops[..n][..k]).state, ops[..n][k]);
      assert NewSellHeard(RunOps(info, t, ops[..k]).state, ops[k]);
    }
    if NewHeardSince(info, t, ops, c) {
      var k :| c <= k < |ops| && NewSellHeard(RunOps(info, t, ops[..k]).state, ops[k]);
      assert k < n ==> NewSellHeard(RunOps(info, t, ops[..n][..k]).state, ops[..n][k]);
    }
  }

  lemma SellStatusStep(info: ExchangeInfo, t: Tracked, op: Op)
    ensures var last, next := t.state.sellOrder.status, Apply(info, t, op).state.sellOrder.status;
            next == if Replaces(op) then op.report.status
                    else if IsReport(op, Sell, OrderFilled) then OrderFilled
                    else if IsReport(op, Sell, OrderPartiallyFilled) && last != OrderFilled then OrderPartiallyFilled
                    else if NewSellHeard(t.state, op) && last !in {OrderPartiallyFilled, OrderFilled} then OrderNew
                    else last
  {
    hide OnBuyReport, OnSellReport, Apply;
    if op.ReportOp? {
      ReportIsApplied(info, t, op);
      if op.report.side == Buy { BuyReportOrders(info, t, op.report, op.time, op.oracle); }
      if op.report.side == Sell { SellReportOrders(t.state, op.report); }
    } else {
      OthersKeepOrders(info, t, op);
    }
  }

  /** Likewise the status of the sell order, since the last report that replaces it (CANCELED, REJECTED, EXPIRED, ...). */
  lemma {:induction false} SellStatusIsFurthest(info: ExchangeInfo, t: Tracked, ops: seq<Op>, c: nat)
    requires c <= |ops| && forall k | c <= k < |ops| :: !Replaces(ops[k])
    requires if c == 0 then t.state.sellOrder.status == Unset else Replaces(ops[c - 1])
    ensures RunOps(info, t, ops).state.sellOrder.status ==
            if SawSince(ops, c, Sell, OrderFilled) then OrderFilled
            else if SawSince(ops, c, Sell, OrderPartiallyFilled) then OrderPartiallyFilled
            else if NewHeardSince(info, t, ops, c) then OrderNew
            else if c == 0 then Unset else ops[c - 1].report.status
  {
    hide Apply;
    if ops != [] {
      var n := |ops| - 1;
      SellStatusStep(info, RunOps(info, t, ops[..n]), ops[n]);
      if c < |ops| {
        hide RunOps;
        SawSinceLast(ops, c, Sell, OrderFilled);
        SawSinceLast(ops, c, Sell, OrderPartiallyFilled);
        NewHeardLast(info, t, ops, c);
        SellStatusIsFurthest(info, t, ops[..n], c);
        RunOpsAppend(info, t, ops[..n], ops[n]);
        assert ops[..n] + [ops[n]] == ops;
      }
    }
  }

  // ---------- the price a trade shows ----------

  lemma CommandKeepsPrice(info: ExchangeInfo, t: Tracked, c: Command)
    ensures DoCommand(info, t, c).state.lastPrice == t.state.lastPrice
  {
    hide LimitSellPrice, DoRecover;
    if c.Recover? { RecoverKeepsOrders(info, t.state, c.lookup, c.history); }
  }

  lemma PriceStep(info: ExchangeInfo, t: Tracked, op: Op)
    ensures var s, u := t.state, Apply(info, t, op).state;
            if Eligible(s, op) then u.lastPrice == op.price && u.profitPercent == CalculateProfit(s, op.price)
            else u.lastPrice == s.lastPrice && (SellFillsFrom(s, op) == [] ==> u.profitPercent == s.profitPercent)
  {
    hide OnBuyReport, OnSellReport, CheckStopLoss, CheckTrailingProfit, CalculateProfit, DoCommand, SellFillsFrom;
    var s := t.state;
    match op
    case ReportOp(r, time, oracle) =>
      ApplySides(info, t, op);
      if r.side == Buy { BuyReportOrders(info, t, r, time, oracle); }
      if r.side == Sell { SellReportOrders(s, r); }
    case TickOp(symbol, price, o) => if Eligible(s, op) { TickStep(t, price, o); }
    case CommandOp(c) =>
      ApplySides(info, t, op);
      CommandKeepsPrice(info, t, c);
  }

  /** Since position `k` the trade was not for sale on any tick of its symbol, and sold nothing. */
  ghost predicate LastTick(info: ExchangeInfo, t: Tracked, ops: seq<Op>, k: nat) {
    forall j | k < j < |ops| :: !Eligible(RunOps(info, t, ops[..j]).state, ops[j])
  }

  ghost predicate NoSaleSince(info: ExchangeInfo, t: Tracked, ops: seq<Op>, k: nat) {
    forall j | k < j < |ops| :: SellFillsFrom(RunOps(info, t, ops[..j]).state, ops[j]) == []
  }

  /** After every run, the price is that of the last tick that found the trade for sale, and until something is sold the
      profit is the estimate at that price. */
  lemma {:induction false} PriceIsLastTick(info: ExchangeInfo, t: Tracked, ops: seq<Op>, k: nat)
    requires k < |ops| && Eligible(RunOps(info, t, ops[..k]).state, ops[k]) && LastTick(info, t, ops, k)
    ensures RunOps(info, t, ops).state.lastPrice == ops[k].price
    ensures NoSaleSince(info, t, ops, k) ==>
              RunOps(info, t, ops).state.profitPercent == CalculateProfit(RunOps(info, t, ops[..k]).state, ops[k].price)
  {
    hide Apply, CalculateProfit, SellFillsFrom;
    var n := |ops| - 1;
    PriceStep(info, RunOps(info, t, ops[..n]), ops[n]);
    if k < n {
      assert forall j | 0 <= j <= n :: ops[..n][..j] == ops[..j];
      PriceIsLastTick(info, t, ops[..n], k);
    }
  }

  // ---------- the end of a trade ----------

  /** Abandoning closes an open trade and nothing else about it; afterwards, abandoning it again or a tick does
      nothing. */
  lemma AbandonedOnce(info: ExchangeInfo, t: Tracked, now: int, later: int, symbol: string, price: real, o: TickOracle)
    ensures var s, u := t.state, Apply(info, t, CommandOp(Abandon(now)));
            && u.sent == t.sent && u.state == s.(status := u.state.status, closeTime := u.state.closeTime)
            && (if s.status in {Done, Canceled, Failed, Abandoned} then u.state == s
                else u.state.status == Abandoned && u.state.closeTime == Some(now))
            && Apply(info, u, CommandOp(Abandon(later))) == u
            && Apply(info, u, TickOp(symbol, price, o)) == u
  {
  }

  /** A report that leaves a trade DONE, CANCELED or FAILED stamps the close time and gives the stream back, even if the
      trade was closed before; any other report, one that leaves it ABANDONED included, does neither. */
  lemma ClosedByReport(info: ExchangeInfo, t: Tracked, r: Report, time: int, oracle: SellOracle)
    ensures var s, op := t.state, ReportOp(r, time, oracle);
            var u := Apply(info, t, op).state;
            var closes := u.status in {Done, Canceled, Failed};
            && u.status == StatusAfterReport(s.status, s.buyFillQuantity == 0.0, r.side, r.status)
            && u.closeTime == (if closes then Some(time) else s.closeTime)
            && (Engines.Releases(s, op, u) <==> closes)
  {
    hide OnReport;
    ReportStatus(info, t, r, time, oracle);
  }
}
