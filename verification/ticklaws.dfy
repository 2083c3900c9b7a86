/** What price ticks, among everything else that happens to a trade, do to its stop loss and its trailing profit. */
module TickLaws {
  import opened Numbers
  import opened Fills
  import opened TradeModel
  import opened Pricing
  import opened TradeOps
  import opened TradeLaws
  import opened RequestLaws

  // ---------- one tick ----------

  /** The trailing profit as one tick leaves it. */
  function NextTrailing(trailing: TrailingProfit, profit: Number, price: real): TrailingProfit {
    if !trailing.enabled || trailing.triggered then trailing
    else if !trailing.activated then trailing.(activated := profit.Above(trailing.percent))
    else if price > trailing.price then trailing.(price := price)
    else trailing.(triggered := Percent(price - trailing.price, trailing.price).Magnitude().Above(trailing.deviation))
  }

  function NextStopLoss(stopLoss: StopLoss, profit: Number): StopLoss {
    if !stopLoss.enabled then stopLoss
    else stopLoss.(triggered := stopLoss.triggered || profit.Below(-Abs(stopLoss.percent)))
  }

  lemma MarketSellSettings(t: Tracked, oracle: SellOracle)
    ensures var u := DoMarketSell(t, oracle).state;
            u == t.state.(clientOrderIds := u.clientOrderIds, limitSell := u.limitSell)
  {
  }

  lemma StopLossStep(t: Tracked, o: TickOracle)
    requires Sellable(t.state)
    ensures var s := t.state;
            var u := (if s.stopLoss.enabled then CheckStopLoss(t, o) else t).state;
            u == s.(clientOrderIds := u.clientOrderIds, limitSell := u.limitSell,
                    stopLoss := NextStopLoss(s.stopLoss, s.profitPercent))
  {
    hide DoMarketSell;
    MarketSellSettings(StopLossLatched(t, o), o.stopSell);
  }

  lemma TrailingStep(t: Tracked, price: real, o: TickOracle)
    requires Sellable(t.state)
    ensures var s := t.state;
            var u := (if s.trailing.enabled then CheckTrailingProfit(t, price, o) else t).state;
            u == s.(clientOrderIds := u.clientOrderIds, limitSell := u.limitSell,
                    trailing := NextTrailing(s.trailing, s.profitPercent, price))
  {
    hide DoMarketSell, Percent;
    MarketSellSettings(TrailingLatched(t), o.trailingSell);
  }

  /** The two automatic sells do not get in each other's way. */
  lemma TickStep(t: Tracked, price: real, o: TickOracle)
    requires Sellable(t.state)
    ensures var s, u := t.state, OnTick(t, t.state.symbol, price, o).state;
            var profit := CalculateProfit(s, price);
            u == s.(clientOrderIds := u.clientOrderIds, limitSell := u.limitSell, lastPrice := price,
                    profitPercent := profit, stopLoss := NextStopLoss(s.stopLoss, profit),
                    trailing := NextTrailing(s.trailing, profit, price))
  {
    hide CalculateProfit, CheckStopLoss, CheckTrailingProfit, NextTrailing, NextStopLoss;
    var t1 := OnPrice(t, price);
    StopLossStep(t1, o);
    TrailingStep(if t1.state.stopLoss.enabled then CheckStopLoss(t1, o) else t1, price, o);
  }

  /** The stop loss, respectively the trailing profit, sets its latch at this price. */
  predicate StopLossLatches(s: TradeState, price: real) {
    !s.stopLoss.triggered && NextStopLoss(s.stopLoss, CalculateProfit(s, price)).triggered
  }

  predicate TrailingLatches(s: TradeState, price: real) {
    !s.trailing.triggered && NextTrailing(s.trailing, CalculateProfit(s, price), price).triggered
  }

  function StopLossSale(s: TradeState, price: real, newId: Option<string>): seq<Effect> {
    if StopLossLatches(s, price)
    then CancelOf(s) + [AutoSell(ByStopLoss)] + CancelOf(s) + MarketSaleOf(s, newId) else []
  }

  function TrailingSale(s: TradeState, price: real, newId: Option<string>): seq<Effect> {
    if TrailingLatches(s, price)
    then [AutoSell(ByTrailingProfit)] + CancelOf(s) + MarketSaleOf(s, newId) else []
  }

  lemma StopLossSends(t: Tracked, price: real, o: TickOracle)
    requires Sellable(t.state) && t.state.profitPercent == CalculateProfit(t.state, price)
    ensures (if t.state.stopLoss.enabled then CheckStopLoss(t, o) else t).sent ==
            t.sent + StopLossSale(t.state, price, o.stopSell.newId)
  {
    hide CheckStopLoss, CalculateProfit, MarketSaleOf, CancelOf;
    StopLossRequests(t, o);
  }

  lemma TrailingSends(t: Tracked, price: real, o: TickOracle)
    requires Sellable(t.state) && t.state.profitPercent == CalculateProfit(t.state, price)
    ensures (if t.state.trailing.enabled then CheckTrailingProfit(t, price, o) else t).sent ==
            t.sent + TrailingSale(t.state, price, o.trailingSell.newId)
  {
    hide CheckTrailingProfit, CalculateProfit, Percent, MarketSaleOf, CancelOf;
    TrailingProfitRequests(t, price, o);
  }

  /** What the sales of one tick depend on. */
  predicate SamePricing(s: TradeState, u: TradeState) {
    && u.symbol == s.symbol && u.status == s.status && u.sellOrderId == s.sellOrderId
    && u.buyCost == s.buyCost && u.fee == s.fee
    && u.sellableQuantity == s.sellableQuantity && u.sellFillQuantity == s.sellFillQuantity
  }

  lemma SalesOfSamePricing(s: TradeState, u: TradeState, price: real, newId: Option<string>)
    requires SamePricing(s, u)
    ensures s.stopLoss == u.stopLoss ==> StopLossSale(s, price, newId) == StopLossSale(u, price, newId)
    ensures s.trailing == u.trailing ==> TrailingSale(s, price, newId) == TrailingSale(u, price, newId)
    ensures CalculateProfit(s, price) == CalculateProfit(u, price)
  {
    hide Percent, NetProceeds, NextTrailing, NextStopLoss;
  }

  /** Exactly what one tick sends: the stop loss' sale if its latch is set, then the trailing profit's if its latch is
      set, both for the trade as the tick found it. */
  lemma TickSends(t: Tracked, price: real, o: TickOracle)
    requires Sellable(t.state)
    ensures OnTick(t, t.state.symbol, price, o).sent ==
            t.sent + (StopLossSale(t.state, price, o.stopSell.newId) + TrailingSale(t.state, price, o.trailingSell.newId))
  {
    hide CalculateProfit, CheckStopLoss, CheckTrailingProfit, StopLossSale, TrailingSale, NextStopLoss;
    var t1 := OnPrice(t, price);
    var t2 := if t1.state.stopLoss.enabled then CheckStopLoss(t1, o) else t1;
    SalesOfSamePricing(t.state, t1.state, price, o.stopSell.newId);
    SalesOfSamePricing(t.state, t1.state, price, o.trailingSell.newId);
    StopLossSends(t1, price, o);
    StopLossStep(t1, o);
    SalesOfSamePricing(t1.state, t2.state, price, o.trailingSell.newId);
    TrailingSends(t2, price, o);
  }

  /** The market orders among a sequence of requests. */
  function MarketOrders(sent: seq<Effect>): seq<Order> {
    if sent == [] then []
    else
      var e := sent[|sent| - 1];
      MarketOrders(sent[..|sent| - 1]) + if e.Post? && e.order.kind == Market then [e.order] else []
  }

  lemma {:induction false} MarketOrdersConcat(a: seq<Effect>, b: seq<Effect>)
    ensures MarketOrders(a + b) == MarketOrders(a) + MarketOrders(b)
  {
    if b == [] {
      assert a + b == a;
    } else {
      var n := |b| - 1;
      MarketOrdersConcat(a, b[..n]);
      assert (a + b)[..|a + b| - 1] == a + b[..n];
    }
  }

  lemma NoMarketOrders(s: TradeState, trigger: Trigger)
    ensures MarketOrders(CancelOf(s)) == [] && MarketOrders([AutoSell(trigger)]) == []
  {
  }

  /** The one order of a market sale. */
  function SaleOrders(s: TradeState, newId: Option<string>): seq<Order> {
    if newId.Some? then [Order(s.symbol, Sell, Market, Rest(s), Finite(0.0), newId.value)] else []
  }

  lemma SaleOrder(s: TradeState, newId: Option<string>)
    ensures MarketOrders(MarketSaleOf(s, newId)) == SaleOrders(s, newId)
  {
    if newId.Some? {
      var sale := MarketSaleOf(s, newId);
      assert sale == [sale[0]] + [sale[1]];
      MarketOrdersConcat([sale[0]], [sale[1]]);
    }
  }

  lemma SaleOrdersOfTick(s: TradeState, price: real, newId: Option<string>)
    ensures MarketOrders(StopLossSale(s, price, newId)) ==
            if StopLossLatches(s, price) then SaleOrders(s, newId) else []
    ensures MarketOrders(TrailingSale(s, price, newId)) ==
            if TrailingLatches(s, price) then SaleOrders(s, newId) else []
  {
    hide MarketOrders, MarketSaleOf, CancelOf, StopLossLatches, TrailingLatches;
    assert MarketOrders([]) == [] by { NoOrders(); }
    var cancel, sale := CancelOf(s), MarketSaleOf(s, newId);
    NoMarketOrders(s, ByStopLoss);
    NoMarketOrders(s, ByTrailingProfit);
    SaleOrder(s, newId);
    MarketOrdersConcat(cancel + [AutoSell(ByStopLoss)] + cancel, sale);
    MarketOrdersConcat(cancel + [AutoSell(ByStopLoss)], cancel);
    MarketOrdersConcat(cancel, [AutoSell(ByStopLoss)]);
    MarketOrdersConcat([AutoSell(ByTrailingProfit)] + cancel, sale);
    MarketOrdersConcat([AutoSell(ByTrailingProfit)], cancel);
  }

  lemma NoOrders()
    ensures MarketOrders([]) == []
  {
  }

  /** A tick that sets both latches posts two market orders, if both IDs can be made, each for all that is left: twice
      what there is to sell.  No other tick posts two. */
  lemma TwoSalesOnOneTickIff(t: Tracked, price: real, o: TickOracle)
    requires Sellable(t.state)
    ensures var s, u := t.state, OnTick(t, t.state.symbol, price, o);
            t.sent <= u.sent
            && var orders := MarketOrders(u.sent[|t.sent|..]);
               && (|orders| == 2 <==> StopLossLatches(s, price) && TrailingLatches(s, price)
                                      && o.stopSell.newId.Some? && o.trailingSell.newId.Some?)
               && |orders| <= 2
               && (forall i | 0 <= i < |orders| :: orders[i].side == Sell && orders[i].quantity == Rest(s))
               && (|orders| == 2 ==> orders[0].quantity + orders[1].quantity == 2.0 * Rest(s))
  {
    hide OnTick, MarketOrders, StopLossSale, TrailingSale, StopLossLatches, TrailingLatches, Rest;
    var s, u := t.state, OnTick(t, t.state.symbol, price, o);
    var stop, trail := StopLossSale(s, price, o.stopSell.newId), TrailingSale(s, price, o.trailingSell.newId);
    TickSends(t, price, o);
    assert u.sent[|t.sent|..] == stop + trail;
    MarketOrdersConcat(stop, trail);
    SaleOrdersOfTick(s, price, o.stopSell.newId);
    SaleOrdersOfTick(s, price, o.trailingSell.newId);
  }

  // ---------- any operation ----------

  /** The tick finds the trade for sale. */
  predicate Eligible(s: TradeState, op: Op) {
    op.TickOp? && op.symbol == s.symbol && (s.status == Watching || s.status == PendingSell)
  }

  /** The settings as an operation other than an eligible tick leaves them: only the handlers change them. */
  function SetStopLossBy(stopLoss: StopLoss, op: Op): StopLoss {
    match op
    case CommandOp(SetStopLoss(enable, percent)) => stopLoss.(enabled := enable, percent := percent)
    case _ => stopLoss
  }

  function SetTrailingBy(trailing: TrailingProfit, op: Op): TrailingProfit {
    match op
    case CommandOp(SetTrailingProfit(enable, percent, deviation)) =>
      trailing.(enabled := enable, percent := percent, deviation := deviation)
    case _ => trailing
  }

  predicate SameAutoSells(s: TradeState, u: TradeState) {
    s.stopLoss == u.stopLoss && s.trailing == u.trailing
  }

  lemma FillsKeepAutoSells(info: ExchangeInfo, s: TradeState, r: Report)
    ensures SameAutoSells(s, OnBuyFill(info, s, r)) && SameAutoSells(s, OnSellReport(s, r))
  {
    hide Sum, Round8, Round8Number, Percent, FixQuantityToStepSize;
  }

  lemma SellsKeepAutoSells(info: ExchangeInfo, t: Tracked, percent: real, price: Number, oracle: SellOracle)
    ensures SameAutoSells(t.state, DoMarketSell(t, oracle).state)
    ensures SameAutoSells(t.state, DoLimitSellByPercent(info, t, percent, oracle).state)
    ensures SameAutoSells(t.state, DoLimitSellByPrice(t, price, oracle).state)
    ensures SameAutoSells(t.state, TriggerLimitSell(info, t, oracle).state)
  {
    hide LimitSellPrice;
  }

  lemma ReportKeepsAutoSells(info: ExchangeInfo, t: Tracked, r: Report, time: int, oracle: SellOracle)
    ensures SameAutoSells(t.state, OnReport(info, t, r, time, oracle).state)
  {
    hide OnBuyFill, OnSellReport, TriggerLimitSell;
    var s := t.state;
    var last := if s.lastBuyStatus != OrderFilled then OrderPartiallyFilled else s.lastBuyStatus;
    FillsKeepAutoSells(info, s.(lastBuyStatus := last), r);
    FillsKeepAutoSells(info, s, r);
    var filled := t.(state := OnBuyFill(info, s, r).(status := Watching, lastBuyStatus := OrderFilled));
    SellsKeepAutoSells(info, filled, 0.0, NotANumber, oracle);
  }

  lemma RecoverKeepsAutoSells(info: ExchangeInfo, s: TradeState, lookup: Option<ExchangeOrder>, history: seq<MyTrade>)
    ensures SameAutoSells(s, DoRecover(info, s, lookup, history))
  {
    hide RecoverBuy, RecoverSell, UpdateSellable, Settled;
    SellableFrame(info, s);
    if lookup.Some? {
      RecoverBuyFrame(s, lookup.value, history);
      RecoverSellFrame(s, lookup.value, history);
      SellableFrame(info, RecoverBuy(s, lookup.value, history));
      SellableFrame(info, RecoverSell(s, lookup.value, history));
    }
  }

  lemma CommandKeepsAutoSells(info: ExchangeInfo, t: Tracked, c: Command)
    ensures var u := DoCommand(info, t, c).state;
            u.stopLoss == SetStopLossBy(t.state.stopLoss, CommandOp(c))
            && u.trailing == SetTrailingBy(t.state.trailing, CommandOp(c))
  {
    hide DoMarketSell, DoLimitSellByPercent, DoLimitSellByPrice, DoRecover;
    match c
    case MarketSell(oracle) => SellsKeepAutoSells(info, t, 0.0, NotANumber, oracle);
    case LimitSellByPercent(percent, oracle) => SellsKeepAutoSells(info, t, percent, NotANumber, oracle);
    case LimitSellByPrice(price, oracle) => SellsKeepAutoSells(info, t, 0.0, Finite(price), oracle);
    case Recover(lookup, history) => RecoverKeepsAutoSells(info, t.state, lookup, history);
    case _ =>
  }

  /** Whatever the operation is: an eligible tick advances the two automatic sells, and nothing else moves them but
      their settings. */
  lemma ApplyAutoSells(info: ExchangeInfo, t: Tracked, op: Op)
    ensures var s, u := t.state, Apply(info, t, op).state;
            if Eligible(s, op)
            then && u.stopLoss == NextStopLoss(s.stopLoss, CalculateProfit(s, op.price))
                 && u.trailing == NextTrailing(s.trailing, CalculateProfit(s, op.price), op.price)
            else u.stopLoss == SetStopLossBy(s.stopLoss, op) && u.trailing == SetTrailingBy(s.trailing, op)
  {
    hide OnReport, DoCommand, CheckStopLoss, CheckTrailingProfit, CalculateProfit, NextStopLoss, NextTrailing;
    match op
    case ReportOp(r, time, oracle) => ReportKeepsAutoSells(info, t, r, time, oracle);
    case TickOp(symbol, price, o) => if Eligible(t.state, op) { TickStep(t, price, o); }
    case CommandOp(c) => CommandKeepsAutoSells(info, t, c);
  }

  // ---------- stop loss ----------

  /** The loss at this price exceeds the allowed percentage. */
  predicate Loses(s: TradeState, price: real) {
    CalculateProfit(s, price).Below(-Abs(s.stopLoss.percent))
  }

  lemma LosesMeans(s: TradeState, price: real)
    requires s.buyCost > 0.0
    ensures Loses(s, price) <==>
            price * s.sellableQuantity * (1.0 - s.fee) * 100.0 < s.buyCost * (100.0 - Abs(s.stopLoss.percent))
  {
    LossTest(price * s.sellableQuantity * (1.0 - s.fee), s.buyCost, Abs(s.stopLoss.percent));
  }

  /** The activation test of the trailing profit in money. */
  lemma GainsMeans(s: TradeState, price: real, percent: real)
    requires s.buyCost > 0.0
    ensures CalculateProfit(s, price).Above(percent) <==>
            price * s.sellableQuantity * (1.0 - s.fee) * 100.0 > s.buyCost * (100.0 + percent)
  {
    GainTest(price * s.sellableQuantity * (1.0 - s.fee), s.buyCost, percent);
  }

  lemma GainTest(net: real, cost: real, percent: real)
    requires cost > 0.0
    ensures (net - cost) / cost * 100.0 > percent <==> net * 100.0 > cost * (100.0 + percent)
  {
    var q := (net - cost) / cost;
    assert q * cost == net - cost;
    var gap := q * 100.0 - percent;
    assert gap * cost == net * 100.0 - cost * (100.0 + percent);
    assert gap > 0.0 <==> gap * cost > 0.0;
  }

  /** Without a cost to compare with, whatever the percentages: any net loss fires the stop loss, any net proceeds activate
      the trailing profit, and no proceeds do neither. */
  lemma TestsWithoutCost(s: TradeState, price: real, percent: real)
    requires s.buyCost == 0.0
    ensures var net := price * s.sellableQuantity * (1.0 - s.fee);
            (Loses(s, price) <==> net < 0.0) && (CalculateProfit(s, price).Above(percent) <==> net > 0.0)
  {
  }

  lemma LossTest(net: real, cost: real, percent: real)
    requires cost > 0.0
    ensures (net - cost) / cost * 100.0 < -percent <==> net * 100.0 < cost * (100.0 - percent)
  {
    var q := (net - cost) / cost;
    assert q * cost == net - cost;
    var gap := q * 100.0 + percent;
    assert gap * cost == net * 100.0 - cost * (100.0 - percent);
    assert gap < 0.0 <==> gap * cost < 0.0;
  }

  /** An eligible tick at which the stop loss, as it is set then, finds too large a loss. */
  predicate FiresOn(s: TradeState, op: Op) {
    Eligible(s, op) && s.stopLoss.enabled && Loses(s, op.price)
  }

  /** Operation `k` of the run meets the trade in a state in which it fires the stop loss. */
  ghost predicate FiresAt(info: ExchangeInfo, t: Tracked, ops: seq<Op>, k: nat) {
    k < |ops| && FiresOn(RunOps(info, t, ops[..k]).state, ops[k])
  }

  lemma FiresAtPrefix(info: ExchangeInfo, t: Tracked, ops: seq<Op>, n: nat, k: nat)
    requires k < n <= |ops|
    ensures FiresAt(info, t, ops[..n], k) <==> FiresAt(info, t, ops, k)
  {
    assert ops[..n][..k] == ops[..k];
  }

  lemma ApplyFires(info: ExchangeInfo, t: Tracked, op: Op)
    ensures Apply(info, t, op).state.stopLoss.triggered <==> t.state.stopLoss.triggered || FiresOn(t.state, op)
  {
    hide Apply, CalculateProfit;
    ApplyAutoSells(info, t, op);
  }

  /** Some eligible tick of the run finds too large a loss, by the settings, the cost and the quantity of then. */
  ghost predicate FiresSomewhere(info: ExchangeInfo, t: Tracked, ops: seq<Op>) {
    exists k: nat :: FiresAt(info, t, ops, k)
  }

  lemma FiresLast(info: ExchangeInfo, t: Tracked, ops: seq<Op>)
    requires ops != []
    ensures var before, op := ops[..|ops| - 1], ops[|ops| - 1];
            FiresSomewhere(info, t, ops) <==>
            FiresSomewhere(info, t, before) || FiresOn(RunOps(info, t, before).state, op)
  {
    hide RunOps, FiresOn;
    var n := |ops| - 1;
    if k: nat :| FiresAt(info, t, ops, k) {
      if k < n { FiresAtPrefix(info, t, ops, n, k); }
    }
    if k: nat :| FiresAt(info, t, ops[..n], k) {
      FiresAtPrefix(info, t, ops, n, k);
    }
    if FiresOn(RunOps(info, t, ops[..n]).state, ops[n]) {
      assert FiresAt(info, t, ops, n);
    }
  }

  /** Over every run of reports, ticks of any symbol, settings and commands: the stop loss has fired exactly if it had
      fired before or some eligible tick of the run found too large a loss. */
  lemma {:induction false} StopLossFiresAtFirstLoss(info: ExchangeInfo, t: Tracked, ops: seq<Op>)
    ensures RunOps(info, t, ops).state.stopLoss.triggered <==>
            t.state.stopLoss.triggered || FiresSomewhere(info, t, ops)
  {
    if ops == [] {
      assert forall k: nat :: !FiresAt(info, t, ops, k);
    } else {
      hide Apply, FiresOn, FiresSomewhere;
      var before := ops[..|ops| - 1];
      StopLossFiresAtFirstLoss(info, t, before);
      FiresLast(info, t, ops);
      ApplyFires(info, RunOps(info, t, before), ops[|ops| - 1]);
    }
  }

  /** The automatic sale is started exactly at the first such tick: not before, at it, and never again. */
  lemma StopLossStartsOnce(info: ExchangeInfo, t: Tracked, ops: seq<Op>, k: nat)
    requires !t.state.stopLoss.triggered && FiresAt(info, t, ops, k)
    requires forall j: nat | j < k :: !FiresAt(info, t, ops, j)
    ensures AutoSells(RunOps(info, t, ops[..k]).sent, ByStopLoss) == AutoSells(t.sent, ByStopLoss)
    ensures AutoSells(RunOps(info, t, ops[..k + 1]).sent, ByStopLoss) == AutoSells(t.sent, ByStopLoss) + 1
    ensures AutoSells(RunOps(info, t, ops).sent, ByStopLoss) == AutoSells(t.sent, ByStopLoss) + 1
  {
    hide RunOps, AutoSells, FiresOn;
    forall j: nat ensures j < k ==> !FiresAt(info, t, ops[..k], j) {
      if j < k { FiresAtPrefix(info, t, ops, k, j); }
    }
    assert !FiresSomewhere(info, t, ops[..k]);
    FiresAtPrefix(info, t, ops, k + 1, k);
    assert FiresSomewhere(info, t, ops[..k + 1]) && FiresSomewhere(info, t, ops);
    StopLossFiresAtFirstLoss(info, t, ops[..k]);
    StopLossFiresAtFirstLoss(info, t, ops[..k + 1]);
    StopLossFiresAtFirstLoss(info, t, ops);
    RunLatches(info, t, ops[..k]);
    RunLatches(info, t, ops[..k + 1]);
    RunLatches(info, t, ops);
  }

  // ---------- trailing profit: the run-level specification ----------

  /** What a trailing profit gets to hear of a tick: the profit and the price, and the settings in force. */
  datatype Quote = Quote(profit: Number, price: real, percent: real, deviation: real) {
    predicate Gains() {
      profit.Above(percent)
    }
  }

  ghost predicate Positive(quotes: seq<Quote>) {
    forall i | 0 <= i < |quotes| :: quotes[i].price > 0.0
  }

  /** The first quote whose profit exceeds the percentage in force. */
  ghost predicate ActivatesAt(quotes: seq<Quote>, a: nat) {
    && a < |quotes| && quotes[a].Gains()
    && forall i | 0 <= i < a :: !quotes[i].Gains()
  }

  /** `high` is the maximum of the prices strictly between quotes `a` and `j`. */
  ghost predicate HighBetween(quotes: seq<Quote>, a: nat, j: nat, high: real)
    requires j <= |quotes|
  {
    && (exists i | a < i < j :: quotes[i].price == high)
    && (forall i | a < i < j :: quotes[i].price <= high)
  }

  /** Quote `j` does not exceed the earlier maximum since activation, and its drop from it exceeds the deviation in
      force. */
  ghost predicate DropsAt(quotes: seq<Quote>, a: nat, j: nat) {
    && a < j < |quotes|
    && exists high :: && HighBetween(quotes, a, j, high)
                      && quotes[j].price <= high
                      && (high - quotes[j].price) * 100.0 > quotes[j].deviation * high
  }

  ghost predicate SellsAt(quotes: seq<Quote>, a: nat, j: nat) {
    DropsAt(quotes, a, j) && forall i | a < i < j :: !DropsAt(quotes, a, i)
  }

  lemma DeviationTest(high: real, price: real, deviation: real)
    requires high > 0.0 && price <= high
    ensures Percent(price - high, high).Magnitude().Above(deviation) <==> (high - price) * 100.0 > deviation * high
  {
    var q := (price - high) / high;
    assert q * high == price - high;
    assert q <= 0.0;
    var gap := -q * 100.0 - deviation;
    assert gap * high == (high - price) * 100.0 - deviation * high;
    assert gap > 0.0 <==> gap * high > 0.0;
  }

  /** The state of the trailing profit after a run of quotes, read off the quotes alone. */
  ghost predicate Tracks(quotes: seq<Quote>, trailing: TrailingProfit) {
    && (trailing.activated <==> exists a: nat :: ActivatesAt(quotes, a))
    && (!trailing.activated ==> !trailing.triggered && trailing.price == 0.0)
    && (forall a: nat | ActivatesAt(quotes, a) ::
          && (trailing.triggered <==> exists j: nat :: DropsAt(quotes, a, j))
          && (!trailing.triggered ==>
                if a + 1 == |quotes| then trailing.price == 0.0
                else HighBetween(quotes, a, |quotes|, trailing.price))
          && (forall j: nat | SellsAt(quotes, a, j) :: HighBetween(quotes, a, j, trailing.price)))
  }

  /** Appending a quote does not change what happened before it. */
  lemma PrefixFacts(before: seq<Quote>, quotes: seq<Quote>, a: nat)
    requires before <= quotes && a < |before|
    ensures ActivatesAt(before, a) <==> ActivatesAt(quotes, a)
    ensures forall j: nat, high | j <= |before| :: HighBetween(before, a, j, high) <==> HighBetween(quotes, a, j, high)
    ensures forall j: nat | j < |before| :: DropsAt(before, a, j) <==> DropsAt(quotes, a, j)
    ensures forall j: nat | j < |before| :: SellsAt(before, a, j) <==> SellsAt(quotes, a, j)
  {
    hide DropsAt, HighBetween;
    assert forall i | 0 <= i < |before| :: before[i] == quotes[i];
    forall j: nat, high | j <= |before| ensures HighBetween(before, a, j, high) <==> HighBetween(quotes, a, j, high) {
      PrefixHigh(before, quotes, a, j, high);
    }
    forall j: nat | j < |before| ensures DropsAt(before, a, j) <==> DropsAt(quotes, a, j) {
      PrefixDrop(before, quotes, a, j);
    }
  }

  lemma PrefixHigh(before: seq<Quote>, quotes: seq<Quote>, a: nat, j: nat, high: real)
    requires before <= quotes && j <= |before|
    ensures HighBetween(before, a, j, high) <==> HighBetween(quotes, a, j, high)
  {
    assert forall i | 0 <= i < |before| :: before[i] == quotes[i];
  }

  lemma PrefixDrop(before: seq<Quote>, quotes: seq<Quote>, a: nat, j: nat)
    requires before <= quotes && j < |before|
    ensures DropsAt(before, a, j) <==> DropsAt(quotes, a, j)
  {
    hide HighBetween;
    assert before[j] == quotes[j];
    forall high ensures HighBetween(before, a, j, high) <==> HighBetween(quotes, a, j, high) {
      PrefixHigh(before, quotes, a, j, high);
    }
  }

  lemma HighUnique(quotes: seq<Quote>, a: nat, j: nat, h1: real, h2: real)
    requires Positive(quotes) && j <= |quotes| && HighBetween(quotes, a, j, h1) && HighBetween(quotes, a, j, h2)
    ensures h1 == h2 && h1 > 0.0
  {
  }

  /** Whether the last quote drops, in terms of the high recorded so far. */
  lemma LastDrop(quotes: seq<Quote>, a: nat, high: real)
    requires Positive(quotes) && a + 1 < |quotes|
    requires a + 2 < |quotes| ==> HighBetween(quotes, a, |quotes| - 1, high)
    ensures var last := quotes[|quotes| - 1];
            DropsAt(quotes, a, |quotes| - 1) <==>
            && a + 2 < |quotes|
            && last.price <= high
            && Percent(last.price - high, high).Magnitude().Above(last.deviation)
  {
    hide Percent;
    var n := |quotes| - 1;
    if a + 2 < |quotes| {
      HighUnique(quotes, a, n, high, high);
      if quotes[n].price <= high { DeviationTest(high, quotes[n].price, quotes[n].deviation); }
      forall other | HighBetween(quotes, a, n, other) ensures other == high {
        HighUnique(quotes, a, n, high, other);
      }
    }
  }

  lemma TracksStep(quotes: seq<Quote>, trailing: TrailingProfit)
    requires Positive(quotes) && quotes != []
    requires var last := quotes[|quotes| - 1];
             trailing.enabled && trailing.percent == last.percent && trailing.deviation == last.deviation
    requires Tracks(quotes[..|quotes| - 1], trailing)
    ensures var last := quotes[|quotes| - 1];
            Tracks(quotes, NextTrailing(trailing, last.profit, last.price))
  {
    hide Percent, DropsAt, HighBetween, NextTrailing;
    var before := quotes[..|quotes| - 1];
    if !trailing.activated {
      TracksActivation(quotes, trailing);
    } else {
      var a: nat :| ActivatesAt(before, a);
      PrefixFacts(before, quotes, a);
      assert forall b: nat | ActivatesAt(quotes, b) :: b == a;
      TracksActivated(quotes, trailing, a);
    }
  }

  lemma TracksActivation(quotes: seq<Quote>, trailing: TrailingProfit)
    requires Positive(quotes) && quotes != []
    requires trailing.enabled && trailing.percent == quotes[|quotes| - 1].percent && !trailing.activated
    requires Tracks(quotes[..|quotes| - 1], trailing)
    ensures var last := quotes[|quotes| - 1];
            Tracks(quotes, NextTrailing(trailing, last.profit, last.price))
  {
    hide Percent, HighBetween;
    var n := |quotes| - 1;
    forall b: nat | ActivatesAt(quotes, b) ensures b == n {
      if b < n {
        PrefixFacts(quotes[..n], quotes, b);
      }
    }
    if quotes[n].Gains() {
      forall i | 0 <= i < n ensures !quotes[i].Gains() {
        NoActivation(quotes[..n], i);
        assert quotes[..n][i] == quotes[i];
      }
      assert ActivatesAt(quotes, n);
    }
  }

  lemma {:induction false} NoActivation(quotes: seq<Quote>, i: nat)
    requires i < |quotes| && !exists a: nat :: ActivatesAt(quotes, a)
    ensures !quotes[i].Gains()
  {
    forall k | 0 <= k < i ensures !quotes[k].Gains() { NoActivation(quotes, k); }
    assert ActivatesAt(quotes, i) <==> quotes[i].Gains();
  }

  lemma TracksActivated(quotes: seq<Quote>, trailing: TrailingProfit, a: nat)
    requires Positive(quotes) && quotes != []
    requires trailing.enabled && trailing.deviation == quotes[|quotes| - 1].deviation && trailing.activated
    requires Tracks(quotes[..|quotes| - 1], trailing)
    requires a < |quotes| - 1 && ActivatesAt(quotes[..|quotes| - 1], a) && ActivatesAt(quotes, a)
    requires forall b: nat | ActivatesAt(quotes, b) :: b == a
    ensures var last := quotes[|quotes| - 1];
            Tracks(quotes, NextTrailing(trailing, last.profit, last.price))
  {
    hide Percent, DropsAt, ActivatesAt, HighBetween;
    var n := |quotes| - 1;
    var before := quotes[..n];
    PrefixFacts(before, quotes, a);
    if !trailing.triggered {
      assert forall j: nat | j < n :: !DropsAt(quotes, a, j);
      LastDrop(quotes, a, trailing.price);
      DropBounds(quotes, a);
      HighAfter(quotes, a, trailing.price);
    } else {
      var j: nat :| DropsAt(before, a, j);
      DropBounds(before, a);
      DropBounds(quotes, a);
      assert DropsAt(quotes, a, j);
    }
  }

  lemma DropBounds(quotes: seq<Quote>, a: nat)
    ensures forall j: nat | DropsAt(quotes, a, j) :: a < j < |quotes|
  {
  }

  /** The high after one more quote. */
  lemma HighAfter(quotes: seq<Quote>, a: nat, high: real)
    requires Positive(quotes) && a + 1 < |quotes|
    requires a + 2 < |quotes| ==> HighBetween(quotes, a, |quotes| - 1, high)
    requires a + 2 == |quotes| ==> high == 0.0
    ensures var price := quotes[|quotes| - 1].price;
            HighBetween(quotes, a, |quotes|, if price > high then price else high)
  {
    var n := |quotes| - 1;
    if quotes[n].price <= high {
      var i :| a < i < n && quotes[i].price == high;
      assert a < i < |quotes|;
    }
  }

  // ---------- trailing profit: every run ----------

  predicate Hears(s: TradeState, op: Op) {
    Eligible(s, op) && s.trailing.enabled
  }

  function QuoteOf(s: TradeState, op: Op): Quote
    requires op.TickOp?
  {
    Quote(CalculateProfit(s, op.price), op.price, s.trailing.percent, s.trailing.deviation)
  }

  /** The quotes a trade's trailing profit hears in the course of a run: the ticks of its symbol that find it for sale
      with the trailing profit on, as they look by its cost, its quantity and its settings of then. */
  function Heard(info: ExchangeInfo, t: Tracked, ops: seq<Op>): seq<Quote> {
    if ops == [] then []
    else
      var n := |ops| - 1;
      var s := RunOps(info, t, ops[..n]).state;
      Heard(info, t, ops[..n]) + if Hears(s, ops[n]) then [QuoteOf(s, ops[n])] else []
  }

  predicate SameTrack(a: TrailingProfit, b: TrailingProfit) {
    a.activated == b.activated && a.price == b.price && a.triggered == b.triggered
  }

  lemma SameTrackTracks(quotes: seq<Quote>, a: TrailingProfit, b: TrailingProfit)
    requires SameTrack(a, b) && Tracks(quotes, a)
    ensures Tracks(quotes, b)
  {
    hide ActivatesAt, DropsAt, HighBetween;
  }

  lemma ApplyTracks(info: ExchangeInfo, t: Tracked, op: Op)
    ensures var s, u := t.state, Apply(info, t, op).state;
            if Hears(s, op) then u.trailing == NextTrailing(s.trailing, CalculateProfit(s, op.price), op.price)
            else SameTrack(s.trailing, u.trailing)
  {
    hide Apply, CalculateProfit, Percent;
    ApplyAutoSells(info, t, op);
  }

  /** The trailing profit refines its specification on quotes, over every run of reports, ticks of any symbol, settings
      and commands: it activates at the first quote it hears whose profit exceeds the percentage, its price is the
      maximum of the prices it hears after that one, and it sells at the first of those that drops from that maximum by
      more than the deviation.  The statement holds for every prefix of a run, whether or not the stop loss fires in
      between. */
  lemma {:induction false} TrailingProfitTracksPrices(info: ExchangeInfo, t: Tracked, ops: seq<Op>)
    requires !t.state.trailing.activated && !t.state.trailing.triggered && t.state.trailing.price == 0.0
    requires Positive(Heard(info, t, ops))
    ensures Tracks(Heard(info, t, ops), RunOps(info, t, ops).state.trailing)
  {
    if ops != [] {
      hide Apply, CalculateProfit, Tracks, NextTrailing, Hears;
      var n := |ops| - 1;
      var before, quotes := RunOps(info, t, ops[..n]), Heard(info, t, ops);
      var earlier := Heard(info, t, ops[..n]);
      assert forall i | 0 <= i < |earlier| :: earlier[i] == quotes[i];
      TrailingProfitTracksPrices(info, t, ops[..n]);
      ApplyTracks(info, before, ops[n]);
      if Hears(before.state, ops[n]) {
        assert quotes[..|quotes| - 1] == earlier;
        HearsEnabled(before.state, ops[n]);
        TracksStep(quotes, before.state.trailing);
      } else {
        assert quotes == earlier;
        SameTrackTracks(quotes, before.state.trailing, RunOps(info, t, ops).state.trailing);
      }
    }
  }

  lemma HearsEnabled(s: TradeState, op: Op)
    requires Hears(s, op)
    ensures op.TickOp? && s.trailing.enabled
  {
  }

  // ---------- uninterrupted ticks ----------

  /** A run of ticks for one symbol, at positive prices. */
  ghost predicate Ticks(ops: seq<Op>, symbol: string) {
    forall i | 0 <= i < |ops| :: ops[i].TickOp? && ops[i].symbol == symbol && ops[i].price > 0.0
  }

  /** Everything the automatic sells depend on is as it was when the ticks began. */
  predicate SameTerms(s: TradeState, u: TradeState) {
    && SamePricing(s, u)
    && u.stopLoss.enabled == s.stopLoss.enabled && u.stopLoss.percent == s.stopLoss.percent
    && u.trailing.enabled == s.trailing.enabled && u.trailing.percent == s.trailing.percent
    && u.trailing.deviation == s.trailing.deviation
  }

  lemma {:induction false} TicksKeepTerms(info: ExchangeInfo, t: Tracked, ops: seq<Op>)
    requires Sellable(t.state) && Ticks(ops, t.state.symbol)
    ensures SameTerms(t.state, RunOps(info, t, ops).state)
  {
    if ops != [] {
      hide CalculateProfit, Percent, OnTick;
      var before, op := ops[..|ops| - 1], ops[|ops| - 1];
      TicksKeepTerms(info, t, before);
      TickStep(RunOps(info, t, before), op.price, op.tickOracle);
    }
  }

  lemma TermsFixProfit(s: TradeState, u: TradeState, price: real)
    requires SameTerms(s, u)
    ensures CalculateProfit(u, price) == CalculateProfit(s, price) && (Loses(u, price) <==> Loses(s, price))
  {
    SalesOfSamePricing(s, u, price, None);
    hide CalculateProfit;
  }

  /** While nothing but ticks happens, the stop loss has fired exactly if one of them lost too much. */
  lemma StopLossOverTicks(info: ExchangeInfo, t: Tracked, ops: seq<Op>)
    requires Sellable(t.state) && Ticks(ops, t.state.symbol)
    requires t.state.stopLoss.enabled && !t.state.stopLoss.triggered
    ensures RunOps(info, t, ops).state.stopLoss.triggered <==> exists i | 0 <= i < |ops| :: Loses(t.state, ops[i].price)
  {
    hide RunOps, Loses, CalculateProfit;
    StopLossFiresAtFirstLoss(info, t, ops);
    forall k: nat | k < |ops| ensures FiresAt(info, t, ops, k) <==> Loses(t.state, ops[k].price) {
      TicksKeepTerms(info, t, ops[..k]);
      TermsFixProfit(t.state, RunOps(info, t, ops[..k]).state, ops[k].price);
    }
    if exists i | 0 <= i < |ops| :: Loses(t.state, ops[i].price) {
      var i :| 0 <= i < |ops| && Loses(t.state, ops[i].price);
      assert FiresAt(info, t, ops, i);
    }
  }

  /** The quotes of these ticks, all by the terms of the state they began in. */
  function QuotesOf(s: TradeState, ops: seq<Op>): seq<Quote>
    requires forall i | 0 <= i < |ops| :: ops[i].TickOp?
  {
    seq(|ops|, i requires 0 <= i < |ops| => QuoteOf(s, ops[i]))
  }

  lemma SameTermsHear(s: TradeState, u: TradeState, op: Op)
    requires SameTerms(s, u) && op.TickOp? && op.symbol == s.symbol && Sellable(s) && s.trailing.enabled
    ensures Hears(u, op) && QuoteOf(u, op) == QuoteOf(s, op)
  {
    TermsFixProfit(s, u, op.price);
    hide CalculateProfit;
  }

  lemma LastHeard(info: ExchangeInfo, t: Tracked, ops: seq<Op>)
    requires ops != [] && Hears(RunOps(info, t, ops[..|ops| - 1]).state, ops[|ops| - 1])
    ensures Heard(info, t, ops) ==
            Heard(info, t, ops[..|ops| - 1]) + [QuoteOf(RunOps(info, t, ops[..|ops| - 1]).state, ops[|ops| - 1])]
  {
    hide RunOps, QuoteOf;
  }

  lemma LastQuote(s: TradeState, ops: seq<Op>)
    requires ops != [] && forall i | 0 <= i < |ops| :: ops[i].TickOp?
    ensures QuotesOf(s, ops) == QuotesOf(s, ops[..|ops| - 1]) + [QuoteOf(s, ops[|ops| - 1])]
  {
    hide QuoteOf;
  }

  lemma {:induction false} TicksAreHeard(info: ExchangeInfo, t: Tracked, ops: seq<Op>)
    requires Sellable(t.state) && Ticks(ops, t.state.symbol) && t.state.trailing.enabled
    ensures Heard(info, t, ops) == QuotesOf(t.state, ops)
  {
    if ops != [] {
      hide RunOps, Heard, QuotesOf, QuoteOf, SameTerms, Hears;
      var before := ops[..|ops| - 1];
      TicksAreHeard(info, t, before);
      TicksKeepTerms(info, t, before);
      SameTermsHear(t.state, RunOps(info, t, before).state, ops[|ops| - 1]);
      LastHeard(info, t, ops);
      LastQuote(t.state, ops);
    }
  }

  /** And the trailing profit is read off the prices of the ticks. */
  lemma TrailingProfitOverTicks(info: ExchangeInfo, t: Tracked, ops: seq<Op>)
    requires Sellable(t.state) && Ticks(ops, t.state.symbol) && t.state.trailing.enabled
    requires !t.state.trailing.activated && !t.state.trailing.triggered && t.state.trailing.price == 0.0
    ensures Tracks(QuotesOf(t.state, ops), RunOps(info, t, ops).state.trailing)
  {
    hide RunOps, CalculateProfit, Tracks;
    TicksAreHeard(info, t, ops);
    TrailingProfitTracksPrices(info, t, ops);
  }
}
