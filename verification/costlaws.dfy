/** Why `calculateProfit` never divides by zero: a trade that is for sale has bought something that cost something. */
module CostLaws {
  import opened Numbers
  import opened Fills
  import opened TradeModel
  import opened Pricing
  import opened TradeOps
  import opened TradeLaws

  /** A buy fill that delivers something, for a price that does not round to nothing. */
  predicate Paid(f: OrderFill) {
    Received(f) > 0.0 && BuyCharge(f) >= HALF_UNIT
  }

  ghost predicate AllPaid(fills: seq<OrderFill>) {
    forall i | 0 <= i < |fills| :: Paid(fills[i])
  }

  /** Whoever can sell, or has received anything, has fills to show for it. */
  ghost predicate CostCovered(s: TradeState) {
    Settled(s) && AllPaid(s.buyFills) && (Sellable(s) || s.buyFillQuantity != 0.0 ==> s.buyFills != [])
  }

  lemma {:induction false} PaidSums(fills: seq<OrderFill>)
    requires AllPaid(fills)
    ensures fills != [] ==> Sum(fills, Received) > 0.0
    ensures Sum(fills, Received) >= 0.0
    ensures Sum(fills, BuyCharge) >= if fills == [] then 0.0 else HALF_UNIT
  {
    if fills != [] { PaidSums(fills[..|fills| - 1]); }
  }

  lemma FillsHaveCost(s: TradeState)
    requires CostCovered(s) && s.buyFills != []
    ensures s.buyCost > 0.0
  {
    PaidSums(s.buyFills);
    Round8Monotone(HALF_UNIT, Sum(s.buyFills, BuyCharge));
    hide Sum, BuyCharge, Received, UpdateSell;
    assert Round8(HALF_UNIT) > 0.0;
  }

  /** What may arrive: buy fills that were paid for, sell reports after a buy fill, and, in a recovery of an order the
      exchange calls filled, at least one of its fills. */
  ghost predicate Sane(s: TradeState, op: Op) {
    && AllPaid(BuyFillsFrom(s, op))
    && match op
       case ReportOp(r, _, _) => r.side == Sell ==> s.buyFills != []
       case CommandOp(Recover(Some(order), history)) =>
         s.status == New && order.status == OrderFilled ==> HistoryFills(history, order.orderId) != []
       case _ => true
  }

  /** Before the first buy fill no operation puts a trade up for sale. */
  lemma NotForSaleYet(info: ExchangeInfo, t: Tracked, op: Op)
    requires Sane(t.state, op) && !Sellable(t.state) && t.state.buyFillQuantity == 0.0
    requires t.state.buyFills == [] && BuyFillsFrom(t.state, op) == []
    ensures !Sellable(Apply(info, t, op).state)
  {
    hide OnReport, OnTick, DoRecover, DoMarketSell, DoLimitSellByPercent, DoLimitSellByPrice, HistoryFills;
    match op
    case ReportOp(r, time, oracle) => ReportStatus(info, t, r, time, oracle);
    case TickOp(symbol, price, o) => TickOnlyOrders(t, symbol, price, o);
    case CommandOp(c) =>
      if c.Recover? {
        RecoveredNotForSale(info, t.state, c.lookup, c.history);
      } else if !c.Fail? && !c.Abandon? {
        CommandOnlyOrders(info, t, c);
      }
  }

  lemma RecoveredNotForSale(info: ExchangeInfo, s: TradeState, lookup: Option<ExchangeOrder>, history: seq<MyTrade>)
    requires Sane(s, CommandOp(Recover(lookup, history))) && !Sellable(s)
    requires BuyFillsFrom(s, CommandOp(Recover(lookup, history))) == []
    ensures !Sellable(DoRecover(info, s, lookup, history))
  {
    hide AddBuyFills, RecoverSell, HistoryFills, UpdateSellable;
    SellableFrame(info, s);
    if lookup.Some? {
      var order := lookup.value;
      AddBuyFillsAppends(s.(status := PendingBuy), HistoryFills(history, order.orderId));
      SellableFrame(info, RecoverBuy(s, order, history));
    }
  }

  lemma ApplyKeepsCover(info: ExchangeInfo, t: Tracked, op: Op)
    requires CostCovered(t.state) && Sane(t.state, op)
    ensures CostCovered(Apply(info, t, op).state)
  {
    hide Apply, BuySettled, SellSettled, BuyFillsFrom, Sellable;
    var s, u := t.state, Apply(info, t, op).state;
    ApplyAppends(info, t, op);
    if u.buyFills == [] {
      assert s.buyFills == [] && BuyFillsFrom(s, op) == [];
      ApplySides(info, t, op);
      NotForSaleYet(info, t, op);
    }
  }

  ghost predicate SaneRun(info: ExchangeInfo, t: Tracked, ops: seq<Op>) {
    forall k | 0 <= k < |ops| :: Sane(RunOps(info, t, ops[..k]).state, ops[k])
  }

  lemma {:induction false} RunKeepsCover(info: ExchangeInfo, t: Tracked, ops: seq<Op>)
    requires CostCovered(t.state) && SaneRun(info, t, ops)
    ensures CostCovered(RunOps(info, t, ops).state)
  {
    hide Apply, Sane, CostCovered;
    if ops != [] {
      var n := |ops| - 1;
      assert forall k | 0 <= k < n :: ops[..n][..k] == ops[..k];
      RunKeepsCover(info, t, ops[..n]);
      ApplyKeepsCover(info, RunOps(info, t, ops[..n]), ops[n]);
    }
  }

  /** Over the life of a trade to which only such things arrive: when it is for sale it has buy fills and a positive
      cost, so the profit estimate of every price tick is a number. */
  lemma ProfitIsANumber(info: ExchangeInfo, t: Tracked, now: int, ops: seq<Op>, price: real)
    requires Unfilled(t.state, now) && !Sellable(t.state) && SaneRun(info, t, ops)
    ensures var s := RunOps(info, t, ops).state;
            Sellable(s) ==> s.buyFills != [] && s.buyCost > 0.0 && CalculateProfit(s, price).Finite?
  {
    hide RunOps, BuySettled, SellSettled;
    UnfilledIsSettled(t.state, now);
    RunKeepsCover(info, t, ops);
    var s := RunOps(info, t, ops).state;
    if Sellable(s) { FillsHaveCost(s); }
  }
}
