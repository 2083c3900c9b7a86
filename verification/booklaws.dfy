/** The books of a trade in the terms of the exchange: what its reports and trade histories say was bought and sold, at
    which price and for which commission. */
module BookLaws {
  import opened Numbers
  import opened Fills
  import opened TradeModel
  import opened Pricing
  import opened TradeOps
  import opened TradeLaws

  /** A figure of one fill: of its price, its quantity, and the asset and the amount of its commission. */
  type Figure = (real, real, string, real) -> real

  function Executed(price: real, quantity: real, asset: string, amount: real): real { quantity }

  function Charged(price: real, quantity: real, asset: string, amount: real): real { amount }

  function Worth(price: real, quantity: real, asset: string, amount: real): real { price * quantity }

  /** What a buyer gets: a commission in any asset but BNB comes out of it. */
  function Gets(price: real, quantity: real, asset: string, amount: real): real {
    if asset == "BNB" then quantity else quantity - amount
  }

  /** What a buyer pays: a commission in BNB comes on top. */
  function Pays(price: real, quantity: real, asset: string, amount: real): real {
    if asset == "BNB" then price * quantity + 0.00075 * (price * quantity) else price * quantity
  }

  /** What a seller keeps. */
  function Keeps(price: real, quantity: real, asset: string, amount: real): real {
    if asset == "BNB" then price * quantity - 0.00075 * (price * quantity) else price * quantity - amount
  }

  // ---------- totals over a run ----------

  predicate IsFillReport(op: Op, side: OrderSide) {
    op.ReportOp? && op.report.side == side && (op.report.status == OrderPartiallyFilled || op.report.status == OrderFilled)
  }

  /** The order whose history a recovery reads on one side, if it reads any. */
  function ReadsHistory(s: TradeState, op: Op, side: OrderSide): Option<int> {
    match op
    case CommandOp(Recover(Some(order), _)) =>
      if side == Buy && s.status == New && (order.status == OrderPartiallyFilled || order.status == OrderFilled)
      then Some(order.orderId)
      else if side == Sell && s.status == PendingSell && order.status == OrderFilled then Some(s.sellOrderId)
      else None
    case _ => None
  }

  function OfHistory(history: seq<MyTrade>, orderId: int, f: Figure): real {
    if history == [] then 0.0
    else
      var last := history[|history| - 1];
      OfHistory(history[..|history| - 1], orderId, f)
      + if last.orderId != orderId then 0.0
        else f(last.fill.price, last.fill.quantity, last.fill.commissionAsset, last.fill.commissionAmount)
  }

  /** What one operation adds to a figure: that of the report, or those of the history entries of the order. */
  function Adds(s: TradeState, op: Op, side: OrderSide, f: Figure): real {
    if IsFillReport(op, side) then
      f(op.report.lastPrice, op.report.lastQuantity, op.report.commissionAsset, op.report.commissionAmount)
    else if ReadsHistory(s, op, side).Some? then
      OfHistory(op.command.history, ReadsHistory(s, op, side).value, f)
    else
      0.0
  }

  function Total(info: ExchangeInfo, t: Tracked, ops: seq<Op>, side: OrderSide, f: Figure): real {
    if ops == [] then 0.0
    else
      var before := ops[..|ops| - 1];
      Total(info, t, before, side, f) + Adds(RunOps(info, t, before).state, ops[|ops| - 1], side, f)
  }

  /** The figure `f` of the exchange is what `g` makes of a recorded fill. */
  ghost predicate Figures(f: Figure, g: OrderFill -> real) {
    forall p, q, a, c :: g(OrderFill(p, q, a, c)) == f(p, q, a, c)
  }

  lemma {:induction false} HistoryAdds(history: seq<MyTrade>, orderId: int, f: Figure, g: OrderFill -> real)
    requires Figures(f, g)
    ensures Sum(HistoryFills(history, orderId), g) == OfHistory(history, orderId, f)
  {
    if history != [] {
      var n := |history| - 1;
      HistoryAdds(history[..n], orderId, f, g);
      var fill := history[n].fill;
      assert fill == OrderFill(fill.price, fill.quantity, fill.commissionAsset, fill.commissionAmount);
      SumAppend(HistoryFills(history[..n], orderId), fill, g);
      assert HistoryFills(history[..n], orderId) + [] == HistoryFills(history[..n], orderId);
    }
  }

  lemma OperationAdds(s: TradeState, op: Op, f: Figure, g: OrderFill -> real)
    requires Figures(f, g)
    ensures Sum(BuyFillsFrom(s, op), g) == Adds(s, op, Buy, f)
    ensures Sum(SellFillsFrom(s, op), g) == Adds(s, op, Sell, f)
  {
    hide HistoryFills;
    match op
    case ReportOp(r, _, _) =>
      SumAppend([], ReportFill(r), g);
      assert [] + [ReportFill(r)] == [ReportFill(r)];
    case CommandOp(Recover(Some(order), history)) =>
      HistoryAdds(history, order.orderId, f, g);
      HistoryAdds(history, s.sellOrderId, f, g);
    case _ =>
  }

  lemma {:induction false} RunAdds(info: ExchangeInfo, t: Tracked, ops: seq<Op>, f: Figure, g: OrderFill -> real)
    requires Figures(f, g)
    ensures Sum(BuyFillsOver(info, t, ops), g) == Total(info, t, ops, Buy, f)
    ensures Sum(SellFillsOver(info, t, ops), g) == Total(info, t, ops, Sell, f)
  {
    hide BuyFillsFrom, SellFillsFrom, Apply, Adds, Figures;
    if ops != [] {
      var before, op := ops[..|ops| - 1], ops[|ops| - 1];
      var s := RunOps(info, t, before).state;
      RunAdds(info, t, before, f, g);
      OperationAdds(s, op, f, g);
      SumConcat(BuyFillsOver(info, t, before), BuyFillsFrom(s, op), g);
      SumConcat(SellFillsOver(info, t, before), SellFillsFrom(s, op), g);
    }
  }

  lemma AllFigures()
    ensures Figures(Executed, Quantity) && Figures(Worth, Notional) && Figures(Gets, Received)
    ensures Figures(Pays, BuyCharge) && Figures(Keeps, Proceeds)
  {
  }

  // ---------- the books are the totals ----------

  /** From a trade that has not bought or sold anything, over every run: the buy books are the rounded totals of what the
      exchange reported as bought, the sell books those of what it reported as sold. */
  lemma BooksAreTotals(info: ExchangeInfo, t: Tracked, now: int, ops: seq<Op>)
    requires Unfilled(t.state, now)
    ensures var u, bought := RunOps(info, t, ops).state, Total(info, t, ops, Buy, Gets);
            bought > 0.0 ==>
              && u.buyFillQuantity == Round8(bought)
              && u.averageBuyPrice == Round8(Total(info, t, ops, Buy, Worth) / bought)
              && u.buyCost == Round8(Total(info, t, ops, Buy, Pays))
              && u.effectiveBuyPrice == Round8(Total(info, t, ops, Buy, Pays) / bought)
    ensures var u, sold := RunOps(info, t, ops).state, Total(info, t, ops, Sell, Executed);
            sold > 0.0 ==>
              && u.sellFillQuantity == Round8(sold)
              && u.averageSellPrice == Round8(Total(info, t, ops, Sell, Worth) / sold)
              && u.sellCost == Round8(Total(info, t, ops, Sell, Keeps))
  {
    hide RunOps, Reload, Total, Figures, Round8, Round8Number, Percent, Sum, Unfilled;
    LifeOfATrade(info, t, now, ops);
    AllFigures();
    RunAdds(info, t, ops, Executed, Quantity);
    RunAdds(info, t, ops, Worth, Notional);
    RunAdds(info, t, ops, Gets, Received);
    RunAdds(info, t, ops, Pays, BuyCharge);
    RunAdds(info, t, ops, Keeps, Proceeds);
  }

  // ---------- fills at one price ----------

  /** Every fill of one side that the run brings satisfies `p`. */
  ghost predicate EveryFill(info: ExchangeInfo, t: Tracked, ops: seq<Op>, side: OrderSide,
                            p: (real, real, string, real) -> bool)
  {
    forall k | 0 <= k < |ops| :: Brings(RunOps(info, t, ops[..k]).state, ops[k], side, p)
  }

  ghost predicate Brings(s: TradeState, op: Op, side: OrderSide, p: (real, real, string, real) -> bool) {
    && (IsFillReport(op, side) ==>
          p(op.report.lastPrice, op.report.lastQuantity, op.report.commissionAsset, op.report.commissionAmount))
    && (ReadsHistory(s, op, side).Some? ==>
          HistoryIs(op.command.history, ReadsHistory(s, op, side).value, p))
  }

  ghost predicate HistoryIs(history: seq<MyTrade>, orderId: int, p: (real, real, string, real) -> bool) {
    forall i | 0 <= i < |history| && history[i].orderId == orderId ::
      p(history[i].fill.price, history[i].fill.quantity, history[i].fill.commissionAsset,
        history[i].fill.commissionAmount)
  }

  /** On such fills, `f` is `k` times `g` plus `m` times `h`. */
  ghost predicate Combines(p: (real, real, string, real) -> bool, f: Figure, k: real, g: Figure, m: real, h: Figure) {
    forall x, q, a, c | p(x, q, a, c) :: f(x, q, a, c) == Scale(k, g(x, q, a, c)) + Scale(m, h(x, q, a, c))
  }

  lemma ScaleSum(k: real, a: real, b: real)
    ensures Scale(k, a + b) == Scale(k, a) + Scale(k, b)
  {
  }

  lemma {:induction false} HistoryCombines(history: seq<MyTrade>, orderId: int, p: (real, real, string, real) -> bool,
                                           f: Figure, k: real, g: Figure, m: real, h: Figure)
    requires HistoryIs(history, orderId, p) && Combines(p, f, k, g, m, h)
    ensures OfHistory(history, orderId, f)
         == Scale(k, OfHistory(history, orderId, g)) + Scale(m, OfHistory(history, orderId, h))
  {
    if history != [] {
      var n := |history| - 1;
      HistoryCombines(history[..n], orderId, p, f, k, g, m, h);
      var fill := history[n].fill;
      hide Scale;
      var x, y := OfHistory(history[..n], orderId, g), OfHistory(history[..n], orderId, h);
      ScaleSum(k, x, g(fill.price, fill.quantity, fill.commissionAsset, fill.commissionAmount));
      ScaleSum(m, y, h(fill.price, fill.quantity, fill.commissionAsset, fill.commissionAmount));
    }
  }

  lemma {:induction false} TotalCombines(info: ExchangeInfo, t: Tracked, ops: seq<Op>, side: OrderSide,
                                         p: (real, real, string, real) -> bool,
                                         f: Figure, k: real, g: Figure, m: real, h: Figure)
    requires EveryFill(info, t, ops, side, p) && Combines(p, f, k, g, m, h)
    ensures Total(info, t, ops, side, f) == Scale(k, Total(info, t, ops, side, g)) + Scale(m, Total(info, t, ops, side, h))
  {
    hide Apply, Scale, Adds, Brings, Combines, EveryFill, RunOps;
    ScaleSum(k, 0.0, 0.0);
    ScaleSum(m, 0.0, 0.0);
    if ops != [] {
      var n := |ops| - 1;
      var before, op := ops[..n], ops[n];
      var s := RunOps(info, t, before).state;
      EveryFillSplit(info, t, ops, side, p);
      TotalCombines(info, t, before, side, p, f, k, g, m, h);
      AddsCombine(s, op, side, p, f, k, g, m, h);
      ScaleSum(k, Total(info, t, before, side, g), Adds(s, op, side, g));
      ScaleSum(m, Total(info, t, before, side, h), Adds(s, op, side, h));
    }
  }

  lemma EveryFillSplit(info: ExchangeInfo, t: Tracked, ops: seq<Op>, side: OrderSide,
                       p: (real, real, string, real) -> bool)
    requires EveryFill(info, t, ops, side, p) && ops != []
    ensures var n := |ops| - 1;
            EveryFill(info, t, ops[..n], side, p) && Brings(RunOps(info, t, ops[..n]).state, ops[n], side, p)
  {
    hide RunOps, Brings;
    assert forall i | 0 <= i < |ops| - 1 :: ops[..|ops| - 1][..i] == ops[..i];
  }

  lemma AddsCombine(s: TradeState, op: Op, side: OrderSide, p: (real, real, string, real) -> bool,
                    f: Figure, k: real, g: Figure, m: real, h: Figure)
    requires Brings(s, op, side, p) && Combines(p, f, k, g, m, h)
    ensures Adds(s, op, side, f) == Scale(k, Adds(s, op, side, g)) + Scale(m, Adds(s, op, side, h))
  {
    ScaleSum(k, 0.0, 0.0);
    ScaleSum(m, 0.0, 0.0);
    hide Scale, OfHistory, HistoryIs;
    if IsFillReport(op, side) {
      var r := op.report;
      assert p(r.lastPrice, r.lastQuantity, r.commissionAsset, r.commissionAmount);
    } else if ReadsHistory(s, op, side).Some? {
      HistoryCombines(op.command.history, ReadsHistory(s, op, side).value, p, f, k, g, m, h);
    }
  }

  function AtPrice(price: real, inBnb: bool): (real, real, string, real) -> bool {
    (p, q, a, c) => p == price && (a == "BNB") == inBnb
  }

  lemma FiguresAtPrice(price: real, inBnb: bool)
    ensures Combines(AtPrice(price, inBnb), Worth, price, Executed, 0.0, Executed)
    ensures inBnb ==>
              && Combines(AtPrice(price, inBnb), Gets, 1.0, Executed, 0.0, Executed)
              && Combines(AtPrice(price, inBnb), Pays, 1.00075 * price, Executed, 0.0, Executed)
              && Combines(AtPrice(price, inBnb), Keeps, 0.99925 * price, Executed, 0.0, Executed)
    ensures !inBnb ==>
              && Combines(AtPrice(price, inBnb), Gets, 1.0, Executed, -1.0, Charged)
              && Combines(AtPrice(price, inBnb), Pays, price, Executed, 0.0, Executed)
              && Combines(AtPrice(price, inBnb), Keeps, price, Executed, -1.0, Charged)
  {
  }

  /** Fills at one price with the commission paid in BNB: the whole quantity is bought, and what it cost is the price and
      the commission on it.  With the commission in another asset: the quantity less the commissions is bought, at the
      price alone. */
  lemma CostAtOnePrice(info: ExchangeInfo, t: Tracked, now: int, ops: seq<Op>, price: real, inBnb: bool)
    requires Unfilled(t.state, now) && EveryFill(info, t, ops, Buy, AtPrice(price, inBnb))
    ensures var u, q := RunOps(info, t, ops).state, Total(info, t, ops, Buy, Executed);
            inBnb && q > 0.0 ==>
              && u.buyFillQuantity == Round8(q) && u.averageBuyPrice == Round8(price)
              && u.buyCost == Round8(Scale(1.00075 * price, q)) && u.effectiveBuyPrice == Round8(1.00075 * price)
    ensures var u, q := RunOps(info, t, ops).state, Total(info, t, ops, Buy, Executed);
            var net := q - Total(info, t, ops, Buy, Charged);
            !inBnb && net > 0.0 ==>
              && u.buyFillQuantity == Round8(net) && u.averageBuyPrice == u.effectiveBuyPrice == Round8(Scale(price, q) / net)
              && u.buyCost == Round8(Scale(price, q))
  {
    hide RunOps, Total, Unfilled, Round8, EveryFill, Combines, AtPrice, Worth, Gets, Pays, Scale;
    BooksAreTotals(info, t, now, ops);
    FiguresAtPrice(price, inBnb);
    var p, q, paid := AtPrice(price, inBnb), Total(info, t, ops, Buy, Executed), Total(info, t, ops, Buy, Charged);
    TotalCombines(info, t, ops, Buy, p, Worth, price, Executed, 0.0, Executed);
    if inBnb {
      TotalCombines(info, t, ops, Buy, p, Gets, 1.0, Executed, 0.0, Executed);
      TotalCombines(info, t, ops, Buy, p, Pays, 1.00075 * price, Executed, 0.0, Executed);
      OneFigure(1.0, q);
      OneFigure(price, q);
      OneFigure(1.00075 * price, q);
    } else {
      TotalCombines(info, t, ops, Buy, p, Gets, 1.0, Executed, -1.0, Charged);
      TotalCombines(info, t, ops, Buy, p, Pays, price, Executed, 0.0, Executed);
      OneFigure(price, q);
      TwoFigures(q, paid);
    }
  }

  lemma OneFigure(k: real, q: real)
    ensures Scale(1.0, q) == q
    ensures Scale(k, q) + Scale(0.0, q) == Scale(k, q)
    ensures q != 0.0 ==> Scale(k, q) / q == k
  {
  }

  lemma TwoFigures(a: real, b: real)
    ensures Scale(1.0, a) + Scale(-1.0, b) == a - b
  {
  }

  /** The profit of a trade that bought at one price, sold the same quantity at another, and paid every commission in BNB:
      both commissions come off the difference of the prices, up to two roundings.  In particular, selling at the price
      of buying loses them both. */
  lemma ProfitBetweenPrices(info: ExchangeInfo, t: Tracked, now: int, ops: seq<Op>, bought: real, sold: real)
    requires Unfilled(t.state, now) && ops != [] && IsFillReport(ops[|ops| - 1], Sell)
    requires EveryFill(info, t, ops, Buy, AtPrice(bought, true)) && EveryFill(info, t, ops, Sell, AtPrice(sold, true))
    requires Total(info, t, ops, Buy, Executed) == Total(info, t, ops, Sell, Executed) > 0.0
    ensures var u, q := RunOps(info, t, ops).state, Total(info, t, ops, Sell, Executed);
            && Abs(u.profit - (Scale(0.99925 * sold, q) - Scale(1.00075 * bought, q))) <= 2.0 * HALF_UNIT
            && (sold == bought ==> Abs(u.profit + Scale(0.0015 * sold, q)) <= 2.0 * HALF_UNIT)
  {
    hide RunOps, Total, Unfilled, EveryFill, Combines, AtPrice, Keeps, Round8, Scale, Decimal8;
    var q := Total(info, t, ops, Sell, Executed);
    LastSaleSettlesProfit(info, t, now, ops);
    CostAtOnePrice(info, t, now, ops, bought, true);
    BooksAreTotals(info, t, now, ops);
    FiguresAtPrice(sold, true);
    TotalCombines(info, t, ops, Sell, AtPrice(sold, true), Keeps, 0.99925 * sold, Executed, 0.0, Executed);
    OneFigure(0.99925 * sold, q);
    Round8Within(Scale(1.00075 * bought, q));
    Round8Within(Scale(0.99925 * sold, q));
    if sold == bought { BothFees(sold, q); }
  }

  lemma BothFees(price: real, q: real)
    ensures Scale(0.99925 * price, q) - Scale(1.00075 * price, q) == -Scale(0.0015 * price, q)
  {
    ScaleMinus(0.99925 * price, 1.00075 * price, q);
    ScaleMinus(0.0, 0.0015 * price, q);
    assert 0.99925 * price - 1.00075 * price == 0.0 - 0.0015 * price;
  }

  lemma ScaleMinus(a: real, b: real, q: real)
    ensures Scale(a, q) - Scale(b, q) == Scale(a - b, q)
  {
  }

  lemma LastSaleSettlesProfit(info: ExchangeInfo, t: Tracked, now: int, ops: seq<Op>)
    requires Unfilled(t.state, now) && ops != [] && IsFillReport(ops[|ops| - 1], Sell)
    requires Total(info, t, ops, Sell, Executed) > 0.0
    ensures var u := RunOps(info, t, ops).state;
            u.profit == u.sellCost - u.buyCost
  {
    hide Apply, Reload, BuySettled, SellSettled, Unfilled, Total, Round8Number, Percent;
    var before := ops[..|ops| - 1];
    LifeOfATrade(info, t, now, before);
    LifeOfATrade(info, t, now, ops);
    AllFigures();
    RunAdds(info, t, ops, Executed, Quantity);
    SellFillMakesProfitCurrent(info, RunOps(info, t, before), ops[|ops| - 1]);
  }
}
