/** Small inputs: two trades in figures, and inputs on which properties fail outside their exact conditions. */
module Instances {
  import opened Numbers
  import opened Fills
  import opened TradeModel
  import opened Pricing
  import opened TradeOps
  import opened Confluence
  import opened RecoveryLaws
  import opened TradeLaws
  import opened BookLaws

  /** One unit at price one. */
  function Unit(asset: string): OrderFill {
    OrderFill(1.0, 1.0, asset, 0.0)
  }

  function UnitReport(side: OrderSide, status: OrderStatus, asset: string): Op {
    ReportOp(Report(side, "b1", "", 1, status, "LIMIT", 2.0, 1.0, 1.0, 1.0, asset, 0.0), 0,
             SellOracle(false, Some("s1"), true))
  }

  lemma UnitFill(side: OrderSide, status: OrderStatus, asset: string)
    requires status == OrderPartiallyFilled || status == OrderFilled
    ensures ReportFills([UnitReport(side, status, asset)]) == [Unit(asset)]
  {
    assert [UnitReport(side, status, asset)][..0] == [];
  }

  lemma TwoUnits(side: OrderSide, first: OrderStatus, a: string, second: OrderStatus, b: string)
    requires first == OrderPartiallyFilled || first == OrderFilled
    requires second == OrderPartiallyFilled || second == OrderFilled
    ensures ReportFills([UnitReport(side, first, a), UnitReport(side, second, b)]) == [Unit(a), Unit(b)]
  {
    UnitFill(side, first, a);
    UnitFill(side, second, b);
    ReportFillsConcat([UnitReport(side, first, a)], [UnitReport(side, second, b)]);
    assert [UnitReport(side, first, a), UnitReport(side, second, b)]
        == [UnitReport(side, first, a)] + [UnitReport(side, second, b)];
  }

  lemma {:induction false} UnitSums(fills: seq<OrderFill>)
    requires forall i | 0 <= i < |fills| :: fills[i] == Unit(fills[i].commissionAsset)
    ensures Sum(fills, Received) == Sum(fills, Quantity) == |fills| as real
  {
    if fills != [] { UnitSums(fills[..|fills| - 1]); }
  }

  lemma UnitsOnGrid(n: nat)
    ensures Round8(n as real) == n as real && Decimal8(n as real)
  {
    OnGrid(n as real, n * 100000000);
    Round8FixesGrid(n as real);
  }

  /** One BNB fill and one other: the fee is that of whichever arrives last. */
  lemma MixedCommissions(info: ExchangeInfo)
    ensures var t := Tracked(NewTradeState(0), []);
            var a, b := UnitReport(Buy, OrderPartiallyFilled, BNB), UnitReport(Buy, OrderFilled, "ETH");
            && RunOps(info, t, [a, b]).state.fee == DEFAULT_FEE
            && RunOps(info, t, [b, a]).state.fee == BNB_FEE
  {
    hide RunOps, ReportFills, Sum, Round8;
    var t := Tracked(NewTradeState(0), []);
    var a, b := UnitReport(Buy, OrderPartiallyFilled, BNB), UnitReport(Buy, OrderFilled, "ETH");
    TwoUnits(Buy, OrderPartiallyFilled, BNB, OrderFilled, "ETH");
    TwoUnits(Buy, OrderFilled, "ETH", OrderPartiallyFilled, BNB);
    UnitSums([Unit(BNB), Unit("ETH")]);
    assert [] + [Unit(BNB), Unit("ETH")] == [Unit(BNB), Unit("ETH")];
    assert multiset([a, b]) == multiset([b, a]);
    FeeOfRun(info, t, [a, b], [a, b]);
    FeeOfRun(info, t, [a, b], [b, a]);
  }

  /** A trade that is to be sold at two as soon as its buy order is filled. */
  function Eager(): TradeState {
    NewTradeState(0).(limitSell := LimitSell(true, ByPrice, 0.0, Finite(2.0)))
  }

  /** FILLED arrives before another fill: two units are bought, one is put up for sale. */
  lemma LateFillUnsold(info: ExchangeInfo)
    ensures var ops := [UnitReport(Buy, OrderFilled, BNB), UnitReport(Buy, OrderPartiallyFilled, BNB)];
            var u := RunOps(info, Tracked(Eager(), []), ops);
            && u.sent == [Register("s1"), Post(Order("", Sell, Limit, 1.0, Finite(2.0), "s1"))]
            && u.state.sellableQuantity == 2.0
  {
    hide RunOps, ReportFills, LimitSellPrice, UpdateBuy;
    var t := Tracked(Eager(), []);
    var ops := [UnitReport(Buy, OrderFilled, BNB), UnitReport(Buy, OrderPartiallyFilled, BNB)];
    assert ops[..0 + 1] == [UnitReport(Buy, OrderFilled, BNB)];
    UnitFill(Buy, OrderFilled, BNB);
    TwoUnits(Buy, OrderFilled, BNB, OrderPartiallyFilled, BNB);
    UnitSums([Unit(BNB)]);
    UnitSums([Unit(BNB), Unit(BNB)]);
    UnitsOnGrid(1);
    UnitsOnGrid(2);
    assert [] + [Unit(BNB)] == [Unit(BNB)] && [] + [Unit(BNB), Unit(BNB)] == [Unit(BNB), Unit(BNB)];
    LimitSellMissesLateFills(info, t, ops, 0, BNB);
    SellableAfterBuys(info, t, ops, BNB);
    DeliveredIsBought(RunOps(info, Quiet(t), ops[..0 + 1]).state);
    BuyRun(info, Quiet(t), ops);
    SaleRun(info, t, ops);
    BuyRunSettled(info, Quiet(t), ops);
    DeliveredIsBought(RunOps(info, Quiet(t), ops).state);
  }

  /** A trade saved in NEW that recorded one unit before NEW arrived. */
  function EarlyPartial(): TradeState {
    AddBuyFill(NewTradeState(0), Unit(BNB)).(sellableQuantity := 1.0)
  }

  /** One more unit fills the order while the service is down: live reports count two, recovery counts three. */
  lemma RecordedBuyCountsTwice(info: ExchangeInfo)
    ensures var order, history := ExchangeOrder(OrderFilled, 1, 0), [MyTrade(1, Unit(BNB)), MyTrade(1, Unit(BNB))];
            var s := EarlyPartial();
            && RunOps(info, Tracked(s, []), [UnitReport(Buy, OrderFilled, BNB)]).state.buyFillQuantity == 2.0
            && DoRecover(info, UpdateSellable(info, Reload(s)), Some(order), history).buyFillQuantity == 3.0
  {
    hide RunOps, ReportFills, HistoryFills, DoRecover, Reload, Sum, Round8;
    var s, ops := EarlyPartial(), [UnitReport(Buy, OrderFilled, BNB)];
    var order, history := ExchangeOrder(OrderFilled, 1, 0), [MyTrade(1, Unit(BNB)), MyTrade(1, Unit(BNB))];
    assert s.buyFills == [] + [Unit(BNB)] == [Unit(BNB)];
    UnitSums([Unit(BNB)]);
    UnitsOnGrid(1);
    UnitsOnGrid(2);
    UnitsOnGrid(3);
    UnitFill(Buy, OrderFilled, BNB);
    TwoInHistory(Unit(BNB));
    assert ops[0] in ops;
    assert s.buyFillQuantity == 1.0;
    RecoveredBuyMatchesReports(info, s, ops, order, history, BNB);
  }

  lemma TwoInHistory(f: OrderFill)
    ensures HistoryFills([MyTrade(1, f), MyTrade(1, f)], 1) == [f, f]
  {
    var history := [MyTrade(1, f), MyTrade(1, f)];
    assert history[..1] == [MyTrade(1, f)];
    assert history[..1][..0] == [];
    assert HistoryFills(history[..1], 1) == [] + [f];
  }

  /** A trade of two units, one of them sold and recorded, saved while the rest is up for sale. */
  function HalfSold(): TradeState {
    NewTradeState(0).(status := PendingSell, buyFillQuantity := 2.0, sellableQuantity := 2.0, buyCost := 2.0,
                      sellOrderId := 1, sellFills := [Unit(BNB)], sellFillQuantity := 1.0)
  }

  /** The other unit is sold while the service is down: live reports close the trade, recovery counts three units sold
      and leaves it open. */
  lemma RecordedSaleStaysOpen(info: ExchangeInfo)
    ensures var order, history := ExchangeOrder(OrderFilled, 1, 0), [MyTrade(1, Unit(BNB)), MyTrade(1, Unit(BNB))];
            var s := HalfSold();
            && RunOps(info, Tracked(s, []), [UnitReport(Sell, OrderFilled, BNB)]).state.status == Done
            && DoRecover(info, s, Some(order), history).status == PendingSell
  {
    hide RunOps, ReportFills, HistoryFills, DoRecover, Sum, Round8;
    var s, ops := HalfSold(), [UnitReport(Sell, OrderFilled, BNB)];
    var order, history := ExchangeOrder(OrderFilled, 1, 0), [MyTrade(1, Unit(BNB)), MyTrade(1, Unit(BNB))];
    UnitSums([Unit(BNB)]);
    UnitsOnGrid(2);
    UnitsOnGrid(3);
    UnitFill(Sell, OrderFilled, BNB);
    TwoInHistory(Unit(BNB));
    assert ops[0] in ops;
    RecoveredSellMatchesReports(info, s, ops, order, history);
  }

  // ---------- a trade in figures ----------

  function FillReport(side: OrderSide, price: real, quantity: real, asset: string, amount: real): Op {
    ReportOp(Report(side, "c1", "", 1, OrderFilled, "LIMIT", quantity, price, price, quantity, asset, amount), 0,
             SellOracle(false, None, false))
  }

  lemma OnlyFill(info: ExchangeInfo, t: Tracked, op: Op, f: Figure)
    requires IsFillReport(op, Buy)
    ensures Total(info, t, [op], Buy, f) == f(op.report.lastPrice, op.report.lastQuantity, op.report.commissionAsset,
                                              op.report.commissionAmount)
  {
    hide Apply;
    assert [op][..0] == [];
  }

  /** Three units bought at two, the commission in BNB: three units for sale, six plus the commission paid. */
  lemma ThreeAtTwo(info: ExchangeInfo)
    ensures var u := RunOps(info, Tracked(NewTradeState(0), []), [FillReport(Buy, 2.0, 3.0, BNB, 0.01)]).state;
            && u.status == Watching && u.buyFillQuantity == u.sellableQuantity == 3.0 && u.averageBuyPrice == 2.0
            && u.buyCost == 6.0045 && u.effectiveBuyPrice == 2.0015 && u.fee == 0.00075
  {
    hide RunOps, Round8;
    var op := FillReport(Buy, 2.0, 3.0, BNB, 0.01);
    assert Gets(2.0, 3.0, BNB, 0.01) == 3.0 && Pays(2.0, 3.0, BNB, 0.01) == 6.0045;
    OneBuy(info, op);
    ExactFigures();
  }

  lemma ExactFigures()
    ensures Round8(3.0) == 3.0 && Round8(2.0) == 2.0 && Round8(6.0045) == 6.0045 && Round8(2.0015) == 2.0015
    ensures Round8(2.9) == 2.9 && Round8(6.0) == 6.0 && Round8(6.0 / 2.9) == 2.06896552
  {
    Round8Value(3.0, 300000000);
    Round8Value(2.0, 200000000);
    Round8Value(6.0045, 600450000);
    Round8Value(2.0015, 200150000);
    Round8Value(2.9, 290000000);
    Round8Value(6.0, 600000000);
    Round8Value(6.0 / 2.9, 206896552);
  }

  /** One buy fill: the figures of its report, and the sellable quantity if the commission is in BNB. */
  lemma OneBuy(info: ExchangeInfo, op: Op)
    requires op.ReportOp? && op.report.side == Buy && op.report.status == OrderFilled
    requires var r := op.report; Gets(r.lastPrice, r.lastQuantity, r.commissionAsset, r.commissionAmount) > 0.0
    ensures var u, r := RunOps(info, Tracked(NewTradeState(0), []), [op]).state, op.report;
            var gets := Gets(r.lastPrice, r.lastQuantity, r.commissionAsset, r.commissionAmount);
            var pays := Pays(r.lastPrice, r.lastQuantity, r.commissionAsset, r.commissionAmount);
            && u.status == Watching && u.buyFillQuantity == Round8(gets) && u.buyCost == Round8(pays)
            && u.averageBuyPrice == Round8(r.lastPrice * r.lastQuantity / gets)
            && u.effectiveBuyPrice == Round8(pays / gets)
            && u.fee == (if r.commissionAsset == "BNB" then 0.00075 else 0.001)
            && (r.commissionAsset == "BNB" ==> u.sellableQuantity == u.buyFillQuantity)
  {
    var t := Tracked(NewTradeState(0), []);
    OneBuyApplied(info, t, op);
    hide Round8, Apply;
    BooksAreTotals(info, t, 0, [op]);
    OnlyFill(info, t, op, Gets);
    OnlyFill(info, t, op, Pays);
    OnlyFill(info, t, op, Worth);
    assert [op][..0] == [];
  }

  lemma OneBuyApplied(info: ExchangeInfo, t: Tracked, op: Op)
    requires op.ReportOp? && op.report.side == Buy && op.report.status == OrderFilled
    requires t.state == NewTradeState(0) && Received(ReportFill(op.report)) > 0.0
    ensures var u := Apply(info, t, op).state;
            && u.status == Watching
            && u.fee == (if op.report.commissionAsset == "BNB" then 0.00075 else 0.001)
            && (op.report.commissionAsset == "BNB" ==> u.sellableQuantity == u.buyFillQuantity)
  {
    hide Round8, FixQuantityToStepSize;
    SumAppend([], ReportFill(op.report), Received);
    assert [] + [ReportFill(op.report)] == [ReportFill(op.report)];
  }

  /** The same with a commission of a tenth of a unit: 2.9 units bought, the price alone paid. */
  lemma ThreeAtTwoLessCommission(info: ExchangeInfo)
    ensures var u := RunOps(info, Tracked(NewTradeState(0), []), [FillReport(Buy, 2.0, 3.0, "ETH", 0.1)]).state;
            && u.status == Watching && u.buyFillQuantity == 2.9 && u.averageBuyPrice == u.effectiveBuyPrice == 2.06896552
            && u.buyCost == 6.0 && u.fee == 0.001
  {
    hide RunOps, Round8;
    assert Gets(2.0, 3.0, "ETH", 0.1) == 2.9 && Pays(2.0, 3.0, "ETH", 0.1) == 6.0;
    OneBuy(info, FillReport(Buy, 2.0, 3.0, "ETH", 0.1));
    ExactFigures();
  }
}
