/** The effect of every operation of the trade service on one trade, as functions on its state and on the
    log of the requests it made (`go/tradeservice/tradeservice.go`, `go/server/restoretrades.go`). */
module TradeOps {
  import opened Numbers
  import opened Fills
  import opened TradeModel
  import opened Pricing

  datatype OrderSide = Buy | Sell | OtherSide

  /** An execution report of the exchange's user stream. */
  datatype Report = Report(
    side: OrderSide,
    clientOrderId: string,
    originalClientOrderId: string,
    orderId: int,
    status: OrderStatus,
    orderType: string,
    quantity: real,
    price: real,
    lastPrice: real,
    lastQuantity: real,
    commissionAsset: string,
    commissionAmount: real
  )

  datatype OrderKind = Market | Limit

  datatype Order =
    Order(symbol: string, side: OrderSide, kind: OrderKind, quantity: real, price: Number, clientOrderId: string)

  datatype Trigger = ByStopLoss | ByTrailingProfit

  /** What an operation did outside the trade, in order: client ID registered in the index, order posted,
      order cancelled; `AutoSell` marks the start of an automatic market sell. */
  datatype Effect =
    | Register(clientOrderId: string)
    | Post(order: Order)
    | Cancel(orderId: int)
    | AutoSell(trigger: Trigger)

  datatype Tracked = Tracked(state: TradeState, sent: seq<Effect>) {
    function Send(e: Effect): Tracked {
      this.(sent := sent + [e])
    }
  }

  /** What the outside world answers during a sell: the cancel request, `MakeOrderID`, `PostOrder`. */
  datatype SellOracle = SellOracle(cancelOk: bool, newId: Option<string>, postOk: bool)

  datatype TickOracle = TickOracle(cancelOk: bool, stopSell: SellOracle, trailingSell: SellOracle)

  /** An order as the REST interface describes it, and an entry of the account's trade history. */
  datatype ExchangeOrder = ExchangeOrder(status: OrderStatus, orderId: int, time: int)

  datatype MyTrade = MyTrade(orderId: int, fill: OrderFill)

  datatype Command =
    | PostBuy(order: Order)
    | SetLimitSellByPercent(percent: real)
    | SetLimitSellByPrice(price: real)
    | DisableLimitSell
    | SetStopLoss(enable: bool, percent: real)
    | SetTrailingProfit(enable: bool, percent: real, deviation: real)
    | CancelBuy
    | CancelSell(ok: bool)
    | MarketSell(oracle: SellOracle)
    | LimitSellByPercent(percent: real, oracle: SellOracle)
    | LimitSellByPrice(price: real, oracle: SellOracle)
    | Fail(now: int)
    | Abandon(now: int)
    | Recover(lookup: Option<ExchangeOrder>, history: seq<MyTrade>)

  datatype Op =
    | ReportOp(report: Report, time: int, oracle: SellOracle)
    | TickOp(symbol: string, price: real, tickOracle: TickOracle)
    | CommandOp(command: Command)

  // ---------- orders ----------

  function AddClientOrderId(t: Tracked, id: string): Tracked {
    Tracked(t.state.(clientOrderIds := t.state.clientOrderIds + {id}), t.sent + [Register(id)])
  }

  function DoCancelSell(t: Tracked, ok: bool): Tracked {
    var u := t.Send(Cancel(t.state.sellOrderId));
    if ok then u.(state := u.state.(limitSell := u.state.limitSell.(enabled := false))) else u
  }

  function SellOrderOf(s: TradeState, kind: OrderKind, quantity: real, price: Number, id: string): Order {
    Order(s.symbol, Sell, kind, quantity, price, id)
  }

  function DoMarketSell(t: Tracked, oracle: SellOracle): Tracked {
    var quantity := t.state.sellableQuantity - t.state.sellFillQuantity;
    var u := if t.state.status == PendingSell then DoCancelSell(t, oracle.cancelOk) else t;
    match oracle.newId
    case None => u
    case Some(id) =>
      AddClientOrderId(u, id).Send(Post(SellOrderOf(u.state, Market, quantity, Finite(0.0), id)))
  }

  function DoLimitSellByPercent(info: ExchangeInfo, t: Tracked, percent: real, oracle: SellOracle): Tracked {
    if t.state.symbol !in info || oracle.newId == None then t
    else
      var price := LimitSellPrice(t.state, info[t.state.symbol].tickSize, percent);
      var quantity := t.state.sellableQuantity - t.state.sellFillQuantity;
      var id := oracle.newId.value;
      var u := AddClientOrderId(t, id).Send(Post(SellOrderOf(t.state, Limit, quantity, price, id)));
      if oracle.postOk then u.(state := u.state.(limitSell := LimitSell(true, ByPercent, percent, price))) else u
  }

  function DoLimitSellByPrice(t: Tracked, price: Number, oracle: SellOracle): Tracked {
    match oracle.newId
    case None => t
    case Some(id) =>
      AddClientOrderId(t, id).Send(Post(SellOrderOf(t.state, Limit, t.state.sellableQuantity, price, id)))
  }

  function TriggerLimitSell(info: ExchangeInfo, t: Tracked, oracle: SellOracle): Tracked {
    var limitSell := t.state.limitSell;
    if !limitSell.enabled then t
    else match limitSell.kind
      case ByPercent => DoLimitSellByPercent(info, t, limitSell.percent, oracle)
      case ByPrice => DoLimitSellByPrice(t, limitSell.price, oracle)
      case Unknown => t
  }

  // ---------- execution reports ----------

  function ReportFill(r: Report): OrderFill {
    OrderFill(r.lastPrice, r.lastQuantity, r.commissionAsset, r.commissionAmount)
  }

  function OnBuyFill(info: ExchangeInfo, s: TradeState, r: Report): TradeState {
    UpdateSellable(info, AddBuyFill(s, ReportFill(r)))
  }

  function OnBuyReport(info: ExchangeInfo, t: Tracked, r: Report, time: int, oracle: SellOracle): Tracked {
    var s := t.state;
    match r.status
    case OrderNew =>
      t.(state := s.(openTime := time, buyOrder := OrderTerms(r.quantity, r.price), buyOrderId := r.orderId,
                     status := if s.status == New then PendingBuy else s.status,
                     lastBuyStatus := if s.lastBuyStatus == Unset then OrderNew else s.lastBuyStatus))
    case OrderCanceled =>
      t.(state := s.(status := if s.buyFillQuantity == 0.0 then Canceled else Watching,
                     lastBuyStatus := OrderCanceled))
    case OrderPartiallyFilled =>
      var last := if s.lastBuyStatus != OrderFilled then OrderPartiallyFilled else s.lastBuyStatus;
      t.(state := OnBuyFill(info, s.(lastBuyStatus := last), r))
    case OrderFilled =>
      var u := OnBuyFill(info, s, r).(status := Watching, lastBuyStatus := OrderFilled);
      TriggerLimitSell(info, t.(state := u), oracle)
    case _ => t
  }

  function OnSellReport(s: TradeState, r: Report): TradeState {
    match r.status
    case OrderNew =>
      if s.status == Done then s
      else
        var status := s.sellOrder.status;
        var kept := status == OrderPartiallyFilled || status == OrderFilled;
        s.(sellOrderId := r.orderId, status := PendingSell,
           sellOrder := SellOrder(if kept then status else OrderNew, r.orderType, r.quantity, r.price))
    case OrderPartiallyFilled =>
      var u := AddSellFill(s, ReportFill(r));
      if u.sellOrder.status != OrderFilled then u.(sellOrder := u.sellOrder.(status := OrderPartiallyFilled)) else u
    case OrderFilled =>
      var u := AddSellFill(s, ReportFill(r));
      u.(status := Done, sellOrder := u.sellOrder.(status := OrderFilled))
    case OrderCanceled =>
      s.(status := Watching, sellOrder := s.sellOrder.(status := OrderCanceled))
    case _ =>
      s.(sellOrder := s.sellOrder.(status := r.status))
  }

  /** The statuses after which `OnExecutionReport` stamps the close time and drops the symbol's stream. */
  predicate ReportCloses(s: TradeState) {
    s.status == Done || s.status == Canceled || s.status == Failed
  }

  function OnReport(info: ExchangeInfo, t: Tracked, r: Report, time: int, oracle: SellOracle): Tracked {
    var u := match r.side
      case Buy => OnBuyReport(info, t, r, time, oracle)
      case Sell => t.(state := OnSellReport(t.state, r))
      case OtherSide => t;
    if ReportCloses(u.state) then u.(state := u.state.(closeTime := Some(time))) else u
  }

  // ---------- price ticks ----------

  predicate Sellable(s: TradeState) {
    s.status == PendingSell || s.status == Watching
  }

  function CheckStopLoss(t: Tracked, o: TickOracle): Tracked {
    if !Sellable(t.state) || t.state.stopLoss.triggered then t
    else if t.state.profitPercent.Below(-Abs(t.state.stopLoss.percent)) then
      var u := if t.state.status == PendingSell then DoCancelSell(t, o.cancelOk) else t;
      var latched := u.state.(stopLoss := u.state.stopLoss.(triggered := true));
      DoMarketSell(u.(state := latched).Send(AutoSell(ByStopLoss)), o.stopSell)
    else t
  }

  function CheckTrailingProfit(t: Tracked, price: real, o: TickOracle): Tracked {
    var trailing := t.state.trailing;
    if !Sellable(t.state) || trailing.triggered then t
    else if trailing.activated then
      if price > trailing.price then
        t.(state := t.state.(trailing := trailing.(price := price)))
      else if Percent(price - trailing.price, trailing.price).Magnitude().Above(trailing.deviation) then
        var latched := t.state.(trailing := trailing.(triggered := true));
        DoMarketSell(t.(state := latched).Send(AutoSell(ByTrailingProfit)), o.trailingSell)
      else t
    else if t.state.profitPercent.Above(trailing.percent) then
      t.(state := t.state.(trailing := trailing.(activated := true)))
    else t
  }

  function OnPrice(t: Tracked, price: real): Tracked {
    t.(state := t.state.(lastPrice := price, profitPercent := CalculateProfit(t.state, price)))
  }

  function OnTick(t: Tracked, symbol: string, price: real, o: TickOracle): Tracked {
    if IsDone(t.state) || t.state.symbol != symbol || !Sellable(t.state) then t
    else
      var t1 := OnPrice(t, price);
      var t2 := if t1.state.stopLoss.enabled then CheckStopLoss(t1, o) else t1;
      if t2.state.trailing.enabled then CheckTrailingProfit(t2, price, o) else t2
  }

  // ---------- closing and recovery ----------

  function CloseTrade(s: TradeState, status: TradeStatus, closeTime: Option<int>, now: int): TradeState {
    s.(status := status, closeTime := if closeTime == None then Some(now) else closeTime)
  }

  function HistoryFills(history: seq<MyTrade>, orderId: int): seq<OrderFill> {
    if history == [] then []
    else
      var n := |history| - 1;
      HistoryFills(history[..n], orderId) + if history[n].orderId == orderId then [history[n].fill] else []
  }

  function AddBuyFills(s: TradeState, fills: seq<OrderFill>): TradeState {
    if fills == [] then s else AddBuyFill(AddBuyFills(s, fills[..|fills| - 1]), fills[|fills| - 1])
  }

  function AddSellFills(s: TradeState, fills: seq<OrderFill>): TradeState {
    if fills == [] then s else AddSellFill(AddSellFills(s, fills[..|fills| - 1]), fills[|fills| - 1])
  }

  function RecoverBuy(s: TradeState, order: ExchangeOrder, history: seq<MyTrade>): TradeState {
    match order.status
    case OrderNew => s.(status := PendingBuy)
    case OrderPartiallyFilled => AddBuyFills(s.(status := PendingBuy), HistoryFills(history, order.orderId))
    case OrderFilled => AddBuyFills(s.(status := Watching), HistoryFills(history, order.orderId))
    case _ => s
  }

  function RecoverSell(s: TradeState, order: ExchangeOrder, history: seq<MyTrade>): TradeState {
    match order.status
    case OrderCanceled => s.(status := Watching)
    case OrderFilled =>
      var u := AddSellFills(s, HistoryFills(history, s.sellOrderId));
      if u.sellFillQuantity != u.buyFillQuantity then u else CloseTrade(u, Done, Some(order.time), order.time)
    case _ => s
  }

  /** The body of the loop of `restoreTrades`, after the trade was put back into the service. */
  function DoRecover(info: ExchangeInfo, s: TradeState, lookup: Option<ExchangeOrder>, history: seq<MyTrade>): TradeState {
    if s.status == New && lookup == None then s
    else if s.status == New then UpdateSellable(info, RecoverBuy(s, lookup.value, history))
    else if s.status == PendingSell && lookup != None then
      UpdateSellable(info, RecoverSell(s, lookup.value, history))
    else UpdateSellable(info, s)
  }

  // ---------- one operation, and a run of them ----------

  function DoCommand(info: ExchangeInfo, t: Tracked, c: Command): Tracked {
    var s := t.state;
    match c
    case PostBuy(order) => t.Send(Post(order))
    case SetLimitSellByPercent(percent) =>
      t.(state := s.(limitSell := s.limitSell.(enabled := true, kind := ByPercent, percent := percent)))
    case SetLimitSellByPrice(price) =>
      t.(state := s.(limitSell := s.limitSell.(enabled := true, kind := ByPrice, price := Finite(price))))
    case DisableLimitSell => t.(state := s.(limitSell := s.limitSell.(enabled := false)))
    case SetStopLoss(enable, percent) =>
      t.(state := s.(stopLoss := s.stopLoss.(enabled := enable, percent := percent)))
    case SetTrailingProfit(enable, percent, deviation) =>
      t.(state := s.(trailing := s.trailing.(enabled := enable, percent := percent, deviation := deviation)))
    case CancelBuy => t.Send(Cancel(s.buyOrderId))
    case CancelSell(ok) => DoCancelSell(t, ok)
    case MarketSell(oracle) => DoMarketSell(t, oracle)
    case LimitSellByPercent(percent, oracle) => DoLimitSellByPercent(info, t, percent, oracle)
    case LimitSellByPrice(price, oracle) => DoLimitSellByPrice(t, Finite(price), oracle)
    case Fail(now) => t.(state := CloseTrade(s, Failed, None, now))
    case Abandon(now) => if IsDone(s) then t else t.(state := CloseTrade(s, Abandoned, None, now))
    case Recover(lookup, history) => t.(state := DoRecover(info, s, lookup, history))
  }

  function Apply(info: ExchangeInfo, t: Tracked, op: Op): Tracked {
    match op
    case ReportOp(r, time, oracle) => OnReport(info, t, r, time, oracle)
    case TickOp(symbol, price, o) => OnTick(t, symbol, price, o)
    case CommandOp(c) => DoCommand(info, t, c)
  }

  function RunOps(info: ExchangeInfo, t: Tracked, ops: seq<Op>): Tracked {
    if ops == [] then t
    else Apply(info, RunOps(info, t, ops[..|ops| - 1]), ops[|ops| - 1])
  }

  lemma RunOpsAppend(info: ExchangeInfo, t: Tracked, ops: seq<Op>, op: Op)
    ensures RunOps(info, t, ops + [op]) == Apply(info, RunOps(info, t, ops), op)
  {
    assert (ops + [op])[..|ops|] == ops;
  }
}
