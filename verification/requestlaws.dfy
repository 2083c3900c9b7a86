/** The requests a trade makes: announced before they are posted, and automatic sells at most once per latch. */
module RequestLaws {
  import opened Numbers
  import opened Fills
  import opened TradeModel
  import opened Pricing
  import opened TradeOps
  import opened TradeLaws

  /** How many automatic market sells of one kind the log starts. */
  function AutoSells(sent: seq<Effect>, trigger: Trigger): nat {
    if sent == [] then 0
    else AutoSells(sent[..|sent| - 1], trigger) + if sent[|sent| - 1] == AutoSell(trigger) then 1 else 0
  }

  lemma AutoSellsAppend(sent: seq<Effect>, e: Effect, trigger: Trigger)
    ensures AutoSells(sent + [e], trigger) == AutoSells(sent, trigger) + if e == AutoSell(trigger) then 1 else 0
  {
    assert (sent + [e])[..|sent|] == sent;
  }

  predicate Latch(s: TradeState, trigger: Trigger) {
    match trigger
    case ByStopLoss => s.stopLoss.triggered
    case ByTrailingProfit => s.trailing.triggered
  }

  /** Every post was announced: its client ID belongs to the trade, and was there from the start or registered
      earlier in the log. */
  ghost predicate Announced(t: Tracked, initial: set<string>) {
    && initial <= t.state.clientOrderIds
    && (forall k | 0 <= k < |t.sent| && t.sent[k].Post? ::
          t.sent[k].order.clientOrderId in t.state.clientOrderIds
          && (t.sent[k].order.clientOrderId in initial
              || Register(t.sent[k].order.clientOrderId) in t.sent[..k]))
  }

  /** The log grew and the posts stayed announced; every automatic sell it gained set its latch, every latch set
      comes with its automatic sell, and no latch was released. */
  ghost predicate Extends(t: Tracked, u: Tracked, initial: set<string>) {
    && t.sent <= u.sent
    && (Announced(t, initial) ==> Announced(u, initial))
    && SellsAreLatched(t, u, ByStopLoss)
    && SellsAreLatched(t, u, ByTrailingProfit)
  }

  predicate SellsAreLatched(t: Tracked, u: Tracked, trigger: Trigger) {
    if Latch(t.state, trigger) == Latch(u.state, trigger)
    then AutoSells(u.sent, trigger) == AutoSells(t.sent, trigger)
    else Latch(u.state, trigger) && AutoSells(u.sent, trigger) == AutoSells(t.sent, trigger) + 1
  }

  lemma SendExtends(t: Tracked, e: Effect, initial: set<string>)
    requires !e.AutoSell?
    requires e.Post? ==> e.order.clientOrderId in t.state.clientOrderIds
                         && (e.order.clientOrderId in initial || Register(e.order.clientOrderId) in t.sent)
    ensures Extends(t, t.Send(e), initial)
  {
    var u := t.Send(e);
    AutoSellsAppend(t.sent, e, ByStopLoss);
    AutoSellsAppend(t.sent, e, ByTrailingProfit);
    assert forall k | 0 <= k < |t.sent| :: u.sent[..k] == t.sent[..k];
    assert u.sent[..|t.sent|] == t.sent;
  }

  predicate SameLatches(s: TradeState, u: TradeState) {
    s.stopLoss.triggered == u.stopLoss.triggered && s.trailing.triggered == u.trailing.triggered
  }

  /** Setting a latch together with the start of its automatic sell. */
  lemma LatchExtends(t: Tracked, u: Tracked, trigger: Trigger, initial: set<string>)
    requires u.sent == t.sent + [AutoSell(trigger)] && u.state.clientOrderIds == t.state.clientOrderIds
    requires !Latch(t.state, trigger) && Latch(u.state, trigger)
    requires forall other | other != trigger :: Latch(t.state, other) == Latch(u.state, other)
    ensures Extends(t, u, initial)
  {
    AutoSellsAppend(t.sent, AutoSell(trigger), ByStopLoss);
    AutoSellsAppend(t.sent, AutoSell(trigger), ByTrailingProfit);
    assert forall k | 0 <= k < |t.sent| :: u.sent[..k] == t.sent[..k];
  }

  lemma StateExtends(t: Tracked, u: Tracked, initial: set<string>)
    requires u.sent == t.sent && t.state.clientOrderIds <= u.state.clientOrderIds && SameLatches(t.state, u.state)
    ensures Extends(t, u, initial)
  {
  }

  lemma ExtendsTransitive(t: Tracked, u: Tracked, v: Tracked, initial: set<string>)
    requires Extends(t, u, initial) && Extends(u, v, initial)
    ensures Extends(t, v, initial)
  {
  }

  lemma RegisterAndPost(t: Tracked, id: string, order: Order, initial: set<string>)
    requires order.clientOrderId == id
    ensures Extends(t, AddClientOrderId(t, id).Send(Post(order)), initial)
  {
    var named := t.(state := AddClientOrderId(t, id).state);
    StateExtends(t, named, initial);
    SendExtends(named, Register(id), initial);
    SendExtends(AddClientOrderId(t, id), Post(order), initial);
  }

  lemma CancelExtends(t: Tracked, ok: bool, initial: set<string>)
    ensures Extends(t, DoCancelSell(t, ok), initial)
  {
    var u := t.Send(Cancel(t.state.sellOrderId));
    SendExtends(t, Cancel(t.state.sellOrderId), initial);
    StateExtends(u, DoCancelSell(t, ok), initial);
  }

  lemma MarketSellExtends(t: Tracked, oracle: SellOracle, initial: set<string>)
    ensures Extends(t, DoMarketSell(t, oracle), initial)
  {
    hide Extends, DoCancelSell, AddClientOrderId;
    StateExtends(t, t, initial);
    CancelExtends(t, oracle.cancelOk, initial);
    var u := if t.state.status == PendingSell then DoCancelSell(t, oracle.cancelOk) else t;
    if oracle.newId.Some? {
      var id, quantity := oracle.newId.value, t.state.sellableQuantity - t.state.sellFillQuantity;
      RegisterAndPost(u, id, SellOrderOf(u.state, Market, quantity, Finite(0.0), id), initial);
      ExtendsTransitive(t, u, DoMarketSell(t, oracle), initial);
    }
  }

  lemma PercentSellExtends(info: ExchangeInfo, t: Tracked, percent: real, oracle: SellOracle, initial: set<string>)
    ensures Extends(t, DoLimitSellByPercent(info, t, percent, oracle), initial)
  {
    hide Extends, LimitSellPrice, AddClientOrderId;
    var s := t.state;
    StateExtends(t, t, initial);
    if oracle.newId.Some? && s.symbol in info {
      var id := oracle.newId.value;
      var target := LimitSellPrice(s, info[s.symbol].tickSize, percent);
      var post := SellOrderOf(s, Limit, s.sellableQuantity - s.sellFillQuantity, target, id);
      RegisterAndPost(t, id, post, initial);
      var posted := AddClientOrderId(t, id).Send(Post(post));
      StateExtends(posted, DoLimitSellByPercent(info, t, percent, oracle), initial);
      ExtendsTransitive(t, posted, DoLimitSellByPercent(info, t, percent, oracle), initial);
    }
  }

  lemma PriceSellExtends(t: Tracked, price: Number, oracle: SellOracle, initial: set<string>)
    ensures Extends(t, DoLimitSellByPrice(t, price, oracle), initial)
  {
    hide Extends, AddClientOrderId;
    StateExtends(t, t, initial);
    if oracle.newId.Some? {
      var id := oracle.newId.value;
      RegisterAndPost(t, id, SellOrderOf(t.state, Limit, t.state.sellableQuantity, price, id), initial);
    }
  }

  lemma StopLossExtends(t: Tracked, o: TickOracle, initial: set<string>)
    ensures Extends(t, CheckStopLoss(t, o), initial)
  {
    hide Extends, DoMarketSell;
    StateExtends(t, t, initial);
    CancelExtends(t, o.cancelOk, initial);
    var u := if t.state.status == PendingSell then DoCancelSell(t, o.cancelOk) else t;
    if !t.state.stopLoss.triggered {
      var latched := StopLossLatched(t, o);
      LatchExtends(u, latched, ByStopLoss, initial);
      ExtendsTransitive(t, u, latched, initial);
      MarketSellExtends(latched, o.stopSell, initial);
      ExtendsTransitive(t, latched, DoMarketSell(latched, o.stopSell), initial);
    }
  }

  lemma TrailingProfitExtends(t: Tracked, price: real, o: TickOracle, initial: set<string>)
    ensures Extends(t, CheckTrailingProfit(t, price, o), initial)
  {
    hide Extends, DoMarketSell, Percent;
    var trailing := t.state.trailing;
    StateExtends(t, t, initial);
    if !trailing.triggered {
      var latched := TrailingLatched(t);
      LatchExtends(t, latched, ByTrailingProfit, initial);
      MarketSellExtends(latched, o.trailingSell, initial);
      ExtendsTransitive(t, latched, DoMarketSell(latched, o.trailingSell), initial);
      StateExtends(t, t.(state := t.state.(trailing := trailing.(price := price))), initial);
      StateExtends(t, t.(state := t.state.(trailing := trailing.(activated := true))), initial);
    }
  }

  lemma TickExtends(t: Tracked, symbol: string, price: real, o: TickOracle, initial: set<string>)
    ensures Extends(t, OnTick(t, symbol, price, o), initial)
  {
    hide Extends, CheckStopLoss, CheckTrailingProfit, CalculateProfit;
    StateExtends(t, t, initial);
    var t1 := OnPrice(t, price);
    StateExtends(t, t1, initial);
    StopLossExtends(t1, o, initial);
    ExtendsTransitive(t, t1, CheckStopLoss(t1, o), initial);
    var t2 := if t1.state.stopLoss.enabled then CheckStopLoss(t1, o) else t1;
    TrailingProfitExtends(t2, price, o, initial);
    ExtendsTransitive(t, t2, CheckTrailingProfit(t2, price, o), initial);
  }

  lemma ReportExtends(info: ExchangeInfo, t: Tracked, r: Report, time: int, oracle: SellOracle, initial: set<string>)
    ensures Extends(t, OnReport(info, t, r, time, oracle), initial)
  {
    hide Extends, TriggerLimitSell, UpdateSellable, UpdateBuy, UpdateSell;
    var u := OnReport(info, t, r, time, oracle);
    ReportAppends(info, t, r, time, oracle);
    if r.side == Buy && r.status == OrderFilled {
      var filled := t.(state := OnBuyFill(info, t.state, r).(status := Watching, lastBuyStatus := OrderFilled));
      BuyFillFrame(info, t.state, r);
      BuyFillLatches(info, t.state, r);
      StateExtends(t, filled, initial);
      LimitSellExtends(info, filled, oracle, initial);
      var posted := TriggerLimitSell(info, filled, oracle);
      ExtendsTransitive(t, filled, posted, initial);
      StateExtends(posted, u, initial);
      ExtendsTransitive(t, posted, u, initial);
    } else {
      ReportLatches(info, t, r, time, oracle);
      StateExtends(t, u, initial);
    }
  }

  lemma BuyFillLatches(info: ExchangeInfo, s: TradeState, r: Report)
    ensures SameLatches(s, OnBuyFill(info, s, r))
  {
    hide Sum, Round8, FixQuantityToStepSize;
  }

  lemma ReportLatches(info: ExchangeInfo, t: Tracked, r: Report, time: int, oracle: SellOracle)
    requires r.side != Buy || r.status != OrderFilled
    ensures OnReport(info, t, r, time, oracle).sent == t.sent
    ensures SameLatches(t.state, OnReport(info, t, r, time, oracle).state)
  {
    hide OnBuyFill, Sum, Round8, Round8Number, Percent;
    if r.side == Buy && r.status == OrderPartiallyFilled {
      var last := if t.state.lastBuyStatus != OrderFilled then OrderPartiallyFilled else t.state.lastBuyStatus;
      BuyFillLatches(info, t.state.(lastBuyStatus := last), r);
    }
  }

  lemma LimitSellExtends(info: ExchangeInfo, t: Tracked, oracle: SellOracle, initial: set<string>)
    ensures Extends(t, TriggerLimitSell(info, t, oracle), initial)
  {
    hide Extends, DoLimitSellByPercent, DoLimitSellByPrice;
    StateExtends(t, t, initial);
    PercentSellExtends(info, t, t.state.limitSell.percent, oracle, initial);
    PriceSellExtends(t, t.state.limitSell.price, oracle, initial);
  }

  lemma RecoverLatches(info: ExchangeInfo, s: TradeState, lookup: Option<ExchangeOrder>, history: seq<MyTrade>)
    ensures SameLatches(s, DoRecover(info, s, lookup, history))
  {
    hide RecoverBuy, RecoverSell, UpdateSellable, Settled;
    SellableFrame(info, s);
    if lookup.Some? {
      RecoverBuyFrame(s, lookup.value, history);
      RecoverSellFrame(s, lookup.value, history);
      SellableFrame(info, RecoverBuy(s, lookup.value, history));
      SellableFrame(info, RecoverSell(s, lookup.value, history));
    }
  }

  /** A buy order is posted under a client ID the trade was opened with. */
  predicate Lawful(op: Op, initial: set<string>) {
    op.CommandOp? && op.command.PostBuy? ==> op.command.order.clientOrderId in initial
  }

  lemma ApplyExtends(info: ExchangeInfo, t: Tracked, op: Op, initial: set<string>)
    requires Lawful(op, initial) && initial <= t.state.clientOrderIds
    ensures Extends(t, Apply(info, t, op), initial)
  {
    hide Extends, OnReport, OnTick, DoRecover, DoMarketSell, DoLimitSellByPercent, DoLimitSellByPrice;
    var u := Apply(info, t, op);
    match op
    case ReportOp(r, time, oracle) => ReportExtends(info, t, r, time, oracle, initial);
    case TickOp(symbol, price, o) => TickExtends(t, symbol, price, o, initial);
    case CommandOp(c) =>
      match c
      case PostBuy(order) => SendExtends(t, Post(order), initial);
      case CancelBuy => SendExtends(t, Cancel(t.state.buyOrderId), initial);
      case CancelSell(ok) => CancelExtends(t, ok, initial);
      case MarketSell(oracle) => MarketSellExtends(t, oracle, initial);
      case LimitSellByPercent(percent, oracle) => PercentSellExtends(info, t, percent, oracle, initial);
      case LimitSellByPrice(price, oracle) => PriceSellExtends(t, Finite(price), oracle, initial);
      case Recover(lookup, history) =>
        RecoverAppends(info, t.state, lookup, history);
        RecoverLatches(info, t.state, lookup, history);
        StateExtends(t, u, initial);
      case _ => StateExtends(t, u, initial);
  }

  lemma ApplyLatches(info: ExchangeInfo, t: Tracked, op: Op)
    ensures var u := Apply(info, t, op);
            SellsAreLatched(t, u, ByStopLoss) && SellsAreLatched(t, u, ByTrailingProfit)
  {
    hide Apply, SellsAreLatched, Announced;
    if op.CommandOp? && op.command.PostBuy? {
      PostBuyLatches(info, t, op);
    } else {
      ApplyExtends(info, t, op, {});
    }
  }

  lemma PostBuyLatches(info: ExchangeInfo, t: Tracked, op: Op)
    requires op.CommandOp? && op.command.PostBuy?
    ensures var u := Apply(info, t, op);
            SellsAreLatched(t, u, ByStopLoss) && SellsAreLatched(t, u, ByTrailingProfit)
  {
    AutoSellsAppend(t.sent, Post(op.command.order), ByStopLoss);
    AutoSellsAppend(t.sent, Post(op.command.order), ByTrailingProfit);
  }

  /** Over every run, with no condition: the automatic sells started are exactly the latches set. */
  lemma {:induction false} RunLatches(info: ExchangeInfo, t: Tracked, ops: seq<Op>)
    ensures var u := RunOps(info, t, ops);
            SellsAreLatched(t, u, ByStopLoss) && SellsAreLatched(t, u, ByTrailingProfit)
  {
    hide Apply, AutoSells, Latch;
    if ops != [] {
      RunLatches(info, t, ops[..|ops| - 1]);
      ApplyLatches(info, RunOps(info, t, ops[..|ops| - 1]), ops[|ops| - 1]);
    }
  }

  /** Over every run: each order was announced before it was posted, under a client ID the trade still owns, and
      the automatic sells started are exactly the latches set, so at most one stop loss and one trailing profit. */
  lemma {:induction false} RunRequests(info: ExchangeInfo, t: Tracked, ops: seq<Op>, initial: set<string>)
    requires Announced(t, initial)
    requires forall i | 0 <= i < |ops| :: Lawful(ops[i], initial)
    ensures Extends(t, RunOps(info, t, ops), initial)
    ensures Announced(RunOps(info, t, ops), initial)
  {
    hide Extends, Apply, Announced, Lawful;
    if ops == [] {
      StateExtends(t, t, initial);
    } else {
      var before := RunOps(info, t, ops[..|ops| - 1]);
      RunRequests(info, t, ops[..|ops| - 1], initial);
      AnnouncedOwns(before, initial);
      ApplyExtends(info, before, ops[|ops| - 1], initial);
      ExtendsTransitive(t, before, RunOps(info, t, ops), initial);
      ExtendsAnnounces(t, RunOps(info, t, ops), initial);
    }
  }

  lemma AnnouncedOwns(t: Tracked, initial: set<string>)
    requires Announced(t, initial)
    ensures initial <= t.state.clientOrderIds
  {
  }

  lemma ExtendsAnnounces(t: Tracked, u: Tracked, initial: set<string>)
    requires Extends(t, u, initial) && Announced(t, initial)
    ensures Announced(u, initial)
  {
  }

  // ---------- which requests are made ----------

  /** Registering and posting one sell order, if an ID for it can be made. */
  function SaleOf(s: TradeState, kind: OrderKind, quantity: real, price: Number, newId: Option<string>): seq<Effect> {
    match newId
    case None => []
    case Some(id) => [Register(id), Post(Order(s.symbol, Sell, kind, quantity, price, id))]
  }

  /** What is left to sell. */
  function Rest(s: TradeState): real {
    s.sellableQuantity - s.sellFillQuantity
  }

  function CancelOf(s: TradeState): seq<Effect> {
    if s.status == PendingSell then [Cancel(s.sellOrderId)] else []
  }

  function MarketSaleOf(s: TradeState, newId: Option<string>): seq<Effect> {
    SaleOf(s, Market, Rest(s), Finite(0.0), newId)
  }

  function PercentSaleOf(info: ExchangeInfo, s: TradeState, percent: real, newId: Option<string>): seq<Effect> {
    if s.symbol in info then SaleOf(s, Limit, Rest(s), LimitSellPrice(s, info[s.symbol].tickSize, percent), newId)
    else []
  }

  function PriceSaleOf(s: TradeState, price: Number, newId: Option<string>): seq<Effect> {
    SaleOf(s, Limit, s.sellableQuantity, price, newId)
  }

  /** What the limit sell settings call for when the buy order is filled. */
  function LimitSaleOf(info: ExchangeInfo, s: TradeState, newId: Option<string>): seq<Effect> {
    if !s.limitSell.enabled then []
    else match s.limitSell.kind
      case ByPercent => PercentSaleOf(info, s, s.limitSell.percent, newId)
      case ByPrice => PriceSaleOf(s, s.limitSell.price, newId)
      case Unknown => []
  }

  lemma SellsSend(info: ExchangeInfo, t: Tracked, percent: real, price: Number, oracle: SellOracle)
    ensures DoMarketSell(t, oracle).sent == t.sent + (CancelOf(t.state) + MarketSaleOf(t.state, oracle.newId))
    ensures DoLimitSellByPercent(info, t, percent, oracle).sent ==
            t.sent + PercentSaleOf(info, t.state, percent, oracle.newId)
    ensures DoLimitSellByPrice(t, price, oracle).sent == t.sent + PriceSaleOf(t.state, price, oracle.newId)
  {
    hide LimitSellPrice;
  }

  lemma LimitSellSends(info: ExchangeInfo, t: Tracked, oracle: SellOracle)
    ensures TriggerLimitSell(info, t, oracle).sent == t.sent + LimitSaleOf(info, t.state, oracle.newId)
  {
    hide DoLimitSellByPercent, DoLimitSellByPrice, PercentSaleOf, PriceSaleOf;
    SellsSend(info, t, t.state.limitSell.percent, t.state.limitSell.price, oracle);
  }

  lemma CancelOnlySends(t: Tracked, ok: bool)
    ensures var u := DoCancelSell(t, ok);
            u.sent == t.sent + [Cancel(t.state.sellOrderId)] && u.state == t.state.(limitSell := u.state.limitSell)
  {
  }

  predicate StopLossFires(s: TradeState) {
    Sellable(s) && !s.stopLoss.triggered && s.profitPercent.Below(-Abs(s.stopLoss.percent))
  }

  /** A stop loss that fires cancels the pending sell order, if there is one, both before it sells and as part of the
      market sale. */
  lemma StopLossRequests(t: Tracked, o: TickOracle)
    ensures CheckStopLoss(t, o).sent ==
            t.sent + if StopLossFires(t.state)
                     then CancelOf(t.state) + [AutoSell(ByStopLoss)] + CancelOf(t.state)
                          + MarketSaleOf(t.state, o.stopSell.newId)
                     else []
  {
    hide DoMarketSell, DoCancelSell;
    CancelOnlySends(t, o.cancelOk);
    var latched := StopLossLatched(t, o);
    SellsSend(map[], latched, 0.0, NotANumber, o.stopSell);
    if StopLossFires(t.state) {
      assert latched.sent == t.sent + CancelOf(t.state) + [AutoSell(ByStopLoss)];
      assert MarketSaleOf(latched.state, o.stopSell.newId) == MarketSaleOf(t.state, o.stopSell.newId);
      assert CancelOf(latched.state) == CancelOf(t.state);
    }
  }

  predicate TrailingProfitFires(s: TradeState, price: real) {
    && Sellable(s) && !s.trailing.triggered && s.trailing.activated && price <= s.trailing.price
    && Percent(price - s.trailing.price, s.trailing.price).Magnitude().Above(s.trailing.deviation)
  }

  /** A trailing profit that fires leaves the cancelling to the market sale. */
  lemma TrailingProfitRequests(t: Tracked, price: real, o: TickOracle)
    ensures CheckTrailingProfit(t, price, o).sent ==
            t.sent + if TrailingProfitFires(t.state, price)
                     then [AutoSell(ByTrailingProfit)] + CancelOf(t.state) + MarketSaleOf(t.state, o.trailingSell.newId)
                     else []
  {
    hide DoMarketSell, Percent;
    var latched := TrailingLatched(t);
    SellsSend(map[], latched, 0.0, NotANumber, o.trailingSell);
    if TrailingProfitFires(t.state, price) {
      assert latched.sent == t.sent + [AutoSell(ByTrailingProfit)];
      assert MarketSaleOf(latched.state, o.trailingSell.newId) == MarketSaleOf(t.state, o.trailingSell.newId);
      assert CancelOf(latched.state) == CancelOf(t.state);
    }
  }

  // ---------- how much is put up for sale ----------

  /** The order asks for what is left to sell, or, at a fixed price, for everything that was ever sellable. */
  predicate AsksFor(s: TradeState, order: Order, fixedPrice: bool) {
    order.quantity == if fixedPrice then s.sellableQuantity else s.sellableQuantity - s.sellFillQuantity
  }

  /** Every sell order `u` posted beyond `t` asks for that. */
  ghost predicate PostsAsk(t: Tracked, u: Tracked, fixedPrice: bool) {
    && |t.sent| <= |u.sent|
    && (forall k | |t.sent| <= k < |u.sent| && u.sent[k].Post? && u.sent[k].order.side == Sell ::
          AsksFor(u.state, u.sent[k].order, fixedPrice))
  }

  predicate SamePosition(s: TradeState, u: TradeState) {
    s.sellableQuantity == u.sellableQuantity && s.sellFillQuantity == u.sellFillQuantity
  }

  lemma SellsAsk(info: ExchangeInfo, t: Tracked, percent: real, price: Number, oracle: SellOracle)
    ensures var u := DoMarketSell(t, oracle); PostsAsk(t, u, false) && SamePosition(t.state, u.state)
    ensures var u := DoLimitSellByPercent(info, t, percent, oracle); PostsAsk(t, u, false) && SamePosition(t.state, u.state)
    ensures var u := DoLimitSellByPrice(t, price, oracle); PostsAsk(t, u, true) && SamePosition(t.state, u.state)
  {
    hide LimitSellPrice;
  }

  lemma AsksTransitive(t: Tracked, u: Tracked, v: Tracked, fixedPrice: bool)
    requires PostsAsk(t, u, fixedPrice) && PostsAsk(u, v, fixedPrice) && u.sent <= v.sent
    requires SamePosition(u.state, v.state)
    ensures PostsAsk(t, v, fixedPrice)
  {
  }

  lemma CancelAsks(t: Tracked, ok: bool, fixedPrice: bool)
    ensures PostsAsk(t, DoCancelSell(t, ok), fixedPrice) && SamePosition(t.state, DoCancelSell(t, ok).state)
    ensures t.sent <= DoCancelSell(t, ok).sent
  {
  }

  lemma QuietAsks(t: Tracked, u: Tracked)
    requires t.sent <= u.sent && forall k | |t.sent| <= k < |u.sent| :: !u.sent[k].Post?
    ensures PostsAsk(t, u, false)
  {
  }

  lemma StopLossAsks(t: Tracked, o: TickOracle)
    ensures var u := CheckStopLoss(t, o); PostsAsk(t, u, false) && SamePosition(t.state, u.state) && t.sent <= u.sent
  {
    hide DoMarketSell, PostsAsk;
    CancelAsks(t, o.cancelOk, false);
    var latched := StopLossLatched(t, o);
    QuietAsks(t, t);
    QuietAsks(t, latched);
    SellsAsk(map[], latched, 0.0, NotANumber, o.stopSell);
    MarketSellExtends(latched, o.stopSell, {});
    AsksTransitive(t, latched, DoMarketSell(latched, o.stopSell), false);
  }

  lemma TrailingProfitAsks(t: Tracked, price: real, o: TickOracle)
    ensures var u := CheckTrailingProfit(t, price, o);
            PostsAsk(t, u, false) && SamePosition(t.state, u.state) && t.sent <= u.sent
  {
    hide DoMarketSell, PostsAsk, Percent;
    var latched := TrailingLatched(t);
    QuietAsks(t, latched);
    forall u: Tracked | u.sent == t.sent ensures PostsAsk(t, u, false) {
      QuietAsks(t, u);
    }
    SellsAsk(map[], latched, 0.0, NotANumber, o.trailingSell);
    MarketSellExtends(latched, o.trailingSell, {});
    AsksTransitive(t, latched, DoMarketSell(latched, o.trailingSell), false);
  }

  lemma TickAsks(t: Tracked, symbol: string, price: real, o: TickOracle)
    ensures PostsAsk(t, OnTick(t, symbol, price, o), false)
  {
    hide CheckStopLoss, CheckTrailingProfit, CalculateProfit, PostsAsk;
    var t1 := OnPrice(t, price);
    QuietAsks(t, t);
    QuietAsks(t, t1);
    QuietAsks(t1, t1);
    StopLossAsks(t1, o);
    AsksTransitive(t, t1, CheckStopLoss(t1, o), false);
    var t2 := if t1.state.stopLoss.enabled then CheckStopLoss(t1, o) else t1;
    TrailingProfitAsks(t2, price, o);
    AsksTransitive(t, t2, CheckTrailingProfit(t2, price, o), false);
  }

  lemma ReportAsks(info: ExchangeInfo, t: Tracked, r: Report, time: int, oracle: SellOracle)
    ensures PostsAsk(t, OnReport(info, t, r, time, oracle), t.state.limitSell.kind == ByPrice)
  {
    hide DoLimitSellByPercent, DoLimitSellByPrice, Sum, Round8, Round8Number, Percent, FixQuantityToStepSize;
    if r.side == Buy && r.status == OrderFilled {
      var filled := t.(state := OnBuyFill(info, t.state, r).(status := Watching, lastBuyStatus := OrderFilled));
      assert filled.state.limitSell == t.state.limitSell;
      hide OnBuyFill;
      SellsAsk(info, filled, filled.state.limitSell.percent, filled.state.limitSell.price, oracle);
    } else {
      ReportLatches(info, t, r, time, oracle);
    }
  }

  /** Whether an operation sells at a fixed price. */
  predicate SellsAtPrice(s: TradeState, op: Op) {
    match op
    case ReportOp(_, _, _) => s.limitSell.kind == ByPrice
    case TickOp(_, _, _) => false
    case CommandOp(c) => c.LimitSellByPrice?
  }

  /** Every sell order any operation posts asks for exactly the sellable quantity not yet sold, except that a limit
      sell at a fixed price asks for all of it, sold or not. */
  lemma PostedQuantities(info: ExchangeInfo, t: Tracked, op: Op)
    requires op.CommandOp? && op.command.PostBuy? ==> op.command.order.side == Buy
    ensures PostsAsk(t, Apply(info, t, op), SellsAtPrice(t.state, op))
  {
    match op
    case ReportOp(r, time, oracle) =>
      hide OnReport;
      ReportAsks(info, t, r, time, oracle);
    case TickOp(symbol, price, o) =>
      hide OnTick;
      TickAsks(t, symbol, price, o);
    case CommandOp(c) =>
      hide DoMarketSell, DoLimitSellByPercent, DoLimitSellByPrice, DoRecover;
      match c
      case MarketSell(oracle) => SellsAsk(info, t, 0.0, NotANumber, oracle);
      case LimitSellByPercent(percent, oracle) => SellsAsk(info, t, percent, NotANumber, oracle);
      case LimitSellByPrice(price, oracle) => SellsAsk(info, t, 0.0, Finite(price), oracle);
      case _ =>
  }

  /** Every sell fill sold something that does not round to nothing. */
  ghost predicate Noticeable(fills: seq<OrderFill>) {
    forall i | 0 <= i < |fills| :: fills[i].quantity >= HALF_UNIT
  }

  lemma {:induction false} NoticeableSum(fills: seq<OrderFill>)
    requires Noticeable(fills)
    ensures Sum(fills, Quantity) >= if fills == [] then 0.0 else HALF_UNIT
  {
    if fills != [] { NoticeableSum(fills[..|fills| - 1]); }
  }

  lemma SoldPositive(s: TradeState)
    requires SellSettled(s) && Noticeable(s.sellFills) && s.sellFills != []
    ensures s.sellFillQuantity > 0.0
  {
    NoticeableSum(s.sellFills);
    Round8Monotone(HALF_UNIT, Sum(s.sellFills, Quantity));
    hide Round8Number, Percent, Sum;
    assert Round8(HALF_UNIT) > 0.0;
  }

  /** So over the life of a trade, a limit sell at a fixed price offers more than is left if and only if some sell fill
      was recorded before. */
  lemma FixedPriceOversellsIff(info: ExchangeInfo, t: Tracked, now: int, ops: seq<Op>, price: Number, oracle: SellOracle)
    requires Unfilled(t.state, now) && Noticeable(SellFillsOver(info, t, ops)) && oracle.newId.Some?
    ensures var s := RunOps(info, t, ops).state;
            var sent := DoLimitSellByPrice(RunOps(info, t, ops), price, oracle).sent;
            && sent[|sent| - 1].Post?
            && (sent[|sent| - 1].order.quantity > s.sellableQuantity - s.sellFillQuantity
                <==> SellFillsOver(info, t, ops) != [])
  {
    hide RunOps, BuySettled, SellSettled, Reload;
    LifeOfATrade(info, t, now, ops);
    if SellFillsOver(info, t, ops) != [] { SoldPositive(RunOps(info, t, ops).state); }
  }
}
