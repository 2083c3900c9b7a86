/** The limit sell of a trade over every run: what turns it on and off, which terms it carries, and when it sells. */
module SettingLaws {
  import opened Numbers
  import opened Fills
  import opened TradeModel
  import opened Pricing
  import opened TradeOps
  import opened TradeLaws
  import opened RequestLaws
  import opened TickLaws

  /** A handler turns the limit sell on: as a setting, or by a limit sell at a percentage that the exchange accepts. */
  predicate TurnsOn(info: ExchangeInfo, s: TradeState, op: Op) {
    match op
    case CommandOp(c) =>
      (match c
       case SetLimitSellByPercent(_) => true
       case SetLimitSellByPrice(_) => true
       case LimitSellByPercent(_, oracle) => Accepted(info, s, oracle)
       case _ => false)
    case _ => false
  }

  /** The symbol is listed, an ID can be made, and the exchange takes the order. */
  predicate Accepted(info: ExchangeInfo, s: TradeState, oracle: SellOracle) {
    s.symbol in info && oracle.newId.Some? && oracle.postOk
  }

  /** A handler turns the limit sell off, or the exchange accepts one of the cancellations the operation asks for. */
  predicate TurnsOff(s: TradeState, op: Op) {
    match op
    case ReportOp(_, _, _) => false
    case TickOp(symbol, price, o) =>
      s.status == PendingSell && s.symbol == symbol
      && ((StopLossLatches(s, price) && (o.cancelOk || o.stopSell.cancelOk))
          || (TrailingLatches(s, price) && o.trailingSell.cancelOk))
    case CommandOp(c) =>
      match c
      case DisableLimitSell => true
      case CancelSell(ok) => ok
      case MarketSell(oracle) => s.status == PendingSell && oracle.cancelOk
      case _ => false
  }

  /** Nothing but the switch of the limit sell differs, and that is off if `off`. */
  predicate Switched(a: LimitSell, b: LimitSell, off: bool) {
    b == a.(enabled := a.enabled && !off)
  }

  lemma CancelSwitches(t: Tracked, ok: bool)
    ensures Switched(t.state.limitSell, DoCancelSell(t, ok).state.limitSell, ok)
  {
  }

  lemma MarketSellSwitches(t: Tracked, oracle: SellOracle)
    ensures Switched(t.state.limitSell, DoMarketSell(t, oracle).state.limitSell,
                     t.state.status == PendingSell && oracle.cancelOk)
  {
    hide DoCancelSell;
    CancelSwitches(t, oracle.cancelOk);
  }

  lemma StopLossSwitches(t: Tracked, o: TickOracle)
    ensures Switched(t.state.limitSell, CheckStopLoss(t, o).state.limitSell,
                     StopLossFires(t.state) && t.state.status == PendingSell && (o.cancelOk || o.stopSell.cancelOk))
  {
    hide DoCancelSell, DoMarketSell;
    CancelSwitches(t, o.cancelOk);
    CancelOnlySends(t, o.cancelOk);
    MarketSellSwitches(StopLossLatched(t, o), o.stopSell);
  }

  lemma TrailingSwitches(t: Tracked, price: real, o: TickOracle)
    ensures Switched(t.state.limitSell, CheckTrailingProfit(t, price, o).state.limitSell,
                     TrailingProfitFires(t.state, price) && t.state.status == PendingSell && o.trailingSell.cancelOk)
  {
    hide DoMarketSell, Percent;
    MarketSellSwitches(TrailingLatched(t), o.trailingSell);
  }

  lemma TickSwitches(t: Tracked, symbol: string, price: real, o: TickOracle)
    ensures Switched(t.state.limitSell, OnTick(t, symbol, price, o).state.limitSell,
                     TurnsOff(t.state, TickOp(symbol, price, o)))
  {
    hide CalculateProfit, CheckStopLoss, CheckTrailingProfit, Percent;
    var s := t.state;
    if Eligible(s, TickOp(symbol, price, o)) {
      var t1 := OnPrice(t, price);
      StopLossSwitches(t1, o);
      StopLossStep(t1, o);
      SalesOfSamePricing(s, t1.state, price, None);
      var t2 := if t1.state.stopLoss.enabled then CheckStopLoss(t1, o) else t1;
      TrailingSwitches(t2, price, o);
    }
  }

  lemma FillsKeepLimitSell(info: ExchangeInfo, s: TradeState, r: Report)
    ensures OnBuyFill(info, s, r).limitSell == s.limitSell && OnSellReport(s, r).limitSell == s.limitSell
  {
    hide Sum, Round8, Round8Number, Percent, FixQuantityToStepSize;
  }

  lemma RecoverKeepsLimitSell(info: ExchangeInfo, s: TradeState, lookup: Option<ExchangeOrder>, history: seq<MyTrade>)
    ensures DoRecover(info, s, lookup, history).limitSell == s.limitSell
  {
    hide AddBuyFills, AddSellFills, HistoryFills, UpdateSellable;
    SellableFrame(info, s);
    if lookup.Some? {
      var order := lookup.value;
      AddBuyFillsAppends(s.(status := PendingBuy), HistoryFills(history, order.orderId));
      AddBuyFillsAppends(s.(status := Watching), HistoryFills(history, order.orderId));
      AddSellFillsAppends(s, HistoryFills(history, s.sellOrderId));
      SellableFrame(info, RecoverBuy(s, order, history));
      SellableFrame(info, RecoverSell(s, order, history));
    }
  }

  /** The sale at a percentage the operation makes, if the exchange accepts it: by a handler, or because the buy order is
      filled while such a limit sell is on. */
  function AcceptedPercent(info: ExchangeInfo, s: TradeState, op: Op): Option<real> {
    match op
    case CommandOp(LimitSellByPercent(percent, oracle)) => if Accepted(info, s, oracle) then Some(percent) else None
    case ReportOp(r, _, oracle) =>
      if r.side == Buy && r.status == OrderFilled && s.limitSell.enabled && s.limitSell.kind == ByPercent
         && Accepted(info, s, oracle)
      then Some(s.limitSell.percent) else None
    case _ => None
  }

  /** The price of the order the operation posted last. */
  predicate PostedAt(u: Tracked, price: Number) {
    u.sent != [] && u.sent[|u.sent| - 1].Post? && u.sent[|u.sent| - 1].order.price == price
  }

  /** The limit sell as one operation leaves it: an accepted sale at a percentage turns it on and notes the percentage
      and the price of the order, a handler may name new terms, and everything else at most turns it off. */
  lemma LimitSellAfter(info: ExchangeInfo, t: Tracked, op: Op)
    ensures var s, u := t.state, Apply(info, t, op);
            var a, b := s.limitSell, u.state.limitSell;
            match AcceptedPercent(info, s, op)
            case Some(percent) => b == LimitSell(true, ByPercent, percent, b.price) && PostedAt(u, b.price)
            case None =>
              if op.CommandOp? && op.command.SetLimitSellByPercent?
              then b == LimitSell(true, ByPercent, op.command.percent, a.price)
              else if op.CommandOp? && op.command.SetLimitSellByPrice?
              then b == LimitSell(true, ByPrice, a.percent, Finite(op.command.price))
              else Switched(a, b, TurnsOff(s, op))
  {
    hide OnReport, OnTick, DoRecover, DoMarketSell;
    match op
    case ReportOp(r, time, oracle) => ReportSwitches(info, t, r, time, oracle);
    case TickOp(symbol, price, o) => TickSwitches(t, symbol, price, o);
    case CommandOp(c) =>
      hide LimitSellPrice;
      match c
      case CancelSell(ok) => CancelSwitches(t, ok);
      case MarketSell(oracle) => MarketSellSwitches(t, oracle);
      case Recover(lookup, history) => RecoverKeepsLimitSell(info, t.state, lookup, history);
      case _ =>
  }

  lemma ReportSwitches(info: ExchangeInfo, t: Tracked, r: Report, time: int, oracle: SellOracle)
    ensures var u, op := OnReport(info, t, r, time, oracle), ReportOp(r, time, oracle);
            match AcceptedPercent(info, t.state, op)
            case Some(percent) =>
              u.state.limitSell == LimitSell(true, ByPercent, percent, u.state.limitSell.price)
              && PostedAt(u, u.state.limitSell.price)
            case None => u.state.limitSell == t.state.limitSell
  {
    hide OnBuyFill, OnSellReport, LimitSellPrice;
    var s := t.state;
    FillsKeepLimitSell(info, s, r);
    FillsKeepLimitSell(info, s.(lastBuyStatus := OrderPartiallyFilled), r);
    BuyFillFrame(info, s, r);
  }

  // ---------- over every run ----------

  /** The limit sell is on from the start, respectively turned on by the operation before position `k`. */
  predicate OnAt(info: ExchangeInfo, t: Tracked, ops: seq<Op>, k: nat)
    requires k <= |ops|
  {
    if k == 0 then t.state.limitSell.enabled else TurnsOn(info, RunOps(info, t, ops[..k - 1]).state, ops[k - 1])
  }

  ghost predicate NeverOffSince(info: ExchangeInfo, t: Tracked, ops: seq<Op>, k: nat) {
    forall j | k <= j < |ops| :: !TurnsOff(RunOps(info, t, ops[..j]).state, ops[j])
  }

  lemma SwitchStep(info: ExchangeInfo, t: Tracked, op: Op)
    ensures Apply(info, t, op).state.limitSell.enabled
       <==> TurnsOn(info, t.state, op) || (t.state.limitSell.enabled && !TurnsOff(t.state, op))
  {
    hide Apply, StopLossLatches, TrailingLatches;
    LimitSellAfter(info, t, op);
  }

  /** Over every run: the limit sell is on exactly if something turned it on, or it was on from the start, and nothing has
      turned it off since. */
  lemma {:induction false} LimitSellOnIff(info: ExchangeInfo, t: Tracked, ops: seq<Op>)
    ensures RunOps(info, t, ops).state.limitSell.enabled
       <==> exists k | 0 <= k <= |ops| :: OnAt(info, t, ops, k) && NeverOffSince(info, t, ops, k)
  {
    hide Apply, TurnsOn, TurnsOff;
    if ops == [] {
      assert OnAt(info, t, ops, 0) == t.state.limitSell.enabled;
      assert NeverOffSince(info, t, ops, 0);
    } else {
      var n := |ops| - 1;
      var before := ops[..n];
      LimitSellOnIff(info, t, before);
      SwitchStep(info, RunOps(info, t, before), ops[n]);
      assert forall j | 0 <= j <= n :: before[..j] == ops[..j];
      forall k | 0 <= k <= n
        ensures OnAt(info, t, before, k) == OnAt(info, t, ops, k)
        ensures NeverOffSince(info, t, ops, k) <==>
                NeverOffSince(info, t, before, k) && !TurnsOff(RunOps(info, t, before).state, ops[n])
      {
      }
      assert OnAt(info, t, ops, n + 1) == TurnsOn(info, RunOps(info, t, before).state, ops[n]);
      assert NeverOffSince(info, t, ops, n + 1);
    }
  }

  ghost predicate NothingTurnsOn(info: ExchangeInfo, t: Tracked, ops: seq<Op>) {
    forall k | 0 <= k < |ops| :: !TurnsOn(info, RunOps(info, t, ops[..k]).state, ops[k])
  }

  lemma OffReportsAreSilent(info: ExchangeInfo, t: Tracked, op: Op)
    requires !t.state.limitSell.enabled && op.ReportOp?
    ensures Apply(info, t, op).sent == t.sent
  {
    hide OnBuyFill, OnSellReport;
    FillsKeepLimitSell(info, t.state, op.report);
  }

  /** Once the exchange has accepted the cancellation of the sell order, no report makes the trade sell again until a
      handler turns the limit sell on. */
  lemma CanceledStaysQuiet(info: ExchangeInfo, t: Tracked, ops: seq<Op>, k: nat)
    requires k < |ops| && ops[k].ReportOp?
    requires NothingTurnsOn(info, Apply(info, t, CommandOp(CancelSell(true))), ops)
    ensures var canceled := Apply(info, t, CommandOp(CancelSell(true)));
            RunOps(info, canceled, ops[..k + 1]).sent == RunOps(info, canceled, ops[..k]).sent
  {
    var canceled := Apply(info, t, CommandOp(CancelSell(true)));
    assert !canceled.state.limitSell.enabled;
    hide Apply, TurnsOn, TurnsOff;
    var before := ops[..k];
    assert forall j | 0 <= j <= k :: before[..j] == ops[..j];
    LimitSellOnIff(info, canceled, before);
    RunOpsAppend(info, canceled, before, ops[k]);
    assert ops[..k + 1] == before + [ops[k]];
    OffReportsAreSilent(info, RunOps(info, canceled, before), ops[k]);
  }
}
