/** How trades enter the service, survive a restart of it, and leave it. */
module RestartLaws {
  import opened Numbers
  import opened Fills
  import opened TradeModel
  import opened Pricing
  import opened TradeOps
  import opened TradeLaws
  import opened Engines
  import opened EngineLaws
  import Streams

  // ---------- the sellable quantity is always current ----------

  /** Working out the sellable quantity again changes nothing. */
  predicate SellableCurrent(info: ExchangeInfo, s: TradeState) {
    UpdateSellable(info, s) == s
  }

  predicate SameSellable(s: TradeState, u: TradeState) {
    && u.symbol == s.symbol && u.buyFills == s.buyFills
    && u.buyFillQuantity == s.buyFillQuantity && u.sellableQuantity == s.sellableQuantity
  }

  lemma SameSellableCurrent(info: ExchangeInfo, s: TradeState, u: TradeState)
    requires SellableCurrent(info, s) && SameSellable(s, u)
    ensures SellableCurrent(info, u)
  {
    hide FixQuantityToStepSize;
  }

  lemma UpdatedIsCurrent(info: ExchangeInfo, s: TradeState)
    ensures SellableCurrent(info, UpdateSellable(info, s))
  {
    hide FixQuantityToStepSize;
  }

  lemma BuyReportCurrent(info: ExchangeInfo, t: Tracked, r: Report, time: int, oracle: SellOracle)
    requires SellableCurrent(info, t.state)
    ensures SellableCurrent(info, OnBuyReport(info, t, r, time, oracle).state)
  {
    hide SellableCurrent, UpdateSellable, TriggerLimitSell, AddBuyFill;
    var s, u := t.state, OnBuyReport(info, t, r, time, oracle).state;
    if r.status == OrderPartiallyFilled || r.status == OrderFilled {
      var s0 := if r.status == OrderFilled || s.lastBuyStatus == OrderFilled then s
                else s.(lastBuyStatus := OrderPartiallyFilled);
      UpdatedIsCurrent(info, AddBuyFill(s0, ReportFill(r)));
      var filled := OnBuyFill(info, s0, r).(status := Watching, lastBuyStatus := OrderFilled);
      SellsOnlyOrder(info, t.(state := filled), 0.0, NotANumber, oracle);
      SameSellableCurrent(info, OnBuyFill(info, s0, r), u);
    } else {
      SameSellableCurrent(info, s, u);
    }
  }

  lemma ReportCurrent(info: ExchangeInfo, t: Tracked, r: Report, time: int, oracle: SellOracle)
    requires SellableCurrent(info, t.state)
    ensures SellableCurrent(info, OnReport(info, t, r, time, oracle).state)
  {
    BuyReportCurrent(info, t, r, time, oracle);
    SellReportQuantities(t.state, r);
    SellReportAppendsNothing(t.state, r);
    hide SellableCurrent, OnBuyReport, OnSellReport;
    var u := OnReport(info, t, r, time, oracle).state;
    match r.side
    case Buy => SameSellableCurrent(info, OnBuyReport(info, t, r, time, oracle).state, u);
    case Sell => SameSellableCurrent(info, t.state, u);
    case OtherSide => SameSellableCurrent(info, t.state, u);
  }

  lemma SellReportAppendsNothing(s: TradeState, r: Report)
    ensures OnSellReport(s, r).symbol == s.symbol
  {
    hide Sum, Round8, Round8Number, Percent;
  }

  /** A recovery works the sellable quantity out, unless the lookup of the order of a NEW trade failed. */
  lemma RecoverCurrent(info: ExchangeInfo, s: TradeState, lookup: Option<ExchangeOrder>, history: seq<MyTrade>)
    requires SellableCurrent(info, s) || s.status != New || lookup.Some?
    ensures SellableCurrent(info, DoRecover(info, s, lookup, history))
  {
    hide SellableCurrent, UpdateSellable, RecoverBuy, RecoverSell;
    UpdatedIsCurrent(info, s);
    if lookup.Some? {
      UpdatedIsCurrent(info, RecoverBuy(s, lookup.value, history));
      UpdatedIsCurrent(info, RecoverSell(s, lookup.value, history));
    }
  }

  lemma ApplyCurrent(info: ExchangeInfo, t: Tracked, op: Op)
    requires SellableCurrent(info, t.state)
    ensures SellableCurrent(info, Apply(info, t, op).state)
  {
    hide OnReport, OnTick, DoRecover, SellableCurrent;
    var s, u := t.state, Apply(info, t, op).state;
    match op
    case ReportOp(r, time, oracle) => ReportCurrent(info, t, r, time, oracle);
    case TickOp(symbol, price, o) =>
      TickOnlyOrders(t, symbol, price, o);
      SameSellableCurrent(info, s, u);
    case CommandOp(c) =>
      if c.Recover? {
        RecoverCurrent(info, s, c.lookup, c.history);
      } else {
        if !c.Fail? && !c.Abandon? {
          hide DoCommand;
          CommandOnlyOrders(info, t, c);
        }
        SameSellableCurrent(info, s, u);
      }
  }

  /** Over every run the sellable quantity is the one the buy fills call for. */
  lemma {:induction false} RunCurrent(info: ExchangeInfo, t: Tracked, ops: seq<Op>)
    requires SellableCurrent(info, t.state)
    ensures SellableCurrent(info, RunOps(info, t, ops).state)
  {
    hide Apply, SellableCurrent;
    if ops != [] {
      RunCurrent(info, t, ops[..|ops| - 1]);
      ApplyCurrent(info, RunOps(info, t, ops[..|ops| - 1]), ops[|ops| - 1]);
    }
  }

  // ---------- a restart ----------

  /** A trade saved at any moment of its life and put back into a service: nothing is lost but the requests it made, and
      of the profit figures only those of an outdated cost; it takes a stream exactly if it is open. */
  lemma RestartKeepsTrade(e: Engine, t: Tracked, now: int, ops: seq<Op>)
    requires Unfilled(t.state, now)
    ensures var s := RunOps(e.info, t, ops).state;
            var v := Step(e, RestoreTrade(Reload(s)));
            && s.tradeId in v.trades && v.trades == e.trades[s.tradeId := v.trades[s.tradeId]]
            && var u := v.trades[s.tradeId];
               && u.sent == [] && u.state == s.(profit := u.state.profit, profitPercent := u.state.profitPercent)
               && (ProfitSettled(s) <==> u.state == s)
               && (forall c | c in s.clientOrderIds :: c in v.index && v.index[c] == s.tradeId)
               && v.counts == (if s.status in {Done, Canceled, Failed, Abandoned} then e.counts
                               else Streams.AddCount(e.counts, s.symbol))
  {
    var s := RunOps(e.info, t, ops).state;
    UnfilledIsSettled(t.state, now);
    RunCurrent(e.info, t, ops);
    RunAggregates(e.info, t, ops);
    ReloadIsFixpoint(e.info, t, ops);
    SameSellableCurrent(e.info, s, Reload(s));
    hide *;
    ComesBack(e, Reload(s));
    ClosedStatuses(s);
  }

  lemma ClosedStatuses(s: TradeState)
    ensures IsDone(s) <==> s.status in {Done, Canceled, Failed, Abandoned}
  {
  }

  lemma ComesBack(e: Engine, s: TradeState)
    requires SellableCurrent(e.info, s)
    ensures var v := Step(e, RestoreTrade(s));
            && s.tradeId in v.trades && v.trades == e.trades[s.tradeId := Tracked(s, [])]
            && (forall c | c in s.clientOrderIds :: c in v.index && v.index[c] == s.tradeId)
            && v.counts == if IsDone(s) then e.counts else Streams.AddCount(e.counts, s.symbol)
  {
    hide UpdateSellable, Streams.AddCount;
    assert UpdateSellable(e.info, s) == s by { CurrentMeans(e.info, s); }
  }

  lemma CurrentMeans(info: ExchangeInfo, s: TradeState)
    requires SellableCurrent(info, s)
    ensures UpdateSellable(info, s) == s
  {
  }

  /** A trade enters as NEW, whatever it was, under its own ID or else the one made for it; it keeps the price it has and
      takes the ticker's otherwise. */
  lemma NewTradeEnters(e: Engine, s: TradeState, newId: string, ticker: Option<real>)
    ensures var id, v := if s.tradeId != "" then s.tradeId else newId, Step(e, AddNewTrade(s, newId, ticker));
            && id in v.trades && v.trades == e.trades[id := v.trades[id]]
            && v.trades[id] == Tracked(s.(tradeId := id, status := New, lastPrice := v.trades[id].state.lastPrice), [])
            && v.trades[id].state.lastPrice == (if s.lastPrice == 0.0 && ticker.Some? then ticker.value else s.lastPrice)
            && (forall c | c in s.clientOrderIds :: c in v.index && v.index[c] == id)
            && v.counts == Streams.AddCount(e.counts, s.symbol)
  {
    hide Streams.AddCount;
  }

  // ---------- leaving ----------

  /** The event archives the trade: it is closed, and the database has taken it. */
  ghost predicate Archives(e: Engine, ev: Event, id: string) {
    ev == ArchiveTrade(id, true) && id in e.trades && e.trades[id].state.status in {Done, Canceled, Failed, Abandoned}
  }

  lemma StepLeaves(e: Engine, ev: Event, id: string)
    requires id in e.trades
    ensures id in Step(e, ev).trades <==> !Archives(e, ev, id)
    ensures ev.ArchiveTrade? && ev.id == id && !Archives(e, ev, id) ==> Step(e, ev) == e
  {
    hide Apply, UpdateSellable;
    if ev.RestoreTrade? { SellableFrame(e.info, ev.state); }
  }

  lemma LiveLonger(e: Engine, events: seq<Event>, id: string)
    requires events != []
    ensures var n := |events| - 1;
            LiveThroughout(e, events, id) <==> LiveThroughout(e, events[..n], id) && id in Run(e, events).trades
  {
    hide Run;
    var n := |events| - 1;
    assert events[..n + 1] == events;
    assert forall k | 0 <= k <= n :: events[..n][..k] == events[..k];
    if LiveThroughout(e, events, id) {
      assert forall k | 0 <= k <= n :: id in Run(e, events[..n][..k]).trades;
      assert id in Run(e, events[..n + 1]).trades;
    }
    if LiveThroughout(e, events[..n], id) && id in Run(e, events).trades {
      forall k | 0 <= k <= |events| ensures id in Run(e, events[..k]).trades {
        if k <= n { assert id in Run(e, events[..n][..k]).trades; }
      }
    }
  }

  ghost predicate NeverArchived(e: Engine, events: seq<Event>, id: string) {
    forall k | 0 <= k < |events| :: !Archives(Run(e, events[..k]), events[k], id)
  }

  lemma NeverArchivedLonger(e: Engine, events: seq<Event>, id: string)
    requires events != []
    ensures var n := |events| - 1;
            NeverArchived(e, events, id) <==>
            NeverArchived(e, events[..n], id) && !Archives(Run(e, events[..n]), events[n], id)
  {
    hide Run, Archives;
    var n := |events| - 1;
    assert forall k | 0 <= k <= n :: events[..n][..k] == events[..k];
  }

  lemma LiveAtEnd(e: Engine, events: seq<Event>, id: string)
    requires LiveThroughout(e, events, id)
    ensures id in Run(e, events).trades
  {
    hide Run;
    assert events[..|events|] == events;
  }

  /** Over every run a trade stays in the service all along exactly if it is never archived; nothing else removes it. */
  lemma {:induction false} LiveUntilArchived(e: Engine, events: seq<Event>, id: string)
    requires id in e.trades
    ensures LiveThroughout(e, events, id) <==> NeverArchived(e, events, id)
  {
    hide Step, Archives, LiveThroughout, NeverArchived;
    if events == [] {
      NothingYet(e, id);
    } else {
      var n := |events| - 1;
      LiveUntilArchived(e, events[..n], id);
      LiveLonger(e, events, id);
      NeverArchivedLonger(e, events, id);
      if LiveThroughout(e, events[..n], id) {
        LiveAtEnd(e, events[..n], id);
        StepLeaves(Run(e, events[..n]), events[n], id);
      }
    }
  }

  lemma NothingYet(e: Engine, id: string)
    requires id in e.trades
    ensures LiveThroughout(e, [], id) && NeverArchived(e, [], id)
  {
  }
}
