/** What every run of the trade service keeps: the index agrees with the trades, each trade is driven by its own
    reports only, posted orders stay routable, and no stream is held for nothing. */
module EngineLaws {
  import opened Numbers
  import opened TradeModel
  import opened Pricing
  import opened TradeOps
  import opened TradeLaws
  import opened RequestLaws
  import opened Engines

  // ---------- the index ----------

  predicate Holds(trades: map<string, Tracked>, id: string, c: string) {
    id in trades && c in trades[id].state.clientOrderIds
  }

  /** Every trade is stored under its ID, its client IDs lead to it, and nothing else is indexed. */
  ghost predicate Agreement(e: Engine) {
    && (forall id | id in e.trades :: e.trades[id].state.tradeId == id)
    && (forall id, c | Holds(e.trades, id, c) :: c in e.index && e.index[c] == id)
    && (forall c | c in e.index :: Holds(e.trades, e.index[c], c))
  }

  function SellIds(oracle: SellOracle): set<string> {
    if oracle.newId.Some? then {oracle.newId.value} else {}
  }

  /** The client IDs an operation may register. */
  function IssuedIds(op: Op): set<string> {
    match op
    case ReportOp(_, _, oracle) => SellIds(oracle)
    case TickOp(_, _, o) => SellIds(o.stopSell) + SellIds(o.trailingSell)
    case CommandOp(c) =>
      match c
      case MarketSell(oracle) => SellIds(oracle)
      case LimitSellByPercent(_, oracle) => SellIds(oracle)
      case LimitSellByPrice(_, oracle) => SellIds(oracle)
      case _ => {}
  }

  lemma ApplyIssues(info: ExchangeInfo, t: Tracked, op: Op)
    ensures t.state.clientOrderIds <= Apply(info, t, op).state.clientOrderIds
    ensures Apply(info, t, op).state.clientOrderIds <= t.state.clientOrderIds + IssuedIds(op)
  {
    hide OnReport, OnTick, DoRecover;
    ApplyAppends(info, t, op);
    match op
    case ReportOp(r, time, oracle) => ReportIssues(info, t, r, time, oracle);
    case TickOp(symbol, price, o) => TickIssues(t, symbol, price, o);
    case CommandOp(c) =>
      if c.Recover? { RecoverAppends(info, t.state, c.lookup, c.history); }
  }

  lemma SellsIssue(info: ExchangeInfo, t: Tracked, percent: real, price: Number, oracle: SellOracle)
    ensures DoMarketSell(t, oracle).state.clientOrderIds <= t.state.clientOrderIds + SellIds(oracle)
    ensures DoLimitSellByPercent(info, t, percent, oracle).state.clientOrderIds <= t.state.clientOrderIds + SellIds(oracle)
    ensures DoLimitSellByPrice(t, price, oracle).state.clientOrderIds <= t.state.clientOrderIds + SellIds(oracle)
  {
    hide LimitSellPrice;
  }

  lemma ReportIssues(info: ExchangeInfo, t: Tracked, r: Report, time: int, oracle: SellOracle)
    ensures OnReport(info, t, r, time, oracle).state.clientOrderIds <= t.state.clientOrderIds + SellIds(oracle)
  {
    hide DoLimitSellByPercent, DoLimitSellByPrice, OnBuyFill, AddSellFill;
    var s := t.state;
    var last := if s.lastBuyStatus != OrderFilled then OrderPartiallyFilled else s.lastBuyStatus;
    BuyFillFrame(info, s.(lastBuyStatus := last), r);
    BuyFillFrame(info, s, r);
    var filled := t.(state := OnBuyFill(info, s, r).(status := Watching, lastBuyStatus := OrderFilled));
    SellsIssue(info, filled, filled.state.limitSell.percent, filled.state.limitSell.price, oracle);
    if r.side == Sell { SellReportAppends(s, r, time, oracle); }
  }

  lemma TickIssues(t: Tracked, symbol: string, price: real, o: TickOracle)
    ensures OnTick(t, symbol, price, o).state.clientOrderIds <=
            t.state.clientOrderIds + SellIds(o.stopSell) + SellIds(o.trailingSell)
  {
    hide CalculateProfit, DoMarketSell, Percent;
    var t1 := OnPrice(t, price);
    SellsIssue(map[], StopLossLatched(t1, o), 0.0, NotANumber, o.stopSell);
    var t2 := if t1.state.stopLoss.enabled then CheckStopLoss(t1, o) else t1;
    SellsIssue(map[], TrailingLatched(t2), 0.0, NotANumber, o.trailingSell);
  }

  /** The ID generator never hands out an ID that is in use for another trade. */
  ghost predicate FreeFor(e: Engine, id: string, ids: set<string>) {
    forall c | c in ids && c in e.index :: e.index[c] == id
  }

  /** Trades that enter bring new IDs, and the ID generator issues unused ones. */
  ghost predicate FreshIds(e: Engine, ev: Event) {
    match ev
    case AddNewTrade(s, newId, _) => NewTradeId(s, newId) !in e.trades && s.clientOrderIds !! e.index.Keys
    case RestoreTrade(s) => s.tradeId !in e.trades && s.clientOrderIds !! e.index.Keys
    case ExecutionReport(r, time, oracle) =>
      Route(e, r).Some? ==> FreeFor(e, Route(e, r).value, IssuedIds(ReportOp(r, time, oracle)))
    case LastTrade(symbol, price, oracles) => FreshTick(e, symbol, price, oracles)
    case OnTrade(id, c) => FreeFor(e, id, IssuedIds(CommandOp(c)))
    case ArchiveTrade(_, _) => true
  }

  ghost predicate FreshTick(e: Engine, symbol: string, price: real, oracles: string -> TickOracle) {
    && (forall id | id in e.trades :: FreeFor(e, id, IssuedIds(TickOp(symbol, price, oracles(id)))))
    && (forall id, other | id in e.trades && other in e.trades && id != other ::
          IssuedIds(TickOp(symbol, price, oracles(id))) !! IssuedIds(TickOp(symbol, price, oracles(other))))
  }

  /** Only the owner of a client ID, old or just issued, can hold it. */
  lemma OneHolder(e: Engine, id: string, u: set<string>, issued: set<string>, other: string, c: string)
    requires Agreement(e) && id in e.trades && FreeFor(e, id, issued)
    requires u <= e.trades[id].state.clientOrderIds + issued && c in u
    requires Holds(e.trades, other, c)
    ensures other == id
  {
    assert e.index[c] == other;
    assert c in e.trades[id].state.clientOrderIds ==> Holds(e.trades, id, c);
  }

  lemma TwoHolders(e: Engine, id: string, issued: set<string>, other: string, otherIssued: set<string>, c: string)
    requires Agreement(e) && id in e.trades && other in e.trades
    requires FreeFor(e, id, issued) && FreeFor(e, other, otherIssued)
    requires id != other ==> issued !! otherIssued
    requires c in e.trades[id].state.clientOrderIds + issued
    requires c in e.trades[other].state.clientOrderIds + otherIssued
    ensures id == other
  {
    assert c in e.trades[id].state.clientOrderIds ==> Holds(e.trades, id, c);
    assert c in e.trades[other].state.clientOrderIds ==> Holds(e.trades, other, c);
    if c !in issued { assert e.index[c] == id; }
    if c !in otherIssued { assert e.index[c] == other; }
  }

  lemma CommitAgreement(e: Engine, id: string, op: Op)
    requires Agreement(e) && id in e.trades && FreeFor(e, id, IssuedIds(op))
    ensures Agreement(Commit(e, id, op))
  {
    hide Apply, Releases, IssuedIds, FreeFor, Agreement;
    ApplyAppends(e.info, e.trades[id], op);
    ApplyIssues(e.info, e.trades[id], op);
    var v := Commit(e, id, op);
    forall other, c | Holds(e.trades, other, c) && Holds(v.trades, id, c) ensures other == id {
      OneHolder(e, id, v.trades[id].state.clientOrderIds, IssuedIds(op), other, c);
    }
    UpdatedAgreement(e, id, v);
  }

  lemma UpdatedAgreement(e: Engine, id: string, v: Engine)
    requires Agreement(e) && id in e.trades && v.trades.Keys == e.trades.Keys
    requires forall other | other in e.trades && other != id :: v.trades[other] == e.trades[other]
    requires v.trades[id].state.tradeId == e.trades[id].state.tradeId
    requires e.trades[id].state.clientOrderIds <= v.trades[id].state.clientOrderIds
    requires forall other, c | Holds(e.trades, other, c) && Holds(v.trades, id, c) :: other == id
    requires v.index == Indexed(e.index, v.trades[id].state.clientOrderIds, id)
    ensures Agreement(v)
  {
    forall x, c | Holds(v.trades, x, c) ensures c in v.index && v.index[c] == x {
      if x != id { assert Holds(e.trades, x, c); }
    }
    forall c | c in v.index ensures Holds(v.trades, v.index[c], c) {
      if c !in v.trades[id].state.clientOrderIds { assert Holds(e.trades, e.index[c], c); }
    }
  }

  lemma EnterAgreement(e: Engine, s: TradeState)
    requires Agreement(e) && s.tradeId !in e.trades && s.clientOrderIds !! e.index.Keys
    ensures Agreement(Enter(e, s))
  {
    var v := Enter(e, s);
    forall x, c | Holds(v.trades, x, c) ensures c in v.index && v.index[c] == x {
      if x != s.tradeId { assert Holds(e.trades, x, c); }
    }
    forall c | c in v.index ensures Holds(v.trades, v.index[c], c) {
      if c !in s.clientOrderIds { assert Holds(e.trades, e.index[c], c); }
    }
  }

  lemma LeaveAgreement(e: Engine, id: string)
    requires Agreement(e) && id in e.trades
    ensures Agreement(Leave(e, id))
  {
    var v := Leave(e, id);
    forall x, c | Holds(v.trades, x, c) ensures c in v.index && v.index[c] == x {
      assert Holds(e.trades, x, c);
      assert Holds(e.trades, id, c) ==> x == id;
    }
    forall c | c in v.index ensures Holds(v.trades, v.index[c], c) {
      assert Holds(e.trades, e.index[c], c);
    }
  }

  lemma TickedTrade(e: Engine, symbol: string, price: real, oracles: string -> TickOracle, id: string)
    requires id in e.trades
    ensures var t, u := e.trades[id], TickAll(e.trades, symbol, price, oracles)[id];
            && u.state.tradeId == t.state.tradeId
            && t.state.clientOrderIds <= u.state.clientOrderIds
            && u.state.clientOrderIds <= t.state.clientOrderIds + IssuedIds(TickOp(symbol, price, oracles(id)))
  {
    hide OnTick, IssuedIds;
    TickIsOp(e.info, e.trades[id], symbol, price, oracles(id));
    ApplyAppends(e.info, e.trades[id], TickOp(symbol, price, oracles(id)));
    ApplyIssues(e.info, e.trades[id], TickOp(symbol, price, oracles(id)));
  }

  lemma TickHolder(e: Engine, symbol: string, price: real, oracles: string -> TickOracle,
                   id: string, other: string, c: string)
    requires Agreement(e) && FreshTick(e, symbol, price, oracles) && id in e.trades && other in e.trades
    requires Holds(TickAll(e.trades, symbol, price, oracles), id, c)
    requires Holds(TickAll(e.trades, symbol, price, oracles), other, c)
    ensures id == other
  {
    hide OnTick, IssuedIds, FreeFor, Agreement;
    TickedTrade(e, symbol, price, oracles, id);
    TickedTrade(e, symbol, price, oracles, other);
    TwoHolders(e, id, IssuedIds(TickOp(symbol, price, oracles(id))),
               other, IssuedIds(TickOp(symbol, price, oracles(other))), c);
  }

  lemma TickAgreement(e: Engine, symbol: string, price: real, oracles: string -> TickOracle)
    requires Agreement(e) && FreshTick(e, symbol, price, oracles)
    ensures Agreement(Step(e, LastTrade(symbol, price, oracles)))
  {
    hide OnTick, FreshTick, Agreement;
    var trades := TickAll(e.trades, symbol, price, oracles);
    forall id | id in e.trades
      ensures trades[id].state.tradeId == id
      ensures e.trades[id].state.clientOrderIds <= trades[id].state.clientOrderIds
    {
      TickedTrade(e, symbol, price, oracles, id);
      TradeIdIsKey(e, id);
    }
    forall id, other, c | Holds(trades, id, c) && Holds(trades, other, c) ensures id == other {
      TickHolder(e, symbol, price, oracles, id, other, c);
    }
    ReindexedAgreement(e, trades);
  }

  lemma TradeIdIsKey(e: Engine, id: string)
    requires Agreement(e) && id in e.trades
    ensures e.trades[id].state.tradeId == id
  {
  }

  lemma ReindexedAgreement(e: Engine, trades: map<string, Tracked>)
    requires Agreement(e) && trades.Keys == e.trades.Keys
    requires forall id | id in trades :: trades[id].state.tradeId == id
    requires forall id | id in e.trades :: e.trades[id].state.clientOrderIds <= trades[id].state.clientOrderIds
    requires forall id, other, c | Holds(trades, id, c) && Holds(trades, other, c) :: id == other
    ensures Agreement(e.(trades := trades, index := e.index + Owners(trades)))
  {
    var owners := Owners(trades);
    forall id, c | Holds(trades, id, c) ensures c in owners && owners[c] == id {
      assert c in AllIds(trades);
      assert Holds(trades, OwnerOf(trades, c), c);
    }
    forall c | c in e.index ensures c in owners {
      assert Holds(e.trades, e.index[c], c);
      assert Holds(trades, e.index[c], c);
    }
    forall c | c in owners ensures Holds(trades, owners[c], c) {
      assert c in AllIds(trades);
    }
  }

  lemma StepAgreement(e: Engine, ev: Event)
    requires Agreement(e) && FreshIds(e, ev)
    ensures Agreement(Step(e, ev))
  {
    hide Agreement, Commit, UpdateSellable;
    match ev
    case AddNewTrade(s, newId, ticker) => EnterAgreement(e, AddedTrade(s, newId, ticker));
    case RestoreTrade(s) =>
      SellableFrame(e.info, s);
      EnterAgreement(e, UpdateSellable(e.info, s));
    case ExecutionReport(r, time, oracle) =>
      if Route(e, r).Some? && Route(e, r).value in e.trades {
        CommitAgreement(e, Route(e, r).value, ReportOp(r, time, oracle));
      }
    case LastTrade(symbol, price, oracles) => TickAgreement(e, symbol, price, oracles);
    case OnTrade(id, c) => if id in e.trades { CommitAgreement(e, id, CommandOp(c)); }
    case ArchiveTrade(id, saved) => if id in e.trades { LeaveAgreement(e, id); }
  }

  ghost predicate FreshRun(e: Engine, events: seq<Event>) {
    forall k | 0 <= k < |events| :: FreshIds(Run(e, events[..k]), events[k])
  }

  lemma FreshPrefix(e: Engine, events: seq<Event>, n: nat)
    requires FreshRun(e, events) && n <= |events|
    ensures FreshRun(e, events[..n])
  {
    forall k | 0 <= k < n ensures FreshIds(Run(e, events[..n][..k]), events[..n][k]) {
      assert events[..n][..k] == events[..k];
    }
  }

  /** The index agrees with the trades in every state a run with fresh IDs can reach. */
  lemma {:induction false} RunAgreement(e: Engine, events: seq<Event>)
    requires Agreement(e) && FreshRun(e, events)
    ensures Agreement(Run(e, events))
  {
    hide Agreement, FreshIds, Step;
    if events != [] {
      var n := |events| - 1;
      FreshPrefix(e, events, n);
      RunAgreement(e, events[..n]);
      StepAgreement(Run(e, events[..n]), events[n]);
    }
  }

  /** A live trade owns the report: by its client ID, or by the original one when no live trade knows the first. */
  ghost predicate Owns(e: Engine, id: string, r: Report) {
    || Holds(e.trades, id, r.clientOrderId)
    || ((forall other :: !Holds(e.trades, other, r.clientOrderId)) && Holds(e.trades, id, r.originalClientOrderId))
  }

  /** Looking a report up in the index is a linear scan of the live trades. */
  lemma RouteIsScan(e: Engine, r: Report, id: string)
    requires Agreement(e)
    ensures Route(e, r) == Some(id) <==> Owns(e, id, r)
  {
  }

  // ---------- demultiplexing ----------

  /** The operations an event performs on one live trade. */
  ghost function OpsOf(e: Engine, ev: Event, id: string): seq<Op> {
    match ev
    case ExecutionReport(r, time, oracle) => if Owns(e, id, r) then [ReportOp(r, time, oracle)] else []
    case LastTrade(symbol, price, oracles) => [TickOp(symbol, price, oracles(id))]
    case OnTrade(target, c) => if target == id then [CommandOp(c)] else []
    case _ => []
  }

  /** The in-order projection of a run to one trade. */
  ghost function OpsFor(e: Engine, events: seq<Event>, id: string): seq<Op> {
    if events == [] then []
    else
      var n := |events| - 1;
      OpsFor(e, events[..n], id) + OpsOf(Run(e, events[..n]), events[n], id)
  }

  /** The trade is live before every event of the run, and after the last. */
  ghost predicate LiveThroughout(e: Engine, events: seq<Event>, id: string) {
    forall k | 0 <= k <= |events| :: id in Run(e, events[..k]).trades
  }

  lemma StepProjects(e: Engine, ev: Event, id: string)
    requires Agreement(e) && FreshIds(e, ev) && id in e.trades && id in Step(e, ev).trades
    ensures Step(e, ev).info == e.info
    ensures Step(e, ev).trades[id] == RunOps(e.info, e.trades[id], OpsOf(e, ev, id))
  {
    hide Apply, UpdateSellable, Releases;
    var t := e.trades[id];
    forall op ensures RunOps(e.info, t, [op]) == Apply(e.info, t, op) {
      assert [op][..0] == [];
      RunOpsAppend(e.info, t, [], op);
      assert [] + [op] == [op];
    }
    match ev
    case RestoreTrade(s) => SellableFrame(e.info, s);
    case ExecutionReport(r, time, oracle) =>
      RouteIsScan(e, r, id);
    case LastTrade(symbol, price, oracles) =>
      TickIsOp(e.info, t, symbol, price, oracles(id));
    case _ =>
  }

  lemma TickIsOp(info: ExchangeInfo, t: Tracked, symbol: string, price: real, o: TickOracle)
    ensures Apply(info, t, TickOp(symbol, price, o)) == OnTick(t, symbol, price, o)
  {
  }

  /** Demultiplexing: in every run, whatever else is interleaved, a live trade is exactly what its own operations
      make of it, where a report is its own when a linear scan of the live trades finds it. */
  lemma {:induction false} Demultiplexing(e: Engine, events: seq<Event>, id: string)
    requires Agreement(e) && FreshRun(e, events) && LiveThroughout(e, events, id)
    ensures id in e.trades && id in Run(e, events).trades && Run(e, events).info == e.info
    ensures Run(e, events).trades[id] == RunOps(e.info, e.trades[id], OpsFor(e, events, id))
  {
    hide Agreement, FreshIds, Step, OpsOf;
    assert events[..0] == [] && events[..|events|] == events;
    if events != [] {
      var n := |events| - 1;
      var before := Run(e, events[..n]);
      FreshPrefix(e, events, n);
      forall k | 0 <= k <= n ensures id in Run(e, events[..n][..k]).trades {
        assert events[..n][..k] == events[..k];
      }
      Demultiplexing(e, events[..n], id);
      RunAgreement(e, events[..n]);
      StepProjects(before, events[n], id);
      RunOpsConcat(e.info, e.trades[id], OpsFor(e, events[..n], id), OpsOf(before, events[n], id));
    }
  }

  /** Hence the fills of a live trade are the in-order projection of the run to its own fill reports (and recovered
      fills), and its aggregates are the closed-form sums over them. */
  lemma ProjectedBooks(e: Engine, events: seq<Event>, id: string)
    requires Agreement(e) && FreshRun(e, events) && LiveThroughout(e, events, id)
    requires id in e.trades && Settled(e.trades[id].state)
    ensures id in Run(e, events).trades
    ensures var t, s := e.trades[id], Run(e, events).trades[id].state;
            var ops := OpsFor(e, events, id);
            && s.buyFills == t.state.buyFills + BuyFillsOver(e.info, t, ops)
            && s.sellFills == t.state.sellFills + SellFillsOver(e.info, t, ops)
            && Settled(s)
  {
    hide *;
    Demultiplexing(e, events, id);
    RunAggregates(e.info, e.trades[id], OpsFor(e, events, id));
  }

  // ---------- posted orders ----------

  /** Every order posted for the trade carries one of its client IDs. */
  ghost predicate OwnsPosts(t: Tracked) {
    Announced(t, t.state.clientOrderIds)
  }

  ghost predicate AllOwnPosts(e: Engine) {
    forall id | id in e.trades :: OwnsPosts(e.trades[id])
  }

  /** A buy order is posted under a client ID its trade was opened with. */
  predicate LawfulEvent(e: Engine, ev: Event) {
    ev.OnTrade? && ev.id in e.trades ==> Lawful(CommandOp(ev.command), e.trades[ev.id].state.clientOrderIds)
  }

  lemma ApplyOwnsPosts(info: ExchangeInfo, t: Tracked, op: Op)
    requires OwnsPosts(t) && Lawful(op, t.state.clientOrderIds)
    ensures OwnsPosts(Apply(info, t, op))
  {
    hide Apply, Lawful;
    ApplyExtends(info, t, op, t.state.clientOrderIds);
    ApplyAppends(info, t, op);
  }

  lemma StepOwnsPosts(e: Engine, ev: Event)
    requires AllOwnPosts(e) && LawfulEvent(e, ev)
    ensures AllOwnPosts(Step(e, ev))
  {
    hide Apply, OnTick, UpdateSellable, Lawful, OwnsPosts;
    var v := Step(e, ev);
    forall id | id in v.trades ensures OwnsPosts(v.trades[id]) {
      match ev
      case AddNewTrade(s, newId, ticker) => NoPosts(v.trades[NewTradeId(s, newId)].state);
      case RestoreTrade(s) => NoPosts(UpdateSellable(e.info, s)); SellableFrame(e.info, s);
      case ExecutionReport(r, time, oracle) =>
        ApplyOwnsPostsUnlawful(e.info, e.trades[id], ReportOp(r, time, oracle));
      case LastTrade(symbol, price, oracles) =>
        TickIsOp(e.info, e.trades[id], symbol, price, oracles(id));
        ApplyOwnsPostsUnlawful(e.info, e.trades[id], TickOp(symbol, price, oracles(id)));
      case OnTrade(target, c) =>
        if target == id { ApplyOwnsPosts(e.info, e.trades[id], CommandOp(c)); }
      case ArchiveTrade(_, _) =>
    }
  }

  lemma NoPosts(s: TradeState)
    ensures OwnsPosts(Tracked(s, []))
  {
  }

  lemma ApplyOwnsPostsUnlawful(info: ExchangeInfo, t: Tracked, op: Op)
    requires OwnsPosts(t) && !op.CommandOp?
    ensures OwnsPosts(Apply(info, t, op))
  {
    hide Apply, OwnsPosts;
    ApplyOwnsPosts(info, t, op);
  }

  ghost predicate LawfulRun(e: Engine, events: seq<Event>) {
    forall k | 0 <= k < |events| :: LawfulEvent(Run(e, events[..k]), events[k])
  }

  lemma {:induction false} RunOwnsPosts(e: Engine, events: seq<Event>)
    requires AllOwnPosts(e) && LawfulRun(e, events)
    ensures AllOwnPosts(Run(e, events))
  {
    hide Step, AllOwnPosts, LawfulEvent;
    if events != [] {
      var n := |events| - 1;
      forall k | 0 <= k < n ensures LawfulEvent(Run(e, events[..n][..k]), events[..n][k]) {
        assert events[..n][..k] == events[..k];
      }
      RunOwnsPosts(e, events[..n]);
      StepOwnsPosts(Run(e, events[..n]), events[n]);
    }
  }

  /** In every run, a report for an order that was posted for a live trade reaches that trade. */
  lemma PostedOrdersAreRoutable(e: Engine, events: seq<Event>, id: string, order: Order, r: Report)
    requires Agreement(e) && AllOwnPosts(e) && FreshRun(e, events) && LawfulRun(e, events)
    requires id in Run(e, events).trades && Post(order) in Run(e, events).trades[id].sent
    requires r.clientOrderId == order.clientOrderId
    ensures Route(Run(e, events), r) == Some(id)
  {
    hide Run, Step;
    RunAgreement(e, events);
    RunOwnsPosts(e, events);
    var t := Run(e, events).trades[id];
    assert OwnsPosts(t);
    assert Holds(Run(e, events).trades, id, order.clientOrderId);
  }

  // ---------- from the start ----------

  /** The service as its constructor leaves it. */
  function StartEngine(info: ExchangeInfo): Engine {
    Engine(info, map[], map[], map[])
  }

  lemma EmptyEngine(info: ExchangeInfo)
    ensures var e := StartEngine(info);
            Agreement(e) && AllOwnPosts(e) && AllSettled(e)
  {
  }

  /** Every trade's aggregates are those of its fills. */
  ghost predicate AllSettled(e: Engine) {
    forall id | id in e.trades :: Settled(e.trades[id].state)
  }

  /** The trade an event brings into the service. */
  predicate EntersSettled(ev: Event) {
    match ev
    case AddNewTrade(s, _, _) => s.buyFills == [] && s.sellFills == [] && s.buyCost == 0.0
    case RestoreTrade(s) => BuySettled(s) && SellSettled(s) && Decimal8(s.buyCost)
    case _ => true
  }

  lemma StepSettled(e: Engine, ev: Event)
    requires AllSettled(e) && EntersSettled(ev)
    ensures AllSettled(Step(e, ev))
  {
    hide Apply, OnTick, UpdateSellable, BuySettled, SellSettled;
    var v := Step(e, ev);
    forall id | id in v.trades ensures Settled(v.trades[id].state) {
      match ev
      case AddNewTrade(s, newId, ticker) =>
        if id == NewTradeId(s, newId) { UnfilledEntersSettled(s, newId, ticker); }
      case RestoreTrade(s) => SellableFrame(e.info, s);
      case ExecutionReport(r, time, oracle) => ApplyAppends(e.info, e.trades[id], ReportOp(r, time, oracle));
      case LastTrade(symbol, price, oracles) =>
        TickIsOp(e.info, e.trades[id], symbol, price, oracles(id));
        ApplyAppends(e.info, e.trades[id], TickOp(symbol, price, oracles(id)));
      case OnTrade(target, c) => if target == id { ApplyAppends(e.info, e.trades[id], CommandOp(c)); }
      case ArchiveTrade(_, _) =>
    }
  }

  lemma UnfilledEntersSettled(s: TradeState, newId: string, ticker: Option<real>)
    requires s.buyFills == [] && s.sellFills == [] && s.buyCost == 0.0
    ensures Settled(AddedTrade(s, newId, ticker))
  {
    OnGrid(0.0, 0);
  }

  lemma {:induction false} RunSettled(e: Engine, events: seq<Event>)
    requires AllSettled(e) && forall k | 0 <= k < |events| :: EntersSettled(events[k])
    ensures AllSettled(Run(e, events))
  {
    hide Step, AllSettled, EntersSettled;
    if events != [] {
      RunSettled(e, events[..|events| - 1]);
      StepSettled(Run(e, events[..|events| - 1]), events[|events| - 1]);
    }
  }

  /** From the start of the service, over every run: the index holds exactly the live trades' client IDs, every order
      ever posted for a live trade is answered to that trade, and every trade's aggregates are those of its fills. */
  lemma ServiceFromStart(info: ExchangeInfo, events: seq<Event>)
    requires FreshRun(StartEngine(info), events) && LawfulRun(StartEngine(info), events)
    requires forall k | 0 <= k < |events| :: EntersSettled(events[k])
    ensures var v := Run(StartEngine(info), events);
            && Agreement(v) && AllSettled(v)
            && (forall id, order, r: Report | id in v.trades && Post(order) in v.trades[id].sent
                  && r.clientOrderId == order.clientOrderId :: Route(v, r) == Some(id))
  {
    hide Run, Step, FreshIds, LawfulEvent, Route, Agreement, OwnsPosts, EntersSettled, AllSettled;
    var e := StartEngine(info);
    EmptyEngine(info);
    RunAgreement(e, events);
    RunSettled(e, events);
    var v := Run(e, events);
    forall id, order, r: Report | id in v.trades && Post(order) in v.trades[id].sent
      && r.clientOrderId == order.clientOrderId
      ensures Route(v, r) == Some(id)
    {
      PostedOrdersAreRoutable(e, events, id, order, r);
    }
  }
}
