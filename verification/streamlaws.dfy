/** The reference counts of the streams against the open trades that need them. */
module StreamLaws {
  import opened TradeModel
  import opened Pricing
  import opened TradeOps
  import opened TradeLaws
  import opened Engines
  import opened EngineLaws
  import opened Streams

  // ---------- one operation ----------

  /** A closed trade has a close time. */
  predicate Timed(s: TradeState) {
    IsDone(s) ==> s.closeTime.Some?
  }

  /** An open trade closes exactly when its operation takes the reference off the stream. */
  lemma ApplyReleases(info: ExchangeInfo, t: Tracked, op: Op)
    ensures var s, u := t.state, Apply(info, t, op).state;
            && (!IsDone(s) ==> (IsDone(u) <==> Releases(s, op, u)))
            && (Timed(s) ==> Timed(u))
  {
    hide OnReport, OnTick, DoRecover;
    match op
    case ReportOp(r, time, oracle) => ReportStatus(info, t, r, time, oracle);
    case TickOp(symbol, price, o) => TickOnlyOrders(t, symbol, price, o);
    case CommandOp(c) =>
      if c.Recover? {
        RecoverStatus(info, t.state, c.lookup, c.history);
      } else if !c.Fail? && !c.Abandon? {
        hide DoCommand;
        CommandOnlyOrders(info, t, c);
      }
  }

  // ---------- counting ----------

  ghost predicate OpenOn(e: Engine, id: string, name: string) {
    id in e.trades && !IsDone(e.trades[id].state) && ToLower(e.trades[id].state.symbol) == name
  }

  /** The open trades on a stream. */
  ghost function OpenTrades(e: Engine, name: string): set<string> {
    set id | id in e.trades && OpenOn(e, id, name)
  }

  ghost predicate PositiveCounts(counts: Counts) {
    forall name | name in counts :: counts[name] >= 1
  }

  /** No stream is counted more often than it has open trades. */
  ghost predicate NotOvercounted(e: Engine) {
    PositiveCounts(e.counts) && forall name :: RefCount(e.counts, name) <= |OpenTrades(e, name)|
  }

  /** Every stream is counted exactly once per open trade. */
  ghost predicate ExactlyCounted(e: Engine) {
    PositiveCounts(e.counts) && forall name :: RefCount(e.counts, name) == |OpenTrades(e, name)|
  }

  /** What one trade's change from `before` open to `after` open does to the open trades of its stream. */
  lemma OpenChange(e: Engine, v: Engine, id: string, name: string)
    requires forall x | x != id :: OpenOn(v, x, name) == OpenOn(e, x, name)
    ensures |OpenTrades(v, name)| + (if OpenOn(e, id, name) then 1 else 0)
         == |OpenTrades(e, name)| + (if OpenOn(v, id, name) then 1 else 0)
  {
    assert OpenTrades(v, name) - {id} == OpenTrades(e, name) - {id};
    OneElement(OpenTrades(e, name), OpenTrades(v, name), id);
  }

  lemma OneElement(a: set<string>, b: set<string>, x: string)
    requires a - {x} == b - {x}
    ensures |b| + (if x in a then 1 else 0) == |a| + (if x in b then 1 else 0)
  {
    assert a == if x in a then (a - {x}) + {x} else a - {x};
    assert b == if x in b then (b - {x}) + {x} else b - {x};
  }

  lemma CountChange(counts: Counts, symbol: string, name: string)
    requires PositiveCounts(counts)
    ensures PositiveCounts(AddCount(counts, symbol)) && PositiveCounts(RemoveCount(counts, symbol))
    ensures RefCount(AddCount(counts, symbol), name) == RefCount(counts, name) + if ToLower(symbol) == name then 1 else 0
    ensures RefCount(RemoveCount(counts, symbol), name) ==
            if ToLower(symbol) == name && RefCount(counts, name) > 0 then RefCount(counts, name) - 1
            else RefCount(counts, name)
  {
    hide ToLower;
  }

  lemma CommitCounts(e: Engine, id: string, op: Op, name: string)
    requires id in e.trades && PositiveCounts(e.counts)
    ensures var v := Commit(e, id, op);
            && PositiveCounts(v.counts)
            && (RefCount(e.counts, name) <= |OpenTrades(e, name)| ==> RefCount(v.counts, name) <= |OpenTrades(v, name)|)
  {
    hide Apply, Releases, ToLower, OpenTrades, AddCount, RemoveCount, RefCount;
    var v := Commit(e, id, op);
    ApplyAppends(e.info, e.trades[id], op);
    ApplyReleases(e.info, e.trades[id], op);
    OpenChange(e, v, id, name);
    CountChange(e.counts, e.trades[id].state.symbol, name);
    if RefCount(e.counts, name) == 0 && OpenOn(e, id, name) { OpenIsCounted(e, id, name); }
  }

  lemma OpenIsCounted(e: Engine, id: string, name: string)
    requires OpenOn(e, id, name)
    ensures |OpenTrades(e, name)| > 0
  {
    assert id in OpenTrades(e, name);
  }

  lemma EnterCounts(e: Engine, s: TradeState, name: string)
    requires s.tradeId !in e.trades && PositiveCounts(e.counts)
    ensures var v := Enter(e, s);
            && PositiveCounts(v.counts)
            && RefCount(v.counts, name) - |OpenTrades(v, name)| == RefCount(e.counts, name) - |OpenTrades(e, name)|
  {
    hide ToLower, OpenTrades, AddCount, RefCount, RemoveCount;
    OpenChange(e, Enter(e, s), s.tradeId, name);
    CountChange(e.counts, s.symbol, name);
  }

  lemma LeaveCounts(e: Engine, id: string, name: string)
    requires id in e.trades && IsDone(e.trades[id].state)
    ensures |OpenTrades(Leave(e, id), name)| == |OpenTrades(e, name)|
  {
    hide ToLower, OpenTrades;
    OpenChange(e, Leave(e, id), id, name);
  }

  lemma TickCounts(e: Engine, symbol: string, price: real, oracles: string -> TickOracle, name: string)
    ensures OpenTrades(Step(e, LastTrade(symbol, price, oracles)), name) == OpenTrades(e, name)
  {
    hide OnTick, ToLower;
    forall id | id in e.trades
      ensures OpenOn(Step(e, LastTrade(symbol, price, oracles)), id, name) == OpenOn(e, id, name)
    {
      TickOnlyOrders(e.trades[id], symbol, price, oracles(id));
    }
  }

  // ---------- every run ----------

  lemma StepNotOvercounted(e: Engine, ev: Event)
    requires NotOvercounted(e) && FreshIds(e, ev)
    ensures NotOvercounted(Step(e, ev))
  {
    hide OpenTrades, Commit, Enter, UpdateSellable, RefCount, PositiveCounts, TickAll;
    var v := Step(e, ev);
    forall name ensures PositiveCounts(v.counts) && RefCount(v.counts, name) <= |OpenTrades(v, name)| {
      match ev
      case AddNewTrade(s, newId, ticker) => EnterCounts(e, AddedTrade(s, newId, ticker), name);
      case RestoreTrade(s) => SellableFrame(e.info, s); EnterCounts(e, UpdateSellable(e.info, s), name);
      case ExecutionReport(r, time, oracle) =>
        if Route(e, r).Some? && Route(e, r).value in e.trades {
          CommitCounts(e, Route(e, r).value, ReportOp(r, time, oracle), name);
        }
      case LastTrade(symbol, price, oracles) =>
        TickCounts(e, symbol, price, oracles, name);
        assert v.counts == e.counts;
      case OnTrade(id, c) => if id in e.trades { CommitCounts(e, id, CommandOp(c), name); }
      case ArchiveTrade(id, saved) =>
        if id in e.trades && IsDone(e.trades[id].state) {
          LeaveCounts(e, id, name);
          assert Leave(e, id).counts == e.counts;
        }
    }
    assert RefCount(v.counts, "") <= |OpenTrades(v, "")|;
  }

  /** In every run, late reports and repeated failures included, a stream is counted at most once per open trade:
      none is kept open that no trade needs. */
  lemma {:induction false} NoStreamHeldForNothing(e: Engine, events: seq<Event>)
    requires NotOvercounted(e) && FreshRun(e, events)
    ensures NotOvercounted(Run(e, events))
  {
    hide Step, NotOvercounted, FreshIds;
    if events != [] {
      FreshPrefix(e, events, |events| - 1);
      NoStreamHeldForNothing(e, events[..|events| - 1]);
      StepNotOvercounted(Run(e, events[..|events| - 1]), events[|events| - 1]);
    }
  }

  // ---------- exactly when the counts are right ----------

  predicate Closed(status: TradeStatus) {
    status == Done || status == Canceled || status == Failed || status == Abandoned
  }

  /** No open trade needs the stream of this symbol. */
  ghost predicate Unneeded(e: Engine, symbol: string) {
    OpenTrades(e, ToLower(symbol)) == {}
  }

  /** What an operation on a closed trade must not do: reopen it, or drop a stream an open trade needs.  Everything
      this depends on is known before the operation. */
  ghost predicate Harmless(e: Engine, id: string, op: Op)
    requires id in e.trades
  {
    var s := e.trades[id].state;
    Closed(s.status) ==>
      match op
      case ReportOp(r, _, _) =>
        var after := StatusAfterReport(s.status, s.buyFillQuantity == 0.0, r.side, r.status);
        Closed(after) && (after != Abandoned ==> Unneeded(e, s.symbol))
      case CommandOp(Fail(_)) => Unneeded(e, s.symbol)
      case _ => true
  }

  /** The same in terms of the state the operation leaves. */
  lemma HarmlessMeans(e: Engine, id: string, op: Op)
    requires id in e.trades
    ensures var s, u := e.trades[id].state, Apply(e.info, e.trades[id], op).state;
            Harmless(e, id, op) <==>
            (IsDone(s) ==> IsDone(u) && (Releases(s, op, u) ==> Unneeded(e, s.symbol)))
    ensures var s, u := e.trades[id].state, Apply(e.info, e.trades[id], op).state;
            Releases(s, op, u) ==> IsDone(u)
  {
    hide OnReport, OnTick, DoRecover, StatusAfterReport, Unneeded;
    var t := e.trades[id];
    match op
    case ReportOp(r, time, oracle) => ReportStatus(e.info, t, r, time, oracle);
    case TickOp(_, _, _) => if IsDone(t.state) { ClosedStaysClosed(e.info, t, op); }
    case CommandOp(c) => if IsDone(t.state) && !c.Fail? { ClosedStaysClosed(e.info, t, op); }
  }

  lemma ClosedStaysClosed(info: ExchangeInfo, t: Tracked, op: Op)
    requires IsDone(t.state) && !op.ReportOp? && !(op.CommandOp? && op.command.Fail?)
    ensures var u := Apply(info, t, op).state;
            IsDone(u) && !Releases(t.state, op, u)
  {
    hide OnTick, DoRecover;
    match op
    case TickOp(symbol, price, o) => TickOnlyOrders(t, symbol, price, o);
    case CommandOp(c) =>
      if c.Recover? {
        RecoverStatus(info, t.state, c.lookup, c.history);
      } else if !c.Abandon? {
        hide DoCommand;
        CommandOnlyOrders(info, t, c);
      }
  }

  /** What one operation does to the balance between the count of a stream and its open trades. */
  lemma CommitBalance(e: Engine, id: string, op: Op, name: string)
    requires id in e.trades && PositiveCounts(e.counts) && RefCount(e.counts, name) == |OpenTrades(e, name)|
    ensures var v := Commit(e, id, op);
            && PositiveCounts(v.counts)
            && RefCount(v.counts, name) ==
                 |OpenTrades(v, name)|
                 - if Harmless(e, id, op) || name != ToLower(e.trades[id].state.symbol) then 0 else 1
  {
    hide Apply, Releases, ToLower, OpenTrades, RemoveCount, RefCount, StatusAfterReport, Harmless;
    var v := Commit(e, id, op);
    HarmlessMeans(e, id, op);
    ApplyAppends(e.info, e.trades[id], op);
    ApplyReleases(e.info, e.trades[id], op);
    OpenChange(e, v, id, name);
    CountChange(e.counts, e.trades[id].state.symbol, name);
    if OpenOn(e, id, name) { OpenIsCounted(e, id, name); }
  }

  /** One operation keeps the counts exact if and only if it is harmless. */
  lemma CommitExactIffHarmless(e: Engine, id: string, op: Op)
    requires ExactlyCounted(e) && id in e.trades
    ensures ExactlyCounted(Commit(e, id, op)) <==> Harmless(e, id, op)
  {
    hide Commit, OpenTrades, RefCount, Harmless, PositiveCounts, ToLower;
    var v, name := Commit(e, id, op), ToLower(e.trades[id].state.symbol);
    forall other ensures
      PositiveCounts(v.counts)
      && RefCount(v.counts, other) == |OpenTrades(v, other)| - if Harmless(e, id, op) || other != name then 0 else 1
    {
      assert RefCount(e.counts, other) == |OpenTrades(e, other)|;
      CommitBalance(e, id, op, other);
    }
    assert RefCount(v.counts, name) == |OpenTrades(v, name)| - if Harmless(e, id, op) then 0 else 1;
  }

  /** Whenever it is not, exactly one reference is missing, and only to the stream of that trade. */
  lemma HarmStealsOneReference(e: Engine, id: string, op: Op, name: string)
    requires ExactlyCounted(e) && id in e.trades && !Harmless(e, id, op)
    ensures var v := Commit(e, id, op);
            RefCount(v.counts, name) ==
            |OpenTrades(v, name)| - if name == ToLower(e.trades[id].state.symbol) then 1 else 0
  {
    hide Commit, OpenTrades, RefCount, Harmless, PositiveCounts, ToLower;
    assert RefCount(e.counts, name) == |OpenTrades(e, name)|;
    CommitBalance(e, id, op, name);
  }

  ghost predicate HarmlessEvent(e: Engine, ev: Event) {
    match ev
    case ExecutionReport(r, time, oracle) =>
      Route(e, r).Some? && Route(e, r).value in e.trades ==>
        Harmless(e, Route(e, r).value, ReportOp(r, time, oracle))
    case OnTrade(id, c) => id in e.trades ==> Harmless(e, id, CommandOp(c))
    case _ => true
  }

  lemma StepExactIffHarmless(e: Engine, ev: Event)
    requires ExactlyCounted(e) && FreshIds(e, ev)
    ensures ExactlyCounted(Step(e, ev)) <==> HarmlessEvent(e, ev)
  {
    hide Enter, UpdateSellable, Commit, TickAll, Harmless, Leave, ExactlyCounted;
    match ev
    case AddNewTrade(s, newId, ticker) => EnterExact(e, AddedTrade(s, newId, ticker));
    case RestoreTrade(s) =>
      SellableFrame(e.info, s);
      EnterExact(e, UpdateSellable(e.info, s));
    case ExecutionReport(r, time, oracle) =>
      if Route(e, r).Some? && Route(e, r).value in e.trades {
        CommitExactIffHarmless(e, Route(e, r).value, ReportOp(r, time, oracle));
      }
    case LastTrade(symbol, price, oracles) => TickExact(e, symbol, price, oracles);
    case OnTrade(id, c) => if id in e.trades { CommitExactIffHarmless(e, id, CommandOp(c)); }
    case ArchiveTrade(id, saved) =>
      if id in e.trades && IsDone(e.trades[id].state) { LeaveExact(e, id); }
  }

  lemma EnterExact(e: Engine, s: TradeState)
    requires ExactlyCounted(e) && s.tradeId !in e.trades
    ensures ExactlyCounted(Enter(e, s))
  {
    hide OpenTrades, RefCount, PositiveCounts, Enter;
    var v := Enter(e, s);
    forall name ensures PositiveCounts(v.counts) && RefCount(v.counts, name) == |OpenTrades(v, name)| {
      EnterCounts(e, s, name);
    }
    assert RefCount(v.counts, "") == |OpenTrades(v, "")|;
  }

  lemma TickExact(e: Engine, symbol: string, price: real, oracles: string -> TickOracle)
    requires ExactlyCounted(e)
    ensures ExactlyCounted(Step(e, LastTrade(symbol, price, oracles)))
  {
    hide OpenTrades, RefCount, PositiveCounts, TickAll;
    var v := Step(e, LastTrade(symbol, price, oracles));
    forall name ensures RefCount(v.counts, name) == |OpenTrades(v, name)| {
      TickCounts(e, symbol, price, oracles, name);
    }
  }

  lemma LeaveExact(e: Engine, id: string)
    requires ExactlyCounted(e) && id in e.trades && IsDone(e.trades[id].state)
    ensures ExactlyCounted(Leave(e, id))
  {
    hide OpenTrades, RefCount, PositiveCounts;
    var v := Leave(e, id);
    forall name ensures RefCount(v.counts, name) == |OpenTrades(v, name)| {
      LeaveCounts(e, id, name);
    }
  }

  ghost predicate ExactThroughout(e: Engine, events: seq<Event>) {
    forall k | 0 <= k <= |events| :: ExactlyCounted(Run(e, events[..k]))
  }

  ghost predicate HarmlessRun(e: Engine, events: seq<Event>) {
    forall k | 0 <= k < |events| :: HarmlessEvent(Run(e, events[..k]), events[k])
  }

  lemma RunOfPrefix(e: Engine, events: seq<Event>, k: nat)
    requires k < |events|
    ensures Run(e, events[..k + 1]) == Step(Run(e, events[..k]), events[k])
  {
    hide Step;
    assert events[..k + 1][..k] == events[..k];
  }

  lemma {:induction false} HarmlessPrefixExact(e: Engine, events: seq<Event>, k: nat)
    requires ExactlyCounted(e) && FreshRun(e, events) && HarmlessRun(e, events) && k <= |events|
    ensures ExactlyCounted(Run(e, events[..k]))
  {
    hide Step, ExactlyCounted, HarmlessEvent, FreshIds;
    if k > 0 {
      HarmlessPrefixExact(e, events, k - 1);
      RunOfPrefix(e, events, k - 1);
      StepExactIffHarmless(Run(e, events[..k - 1]), events[k - 1]);
    }
  }

  /** Over every run: the count of every stream is the number of its open trades all along if and only if no step
      reopens a closed trade or drops, for a closed trade, a stream that is still needed. */
  lemma ExactIffHarmless(e: Engine, events: seq<Event>)
    requires ExactlyCounted(e) && FreshRun(e, events)
    ensures ExactThroughout(e, events) <==> HarmlessRun(e, events)
  {
    hide Step, ExactlyCounted, HarmlessEvent, FreshIds, Run;
    if HarmlessRun(e, events) {
      forall k | 0 <= k <= |events| ensures ExactlyCounted(Run(e, events[..k])) {
        HarmlessPrefixExact(e, events, k);
      }
    }
    if ExactThroughout(e, events) {
      forall k | 0 <= k < |events| ensures HarmlessEvent(Run(e, events[..k]), events[k]) {
        RunOfPrefix(e, events, k);
        assert ExactlyCounted(Run(e, events[..k])) && ExactlyCounted(Run(e, events[..k + 1]));
        StepExactIffHarmless(Run(e, events[..k]), events[k]);
      }
    }
  }

  /** No report reaches a closed trade, and only open trades fail. */
  ghost predicate Disciplined(e: Engine, ev: Event) {
    match ev
    case ExecutionReport(r, _, _) =>
      Route(e, r).Some? && Route(e, r).value in e.trades ==> !IsDone(e.trades[Route(e, r).value].state)
    case OnTrade(id, Fail(_)) => id in e.trades ==> !IsDone(e.trades[id].state)
    case _ => true
  }

  ghost predicate DisciplinedRun(e: Engine, events: seq<Event>) {
    forall k | 0 <= k < |events| :: Disciplined(Run(e, events[..k]), events[k])
  }

  /** In particular: as long as no report reaches a closed trade and only open trades fail, each stream's reference
      count is the number of its open trades, and it is absent exactly when there is none. */
  lemma CountsAreOpenTrades(e: Engine, events: seq<Event>)
    requires ExactlyCounted(e) && FreshRun(e, events) && DisciplinedRun(e, events)
    ensures ExactlyCounted(Run(e, events))
    ensures forall name :: name !in Run(e, events).counts <==> OpenTrades(Run(e, events), name) == {}
  {
    hide Run, FreshIds, OpenTrades, StatusAfterReport;
    assert events[..|events|] == events;
    HarmlessPrefixExact(e, events, |events|);
    var v := Run(e, events);
    forall name ensures name !in v.counts <==> OpenTrades(v, name) == {} {
      assert RefCount(v.counts, name) == |OpenTrades(v, name)|;
    }
  }

  // ---------- a run that loses a stream ----------

  function Opened(id: string, clientOrderId: string, symbol: string): TradeState {
    NewTradeState(0).(tradeId := id, symbol := symbol, clientOrderIds := {clientOrderId})
  }

  function SoldReport(status: OrderStatus): Report {
    Report(Sell, "a1", "", 7, status, "MARKET", 2.0, 1.0, 1.0, 1.0, "BNB", 0.0)
  }

  /** Two trades of one symbol; the first is sold, and a partial fill of its sale arrives late. */
  function LateFillEvents(symbol: string): seq<Event> {
    var oracle := SellOracle(false, None, false);
    [AddNewTrade(Opened("a", "a1", symbol), "", None), AddNewTrade(Opened("b", "b1", symbol), "", None),
     ExecutionReport(SoldReport(OrderFilled), 1, oracle), ExecutionReport(SoldReport(OrderPartiallyFilled), 2, oracle)]
  }

  lemma TwoTrades(info: ExchangeInfo, symbol: string)
    ensures var e, ev := StartEngine(info), LateFillEvents(symbol);
            var e1 := Step(e, ev[0]);
            var e2 := Step(e1, ev[1]);
            && FreshIds(e, ev[0]) && FreshIds(e1, ev[1])
            && e2.trades == map["a" := Tracked(Opened("a", "a1", symbol), []), "b" := Tracked(Opened("b", "b1", symbol), [])]
            && e2.index == map["a1" := "a", "b1" := "b"]
  {
    hide AddCount, ToLower;
  }

  lemma SaleCloses(e: Engine, status: OrderStatus, time: int)
    requires "a" in e.trades && "a1" in e.index && e.index["a1"] == "a" && "b" in e.trades && e.trades.Keys == {"a", "b"}
    requires status == OrderFilled || (status == OrderPartiallyFilled && e.trades["a"].state.status == Done)
    ensures var ev := ExecutionReport(SoldReport(status), time, SellOracle(false, None, false));
            var v := Step(e, ev);
            && v == Commit(e, "a", ReportOp(SoldReport(status), time, SellOracle(false, None, false)))
            && FreshIds(e, ev)
            && v.trades.Keys == {"a", "b"} && v.trades["a"].state.status == Done && v.trades["b"] == e.trades["b"]
            && v.trades["a"].state.symbol == e.trades["a"].state.symbol
            && "a1" in v.index && v.index["a1"] == "a"
  {
    hide RemoveCount, OnReport;
    var oracle := SellOracle(false, None, false);
    ReportStatus(e.info, e.trades["a"], SoldReport(status), time, oracle);
    ApplyAppends(e.info, e.trades["a"], ReportOp(SoldReport(status), time, oracle));
  }

  /** From the start of the service: after this run a trade of the symbol is open, and its stream is not counted. */
  lemma LateFillLosesStream(info: ExchangeInfo, symbol: string)
    ensures var e, events := StartEngine(info), LateFillEvents(symbol);
            && FreshRun(e, events)
            && OpenTrades(Run(e, events), ToLower(symbol)) == {"b"}
            && ToLower(symbol) !in Run(e, events).counts
            && ExactlyCounted(Run(e, events[..3]))
  {
    hide ToLower, Commit, Step, StatusAfterReport, AddCount, RemoveCount, FreshIds;
    var e, events := StartEngine(info), LateFillEvents(symbol);
    var e1 := Step(e, events[0]);
    var e2 := Step(e1, events[1]);
    var e3 := Step(e2, events[2]);
    var e4 := Step(e3, events[3]);
    TwoTrades(info, symbol);
    SaleCloses(e2, OrderFilled, 1);
    SaleCloses(e3, OrderPartiallyFilled, 2);
    FourSteps(e, events, e1, e2, e3, e4);
    EmptyEngineCounted(info);
    StepExactIffHarmless(e, events[0]);
    StepExactIffHarmless(e1, events[1]);
    OnlyOpen(e3, symbol);
    OnlyOpen(e4, symbol);
    FillThenLateFill(e2, e3, e4, symbol);
    FreshFour(e, events, e1, e2, e3);
  }

  lemma FreshFour(e: Engine, events: seq<Event>, e1: Engine, e2: Engine, e3: Engine)
    requires |events| == 4 && Run(e, events[..0]) == e && Run(e, events[..1]) == e1 && Run(e, events[..2]) == e2
    requires Run(e, events[..3]) == e3
    requires FreshIds(e, events[0]) && FreshIds(e1, events[1]) && FreshIds(e2, events[2]) && FreshIds(e3, events[3])
    ensures FreshRun(e, events)
  {
    hide Run, FreshIds;
    forall k | 0 <= k < |events| ensures FreshIds(Run(e, events[..k]), events[k]) {
      assert k == 0 || k == 1 || k == 2 || k == 3;
    }
  }

  lemma FillThenLateFill(e2: Engine, e3: Engine, e4: Engine, symbol: string)
    requires ExactlyCounted(e2) && "a" in e2.trades && e2.trades["a"].state.status == New
    requires var oracle := SellOracle(false, None, false);
             && e3 == Commit(e2, "a", ReportOp(SoldReport(OrderFilled), 1, oracle))
             && e4 == Commit(e3, "a", ReportOp(SoldReport(OrderPartiallyFilled), 2, oracle))
    requires "a" in e3.trades && e3.trades["a"].state.status == Done && e3.trades["a"].state.symbol == symbol
    requires OpenTrades(e3, ToLower(symbol)) == OpenTrades(e4, ToLower(symbol)) == {"b"}
    ensures ExactlyCounted(e3) && ToLower(symbol) !in e4.counts
  {
    hide ToLower, Commit, OpenTrades;
    var oracle := SellOracle(false, None, false);
    CommitExactIffHarmless(e2, "a", ReportOp(SoldReport(OrderFilled), 1, oracle));
    assert "b" in OpenTrades(e3, ToLower(symbol));
    assert !Unneeded(e3, symbol);
    assert !Harmless(e3, "a", ReportOp(SoldReport(OrderPartiallyFilled), 2, oracle));
    HarmStealsOneReference(e3, "a", ReportOp(SoldReport(OrderPartiallyFilled), 2, oracle), ToLower(symbol));
    assert RefCount(e4.counts, ToLower(symbol)) == 0;
    CommitBalance(e3, "a", ReportOp(SoldReport(OrderPartiallyFilled), 2, oracle), ToLower(symbol));
  }

  lemma FourSteps(e: Engine, events: seq<Event>, e1: Engine, e2: Engine, e3: Engine, e4: Engine)
    requires |events| == 4 && e1 == Step(e, events[0]) && e2 == Step(e1, events[1])
    requires e3 == Step(e2, events[2]) && e4 == Step(e3, events[3])
    ensures Run(e, events[..0]) == e && Run(e, events[..1]) == e1 && Run(e, events[..2]) == e2
    ensures Run(e, events[..3]) == e3 && Run(e, events) == e4
  {
    hide Step;
    RunOfPrefix(e, events, 0);
    RunOfPrefix(e, events, 1);
    RunOfPrefix(e, events, 2);
    RunOfPrefix(e, events, 3);
    assert events[..4] == events;
  }

  lemma OnlyOpen(e: Engine, symbol: string)
    requires e.trades.Keys == {"a", "b"} && e.trades["a"].state.status == Done
    requires e.trades["b"].state.status == New && e.trades["b"].state.symbol == symbol
    ensures OpenTrades(e, ToLower(symbol)) == {"b"}
  {
    hide ToLower;
  }

  // ---------- close times ----------

  ghost predicate AllTimed(e: Engine) {
    forall id | id in e.trades :: Timed(e.trades[id].state)
  }

  lemma StepTimed(e: Engine, ev: Event)
    requires AllTimed(e) && (ev.RestoreTrade? ==> Timed(ev.state))
    ensures AllTimed(Step(e, ev))
  {
    hide Apply, OnTick, UpdateSellable;
    var v := Step(e, ev);
    forall id | id in v.trades ensures Timed(v.trades[id].state) {
      match ev
      case RestoreTrade(s) => SellableFrame(e.info, s);
      case ExecutionReport(r, time, oracle) => ApplyReleases(e.info, e.trades[id], ReportOp(r, time, oracle));
      case LastTrade(symbol, price, oracles) => TickOnlyOrders(e.trades[id], symbol, price, oracles(id));
      case OnTrade(target, c) => if target == id { ApplyReleases(e.info, e.trades[id], CommandOp(c)); }
      case _ =>
    }
  }

  /** In every run each closed trade has a close time, if the restored ones had. */
  lemma {:induction false} ClosedTradesAreTimed(e: Engine, events: seq<Event>)
    requires AllTimed(e)
    requires forall k | 0 <= k < |events| :: events[k].RestoreTrade? ==> Timed(events[k].state)
    ensures AllTimed(Run(e, events))
  {
    hide Step, AllTimed, Timed;
    if events != [] {
      ClosedTradesAreTimed(e, events[..|events| - 1]);
      StepTimed(Run(e, events[..|events| - 1]), events[|events| - 1]);
    }
  }

  lemma EmptyEngineCounted(info: ExchangeInfo)
    ensures var e := StartEngine(info);
            ExactlyCounted(e) && NotOvercounted(e) && AllTimed(e)
  {
    var e := StartEngine(info);
    assert forall name :: OpenTrades(e, name) == {};
  }

  /** From the start of the service: no stream is ever held that no open trade needs, every closed trade has a close
      time, and the counts are exact all along if and only if every step is harmless. */
  lemma CountsFromStart(info: ExchangeInfo, events: seq<Event>)
    requires FreshRun(StartEngine(info), events)
    ensures var e := StartEngine(info);
            && NotOvercounted(Run(e, events))
            && (ExactThroughout(e, events) <==> HarmlessRun(e, events))
            && ((forall k | 0 <= k < |events| :: events[k].RestoreTrade? ==> Timed(events[k].state)) ==>
                  AllTimed(Run(e, events)))
  {
    hide *;
    var e := StartEngine(info);
    EmptyEngineCounted(info);
    NoStreamHeldForNothing(e, events);
    ExactIffHarmless(e, events);
    if forall k | 0 <= k < |events| :: events[k].RestoreTrade? ==> Timed(events[k].state) {
      ClosedTradesAreTimed(e, events);
    }
  }
}
