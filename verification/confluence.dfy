/** Execution reports arrive out of order; the trade they leave behind does not depend on the order, as far as the
    code achieves that. */
module Confluence {
  import opened Numbers
  import opened Fills
  import opened TradeModel
  import opened Pricing
  import opened TradeOps
  import opened TradeLaws
  import PriceLaws
  import RequestLaws

  // ---------- reports of one order ----------

  predicate Progress(op: Op, side: OrderSide) {
    op.ReportOp? && op.report.side == side
    && (op.report.status == OrderNew || op.report.status == OrderPartiallyFilled || op.report.status == OrderFilled)
  }

  ghost predicate AllProgress(ops: seq<Op>, side: OrderSide) {
    forall i | 0 <= i < |ops| :: Progress(ops[i], side)
  }

  predicate IsFill(op: Op) {
    op.ReportOp? && (op.report.status == OrderPartiallyFilled || op.report.status == OrderFilled)
  }

  /** Some report of the run carries this status. */
  ghost predicate Saw(ops: seq<Op>, status: OrderStatus) {
    exists op :: op in ops && op.ReportOp? && op.report.status == status
  }

  /** The fills of the reports, in order of arrival. */
  function ReportFills(ops: seq<Op>): seq<OrderFill> {
    if ops == [] then []
    else
      var n := |ops| - 1;
      ReportFills(ops[..n]) + if IsFill(ops[n]) then [ReportFill(ops[n].report)] else []
  }

  lemma {:induction false} ReportFillsConcat(a: seq<Op>, b: seq<Op>)
    ensures ReportFills(a + b) == ReportFills(a) + ReportFills(b)
  {
    if b == [] {
      assert a + b == a;
    } else {
      var n := |b| - 1;
      ReportFillsConcat(a, b[..n]);
      assert (a + b)[..|a + b| - 1] == a + b[..n];
    }
  }

  lemma TakeOut(ops: seq<Op>, x: Op) returns (rest: seq<Op>)
    requires x in ops
    ensures multiset(ops) == multiset(rest) + multiset{x}
    ensures multiset(ReportFills(ops)) == multiset(ReportFills(rest)) + multiset(ReportFills([x]))
  {
    hide ReportFills;
    var i :| 0 <= i < |ops| && ops[i] == x;
    rest := ops[..i] + ops[i + 1..];
    assert ops == ops[..i] + [x] + ops[i + 1..];
    ReportFillsConcat(ops[..i], ops[i + 1..]);
    ReportFillsConcat(ops[..i] + [x], ops[i + 1..]);
    ReportFillsConcat(ops[..i], [x]);
  }

  lemma {:induction false} ReportFillsPermutation(a: seq<Op>, b: seq<Op>)
    requires multiset(a) == multiset(b)
    ensures multiset(ReportFills(a)) == multiset(ReportFills(b))
    decreases |a|
  {
    if a == [] {
      assert |b| == |multiset(b)| == 0;
    } else {
      hide *;
      var before, x := a[..|a| - 1], a[|a| - 1];
      assert a == before + [x];
      assert x in multiset(b);
      var rest := TakeOut(b, x);
      assert multiset(before) == multiset(a) - multiset{x} == multiset(rest);
      ReportFillsPermutation(before, rest);
      ReportFillsConcat(before, [x]);
    }
  }

  lemma PermutationMembers(a: seq<Op>, b: seq<Op>)
    requires multiset(a) == multiset(b)
    ensures forall op :: op in a <==> op in b
  {
    forall op ensures op in a <==> op in b {
      assert op in a <==> op in multiset(a);
      assert op in b <==> op in multiset(b);
    }
  }

  lemma AllProgressMembers(a: seq<Op>, b: seq<Op>, side: OrderSide)
    requires multiset(a) == multiset(b) && AllProgress(a, side)
    ensures AllProgress(b, side)
  {
    PermutationMembers(a, b);
    forall i | 0 <= i < |b| ensures Progress(b[i], side) {
      assert b[i] in a;
    }
  }

  lemma SawLast(ops: seq<Op>, status: OrderStatus)
    requires ops != [] && ops[|ops| - 1].ReportOp?
    ensures Saw(ops, status) <==> Saw(ops[..|ops| - 1], status) || ops[|ops| - 1].report.status == status
  {
    var n := |ops| - 1;
    assert ops == ops[..n] + [ops[n]];
    if Saw(ops[..n], status) {
      var op :| op in ops[..n] && op.ReportOp? && op.report.status == status;
      assert op in ops;
    }
    if ops[n].report.status == status { assert ops[n] in ops; }
  }

  // ---------- buy side: one report ----------

  /** Reports on the trade have neither closed it nor will trigger a limit sell. */
  predicate Buying(s: TradeState) {
    !s.limitSell.enabled && !ReportCloses(s)
  }

  /** The part of the state buy reports do not touch. */
  predicate SameOutsideBuy(s: TradeState, u: TradeState) {
    u == s.(openTime := u.openTime, buyOrder := u.buyOrder, buyOrderId := u.buyOrderId, status := u.status,
            lastBuyStatus := u.lastBuyStatus, buyFills := u.buyFills, averageBuyPrice := u.averageBuyPrice,
            buyFillQuantity := u.buyFillQuantity, buyCost := u.buyCost, effectiveBuyPrice := u.effectiveBuyPrice,
            fee := u.fee, sellableQuantity := u.sellableQuantity)
  }

  lemma OutsideTransitive(s: TradeState, u: TradeState, v: TradeState)
    requires SameOutsideBuy(s, u) && SameOutsideBuy(u, v)
    ensures SameOutsideBuy(s, v) && v.limitSell == s.limitSell
  {
  }

  lemma BuyFillOutside(info: ExchangeInfo, s: TradeState, r: Report)
    ensures SameOutsideBuy(s, OnBuyFill(info, s, r))
    ensures OnBuyFill(info, s, r).status == s.status && OnBuyFill(info, s, r).lastBuyStatus == s.lastBuyStatus
    ensures SameBuyTerms(s, OnBuyFill(info, s, r))
  {
    hide Sum, Round8, FixQuantityToStepSize;
  }

  predicate SameBuyTerms(s: TradeState, u: TradeState) {
    s.openTime == u.openTime && s.buyOrder == u.buyOrder && s.buyOrderId == u.buyOrderId
  }

  predicate TermsOf(op: Op, u: TradeState)
    requires op.ReportOp?
  {
    && u.openTime == op.time && u.buyOrderId == op.report.orderId
    && u.buyOrder == OrderTerms(op.report.quantity, op.report.price)
  }

  function StatusAfterBuy(status: TradeStatus, filled: bool, accepted: bool): TradeStatus {
    if filled then Watching else if accepted && status == New then PendingBuy else status
  }

  function LastBuyAfter(last: OrderStatus, filled: bool, partial: bool, accepted: bool): OrderStatus {
    if filled || last == OrderFilled then OrderFilled
    else if partial then OrderPartiallyFilled
    else if accepted && last == Unset then OrderNew
    else last
  }

  lemma BuyStep(info: ExchangeInfo, t: Tracked, op: Op)
    requires Buying(t.state) && Progress(op, Buy)
    ensures var s, u, st := t.state, Apply(info, t, op), op.report.status;
            && u.sent == t.sent
            && SameOutsideBuy(s, u.state)
            && u.state.status == StatusAfterBuy(s.status, st == OrderFilled, st == OrderNew)
            && u.state.lastBuyStatus ==
                 LastBuyAfter(s.lastBuyStatus, st == OrderFilled, st == OrderPartiallyFilled, st == OrderNew)
            && (if st == OrderNew then TermsOf(op, u.state) else SameBuyTerms(s, u.state))
            && (if st == OrderNew then SameBooks(s, u.state) && s.sellableQuantity == u.state.sellableQuantity
                else FilledFrom(info, s, u.state, op.report))
  {
    hide OnBuyFill, Sum, Round8;
    var s, r := t.state, op.report;
    if IsFill(op) {
      var s0 := if r.status == OrderFilled || s.lastBuyStatus == OrderFilled then s
                else s.(lastBuyStatus := OrderPartiallyFilled);
      BuyFillOutside(info, s0, r);
      BuyFillBooks(info, s0, r);
    }
  }

  /** `u` has one more fill than `s`, and the quantities this fill calls for. */
  predicate FilledFrom(info: ExchangeInfo, s: TradeState, u: TradeState, r: Report) {
    && u.buyFills == s.buyFills + [ReportFill(r)]
    && BuySettled(u)
    && u.sellableQuantity == SellableFor(info, s.sellableQuantity, s.symbol, r.commissionAsset, u.buyFillQuantity)
  }

  /** The sellable quantity when the last commission was paid in `asset`. */
  function SellableFor(info: ExchangeInfo, before: real, symbol: string, asset: string, bought: real): real {
    if asset == BNB then bought
    else if asset != "" && symbol in info then FixQuantityToStepSize(bought, info[symbol].stepSize)
    else before
  }

  lemma BuyFillBooks(info: ExchangeInfo, s: TradeState, r: Report)
    ensures forall u | SameBooks(OnBuyFill(info, s, r), u) && u.sellableQuantity == OnBuyFill(info, s, r).sellableQuantity
              :: FilledFrom(info, s, u, r)
  {
    hide Sum, Round8, FixQuantityToStepSize;
  }

  // ---------- buy side: a run of reports ----------

  /** Both are BNB, both are empty, or neither: fees and lot sizes make no other distinction. */
  predicate AlikeAssets(a: string, b: string) {
    (a == BNB <==> b == BNB) && (a == "" <==> b == "")
  }

  /** All fills pay their commission in assets like this one. */
  ghost predicate PaidIn(fills: seq<OrderFill>, asset: string) {
    forall i | 0 <= i < |fills| :: AlikeAssets(fills[i].commissionAsset, asset)
  }

  /** At most one distinct NEW report. */
  ghost predicate OneNew(ops: seq<Op>) {
    forall a, b | a in ops && b in ops && a.ReportOp? && b.ReportOp? && a.report.status == b.report.status == OrderNew ::
      a == b
  }

  /** Everything about the outcome that is neither an aggregate nor an order term, in terms of which reports were
      seen. */
  ghost predicate BuyOutcome(s: TradeState, ops: seq<Op>, u: TradeState) {
    && SameOutsideBuy(s, u)
    && u.status == StatusAfterBuy(s.status, Saw(ops, OrderFilled), Saw(ops, OrderNew))
    && u.lastBuyStatus ==
         LastBuyAfter(s.lastBuyStatus, Saw(ops, OrderFilled), Saw(ops, OrderPartiallyFilled), Saw(ops, OrderNew))
    && u.buyFills == s.buyFills + ReportFills(ops)
  }

  /** What one buy report changes, aggregates and order terms aside. */
  predicate BuyStepped(s: TradeState, op: Op, u: TradeState)
    requires Progress(op, Buy)
  {
    var st := op.report.status;
    && SameOutsideBuy(s, u)
    && u.status == StatusAfterBuy(s.status, st == OrderFilled, st == OrderNew)
    && u.lastBuyStatus == LastBuyAfter(s.lastBuyStatus, st == OrderFilled, st == OrderPartiallyFilled, st == OrderNew)
    && u.buyFills == s.buyFills + if IsFill(op) then [ReportFill(op.report)] else []
  }

  lemma BuySteps(info: ExchangeInfo, t: Tracked, op: Op)
    requires Buying(t.state) && Progress(op, Buy)
    ensures Apply(info, t, op).sent == t.sent
    ensures BuyStepped(t.state, op, Apply(info, t, op).state) && Buying(Apply(info, t, op).state)
  {
    hide Apply, UpdateBuy;
    BuyStep(info, t, op);
    OutsideTransitive(t.state, t.state, Apply(info, t, op).state);
  }

  lemma OutcomeStep(s: TradeState, ops: seq<Op>, m: TradeState, u: TradeState)
    requires ops != [] && Progress(ops[|ops| - 1], Buy)
    requires BuyOutcome(s, ops[..|ops| - 1], m) && BuyStepped(m, ops[|ops| - 1], u)
    ensures BuyOutcome(s, ops, u)
  {
    hide Saw, SameOutsideBuy;
    SawLast(ops, OrderNew);
    SawLast(ops, OrderPartiallyFilled);
    SawLast(ops, OrderFilled);
    OutsideTransitive(s, m, u);
  }

  lemma {:induction false} BuyRun(info: ExchangeInfo, t: Tracked, ops: seq<Op>)
    requires Buying(t.state) && AllProgress(ops, Buy)
    ensures var u := RunOps(info, t, ops);
            u.sent == t.sent && BuyOutcome(t.state, ops, u.state) && Buying(u.state)
  {
    if ops == [] {
      assert forall st :: !Saw(ops, st);
    } else {
      hide Apply, BuyOutcome, BuyStepped, Buying;
      var n := |ops| - 1;
      BuyRun(info, t, ops[..n]);
      BuySteps(info, RunOps(info, t, ops[..n]), ops[n]);
      OutcomeStep(t.state, ops, RunOps(info, t, ops[..n]).state, RunOps(info, t, ops).state);
    }
  }

  /** The order terms are those of a NEW report, if one was seen. */
  ghost predicate BuyTerms(s: TradeState, ops: seq<Op>, u: TradeState) {
    if Saw(ops, OrderNew)
    then exists op :: op in ops && op.ReportOp? && op.report.status == OrderNew && TermsOf(op, u)
    else SameBuyTerms(s, u)
  }

  lemma {:induction false} BuyRunTerms(info: ExchangeInfo, t: Tracked, ops: seq<Op>)
    requires Buying(t.state) && AllProgress(ops, Buy)
    ensures BuyTerms(t.state, ops, RunOps(info, t, ops).state)
  {
    if ops != [] {
      hide Apply, SameBooks, FilledFrom, SameOutsideBuy, Saw;
      var n := |ops| - 1;
      var before, after := RunOps(info, t, ops[..n]), RunOps(info, t, ops);
      BuyRun(info, t, ops[..n]);
      BuyRunTerms(info, t, ops[..n]);
      BuyStep(info, before, ops[n]);
      SawLast(ops, OrderNew);
      if ops[n].report.status == OrderNew {
        assert ops[n] in ops && TermsOf(ops[n], after.state);
      } else if Saw(ops[..n], OrderNew) {
        var op :| op in ops[..n] && op.ReportOp? && op.report.status == OrderNew && TermsOf(op, before.state);
        assert op in ops && TermsOf(op, after.state);
      }
    }
  }

  /** What the aggregates are after at least one fill in `asset`, respectively none. */
  predicate BuyBooks(info: ExchangeInfo, s: TradeState, fills: seq<OrderFill>, asset: string, u: TradeState) {
    if fills == [] then SameBooks(s, u) && u.sellableQuantity == s.sellableQuantity
    else && BuySettled(u)
         && u.sellableQuantity == SellableFor(info, s.sellableQuantity, s.symbol, asset, u.buyFillQuantity)
  }

  lemma BooksStep(info: ExchangeInfo, s: TradeState, ops: seq<Op>, asset: string, m: TradeState, u: TradeState)
    requires ops != [] && Progress(ops[|ops| - 1], Buy) && PaidIn(ReportFills(ops), asset)
    requires BuyBooks(info, s, ReportFills(ops[..|ops| - 1]), asset, m) && m.symbol == s.symbol
    requires var op := ops[|ops| - 1];
             if IsFill(op) then FilledFrom(info, m, u, op.report)
             else SameBooks(m, u) && m.sellableQuantity == u.sellableQuantity
    ensures BuyBooks(info, s, ReportFills(ops), asset, u)
  {
    hide FixQuantityToStepSize, UpdateBuy;
    var op := ops[|ops| - 1];
    if IsFill(op) {
      assert AlikeAssets(ReportFills(ops)[|ReportFills(ops)| - 1].commissionAsset, asset);
    } else {
      SameBuyBooksSettled(m, u);
    }
  }

  lemma {:induction false} BuyRunBooks(info: ExchangeInfo, t: Tracked, ops: seq<Op>, asset: string)
    requires Buying(t.state) && AllProgress(ops, Buy) && PaidIn(ReportFills(ops), asset)
    ensures BuyBooks(info, t.state, ReportFills(ops), asset, RunOps(info, t, ops).state)
  {
    if ops != [] {
      hide Apply, BuyBooks, FilledFrom, SameBooks;
      var n := |ops| - 1;
      var earlier := ReportFills(ops[..n]);
      assert forall i | 0 <= i < |earlier| :: earlier[i] == ReportFills(ops)[i];
      BuyRunBooks(info, t, ops[..n], asset);
      BuyRun(info, t, ops[..n]);
      BuyStep(info, RunOps(info, t, ops[..n]), ops[n]);
      BooksStep(info, t.state, ops, asset, RunOps(info, t, ops[..n]).state, RunOps(info, t, ops).state);
    }
  }

  lemma SameBuyBooksSettled(s: TradeState, u: TradeState)
    requires SameBooks(s, u)
    ensures BuySettled(s) ==> BuySettled(u)
  {
    hide Sum, Round8;
  }

  /** Confluence of the reports that trigger no limit sell. */
  lemma QuietConfluence(info: ExchangeInfo, t: Tracked, ops: seq<Op>, reordered: seq<Op>, asset: string)
    requires Buying(t.state) && AllProgress(ops, Buy) && multiset(ops) == multiset(reordered)
    requires OneNew(ops) && PaidIn(ReportFills(ops), asset)
    requires Sum(t.state.buyFills + ReportFills(ops), Received) > 0.0
    ensures var u, v := RunOps(info, t, ops), RunOps(info, t, reordered);
            && u.sent == v.sent == t.sent
            && multiset(u.state.buyFills) == multiset(v.state.buyFills)
            && v.state.(buyFills := u.state.buyFills) == u.state
            && (Saw(ops, OrderFilled) ==> u.state.status == Watching && u.state.lastBuyStatus == OrderFilled)
            && (ReportFills(ops) != [] ==> BuySettled(u.state))
  {
    hide RunOps, SameBooks, UpdateBuy;
    var u, v := RunOps(info, t, ops).state, RunOps(info, t, reordered).state;
    AllProgressMembers(ops, reordered, Buy);
    PermutationMembers(ops, reordered);
    ReportFillsPermutation(ops, reordered);
    PaidPermutation(ReportFills(ops), ReportFills(reordered), asset);
    BuyRun(info, t, ops);
    BuyRun(info, t, reordered);
    SawPermutation(ops, reordered);
    BuyRunBooks(info, t, ops, asset);
    BuyRunBooks(info, t, reordered, asset);
    BuyRunTerms(info, t, ops);
    BuyRunTerms(info, t, reordered);
    SameAggregates(info, t.state, ReportFills(ops), ReportFills(reordered), asset, u, v);
  }

  lemma SameAggregates(info: ExchangeInfo, s: TradeState, f: seq<OrderFill>, g: seq<OrderFill>, asset: string,
                       u: TradeState, v: TradeState)
    requires multiset(f) == multiset(g) && PaidIn(f, asset) && PaidIn(g, asset)
    requires u.buyFills == s.buyFills + f && v.buyFills == s.buyFills + g
    requires Sum(s.buyFills + f, Received) > 0.0
    requires BuyBooks(info, s, f, asset, u) && BuyBooks(info, s, g, asset, v)
    ensures multiset(u.buyFills) == multiset(v.buyFills)
    ensures u.averageBuyPrice == v.averageBuyPrice && u.buyFillQuantity == v.buyFillQuantity
    ensures u.buyCost == v.buyCost && u.effectiveBuyPrice == v.effectiveBuyPrice && u.fee == v.fee
    ensures u.sellableQuantity == v.sellableQuantity
  {
    assert f == [] <==> g == [] by { assert |multiset(f)| == |f| && |multiset(g)| == |g|; }
    if f != [] {
      hide UpdateBuy, FixQuantityToStepSize;
      BuyAggregatesOfPermutation(u, v);
    }
  }

  lemma PaidPermutation(f: seq<OrderFill>, g: seq<OrderFill>, asset: string)
    requires multiset(f) == multiset(g) && PaidIn(f, asset)
    ensures PaidIn(g, asset)
  {
    forall i | 0 <= i < |g| ensures AlikeAssets(g[i].commissionAsset, asset) {
      assert g[i] in multiset(f);
      var k :| 0 <= k < |f| && f[k] == g[i];
    }
  }

  lemma SawPermutation(a: seq<Op>, b: seq<Op>)
    requires multiset(a) == multiset(b)
    ensures forall st :: Saw(a, st) <==> Saw(b, st)
  {
    PermutationMembers(a, b);
  }

  // ---------- buy side: the limit sell ----------

  /** The trade with its limit sell switched off. */
  function Quiet(t: Tracked): Tracked {
    t.(state := t.state.(limitSell := t.state.limitSell.(enabled := false)))
  }

  /** The states differ in the limit sell and in the client IDs at most. */
  predicate SameButSale(s: TradeState, u: TradeState) {
    u == s.(limitSell := u.limitSell, clientOrderIds := u.clientOrderIds)
  }

  predicate SameSaleSettings(a: LimitSell, b: LimitSell) {
    && a.enabled == b.enabled && a.kind == b.kind && a.percent == b.percent
    && (a.kind == ByPrice ==> a.price == b.price)
    && (!a.enabled ==> a == b)
  }

  /** The FILLED report files a sell order under this ID. */
  predicate FilesSale(info: ExchangeInfo, s: TradeState, op: Op) {
    && op.ReportOp? && op.report.status == OrderFilled && op.oracle.newId.Some? && s.limitSell.enabled
    && (s.limitSell.kind == ByPrice || (s.limitSell.kind == ByPercent && s.symbol in info))
  }

  function SaleIds(info: ExchangeInfo, s: TradeState, op: Op): set<string> {
    if FilesSale(info, s, op) then {op.oracle.newId.value} else {}
  }

  /** What the report sends: the limit sell, if it is the FILLED one, for the trade as the fills so far leave it. */
  function SaleSentBy(info: ExchangeInfo, s: TradeState, limitSell: LimitSell, op: Op): seq<Effect> {
    if op.ReportOp? && op.report.status == OrderFilled
    then RequestLaws.LimitSaleOf(info, s.(limitSell := limitSell), op.oracle.newId)
    else []
  }

  lemma FillIgnoresSale(info: ExchangeInfo, s: TradeState, u: TradeState, r: Report)
    requires SameButSale(s, u)
    ensures var v, w := OnBuyFill(info, s, r), OnBuyFill(info, u, r);
            && w == v.(limitSell := u.limitSell, clientOrderIds := u.clientOrderIds)
            && v.limitSell == s.limitSell && v.clientOrderIds == s.clientOrderIds
  {
    hide Sum, Round8, FixQuantityToStepSize;
  }

  lemma SalesIgnoreIds(info: ExchangeInfo, s: TradeState, u: TradeState, newId: Option<string>)
    requires SameButSale(s, u) && SameSaleSettings(s.limitSell, u.limitSell)
    ensures RequestLaws.LimitSaleOf(info, s, newId) == RequestLaws.LimitSaleOf(info, u, newId)
  {
    hide Roundx, Quotient;
  }

  lemma TriggerSale(info: ExchangeInfo, t: Tracked, oracle: SellOracle)
    ensures var u := TriggerLimitSell(info, t, oracle);
            && SameButSale(t.state, u.state) && SameSaleSettings(t.state.limitSell, u.state.limitSell)
            && u.sent == t.sent + RequestLaws.LimitSaleOf(info, t.state, oracle.newId)
            && u.state.clientOrderIds ==
                 t.state.clientOrderIds
                 + if oracle.newId.Some? && t.state.limitSell.enabled
                      && (t.state.limitSell.kind == ByPrice
                          || (t.state.limitSell.kind == ByPercent && t.state.symbol in info))
                   then {oracle.newId.value} else {}
  {
    RequestLaws.LimitSellSends(info, t, oracle);
    hide LimitSellPrice, RequestLaws.LimitSaleOf;
  }

  /** Limit sell or not, a buy report does the same to everything else. */
  predicate SaleStepped(info: ExchangeInfo, t: Tracked, q: Tracked, op: Op, u: Tracked, w: Tracked) {
    && SameButSale(u.state, w.state) && w.sent == q.sent && w.state.limitSell == q.state.limitSell
    && SameSaleSettings(t.state.limitSell, u.state.limitSell)
    && u.state.clientOrderIds == t.state.clientOrderIds + SaleIds(info, t.state, op)
    && u.sent == t.sent + SaleSentBy(info, w.state, t.state.limitSell, op)
  }

  lemma FilledSaleStep(info: ExchangeInfo, t: Tracked, q: Tracked, op: Op)
    requires Progress(op, Buy) && op.report.status == OrderFilled
    requires SameButSale(t.state, q.state) && !q.state.limitSell.enabled
    ensures SaleStepped(info, t, q, op, Apply(info, t, op), Apply(info, q, op))
  {
    hide OnBuyFill, RequestLaws.LimitSaleOf, TriggerLimitSell;
    var r := op.report;
    FillIgnoresSale(info, t.state, q.state, r);
    var filled := t.(state := OnBuyFill(info, t.state, r).(status := Watching, lastBuyStatus := OrderFilled));
    var quiet := q.(state := OnBuyFill(info, q.state, r).(status := Watching, lastBuyStatus := OrderFilled));
    BuyFillOutside(info, t.state, r);
    TriggerSale(info, filled, op.oracle);
    QuietTrigger(info, quiet, op.oracle);
    SalesIgnoreIds(info, filled.state, quiet.state.(limitSell := t.state.limitSell), op.oracle.newId);
  }

  lemma QuietTrigger(info: ExchangeInfo, t: Tracked, oracle: SellOracle)
    requires !t.state.limitSell.enabled
    ensures TriggerLimitSell(info, t, oracle) == t
  {
  }

  lemma NewSaleStep(info: ExchangeInfo, t: Tracked, q: Tracked, op: Op)
    requires Progress(op, Buy) && op.report.status == OrderNew
    requires SameButSale(t.state, q.state) && !q.state.limitSell.enabled
    ensures SaleStepped(info, t, q, op, Apply(info, t, op), Apply(info, q, op))
  {
  }

  lemma PartialSaleStep(info: ExchangeInfo, t: Tracked, q: Tracked, op: Op)
    requires Progress(op, Buy) && op.report.status == OrderPartiallyFilled
    requires SameButSale(t.state, q.state) && !q.state.limitSell.enabled
    ensures SaleStepped(info, t, q, op, Apply(info, t, op), Apply(info, q, op))
  {
    hide OnBuyFill;
    var s, u := t.state, q.state;
    var last := if s.lastBuyStatus != OrderFilled then OrderPartiallyFilled else s.lastBuyStatus;
    FillIgnoresSale(info, s.(lastBuyStatus := last), u.(lastBuyStatus := last), op.report);
  }

  lemma SaleStep(info: ExchangeInfo, t: Tracked, q: Tracked, op: Op)
    requires Progress(op, Buy) && SameButSale(t.state, q.state) && !q.state.limitSell.enabled
    ensures SaleStepped(info, t, q, op, Apply(info, t, op), Apply(info, q, op))
  {
    hide Apply, SaleStepped, SameButSale;
    match op.report.status
    case OrderNew => NewSaleStep(info, t, q, op);
    case OrderPartiallyFilled => PartialSaleStep(info, t, q, op);
    case OrderFilled => FilledSaleStep(info, t, q, op);
  }

  /** The client IDs the limit sells of a run register. */
  ghost function AllSaleIds(info: ExchangeInfo, s: TradeState, ops: seq<Op>): set<string> {
    set op | op in ops && FilesSale(info, s, op) :: op.oracle.newId.value
  }

  lemma AllSaleIdsLast(info: ExchangeInfo, s: TradeState, ops: seq<Op>)
    requires ops != []
    ensures AllSaleIds(info, s, ops) == AllSaleIds(info, s, ops[..|ops| - 1]) + SaleIds(info, s, ops[|ops| - 1])
  {
    assert ops == ops[..|ops| - 1] + [ops[|ops| - 1]];
  }

  lemma SameSettingsFile(info: ExchangeInfo, s: TradeState, u: TradeState, op: Op)
    requires SameSaleSettings(s.limitSell, u.limitSell) && s.symbol == u.symbol
    ensures SaleIds(info, s, op) == SaleIds(info, u, op)
  {
  }

  /** A run with the limit sell on is the run with it off, plus what the limit sell registers. */
  lemma {:induction false} SaleRun(info: ExchangeInfo, t: Tracked, ops: seq<Op>)
    requires AllProgress(ops, Buy)
    ensures var u, w := RunOps(info, t, ops), RunOps(info, Quiet(t), ops);
            && SameButSale(u.state, w.state) && !w.state.limitSell.enabled
            && w.state.limitSell == Quiet(t).state.limitSell
            && SameSaleSettings(t.state.limitSell, u.state.limitSell) && u.state.symbol == t.state.symbol
            && u.state.clientOrderIds == t.state.clientOrderIds + AllSaleIds(info, t.state, ops)
            && (!t.state.limitSell.enabled ==> u.sent == t.sent)
  {
    if ops == [] {
      assert AllSaleIds(info, t.state, ops) == {};
    } else {
      hide Apply, SaleIds, RequestLaws.LimitSaleOf, FilesSale, AllSaleIds;
      var n := |ops| - 1;
      var u, w := RunOps(info, t, ops[..n]), RunOps(info, Quiet(t), ops[..n]);
      SaleRun(info, t, ops[..n]);
      SaleStep(info, u, w, ops[n]);
      ApplyAppends(info, u, ops[n]);
      AllSaleIdsLast(info, t.state, ops);
      SameSettingsFile(info, t.state, u.state, ops[n]);
      SilentSale(info, RunOps(info, Quiet(t), ops).state, u.state.limitSell, ops[n]);
    }
  }

  lemma SilentSale(info: ExchangeInfo, s: TradeState, limitSell: LimitSell, op: Op)
    ensures !limitSell.enabled ==> SaleSentBy(info, s, limitSell, op) == []
  {
  }

  /** The trade is the same up to the order of its buy fills and the price its limit sell got. */
  ghost predicate SameOutcome(u: TradeState, v: TradeState) {
    multiset(u.buyFills) == multiset(v.buyFills) && u == v.(buyFills := u.buyFills, limitSell := u.limitSell)
  }

  /** Buy-side confluence.  For every reordering of the reports of a buy order whose fills pay their commission in
      assets of one kind and deliver something in total, the trade ends in the same state, up to the order of its
      fills and the price of a limit sell it triggered; with a FILLED report among them that state is WATCHING. */
  lemma BuyConfluence(info: ExchangeInfo, t: Tracked, ops: seq<Op>, reordered: seq<Op>, asset: string)
    requires !ReportCloses(t.state) && AllProgress(ops, Buy) && multiset(ops) == multiset(reordered)
    requires OneNew(ops) && PaidIn(ReportFills(ops), asset)
    requires Sum(t.state.buyFills + ReportFills(ops), Received) > 0.0
    ensures var u, v := RunOps(info, t, ops), RunOps(info, t, reordered);
            && SameOutcome(u.state, v.state)
            && SameSaleSettings(u.state.limitSell, v.state.limitSell)
            && (!t.state.limitSell.enabled ==> u.sent == v.sent == t.sent)
            && (Saw(ops, OrderFilled) ==> u.state.status == Watching && u.state.lastBuyStatus == OrderFilled)
            && (ReportFills(ops) != [] ==> BuySettled(u.state))
  {
    hide RunOps, UpdateBuy, ReportFills, Saw, AllSaleIds;
    AllProgressMembers(ops, reordered, Buy);
    PermutationMembers(ops, reordered);
    QuietConfluence(info, Quiet(t), ops, reordered, asset);
    SaleRun(info, t, ops);
    SaleRun(info, t, reordered);
    SameSaleIds(info, t.state, ops, reordered);
    SaleKeepsBooks(RunOps(info, t, ops).state, RunOps(info, Quiet(t), ops).state);
  }

  lemma SameSaleIds(info: ExchangeInfo, s: TradeState, a: seq<Op>, b: seq<Op>)
    requires forall op :: op in a <==> op in b
    ensures AllSaleIds(info, s, a) == AllSaleIds(info, s, b)
  {
  }

  lemma SaleKeepsBooks(u: TradeState, w: TradeState)
    requires SameButSale(u, w)
    ensures BuySettled(w) ==> BuySettled(u)
  {
    hide Sum, Round8;
  }

  /** Report `k` of the run is its only FILLED report. */
  predicate OnlyFilled(ops: seq<Op>, k: nat) {
    && k < |ops| && ops[k].ReportOp? && ops[k].report.status == OrderFilled
    && (forall i | 0 <= i < |ops| && i != k :: ops[i].ReportOp? && ops[i].report.status != OrderFilled)
  }

  lemma {:induction false} NothingSentBeforeFilled(info: ExchangeInfo, t: Tracked, ops: seq<Op>)
    requires AllProgress(ops, Buy) && forall i | 0 <= i < |ops| :: ops[i].report.status != OrderFilled
    ensures RunOps(info, t, ops).sent == t.sent
  {
    if ops != [] {
      hide Apply, SameButSale;
      var n := |ops| - 1;
      SaleRun(info, t, ops[..n]);
      SaleStep(info, RunOps(info, t, ops[..n]), RunOps(info, Quiet(t), ops[..n]), ops[n]);
      NothingSentBeforeFilled(info, t, ops[..n]);
    }
  }

  /** The limit sell is asked for when the FILLED report arrives, for the trade as the reports up to it leave it. */
  lemma {:induction false} SentOnFilled(info: ExchangeInfo, t: Tracked, ops: seq<Op>, k: nat)
    requires AllProgress(ops, Buy) && OnlyFilled(ops, k)
    ensures var m := RunOps(info, Quiet(t), ops[..k + 1]).state.(limitSell := t.state.limitSell);
            RunOps(info, t, ops).sent == t.sent + RequestLaws.LimitSaleOf(info, m, ops[k].oracle.newId)
  {
    hide Apply, RequestLaws.LimitSaleOf, SameButSale;
    var n := |ops| - 1;
    var u, w := RunOps(info, t, ops[..n]), RunOps(info, Quiet(t), ops[..n]);
    SaleRun(info, t, ops[..n]);
    SaleStep(info, u, w, ops[n]);
    if k == n {
      assert ops[..n + 1] == ops;
      NothingSentBeforeFilled(info, t, ops[..n]);
      SameSettingsSale(info, RunOps(info, Quiet(t), ops).state, t.state.limitSell, u.state.limitSell, ops[k].oracle.newId);
    } else {
      assert ops[..n][..k + 1] == ops[..k + 1];
      SentOnFilled(info, t, ops[..n], k);
    }
  }

  lemma SameSettingsSale(info: ExchangeInfo, s: TradeState, a: LimitSell, b: LimitSell, newId: Option<string>)
    requires SameSaleSettings(a, b)
    ensures RequestLaws.LimitSaleOf(info, s.(limitSell := a), newId)
         == RequestLaws.LimitSaleOf(info, s.(limitSell := b), newId)
  {
    SalesIgnoreIds(info, s.(limitSell := a), s.(limitSell := b), newId);
  }

  /** How many lots of the step fit, or the quantity itself where no step applies. */
  function Lots(info: ExchangeInfo, symbol: string, asset: string, bought: real): real {
    if asset != BNB && symbol in info then (bought / info[symbol].stepSize).Floor as real else bought
  }

  lemma SameLots(info: ExchangeInfo, before: real, symbol: string, asset: string, a: real, b: real)
    requires asset == BNB || (asset != "" && symbol in info)
    ensures SellableFor(info, before, symbol, asset, a) == SellableFor(info, before, symbol, asset, b)
            <==> Lots(info, symbol, asset, a) == Lots(info, symbol, asset, b)
  {
    if asset != BNB {
      var step := info[symbol].stepSize;
      PriceLaws.FixQuantityIsFloor(a, step);
      PriceLaws.FixQuantityIsFloor(b, step);
      StepsOver((a / step).Floor, step);
      StepsOver((b / step).Floor, step);
    }
  }

  /** What fills deliver in total, on eight decimals. */
  function Delivered(fills: seq<OrderFill>): real {
    Round8(Sum(fills, Received))
  }

  lemma DeliveredIsBought(s: TradeState)
    requires BuySettled(s) && Sum(s.buyFills, Received) > 0.0
    ensures s.buyFillQuantity == Delivered(s.buyFills)
  {
    hide Round8;
  }

  /** The order a limit sell posts when FILLED arrives as report `k`: for the quantity the fills up to it leave to
      sell, at the price they call for.  Fills that arrive later are missing from it; it asks for everything there
      turns out to be if and only if they do not complete another lot of what the fills deliver. */
  lemma LimitSellMissesLateFills(info: ExchangeInfo, t: Tracked, ops: seq<Op>, k: nat, asset: string)
    requires !ReportCloses(t.state) && AllProgress(ops, Buy) && OnlyFilled(ops, k) && FilesSale(info, t.state, ops[k])
    requires PaidIn(ReportFills(ops), asset) && (asset == BNB || (asset != "" && t.state.symbol in info))
    ensures var s, u, m := t.state, RunOps(info, t, ops), RunOps(info, Quiet(t), ops[..k + 1]).state;
            var id, percent := ops[k].oracle.newId.value, s.limitSell.kind == ByPercent;
            && m.buyFills == s.buyFills + ReportFills(ops[..k + 1]) && BuySettled(m)
            && m.sellableQuantity == SellableFor(info, s.sellableQuantity, s.symbol, asset, m.buyFillQuantity)
            && (percent ==> s.symbol in info)
            && var order := Order(s.symbol, Sell, Limit,
                                  m.sellableQuantity - if percent then s.sellFillQuantity else 0.0,
                                  if percent then LimitSellPrice(m, info[s.symbol].tickSize, s.limitSell.percent)
                                  else s.limitSell.price, id);
               && u.sent == t.sent + [Register(id), Post(order)]
               && var everything := if percent then RequestLaws.Rest(u.state) else u.state.sellableQuantity;
                  && (order.quantity == everything
                      <==> Lots(info, s.symbol, asset, m.buyFillQuantity)
                           == Lots(info, s.symbol, asset, u.state.buyFillQuantity))
                  && var early, all := s.buyFills + ReportFills(ops[..k + 1]), s.buyFills + ReportFills(ops);
                     (Sum(early, Received) > 0.0 && Sum(all, Received) > 0.0 ==>
                        (order.quantity == everything
                         <==> Lots(info, s.symbol, asset, Delivered(early)) == Lots(info, s.symbol, asset, Delivered(all))))
  {
    hide RunOps, UpdateBuy, ReportFills, FixQuantityToStepSize, LimitSellPrice, Lots, Delivered;
    var q, upTo := Quiet(t), ops[..k + 1];
    var m, w := RunOps(info, q, upTo).state, RunOps(info, q, ops).state;
    PrefixPaid(ops, k + 1, asset);
    SentOnFilled(info, t, ops, k);
    BuyRun(info, q, upTo);
    BuyRun(info, q, ops);
    HasFill(upTo, k);
    HasFill(ops, k);
    BuyRunBooks(info, q, upTo, asset);
    BuyRunBooks(info, q, ops, asset);
    SaleRun(info, t, ops);
    SameLots(info, t.state.sellableQuantity, t.state.symbol, asset, m.buyFillQuantity, w.buyFillQuantity);
    LimitSaleOfMerged(info, m, t.state.limitSell, ops[k].oracle.newId);
    if Sum(m.buyFills, Received) > 0.0 { DeliveredIsBought(m); }
    if Sum(w.buyFills, Received) > 0.0 { DeliveredIsBought(w); }
  }

  lemma GridUnit(v: real)
    requires Decimal8(v) && v >= HALF_UNIT
    ensures v >= 2.0 * HALF_UNIT
  {
    var n := (v * 100000000.0).Floor;
    assert n as real >= 0.5;
  }

  /** Late fills in BNB, on the eight-decimal grid. */
  ghost predicate LateUnits(fills: seq<OrderFill>) {
    forall i | 0 <= i < |fills| ::
      fills[i].commissionAsset == BNB && Decimal8(fills[i].quantity) && fills[i].quantity >= HALF_UNIT
  }

  lemma {:induction false} LateSum(fills: seq<OrderFill>)
    requires LateUnits(fills)
    ensures Sum(fills, Received) >= if fills == [] then 0.0 else 2.0 * HALF_UNIT
  {
    if fills != [] {
      GridUnit(fills[|fills| - 1].quantity);
      LateSum(fills[..|fills| - 1]);
    }
  }

  /** With BNB commissions the order asks for everything if and only if no fill arrives after FILLED. */
  lemma LimitSellCompleteIffNoLateFill(info: ExchangeInfo, t: Tracked, ops: seq<Op>, k: nat)
    requires !ReportCloses(t.state) && AllProgress(ops, Buy) && OnlyFilled(ops, k) && FilesSale(info, t.state, ops[k])
    requires PaidIn(ReportFills(ops), BNB) && LateUnits(ReportFills(ops[k + 1..]))
    requires Sum(t.state.buyFills + ReportFills(ops[..k + 1]), Received) > 0.0
    ensures var s, u := t.state, RunOps(info, t, ops);
            && u.sent != [] && u.sent[|u.sent| - 1].Post?
            && (u.sent[|u.sent| - 1].order.quantity ==
                  (if s.limitSell.kind == ByPercent then RequestLaws.Rest(u.state) else u.state.sellableQuantity)
                <==> ReportFills(ops[k + 1..]) == [])
  {
    hide RunOps, ReportFills, UpdateBuy, LimitSellPrice;
    var early, late := t.state.buyFills + ReportFills(ops[..k + 1]), ReportFills(ops[k + 1..]);
    assert ops == ops[..k + 1] + ops[k + 1..];
    ReportFillsConcat(ops[..k + 1], ops[k + 1..]);
    assert t.state.buyFills + ReportFills(ops) == early + late;
    SumConcat(early, late, Received);
    LateSum(late);
    LimitSellMissesLateFills(info, t, ops, k, BNB);
    if late == [] {
      assert early + late == early;
    } else {
      Round8NextUnit(Sum(early, Received));
      Round8Monotone(Sum(early, Received) + 2.0 * HALF_UNIT, Sum(early + late, Received));
      assert Delivered(early) != Delivered(early + late);
    }
  }

  lemma LimitSaleOfMerged(info: ExchangeInfo, m: TradeState, limitSell: LimitSell, newId: Option<string>)
    requires newId.Some? && limitSell.enabled
    requires limitSell.kind == ByPrice || (limitSell.kind == ByPercent && m.symbol in info)
    ensures var percent := limitSell.kind == ByPercent;
            RequestLaws.LimitSaleOf(info, m.(limitSell := limitSell), newId) ==
            [Register(newId.value),
             Post(Order(m.symbol, Sell, Limit, m.sellableQuantity - if percent then m.sellFillQuantity else 0.0,
                        if percent then LimitSellPrice(m, info[m.symbol].tickSize, limitSell.percent)
                        else limitSell.price, newId.value))]
  {
    hide Roundx, Quotient;
  }

  lemma PrefixPaid(ops: seq<Op>, n: nat, asset: string)
    requires n <= |ops| && PaidIn(ReportFills(ops), asset)
    ensures PaidIn(ReportFills(ops[..n]), asset)
  {
    assert ops == ops[..n] + ops[n..];
    ReportFillsConcat(ops[..n], ops[n..]);
    forall i | 0 <= i < |ReportFills(ops[..n])| ensures AlikeAssets(ReportFills(ops[..n])[i].commissionAsset, asset) {
      assert ReportFills(ops)[i] == ReportFills(ops[..n])[i];
    }
  }

  lemma {:induction false} HasFill(ops: seq<Op>, k: nat)
    requires k < |ops| && IsFill(ops[k])
    ensures ReportFills(ops) != []
  {
    if k < |ops| - 1 { HasFill(ops[..|ops| - 1], k); }
  }

  // ---------- buy side: commissions in different assets ----------

  lemma {:induction false} BuyRunSettled(info: ExchangeInfo, t: Tracked, ops: seq<Op>)
    requires Buying(t.state) && AllProgress(ops, Buy) && ReportFills(ops) != []
    ensures BuySettled(RunOps(info, t, ops).state)
  {
    hide Apply, UpdateBuy, SameBooks;
    var n := |ops| - 1;
    BuyRun(info, t, ops[..n]);
    BuyStep(info, RunOps(info, t, ops[..n]), ops[n]);
    if !IsFill(ops[n]) {
      BuyRunSettled(info, t, ops[..n]);
      SameBuyBooksSettled(RunOps(info, t, ops[..n]).state, RunOps(info, t, ops).state);
    }
  }

  lemma {:induction false} FillComesFrom(ops: seq<Op>, f: OrderFill) returns (k: nat)
    requires f in ReportFills(ops)
    ensures k < |ops| && IsFill(ops[k]) && ReportFill(ops[k].report) == f
  {
    var n := |ops| - 1;
    if IsFill(ops[n]) && ReportFill(ops[n].report) == f {
      k := n;
    } else {
      k := FillComesFrom(ops[..n], f);
    }
  }

  ghost predicate OneRate(fills: seq<OrderFill>) {
    forall f, g | f in fills && g in fills :: FeeRate(f) == FeeRate(g)
  }

  ghost predicate FeeIgnoresOrder(info: ExchangeInfo, t: Tracked, ops: seq<Op>) {
    forall reordered | multiset(reordered) == multiset(ops) ::
      RunOps(info, t, reordered).state.fee == RunOps(info, t, ops).state.fee
  }

  lemma SameFillMembers(f: seq<OrderFill>, g: seq<OrderFill>)
    requires multiset(f) == multiset(g)
    ensures forall x :: x in f <==> x in g
    ensures f != [] ==> g != []
  {
    forall x ensures x in f <==> x in g {
      assert x in f <==> x in multiset(f);
      assert x in g <==> x in multiset(g);
    }
    if f != [] { assert f[0] in g; }
  }

  lemma FeeOfRun(info: ExchangeInfo, t: Tracked, ops: seq<Op>, reordered: seq<Op>)
    requires !ReportCloses(t.state) && AllProgress(ops, Buy) && ReportFills(ops) != []
    requires multiset(ops) == multiset(reordered) && Sum(t.state.buyFills + ReportFills(ops), Received) > 0.0
    ensures ReportFills(reordered) != [] && RunOps(info, t, reordered).state.fee == LastFee(ReportFills(reordered))
    ensures forall f :: f in ReportFills(reordered) <==> f in ReportFills(ops)
  {
    hide RunOps, ReportFills, SameOutsideBuy;
    AllProgressMembers(ops, reordered, Buy);
    ReportFillsPermutation(ops, reordered);
    SameFillMembers(ReportFills(ops), ReportFills(reordered));
    BuyRun(info, Quiet(t), reordered);
    BuyRunSettled(info, Quiet(t), reordered);
    var a, b := t.state.buyFills + ReportFills(ops), t.state.buyFills + ReportFills(reordered);
    SumPermutation(a, b, Received);
    SaleRun(info, t, reordered);
    SettledFee(RunOps(info, Quiet(t), reordered).state, t.state.buyFills, ReportFills(reordered));
  }

  lemma SettledFee(u: TradeState, earlier: seq<OrderFill>, fills: seq<OrderFill>)
    requires BuySettled(u) && u.buyFills == earlier + fills && fills != [] && Sum(u.buyFills, Received) > 0.0
    ensures u.fee == LastFee(fills)
  {
    hide Sum, Round8;
  }

  /** The reports with the `k`-th moved to the end. */
  function MovedLast(ops: seq<Op>, k: nat): seq<Op>
    requires k < |ops|
  {
    ops[..k] + ops[k + 1..] + [ops[k]]
  }

  lemma MovedLastFacts(ops: seq<Op>, k: nat)
    requires k < |ops| && IsFill(ops[k])
    ensures multiset(MovedLast(ops, k)) == multiset(ops)
    ensures LastFee(ReportFills(MovedLast(ops, k))) == FeeRate(ReportFill(ops[k].report))
  {
    var rest := ops[..k] + ops[k + 1..];
    assert ops == ops[..k] + [ops[k]] + ops[k + 1..];
    assert MovedLast(ops, k)[..|rest|] == rest;
  }

  /** The fee a trade ends with is that of its last fill, so the order of arrival is irrelevant to it exactly when
      all fills of the order were charged at one rate, all in BNB or none in BNB. */
  lemma FeeIgnoresOrderIffOneRate(info: ExchangeInfo, t: Tracked, ops: seq<Op>)
    requires !ReportCloses(t.state) && AllProgress(ops, Buy) && ReportFills(ops) != []
    requires Sum(t.state.buyFills + ReportFills(ops), Received) > 0.0
    ensures FeeIgnoresOrder(info, t, ops) <==> OneRate(ReportFills(ops))
  {
    hide RunOps, Sum, ReportFills, FeeRate;
    var fills := ReportFills(ops);
    FeeOfRun(info, t, ops, ops);
    if OneRate(fills) {
      forall reordered | multiset(reordered) == multiset(ops)
        ensures RunOps(info, t, reordered).state.fee == RunOps(info, t, ops).state.fee
      {
        FeeOfRun(info, t, ops, reordered);
        var last := ReportFills(reordered)[|ReportFills(reordered)| - 1];
        assert last in fills && fills[|fills| - 1] in fills;
      }
    } else {
      var f :| f in fills && FeeRate(f) != LastFee(fills);
      var k := FillComesFrom(ops, f);
      MovedLastFacts(ops, k);
      FeeOfRun(info, t, ops, MovedLast(ops, k));
      assert RunOps(info, t, MovedLast(ops, k)).state.fee != RunOps(info, t, ops).state.fee;
    }
  }

  ghost predicate OutcomeIgnoresOrder(info: ExchangeInfo, t: Tracked, ops: seq<Op>) {
    forall reordered | multiset(reordered) == multiset(ops) ::
      SameOutcome(RunOps(info, t, ops).state, RunOps(info, t, reordered).state)
  }

  lemma OneRateIsPaidAlike(fills: seq<OrderFill>)
    requires OneRate(fills) && fills != [] && forall f | f in fills :: f.commissionAsset != ""
    ensures PaidIn(fills, fills[0].commissionAsset)
  {
    forall i | 0 <= i < |fills| ensures AlikeAssets(fills[i].commissionAsset, fills[0].commissionAsset) {
      assert fills[i] in fills && fills[0] in fills;
      assert FeeRate(fills[i]) == FeeRate(fills[0]);
    }
  }

  /** Full confluence, exactly: when every fill names its commission asset, the outcome of a buy order is independent
      of the order in which its reports arrive if and only if its fills were all charged at one rate. */
  lemma OutcomeIgnoresOrderIffOneRate(info: ExchangeInfo, t: Tracked, ops: seq<Op>)
    requires !ReportCloses(t.state) && AllProgress(ops, Buy) && OneNew(ops) && ReportFills(ops) != []
    requires Sum(t.state.buyFills + ReportFills(ops), Received) > 0.0
    requires forall f | f in ReportFills(ops) :: f.commissionAsset != ""
    ensures OutcomeIgnoresOrder(info, t, ops) <==> OneRate(ReportFills(ops))
  {
    hide RunOps, Sum, ReportFills, OneNew, UpdateBuy;
    FeeIgnoresOrderIffOneRate(info, t, ops);
    if OneRate(ReportFills(ops)) {
      OneRateIsPaidAlike(ReportFills(ops));
      forall reordered | multiset(reordered) == multiset(ops)
        ensures SameOutcome(RunOps(info, t, ops).state, RunOps(info, t, reordered).state)
      {
        BuyConfluence(info, t, ops, reordered, ReportFills(ops)[0].commissionAsset);
      }
    }
    if OutcomeIgnoresOrder(info, t, ops) {
      forall reordered | multiset(reordered) == multiset(ops)
        ensures RunOps(info, t, reordered).state.fee == RunOps(info, t, ops).state.fee
      {
        assert SameOutcome(RunOps(info, t, ops).state, RunOps(info, t, reordered).state);
      }
    }
  }

  // ---------- sell side ----------

  /** The part of the state sell reports do not touch. */
  predicate SameOutsideSell(s: TradeState, u: TradeState) {
    u == s.(closeTime := u.closeTime, status := u.status, sellOrderId := u.sellOrderId, sellOrder := u.sellOrder,
            sellFills := u.sellFills, sellFillQuantity := u.sellFillQuantity, averageSellPrice := u.averageSellPrice,
            sellCost := u.sellCost, profit := u.profit, profitPercent := u.profitPercent)
  }

  lemma OutsideSellTransitive(s: TradeState, u: TradeState, v: TradeState)
    requires SameOutsideSell(s, u) && SameOutsideSell(u, v)
    ensures SameOutsideSell(s, v)
  {
  }

  function StatusAfterSell(status: TradeStatus, filled: bool, accepted: bool): TradeStatus {
    if filled || status == Done then Done else if accepted then PendingSell else status
  }

  function SellStatusAfter(status: OrderStatus, filled: bool, partial: bool, accepted: bool): OrderStatus {
    if filled || status == OrderFilled then OrderFilled
    else if partial || status == OrderPartiallyFilled then OrderPartiallyFilled
    else if accepted then OrderNew
    else status
  }

  /** A DONE trade has a FILLED sell order. */
  predicate DoneMeansFilled(s: TradeState) {
    s.status == Done ==> s.sellOrder.status == OrderFilled
  }

  predicate SellStepped(s: TradeState, op: Op, u: TradeState)
    requires Progress(op, Sell)
  {
    var st := op.report.status;
    && SameOutsideSell(s, u)
    && u.status == StatusAfterSell(s.status, st == OrderFilled, st == OrderNew)
    && u.sellOrder.status ==
         SellStatusAfter(s.sellOrder.status, st == OrderFilled, st == OrderPartiallyFilled, st == OrderNew)
    && u.sellFills == s.sellFills + if IsFill(op) then [ReportFill(op.report)] else []
  }

  lemma SellSteps(info: ExchangeInfo, t: Tracked, op: Op)
    requires Progress(op, Sell) && DoneMeansFilled(t.state)
    ensures Apply(info, t, op).sent == t.sent
    ensures SellStepped(t.state, op, Apply(info, t, op).state) && DoneMeansFilled(Apply(info, t, op).state)
  {
    hide Sum, Round8, Round8Number, Percent;
  }

  lemma SellBooksStep(info: ExchangeInfo, t: Tracked, op: Op)
    requires Progress(op, Sell) && Decimal8(t.state.buyCost)
    ensures var s, u := t.state, Apply(info, t, op).state;
            if IsFill(op) then SellSettled(u) && ProfitSettled(u)
            else SameBooks(s, u) && u.profit == s.profit && u.profitPercent == s.profitPercent
  {
    hide Sum, Round8, Round8Number, Percent, Decimal8;
    if IsFill(op) {
      var sold := AddSellFill(t.state, ReportFill(op.report));
      AddSellFillSettles(t.state, ReportFill(op.report));
      SameSellBooksSettled(sold, Apply(info, t, op).state);
    }
  }

  lemma SameSellBooksSettled(s: TradeState, u: TradeState)
    requires SameBooks(s, u) && u.profit == s.profit && u.profitPercent == s.profitPercent
    ensures SellSettled(s) ==> SellSettled(u)
    ensures ProfitSettled(s) ==> ProfitSettled(u)
  {
    hide Sum, Round8, Round8Number, Percent;
  }

  ghost predicate SellOutcome(s: TradeState, ops: seq<Op>, u: TradeState) {
    && SameOutsideSell(s, u)
    && u.status == StatusAfterSell(s.status, Saw(ops, OrderFilled), Saw(ops, OrderNew))
    && u.sellOrder.status ==
         SellStatusAfter(s.sellOrder.status, Saw(ops, OrderFilled), Saw(ops, OrderPartiallyFilled), Saw(ops, OrderNew))
    && u.sellFills == s.sellFills + ReportFills(ops)
  }

  lemma SellOutcomeStep(s: TradeState, ops: seq<Op>, m: TradeState, u: TradeState)
    requires ops != [] && Progress(ops[|ops| - 1], Sell)
    requires SellOutcome(s, ops[..|ops| - 1], m) && SellStepped(m, ops[|ops| - 1], u)
    ensures SellOutcome(s, ops, u)
  {
    hide Saw, SameOutsideSell;
    SawLast(ops, OrderNew);
    SawLast(ops, OrderPartiallyFilled);
    SawLast(ops, OrderFilled);
    OutsideSellTransitive(s, m, u);
  }

  lemma {:induction false} SellRun(info: ExchangeInfo, t: Tracked, ops: seq<Op>)
    requires DoneMeansFilled(t.state) && AllProgress(ops, Sell)
    ensures var u := RunOps(info, t, ops);
            u.sent == t.sent && SellOutcome(t.state, ops, u.state) && DoneMeansFilled(u.state)
  {
    if ops == [] {
      assert forall st :: !Saw(ops, st);
    } else {
      hide Apply, SellOutcome, SellStepped, DoneMeansFilled;
      var n := |ops| - 1;
      SellRun(info, t, ops[..n]);
      SellSteps(info, RunOps(info, t, ops[..n]), ops[n]);
      SellOutcomeStep(t.state, ops, RunOps(info, t, ops[..n]).state, RunOps(info, t, ops).state);
    }
  }

  lemma {:induction false} SellRunBooks(info: ExchangeInfo, t: Tracked, ops: seq<Op>)
    requires DoneMeansFilled(t.state) && AllProgress(ops, Sell) && Decimal8(t.state.buyCost)
    requires ReportFills(ops) != []
    ensures SellSettled(RunOps(info, t, ops).state) && ProfitSettled(RunOps(info, t, ops).state)
  {
    hide Apply, SameBooks, UpdateSell, ProfitSettled, Decimal8;
    var n := |ops| - 1;
    SellRun(info, t, ops[..n]);
    SellBooksStep(info, RunOps(info, t, ops[..n]), ops[n]);
    if !IsFill(ops[n]) {
      SellRunBooks(info, t, ops[..n]);
      SameSellBooksSettled(RunOps(info, t, ops[..n]).state, RunOps(info, t, ops).state);
    }
  }

  /** Sell-side confluence.  For every reordering of the reports of a sell order that sold something, with a FILLED
      report among them, the trade ends DONE with the same fills, proceeds and profit.  What the order of arrival
      does decide: the close time, the order of the fills, and whether the terms of the NEW report were noted. */
  lemma SellConfluence(info: ExchangeInfo, t: Tracked, ops: seq<Op>, reordered: seq<Op>)
    requires DoneMeansFilled(t.state) && AllProgress(ops, Sell) && multiset(ops) == multiset(reordered)
    requires Decimal8(t.state.buyCost) && Saw(ops, OrderFilled)
    requires Sum(t.state.sellFills + ReportFills(ops), Quantity) > 0.0
    ensures var u, v := RunOps(info, t, ops).state, RunOps(info, t, reordered).state;
            && RunOps(info, t, ops).sent == RunOps(info, t, reordered).sent == t.sent
            && u.status == Done && u.sellOrder.status == v.sellOrder.status == OrderFilled
            && multiset(u.sellFills) == multiset(v.sellFills)
            && SellSettled(u) && ProfitSettled(u)
            && u == v.(sellFills := u.sellFills, closeTime := u.closeTime, sellOrderId := u.sellOrderId,
                       sellOrder := u.sellOrder)
  {
    hide RunOps, UpdateSell, SameBooks, ProfitSettled, Decimal8;
    var u, v := RunOps(info, t, ops).state, RunOps(info, t, reordered).state;
    AllProgressMembers(ops, reordered, Sell);
    ReportFillsPermutation(ops, reordered);
    SellRun(info, t, ops);
    SellRun(info, t, reordered);
    SawPermutation(ops, reordered);
    FilledHasFills(ops);
    FilledHasFills(reordered);
    SellRunBooks(info, t, ops);
    SellRunBooks(info, t, reordered);
    SellAggregatesOfPermutation(u, v);
  }

  lemma {:induction false} FilledHasFills(ops: seq<Op>)
    requires Saw(ops, OrderFilled)
    ensures ReportFills(ops) != []
  {
    var n := |ops| - 1;
    if !IsFill(ops[n]) {
      var op :| op in ops && op.ReportOp? && op.report.status == OrderFilled;
      assert op in ops[..n];
      FilledHasFills(ops[..n]);
    }
  }

  /** Reports that arrive after the FILLED one and bring no fill leave no trace but the close time, however many. */
  lemma {:induction false} LateNewsLeavesNoTrace(info: ExchangeInfo, t: Tracked, news: seq<Op>)
    requires AllProgress(news, Sell) && !Saw(news, OrderPartiallyFilled) && !Saw(news, OrderFilled)
    requires t.state.status == Done
    ensures RunOps(info, t, news) ==
            Tracked(t.state.(closeTime := if news == [] then t.state.closeTime else Some(news[|news| - 1].time)), t.sent)
  {
    if news != [] {
      SawLast(news, OrderPartiallyFilled);
      SawLast(news, OrderFilled);
      LateNewsLeavesNoTrace(info, t, news[..|news| - 1]);
    }
  }

  /** The reports that make `OnExecutionReport` drop the stream of the symbol. */
  function StreamDrops(info: ExchangeInfo, t: Tracked, ops: seq<Op>): nat {
    if ops == [] then 0
    else
      StreamDrops(info, t, ops[..|ops| - 1]) + if ReportCloses(RunOps(info, t, ops).state) then 1 else 0
  }

  /** The FILLED report and every report after it drop the stream once each; so the stream is dropped exactly once
      if and only if the first FILLED report arrives last. */
  lemma {:induction false} StreamDropsCountLateReports(info: ExchangeInfo, t: Tracked, ops: seq<Op>, k: nat)
    requires DoneMeansFilled(t.state) && !ReportCloses(t.state) && AllProgress(ops, Sell)
    requires k < |ops| && ops[k].report.status == OrderFilled && !Saw(ops[..k], OrderFilled)
    ensures StreamDrops(info, t, ops) == |ops| - k
    ensures StreamDrops(info, t, ops) == 1 <==> k == |ops| - 1
  {
    hide Apply;
    var n := |ops| - 1;
    SellRun(info, t, ops);
    assert ops[k] in ops;
    if k == n {
      NoDropBeforeFilled(info, t, ops[..n]);
    } else {
      assert ops[..n][..k] == ops[..k];
      StreamDropsCountLateReports(info, t, ops[..n], k);
    }
  }

  lemma {:induction false} NoDropBeforeFilled(info: ExchangeInfo, t: Tracked, ops: seq<Op>)
    requires DoneMeansFilled(t.state) && !ReportCloses(t.state) && AllProgress(ops, Sell) && !Saw(ops, OrderFilled)
    ensures StreamDrops(info, t, ops) == 0
  {
    if ops != [] {
      hide Apply;
      SawLast(ops, OrderFilled);
      SellRun(info, t, ops);
      NoDropBeforeFilled(info, t, ops[..|ops| - 1]);
    }
  }

  // ---------- which NEW reports are noted ----------

  predicate SellTermsOf(op: Op, u: TradeState)
    requires op.ReportOp?
  {
    && u.sellOrderId == op.report.orderId && u.sellOrder.orderType == op.report.orderType
    && u.sellOrder.quantity == op.report.quantity && u.sellOrder.price == op.report.price
  }

  predicate SameSellTerms(s: TradeState, u: TradeState) {
    && u.sellOrderId == s.sellOrderId && u.sellOrder.orderType == s.sellOrder.orderType
    && u.sellOrder.quantity == s.sellOrder.quantity && u.sellOrder.price == s.sellOrder.price
  }

  lemma SellTermsStep(info: ExchangeInfo, t: Tracked, op: Op)
    requires Progress(op, Sell)
    ensures var s, u := t.state, Apply(info, t, op).state;
            if op.report.status == OrderNew && s.status != Done then SellTermsOf(op, u) else SameSellTerms(s, u)
  {
    hide Sum, Round8, Round8Number, Percent;
  }

  lemma {:induction false} NoNewKeepsSellTerms(info: ExchangeInfo, t: Tracked, ops: seq<Op>)
    requires AllProgress(ops, Sell) && !Saw(ops, OrderNew)
    ensures SameSellTerms(t.state, RunOps(info, t, ops).state)
  {
    if ops != [] {
      hide Apply;
      SawLast(ops, OrderNew);
      NoNewKeepsSellTerms(info, t, ops[..|ops| - 1]);
      SellTermsStep(info, RunOps(info, t, ops[..|ops| - 1]), ops[|ops| - 1]);
    }
  }

  /** The ID and the terms of the sell order are those of its one NEW report, unless that report arrives after the
      FILLED one: then they are never noted. */
  lemma {:induction false} SellTermsUnlessFilledFirst(info: ExchangeInfo, t: Tracked, ops: seq<Op>, k: nat)
    requires DoneMeansFilled(t.state) && t.state.status != Done && AllProgress(ops, Sell)
    requires k < |ops| && ops[k].report.status == OrderNew
    requires forall i | 0 <= i < |ops| && i != k :: ops[i].report.status != OrderNew
    ensures var u := RunOps(info, t, ops).state;
            if Saw(ops[..k], OrderFilled) then SameSellTerms(t.state, u) else SellTermsOf(ops[k], u)
  {
    hide Apply, SellTermsOf, SameOutsideSell;
    var n := |ops| - 1;
    var before := RunOps(info, t, ops[..n]);
    SellTermsStep(info, before, ops[n]);
    if k < n {
      assert ops[..n][..k] == ops[..k];
      SellTermsUnlessFilledFirst(info, t, ops[..n], k);
      TermsCarryOver(ops[k], before.state, RunOps(info, t, ops).state);
    } else {
      NoNewKeepsSellTerms(info, t, ops[..n]);
      SellRun(info, t, ops[..n]);
    }
  }

  lemma TermsCarryOver(op: Op, s: TradeState, u: TradeState)
    requires op.ReportOp? && SameSellTerms(s, u)
    ensures SellTermsOf(op, s) ==> SellTermsOf(op, u)
  {
  }

  // ---------- how much can be sold ----------

  /** After a run of buy reports that brought fills, all of what was bought is sellable if the commissions were paid
      in BNB, otherwise the largest multiple of the step that fits; without a step size nothing changes. */
  lemma SellableAfterBuys(info: ExchangeInfo, t: Tracked, ops: seq<Op>, asset: string)
    requires !ReportCloses(t.state) && AllProgress(ops, Buy) && PaidIn(ReportFills(ops), asset) && ReportFills(ops) != []
    ensures var s, u := t.state, RunOps(info, t, ops).state;
            if asset == BNB then u.sellableQuantity == u.buyFillQuantity
            else if asset != "" && s.symbol in info then
              var step := info[s.symbol].stepSize;
              && MultipleOf(u.sellableQuantity, step)
              && u.sellableQuantity <= u.buyFillQuantity < u.sellableQuantity + step
            else u.sellableQuantity == s.sellableQuantity
  {
    hide RunOps, UpdateBuy, FixQuantityToStepSize;
    BuyRun(info, Quiet(t), ops);
    BuyRunBooks(info, Quiet(t), ops, asset);
    SaleRun(info, t, ops);
    var u := RunOps(info, t, ops).state;
    if asset != BNB && asset != "" && t.state.symbol in info {
      PriceLaws.FixQuantityIsFloor(u.buyFillQuantity, info[t.state.symbol].stepSize);
    }
  }
}
