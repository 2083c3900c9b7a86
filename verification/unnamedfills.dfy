/** Fills that name no commission asset do not refresh the sellable quantity.  With them the exact condition under which
    the order of arrival of buy reports is irrelevant takes lot sizes into account. */
module UnnamedFills {
  import opened Numbers
  import opened Fills
  import opened TradeModel
  import opened Pricing
  import opened TradeOps
  import opened TradeLaws
  import opened Confluence

  // ---------- effective fills ----------

  /** The fill makes the service look up the sellable quantity. */
  predicate Effective(info: ExchangeInfo, symbol: string, f: OrderFill) {
    f.commissionAsset == BNB || (f.commissionAsset != "" && symbol in info)
  }

  function Effectives(info: ExchangeInfo, symbol: string, fills: seq<OrderFill>): seq<OrderFill> {
    if fills == [] then []
    else
      var n := |fills| - 1;
      Effectives(info, symbol, fills[..n]) + if Effective(info, symbol, fills[n]) then [fills[n]] else []
  }

  predicate EffectiveOp(info: ExchangeInfo, symbol: string, op: Op) {
    IsFill(op) && Effective(info, symbol, ReportFill(op.report))
  }

  /** The reports with, respectively without, an effective fill, in order. */
  function PickOps(info: ExchangeInfo, symbol: string, ops: seq<Op>, effective: bool): seq<Op> {
    if ops == [] then []
    else
      var n := |ops| - 1;
      PickOps(info, symbol, ops[..n], effective) + if EffectiveOp(info, symbol, ops[n]) == effective then [ops[n]] else []
  }

  lemma {:induction false} EffectivesConcat(info: ExchangeInfo, symbol: string, a: seq<OrderFill>, b: seq<OrderFill>)
    ensures Effectives(info, symbol, a + b) == Effectives(info, symbol, a) + Effectives(info, symbol, b)
  {
    if b == [] {
      assert a + b == a;
    } else {
      var n := |b| - 1;
      EffectivesConcat(info, symbol, a, b[..n]);
      assert (a + b)[..|a + b| - 1] == a + b[..n];
    }
  }

  lemma {:induction false} PickedOps(info: ExchangeInfo, symbol: string, ops: seq<Op>)
    ensures multiset(PickOps(info, symbol, ops, true)) + multiset(PickOps(info, symbol, ops, false)) == multiset(ops)
    ensures forall op | op in PickOps(info, symbol, ops, true) :: EffectiveOp(info, symbol, op)
    ensures forall op | op in PickOps(info, symbol, ops, false) :: !EffectiveOp(info, symbol, op)
  {
    if ops != [] {
      hide EffectiveOp;
      PickedOps(info, symbol, ops[..|ops| - 1]);
      assert ops == ops[..|ops| - 1] + [ops[|ops| - 1]];
    }
  }

  lemma {:induction false} PickedFills(info: ExchangeInfo, symbol: string, ops: seq<Op>)
    ensures ReportFills(PickOps(info, symbol, ops, true)) == Effectives(info, symbol, ReportFills(ops))
  {
    if ops != [] {
      hide Effective, ReportFills, Effectives;
      var op, before := ops[|ops| - 1], PickOps(info, symbol, ops[..|ops| - 1], true);
      PickedFills(info, symbol, ops[..|ops| - 1]);
      EffectivesLast(info, symbol, ops);
      SingleFill(op);
      ReportFillsConcat(before, [op]);
      assert before + [] == before && ReportFills(before) + [] == ReportFills(before);
    } else {
      assert ReportFills([]) == [];
    }
  }

  lemma SingleFill(op: Op)
    ensures ReportFills([op]) == if IsFill(op) then [ReportFill(op.report)] else []
  {
    assert [op][..0] == [];
  }

  lemma SingleEffective(info: ExchangeInfo, symbol: string, op: Op)
    ensures Effectives(info, symbol, ReportFills([op])) ==
            if EffectiveOp(info, symbol, op) then [ReportFill(op.report)] else []
  {
    SingleFill(op);
    if IsFill(op) {
      var f := ReportFill(op.report);
      assert [f][..0] == [];
    }
  }

  lemma EffectivesLast(info: ExchangeInfo, symbol: string, ops: seq<Op>)
    requires ops != []
    ensures var op := ops[|ops| - 1];
            Effectives(info, symbol, ReportFills(ops)) ==
            Effectives(info, symbol, ReportFills(ops[..|ops| - 1]))
            + if EffectiveOp(info, symbol, op) then [ReportFill(op.report)] else []
  {
    hide Effective, EffectiveOp, ReportFills, Effectives;
    var n := |ops| - 1;
    assert ops == ops[..n] + [ops[n]];
    ReportFillsConcat(ops[..n], [ops[n]]);
    EffectivesConcat(info, symbol, ReportFills(ops[..n]), ReportFills([ops[n]]));
    SingleEffective(info, symbol, ops[n]);
  }

  lemma SellableStep(info: ExchangeInfo, t: Tracked, op: Op)
    requires Buying(t.state) && Progress(op, Buy)
    ensures var s, u := t.state, Apply(info, t, op).state;
            u.sellableQuantity ==
            if EffectiveOp(info, s.symbol, op)
            then SellableFor(info, s.sellableQuantity, s.symbol, op.report.commissionAsset, u.buyFillQuantity)
            else s.sellableQuantity
  {
    BuyStep(info, t, op);
    hide FixQuantityToStepSize, Apply, UpdateBuy, SameBooks, SameOutsideBuy;
  }

  lemma {:induction false} IneffectiveRun(info: ExchangeInfo, t: Tracked, ops: seq<Op>)
    requires Buying(t.state) && AllProgress(ops, Buy)
    requires forall i | 0 <= i < |ops| :: !EffectiveOp(info, t.state.symbol, ops[i])
    ensures RunOps(info, t, ops).state.sellableQuantity == t.state.sellableQuantity
  {
    if ops != [] {
      hide Apply, EffectiveOp;
      var n := |ops| - 1;
      IneffectiveRun(info, t, ops[..n]);
      BuyRun(info, t, ops[..n]);
      SellableStep(info, RunOps(info, t, ops[..n]), ops[n]);
    }
  }

  /** The sellable quantity is the one of the last fill that names its asset, as the fills up to that one call for. */
  lemma {:induction false} LastEffective(info: ExchangeInfo, t: Tracked, ops: seq<Op>, asset: string) returns (n: nat)
    requires Buying(t.state) && AllProgress(ops, Buy) && Effectives(info, t.state.symbol, ReportFills(ops)) != []
    requires PaidIn(Effectives(info, t.state.symbol, ReportFills(ops)), asset)
    requires asset == BNB || (asset != "" && t.state.symbol in info)
    ensures 0 < n <= |ops| && IsFill(ops[n - 1])
    ensures forall i | n <= i < |ops| :: !EffectiveOp(info, t.state.symbol, ops[i])
    ensures RunOps(info, t, ops).state.sellableQuantity ==
            SellableFor(info, 0.0, t.state.symbol, asset, RunOps(info, t, ops[..n]).state.buyFillQuantity)
  {
    hide Apply, FixQuantityToStepSize, EffectiveOp, ReportFills, Effectives, AlikeAssets, SellableFor, Buying;
    var m, symbol := |ops| - 1, t.state.symbol;
    assert ops != [] by { NoOpsNoEffectives(info, symbol); }
    var before := RunOps(info, t, ops[..m]);
    BuyRun(info, t, ops[..m]);
    SellableStep(info, before, ops[m]);
    EffectivesLast(info, symbol, ops);
    var earlier, all := Effectives(info, symbol, ReportFills(ops[..m])), Effectives(info, symbol, ReportFills(ops));
    if EffectiveOp(info, symbol, ops[m]) {
      n := |ops|;
      assert ops[..n] == ops;
      assert AlikeAssets(all[|all| - 1].commissionAsset, asset);
      EffectiveIsFill(info, symbol, ops[m]);
      AlikeSellable(info, before.state.sellableQuantity, symbol, ops[m].report.commissionAsset, asset,
                    RunOps(info, t, ops).state.buyFillQuantity);
    } else {
      assert earlier == all;
      n := LastEffective(info, t, ops[..m], asset);
      assert ops[..m][..n] == ops[..n];
    }
  }

  lemma NoOpsNoEffectives(info: ExchangeInfo, symbol: string)
    ensures Effectives(info, symbol, ReportFills([])) == []
  {
  }

  lemma EffectiveIsFill(info: ExchangeInfo, symbol: string, op: Op)
    requires EffectiveOp(info, symbol, op)
    ensures IsFill(op) && ReportFill(op.report).commissionAsset == op.report.commissionAsset
  {
  }

  lemma AlikeSellable(info: ExchangeInfo, before: real, symbol: string, a: string, b: string, bought: real)
    requires AlikeAssets(a, b) && (b == BNB || (b != "" && symbol in info))
    ensures SellableFor(info, before, symbol, a, bought) == SellableFor(info, 0.0, symbol, b, bought)
  {
  }

  // ---------- what the named fills deliver ----------

  /** Fills that name no asset take nothing away. */
  ghost predicate IneffectiveAdd(info: ExchangeInfo, symbol: string, fills: seq<OrderFill>) {
    forall i | 0 <= i < |fills| :: !Effective(info, symbol, fills[i]) ==> Received(fills[i]) >= 0.0
  }

  lemma {:induction false} EffectiveSum(info: ExchangeInfo, symbol: string, fills: seq<OrderFill>)
    requires IneffectiveAdd(info, symbol, fills)
    ensures Sum(Effectives(info, symbol, fills), Received) <= Sum(fills, Received)
    ensures Effectives(info, symbol, fills) == [] ==> Sum(fills, Received) >= 0.0
  {
    if fills != [] {
      hide Effective, Received;
      var n := |fills| - 1;
      EffectiveSum(info, symbol, fills[..n]);
      var before := Effectives(info, symbol, fills[..n]);
      SumAppend(before, fills[n], Received);
      assert before + [] == before;
    }
  }

  lemma {:induction false} NoEffectives(info: ExchangeInfo, symbol: string, ops: seq<Op>)
    requires forall i | 0 <= i < |ops| :: !EffectiveOp(info, symbol, ops[i])
    ensures Effectives(info, symbol, ReportFills(ops)) == []
  {
    if ops != [] {
      hide EffectiveOp, ReportFills, Effectives;
      NoEffectives(info, symbol, ops[..|ops| - 1]);
      EffectivesLast(info, symbol, ops);
    } else {
      NoOpsNoEffectives(info, symbol);
    }
  }

  lemma IneffectiveParts(info: ExchangeInfo, symbol: string, a: seq<OrderFill>, b: seq<OrderFill>)
    requires IneffectiveAdd(info, symbol, a + b)
    ensures IneffectiveAdd(info, symbol, a) && IneffectiveAdd(info, symbol, b)
  {
    hide Effective, Received;
    assert forall i | 0 <= i < |a| :: a[i] == (a + b)[i];
    assert forall i | 0 <= i < |b| :: b[i] == (a + b)[|a| + i];
  }

  /** What is delivered up to the last named fill lies between what the named fills deliver and what all deliver. */
  lemma DeliveredBetween(info: ExchangeInfo, symbol: string, earlier: seq<OrderFill>, ops: seq<Op>, n: nat)
    requires n <= |ops| && IneffectiveAdd(info, symbol, ReportFills(ops))
    requires forall i | n <= i < |ops| :: !EffectiveOp(info, symbol, ops[i])
    ensures Sum(earlier + Effectives(info, symbol, ReportFills(ops)), Received)
         <= Sum(earlier + ReportFills(ops[..n]), Received)
         <= Sum(earlier + ReportFills(ops), Received)
  {
    hide Effective, Received, EffectiveOp, ReportFills, Effectives, Sum, IneffectiveAdd;
    var early, late, all := ReportFills(ops[..n]), ReportFills(ops[n..]), ReportFills(ops);
    assert ops == ops[..n] + ops[n..];
    ReportFillsConcat(ops[..n], ops[n..]);
    IneffectiveParts(info, symbol, early, late);
    NoEffectives(info, symbol, ops[n..]);
    EffectivesConcat(info, symbol, early, late);
    EffectiveSum(info, symbol, early);
    EffectiveSum(info, symbol, late);
    SumConcat(earlier, Effectives(info, symbol, all), Received);
    SumConcat(earlier, early, Received);
    SumConcat(early, late, Received);
    SumConcat(earlier, all, Received);
    assert Effectives(info, symbol, early) + [] == Effectives(info, symbol, early);
  }

  lemma LotsMonotone(info: ExchangeInfo, symbol: string, asset: string, a: real, b: real)
    requires a <= b
    ensures Lots(info, symbol, asset, a) <= Lots(info, symbol, asset, b)
  {
    if asset != BNB && symbol in info {
      WholeUnitsMonotone(a, b, info[symbol].stepSize);
    }
  }

  /** The asset stands for those of all effective fills. */
  ghost predicate StandsFor(info: ExchangeInfo, symbol: string, fills: seq<OrderFill>, asset: string) {
    && PaidIn(Effectives(info, symbol, fills), asset) && (asset == BNB || (asset != "" && symbol in info))
    && Effectives(info, symbol, fills) != []
  }

  /** If the unnamed fills complete no further lot, the sellable quantity is that of all fills, in any order. */
  lemma SellableWhenLotsAgree(info: ExchangeInfo, t: Tracked, ops: seq<Op>, asset: string)
    requires Buying(t.state) && AllProgress(ops, Buy) && StandsFor(info, t.state.symbol, ReportFills(ops), asset)
    requires IneffectiveAdd(info, t.state.symbol, ReportFills(ops))
    requires var s, symbol, all := t.state, t.state.symbol, ReportFills(ops);
             && Sum(s.buyFills + Effectives(info, symbol, all), Received) > 0.0
             && Lots(info, symbol, asset, Delivered(s.buyFills + Effectives(info, symbol, all)))
                == Lots(info, symbol, asset, Delivered(s.buyFills + all))
    ensures RunOps(info, t, ops).state.sellableQuantity ==
            SellableFor(info, 0.0, t.state.symbol, asset, Delivered(t.state.buyFills + ReportFills(ops)))
  {
    hide RunOps, ReportFills, FixQuantityToStepSize, Effectives, EffectiveOp, Lots, UpdateBuy, Round8, Received;
    var s, symbol, all := t.state, t.state.symbol, ReportFills(ops);
    var n := LastEffective(info, t, ops, asset);
    DeliveredBetween(info, symbol, s.buyFills, ops, n);
    BoughtByRun(info, t, ops[..n], n - 1);
    var named, early := s.buyFills + Effectives(info, symbol, all), s.buyFills + ReportFills(ops[..n]);
    Round8Monotone(Sum(named, Received), Sum(early, Received));
    Round8Monotone(Sum(early, Received), Sum(s.buyFills + all, Received));
    LotsMonotone(info, symbol, asset, Delivered(named), Delivered(early));
    LotsMonotone(info, symbol, asset, Delivered(early), Delivered(s.buyFills + all));
    SameLots(info, 0.0, symbol, asset, Delivered(early), Delivered(s.buyFills + all));
  }

  lemma BoughtByRun(info: ExchangeInfo, t: Tracked, ops: seq<Op>, k: nat)
    requires Buying(t.state) && AllProgress(ops, Buy) && k < |ops| && IsFill(ops[k])
    requires Sum(t.state.buyFills + ReportFills(ops), Received) > 0.0
    ensures RunOps(info, t, ops).state.buyFillQuantity == Delivered(t.state.buyFills + ReportFills(ops))
  {
    hide RunOps, ReportFills, UpdateBuy, Round8;
    HasFill(ops, k);
    BuyRun(info, t, ops);
    BuyRunSettled(info, t, ops);
    DeliveredIsBought(RunOps(info, t, ops).state);
  }
  // ---------- exactly when the order of arrival is irrelevant ----------

  lemma QuietUpToSellable(info: ExchangeInfo, t: Tracked, ops: seq<Op>, reordered: seq<Op>)
    requires Buying(t.state) && AllProgress(ops, Buy) && multiset(ops) == multiset(reordered)
    requires OneNew(ops) && OneRate(ReportFills(ops))
    requires Sum(t.state.buyFills + ReportFills(ops), Received) > 0.0
    ensures var u, v := RunOps(info, t, ops).state, RunOps(info, t, reordered).state;
            && multiset(u.buyFills) == multiset(v.buyFills)
            && v.(buyFills := u.buyFills, sellableQuantity := u.sellableQuantity) == u
  {
    hide RunOps, SameBooks, UpdateBuy, FeeRate;
    var u, v := RunOps(info, t, ops).state, RunOps(info, t, reordered).state;
    var f, g := ReportFills(ops), ReportFills(reordered);
    AllProgressMembers(ops, reordered, Buy);
    PermutationMembers(ops, reordered);
    ReportFillsPermutation(ops, reordered);
    SameFillMembers(f, g);
    SameFillMembers(g, f);
    BuyRun(info, t, ops);
    BuyRun(info, t, reordered);
    SawPermutation(ops, reordered);
    BuyRunTerms(info, t, ops);
    BuyRunTerms(info, t, reordered);
    assert multiset(u.buyFills) == multiset(t.state.buyFills) + multiset(f);
    assert multiset(v.buyFills) == multiset(t.state.buyFills) + multiset(g);
    if f == [] {
      BuyRunBooks(info, t, ops, BNB);
      BuyRunBooks(info, t, reordered, BNB);
      SameBooksAgree(t.state, u, v);
    } else {
      BuyRunSettled(info, t, ops);
      BuyRunSettled(info, t, reordered);
      LastOfOneRate(t.state.buyFills, f, g);
      BuyAggregatesOfPermutation(u, v);
    }
  }

  lemma SameBooksAgree(s: TradeState, u: TradeState, v: TradeState)
    requires SameBooks(s, u) && SameBooks(s, v)
    ensures SameBooks(u, v)
    ensures u.averageBuyPrice == v.averageBuyPrice && u.buyFillQuantity == v.buyFillQuantity && u.buyCost == v.buyCost
    ensures u.effectiveBuyPrice == v.effectiveBuyPrice && u.fee == v.fee
  {
  }

  lemma LastOfOneRate(earlier: seq<OrderFill>, f: seq<OrderFill>, g: seq<OrderFill>)
    requires OneRate(f) && f != [] && g != [] && forall x :: x in f <==> x in g
    ensures LastFee(earlier + f) == LastFee(earlier + g)
  {
    hide FeeRate;
    assert f[|f| - 1] in f && g[|g| - 1] in f;
  }

  /** At one rate, whatever assets are named, only the sellable quantity can depend on the order. */
  lemma ConfluenceUpToSellable(info: ExchangeInfo, t: Tracked, ops: seq<Op>, reordered: seq<Op>)
    requires !ReportCloses(t.state) && AllProgress(ops, Buy) && multiset(ops) == multiset(reordered)
    requires OneNew(ops) && OneRate(ReportFills(ops))
    requires Sum(t.state.buyFills + ReportFills(ops), Received) > 0.0
    ensures var u, v := RunOps(info, t, ops).state, RunOps(info, t, reordered).state;
            SameOutcome(u, v) <==> u.sellableQuantity == v.sellableQuantity
  {
    hide RunOps, UpdateBuy, ReportFills, AllSaleIds;
    AllProgressMembers(ops, reordered, Buy);
    PermutationMembers(ops, reordered);
    QuietUpToSellable(info, Quiet(t), ops, reordered);
    SaleRun(info, t, ops);
    SaleRun(info, t, reordered);
    SameSaleIds(info, t.state, ops, reordered);
  }

  lemma AllProgressParts(a: seq<Op>, b: seq<Op>)
    requires AllProgress(a + b, Buy)
    ensures AllProgress(a, Buy) && AllProgress(b, Buy)
  {
    hide Progress;
    assert forall i | 0 <= i < |a| :: a[i] == (a + b)[i];
    assert forall i | 0 <= i < |b| :: b[i] == (a + b)[|a| + i];
  }

  lemma DeliveredPermutation(f: seq<OrderFill>, g: seq<OrderFill>)
    requires multiset(f) == multiset(g)
    ensures Delivered(f) == Delivered(g) && Sum(f, Received) == Sum(g, Received)
  {
    SumPermutation(f, g, Received);
  }

  /** A run whose last report brings an effective fill. */
  lemma EndsEffective(info: ExchangeInfo, t: Tracked, ops: seq<Op>, asset: string)
    requires Buying(t.state) && AllProgress(ops, Buy) && ops != []
    requires EffectiveOp(info, t.state.symbol, ops[|ops| - 1])
    requires AlikeAssets(ops[|ops| - 1].report.commissionAsset, asset)
    requires asset == BNB || (asset != "" && t.state.symbol in info)
    requires Sum(t.state.buyFills + ReportFills(ops), Received) > 0.0
    ensures RunOps(info, t, ops).state.sellableQuantity ==
            SellableFor(info, 0.0, t.state.symbol, asset, Delivered(t.state.buyFills + ReportFills(ops)))
  {
    hide Apply, ReportFills, AlikeAssets, Delivered, SellableFor, Sum, EffectiveOp;
    var n := |ops| - 1;
    var before := RunOps(info, t, ops[..n]);
    EffectiveIsFill(info, t.state.symbol, ops[n]);
    BuyRun(info, t, ops[..n]);
    SellableStep(info, before, ops[n]);
    BoughtByRun(info, t, ops, n);
    AlikeSellable(info, before.state.sellableQuantity, t.state.symbol, ops[n].report.commissionAsset, asset,
                  RunOps(info, t, ops).state.buyFillQuantity);
  }

  lemma LastPick(info: ExchangeInfo, symbol: string, ops: seq<Op>, asset: string)
    requires StandsFor(info, symbol, ReportFills(ops), asset)
    ensures var named := PickOps(info, symbol, ops, true);
            && named != [] && EffectiveOp(info, symbol, named[|named| - 1])
            && AlikeAssets(named[|named| - 1].report.commissionAsset, asset)
  {
    hide EffectiveOp, AlikeAssets, ReportFills, Effectives;
    var named := PickOps(info, symbol, ops, true);
    PickedOps(info, symbol, ops);
    PickedFills(info, symbol, ops);
    assert named != [] by { if named == [] { NoOpsNoFills(); } }
    var op := named[|named| - 1];
    assert op in named;
    EffectiveIsFill(info, symbol, op);
    LastOfFills(named);
    var all := Effectives(info, symbol, ReportFills(ops));
    assert AlikeAssets(all[|all| - 1].commissionAsset, asset);
  }

  lemma NoOpsNoFills()
    ensures ReportFills([]) == []
  {
  }

  lemma LastOfFills(ops: seq<Op>)
    requires ops != [] && IsFill(ops[|ops| - 1])
    ensures ReportFills(ops) != [] && ReportFills(ops)[|ReportFills(ops)| - 1] == ReportFill(ops[|ops| - 1].report)
  {
  }

  /** With the unnamed fills first, everything delivered is taken into account; with them last, none of it is. */
  lemma TwoExtremes(info: ExchangeInfo, t: Tracked, ops: seq<Op>, asset: string)
    requires Buying(t.state) && AllProgress(ops, Buy) && StandsFor(info, t.state.symbol, ReportFills(ops), asset)
    requires var earlier, all := t.state.buyFills, ReportFills(ops);
             && Sum(earlier + all, Received) > 0.0
             && Sum(earlier + Effectives(info, t.state.symbol, all), Received) > 0.0
    ensures var earlier, symbol, all := t.state.buyFills, t.state.symbol, ReportFills(ops);
            var named, others := PickOps(info, symbol, ops, true), PickOps(info, symbol, ops, false);
            && multiset(others + named) == multiset(named + others) == multiset(ops)
            && RunOps(info, t, others + named).state.sellableQuantity ==
                 SellableFor(info, 0.0, symbol, asset, Delivered(earlier + all))
            && RunOps(info, t, named + others).state.sellableQuantity ==
                 SellableFor(info, 0.0, symbol, asset, Delivered(earlier + Effectives(info, symbol, all)))
  {
    hide RunOps, ReportFills, EffectiveOp, Effectives, AlikeAssets, Delivered, SellableFor, PickOps, Sum, Buying;
    var earlier, symbol, all := t.state.buyFills, t.state.symbol, ReportFills(ops);
    var named, others := PickOps(info, symbol, ops, true), PickOps(info, symbol, ops, false);
    PickedOps(info, symbol, ops);
    PickedFills(info, symbol, ops);
    LastPick(info, symbol, ops, asset);
    assert multiset(others + named) == multiset(named + others) == multiset(ops);
    AllProgressMembers(ops, others + named, Buy);
    AllProgressMembers(ops, named + others, Buy);
    AllProgressParts(named, others);
    ReportFillsPermutation(others + named, ops);
    assert multiset(earlier + ReportFills(others + named)) == multiset(earlier + all);
    DeliveredPermutation(earlier + ReportFills(others + named), earlier + all);
    EndsEffective(info, t, others + named, asset);
    EndsEffective(info, t, named, asset);
    BuyRun(info, t, named);
    RunOpsConcat(info, t, named, others);
    OthersIneffective(info, symbol, others);
    IneffectiveRun(info, RunOps(info, t, named), others);
  }

  lemma OthersIneffective(info: ExchangeInfo, symbol: string, others: seq<Op>)
    requires forall op | op in others :: !EffectiveOp(info, symbol, op)
    ensures forall i | 0 <= i < |others| :: !EffectiveOp(info, symbol, others[i])
  {
  }

  ghost predicate SellableIgnoresOrder(info: ExchangeInfo, t: Tracked, ops: seq<Op>) {
    forall reordered | multiset(reordered) == multiset(ops) ::
      RunOps(info, t, reordered).state.sellableQuantity == RunOps(info, t, ops).state.sellableQuantity
  }

  /** What unnamed fills add completes no further lot. */
  ghost predicate UnnamedAddNoLot(info: ExchangeInfo, s: TradeState, fills: seq<OrderFill>) {
    var named := Effectives(info, s.symbol, fills);
    named != [] ==>
      Lots(info, s.symbol, named[0].commissionAsset, Delivered(s.buyFills + named))
      == Lots(info, s.symbol, named[0].commissionAsset, Delivered(s.buyFills + fills))
  }

  /** All fills deliver something in total, and so do the named ones alone; an unnamed one takes nothing away. */
  ghost predicate ProperDelivery(info: ExchangeInfo, s: TradeState, fills: seq<OrderFill>) {
    var named := Effectives(info, s.symbol, fills);
    && Sum(s.buyFills + fills, Received) > 0.0 && (named != [] ==> Sum(s.buyFills + named, Received) > 0.0)
    && IneffectiveAdd(info, s.symbol, fills)
  }

  lemma {:induction false} EffectivesAre(info: ExchangeInfo, symbol: string, fills: seq<OrderFill>)
    ensures forall f | f in Effectives(info, symbol, fills) :: f in fills && Effective(info, symbol, f)
  {
    if fills != [] {
      hide Effective;
      EffectivesAre(info, symbol, fills[..|fills| - 1]);
      assert fills == fills[..|fills| - 1] + [fills[|fills| - 1]];
    }
  }

  lemma NamedStandsFor(info: ExchangeInfo, symbol: string, fills: seq<OrderFill>)
    requires OneRate(fills) && Effectives(info, symbol, fills) != []
    ensures StandsFor(info, symbol, fills, Effectives(info, symbol, fills)[0].commissionAsset)
  {
    hide Effectives;
    var named := Effectives(info, symbol, fills);
    EffectivesAre(info, symbol, fills);
    forall i | 0 <= i < |named| ensures AlikeAssets(named[i].commissionAsset, named[0].commissionAsset) {
      assert named[i] in named && named[0] in named;
      assert FeeRate(named[i]) == FeeRate(named[0]);
    }
    assert named[0] in named;
  }

  lemma QuietSellableIff(info: ExchangeInfo, t: Tracked, ops: seq<Op>)
    requires Buying(t.state) && AllProgress(ops, Buy) && OneRate(ReportFills(ops))
    requires ProperDelivery(info, t.state, ReportFills(ops))
    ensures SellableIgnoresOrder(info, t, ops) <==> UnnamedAddNoLot(info, t.state, ReportFills(ops))
  {
    hide RunOps, ReportFills, Effectives, AlikeAssets, SellableFor, PickOps, Sum, Lots, Delivered, OneRate, Buying,
         IneffectiveAdd, StandsFor, EffectiveOp;
    var symbol, all := t.state.symbol, ReportFills(ops);
    var named := Effectives(info, symbol, all);
    if named == [] {
      forall reordered | multiset(reordered) == multiset(ops)
        ensures RunOps(info, t, reordered).state.sellableQuantity == RunOps(info, t, ops).state.sellableQuantity
      {
        UnnamedRun(info, t, ops);
        UnnamedReordered(info, t, ops, reordered);
      }
    } else {
      var asset := named[0].commissionAsset;
      NamedStandsFor(info, symbol, all);
      StandsForMeans(info, symbol, all, asset);
      TwoExtremes(info, t, ops, asset);
      SameLots(info, 0.0, symbol, asset, Delivered(t.state.buyFills + named), Delivered(t.state.buyFills + all));
      if UnnamedAddNoLot(info, t.state, all) {
        SellableWhenLotsAgree(info, t, ops, asset);
        forall reordered | multiset(reordered) == multiset(ops)
          ensures RunOps(info, t, reordered).state.sellableQuantity == RunOps(info, t, ops).state.sellableQuantity
        {
          SellableReordered(info, t, ops, reordered, asset);
        }
      }
    }
  }

  lemma StandsForMeans(info: ExchangeInfo, symbol: string, fills: seq<OrderFill>, asset: string)
    requires StandsFor(info, symbol, fills, asset)
    ensures asset == BNB || (asset != "" && symbol in info)
  {
  }

  lemma {:induction false} UnnamedRun(info: ExchangeInfo, t: Tracked, ops: seq<Op>)
    requires Buying(t.state) && AllProgress(ops, Buy) && Effectives(info, t.state.symbol, ReportFills(ops)) == []
    ensures RunOps(info, t, ops).state.sellableQuantity == t.state.sellableQuantity
  {
    if ops != [] {
      hide Apply, EffectiveOp, ReportFills, Effectives, Buying;
      var n := |ops| - 1;
      EffectivesLast(info, t.state.symbol, ops);
      UnnamedRun(info, t, ops[..n]);
      BuyRun(info, t, ops[..n]);
      SellableStep(info, RunOps(info, t, ops[..n]), ops[n]);
    }
  }

  lemma EffectivesPermutation(info: ExchangeInfo, symbol: string, a: seq<OrderFill>, b: seq<OrderFill>)
    requires multiset(a) == multiset(b)
    ensures multiset(Effectives(info, symbol, a)) == multiset(Effectives(info, symbol, b))
  {
    hide Effective;
    forall f ensures multiset(Effectives(info, symbol, a))[f] == multiset(Effectives(info, symbol, b))[f] {
      EffectivesCount(info, symbol, a, f);
      EffectivesCount(info, symbol, b, f);
    }
  }

  lemma {:induction false} EffectivesCount(info: ExchangeInfo, symbol: string, fills: seq<OrderFill>, f: OrderFill)
    ensures multiset(Effectives(info, symbol, fills))[f] == if Effective(info, symbol, f) then multiset(fills)[f] else 0
  {
    if fills != [] {
      hide Effective;
      EffectivesCount(info, symbol, fills[..|fills| - 1], f);
      assert fills == fills[..|fills| - 1] + [fills[|fills| - 1]];
    }
  }

  lemma UnnamedReordered(info: ExchangeInfo, t: Tracked, ops: seq<Op>, reordered: seq<Op>)
    requires Buying(t.state) && AllProgress(ops, Buy) && multiset(reordered) == multiset(ops)
    requires Effectives(info, t.state.symbol, ReportFills(ops)) == []
    ensures RunOps(info, t, reordered).state.sellableQuantity == t.state.sellableQuantity
  {
    hide RunOps, ReportFills, Effectives, Buying;
    var a, b := Effectives(info, t.state.symbol, ReportFills(ops)), Effectives(info, t.state.symbol, ReportFills(reordered));
    AllProgressMembers(ops, reordered, Buy);
    ReportFillsPermutation(ops, reordered);
    EffectivesPermutation(info, t.state.symbol, ReportFills(ops), ReportFills(reordered));
    assert |multiset(a)| == |a| && |multiset(b)| == |b|;
    UnnamedRun(info, t, reordered);
  }

  lemma SellableReordered(info: ExchangeInfo, t: Tracked, ops: seq<Op>, reordered: seq<Op>, asset: string)
    requires Buying(t.state) && AllProgress(ops, Buy) && multiset(reordered) == multiset(ops)
    requires StandsFor(info, t.state.symbol, ReportFills(ops), asset)
    requires IneffectiveAdd(info, t.state.symbol, ReportFills(ops))
    requires var s, symbol, all := t.state, t.state.symbol, ReportFills(ops);
             && Sum(s.buyFills + Effectives(info, symbol, all), Received) > 0.0
             && Lots(info, symbol, asset, Delivered(s.buyFills + Effectives(info, symbol, all)))
                == Lots(info, symbol, asset, Delivered(s.buyFills + all))
    ensures RunOps(info, t, reordered).state.sellableQuantity ==
            SellableFor(info, 0.0, t.state.symbol, asset, Delivered(t.state.buyFills + ReportFills(ops)))
  {
    hide RunOps, ReportFills, Effectives, Effective, Received, Sum, Lots, Delivered, Buying, AlikeAssets;
    var s, symbol, all, other := t.state, t.state.symbol, ReportFills(ops), ReportFills(reordered);
    AllProgressMembers(ops, reordered, Buy);
    ReportFillsPermutation(ops, reordered);
    EffectivesPermutation(info, symbol, all, other);
    SameFillMembers(all, other);
    SameFillMembers(Effectives(info, symbol, all), Effectives(info, symbol, other));
    PaidPermutation(Effectives(info, symbol, all), Effectives(info, symbol, other), asset);
    MembersAdd(info, symbol, all, other);
    assert multiset(s.buyFills + all) == multiset(s.buyFills + other);
    assert multiset(s.buyFills + Effectives(info, symbol, all)) == multiset(s.buyFills + Effectives(info, symbol, other));
    DeliveredPermutation(s.buyFills + all, s.buyFills + other);
    DeliveredPermutation(s.buyFills + Effectives(info, symbol, all), s.buyFills + Effectives(info, symbol, other));
    SellableWhenLotsAgree(info, t, reordered, asset);
  }

  lemma MembersAdd(info: ExchangeInfo, symbol: string, a: seq<OrderFill>, b: seq<OrderFill>)
    requires IneffectiveAdd(info, symbol, a) && forall f :: f in a <==> f in b
    ensures IneffectiveAdd(info, symbol, b)
  {
    hide Effective, Received;
    forall i | 0 <= i < |b| ensures !Effective(info, symbol, b[i]) ==> Received(b[i]) >= 0.0 {
      assert b[i] in b;
      var k :| 0 <= k < |a| && a[k] == b[i];
    }
  }

  /** Full confluence, exactly, whatever assets the fills name or fail to name: the outcome of a buy order is independent
      of the order in which its reports arrive if and only if its fills were all charged at one rate and those that name
      no asset complete no lot of their own. */
  lemma OutcomeIgnoresOrderIff(info: ExchangeInfo, t: Tracked, ops: seq<Op>)
    requires !ReportCloses(t.state) && AllProgress(ops, Buy) && OneNew(ops) && ReportFills(ops) != []
    requires ProperDelivery(info, t.state, ReportFills(ops))
    ensures OutcomeIgnoresOrder(info, t, ops) <==>
            OneRate(ReportFills(ops)) && UnnamedAddNoLot(info, t.state, ReportFills(ops))
  {
    hide RunOps, ReportFills, OneNew, UpdateBuy, UnnamedAddNoLot, OneRate, Sum;
    FeeIgnoresOrderIffOneRate(info, t, ops);
    if OutcomeIgnoresOrder(info, t, ops) {
      forall reordered | multiset(reordered) == multiset(ops)
        ensures RunOps(info, t, reordered).state.fee == RunOps(info, t, ops).state.fee
      {
        assert SameOutcome(RunOps(info, t, ops).state, RunOps(info, t, reordered).state);
      }
    }
    if OneRate(ReportFills(ops)) {
      SellableOfQuiet(info, t, ops);
      QuietUnnamed(info, t, ReportFills(ops));
      QuietSellableIff(info, Quiet(t), ops);
      OutcomeIsSellable(info, t, ops);
    }
  }

  lemma QuietUnnamed(info: ExchangeInfo, t: Tracked, fills: seq<OrderFill>)
    ensures UnnamedAddNoLot(info, Quiet(t).state, fills) <==> UnnamedAddNoLot(info, t.state, fills)
    ensures ProperDelivery(info, Quiet(t).state, fills) <==> ProperDelivery(info, t.state, fills)
    ensures !ReportCloses(t.state) ==> Buying(Quiet(t).state)
  {
    hide Lots, Delivered, Effectives, Sum;
  }

  lemma SellableOfQuiet(info: ExchangeInfo, t: Tracked, ops: seq<Op>)
    requires AllProgress(ops, Buy)
    ensures SellableIgnoresOrder(info, t, ops) <==> SellableIgnoresOrder(info, Quiet(t), ops)
  {
    hide RunOps, AllSaleIds;
    SaleRun(info, t, ops);
    forall reordered | multiset(reordered) == multiset(ops)
      ensures RunOps(info, t, reordered).state.sellableQuantity
           == RunOps(info, Quiet(t), reordered).state.sellableQuantity
    {
      AllProgressMembers(ops, reordered, Buy);
      SaleRun(info, t, reordered);
    }
  }

  lemma OutcomeIsSellable(info: ExchangeInfo, t: Tracked, ops: seq<Op>)
    requires !ReportCloses(t.state) && AllProgress(ops, Buy) && OneNew(ops) && OneRate(ReportFills(ops))
    requires Sum(t.state.buyFills + ReportFills(ops), Received) > 0.0
    ensures OutcomeIgnoresOrder(info, t, ops) <==> SellableIgnoresOrder(info, t, ops)
  {
    hide RunOps, ReportFills, OneNew, OneRate, Sum, SameOutcome;
    forall reordered | multiset(reordered) == multiset(ops)
      ensures SameOutcome(RunOps(info, t, ops).state, RunOps(info, t, reordered).state) <==>
              RunOps(info, t, ops).state.sellableQuantity == RunOps(info, t, reordered).state.sellableQuantity
    {
      ConfluenceUpToSellable(info, t, ops, reordered);
    }
  }
}
