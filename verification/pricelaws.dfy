/** What the sell quantities and prices of the trade service guarantee, rounding included. */
module PriceLaws {
  import opened Numbers
  import opened Fills
  import opened TradeModel
  import opened Pricing

  // ---------- lot size ----------

  /** The lot size adjustment is exactly the floor to a multiple of the step, for every quantity and step. */
  lemma FixQuantityIsFloor(quantity: real, stepSize: real)
    requires stepSize > 0.0
    ensures FixQuantityToStepSize(quantity, stepSize) == Steps((quantity / stepSize).Floor, stepSize)
    ensures FixQuantityToStepSize(quantity, stepSize) <= quantity
    ensures quantity < FixQuantityToStepSize(quantity, stepSize) + stepSize
  {
    hide Roundx, Steps, Round;
    var k := (quantity / stepSize).Floor;
    RoundxNear(quantity, stepSize);
    RoundStep(quantity, stepSize);
    FloorStep(quantity, stepSize);
    NextStep(k, stepSize);
    RoundxOfSteps(k, stepSize, Steps(k, stepSize));
  }

  lemma FixQuantityNonNegative(quantity: real, stepSize: real)
    requires stepSize > 0.0 && quantity >= 0.0
    ensures FixQuantityToStepSize(quantity, stepSize) >= 0.0
  {
    FixQuantityIsFloor(quantity, stepSize);
    var x := quantity / stepSize;
    assert x >= 0.0;
    assert x.Floor as real * stepSize >= 0.0;
  }

  lemma MulMonotone(a: real, b: real, k: real)
    requires a <= b && 0.0 <= k
    ensures a * k <= b * k
  {
    var gap := b - a;
    assert 0.0 <= gap * k;
  }

  // ---------- limit sell by percent ----------

  ghost predicate OnEightDecimals(fills: seq<OrderFill>) {
    forall i | 0 <= i < |fills| :: Decimal8(fills[i].quantity) && Decimal8(fills[i].commissionAmount)
  }

  lemma {:induction false} ReceivedOnGrid(fills: seq<OrderFill>)
    requires OnEightDecimals(fills)
    ensures Decimal8(Sum(fills, Received))
  {
    if fills != [] {
      var n := |fills| - 1;
      ReceivedOnGrid(fills[..n]);
      Decimal8Closed(fills[n].quantity, fills[n].commissionAmount);
      Decimal8Closed(Sum(fills[..n], Received), Received(fills[n]));
    }
  }

  /** The target price beats the exact buy price `cost / bought`, because the fee outweighs the rounding of the cost. */
  lemma TargetBeatsCost(buyCost: real, cost: real, fee: real, percent: real, sellable: real, bought: real, price: real)
    requires 0.0 < sellable <= bought && 0.0 <= percent && 0.0 < fee
    requires cost <= buyCost + HALF_UNIT && buyCost * fee > HALF_UNIT
    requires price * sellable == MarkedUpCost(buyCost, fee, percent)
    ensures price > cost / bought
  {
    var base := buyCost * (1.0 + fee);
    assert base == buyCost + buyCost * fee;
    assert buyCost > 0.0;
    MulMonotone(1.0, 1.0 + percent / 100.0, base);
    assert price * sellable > cost && price * sellable > 0.0;
    assert price > 0.0;
    MulMonotone(sellable, bought, price);
    var average := cost / bought;
    assert average * bought == cost;
    if price <= average { MulMonotone(price, average, bought); }
  }

  /** Despite three roundings, a limit sell at a non-negative percentage is posted on the tick grid and
      strictly above the effective buy price, as soon as the fee on the cost exceeds half a unit of the
      eighth decimal. */
  lemma LimitSellAboveBuyPrice(s: TradeState, tickSize: real, percent: real)
    requires tickSize >= 2.0 * HALF_UNIT && percent >= 0.0
    requires BuySettled(s) && Sum(s.buyFills, Received) > 0.0 && OnEightDecimals(s.buyFills)
    requires 0.0 < s.sellableQuantity <= s.buyFillQuantity
    requires s.buyCost * s.fee > HALF_UNIT
    ensures var price := LimitSellPrice(s, tickSize, percent);
            price.Finite? && price.value > s.effectiveBuyPrice && MultipleOf(price.value, tickSize)
  {
    hide Roundx, UpdateBuy, Steps, Round;
    var target := TargetPrice(s, percent).value;
    TargetAboveEffective(s, percent, target);
    RoundxNear(target, tickSize);
    NextStep(Round(target / tickSize), tickSize);
  }

  lemma TargetAboveEffective(s: TradeState, percent: real, target: real)
    requires BuySettled(s) && Sum(s.buyFills, Received) > 0.0 && OnEightDecimals(s.buyFills)
    requires percent >= 0.0 && 0.0 < s.sellableQuantity <= s.buyFillQuantity
    requires s.buyCost * s.fee > HALF_UNIT
    requires TargetPrice(s, percent) == Finite(target)
    ensures target > s.effectiveBuyPrice - HALF_UNIT
  {
    hide Round8;
    var bought := Sum(s.buyFills, Received);
    var cost := Sum(s.buyFills, BuyCharge);
    ReceivedOnGrid(s.buyFills);
    Round8FixesGrid(bought);
    Round8Within(cost);
    var average := cost / bought;
    Round8Within(average);
    QuotientTimes(MarkedUpCost(s.buyCost, s.fee, percent), s.sellableQuantity, target);
    TargetBeatsCost(s.buyCost, cost, s.fee, percent, s.sellableQuantity, bought, target);
  }

  lemma QuotientTimes(a: real, b: real, q: real)
    requires b != 0.0 && Quotient(a, b) == Finite(q)
    ensures q * b == a
  {
  }

  lemma RoundReachesIff(x: real, m: int)
    ensures Round(x) >= m <==> if x >= 0.0 then x + 0.5 >= m as real else x + 0.5 > m as real
  {
  }

  lemma StepsAboveIff(k: int, v: real, unit: real)
    requires unit > 0.0
    ensures Steps(k, unit) > v <==> k > (v / unit).Floor
  {
    FloorStep(v, unit);
    var m := (v / unit).Floor;
    NextStep(m, unit);
    ScaleMonotone(k as real, m as real, unit);
    ScaleMonotone((m + 1) as real, k as real, unit);
  }

  /** Repaired or not, the posted price beats the effective buy price exactly when the target rounds to the tick the
      effective buy price lies on, or above. */
  lemma PostedAboveIffTargetReaches(s: TradeState, tickSize: real, percent: real)
    requires tickSize > 0.0 && s.sellableQuantity != 0.0
    ensures TargetPrice(s, percent).Finite? && LimitSellPrice(s, tickSize, percent).Finite?
    ensures LimitSellPrice(s, tickSize, percent).value > s.effectiveBuyPrice <==>
            Round(TargetPrice(s, percent).value / tickSize) >= (s.effectiveBuyPrice / tickSize).Floor
  {
    hide Roundx, Round, Steps;
    var target := TargetPrice(s, percent).value;
    var n := Round(target / tickSize);
    RoundxNear(target, tickSize);
    NextStep(n, tickSize);
    StepsAboveIff(n, s.effectiveBuyPrice, tickSize);
    StepsAboveIff(n + 1, s.effectiveBuyPrice, tickSize);
  }

  lemma QuotientReachesIff(a: real, sellable: real, tickSize: real, bound: real)
    requires sellable > 0.0 && tickSize > 0.0
    ensures a / sellable / tickSize >= bound <==> a >= bound * tickSize * sellable
    ensures a / sellable / tickSize > bound <==> a > bound * tickSize * sellable
    ensures a >= 0.0 <==> a / sellable / tickSize >= 0.0
  {
    var q := a / sellable / tickSize;
    ScaleOver(a / sellable, tickSize);
    ScaleOver(a, sellable);
    assert Scale(Scale(q, tickSize), sellable) == a;
    ScaleMonotone(bound, q, tickSize);
    ScaleMonotone(q, bound, tickSize);
    ScaleMonotone(Scale(bound, tickSize), Scale(q, tickSize), sellable);
    ScaleMonotone(Scale(q, tickSize), Scale(bound, tickSize), sellable);
    ScaleMonotone(0.0, q, tickSize);
    ScaleMonotone(0.0, Scale(q, tickSize), sellable);
  }

  /** Exactly when a limit sell is posted above the effective buy price, in terms of what goes into it: the marked-up
      cost must pay for the sellable quantity at half a tick below the tick the effective buy price lies on.  (A negative
      cost, as under a percentage below -100, must exceed that: halves round away from zero.) */
  lemma LimitSellAboveBuyPriceIff(s: TradeState, tickSize: real, percent: real)
    requires tickSize > 0.0 && s.sellableQuantity > 0.0
    ensures LimitSellPrice(s, tickSize, percent).Finite?
    ensures var cost := MarkedUpCost(s.buyCost, s.fee, percent);
            var bound := ((s.effectiveBuyPrice / tickSize).Floor as real - 0.5) * tickSize * s.sellableQuantity;
            LimitSellPrice(s, tickSize, percent).value > s.effectiveBuyPrice <==>
            if cost >= 0.0 then cost >= bound else cost > bound
  {
    hide LimitSellPrice, Round;
    var cost, m := MarkedUpCost(s.buyCost, s.fee, percent), (s.effectiveBuyPrice / tickSize).Floor;
    PostedAboveIffTargetReaches(s, tickSize, percent);
    var target := TargetPrice(s, percent).value;
    assert target == cost / s.sellableQuantity;
    RoundReachesIff(target / tickSize, m);
    QuotientReachesIff(cost, s.sellableQuantity, tickSize, m as real - 0.5);
  }

  /** With nothing to sell the price is no number, whatever the tick: infinite, or undefined for a cost of nothing. */
  lemma LimitSellOfNothing(s: TradeState, tickSize: real, percent: real)
    requires tickSize > 0.0 && s.sellableQuantity == 0.0
    ensures var cost := MarkedUpCost(s.buyCost, s.fee, percent);
            LimitSellPrice(s, tickSize, percent) == if cost == 0.0 then NotANumber else Infinite(cost > 0.0)
  {
  }

  /** A fill of 0.1 at 0.00000014. */
  function DustTrade(): TradeState {
    AddBuyFill(NewTradeState(0), OrderFill(0.00000014, 0.1, "ETH", 0.0)).(sellableQuantity := 0.1)
  }

  /** Below that threshold the repair by one tick is not enough: a dust trade is posted under its buy price. */
  lemma DustLimitSellBelowBuyPrice()
    ensures var s := DustTrade();
            && BuySettled(s) && OnEightDecimals(s.buyFills) && s.buyCost == 2.0 * HALF_UNIT
            && LimitSellPrice(s, 2.0 * HALF_UNIT, 0.0) == Finite(0.00000011)
            && s.effectiveBuyPrice == 0.00000014
  {
    hide Roundx, Round, Round8, Sum, Percent;
    var s := DustTrade();
    var fill := OrderFill(0.00000014, 0.1, "ETH", 0.0);
    assert s.buyFills == [] + [fill];
    assert Sum([], Received) == Sum([], Notional) == Sum([], BuyCharge) == 0.0 by { DustSums(); }
    SumAppend([], fill, Received);
    SumAppend([], fill, Notional);
    SumAppend([], fill, BuyCharge);
    var cost := 0.000000014;
    assert Received(fill) == 0.1 && Notional(fill) == BuyCharge(fill) == cost;
    assert cost / 0.1 == 0.00000014;
    Round8Value(cost, 1);
    Round8Value(0.1, 10000000);
    Round8Value(0.00000014, 14);
    assert s.buyCost == 0.00000001 && s.effectiveBuyPrice == 0.00000014 && s.fee == 0.001;
    var target := 0.0000001001;
    assert TargetPrice(s, 0.0) == Finite(target);
    RoundxNear(target, 2.0 * HALF_UNIT);
    assert target / (2.0 * HALF_UNIT) == 10.01;
    RoundUnique(10.01, 10);
    assert Decimal8(0.1) && Decimal8(0.0) by {
      OnGrid(0.1, 10000000);
      OnGrid(0.0, 0);
    }
  }

  lemma DustSums()
    ensures Sum([], Received) == Sum([], Notional) == Sum([], BuyCharge) == 0.0
  {
  }

  // ---------- profit ----------

  /** The profit estimate at the posted price misses the requested percentage by the fee on the fee and by
      the rounding to the tick, whether or not the price was repaired.  The tick counts with its net
      proceeds relative to the buy cost. */
  lemma LimitSellProfitBounds(s: TradeState, tickSize: real, percent: real)
    requires tickSize > 0.0 && s.buyCost > 0.0 && s.sellableQuantity > 0.0 && 0.0 <= s.fee <= 1.0
    ensures var price := LimitSellPrice(s, tickSize, percent);
            var ideal := percent - (100.0 + percent) * (s.fee * s.fee);
            var tick := NetProceeds(tickSize, s.sellableQuantity, s.fee) / s.buyCost;
            && price.Finite?
            && CalculateProfit(s, price.value).Finite?
            && ideal - 50.0 * tick <= CalculateProfit(s, price.value).value <= ideal + 150.0 * tick
  {
    hide Roundx, Percent, MarkedUpCost, NetProceeds;
    var target := TargetPrice(s, percent).value;
    RoundxNear(target, tickSize);
    var price := LimitSellPrice(s, tickSize, percent).value;
    var proceeds := NetProceeds(price, s.sellableQuantity, s.fee);
    PercentOf(proceeds - s.buyCost, s.buyCost);
    NetAtTarget(s.buyCost, s.fee, percent, s.sellableQuantity, target);
    NetBand(target, price, tickSize, s.sellableQuantity, s.fee);
    PercentBounds(proceeds, NetProceeds(tickSize, s.sellableQuantity, s.fee), s.buyCost,
                  percent - (100.0 + percent) * (s.fee * s.fee));
  }

  lemma PercentOf(part: real, whole: real)
    requires whole != 0.0
    ensures Percent(part, whole) == Finite(part / whole * 100.0)
  {
  }

  lemma NetAtTarget(cost: real, fee: real, percent: real, sellable: real, target: real)
    requires sellable > 0.0
    requires Quotient(MarkedUpCost(cost, fee, percent), sellable) == Finite(target)
    ensures NetProceeds(target, sellable, fee) - cost == (percent - (100.0 + percent) * (fee * fee)) / 100.0 * cost
  {
    QuotientTimes(MarkedUpCost(cost, fee, percent), sellable, target);
    assert NetProceeds(target, sellable, fee) == MarkedUpCost(cost, fee, percent) * (1.0 - fee);
    assert MarkedUpCost(cost, fee, percent) * (1.0 - fee) == cost * (1.0 - fee * fee) * (1.0 + percent / 100.0);
  }

  lemma NetBand(target: real, price: real, tickSize: real, sellable: real, fee: real)
    requires sellable > 0.0 && 0.0 <= fee <= 1.0
    requires target - tickSize / 2.0 <= price <= target + 1.5 * tickSize
    ensures NetProceeds(target, sellable, fee) - NetProceeds(tickSize, sellable, fee) / 2.0
         <= NetProceeds(price, sellable, fee)
    ensures NetProceeds(price, sellable, fee)
         <= NetProceeds(target, sellable, fee) + 1.5 * NetProceeds(tickSize, sellable, fee)
  {
    var weight := sellable * (1.0 - fee);
    assert weight >= 0.0;
    assert (price - target + tickSize / 2.0) * weight >= 0.0;
    assert (target + 1.5 * tickSize - price) * weight >= 0.0;
    assert forall p :: NetProceeds(p, sellable, fee) == p * weight;
  }

  lemma PercentBounds(proceeds: real, tick: real, cost: real, ideal: real)
    requires cost > 0.0
    requires ideal / 100.0 * cost - tick / 2.0 <= proceeds - cost <= ideal / 100.0 * cost + 1.5 * tick
    ensures ideal - 50.0 * (tick / cost) <= (proceeds - cost) / cost * 100.0 <= ideal + 150.0 * (tick / cost)
  {
    var profit, part := (proceeds - cost) / cost, tick / cost;
    assert profit * cost == proceeds - cost && part * cost == tick;
    SignOfProduct(profit - ideal / 100.0 + part / 2.0, cost);
    SignOfProduct(ideal / 100.0 + 1.5 * part - profit, cost);
  }

  lemma SignOfProduct(a: real, k: real)
    requires k > 0.0 && a * k >= 0.0
    ensures a >= 0.0
  {
  }

  // ---------- estimate and outcome ----------

  /** Sell fills that all execute at one price and pay their commission in BNB. */
  ghost predicate SoldAt(fills: seq<OrderFill>, price: real) {
    forall i | 0 <= i < |fills| :: fills[i].price == price && fills[i].commissionAsset == BNB
  }

  lemma {:induction false} ProceedsAtPrice(fills: seq<OrderFill>, price: real)
    requires SoldAt(fills, price)
    ensures Sum(fills, Proceeds) == price * Sum(fills, Quantity) * (1.0 - BNB_FEE)
  {
    if fills != [] {
      var n := |fills| - 1;
      ProceedsAtPrice(fills[..n], price);
      var before, last := Sum(fills[..n], Quantity), fills[n].quantity;
      assert price * (before + last) == price * before + price * last;
    }
  }

  /** However the sale is split, selling the whole sellable quantity at the estimated price realises the
      estimated profit, up to the rounding of the proceeds and of the percentage. */
  lemma EstimateMatchesOutcome(s: TradeState, fills: seq<OrderFill>, price: real)
    requires BuySettled(s) && Sum(s.buyFills, Received) > 0.0 && FeeAsset(s) == BNB && s.buyCost > 0.0
    requires SoldAt(fills, price) && Sum(fills, Quantity) == s.sellableQuantity > 0.0
    ensures var sold := UpdateSell(s.(sellFills := fills));
            && sold.profitPercent.Finite? && CalculateProfit(s, price).Finite?
            && Abs(sold.profitPercent.value - CalculateProfit(s, price).value)
               <= HALF_UNIT * 100.0 / s.buyCost + HALF_UNIT
  {
    hide Round8, Percent;
    var proceeds := Sum(fills, Proceeds);
    ProceedsAtPrice(fills, price);
    ProfitOfProceeds(s, price, proceeds);
    var sellCost := Round8(proceeds);
    Round8Within(proceeds);
    PercentOf(sellCost - s.buyCost, s.buyCost);
    PercentOf(proceeds - s.buyCost, s.buyCost);
    Round8Within((sellCost - s.buyCost) / s.buyCost * 100.0);
    PercentDistance(sellCost, proceeds, s.buyCost);
  }

  lemma ProfitOfProceeds(s: TradeState, price: real, proceeds: real)
    requires BuySettled(s) && Sum(s.buyFills, Received) > 0.0 && FeeAsset(s) == BNB
    requires proceeds == price * s.sellableQuantity * (1.0 - BNB_FEE)
    ensures CalculateProfit(s, price) == Percent(proceeds - s.buyCost, s.buyCost)
  {
    hide Percent, Round8;
    assert s.fee == BNB_FEE by { hide NetProceeds; }
    assert NetProceeds(price, s.sellableQuantity, BNB_FEE) == proceeds;
  }

  lemma OverIsScale(a: real, cost: real)
    requires cost > 0.0
    ensures a / cost == Scale(a, 1.0 / cost)
  {
    DivideByInverse(a, cost, 1.0 / cost);
  }

  lemma ScaleMinus(a: real, b: real, k: real)
    ensures Scale(a - b, k) == Scale(a, k) - Scale(b, k)
    ensures Scale(-a, k) == -Scale(a, k)
  {
  }

  lemma PercentDistance(a: real, b: real, cost: real)
    requires cost > 0.0 && Abs(a - b) <= HALF_UNIT
    ensures Abs((a - cost) / cost * 100.0 - (b - cost) / cost * 100.0) <= HALF_UNIT * 100.0 / cost
  {
    hide Scale;
    var k := 1.0 / cost;
    OverIsScale(a - cost, cost);
    OverIsScale(b - cost, cost);
    OverIsScale(HALF_UNIT * 100.0, cost);
    ScaleMinus(a - cost, b - cost, k);
    assert a - cost - (b - cost) == a - b;
    PercentOfGap(a - b, k);
  }

  lemma PercentOfGap(gap: real, k: real)
    requires k > 0.0 && Abs(gap) <= HALF_UNIT
    ensures Abs(Scale(gap, k) * 100.0) <= Scale(HALF_UNIT * 100.0, k)
  {
    assert (HALF_UNIT - gap) * k >= 0.0;
    assert (HALF_UNIT + gap) * k >= 0.0;
  }
}
