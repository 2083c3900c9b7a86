/** Quantities and prices of sell orders: step rounding, the limit sell price and the profit estimate
    (`go/tradeservice/tradeservice.go`). */
module Pricing {
  import opened Numbers
  import opened Fills
  import opened TradeModel

  datatype SymbolInfo = SymbolInfo(tickSize: real, stepSize: real)

  /** Exchange filters: both sizes are positive. */
  type Listing = i: SymbolInfo | i.tickSize > 0.0 && i.stepSize > 0.0 witness SymbolInfo(1.0, 1.0)

  type ExchangeInfo = map<string, Listing>

  /** `fixQuantityToStepSize` */
  function FixQuantityToStepSize(quantity: real, stepSize: real): real
    requires stepSize > 0.0
  {
    var fixedQuantity := Roundx(quantity, 1.0 / stepSize);
    if fixedQuantity > quantity then Roundx(fixedQuantity - stepSize, 1.0 / stepSize) else fixedQuantity
  }

  /** `updateSellableQuantity`; a failed step size lookup leaves the quantity alone. */
  function UpdateSellable(info: ExchangeInfo, s: TradeState): TradeState {
    if FeeAsset(s) == BNB then
      s.(sellableQuantity := s.buyFillQuantity)
    else if FeeAsset(s) != "" && s.symbol in info then
      s.(sellableQuantity := FixQuantityToStepSize(s.buyFillQuantity, info[s.symbol].stepSize))
    else
      s
  }

  /** Proceeds of selling at `price`, after the fee. */
  function NetProceeds(price: real, quantity: real, fee: real): real {
    price * quantity * (1.0 - fee)
  }

  /** `calculateProfit` */
  function CalculateProfit(s: TradeState, price: real): Number {
    Percent(NetProceeds(price, s.sellableQuantity, s.fee) - s.buyCost, s.buyCost)
  }

  /** What a sale at `percent` profit should fetch, the sell fee included. */
  function MarkedUpCost(cost: real, fee: real, percent: real): real {
    cost * (1.0 + fee) * (1.0 + percent / 100.0)
  }

  /** The price `limitSellByPercent` asks for before it looks at the tick size. */
  function TargetPrice(s: TradeState, percent: real): Number {
    Quotient(MarkedUpCost(s.buyCost, s.fee, percent), s.sellableQuantity)
  }

  /** The price `limitSellByPercent` posts: on the tick grid, one tick higher if it would not beat the buy price. */
  function LimitSellPrice(s: TradeState, tickSize: real, percent: real): Number
    requires tickSize > 0.0
  {
    var price := TargetPrice(s, percent).Map((v: real) => Roundx(v, 1.0 / tickSize));
    if price.AtMost(s.effectiveBuyPrice) then price.Map(v => v + tickSize) else price
  }
}
