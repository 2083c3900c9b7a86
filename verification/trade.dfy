/** The mutable trade object of `go/types/trade.go`. */
module Trades {
  import opened Numbers
  import opened Fills
  import opened TradeModel
  import opened TradeOps

  class Trade {
    var State: TradeState
    /** Requests made on behalf of this trade, in order. */
    ghost var Sent: seq<Effect>

    ghost function View(): Tracked
      reads this
    {
      Tracked(State, Sent)
    }

    constructor NewTrade(now: int)
      ensures State == NewTradeState(now) && Sent == []
      ensures Blank(State, now)
    {
      State := NewTradeState(now);
      Sent := [];
    }

    constructor NewTradeWithState(state: TradeState)
      ensures State == Reload(state) && Sent == []
    {
      State := state;
      Sent := [];
      new;
      UpdateSellState();
      UpdateBuyState();
    }

    method IsDone() returns (done: bool)
      ensures done <==> TradeModel.IsDone(State)
      ensures done <==> State.status in {Done, Canceled, Failed, Abandoned}
    {
      match State.status
      case Done => done := true;
      case Canceled => done := true;
      case Failed => done := true;
      case Abandoned => done := true;
      case _ => done := false;
    }

    method FeeAsset() returns (asset: string)
      ensures asset == FeeAssetOf(State.buyFills)
    {
      var lastFillIndex := |State.buyFills| - 1;
      if lastFillIndex < 0 {
        return "";
      }
      return State.buyFills[lastFillIndex].commissionAsset;
    }

    method SetLimitSellByPercent(percent: real)
      modifies this`State
      ensures State == old(State).(limitSell := LimitSell(true, ByPercent, percent, old(State.limitSell.price)))
    {
      State := State.(limitSell := State.limitSell.(enabled := true, kind := ByPercent, percent := percent));
    }

    method SetLimitSellByPrice(price: real)
      modifies this`State
      ensures State == old(State).(limitSell := LimitSell(true, ByPrice, old(State.limitSell.percent), Finite(price)))
    {
      State := State.(limitSell := State.limitSell.(enabled := true, kind := ByPrice, price := Finite(price)));
    }

    method SetStopLoss(enable: bool, percent: real)
      modifies this`State
      ensures State == old(State).(stopLoss := StopLoss(enable, percent, old(State.stopLoss.triggered)))
    {
      State := State.(stopLoss := State.stopLoss.(enabled := enable, percent := percent));
    }

    method SetTrailingProfit(enable: bool, percent: real, deviation: real)
      modifies this`State
      ensures State == old(State).(trailing :=
                old(State.trailing).(enabled := enable, percent := percent, deviation := deviation))
    {
      State := State.(trailing := State.trailing.(enabled := enable, percent := percent, deviation := deviation));
    }

    method AddClientOrderID(id: string)
      modifies this`State
      ensures State == old(State).(clientOrderIds := old(State.clientOrderIds) + {id})
    {
      State := State.(clientOrderIds := State.clientOrderIds + {id});
    }

    method DoAddBuyFill(fill: OrderFill)
      modifies this`State
      ensures State == AddBuyFill(old(State), fill)
    {
      State := State.(buyFills := State.buyFills + [fill]);
      UpdateBuyState();
    }

    method DoAddSellFill(fill: OrderFill)
      modifies this`State
      ensures State == AddSellFill(old(State), fill)
    {
      State := State.(sellFills := State.sellFills + [fill]);
      UpdateSellState();
    }

    method UpdateSellState()
      modifies this`State
      ensures State == UpdateSell(old(State))
    {
      var quantity, totalPrice, cost := 0.0, 0.0, 0.0;
      var fills := State.sellFills;
      var i := 0;
      while i < |fills|
        invariant 0 <= i <= |fills|
        invariant quantity == Sum(fills[..i], Quantity)
        invariant totalPrice == Sum(fills[..i], Notional)
        invariant cost == Sum(fills[..i], Proceeds)
        invariant State == old(State)
      {
        var fill := fills[i];
        assert fills[..i + 1][..i] == fills[..i];
        quantity := quantity + fill.quantity;
        totalPrice := totalPrice + fill.price * fill.quantity;
        if fill.commissionAsset == BNB {
          cost := cost + fill.price * fill.quantity * (1.0 - BNB_FEE);
        } else {
          cost := cost + (fill.price * fill.quantity - fill.commissionAmount);
        }
        i := i + 1;
      }
      assert fills[..i] == fills;
      if quantity > 0.0 {
        State := State.(averageSellPrice := Round8(totalPrice / quantity),
                        sellFillQuantity := Round8(quantity),
                        sellCost := Round8(cost));
        State := State.(profit := State.sellCost - State.buyCost);
        State := State.(profitPercent := Percent(State.profit, State.buyCost));
        State := State.(profit := Round8(State.profit));
        State := State.(profitPercent := Round8Number(State.profitPercent));
      }
    }

    method UpdateBuyState()
      modifies this`State
      ensures State == UpdateBuy(old(State))
    {
      var cost, totalPrice, quantity, lastFee := 0.0, 0.0, 0.0, 0.0;
      var fills := State.buyFills;
      var i := 0;
      while i < |fills|
        invariant 0 <= i <= |fills|
        invariant quantity == Sum(fills[..i], Received)
        invariant totalPrice == Sum(fills[..i], Notional)
        invariant cost == Sum(fills[..i], BuyCharge)
        invariant lastFee == LastFee(fills[..i])
        invariant State == old(State)
      {
        var fill := fills[i];
        assert fills[..i + 1][..i] == fills[..i];
        quantity := quantity + fill.quantity;
        totalPrice := totalPrice + fill.price * fill.quantity;
        if fill.commissionAsset == BNB {
          cost := cost + fill.price * fill.quantity * (1.0 + BNB_FEE);
          lastFee := BNB_FEE;
        } else {
          cost := cost + fill.price * fill.quantity;
          lastFee := DEFAULT_FEE;
          quantity := quantity - fill.commissionAmount;
        }
        i := i + 1;
      }
      assert fills[..i] == fills;
      if quantity > 0.0 {
        State := State.(averageBuyPrice := Round8(totalPrice / quantity),
                        buyFillQuantity := Round8(quantity),
                        buyCost := Round8(cost),
                        effectiveBuyPrice := Round8(cost / quantity));
        State := State.(fee := lastFee);
      }
    }
  }
}
