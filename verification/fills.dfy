/** Order fills and the sums `UpdateBuyState` and `UpdateSellState` accumulate over them
    (`go/types/trade.go`). */
module Fills {
  const DEFAULT_FEE: real := 0.001
  const BNB_FEE: real := 0.00075
  const BNB := "BNB"

  datatype OrderFill = OrderFill(price: real, quantity: real, commissionAsset: string, commissionAmount: real)

  function Quantity(f: OrderFill): real { f.quantity }

  function Notional(f: OrderFill): real { f.price * f.quantity }

  /** What a buy fill costs: a BNB commission is charged on top, any other comes out of the quantity. */
  function BuyCharge(f: OrderFill): real {
    if f.commissionAsset == BNB then Notional(f) * (1.0 + BNB_FEE) else Notional(f)
  }

  /** What a buy fill delivers. */
  function Received(f: OrderFill): real {
    if f.commissionAsset == BNB then f.quantity else f.quantity - f.commissionAmount
  }

  /** What a sell fill earns. */
  function Proceeds(f: OrderFill): real {
    if f.commissionAsset == BNB then Notional(f) * (1.0 - BNB_FEE) else Notional(f) - f.commissionAmount
  }

  function FeeRate(f: OrderFill): real {
    if f.commissionAsset == BNB then BNB_FEE else DEFAULT_FEE
  }

  /** `FeeAsset`: the commission asset of the most recent fill. */
  function FeeAssetOf(fills: seq<OrderFill>): string {
    if fills == [] then "" else fills[|fills| - 1].commissionAsset
  }

  function LastFee(fills: seq<OrderFill>): real {
    if fills == [] then 0.0 else FeeRate(fills[|fills| - 1])
  }

  function Sum(fills: seq<OrderFill>, f: OrderFill -> real): real {
    if fills == [] then 0.0
    else Sum(fills[..|fills| - 1], f) + f(fills[|fills| - 1])
  }

  lemma SumAppend(fills: seq<OrderFill>, x: OrderFill, f: OrderFill -> real)
    ensures Sum(fills + [x], f) == Sum(fills, f) + f(x)
  {
    assert (fills + [x])[..|fills|] == fills;
  }

  lemma {:induction false} SumConcat(a: seq<OrderFill>, b: seq<OrderFill>, f: OrderFill -> real)
    ensures Sum(a + b, f) == Sum(a, f) + Sum(b, f)
  {
    if b == [] {
      assert a + b == a;
    } else {
      var n := |b| - 1;
      SumConcat(a, b[..n], f);
      assert a + b == (a + b[..n]) + [b[n]];
      SumAppend(a + b[..n], b[n], f);
    }
  }

  /** The sums do not depend on the order in which the fills arrived. */
  lemma {:induction false} SumPermutation(a: seq<OrderFill>, b: seq<OrderFill>, f: OrderFill -> real)
    requires multiset(a) == multiset(b)
    ensures Sum(a, f) == Sum(b, f)
    decreases |a|
  {
    if a == [] {
      assert |b| == |multiset(b)| == 0;
    } else {
      var n := |a| - 1;
      var x := a[n];
      assert a == a[..n] + [x];
      assert x in multiset(b);
      var i :| 0 <= i < |b| && b[i] == x;
      assert b == b[..i] + [x] + b[i + 1..];
      var rest := b[..i] + b[i + 1..];
      assert multiset(a[..n]) == multiset(a) - multiset{x} == multiset(b) - multiset{x} == multiset(rest);
      SumPermutation(a[..n], rest, f);
      SumConcat(b[..i], b[i + 1..], f);
      SumConcat(b[..i] + [x], b[i + 1..], f);
      SumAppend(b[..i], x, f);
    }
  }

  lemma {:induction false} SumNonNegative(fills: seq<OrderFill>, f: OrderFill -> real)
    requires forall i | 0 <= i < |fills| :: f(fills[i]) >= 0.0
    ensures Sum(fills, f) >= 0.0
  {
    if fills != [] {
      SumNonNegative(fills[..|fills| - 1], f);
    }
  }
}
