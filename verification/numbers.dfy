/** Exact decimal arithmetic: the rounding primitives of `go/util/round.go` and `go/types/trade.go`,
    and the quotients whose divisor the code does not guard.  Prices, quantities and fees are `real`s. */
module Numbers {

  /** `math.Round`: the nearest integer, halves away from zero. */
  function Round(x: real): int {
    if x >= 0.0 then (x + 0.5).Floor else -(0.5 - x).Floor
  }

  /** `util.Roundx`: round to a multiple of `1 / x`. */
  function Roundx(val: real, x: real): real
    requires x != 0.0
  {
    Round(val * x) as real / x
  }

  /** `round8`: round to eight decimals. */
  function Round8(val: real): real {
    Roundx(val, 100000000.0)
  }

  function Scale(x: real, unit: real): real {
    x * unit
  }

  /** `n` steps of size `unit`. */
  function Steps(n: int, unit: real): real {
    Scale(n as real, unit)
  }

  /** `v` is a whole number of `unit`s. */
  ghost predicate MultipleOf(v: real, unit: real) {
    exists n :: v == Steps(n, unit)
  }

  /** `v` lies on the eight-decimal grid. */
  predicate Decimal8(v: real) {
    v * 100000000.0 == (v * 100000000.0).Floor as real
  }

  const HALF_UNIT: real := 0.000000005

  function Abs(x: real): real {
    if x < 0.0 then -x else x
  }

  /** What a float64 division leaves behind when its divisor may be zero. */
  datatype Number = Finite(value: real) | Infinite(positive: bool) | NotANumber {

    function Map(f: real -> real): Number {
      if Finite? then Finite(f(value)) else this
    }

    predicate Below(bound: real) {
      match this
      case Finite(v) => v < bound
      case Infinite(positive) => !positive
      case NotANumber => false
    }

    predicate Above(bound: real) {
      match this
      case Finite(v) => v > bound
      case Infinite(positive) => positive
      case NotANumber => false
    }

    predicate AtMost(bound: real) {
      match this
      case Finite(v) => v <= bound
      case Infinite(positive) => !positive
      case NotANumber => false
    }

    function Magnitude(): Number {
      match this
      case Finite(v) => Finite(Abs(v))
      case Infinite(_) => Infinite(true)
      case NotANumber => NotANumber
    }
  }

  function Quotient(a: real, b: real): Number {
    if b != 0.0 then Finite(a / b)
    else if a == 0.0 then NotANumber
    else Infinite(a > 0.0)
  }

  function Percent(part: real, whole: real): Number {
    Quotient(part, whole).Map(q => q * 100.0)
  }

  function Round8Number(n: Number): Number {
    n.Map(Round8)
  }

  // ---------- rounding ----------

  lemma RoundIsNearest(x: real)
    ensures -0.5 <= Round(x) as real - x <= 0.5
  {
  }

  lemma RoundUnique(x: real, k: int)
    requires -0.5 < k as real - x < 0.5
    ensures Round(x) == k
  {
    RoundIsNearest(x);
  }

  lemma RoundMonotone(x: real, y: real)
    requires x <= y
    ensures Round(x) <= Round(y)
  {
    RoundIsNearest(x);
    RoundIsNearest(y);
  }

  lemma RoundInteger(x: real, n: int)
    requires x == n as real
    ensures Round(x) == n
  {
  }

  lemma RoundCongruence(x: real, y: real)
    requires x == y
    ensures Round(x) == Round(y)
  {
  }

  lemma DivideByInverse(n: real, x: real, unit: real)
    requires unit != 0.0 && x * unit == 1.0
    ensures x != 0.0 && n / x == n * unit && n * x == n / unit
  {
    var p, q := n * unit, n * x;
    assert p * x == n * (x * unit);
    assert q * unit == n * (x * unit);
  }

  lemma RoundxUnfold(val: real, x: real, n: int)
    requires x != 0.0 && n == Round(val * x)
    ensures Roundx(val, x) == n as real / x
  {
  }

  lemma RoundxInSteps(val: real, x: real, unit: real)
    requires unit > 0.0 && x * unit == 1.0
    ensures x != 0.0 && Roundx(val, x) == Steps(Round(val / unit), unit)
  {
    DivideByInverse(val, x, unit);
    RoundCongruence(val * x, val / unit);
    var n := Round(val / unit);
    RoundxUnfold(val, x, n);
    DivideByInverse(n as real, x, unit);
  }

  lemma NextStep(n: int, unit: real)
    ensures Steps(n + 1, unit) == Steps(n, unit) + unit
  {
  }

  lemma StepsOver(n: int, unit: real)
    requires unit != 0.0
    ensures Steps(n, unit) / unit == n as real
  {
  }

  lemma ScaleMonotone(x: real, y: real, unit: real)
    requires unit > 0.0
    ensures x <= y <==> Scale(x, unit) <= Scale(y, unit)
  {
    if x <= y {
      assert (y - x) * unit >= 0.0;
    } else {
      assert (x - y) * unit > 0.0;
    }
  }

  lemma ScaleShift(x: real, unit: real)
    ensures Scale(x + 0.5, unit) == Scale(x, unit) + unit / 2.0
    ensures Scale(x - 0.5, unit) == Scale(x, unit) - unit / 2.0
    ensures Scale(x + 1.0, unit) == Scale(x, unit) + unit
  {
  }

  lemma ScaleOver(v: real, unit: real)
    requires unit != 0.0
    ensures Scale(v / unit, unit) == v
  {
  }

  /** `v` lies in the step that starts at its floor. */
  lemma WholeUnitsMonotone(a: real, b: real, unit: real)
    requires unit > 0.0 && a <= b
    ensures (a / unit).Floor <= (b / unit).Floor
  {
    var x, y := a / unit, b / unit;
    assert x * unit == a && y * unit == b;
    assert (y - x) * unit >= 0.0;
    assert x <= y;
    FloorMonotone(x, y);
  }

  lemma FloorMonotone(x: real, y: real)
    requires x <= y
    ensures x.Floor <= y.Floor
  {
  }

  lemma FloorStep(v: real, unit: real)
    requires unit > 0.0
    ensures Steps((v / unit).Floor, unit) <= v < Steps((v / unit).Floor, unit) + unit
  {
    hide Scale;
    var x := v / unit;
    var k := x.Floor as real;
    ScaleOver(v, unit);
    ScaleShift(k, unit);
    ScaleMonotone(k, x, unit);
    ScaleMonotone(k + 1.0, x, unit);
  }

  /** Rounding to steps takes the floor or the step after it, whichever is nearer. */
  lemma RoundStep(v: real, unit: real)
    requires unit > 0.0
    ensures Round(v / unit) == (v / unit).Floor || Round(v / unit) == (v / unit).Floor + 1
    ensures Abs(Steps(Round(v / unit), unit) - v) <= unit / 2.0
  {
    hide Scale;
    var x := v / unit;
    var n := Round(x) as real;
    RoundIsNearest(x);
    ScaleOver(v, unit);
    ScaleShift(x, unit);
    ScaleMonotone(n, x + 0.5, unit);
    ScaleMonotone(x - 0.5, n, unit);
  }

  lemma RoundxNear(val: real, unit: real)
    requires unit > 0.0
    ensures Roundx(val, 1.0 / unit) == Steps(Round(val / unit), unit)
    ensures Abs(Roundx(val, 1.0 / unit) - val) <= unit / 2.0
  {
    hide Roundx, Steps;
    RoundxInSteps(val, 1.0 / unit, unit);
    RoundStep(val, unit);
  }

  lemma RoundxOfSteps(n: int, unit: real, v: real)
    requires unit > 0.0 && v == Steps(n, unit)
    ensures Roundx(v, 1.0 / unit) == v
  {
    hide Roundx, Steps, Round;
    RoundxNear(v, unit);
    StepsOver(n, unit);
    RoundInteger(v / unit, n);
  }

  lemma Round8Within(val: real)
    ensures Abs(Round8(val) - val) <= HALF_UNIT
    ensures Decimal8(Round8(val))
  {
    RoundIsNearest(val * 100000000.0);
  }

  lemma Round8Monotone(x: real, y: real)
    requires x <= y
    ensures Round8(x) <= Round8(y)
  {
    RoundMonotone(x * 100000000.0, y * 100000000.0);
  }

  lemma Round8NextUnit(x: real)
    requires x >= 0.0
    ensures Round8(x + 2.0 * HALF_UNIT) == Round8(x) + 2.0 * HALF_UNIT
  {
    var y := x * 100000000.0;
    assert (x + 2.0 * HALF_UNIT) * 100000000.0 == y + 1.0;
    assert Round(y + 1.0) == Round(y) + 1;
  }

  lemma Round8Value(v: real, n: int)
    requires -0.5 < n as real - v * 100000000.0 < 0.5
    ensures Round8(v) == n as real / 100000000.0
  {
    RoundUnique(v * 100000000.0, n);
  }

  /** Rounding is the identity exactly on the eight-decimal grid. */
  lemma Round8FixesGrid(v: real)
    ensures Round8(v) == v <==> Decimal8(v)
  {
    if Decimal8(v) {
      RoundUnique(v * 100000000.0, (v * 100000000.0).Floor);
    } else {
      Round8Within(v);
    }
  }

  lemma OnGrid(v: real, n: int)
    requires v * 100000000.0 == n as real
    ensures Decimal8(v)
  {
  }

  lemma Decimal8Closed(x: real, y: real)
    requires Decimal8(x) && Decimal8(y)
    ensures Decimal8(x + y) && Decimal8(x - y)
  {
    var i, j := (x * 100000000.0).Floor, (y * 100000000.0).Floor;
    OnGrid(x + y, i + j);
    OnGrid(x - y, i - j);
  }
}
