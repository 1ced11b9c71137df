/** Historical-simulation Value-at-Risk: `calculate_returns`,
    `historical_simulation_var` and `calculate_value_at_risk` of
    backend/app/tests/routes/test_stock_data.py, with the fixtures its tests
    pin down. Prices and returns are reals. */
module ValueAtRisk {
  import opened PySemantics
  import opened Sorting

  // ---------------------------------------------------------------------------
  // calculate_returns: data / data.shift(1), then dropna()
  // ---------------------------------------------------------------------------

  /** `series.shift(1)`: every value moves one place later, the first slot
      becomes NaN (None) and the last value falls off. */
  function Shift1(s: seq<real>): (r: seq<Option<real>>)
    ensures |r| == |s|
    ensures forall i :: 0 < i < |s| ==> r[i] == Some(s[i - 1])
    ensures |s| > 0 ==> r[0] == None
  {
    if s == [] then [] else [None] + seq(|s| - 1, i requires 0 <= i < |s| - 1 => Some(s[i]))
  }

  /** Position-aligned `a / b` where `b` may hold NaN; NaN propagates. */
  function DivideAligned(a: seq<real>, b: seq<Option<real>>): (r: seq<Option<real>>)
    requires |a| == |b|
    requires forall i :: 0 <= i < |b| && b[i].Some? ==> b[i].value != 0.0
    ensures |r| == |a|
    ensures forall i :: 0 <= i < |a| ==> r[i] == if b[i].Some? then Some(a[i] / b[i].value) else None
  {
    seq(|a|, i requires 0 <= i < |a| => if b[i].Some? then Some(a[i] / b[i].value) else None)
  }

  /** Each quotient is present exactly when its divisor is, and times the
      divisor gives the dividend back. */
  lemma DivideAlignedInverse(a: seq<real>, b: seq<Option<real>>)
    requires |a| == |b|
    requires forall i :: 0 <= i < |b| && b[i].Some? ==> b[i].value != 0.0
    ensures var r := DivideAligned(a, b);
            forall i :: 0 <= i < |a| ==> (r[i].Some? <==> b[i].Some?) && (r[i].Some? ==> r[i].value * b[i].value == a[i])
  {
    var r := DivideAligned(a, b);
    forall i | 0 <= i < |a| && r[i].Some? ensures r[i].value * b[i].value == a[i] {
      RatioTimesDivisor(b[i].value, a[i]);
    }
  }

  /** `dropna()`: the non-NaN values, in order. */
  function DropNa(s: seq<Option<real>>): (r: seq<real>)
    ensures |r| <= |s|
  {
    if s == [] then []
    else (if s[0].Some? then [s[0].value] else []) + DropNa(s[1..])
  }

  /** A value survives `dropna()` exactly when it is present. */
  lemma {:induction false} DropNaMembers(s: seq<Option<real>>)
    ensures forall x :: x in DropNa(s) <==> Some(x) in s
  {
    if s != [] {
      DropNaMembers(s[1..]);
      assert s == [s[0]] + s[1..];
    }
  }

  lemma {:induction false} DropNaNoNaN(s: seq<Option<real>>)
    requires forall i :: 0 <= i < |s| ==> s[i].Some?
    ensures |DropNa(s)| == |s|
    ensures forall i :: 0 <= i < |s| ==> DropNa(s)[i] == s[i].value
  {
    if s != [] {
      DropNaNoNaN(s[1..]);
    }
  }

  /** After `shift(1)`, `dropna()` leaves every price but the last. */
  lemma {:induction false} ShiftThenDropNa(s: seq<real>)
    requires s != []
    ensures DropNa(Shift1(s)) == s[..|s| - 1]
  {
    var r := Shift1(s);
    assert r == [r[0]] + r[1..];
    DropNaNoNaN(r[1..]);
  }

  /** Every price that ends up as a divisor (all but the last) is non-zero. */
  predicate DivisorsNonZero(prices: seq<real>)
  {
    forall i :: 0 <= i < |prices| - 1 ==> prices[i] != 0.0
  }

  /** `calculate_returns`: gross ratio returns. The result is one shorter than
      the price series (empty for fewer than two prices), and entry `i` is the
      ratio of price `i + 1` to price `i`. */
  function CalculateReturns(prices: seq<real>): (r: seq<real>)
    requires DivisorsNonZero(prices)
    ensures |r| == if prices == [] then 0 else |prices| - 1
    ensures forall i :: 0 <= i < |r| ==> r[i] == prices[i + 1] / prices[i]
  {
    var quotients := DivideAligned(prices, Shift1(prices));
    if quotients == [] then []
    else
      assert quotients == [quotients[0]] + quotients[1..];
      DropNaNoNaN(quotients[1..]);
      DropNa(quotients)
  }

  /** The price path that a start price and a series of gross returns
      compound into: the inverse of `CalculateReturns`. */
  function Compound(start: real, returnSeries: seq<real>): (p: seq<real>)
    ensures |p| == |returnSeries| + 1 && p[0] == start
    decreases |returnSeries|
  {
    if returnSeries == [] then [start] else [start] + Compound(start * returnSeries[0], returnSeries[1..])
  }

  /** The returns of a series without its first price are the returns of
      the series without their first entry. */
  lemma ReturnsTail(prices: seq<real>)
    requires |prices| > 1 && DivisorsNonZero(prices)
    ensures DivisorsNonZero(prices[1..])
    ensures CalculateReturns(prices)[1..] == CalculateReturns(prices[1..])
  {
    var r, rt := CalculateReturns(prices), CalculateReturns(prices[1..]);
    assert |r[1..]| == |rt|;
    forall i | 0 <= i < |rt| ensures r[1..][i] == rt[i] {
      assert r[i + 1] == prices[i + 2] / prices[i + 1];
    }
  }

  /** Dividing by a non-zero price and multiplying back is the identity. */
  lemma RatioTimesDivisor(p: real, q: real)
    requires p != 0.0
    ensures p * (q / p) == q
  {
  }

  lemma CompoundCons(start: real, returnSeries: seq<real>)
    requires returnSeries != []
    ensures Compound(start, returnSeries) == [start] + Compound(start * returnSeries[0], returnSeries[1..])
  {
  }

  /** The first price times the first return is the second price. */
  lemma ReturnsHead(prices: seq<real>)
    requires |prices| > 1 && DivisorsNonZero(prices)
    ensures prices[0] * CalculateReturns(prices)[0] == prices[1]
  {
    var first := CalculateReturns(prices)[0];
    assert first == prices[1] / prices[0];
    RatioTimesDivisor(prices[0], prices[1]);
    assert prices[0] * first == prices[0] * (prices[1] / prices[0]);
  }

  /** Compounding the returns from the first price gives back the prices. */
  lemma {:induction false} ReturnsRoundTrip(prices: seq<real>)
    requires prices != [] && DivisorsNonZero(prices)
    ensures Compound(prices[0], CalculateReturns(prices)) == prices
  {
    var r := CalculateReturns(prices);
    if |prices| == 1 {
      assert r == [];
    } else {
      var tail := prices[1..];
      ReturnsTail(prices);
      ReturnsHead(prices);
      ReturnsRoundTrip(tail);
      CompoundCons(prices[0], r);
      assert prices == [prices[0]] + tail;
    }
  }

  /** test_calculate_returns: prices 10, 20, 30, 90, 45 give 2.0, 1.5, 3.0, 0.5. */
  lemma TestCalculateReturns()
    ensures CalculateReturns([10.0, 20.0, 30.0, 90.0, 45.0]) == [2.0, 1.5, 3.0, 0.5]
  {
    var r := CalculateReturns([10.0, 20.0, 30.0, 90.0, 45.0]);
    assert |r| == 4;
    assert r[0] == 20.0 / 10.0 && r[1] == 30.0 / 20.0 && r[2] == 90.0 / 30.0 && r[3] == 45.0 / 90.0;
  }

  // ---------------------------------------------------------------------------
  // historical_simulation_var
  // ---------------------------------------------------------------------------

  /** `x * n` for a count `n`, written as `n` additions of `x` so that the
      product only enters a proof through ScaledIsProduct. */
  function Scaled(x: real, n: nat): real
  {
    if n == 0 then 0.0 else Scaled(x, n - 1) + x
  }

  lemma {:induction false} ScaledIsProduct(x: real, n: nat)
    ensures Scaled(x, n) == x * (n as real)
  {
    if n > 0 {
      ScaledIsProduct(x, n - 1);
      assert x * ((n - 1) as real) + x == x * (n as real);
    }
  }

  /** `int((1 - confidence_level) * len(sorted_returns))`. For a confidence
      level in (0, 1] and a non-empty window it is a valid position; a
      confidence level of at most 0 moves it past the end. */
  function SelectionIndex(confidenceLevel: real, n: nat): (i: int)
    ensures 0.0 < confidenceLevel <= 1.0 ==> 0 <= i && (n > 0 ==> i < n)
    ensures confidenceLevel <= 0.0 ==> i >= n
  {
    var scaled := Scaled(1.0 - confidenceLevel, n);
    ScaledIsProduct(1.0 - confidenceLevel, n);
    assert confidenceLevel <= 1.0 ==> scaled >= 0.0 by {
      if confidenceLevel <= 1.0 {
        NonNegativeProduct(1.0 - confidenceLevel, n as real);
      }
    }
    assert 0.0 < confidenceLevel <= 1.0 && n > 0 ==> scaled < n as real by {
      if 0.0 < confidenceLevel <= 1.0 && n > 0 {
        assert confidenceLevel * (n as real) > 0.0;
      }
    }
    assert confidenceLevel <= 0.0 ==> scaled >= n as real by {
      if confidenceLevel <= 0.0 {
        assert -confidenceLevel * (n as real) >= 0.0;
      }
    }
    TruncToInt(scaled)
  }

  /** Whenever `(1 - c) * n` lies strictly between -1 and 1 the index is the
      first position. */
  lemma SelectionIndexZero(confidenceLevel: real, n: nat)
    requires -1.0 < (1.0 - confidenceLevel) * (n as real) < 1.0
    ensures SelectionIndex(confidenceLevel, n) == 0
  {
    ScaledIsProduct(1.0 - confidenceLevel, n);
  }

  lemma NonNegativeProduct(a: real, b: real)
    requires a >= 0.0 && b >= 0.0
    ensures a * b >= 0.0
  {
  }

  /** The window `returns[:historical_days]`. */
  function Window(returnSeries: seq<real>, historicalDays: int): seq<real>
  {
    PrefixSlice(returnSeries, historicalDays)
  }

  /** `sorted_returns[index]`: the return the estimator treats as the worst
      case. It exists exactly when numpy accepts the index, and it is then the
      order statistic of the window at the position numpy reads (the index
      itself, or counted from the end when negative). */
  function WorstReturn(returnSeries: seq<real>, confidenceLevel: real, historicalDays: int): (x: Option<real>)
    ensures var w := Window(returnSeries, historicalDays);
            var i := SelectionIndex(confidenceLevel, |w|);
            && (x.Some? <==> -|w| <= i < |w|)
            && (x.Some? ==> IsOrderStatistic(w, WrapIndex(i, |w|), x.value))
  {
    var w := Window(returnSeries, historicalDays);
    var i := SelectionIndex(confidenceLevel, |w|);
    var x := NumpyIndex(Sort(w), i);
    if x.Some? then
      SortedPicksOrderStatistic(w, WrapIndex(i, |w|));
      x
    else x
  }

  /** `historical_simulation_var`: an IndexError when there is no worst
      return (an empty window always gives one); otherwise
      `(portfolio_value - worst * portfolio_value) * np.sqrt(horizon_days)`,
      which is NaN for a negative horizon and otherwise
      `portfolio_value * (1 - worst) * sqrt(horizon_days)`. */
  function HistoricalSimulationVar(returnSeries: seq<real>, confidenceLevel: real, portfolioValue: real,
                                   historicalDays: int, horizonDays: int, sqrtHorizon: PyFloat): (r: Result<PyFloat>)
    requires NumpySqrtShape(horizonDays, sqrtHorizon)
    ensures r.Err? <==> WorstReturn(returnSeries, confidenceLevel, historicalDays).None?
    ensures r.Err? ==> r.error == IndexError
    ensures r.Ok? ==>
              var worst := WorstReturn(returnSeries, confidenceLevel, historicalDays).value;
              r.value == Times(Real(portfolioValue - worst * portfolioValue), sqrtHorizon)
  {
    match WorstReturn(returnSeries, confidenceLevel, historicalDays)
    case None => Err(IndexError)
    case Some(worst) =>
      var worstPortfolioValue := worst * portfolioValue;
      Ok(Times(Real(portfolioValue - worstPortfolioValue), sqrtHorizon))
  }

  /** A proof step: the last ensures of HistoricalSimulationVar as an
      equation for a given worst return, so that callers need not unfold the
      match. */
  lemma HistoricalVarFromWorst(returnSeries: seq<real>, confidenceLevel: real, portfolioValue: real,
                               historicalDays: int, horizonDays: int, sqrtHorizon: PyFloat, worst: real)
    requires NumpySqrtShape(horizonDays, sqrtHorizon)
    requires WorstReturn(returnSeries, confidenceLevel, historicalDays) == Some(worst)
    ensures HistoricalSimulationVar(returnSeries, confidenceLevel, portfolioValue, historicalDays, horizonDays, sqrtHorizon)
            == Ok(Times(Real(portfolioValue - worst * portfolioValue), sqrtHorizon))
  {
    var r := HistoricalSimulationVar(returnSeries, confidenceLevel, portfolioValue, historicalDays, horizonDays, sqrtHorizon);
    assert r.Ok?;
    assert r.value == Times(Real(portfolioValue - worst * portfolioValue), sqrtHorizon);
  }

  /** An estimate is NaN exactly when the horizon is negative. */
  lemma HistoricalVarNaN(returnSeries: seq<real>, confidenceLevel: real, portfolioValue: real,
                         historicalDays: int, horizonDays: int, sqrtHorizon: PyFloat)
    requires NumpySqrtShape(horizonDays, sqrtHorizon)
    ensures var r := HistoricalSimulationVar(returnSeries, confidenceLevel, portfolioValue, historicalDays, horizonDays, sqrtHorizon);
            r.Ok? ==> (r.value.NaN? <==> horizonDays < 0)
  {
    var worst := WorstReturn(returnSeries, confidenceLevel, historicalDays);
    if worst.Some? {
      HistoricalVarFromWorst(returnSeries, confidenceLevel, portfolioValue, historicalDays, horizonDays, sqrtHorizon, worst.value);
      ScaledByRootIsNaN(portfolioValue - worst.value * portfolioValue, horizonDays, sqrtHorizon);
    }
  }

  /** Scaling by `np.sqrt(horizon_days)` gives NaN exactly for a negative
      horizon. */
  lemma ScaledByRootIsNaN(amount: real, horizonDays: int, sqrtHorizon: PyFloat)
    requires NumpySqrtShape(horizonDays, sqrtHorizon)
    ensures Times(Real(amount), sqrtHorizon).NaN? <==> horizonDays < 0
  {
  }

  /** Once the worst return is known, the estimate is
      `portfolio_value * (1 - worst) * sqrt(horizon_days)`. */
  lemma HistoricalVarAmount(returnSeries: seq<real>, confidenceLevel: real, portfolioValue: real,
                            historicalDays: int, horizonDays: int, sqrtHorizon: PyFloat, worst: real)
    requires NumpySqrtShape(horizonDays, sqrtHorizon)
    requires WorstReturn(returnSeries, confidenceLevel, historicalDays) == Some(worst)
    ensures HistoricalSimulationVar(returnSeries, confidenceLevel, portfolioValue, historicalDays, horizonDays, sqrtHorizon)
            == Ok(Times(Real(portfolioValue * (1.0 - worst)), sqrtHorizon))
  {
    HistoricalVarFromWorst(returnSeries, confidenceLevel, portfolioValue, historicalDays, horizonDays, sqrtHorizon, worst);
    assert portfolioValue - worst * portfolioValue == portfolioValue * (1.0 - worst);
  }

  /** With a confidence level in (0, 1] and a non-empty window the estimate
      exists; its worst return is the order statistic at
      `int((1 - c) * N)`, a position inside the window. */
  lemma HistoricalVarDefined(returnSeries: seq<real>, confidenceLevel: real, portfolioValue: real,
                             historicalDays: int, horizonDays: int, sqrtHorizon: PyFloat)
    requires NumpySqrtShape(horizonDays, sqrtHorizon)
    requires 0.0 < confidenceLevel <= 1.0 && Window(returnSeries, historicalDays) != []
    ensures var w := Window(returnSeries, historicalDays);
            var k := SelectionIndex(confidenceLevel, |w|);
            && 0 <= k < |w|
            && WorstReturn(returnSeries, confidenceLevel, historicalDays).Some?
            && IsOrderStatistic(w, k, WorstReturn(returnSeries, confidenceLevel, historicalDays).value)
            && HistoricalSimulationVar(returnSeries, confidenceLevel, portfolioValue, historicalDays, horizonDays, sqrtHorizon).Ok?
  {
  }

  /** An empty window (no returnSeries, or a non-positive `historical_days`)
      always fails with an IndexError. */
  lemma HistoricalVarEmptyWindow(returnSeries: seq<real>, confidenceLevel: real, portfolioValue: real,
                                 historicalDays: int, horizonDays: int, sqrtHorizon: PyFloat)
    requires NumpySqrtShape(horizonDays, sqrtHorizon)
    requires returnSeries == [] || historicalDays == 0 || historicalDays <= -|returnSeries|
    ensures HistoricalSimulationVar(returnSeries, confidenceLevel, portfolioValue, historicalDays, horizonDays, sqrtHorizon)
            == Err(IndexError)
  {
    assert Window(returnSeries, historicalDays) == [];
  }

  /** An oversized `historical_days` uses the whole return series. */
  lemma OversizedWindowIsWholeSeries(returnSeries: seq<real>, historicalDays: int)
    requires historicalDays >= |returnSeries|
    ensures Window(returnSeries, historicalDays) == returnSeries
  {
  }

  /** For `c <= 1` and a non-empty window, when `(1 - c) * N` is below 1 the
      worst return is the window minimum. */
  lemma WorstReturnIsMinimum(returnSeries: seq<real>, confidenceLevel: real, historicalDays: int)
    requires confidenceLevel <= 1.0 && Window(returnSeries, historicalDays) != []
    requires (1.0 - confidenceLevel) * (|Window(returnSeries, historicalDays)| as real) < 1.0
    ensures WorstReturn(returnSeries, confidenceLevel, historicalDays).Some?
    ensures var x := WorstReturn(returnSeries, confidenceLevel, historicalDays).value;
            var w := Window(returnSeries, historicalDays);
            x in w && forall i :: 0 <= i < |w| ==> x <= w[i]
  {
    var w := Window(returnSeries, historicalDays);
    NonNegativeProduct(1.0 - confidenceLevel, |w| as real);
    SelectionIndexZero(confidenceLevel, |w|);
    var x := WorstReturn(returnSeries, confidenceLevel, historicalDays);
    assert x.Some? && IsOrderStatistic(w, 0, x.value);
    OrderStatisticZeroIsMinimum(w, x.value);
  }

  /** The estimate is linear in the portfolio value (the worst return does not
      depend on it). */
  lemma HistoricalVarLinear(returnSeries: seq<real>, confidenceLevel: real, portfolioValue: real, factor: real,
                            historicalDays: int, horizonDays: int, sqrtHorizon: PyFloat)
    requires NumpySqrtShape(horizonDays, sqrtHorizon)
    ensures var base := HistoricalSimulationVar(returnSeries, confidenceLevel, portfolioValue, historicalDays, horizonDays, sqrtHorizon);
            var scaled := HistoricalSimulationVar(returnSeries, confidenceLevel, factor * portfolioValue, historicalDays, horizonDays, sqrtHorizon);
            && (base.Ok? <==> scaled.Ok?)
            && (base.Ok? ==> scaled.value == Times(Real(factor), base.value))
  {
    var worst := WorstReturn(returnSeries, confidenceLevel, historicalDays);
    if worst.Some? {
      var x := worst.value;
      HistoricalVarFromWorst(returnSeries, confidenceLevel, portfolioValue, historicalDays, horizonDays, sqrtHorizon, x);
      HistoricalVarFromWorst(returnSeries, confidenceLevel, factor * portfolioValue, historicalDays, horizonDays, sqrtHorizon, x);
      LossLinear(portfolioValue, x, factor, sqrtHorizon);
    }
  }

  /** Scaling the portfolio value scales the loss. */
  lemma LossLinear(v: real, x: real, factor: real, root: PyFloat)
    ensures Times(Real(factor * v - x * (factor * v)), root) == Times(Real(factor), Times(Real(v - x * v), root))
  {
    if root.Real? {
      calc {
        (factor * v - x * (factor * v)) * root.r;
        factor * ((v - x * v) * root.r);
      }
    }
  }

  /** A worst return of exactly 1 (no loss in the worst case) gives a VaR of 0. */
  lemma HistoricalVarZeroAtUnitReturn(returnSeries: seq<real>, confidenceLevel: real, portfolioValue: real,
                                      historicalDays: int, horizonDays: int, sqrtHorizon: PyFloat)
    requires NumpySqrtShape(horizonDays, sqrtHorizon) && horizonDays >= 0
    requires WorstReturn(returnSeries, confidenceLevel, historicalDays) == Some(1.0)
    ensures HistoricalSimulationVar(returnSeries, confidenceLevel, portfolioValue, historicalDays, horizonDays, sqrtHorizon)
            == Ok(Real(0.0))
  {
  }

  /** For a positive portfolio value and horizon, the VaR is non-negative
      exactly when the worst return is at most 1. */
  lemma HistoricalVarNonNegativeIff(returnSeries: seq<real>, confidenceLevel: real, portfolioValue: real,
                                    historicalDays: int, horizonDays: int, sqrtHorizon: PyFloat)
    requires NumpySqrtShape(horizonDays, sqrtHorizon) && horizonDays > 0 && portfolioValue > 0.0
    requires WorstReturn(returnSeries, confidenceLevel, historicalDays).Some?
    ensures var r := HistoricalSimulationVar(returnSeries, confidenceLevel, portfolioValue, historicalDays, horizonDays, sqrtHorizon);
            r.Ok? && r.value.Real? &&
            (r.value.r >= 0.0 <==> WorstReturn(returnSeries, confidenceLevel, historicalDays).value <= 1.0)
  {
    var x := WorstReturn(returnSeries, confidenceLevel, historicalDays).value;
    var s := sqrtHorizon.r;
    var loss := portfolioValue * (1.0 - x);
    assert loss >= 0.0 <==> x <= 1.0 by {
      if x <= 1.0 { assert portfolioValue * (1.0 - x) >= 0.0; }
      else { assert portfolioValue * (x - 1.0) > 0.0; }
    }
    assert loss * s >= 0.0 <==> loss >= 0.0 by {
      if loss < 0.0 { assert -loss * s > 0.0; }
    }
  }

  /** `0 <= a < b` gives `a * a < b * b`. */
  lemma SquareMonotone(a: real, b: real)
    requires 0.0 <= a < b
    ensures a * a < b * b
  {
    assert a * (b - a) >= 0.0;
    assert (b - a) * b > 0.0;
  }

  /** The non-negative square root of 10 lies in [3.16227, 3.16228). */
  lemma SqrtTenBounds(s: real)
    requires s >= 0.0 && s * s == 10.0
    ensures 3.16227 <= s < 3.16228
  {
    if s < 3.16227 {
      SquareMonotone(s, 3.16227);
    } else if s > 3.16228 {
      SquareMonotone(3.16228, s);
    }
  }

  /** The worst of the returns 1.1, 1.2, 1.1, 0.9 at confidence 0.99 over 200
      historical days is their minimum 0.9. */
  lemma TestWorstReturn(returnSeries: seq<real>)
    requires returnSeries == [1.1, 1.2, 1.1, 0.9]
    ensures WorstReturn(returnSeries, 0.99, 200) == Some(0.9)
  {
    assert Window(returnSeries, 200) == returnSeries;
    WorstReturnIsMinimum(returnSeries, 0.99, 200);
    FixtureMinimum(returnSeries, WorstReturn(returnSeries, 0.99, 200).value);
  }

  /** The minimum of 1.1, 1.2, 1.1, 0.9 is 0.9. */
  lemma FixtureMinimum(s: seq<real>, x: real)
    requires s == [1.1, 1.2, 1.1, 0.9]
    requires x in s && forall i :: 0 <= i < |s| ==> x <= s[i]
    ensures x == 0.9
  {
    assert x <= s[3];
  }

  /** test_historical_simulation_var: returns 1.1, 1.2, 1.1, 0.9 at confidence
      0.99, portfolio value 1,000,000, 200 historical days and a horizon of 10
      give `int(var) == 316227`. */
  lemma TestHistoricalSimulationVar(returnSeries: seq<real>, sqrtTen: PyFloat)
    requires returnSeries == [1.1, 1.2, 1.1, 0.9]
    requires IsNumpySqrt(10, sqrtTen)
    ensures var r := HistoricalSimulationVar(returnSeries, 0.99, 1000000.0, 200, 10, sqrtTen);
            r.Ok? && r.value.Real? && TruncToInt(r.value.r) == 316227
  {
    TestWorstReturn(returnSeries);
    FixtureEstimate(returnSeries, sqrtTen);
  }

  /** Any return series whose worst return at confidence 0.99 over 200 days
      is 0.9 gives the fixture's estimate. */
  lemma FixtureEstimate(returnSeries: seq<real>, sqrtTen: PyFloat)
    requires WorstReturn(returnSeries, 0.99, 200) == Some(0.9)
    requires IsNumpySqrt(10, sqrtTen)
    ensures var r := HistoricalSimulationVar(returnSeries, 0.99, 1000000.0, 200, 10, sqrtTen);
            r.Ok? && r.value.Real? && TruncToInt(r.value.r) == 316227
  {
    HistoricalVarFromWorst(returnSeries, 0.99, 1000000.0, 200, 10, sqrtTen, 0.9);
    FixtureLoss(HistoricalSimulationVar(returnSeries, 0.99, 1000000.0, 200, 10, sqrtTen), sqrtTen);
  }

  /** The fixture's loss `(1,000,000 - 0.9 * 1,000,000) * sqrt(10)` truncates
      to 316227. */
  lemma FixtureLoss(r: Result<PyFloat>, sqrtTen: PyFloat)
    requires IsNumpySqrt(10, sqrtTen)
    requires r == Ok(Times(Real(1000000.0 - 0.9 * 1000000.0), sqrtTen))
    ensures r.Ok? && r.value.Real? && TruncToInt(r.value.r) == 316227
  {
    var s := sqrtTen.r;
    SqrtTenBounds(s);
    assert r.value == Real((1000000.0 - 0.9 * 1000000.0) * s);
  }

  // ---------------------------------------------------------------------------
  // calculate_value_at_risk
  // ---------------------------------------------------------------------------

  /** A price table by column name (`data["close"]` is the only column read). */
  type PriceTable = map<string, seq<real>>

  /** `calculate_value_at_risk`: a KeyError without a "close" column;
      otherwise the returns of the closes are computed, and only the
      "historical" kind assigns `var` (any other kind reads it unbound). */
  function CalculateValueAtRisk(varType: string, data: PriceTable, confidenceLevel: real, portfolioValue: real,
                                historicalDays: int, horizonDays: int, sqrtHorizon: PyFloat): (r: Result<PyFloat>)
    requires "close" in data ==> DivisorsNonZero(data["close"])
    requires NumpySqrtShape(horizonDays, sqrtHorizon)
    ensures "close" !in data ==> r == Err(KeyError("close"))
    ensures "close" in data && varType != "historical" ==> r == Err(UnboundLocalError("var"))
    ensures "close" in data && varType == "historical" ==>
              r == HistoricalSimulationVar(CalculateReturns(data["close"]), confidenceLevel, portfolioValue,
                                           historicalDays, horizonDays, sqrtHorizon)
  {
    if "close" !in data then Err(KeyError("close"))
    else
      var returnSeries := CalculateReturns(data["close"]);
      if varType == "historical" then
        HistoricalSimulationVar(returnSeries, confidenceLevel, portfolioValue, historicalDays, horizonDays, sqrtHorizon)
      else Err(UnboundLocalError("var"))
  }

  /** The VaR window over the returns of the closes holds the first
      `min(historical_days, len(close) - 1)` close-to-close ratios. */
  lemma CloseWindow(close: seq<real>, historicalDays: int)
    requires |close| >= 2 && DivisorsNonZero(close) && historicalDays >= 1
    ensures var w := Window(CalculateReturns(close), historicalDays);
            && |w| == (if historicalDays < |close| - 1 then historicalDays else |close| - 1)
            && forall i :: 0 <= i < |w| ==> w[i] == close[i + 1] / close[i]
  {
  }

  /** End to end: with at least two closes,
      a confidence level in (0, 1] and a positive `historical_days`, the
      historical VaR is `(portfolio_value - x * portfolio_value) *
      np.sqrt(horizon_days)`, where `x` is the `int((1 - c) * N)`-th smallest
      entry of the window of close-to-close ratios (see CloseWindow). */
  lemma CalculateValueAtRiskHistorical(data: PriceTable, confidenceLevel: real, portfolioValue: real,
                                       historicalDays: int, horizonDays: int, sqrtHorizon: PyFloat)
    requires "close" in data && |data["close"]| >= 2 && DivisorsNonZero(data["close"])
    requires NumpySqrtShape(horizonDays, sqrtHorizon)
    requires 0.0 < confidenceLevel <= 1.0 && historicalDays >= 1
    ensures WorstReturn(CalculateReturns(data["close"]), confidenceLevel, historicalDays).Some?
    ensures var x := WorstReturn(CalculateReturns(data["close"]), confidenceLevel, historicalDays).value;
            var w := Window(CalculateReturns(data["close"]), historicalDays);
            IsOrderStatistic(w, SelectionIndex(confidenceLevel, |w|), x)
    ensures var x := WorstReturn(CalculateReturns(data["close"]), confidenceLevel, historicalDays).value;
            CalculateValueAtRisk("historical", data, confidenceLevel, portfolioValue, historicalDays, horizonDays, sqrtHorizon)
            == Ok(Times(Real(portfolioValue - x * portfolioValue), sqrtHorizon))
  {
    var returnSeries := CalculateReturns(data["close"]);
    HistoricalVarDefined(returnSeries, confidenceLevel, portfolioValue, historicalDays, horizonDays, sqrtHorizon);
    var x := WorstReturn(returnSeries, confidenceLevel, historicalDays).value;
    HistoricalVarFromWorst(returnSeries, confidenceLevel, portfolioValue, historicalDays, horizonDays, sqrtHorizon, x);
  }
}
