/**
 * The "Generate Forecast" handler: it cleans the downloaded closes, runs the
 * chosen forecasting method, dates the forecast one calendar day apart after
 * the last known day, and summarises the forecast against the last known price.
 */
module Forecast {
  import opened Wrappers
  import opened Series
  import opened Dates
  import opened Trend
  import opened Regression
  import opened Paths

  /** The range of the "Days to Forecast" slider. */
  const MinHorizon: nat := 7
  /** The largest forecast the slider allows. */
  const MaxHorizon: nat := 90

  /** The three choices of the "Select Forecasting Method" box. */
  datatype Method = LinearRegression | MovingAverageTrend | SimpleProjection

  /**
   * Why a forecast fails: with no price left after cleaning, the last price
   * does not exist and the handler reports a forecasting error.
   */
  datatype Error = NoPrices

  /** `forecast_df`: one date (`ds`) and one price (`yhat`) per forecast day. */
  datatype Table = Table(dates: seq<int>, prices: seq<real>)

  /**
   * The return from the price `prev` to the next price `cur`, so that
   * `prev * (1 + r) == cur`. After a zero price the division gives no finite
   * number, which is `None`.
   */
  function ReturnOf(prev: real, cur: real): (r: Option<real>)
    ensures r.Some? <==> prev != 0.0
    ensures r.Some? ==> prev * (1.0 + r.value) == cur
  {
    if prev == 0.0 then None
    else
      GrowthRestores(prev, cur);
      Some(cur / prev - 1.0)
  }

  /** Growing `prev` by `cur / prev - 1` gives `cur`. */
  lemma GrowthRestores(prev: real, cur: real)
    requires prev != 0.0
    ensures prev * (1.0 + (cur / prev - 1.0)) == cur
  {
    var q := cur / prev;
    assert prev * q == cur;
    assert 1.0 + (q - 1.0) == q;
  }

  /**
   * `pct_change().dropna()`: one return per pair of consecutive prices (the
   * leading NaN, which has no previous price, is dropped).
   */
  function Returns(ps: seq<real>): (r: seq<Option<real>>)
    ensures |r| == if |ps| == 0 then 0 else |ps| - 1
    ensures forall i :: 0 <= i < |r| ==> r[i] == ReturnOf(ps[i], ps[i + 1])
  {
    if |ps| <= 1 then [] else seq(|ps| - 1, i requires 0 <= i < |ps| - 1 => ReturnOf(ps[i], ps[i + 1]))
  }

  /** The returns of a window in which every return is a number. */
  function Values(w: seq<Option<real>>): (r: seq<real>)
    requires forall i :: 0 <= i < |w| ==> w[i].Some?
    ensures |r| == |w|
    ensures forall i :: 0 <= i < |w| ==> w[i] == Some(r[i])
  {
    seq(|w|, i requires 0 <= i < |w| => w[i].value)
  }

  /**
   * The return statistics of the Simple Projection forecast, over the last
   * thirty returns (`tail(30)`): their mean, and the standard deviation
   * `deviation`, which is given because it needs a square root. They are NaN
   * when the window has fewer than two returns, since the sample standard
   * deviation of one value is NaN, or when a return in it is not a number.
   * With no zero price, that happens exactly when at most two prices are known.
   */
  function RecentReturns(prices: seq<real>, deviation: real): (r: Option<ReturnParams>)
    ensures |prices| <= 2 ==> r.None?
    ensures (forall i :: 0 <= i < |prices| ==> prices[i] != 0.0) ==> (r.None? <==> |prices| <= 2)
    ensures r.Some? ==> r.value.std == deviation
  {
    var w := Tail(Returns(prices), HistoryWindow);
    if |w| < 2 || exists i :: 0 <= i < |w| && w[i].None? then None
    else Some(ReturnParams(Mean(Values(w)), deviation))
  }

  /**
   * When returns are all numbers, the mean of the window lies between its
   * smallest and largest return.
   */
  lemma RecentMeanBetween(prices: seq<real>, deviation: real)
    requires RecentReturns(prices, deviation).Some?
    ensures var w := Tail(Returns(prices), HistoryWindow);
      |w| >= 2 && (forall i :: 0 <= i < |w| ==> w[i].Some?) &&
      Min(Values(w)) <= RecentReturns(prices, deviation).value.mean <= Max(Values(w))
  {
    var w := Tail(Returns(prices), HistoryWindow);
    MeanBetween(Values(w));
  }

  /**
   * The prices each method forecasts from the cleaned prices `ps` and the
   * standard normal samples `z`. Both random walks stay at or above the floor;
   * the regression has no floor.
   */
  function ForecastPrices(m: Method, ps: seq<real>, horizon: nat, z: seq<real>, deviation: real): (r: seq<real>)
    requires |ps| > 0 && |z| == horizon
    ensures |r| == horizon
    ensures m != LinearRegression ==> forall i :: 0 <= i < horizon ==> r[i] >= Floor
  {
    match m
    case LinearRegression => LinearForecast(ps, horizon)
    case MovingAverageTrend => Path(ps[|ps| - 1], TrendDrift(RecentTrend(ps)), z)
    case SimpleProjection => Path(ps[|ps| - 1], ReturnDrift(RecentReturns(ps, deviation)), z)
  }

  /**
   * The forecast table for the rows `bars`: an error when no close is present,
   * otherwise one date and one price per forecast day, dated from the day
   * after the last present close.
   */
  function ForecastTable(bars: seq<Bar>, horizon: nat, m: Method, z: seq<real>, deviation: real): (r: Result<Table, Error>)
    requires |z| == horizon
    ensures r.Err? <==> Clean(bars) == []
    ensures r.Ok? ==> |r.value.dates| == horizon && |r.value.prices| == horizon
    ensures r.Ok? && m != LinearRegression ==> forall i :: 0 <= i < horizon ==> r.value.prices[i] >= Floor
  {
    var data := Clean(bars);
    if data == [] then Err(NoPrices)
    else
      var last := data[|data| - 1];
      Ok(Table(FutureDates(last.day, horizon), ForecastPrices(m, Prices(data), horizon, z, deviation)))
  }

  /**
   * The handler itself: the Moving Average Trend and Simple Projection
   * forecasts are produced by their step-by-step loops, the regression by the
   * fitted line.
   */
  method GenerateForecast(bars: seq<Bar>, horizon: nat, m: Method, z: seq<real>, deviation: real)
    returns (r: Result<Table, Error>)
    requires MinHorizon <= horizon <= MaxHorizon && |z| == horizon
    ensures r == ForecastTable(bars, horizon, m, z, deviation)
  {
    var data := Clean(bars);
    if data == [] {
      return Err(NoPrices);
    }
    var ps := Prices(data);
    var last := data[|data| - 1];
    assert last.price == ps[|ps| - 1];
    var future: seq<real>;
    match m {
      case LinearRegression =>
        future := LinearForecast(ps, horizon);
      case MovingAverageTrend =>
        var trend := RecentTrend(ps);
        future := MovingAverageTrendPath(last.price, trend, z);
        WalkOfMethod(m, ps, horizon, z, deviation);
      case SimpleProjection =>
        var recent := RecentReturns(ps, deviation);
        future := SimpleProjectionPath(last.price, recent, z);
        WalkOfMethod(m, ps, horizon, z, deviation);
    }
    assert future == ForecastPrices(m, ps, horizon, z, deviation);
    r := Ok(Table(FutureDates(last.day, horizon), future));
  }

  /**
   * With rows in date order, every forecast date falls after every day with a
   * known close, and the forecast dates are one day apart.
   */
  lemma ForecastAfterHistory(bars: seq<Bar>, horizon: nat, m: Method, z: seq<real>, deviation: real)
    requires Chronological(bars) && |z| == horizon
    ensures var r := ForecastTable(bars, horizon, m, z, deviation);
      r.Ok? ==>
        (forall q, i :: q in Clean(bars) && 0 <= i < horizon ==> q.day < r.value.dates[i]) &&
        (forall i :: 0 < i < horizon ==> r.value.dates[i] == r.value.dates[i - 1] + 1)
  {
    var data := Clean(bars);
    if data != [] {
      CleanChronological(bars);
      LastIsLatest(data);
      FutureDatesIncreasing(data[|data| - 1].day, horizon);
    }
  }

  /** The last of date-ordered quotes is the latest of them. */
  lemma LastIsLatest(data: seq<Quote>)
    requires data != [] && ChronologicalQuotes(data)
    ensures forall q :: q in data ==> q.day <= data[|data| - 1].day
  {
    forall q | q in data
      ensures q.day <= data[|data| - 1].day
    {
      var j :| 0 <= j < |data| && data[j] == q;
      assert j < |data| - 1 ==> data[j].day < data[|data| - 1].day;
    }
  }

  /** With a close present, the table's prices are the forecast of the present closes. */
  lemma TablePrices(bars: seq<Bar>, horizon: nat, m: Method, z: seq<real>, deviation: real)
    requires |z| == horizon && Clean(bars) != []
    ensures var r := ForecastTable(bars, horizon, m, z, deviation);
      r.Ok? && r.value.prices == ForecastPrices(m, Prices(Clean(bars)), horizon, z, deviation)
  {
  }

  /**
   * Too few prices for a statistic: one known price leaves the Moving Average
   * Trend undefined and two or fewer leave the Simple Projection returns
   * undefined, and the NaN puts every forecast price at the floor.
   */
  lemma TooFewPricesFloor(bars: seq<Bar>, horizon: nat, m: Method, z: seq<real>, deviation: real)
    requires |z| == horizon
    requires (m == MovingAverageTrend && |Clean(bars)| == 1) || (m == SimpleProjection && 1 <= |Clean(bars)| <= 2)
    ensures var r := ForecastTable(bars, horizon, m, z, deviation);
      r.Ok? && forall i :: 0 <= i < horizon ==> r.value.prices[i] == Floor
  {
    var ps := Prices(Clean(bars));
    TablePrices(bars, horizon, m, z, deviation);
    FewPricesNoDrift(m, ps, deviation);
    UndefinedWalkFloors(m, ps, horizon, z, deviation);
  }

  /** The drift each random-walk method draws from the prices. */
  function DriftOf(m: Method, ps: seq<real>, deviation: real): Drift
  {
    if m == MovingAverageTrend then TrendDrift(RecentTrend(ps)) else ReturnDrift(RecentReturns(ps, deviation))
  }

  /** The two random-walk forecasts are walks from the last price under their drift. */
  lemma WalkOfMethod(m: Method, ps: seq<real>, horizon: nat, z: seq<real>, deviation: real)
    requires |ps| > 0 && |z| == horizon && m != LinearRegression
    ensures ForecastPrices(m, ps, horizon, z, deviation) == Path(ps[|ps| - 1], DriftOf(m, ps, deviation), z)
  {
  }

  /**
   * One price leaves the trend undefined and two or fewer leave the returns
   * undefined.
   */
  lemma FewPricesNoDrift(m: Method, ps: seq<real>, deviation: real)
    requires (m == MovingAverageTrend && |ps| == 1) || (m == SimpleProjection && |ps| <= 2)
    ensures DriftOf(m, ps, deviation) == TrendDrift(None) || DriftOf(m, ps, deviation) == ReturnDrift(None)
  {
    if m == MovingAverageTrend {
      assert RecentTrend(ps) == None;
    } else {
      assert RecentReturns(ps, deviation) == None;
    }
  }

  /** A random-walk forecast under an undefined drift sits at the floor. */
  lemma UndefinedWalkFloors(m: Method, ps: seq<real>, horizon: nat, z: seq<real>, deviation: real)
    requires |ps| > 0 && |z| == horizon && m != LinearRegression
    requires DriftOf(m, ps, deviation) == TrendDrift(None) || DriftOf(m, ps, deviation) == ReturnDrift(None)
    ensures forall i :: 0 <= i < horizon ==> ForecastPrices(m, ps, horizon, z, deviation)[i] == Floor
  {
    WalkOfMethod(m, ps, horizon, z, deviation);
    UndefinedDriftFloors(ps[|ps| - 1], DriftOf(m, ps, deviation), z);
  }

  /**
   * Regression forecast of prices that lie on a line: the forecast continues
   * the line at the positions after the last price.
   */
  lemma RegressionContinuesLine(bars: seq<Bar>, horizon: nat, z: seq<real>, deviation: real, l: Line)
    requires |z| == horizon && |Clean(bars)| >= 2
    requires forall t :: 0 <= t < |Clean(bars)| ==> Clean(bars)[t].price == Predict(l, t as real)
    ensures var r := ForecastTable(bars, horizon, LinearRegression, z, deviation);
      r.Ok? && forall i :: 0 <= i < horizon ==> r.value.prices[i] == Predict(l, (|Clean(bars)| + i) as real)
  {
    var ps := Prices(Clean(bars));
    TablePrices(bars, horizon, LinearRegression, z, deviation);
    PricesAlongLine(Clean(bars), l);
    ForecastContinuesLine(ps, l, horizon);
  }

  /** Closes that lie on a line give a price series along that line. */
  lemma PricesAlongLine(data: seq<Quote>, l: Line)
    requires forall t :: 0 <= t < |data| ==> data[t].price == Predict(l, t as real)
    ensures AlongLine(Prices(data), l)
  {
  }


  /**
   * The "Forecast Summary": highest, lowest and last forecast price, the
   * change from the last known price in percent (`None` when that price is 0,
   * where the division gives no number), and whether it is "Bullish".
   */
  datatype Summary = Summary(high: real, low: real, end: real, changePercent: Option<real>, bullish: bool)

  /** `((forecast_end - current_price) / current_price) * 100`. */
  function ChangePercent(end: real, current: real): (r: Option<real>)
    ensures r.Some? <==> current != 0.0
    ensures r.Some? ==> current * r.value == (end - current) * 100.0
  {
    if current == 0.0 then None
    else
      var p := (end - current) / current * 100.0;
      PercentOfChange(end - current, current, p);
      Some(p)
  }

  /** `p = d / c * 100` times `c` is `d * 100`. */
  lemma PercentOfChange(d: real, c: real, p: real)
    requires c != 0.0 && p == d / c * 100.0
    ensures c * p == d * 100.0
  {
    var q := d / c;
    assert c * q == d;
    assert c * (q * 100.0) == (c * q) * 100.0;
  }

  /** The summary of `forecast` against the last known price `current`. */
  function Summarize(forecast: seq<real>, current: real): (r: Summary)
    requires |forecast| > 0
    ensures r.high in forecast && r.low in forecast
    ensures forall i :: 0 <= i < |forecast| ==> r.low <= forecast[i] <= r.high
    ensures r.end == forecast[|forecast| - 1]
    ensures r.bullish <==> r.end > current
    ensures r.changePercent.Some? <==> current != 0.0
    ensures r.changePercent.Some? ==> current * r.changePercent.value == (r.end - current) * 100.0
  {
    var end := forecast[|forecast| - 1];
    Summary(Max(forecast), Min(forecast), end, ChangePercent(end, current), end > current)
  }

  /**
   * For a positive last price, "Bullish" is shown exactly when the percent
   * change is positive; for a negative one, exactly when it is negative.
   */
  lemma BullishAgreesWithChange(forecast: seq<real>, current: real)
    requires |forecast| > 0 && current != 0.0
    ensures var s := Summarize(forecast, current);
      s.changePercent.Some? &&
      (current > 0.0 ==> (s.bullish <==> s.changePercent.value > 0.0)) &&
      (current < 0.0 ==> (s.bullish <==> s.changePercent.value < 0.0))
  {
    var s := Summarize(forecast, current);
    SignOfProduct(current, s.changePercent.value, s.end - current);
  }

  /** With `c * p == d * 100` and `c != 0`, `p` has the sign of `d / c`. */
  lemma SignOfProduct(c: real, p: real, d: real)
    requires c != 0.0 && c * p == d * 100.0
    ensures c > 0.0 ==> (d > 0.0 <==> p > 0.0)
    ensures c < 0.0 ==> (d > 0.0 <==> p < 0.0)
  {
    if p > 0.0 {
      assert c > 0.0 ==> c * p > 0.0;
      assert c < 0.0 ==> c * p < 0.0;
    } else {
      assert c > 0.0 ==> c * p <= 0.0;
      assert c < 0.0 ==> c * p >= 0.0;
    }
  }

  /**
   * The summary of a random-walk forecast never shows a low under the floor;
   * its high is at least the floor too.
   */
  lemma RandomWalkSummaryFloor(bars: seq<Bar>, horizon: nat, m: Method, z: seq<real>, deviation: real)
    requires MinHorizon <= horizon && |z| == horizon && m != LinearRegression
    requires Clean(bars) != []
    ensures var r := ForecastTable(bars, horizon, m, z, deviation);
      r.Ok? && Summarize(r.value.prices, Clean(bars)[|Clean(bars)| - 1].price).low >= Floor
  {
    var r := ForecastTable(bars, horizon, m, z, deviation);
    var s := Summarize(r.value.prices, Clean(bars)[|Clean(bars)| - 1].price);
    assert s.low in r.value.prices;
  }
}
