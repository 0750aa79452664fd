/**
 * The recent trend used by the Moving Average Trend forecast: the mean of the
 * first differences of the last ten of the last thirty cleaned prices.
 */
module Trend {
  import opened Wrappers
  import opened Series

  /** `tail(30)`: how many recent prices the forecast looks at. */
  const HistoryWindow: nat := 30

  /** `[-10:]`: how many of those the trend is measured over. */
  const TrendWindow: nat := 10

  /** The last `k` values of `s`, or all of `s` when it is shorter (`tail(k)`, `[-k:]`). */
  function Tail<T>(s: seq<T>, k: nat): (r: seq<T>)
    ensures |r| == if |s| <= k then |s| else k
    ensures r == s[|s| - |r|..]
  {
    if |s| <= k then s else s[|s| - k..]
  }

  /** The prices the trend is measured over. */
  function TrendWindowOf(prices: seq<real>): seq<real>
  {
    Tail(Tail(prices, HistoryWindow), TrendWindow)
  }

  /** The window is exactly the last ten prices, or the whole series when it is shorter. */
  lemma TrendWindowIsLastTen(prices: seq<real>)
    ensures |prices| >= TrendWindow ==> TrendWindowOf(prices) == prices[|prices| - TrendWindow..]
    ensures |prices| < TrendWindow ==> TrendWindowOf(prices) == prices
  {
    var h := Tail(prices, HistoryWindow);
    if |prices| >= TrendWindow {
      assert |h| >= TrendWindow;
      assert h[|h| - TrendWindow..] == prices[|prices| - TrendWindow..];
    }
  }

  /** `np.diff`: the day-over-day differences. */
  function Diffs(w: seq<real>): (r: seq<real>)
    ensures |r| == if |w| <= 1 then 0 else |w| - 1
    ensures forall i {:trigger r[i]} :: 0 <= i < |r| ==> w[i] + r[i] == w[i + 1]
  {
    if |w| <= 1 then [] else seq(|w| - 1, i requires 0 <= i < |w| - 1 => w[i + 1] - w[i])
  }

  /** The differences telescope: their sum is the last value minus the first. */
  lemma {:induction false} SumDiffsTelescopes(w: seq<real>)
    requires |w| > 0
    ensures Sum(Diffs(w)) == w[|w| - 1] - w[0]
  {
    if |w| > 1 {
      var init := w[..|w| - 1];
      SumDiffsTelescopes(init);
      var d, di := Diffs(w), Diffs(init);
      assert d[..|d| - 1] == di;
    }
  }

  /**
   * `np.mean(np.diff(window))`, `None` (NaN in floating point) when the window
   * has fewer than two prices, so that there is no difference to average.
   */
  function MeanDiff(w: seq<real>): (r: Option<real>)
    ensures r.None? <==> |w| < 2
    ensures r.Some? ==> r.value == AverageStep(w)
  {
    if |w| < 2 then None
    else
      SumDiffsTelescopes(w);
      Some(Sum(Diffs(w)) / ((|w| - 1) as real))
  }

  /** The change across `w` divided by the number of steps in it. */
  function AverageStep(w: seq<real>): real
    requires |w| >= 2
  {
    (w[|w| - 1] - w[0]) / ((|w| - 1) as real)
  }

  /**
   * The trend of the Moving Average Trend forecast. It is undefined exactly when
   * fewer than two prices are known; otherwise it is the change across the
   * window divided by the number of steps in it.
   */
  function RecentTrend(prices: seq<real>): (r: Option<real>)
    ensures r.None? <==> |prices| < 2
    ensures r.Some? ==> |TrendWindowOf(prices)| >= 2 && r.value == AverageStep(TrendWindowOf(prices))
  {
    MeanDiff(TrendWindowOf(prices))
  }

  /** Each price is the previous one plus `step`. */
  predicate SteadyRise(prices: seq<real>, step: real)
  {
    forall i :: 0 < i < |prices| ==> prices[i] == prices[i - 1] + step
  }

  /** Prices that rise by the same amount every day have exactly that trend. */
  lemma SteadyTrend(prices: seq<real>, step: real)
    requires |prices| >= 2 && SteadyRise(prices, step)
    ensures RecentTrend(prices) == Some(step)
  {
    var w := TrendWindowOf(prices);
    SteadyWindow(prices, step);
    SteadyAt(w, step, |w| - 1);
    SteadyAverage(w, step);
  }

  /** Over `n` equal steps the average step is that step. */
  lemma SteadyAverage(w: seq<real>, step: real)
    requires |w| >= 2 && RisenBy(w, |w| - 1, step)
    ensures AverageStep(w) == step
  {
    StepQuotient(w[|w| - 1], w[0], (|w| - 1) as real, step);
  }

  /** A rise of `n` equal steps, divided by `n`, is one step. */
  lemma StepQuotient(last: real, first: real, n: real, step: real)
    requires n > 0.0 && last == first + n * step
    ensures (last - first) / n == step
  {
  }

  /** The window of steadily rising prices rises steadily too. */
  lemma SteadyWindow(prices: seq<real>, step: real)
    requires |prices| >= 2 && SteadyRise(prices, step)
    ensures |TrendWindowOf(prices)| >= 2 && SteadyRise(TrendWindowOf(prices), step)
  {
    var w := TrendWindowOf(prices);
    var o := |prices| - |w|;
    assert w == prices[o..];
    forall i | 0 < i < |w|
      ensures w[i] == w[i - 1] + step
    {
      assert w[i] == prices[o + i] && w[i - 1] == prices[o + i - 1];
    }
  }

  /** The price `i` days after the first has risen by `i` steps of `step`. */
  predicate RisenBy(prices: seq<real>, i: nat, step: real)
    requires i < |prices|
  {
    prices[i] == prices[0] + (i as real) * step
  }

  /** In steadily rising prices, `i` days after the first the price has risen by `i` steps. */
  lemma {:induction false} SteadyAt(prices: seq<real>, step: real, i: nat)
    requires SteadyRise(prices, step) && i < |prices|
    ensures RisenBy(prices, i, step)
  {
    if i > 0 {
      SteadyAt(prices, step, i - 1);
      assert ((i - 1) as real) * step + step == (i as real) * step;
    }
  }

  /** A steady rise by `step` has every day-over-day difference equal to `step`. */
  lemma SteadyDiffs(prices: seq<real>, step: real)
    requires SteadyRise(prices, step)
    ensures forall i :: 0 <= i < |Diffs(prices)| ==> Diffs(prices)[i] == step
  {
  }
}
