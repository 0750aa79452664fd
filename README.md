# Stock price dashboard: forecasting core

This project models the computational core of a single-page stock dashboard. The
dashboard downloads daily closing prices for a ticker and drops missing closes.
It shows price statistics and the daily change. It then forecasts the next 7 to 90
calendar days with one of three methods:

- **Linear Regression**: an ordinary least-squares line is fitted over the day
  positions `0 .. n-1` and evaluated at the positions `n .. n+days-1`. The result
  is not clamped.
- **Moving Average Trend**: the trend is the mean day-over-day change over the last
  ten of the last thirty prices. Each day, a random walk adds the trend plus normal
  noise of deviation `|trend| * 0.5`, and floors the price at 0.1.
- **Simple Projection**: each day, a random walk moves the price by a sampled return
  of itself. The return is normal, with the mean and standard deviation of the recent
  daily returns. The price is floored at 0.1.

The forecast is dated one calendar day apart, starting the day after the last known
close. It is summarised by its high, low and end price, the percent change from the
last known price, and a Bullish/Bearish flag.

Modules:

- `Wrappers`: `Option` and `Result`.
- `Series`: the rows, cleaning (`dropna`), max/min/mean statistics and the daily change.
- `Dates`: the future date lists.
- `Trend`: the windows and the telescoping mean of differences.
- `Regression`: the closed-form least-squares fit, the normal equations, minimality
  and exact recovery of a line.
- `Paths`: the two random-walk loops as methods, each proved equal to a recursive
  specification.
- `Forecast`: the button handler that dispatches on the method, and the forecast summary.

Modelling choices:

- Prices are `real` and dates are integer day numbers.
- A NaN close or a NaN statistic is `None`.
- Randomness is an input: every forecast day `i` receives a standard normal sample
  `z[i]`. A normal draw of mean `m` and deviation `s` is then `m + s * z[i]`.

Two behaviours of the code worth knowing:

- With too few prices, the trend or the return statistics are NaN. Python's
  `max(0.1, nan)` returns 0.1, so every forecast price is exactly 0.1; the walk is
  not continued flat from the last price (`Paths.UndefinedDriftFloors`,
  `Forecast.TooFewPricesFloor`).
- The regression forecast starts at position `n`, the first day after the last
  price: sixty prices 100, 102, ..., 218 are forecast at positions 60..64 as 220,
  222, 224, 226 and 228 (`Regression.SteadyRiseExample`).

## Model

| member | source | states |
|---|---|---|
| Series.Clean | app.py/app.py:129 | keeps at most as many rows as given, and every kept quote is a row of the input with a present close |
| Series.CleanKeepsPresent | app.py/app.py:129 | every row whose close is present appears in the cleaned series |
| Series.CleanAppend | app.py/app.py:129 | cleaning distributes over concatenation, so order is kept |
| Series.CleanLift | app.py/app.py:262 | cleaning a series that has no missing close returns it unchanged |
| Series.CleanIdempotent | app.py/app.py:262 | cleaning the already-cleaned data again (the second `dropna`) changes nothing |
| Series.CleanLengthExact | app.py/app.py:129 | the cleaned series is as long as the input iff no close is missing |
| Series.CleanChronological | app.py/app.py:129 | cleaning date-ordered rows gives date-ordered quotes |
| Series.Max | app.py/app.py:220 | the maximum occurs in the series and bounds every element from above |
| Series.Min | app.py/app.py:227 | the minimum occurs in the series and bounds every element from below |
| Series.Mean | app.py/app.py:234 | no contract of its own; MeanBetween and MeanWithin state that the mean lies between the smallest and the largest value |
| Series.SumBetween | app.py/app.py:234 | a sum of n values between lo and hi lies between n*lo and n*hi |
| Series.MeanBetween | app.py/app.py:218-237 | min <= mean <= max for a non-empty series |
| Series.MeanWithin | app.py/app.py:234 | the mean of values within bounds lies within those bounds |
| Series.PriceStats | app.py/app.py:218-237 | the statistics are "N/A" iff nothing is left after cleaning; otherwise low <= average <= high, high and low are prices of the series, and every price lies between them |
| Series.DailyChange | app.py/app.py:110-116 | defined iff there are two rows and both last closes are present; previous + change == current; the percent is defined iff the previous close is non-zero, and then percent * previous == 100 * change |
| Dates.FutureDates | app.py/app.py:282 | exactly `horizon` dates, from last day + 1 to last day + horizon, one day apart |
| Dates.FutureDatesIncreasing | app.py/app.py:305 | the dates strictly increase and all lie in (last day, last day + horizon] |
| Dates.FutureDatesAt | app.py/app.py:329 | date i is last day + i + 1 |
| Trend.Tail | app.py/app.py:291 | the last min(k, n) values, as a suffix of the input |
| Trend.TrendWindowOf | app.py/app.py:291-292 | no contract of its own; TrendWindowIsLastTen states that it is the last ten prices, or all of them when fewer |
| Trend.TrendWindowIsLastTen | app.py/app.py:291-292 | the trend window is exactly the last ten prices when there are ten or more, otherwise all of them |
| Trend.Diffs | app.py/app.py:292 | n-1 differences, each taking a value to the next |
| Trend.SumDiffsTelescopes | app.py/app.py:292 | the differences sum to the last value minus the first |
| Trend.MeanDiff | app.py/app.py:292 | NaN iff the window has fewer than two prices; otherwise the change across the window divided by its number of steps |
| Trend.RecentTrend | app.py/app.py:291-292 | undefined (NaN) iff fewer than two prices; otherwise the change across the window divided by its number of steps |
| Trend.SteadyTrend | app.py/app.py:291-292 | prices rising by a fixed step have that step as their trend |
| Trend.SteadyDiffs | app.py/app.py:292 | every difference of a steadily rising series is the step |
| Trend.SteadyWindow | app.py/app.py:291-292 | the window of a steadily rising series is itself steadily rising |
| Regression.Positions | app.py/app.py:269 | n positions |
| Regression.Fit | app.py/app.py:269-274 | no contract of its own; FitIsLeastSquares, ExactFit and SinglePriceFlat state what it computes |
| Regression.ForecastOfFit | app.py/app.py:277-278 | the forecast for day i is the fitted line at position n+i |
| Regression.LinearForecast | app.py/app.py:277-278 | one predicted price per forecast day |
| Regression.LeastSquaresAlgebra | app.py/app.py:273-274 | the closed-form line satisfies both normal equations in sum form |
| Regression.RecoverLine | app.py/app.py:273-274 | with spread positions, a line satisfying both sum equations is the closed-form line |
| Regression.NormalEquations | app.py/app.py:273-274 | the residuals of the fitted line sum to zero, and so do the residuals weighted by position |
| Regression.ThroughResiduals | app.py/app.py:273-274 | a line satisfies the sum equations iff its residuals and position-weighted residuals sum to zero |
| Regression.ResidualsExpand | app.py/app.py:273-274 | the residual sum is sy - n*a - b*sx |
| Regression.WeightedResidualsExpand | app.py/app.py:273-274 | the weighted residual sum is sxy - a*sx - b*sxx |
| Regression.ErrorDecomposition | app.py/app.py:273-274 | the squared error of any line is the fit's error, plus a cross term, plus the squared gaps between the lines |
| Regression.CrossExpand | app.py/app.py:273-274 | the cross term is a combination of the fit's residual sums |
| Regression.GapSquaresNonNegative | app.py/app.py:273-274 | the squared gaps are non-negative |
| Regression.FitMinimises | app.py/app.py:273-274 | no line has a smaller squared error than the fit |
| Regression.FitIsLeastSquares | app.py/app.py:269-274 | over the day positions, no line has a smaller squared error than the fit |
| Regression.LineSums | app.py/app.py:273-274 | points lying on a line satisfy both sum equations for it |
| Regression.SumPositions | app.py/app.py:269 | 0 + 1 + ... + (n-1) = n(n-1)/2 |
| Regression.SumSquaredPositions | app.py/app.py:269 | the squares of the positions sum to n(n-1)(2n-1)/6 |
| Regression.SpreadPositive | app.py/app.py:269 | two or more positions have a positive spread |
| Regression.ExactFit | app.py/app.py:269-274 | two or more prices lying exactly on a line are fitted by that line |
| Regression.ForecastContinuesLine | app.py/app.py:264-278 | prices on a line are forecast by continuing that line at positions n, n+1, ... |
| Regression.SinglePriceFlat | app.py/app.py:269-278 | a single price is forecast as a flat line at that price |
| Regression.NoFloor | app.py/app.py:278 | the regression forecast can fall below the 0.1 floor (1.0, 0.5 gives 0.0) |
| Regression.SteadyRiseExample | app.py/app.py:269-278 | 100, 102, ..., 218 are forecast as 220, 222, 224, 226, 228 |
| Paths.Clamp | app.py/app.py:300 | the result is at least 0.1 and at least the argument, and is one of the two |
| Paths.TrendChange | app.py/app.py:299 | no contract of its own; written as the trend plus a normal draw of mean 0 and deviation abs(trend) * 0.5; TrendChangeNonNegative states its sign |
| Paths.TrendChangeNonNegative | app.py/app.py:299 | a non-negative trend with a sample of at least -2 gives a non-negative change |
| Paths.ReturnChange | app.py/app.py:323 | no contract of its own; written as the price times a normal draw with the return mean and deviation; ReturnStepRises states its effect |
| Paths.ReturnStepRises | app.py/app.py:323-324 | from a non-negative price, a non-negative sampled return gives a day's price no lower than the day before |
| Paths.Step | app.py/app.py:299-300 | a day's price is at least 0.1, and exactly 0.1 when the statistic is NaN |
| Paths.Path | app.py/app.py:297-301 | one price per sample, each at least 0.1 |
| Paths.PathPrefix | app.py/app.py:297-301 | the walk over the first k samples is the first k prices of the longer walk |
| Paths.PathAt | app.py/app.py:297-301 | price i is one step from price i-1, or from the last known price for i = 0 |
| Paths.UndefinedDriftFloors | app.py/app.py:299-300 | a NaN trend or NaN return statistics put every price at 0.1 |
| Paths.ZeroTrendFlat | app.py/app.py:299-300 | a zero trend keeps a price that is at or above the floor unchanged, whatever the samples |
| Paths.RisingTrendNeverFalls | app.py/app.py:297-301 | with a non-negative trend and samples of at least -2, no day's price is below the day before |
| Paths.GainingReturnsNeverFall | app.py/app.py:321-325 | from a non-negative last price, when every sampled return is non-negative, no day's price is below the day before |
| Paths.MovingAverageTrendPath | app.py/app.py:294-301 | the loop's output equals the recursive walk for the trend drift |
| Paths.SimpleProjectionPath | app.py/app.py:318-325 | the loop's output equals the recursive walk for the return drift |
| Forecast.ReturnOf | app.py/app.py:314 | a return is a number iff the previous price is non-zero, and then the previous price grown by it is the next price |
| Forecast.Returns | app.py/app.py:314 | one return per pair of consecutive prices, the return from price i to price i+1 |
| Forecast.RecentReturns | app.py/app.py:314-316 | at most two prices always leave the statistics NaN; with no zero price, they are NaN iff at most two prices are known; the deviation is the given one |
| Forecast.RecentMeanBetween | app.py/app.py:314-315 | when defined, the window holds at least two returns, all numbers, and their mean lies between the smallest and the largest |
| Forecast.ForecastPrices | app.py/app.py:264-325 | one price per forecast day; both random walks stay at or above 0.1 |
| Forecast.ForecastTable | app.py/app.py:260-334 | an error iff no close is present; otherwise `horizon` dates and `horizon` prices, the random walks at or above 0.1 |
| Forecast.GenerateForecast | app.py/app.py:260-334 | the handler, with its loops, produces exactly the forecast table |
| Forecast.LastIsLatest | app.py/app.py:281 | the last of date-ordered quotes is the latest of them |
| Forecast.ForecastAfterHistory | app.py/app.py:281-282 | for date-ordered rows, every forecast date is after every known day, and the dates are one day apart |
| Forecast.TooFewPricesFloor | app.py/app.py:291-325 | a single price (Moving Average Trend) or at most two (Simple Projection) give a forecast that is 0.1 every day |
| Forecast.FewPricesNoDrift | app.py/app.py:291-316 | one price leaves the trend NaN, and two or fewer leave the return statistics NaN |
| Forecast.UndefinedWalkFloors | app.py/app.py:294-325 | a random-walk forecast under a NaN statistic is 0.1 every day |
| Forecast.RegressionContinuesLine | app.py/app.py:264-287 | cleaned prices on a line are forecast along that line |
| Forecast.ChangePercent | app.py/app.py:385 | defined iff the last price is non-zero, and then current * percent == (end - current) * 100 |
| Forecast.Summarize | app.py/app.py:374-390 | high and low are forecast prices bounding all of them, end is the last, Bullish iff end > current, and the percent relation |
| Forecast.BullishAgreesWithChange | app.py/app.py:385-389 | for a positive last price, Bullish iff the percent change is positive; for a negative one, iff it is negative |
| Forecast.RandomWalkSummaryFloor | app.py/app.py:374-380 | the forecast low of a random walk is at least 0.1 |

## Left out

- User interface: widgets, metrics, charts, tables, and the formatting of currency and dates (lines 7-19, 99-170, 340-399, 405-427).
- The `yfinance` download (lines 22-34): network I/O. The rows are an input.
- The synthetic sample-data generator (lines 37-67): it depends on the clock and a seeded random generator.
- Random number generation: the standard normal samples are an input sequence, one per forecast day.
- Forecast.RecentReturns: the standard deviation of the last thirty returns (line 316) is an input, because it needs a square root of floating-point data; the window, the mean (line 315) and when the statistics are NaN are derived from the prices.
- Forecast.RecentReturns: a return after a zero price is not a number, and makes the statistics undefined (all forecast prices 0.1). For a non-zero price after a zero one pandas keeps an infinite return, whose NaN deviation gives the same floor; a zero after a zero gives NaN, which pandas drops before taking the last thirty returns, and the model does not.
- The volatility metric (line 241), the rolling 20/50-day averages (lines 174-177) and the current-price metric (line 103): they feed display only.
- IEEE floating point: rounding and overflow. Prices are exact reals. NaN statistics are `None`. A division by zero that gives an infinity or NaN in a percentage is `None`.
- pandas column handling: MultiIndex flattening, `float()` coercion and the missing-"Close" check (lines 82-92).
- The sklearn estimator: it is replaced by the closed-form least-squares line. For a single price, that line has slope 0.
- The unused confidence-interval slider (line 19).
- Forecast.GenerateForecast: the blanket `except` (lines 401-403) is modelled only for the one error the forecast can raise on cleaned data, namely no price at all (`NoPrices`).
