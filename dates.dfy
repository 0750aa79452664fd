/**
 * The calendar of a forecast: one future date per forecast day, counted in
 * whole days from the last date of the cleaned history (no trading calendar).
 */
module Dates {

  /**
   * `last_date + timedelta(days=i+1)` for `i` in `0 .. horizon - 1`, with dates
   * as day numbers: the first date is the day after `lastDay`, each next date
   * is exactly one day later, and the last is `horizon` days after `lastDay`.
   */
  function FutureDates(lastDay: int, horizon: nat): (r: seq<int>)
    ensures |r| == horizon
    ensures horizon > 0 ==> r[0] == lastDay + 1 && r[horizon - 1] == lastDay + horizon
    ensures forall i :: 0 < i < horizon ==> r[i] == r[i - 1] + 1
  {
    seq(horizon, i requires 0 <= i < horizon => lastDay + i + 1)
  }

  /** Strictly increasing dates, all after `lastDay` and within `horizon` days of it. */
  lemma {:induction false} FutureDatesIncreasing(lastDay: int, horizon: nat)
    ensures forall i, j :: 0 <= i < j < horizon ==> FutureDates(lastDay, horizon)[i] < FutureDates(lastDay, horizon)[j]
    ensures forall i :: 0 <= i < horizon ==> lastDay < FutureDates(lastDay, horizon)[i] <= lastDay + horizon
  {
    var r := FutureDates(lastDay, horizon);
    forall i | 0 <= i < horizon
      ensures r[i] == lastDay + i + 1
    {
      FutureDatesAt(lastDay, horizon, i);
    }
  }

  /** The `i`-th future date, from the one-day spacing alone. */
  lemma {:induction false} FutureDatesAt(lastDay: int, horizon: nat, i: nat)
    requires i < horizon
    ensures FutureDates(lastDay, horizon)[i] == lastDay + i + 1
  {
    if i > 0 {
      FutureDatesAt(lastDay, horizon, i - 1);
    }
  }
}
