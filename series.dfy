/**
 * The close-price series of the dashboard: the raw rows as downloaded (a close
 * may be missing), the cleaned series that every later computation reads
 * (`close_prices.dropna()`), the daily change shown in the overview, and the
 * high / low / average statistics.
 */
module Series {
  import opened Wrappers

  /** One row of the downloaded table: a calendar day number and its close, `None` when NaN. */
  datatype Bar = Bar(day: int, close: Option<real>)

  /** One row of the cleaned series: a day and a close that is present. */
  datatype Quote = Quote(day: int, price: real)

  /** Rows whose days strictly increase, as in a date-indexed price table. */
  predicate Chronological(bars: seq<Bar>)
  {
    forall i, j :: 0 <= i < j < |bars| ==> bars[i].day < bars[j].day
  }

  /** Quotes whose days strictly increase. */
  predicate ChronologicalQuotes(qs: seq<Quote>)
  {
    forall i, j :: 0 <= i < j < |qs| ==> qs[i].day < qs[j].day
  }

  /**
   * Drops the rows whose close is missing and keeps the others in order.
   * Every quote kept comes from a row of the input with that day and price.
   */
  function Clean(bars: seq<Bar>): (r: seq<Quote>)
    ensures |r| <= |bars|
    ensures forall q :: q in r ==> Bar(q.day, Some(q.price)) in bars
  {
    if bars == [] then []
    else
      var rest := Clean(bars[1..]);
      match bars[0].close
      case None => rest
      case Some(p) => [Quote(bars[0].day, p)] + rest
  }

  /** The rows a cleaned series would have been read from: every close present. */
  function Lift(qs: seq<Quote>): (r: seq<Bar>)
    ensures |r| == |qs|
    ensures forall i :: 0 <= i < |qs| ==> r[i].day == qs[i].day && r[i].close == Some(qs[i].price)
  {
    seq(|qs|, i requires 0 <= i < |qs| => Bar(qs[i].day, Some(qs[i].price)))
  }

  /** Every row with a present close survives cleaning. */
  lemma {:induction false} CleanKeepsPresent(bars: seq<Bar>, i: nat)
    requires i < |bars| && bars[i].close.Some?
    ensures Quote(bars[i].day, bars[i].close.value) in Clean(bars)
  {
    if i > 0 {
      CleanKeepsPresent(bars[1..], i - 1);
      assert bars[1..][i - 1] == bars[i];
    }
  }

  /** Cleaning works row by row: it distributes over concatenation, so order is kept. */
  lemma {:induction false} CleanAppend(a: seq<Bar>, b: seq<Bar>)
    ensures Clean(a + b) == Clean(a) + Clean(b)
  {
    if a == [] {
      assert a + b == b;
    } else {
      assert (a + b)[0] == a[0];
      assert (a + b)[1..] == a[1..] + b;
      CleanAppend(a[1..], b);
    }
  }

  /** Cleaning an already clean series gives it back: dropping NaN twice is dropping it once. */
  lemma {:induction false} CleanLift(qs: seq<Quote>)
    ensures Clean(Lift(qs)) == qs
  {
    if qs != [] {
      assert Lift(qs)[1..] == Lift(qs[1..]);
      CleanLift(qs[1..]);
    }
  }

  /** Cleaning is idempotent. */
  lemma CleanIdempotent(bars: seq<Bar>)
    ensures Clean(Lift(Clean(bars))) == Clean(bars)
  {
    CleanLift(Clean(bars));
  }

  /** Cleaning drops nothing exactly when no close is missing. */
  lemma {:induction false} CleanLengthExact(bars: seq<Bar>)
    ensures |Clean(bars)| == |bars| <==> forall i :: 0 <= i < |bars| ==> bars[i].close.Some?
  {
    if bars != [] {
      CleanLengthExact(bars[1..]);
      assert forall i :: 1 <= i < |bars| ==> bars[i] == bars[1..][i - 1];
      if forall i :: 0 <= i < |bars| ==> bars[i].close.Some? {
        assert forall i :: 0 <= i < |bars[1..]| ==> bars[1..][i].close.Some?;
      }
    }
  }

  /** A chronological table stays chronological after cleaning. */
  lemma {:induction false} CleanChronological(bars: seq<Bar>)
    requires Chronological(bars)
    ensures ChronologicalQuotes(Clean(bars))
  {
    if bars != [] {
      var rest := Clean(bars[1..]);
      CleanChronological(bars[1..]);
      if bars[0].close.Some? {
        var r := Clean(bars);
        assert r == [Quote(bars[0].day, bars[0].close.value)] + rest;
        forall j | 0 < j < |r|
          ensures r[0].day < r[j].day
        {
          assert r[j] == rest[j - 1];
          assert Bar(r[j].day, Some(r[j].price)) in bars[1..];
        }
      }
    }
  }

  /** The prices of a cleaned series, in order. */
  function Prices(qs: seq<Quote>): (r: seq<real>)
    ensures |r| == |qs|
    ensures forall i :: 0 <= i < |qs| ==> r[i] == qs[i].price
  {
    seq(|qs|, i requires 0 <= i < |qs| => qs[i].price)
  }

  /** Sum of a series, from the first to the last value. */
  function Sum(s: seq<real>): real
  {
    if s == [] then 0.0 else Sum(s[..|s| - 1]) + s[|s| - 1]
  }

  /** `valid_data.max()`: a value of the series that no value exceeds. */
  function Max(s: seq<real>): (m: real)
    requires |s| > 0
    ensures m in s
    ensures forall i :: 0 <= i < |s| ==> s[i] <= m
  {
    if |s| == 1 then s[0]
    else
      var m' := Max(s[..|s| - 1]);
      assert forall i :: 0 <= i < |s| - 1 ==> s[i] == s[..|s| - 1][i];
      if s[|s| - 1] > m' then s[|s| - 1] else m'
  }

  /** `valid_data.min()`: a value of the series that no value undercuts. */
  function Min(s: seq<real>): (m: real)
    requires |s| > 0
    ensures m in s
    ensures forall i :: 0 <= i < |s| ==> m <= s[i]
  {
    if |s| == 1 then s[0]
    else
      var m' := Min(s[..|s| - 1]);
      assert forall i :: 0 <= i < |s| - 1 ==> s[i] == s[..|s| - 1][i];
      if s[|s| - 1] < m' then s[|s| - 1] else m'
  }

  /** `valid_data.mean()`. */
  function Mean(s: seq<real>): real
    requires |s| > 0
  {
    Sum(s) / (|s| as real)
  }

  /** A sum of values between `lo` and `hi` lies between `n * lo` and `n * hi`. */
  lemma {:induction false} SumBetween(s: seq<real>, lo: real, hi: real)
    requires forall i :: 0 <= i < |s| ==> lo <= s[i] <= hi
    ensures (|s| as real) * lo <= Sum(s) <= (|s| as real) * hi
  {
    if s != [] {
      var init := s[..|s| - 1];
      assert forall i :: 0 <= i < |init| ==> init[i] == s[i];
      SumBetween(init, lo, hi);
      var n := |init| as real;
      assert (|s| as real) * lo == n * lo + lo;
      assert (|s| as real) * hi == n * hi + hi;
    }
  }

  /** The average never leaves the range between the low and the high. */
  lemma MeanBetween(s: seq<real>)
    requires |s| > 0
    ensures Min(s) <= Mean(s) <= Max(s)
  {
    MeanWithin(s, Min(s), Max(s));
  }

  /** The average of values between `lo` and `hi` is between `lo` and `hi`. */
  lemma MeanWithin(s: seq<real>, lo: real, hi: real)
    requires |s| > 0
    requires forall i :: 0 <= i < |s| ==> lo <= s[i] <= hi
    ensures lo <= Mean(s) <= hi
  {
    SumBetween(s, lo, hi);
    ScaledBetween(Sum(s), |s| as real, lo, hi);
  }

  /** Dividing `n * lo <= x <= n * hi` by a positive `n`. */
  lemma ScaledBetween(x: real, n: real, lo: real, hi: real)
    requires n > 0.0 && n * lo <= x <= n * hi
    ensures lo <= x / n <= hi
  {
    assert x / n * n == x;
  }

  /** The three price statistics of the dashboard. */
  datatype Stats = Stats(high: real, low: real, average: real)

  /**
   * The "All-Time High", "All-Time Low" and "Average Price" metrics, each shown
   * as "N/A" (`None`) when the cleaned series is empty.
   */
  function PriceStats(qs: seq<Quote>): (r: Option<Stats>)
    ensures r.None? <==> qs == []
    ensures r.Some? ==> r.value.low <= r.value.average <= r.value.high
    ensures r.Some? ==> r.value.high in Prices(qs) && r.value.low in Prices(qs)
    ensures r.Some? ==> forall q :: q in qs ==> r.value.low <= q.price <= r.value.high
  {
    if qs == [] then None
    else
      var ps := Prices(qs);
      MeanBetween(ps);
      assert forall q :: q in qs ==> exists i :: 0 <= i < |qs| && ps[i] == q.price;
      Some(Stats(Max(ps), Min(ps), Mean(ps)))
  }

  /** The "Daily Change" metric: the change and, when defined, the change in percent. */
  datatype Change = Change(amount: real, percent: Option<real>)

  /**
   * The change between the last two raw closes. It is "N/A" (`None`) when the
   * series has fewer than two rows or either of the two closes is missing. The
   * percentage is relative to the previous close; for a previous close of zero
   * floating point gives an infinity or NaN, which is `None` here.
   */
  function DailyChange(closes: seq<Option<real>>): (r: Option<Change>)
    ensures r.Some? <==> |closes| > 1 && closes[|closes| - 1].Some? && closes[|closes| - 2].Some?
    ensures r.Some? ==> closes[|closes| - 2].value + r.value.amount == closes[|closes| - 1].value
    ensures r.Some? ==> (r.value.percent.Some? <==> closes[|closes| - 2].value != 0.0)
    ensures r.Some? && r.value.percent.Some? ==>
      r.value.percent.value * closes[|closes| - 2].value == 100.0 * r.value.amount
  {
    if |closes| <= 1 then None
    else
      match (closes[|closes| - 2], closes[|closes| - 1])
      case (Some(previous), Some(current)) =>
        var change := current - previous;
        Some(Change(change, if previous == 0.0 then None else Some(change / previous * 100.0)))
      case _ => None
  }
}
