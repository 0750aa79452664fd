/**
 * The two random-walk forecasts. Each starts from the last cleaned price and
 * takes one step per forecast day: it adds a change to the current price and
 * floors the result at 0.1 (`max(0.1, current_price + change)`).
 *
 * - Moving Average Trend: the change is the recent trend plus a normal draw of
 *   mean 0 and standard deviation `|trend| * 0.5`.
 * - Simple Projection: the change is the current price times a normal draw with
 *   the mean and standard deviation of the recent daily returns.
 *
 * The normal draws are not generated here: each day `i` is given a standard
 * normal sample `z[i]`, and a draw of mean `m` and deviation `s` is `m + s * z[i]`.
 */
module Paths {
  import opened Wrappers

  /** The floor under every random-walk price. */
  const Floor: real := 0.1

  /** `max(0.1, x)`. */
  function Clamp(x: real): (r: real)
    ensures r >= Floor && r >= x
    ensures r == x || r == Floor
  {
    if x > Floor then x else Floor
  }

  /** `abs(x)`. */
  function Abs(x: real): (r: real)
    ensures r >= 0.0 && (r == x || r == -x)
  {
    if x < 0.0 then -x else x
  }

  /** The mean and standard deviation of the recent daily returns. */
  datatype ReturnParams = ReturnParams(mean: real, std: real)

  /**
   * What moves the price each day: the recent trend, or the statistics of the
   * recent returns. `None` stands for a NaN statistic (too few prices, or a return after a zero price).
   */
  datatype Drift = TrendDrift(trend: Option<real>) | ReturnDrift(stats: Option<ReturnParams>)

  /** A normal draw of mean `mean` and deviation `deviation`, for the standard sample `z`. */
  function Draw(mean: real, deviation: real, z: real): real
  {
    mean + deviation * z
  }

  /**
   * The Moving Average Trend change for the sample `z`: the trend plus a draw
   * of mean 0 and deviation `|trend| * 0.5`.
   */
  function TrendChange(t: real, z: real): real
  {
    t + Draw(0.0, Abs(t) * 0.5, z)
  }

  /**
   * The Simple Projection change for the sample `z`: the price times a return
   * drawn with the mean and deviation of the recent returns.
   */
  function ReturnChange(price: real, p: ReturnParams, z: real): real
  {
    price * Draw(p.mean, p.std, z)
  }

  /**
   * One day of either walk from the price `prev` with the sample `z`. A NaN
   * statistic makes the change NaN, and `max(0.1, NaN)` is 0.1.
   */
  function Step(d: Drift, prev: real, z: real): (r: real)
    ensures r >= Floor
    ensures d == TrendDrift(None) || d == ReturnDrift(None) ==> r == Floor
  {
    match d
    case TrendDrift(None) => Floor
    case TrendDrift(Some(t)) => Clamp(prev + TrendChange(t, z))
    case ReturnDrift(None) => Floor
    case ReturnDrift(Some(p)) => Clamp(prev + ReturnChange(prev, p, z))
  }

  /** The price a step starts from: the last price of `path`, or `start` before the first step. */
  function Current(start: real, path: seq<real>): real
  {
    if path == [] then start else path[|path| - 1]
  }

  /**
   * The walk from `start` over the samples `z`, one price per sample, every
   * price at or above the floor.
   */
  function Path(start: real, d: Drift, z: seq<real>): (r: seq<real>)
    ensures |r| == |z|
    ensures forall i :: 0 <= i < |r| ==> r[i] >= Floor
  {
    if z == [] then []
    else
      var p := Path(start, d, z[..|z| - 1]);
      p + [Step(d, Current(start, p), z[|z| - 1])]
  }

  /**
   * The walk over the first `k` samples is the first `k` prices of the walk
   * over all of them: a longer forecast extends a shorter one with the same draws.
   */
  lemma {:induction false} PathPrefix(start: real, d: Drift, z: seq<real>, k: nat)
    requires k <= |z|
    ensures Path(start, d, z[..k]) == Path(start, d, z)[..k]
    decreases |z| - k
  {
    if k == |z| {
      assert z[..k] == z;
    } else {
      var m := |z| - 1;
      var r, p := Path(start, d, z), Path(start, d, z[..m]);
      assert r == p + [Step(d, Current(start, p), z[m])];
      assert r[..m] == p;
      PathPrefix(start, d, z[..m], k);
      assert z[..m][..k] == z[..k];
      assert r[..m][..k] == r[..k];
    }
  }

  /** Each price of the walk is one step from the price before it. */
  lemma PathAt(start: real, d: Drift, z: seq<real>, i: nat)
    requires i < |z|
    ensures Path(start, d, z)[i] == Step(d, Current(start, Path(start, d, z)[..i]), z[i])
  {
    var r := Path(start, d, z);
    var y := z[..i + 1];
    PathPrefix(start, d, z, i + 1);
    PathPrefix(start, d, z, i);
    assert y[..i] == z[..i];
    var p := Path(start, d, z[..i]);
    assert Path(start, d, y) == p + [Step(d, Current(start, p), y[i])];
    assert p == r[..i];
  }

  /** A NaN statistic puts every forecast price at the floor. */
  lemma UndefinedDriftFloors(start: real, d: Drift, z: seq<real>)
    requires d == TrendDrift(None) || d == ReturnDrift(None)
    ensures forall i :: 0 <= i < |z| ==> Path(start, d, z)[i] == Floor
  {
    forall i | 0 <= i < |z|
      ensures Path(start, d, z)[i] == Floor
    {
      PathAt(start, d, z, i);
    }
  }

  /** A zero trend keeps a price at or above the floor where it is, whatever the samples. */
  lemma {:induction false} ZeroTrendFlat(start: real, z: seq<real>)
    requires start >= Floor
    ensures forall i :: 0 <= i < |z| ==> Path(start, TrendDrift(Some(0.0)), z)[i] == start
  {
    if z != [] {
      var k := |z| - 1;
      ZeroTrendFlat(start, z[..k]);
      var p := Path(start, TrendDrift(Some(0.0)), z[..k]);
      assert Current(start, p) == start;
      assert TrendChange(0.0, z[k]) == 0.0;
    }
  }

  /**
   * A rising trend never makes the walk fall on a day whose sample is at least
   * -2 (the noise is then at most the trend itself).
   */
  lemma RisingTrendNeverFalls(start: real, t: real, z: seq<real>)
    requires t >= 0.0
    requires forall i :: 0 <= i < |z| ==> z[i] >= -2.0
    ensures var r := Path(start, TrendDrift(Some(t)), z);
      forall i :: 0 <= i < |z| ==> Current(start, r[..i]) <= r[i]
  {
    var d := TrendDrift(Some(t));
    var r := Path(start, d, z);
    forall i | 0 <= i < |z|
      ensures Current(start, r[..i]) <= r[i]
    {
      PathAt(start, d, z, i);
      TrendChangeNonNegative(t, z[i]);
    }
  }

  /** With `t >= 0` and `z >= -2` the change `t + |t| * 0.5 * z` is not negative. */
  lemma TrendChangeNonNegative(t: real, z: real)
    requires t >= 0.0 && z >= -2.0
    ensures TrendChange(t, z) >= 0.0
  {
    assert t * (z + 2.0) >= 0.0;
  }

  /**
   * Simple Projection: when every sampled return is at least zero the walk
   * never falls.
   */
  lemma GainingReturnsNeverFall(start: real, p: ReturnParams, z: seq<real>)
    requires start >= 0.0
    requires forall i :: 0 <= i < |z| ==> Gains(p, z[i])
    ensures var r := Path(start, ReturnDrift(Some(p)), z);
      forall i :: 0 <= i < |z| ==> Current(start, r[..i]) <= r[i]
  {
    var d := ReturnDrift(Some(p));
    var r := Path(start, d, z);
    forall i | 0 <= i < |z|
      ensures Current(start, r[..i]) <= r[i]
    {
      PathAt(start, d, z, i);
      ReturnStepRises(Current(start, r[..i]), p, z[i]);
    }
  }

  /** The return sampled with `z` is not negative. */
  predicate Gains(p: ReturnParams, z: real)
  {
    p.mean + p.std * z >= 0.0
  }

  /** A non-negative return on a non-negative price does not lower it. */
  lemma ReturnStepRises(price: real, p: ReturnParams, z: real)
    requires price >= 0.0 && Gains(p, z)
    ensures Step(ReturnDrift(Some(p)), price, z) >= price
  {
    var g := p.mean + p.std * z;
    assert ReturnChange(price, p, z) == price * g;
    assert price * g >= 0.0;
  }

  /**
   * The Moving Average Trend loop: `forecast_days` times, add the trend and its
   * noise to the current price, floor it at 0.1 and append it.
   */
  method MovingAverageTrendPath(lastPrice: real, trend: Option<real>, z: seq<real>) returns (future: seq<real>)
    ensures future == Path(lastPrice, TrendDrift(trend), z)
  {
    future := [];
    var current := lastPrice;
    var i := 0;
    while i < |z|
      invariant 0 <= i <= |z|
      invariant future == Path(lastPrice, TrendDrift(trend), z[..i])
      invariant current == Current(lastPrice, future)
    {
      match trend {
        case None =>
          current := Floor;
        case Some(t) =>
          var change := TrendChange(t, z[i]);
          current := Clamp(current + change);
      }
      assert z[..i + 1][..i] == z[..i];
      future := future + [current];
      i := i + 1;
    }
    assert z[..|z|] == z;
  }

  /**
   * The Simple Projection loop: `forecast_days` times, move the current price
   * by a sampled return of itself, floor it at 0.1 and append it.
   */
  method SimpleProjectionPath(lastPrice: real, stats: Option<ReturnParams>, z: seq<real>) returns (future: seq<real>)
    ensures future == Path(lastPrice, ReturnDrift(stats), z)
  {
    future := [];
    var current := lastPrice;
    var i := 0;
    while i < |z|
      invariant 0 <= i <= |z|
      invariant future == Path(lastPrice, ReturnDrift(stats), z[..i])
      invariant current == Current(lastPrice, future)
    {
      match stats {
        case None =>
          current := Floor;
        case Some(p) =>
          var change := ReturnChange(current, p, z[i]);
          current := Clamp(current + change);
      }
      assert z[..i + 1][..i] == z[..i];
      future := future + [current];
      i := i + 1;
    }
    assert z[..|z|] == z;
  }
}
