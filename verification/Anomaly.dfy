/** The rolling detectors (forecast/app/services/anomaly.py), in exact arithmetic. The test
    |v - mean| / std >= k is stated as (v - mean)^2 >= k^2 * variance. */
module Anomaly {
  import opened Prelude
  import opened OrderStatistics

  datatype Point = Point(ds: string, y: real)

  datatype AnomalyResult = AnomalyResult(ds: string, value: real, expected: Option<real>, isAnomaly: bool)

  function Values(points: seq<Point>): (ys: seq<real>)
    ensures |ys| == |points|
    ensures forall i :: 0 <= i < |points| ==> ys[i] == points[i].y
  {
    seq(|points|, i requires 0 <= i < |points| => points[i].y)
  }

  // ---------------------------------------------------------------- window statistics

  function Sum(xs: seq<real>): real {
    if xs == [] then 0.0 else xs[0] + Sum(xs[1..])
  }

  function Mean(xs: seq<real>): real
    requires xs != []
  {
    Sum(xs) / |xs| as real
  }

  function Square(x: real): real {
    x * x
  }

  /** The sum of squared distances from `mu`. */
  function Spread(xs: seq<real>, mu: real): real {
    if xs == [] then 0.0 else Square(xs[0] - mu) + Spread(xs[1..], mu)
  }

  /** The population variance (ddof=0). */
  function Variance(xs: seq<real>): real
    requires xs != []
  {
    Spread(xs, Mean(xs)) / |xs| as real
  }

  // ---------------------------------------------------------------- the two judgements

  datatype Verdict = Verdict(expected: real, isAnomaly: bool)

  function ZJudge(window: seq<real>, v: real, threshold: real): Verdict
    requires window != []
  {
    var mu, variance := Mean(window), Variance(window);
    Verdict(mu, if variance == 0.0 then v != mu
                else threshold <= 0.0 || Square(v - mu) >= Square(threshold) * variance)
  }

  function Lower(q1: real, q3: real, multiplier: real): real {
    q1 - multiplier * (q3 - q1)
  }

  function Upper(q1: real, q3: real, multiplier: real): real {
    q3 + multiplier * (q3 - q1)
  }

  function LowerFence(window: seq<real>, multiplier: real): real
    requires window != []
  {
    Lower(Quantile(window, 1), Quantile(window, 3), multiplier)
  }

  function UpperFence(window: seq<real>, multiplier: real): real
    requires window != []
  {
    Upper(Quantile(window, 1), Quantile(window, 3), multiplier)
  }

  function IqrJudge(window: seq<real>, v: real, multiplier: real): Verdict
    requires window != []
  {
    Verdict(Quantile(window, 2), v < LowerFence(window, multiplier) || v > UpperFence(window, multiplier))
  }

  datatype Method = ZScore | Iqr

  function Judge(m: Method, window: seq<real>, v: real, k: real): Verdict
    requires window != []
  {
    match m
    case ZScore => ZJudge(window, v, k)
    case Iqr => IqrJudge(window, v, k)
  }

  /** The result for point `i`: nothing before `w` earlier points exist, then the judgement
      against the `w` points before it. */
  function ResultAt(m: Method, points: seq<Point>, w: nat, k: real, i: nat): AnomalyResult
    requires w > 0 && i < |points|
  {
    var p := points[i];
    if i < w then AnomalyResult(p.ds, p.y, None, false)
    else
      var verdict := Judge(m, Values(points)[i - w..i], p.y, k);
      AnomalyResult(p.ds, p.y, Some(verdict.expected), verdict.isAnomaly)
  }

  // ---------------------------------------------------------------- the detectors

  /** `zscore_detect`: one pass over the series with its trailing rolling statistics. */
  method ZScoreDetect(points: seq<Point>, windowDays: nat, threshold: real) returns (out: seq<AnomalyResult>)
    requires windowDays > 0
    ensures |out| == |points|
    ensures forall i :: 0 <= i < |out| ==> out[i] == ResultAt(ZScore, points, windowDays, threshold, i)
  {
    out := [];
    var values := Values(points);
    var i := 0;
    while i < |points|
      invariant 0 <= i <= |points| && |out| == i
      invariant forall j :: 0 <= j < i ==> out[j] == ResultAt(ZScore, points, windowDays, threshold, j)
    {
      var ds, value := points[i].ds, points[i].y;
      if i < windowDays {
        out := out + [AnomalyResult(ds, value, None, false)];
      } else {
        var window := values[i - windowDays..i];
        var mu, variance := Mean(window), Variance(window);
        if variance == 0.0 {
          out := out + [AnomalyResult(ds, value, Some(mu), value != mu)];
        } else {
          var flagged := threshold <= 0.0 || Square(value - mu) >= Square(threshold) * variance;
          out := out + [AnomalyResult(ds, value, Some(mu), flagged)];
        }
      }
      i := i + 1;
    }
  }

  /** `iqr_detect`: one pass over the series with the quartiles of the window before each point. */
  method IqrDetect(points: seq<Point>, windowDays: nat, multiplier: real) returns (out: seq<AnomalyResult>)
    requires windowDays > 0
    ensures |out| == |points|
    ensures forall i :: 0 <= i < |out| ==> out[i] == ResultAt(Iqr, points, windowDays, multiplier, i)
  {
    hide Quantile, ZJudge;
    out := [];
    var values := Values(points);
    var i := 0;
    while i < |points|
      invariant 0 <= i <= |points| && |out| == i
      invariant forall j :: 0 <= j < i ==> out[j] == ResultAt(Iqr, points, windowDays, multiplier, j)
    {
      var ds, value := points[i].ds, points[i].y;
      if i < windowDays {
        out := out + [AnomalyResult(ds, value, None, false)];
      } else {
        var window := values[i - windowDays..i];
        var q1, q3 := Quantile(window, 1), Quantile(window, 3);
        var iqr := q3 - q1;
        var lower, upper := q1 - multiplier * iqr, q3 + multiplier * iqr;
        out := out + [AnomalyResult(ds, value, Some(Quantile(window, 2)), value < lower || value > upper)];
      }
      i := i + 1;
    }
  }

  // ---------------------------------------------------------------- the squared test

  function Abs(x: real): real {
    if x < 0.0 then -x else x
  }

  lemma SquareOrder(x: real, y: real)
    requires x >= 0.0 && y >= 0.0
    ensures x >= y <==> Square(x) >= Square(y)
  {
    if x >= y {
      NonNegativeProduct(x - y, x + y);
    } else {
      PositiveProduct(y - x, y + x);
    }
    assert (x - y) * (x + y) == Square(x) - Square(y);
    assert (y - x) * (y + x) == Square(y) - Square(x);
  }

  /** For the standard deviation `sigma` of the window, the squared test of `ZJudge` is the test
      |v - mean| / sigma >= threshold. */
  lemma {:induction false} SquaredTestIsZTest(window: seq<real>, v: real, threshold: real, sigma: real)
    requires window != [] && sigma > 0.0 && Square(sigma) == Variance(window)
    ensures ZJudge(window, v, threshold).isAnomaly <==> Abs((v - Mean(window)) / sigma) >= threshold
  {
    hide Mean, Variance;
    var d := v - Mean(window);
    var z := Abs(d / sigma);
    SquarePositive(sigma);
    assert d / sigma * sigma == d;
    if threshold > 0.0 {
      SquareOrder(z, threshold);
      ScaledTest(Square(sigma), Square(z), Square(threshold));
      SquareOfQuotient(d, sigma);
      assert Square(sigma) * Square(threshold) == Square(threshold) * Square(sigma);
    }
  }

  lemma SquareOfQuotient(d: real, sigma: real)
    requires sigma > 0.0
    ensures Square(sigma) * Square(Abs(d / sigma)) == Square(d)
  {
    var q := d / sigma;
    assert sigma * q == d;
    assert Square(Abs(q)) == Square(q);
    assert Square(sigma) * Square(q) == (sigma * q) * (sigma * q);
  }

  // ---------------------------------------------------------------- what the statistics are

  /** The sum of the distances of the points from `c`. */
  function Deviations(xs: seq<real>, c: real): real {
    if xs == [] then 0.0 else (xs[0] - c) + Deviations(xs[1..], c)
  }

  function SquaredDeviations(xs: seq<real>, c: real): real {
    if xs == [] then 0.0 else (xs[0] - c) * (xs[0] - c) + SquaredDeviations(xs[1..], c)
  }

  lemma {:induction false} DeviationsOf(xs: seq<real>, c: real)
    ensures Deviations(xs, c) == Sum(xs) - |xs| as real * c
  {
    if xs != [] {
      DeviationsOf(xs[1..], c);
      assert |xs| as real == 1.0 + |xs[1..]| as real;
    }
  }

  /** Moving the centre of the squared distances. */
  lemma {:induction false} SpreadMoved(xs: seq<real>, c: real, d: real)
    ensures Spread(xs, c) == Spread(xs, d) + 2.0 * ((d - c) * Deviations(xs, d)) + |xs| as real * Square(d - c)
  {
    hide Square;
    if xs != [] {
      SpreadMoved(xs[1..], c, d);
      SquareMoved(xs[0], c, d);
      assert |xs| as real == 1.0 + |xs[1..]| as real;
      Collected(d - c, xs[0] - d, Deviations(xs[1..], d), |xs[1..]| as real, Square(d - c));
    }
  }

  lemma Collected(k: real, x: real, rest: real, n: real, q: real)
    ensures 2.0 * (k * (x + rest)) + (1.0 + n) * q == (2.0 * (k * x) + q) + (2.0 * (k * rest) + n * q)
  {
  }

  lemma SquareMoved(x: real, c: real, d: real)
    ensures Square(x - c) == Square(x - d) + 2.0 * ((d - c) * (x - d)) + Square(d - c)
  {
    assert x - c == (x - d) + (d - c);
  }

  lemma TimesQuotient(n: real, s: real)
    requires n > 0.0
    ensures n * (s / n) == s
  {
  }

  lemma VarianceTimes(xs: seq<real>)
    requires xs != []
    ensures |xs| as real * Variance(xs) == Spread(xs, Mean(xs))
  {
    hide Mean, Spread;
    TimesQuotient(|xs| as real, Spread(xs, Mean(xs)));
  }

  lemma Symmetric(x: real, y: real)
    ensures Square(x - y) == Square(y - x)
  {
    SquareOfNegated(x - y);
    assert -(x - y) == y - x;
  }

  /** MAIN: the laws that fix the two statistics: the points deviate from the mean by nothing in
      total, from no other number, and the squared distances from any number are those of the
      variance and the number's own distance from the mean. */
  lemma {:induction false} MeanAndVarianceLaws(xs: seq<real>, c: real)
    requires xs != []
    ensures Deviations(xs, c) == 0.0 <==> c == Mean(xs)
    ensures Spread(xs, c) == |xs| as real * Variance(xs) + |xs| as real * Square(c - Mean(xs))
  {
    hide Square, Spread, Sum, Deviations;
    var n, mu := |xs| as real, Mean(xs);
    DeviationsOf(xs, c);
    DeviationsOf(xs, mu);
    TimesQuotient(n, Sum(xs));
    DivideBack(n, c, Sum(xs));
    hide Mean;
    assert Deviations(xs, mu) == 0.0;
    VarianceTimes(xs);
    hide Variance;
    SpreadMoved(xs, c, mu);
    Symmetric(c, mu);
    assert (mu - c) * 0.0 == 0.0;
  }

  /** `window` holds the values of the `w` points before point `i`. */
  predicate Precedes(window: seq<real>, points: seq<Point>, w: nat, i: nat)
    requires i < |points|
  {
    |window| == w <= i && forall j :: 0 <= j < w ==> window[j] == points[i - w + j].y
  }

  /** MAIN: a z-score result on the numbers of the series: the expected value is the one from which
      the `w` points before it deviate by nothing in total; with `s` the sum of their squared
      distances from it, the point is flagged if it differs at all where s is 0, and where it is
      not if its squared distance is at least threshold squared times s / w. */
  lemma {:induction false} ZScoreOnPoints(points: seq<Point>, w: nat, threshold: real, i: nat, window: seq<real>)
    requires w > 0 && i < |points| && Precedes(window, points, w, i)
    ensures var r := ResultAt(ZScore, points, w, threshold, i);
            && r.ds == points[i].ds && r.value == points[i].y && r.expected.Some?
            && Deviations(window, r.expected.value) == 0.0
            && var d, s := points[i].y - r.expected.value, SquaredDeviations(window, r.expected.value);
               r.isAnomaly <==> if s == 0.0 then d != 0.0
                                else threshold <= 0.0 || w as real * (d * d) >= threshold * threshold * s
  {
    assert Values(points)[i - w..i] == window;
    var mu := Mean(window);
    MeanAndVarianceLaws(window, mu);
    SpreadIsSquared(window, mu);
    var n, s, d := w as real, Spread(window, mu), points[i].y - mu;
    DivideBack(n, 0.0, s);
    TimesQuotient(n, s);
    hide Mean, Spread;
    ScaledTest(n, Square(d), Square(threshold) * (s / n));
    Exchange(Square(threshold), n, s / n);
  }

  lemma {:induction false} SpreadIsSquared(xs: seq<real>, c: real)
    ensures Spread(xs, c) == SquaredDeviations(xs, c)
  {
    if xs != [] {
      SpreadIsSquared(xs[1..], c);
    }
  }

  /** An IQR result on the quartiles of the `w` points before it. */
  lemma {:induction false} IqrOnPoints(points: seq<Point>, w: nat, multiplier: real, i: nat, window: seq<real>)
    requires w > 0 && i < |points| && Precedes(window, points, w, i)
    ensures var r := ResultAt(Iqr, points, w, multiplier, i);
            var q1, q3 := Quantile(window, 1), Quantile(window, 3);
            && r.ds == points[i].ds && r.value == points[i].y && r.expected == Some(Quantile(window, 2))
            && (r.isAnomaly <==> points[i].y < q1 - multiplier * (q3 - q1) || points[i].y > q3 + multiplier * (q3 - q1))
  {
    hide Quantile;
    assert Values(points)[i - w..i] == window;
  }

  // ---------------------------------------------------------------- causality

  /** MAIN: a result depends on its own point and the `w` points before it, on nothing else;
      exactly the first `w` results have no baseline, and none of them is flagged. */
  lemma {:induction false} ResultsAreCausal(m: Method, points: seq<Point>, others: seq<Point>, w: nat, k: real, i: nat)
    requires w > 0 && i < |points| && i < |others|
    requires forall j :: 0 <= j <= i && i - w <= j ==> points[j] == others[j]
    ensures ResultAt(m, points, w, k, i) == ResultAt(m, others, w, k, i)
    ensures ResultAt(m, points, w, k, i).expected.None? <==> i < w
    ensures i < w ==> !ResultAt(m, points, w, k, i).isAnomaly
    ensures ResultAt(m, points, w, k, i).ds == points[i].ds && ResultAt(m, points, w, k, i).value == points[i].y
  {
    hide Judge;
    if i >= w {
      assert Values(points)[i - w..i] == Values(others)[i - w..i];
    }
  }

  // ---------------------------------------------------------------- constant windows

  predicate Constant(xs: seq<real>) {
    forall i :: 0 <= i < |xs| ==> xs[i] == xs[0]
  }

  lemma SquarePositive(x: real)
    requires x > 0.0
    ensures Square(x) > 0.0
  {
    var square := Square(x);
    assert square / x == x;
  }

  lemma SquareOfNegated(x: real)
    ensures Square(-x) == Square(x)
  {
  }

  lemma SquareLaws(x: real)
    ensures Square(x) >= 0.0 && (Square(x) == 0.0 <==> x == 0.0)
  {
    assert Square(0.0) == 0.0;
    hide Square;
    if x > 0.0 {
      SquarePositive(x);
    } else if x < 0.0 {
      SquarePositive(-x);
      SquareOfNegated(x);
    }
  }

  lemma {:induction false} SpreadZero(xs: seq<real>, mu: real)
    ensures Spread(xs, mu) >= 0.0
    ensures Spread(xs, mu) == 0.0 <==> forall i :: 0 <= i < |xs| ==> xs[i] == mu
  {
    hide Square;
    if xs != [] {
      SpreadZero(xs[1..], mu);
      SquareLaws(xs[0] - mu);
      assert forall i :: 1 <= i < |xs| ==> xs[i] == xs[1..][i - 1];
      assert forall i :: 0 <= i < |xs| - 1 ==> xs[1..][i] == xs[i + 1];
    }
  }

  lemma {:induction false} SumOfConstant(xs: seq<real>, c: real)
    requires forall i :: 0 <= i < |xs| ==> xs[i] == c
    ensures Sum(xs) == |xs| as real * c
  {
    if xs != [] {
      SumOfConstant(xs[1..], c);
      assert |xs| as real == 1.0 + |xs[1..]| as real;
    }
  }

  lemma DivideBack(n: real, c: real, s: real)
    requires n > 0.0
    ensures s == n * c ==> s / n == c
    ensures s / n == 0.0 <==> s == 0.0
  {
    if s == n * c {
      assert s / n * n == s;
      assert (s / n - c) * n == 0.0;
    }
  }

  /** MAIN: the zero-variance branch is taken if and only if the window is constant; the mean is
      then that constant, so exactly the points that differ from it are flagged. */
  lemma {:induction false} ZeroVarianceIffConstant(window: seq<real>, v: real, threshold: real)
    requires window != []
    ensures Variance(window) == 0.0 <==> Constant(window)
    ensures Constant(window) ==> ZJudge(window, v, threshold) == Verdict(window[0], v != window[0])
  {
    var n := |window| as real;
    DivideBack(n, window[0], Sum(window));
    DivideBack(n, 0.0, Spread(window, Mean(window)));
    SpreadZero(window, Mean(window));
    if Constant(window) {
      SumOfConstant(window, window[0]);
    }
  }

  // ---------------------------------------------------------------- affine invariance

  lemma {:induction false} SumAffine(a: real, b: real, xs: seq<real>)
    ensures Sum(Affine(a, b, xs)) == a * Sum(xs) + b * |xs| as real
  {
    if xs != [] {
      SumAffine(a, b, xs[1..]);
      assert Affine(a, b, xs)[1..] == Affine(a, b, xs[1..]);
      assert |xs| as real == 1.0 + |xs[1..]| as real;
      Distributed(a, b, xs[0], Sum(xs[1..]), |xs[1..]| as real);
    }
  }

  lemma Distributed(a: real, b: real, x: real, s: real, n: real)
    ensures (a * x + b) + (a * s + b * n) == a * (x + s) + b * (1.0 + n)
  {
  }

  lemma {:induction false} MeanAffine(a: real, b: real, xs: seq<real>)
    requires xs != []
    ensures Mean(Affine(a, b, xs)) == Line(a, b, Mean(xs))
  {
    SumAffine(a, b, xs);
    var n := |xs| as real;
    assert Sum(xs) / n * n == Sum(xs);
    assert a * Sum(xs) + b * n == n * (a * (Sum(xs) / n) + b);
    DivideBack(n, a * (Sum(xs) / n) + b, a * Sum(xs) + b * n);
  }

  lemma SquareOfLine(a: real, b: real, x: real, y: real)
    ensures Square(Line(a, b, x) - Line(a, b, y)) == Square(a) * Square(x - y)
  {
    assert Line(a, b, x) - Line(a, b, y) == a * (x - y);
  }

  lemma {:induction false} SpreadAffine(a: real, b: real, xs: seq<real>, mu: real)
    ensures Spread(Affine(a, b, xs), Line(a, b, mu)) == Square(a) * Spread(xs, mu)
  {
    hide Square, Line;
    if xs != [] {
      SpreadAffine(a, b, xs[1..], mu);
      assert Affine(a, b, xs)[1..] == Affine(a, b, xs[1..]);
      SquareOfLine(a, b, xs[0], mu);
      assert Square(a) * Square(xs[0] - mu) + Square(a) * Spread(xs[1..], mu) ==
             Square(a) * (Square(xs[0] - mu) + Spread(xs[1..], mu));
    }
  }

  lemma {:induction false} VarianceAffine(a: real, b: real, xs: seq<real>)
    requires xs != []
    ensures Variance(Affine(a, b, xs)) == Square(a) * Variance(xs)
  {
    hide Square, Line, Mean, Spread;
    MeanAffine(a, b, xs);
    SpreadAffine(a, b, xs, Mean(xs));
    Quotient(Square(a), Spread(xs, Mean(xs)), |xs| as real);
  }

  lemma Quotient(c: real, s: real, n: real)
    requires n > 0.0
    ensures c * s / n == c * (s / n)
  {
  }

  /** Scaling both sides of the test by a positive number does not change it. */
  lemma ScaledTest(c: real, x: real, y: real)
    requires c > 0.0
    ensures x >= y <==> c * x >= c * y
  {
    if x >= y {
      NonNegativeProduct(c, x - y);
    } else {
      PositiveProduct(c, y - x);
    }
  }

  lemma LineInjective(a: real, b: real, x: real, y: real)
    requires a != 0.0
    ensures Line(a, b, x) == Line(a, b, y) <==> x == y
  {
    SquareOfLine(a, b, x, y);
    SquareLaws(a);
    SquareLaws(x - y);
    if x != y {
      PositiveProduct(Square(a), Square(x - y));
    }
  }

  lemma {:induction false} ZJudgeAffine(window: seq<real>, v: real, k: real, a: real, b: real)
    requires window != [] && a != 0.0
    ensures ZJudge(Affine(a, b, window), Line(a, b, v), k).isAnomaly == ZJudge(window, v, k).isAnomaly
    ensures ZJudge(Affine(a, b, window), Line(a, b, v), k).expected == Line(a, b, Mean(window))
  {
    hide Square, Line, Mean, Variance;
    var mu, variance, c := Mean(window), Variance(window), Square(a);
    MeanAffine(a, b, window);
    VarianceAffine(a, b, window);
    SquareLaws(a);
    SquareOfLine(a, b, v, mu);
    LineInjective(a, b, v, mu);
    ScaledTest(c, Square(v - mu), Square(k) * variance);
    assert Square(k) * (c * variance) == c * (Square(k) * variance);
    if variance != 0.0 {
      assert c * variance != 0.0 by {
        if variance > 0.0 { PositiveProduct(c, variance); } else { PositiveProduct(c, -variance); }
      }
    }
  }

  lemma {:induction false} IqrJudgeAffine(window: seq<real>, v: real, k: real, a: real, b: real)
    requires window != [] && a != 0.0
    ensures IqrJudge(Affine(a, b, window), Line(a, b, v), k).isAnomaly == IqrJudge(window, v, k).isAnomaly
    ensures IqrJudge(Affine(a, b, window), Line(a, b, v), k).expected == Line(a, b, Quantile(window, 2))
  {
    hide Quantile, Line, Lower, Upper;
    var q1, q3 := Quantile(window, 1), Quantile(window, 3);
    if a > 0.0 {
      QuantileRising(window, a, b, 1);
      QuantileRising(window, a, b, 2);
      QuantileRising(window, a, b, 3);
      FencesRising(a, b, q1, q3, k);
      LineOrder(a, b, LowerFence(window, k), v);
      LineOrder(a, b, v, UpperFence(window, k));
    } else {
      QuantileFalling(window, a, b, 1);
      QuantileFalling(window, a, b, 2);
      QuantileFalling(window, a, b, 3);
      FencesFalling(a, b, q1, q3, k);
      FallingOrder(a, b, LowerFence(window, k), v);
      FallingOrder(a, b, v, UpperFence(window, k));
    }
  }

  lemma LineShift(a: real, b: real, x: real, step: real, y: real)
    requires y == x + step
    ensures Line(a, b, y) == Line(a, b, x) + a * step
  {
  }

  lemma LineDifference(a: real, b: real, x: real, y: real)
    ensures Line(a, b, x) - Line(a, b, y) == a * (x - y)
  {
  }

  /** A multiple of a difference moves with the line. */
  lemma ScaledDifference(a: real, b: real, x: real, y: real, k: real)
    ensures k * (Line(a, b, x) - Line(a, b, y)) == a * (k * (x - y))
  {
    hide Line;
    LineDifference(a, b, x, y);
    Exchange(a, k, x - y);
  }

  lemma Exchange(a: real, k: real, d: real)
    ensures k * (a * d) == a * (k * d)
  {
  }

  lemma NegatedFactor(k: real, x: real, y: real)
    ensures k * (x - y) == -(k * (y - x))
  {
  }

  lemma FencesRising(a: real, b: real, q1: real, q3: real, k: real)
    ensures Lower(Line(a, b, q1), Line(a, b, q3), k) == Line(a, b, Lower(q1, q3, k))
    ensures Upper(Line(a, b, q1), Line(a, b, q3), k) == Line(a, b, Upper(q1, q3, k))
  {
    hide Line;
    var step := k * (q3 - q1);
    ScaledDifference(a, b, q3, q1, k);
    LineShift(a, b, q1, -step, Lower(q1, q3, k));
    LineShift(a, b, q3, step, Upper(q1, q3, k));
    assert a * -step == -(a * step);
  }

  /** A falling line exchanges the fences. */
  lemma FencesFalling(a: real, b: real, q1: real, q3: real, k: real)
    ensures Lower(Line(a, b, q3), Line(a, b, q1), k) == Line(a, b, Upper(q1, q3, k))
    ensures Upper(Line(a, b, q3), Line(a, b, q1), k) == Line(a, b, Lower(q1, q3, k))
  {
    hide Line;
    var step := k * (q3 - q1);
    ScaledDifference(a, b, q3, q1, k);
    NegatedFactor(k, Line(a, b, q1), Line(a, b, q3));
    LineShift(a, b, q1, -step, Lower(q1, q3, k));
    LineShift(a, b, q3, step, Upper(q1, q3, k));
    assert a * -step == -(a * step);
  }

  lemma FallingOrder(a: real, b: real, x: real, y: real)
    requires a < 0.0
    ensures x <= y <==> Line(a, b, y) <= Line(a, b, x)
  {
    LineOrder(-a, -b, x, y);
    assert Line(-a, -b, x) == -Line(a, b, x) && Line(-a, -b, y) == -Line(a, b, y);
  }

  /** The series measured in other units. */
  function Rescaled(a: real, b: real, points: seq<Point>): (r: seq<Point>)
    ensures |r| == |points|
    ensures forall i :: 0 <= i < |points| ==> r[i] == Point(points[i].ds, Line(a, b, points[i].y))
  {
    seq(|points|, i requires 0 <= i < |points| => Point(points[i].ds, Line(a, b, points[i].y)))
  }

  /** MAIN: both detectors flag the same points in any units: under y -> a*y + b with a != 0 the
      flags stay and the expected values move along. */
  lemma {:induction false} UnitsDoNotMatter(m: Method, points: seq<Point>, w: nat, k: real, a: real, b: real, i: nat)
    requires w > 0 && i < |points| && a != 0.0
    ensures var r, s := ResultAt(m, points, w, k, i), ResultAt(m, Rescaled(a, b, points), w, k, i);
            && s.isAnomaly == r.isAnomaly
            && s.expected == (match r.expected case None => None case Some(e) => Some(Line(a, b, e)))
  {
    hide ZJudge, IqrJudge, Line;
    if i >= w {
      var window := Values(points)[i - w..i];
      assert Values(Rescaled(a, b, points))[i - w..i] == Affine(a, b, window);
      match m
      case ZScore =>
        ZJudgeAffine(window, points[i].y, k, a, b);
        ZExpected(window, points[i].y, k);
      case Iqr =>
        IqrJudgeAffine(window, points[i].y, k, a, b);
        IqrExpected(window, points[i].y, k);
    }
  }

  lemma ZExpected(window: seq<real>, v: real, k: real)
    requires window != []
    ensures ZJudge(window, v, k).expected == Mean(window)
  {
  }

  lemma IqrExpected(window: seq<real>, v: real, k: real)
    requires window != []
    ensures IqrJudge(window, v, k).expected == Quantile(window, 2)
  {
  }

  // ---------------------------------------------------------------- fences

  /** MAIN: the fences enclose the expected value, for every window and every non-negative
      multiplier, so a point at the median is never flagged. */
  lemma {:induction false} FencesEncloseMedian(window: seq<real>, multiplier: real)
    requires window != [] && multiplier >= 0.0
    ensures LowerFence(window, multiplier) <= Quantile(window, 1) <= Quantile(window, 2)
            <= Quantile(window, 3) <= UpperFence(window, multiplier)
    ensures !IqrJudge(window, Quantile(window, 2), multiplier).isAnomaly
  {
    hide Quantile;
    QuantilesOrdered(window, 1, 2);
    QuantilesOrdered(window, 2, 3);
    NonNegativeProduct(multiplier, Quantile(window, 3) - Quantile(window, 1));
  }

  /** MAIN: the order of the points inside the window does not matter to the IQR detector. */
  lemma {:induction false} IqrIgnoresOrder(window: seq<real>, other: seq<real>, v: real, multiplier: real)
    requires window != [] && multiset(window) == multiset(other)
    ensures other != [] && IqrJudge(other, v, multiplier) == IqrJudge(window, v, multiplier)
  {
    hide Sort, AtRank, RankOf, Lower, Upper;
    assert |window| == |multiset(window)| == |multiset(other)| == |other|;
    SortIgnoresOrder(window, other);
  }

  /** MAIN: outliers inside the window cannot hide one: if at most floor((w-1)/4) points of the
      window were replaced and all others lie in [low, high], every point farther than the
      multiplier times (high - low) from that interval is still flagged. */
  lemma {:induction false} OutliersCannotMask(clean: seq<real>, window: seq<real>, low: real, high: real,
                                              v: real, multiplier: real)
    requires |clean| == |window| > 0 && Changed(clean, window) <= (|window| - 1) / 4 && multiplier >= 0.0
    requires forall i :: 0 <= i < |window| && clean[i] == window[i] ==> low <= window[i] <= high
    requires v < low - multiplier * (high - low) || v > high + multiplier * (high - low)
    ensures IqrJudge(window, v, multiplier).isAnomaly
  {
    hide Quantile, Changed;
    var q1, q3 := Quantile(window, 1), Quantile(window, 3);
    QuartilesResist(clean, window, low, high, 1);
    QuartilesResist(clean, window, low, high, 3);
    NonNegativeProduct(multiplier, (high - low) - (q3 - q1));
    assert multiplier * ((high - low) - (q3 - q1)) == multiplier * (high - low) - multiplier * (q3 - q1);
  }
}
