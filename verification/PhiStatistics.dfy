/** The arithmetic of the phi accrual failure detector, over the reals. */
module PhiStatistics {

  // ---------- Sliding window ----------

  function Sum(ds: seq<real>): real {
    if ds == [] then 0.0 else Sum(ds[..|ds| - 1]) + ds[|ds| - 1]
  }

  function SumOfSquares(ds: seq<real>): real {
    if ds == [] then 0.0 else SumOfSquares(ds[..|ds| - 1]) + ds[|ds| - 1] * ds[|ds| - 1]
  }

  /** The last `n` samples, or all if there are fewer. */
  function LastN(ds: seq<real>, n: nat): seq<real> {
    if |ds| <= n then ds else ds[|ds| - n..]
  }

  lemma LastNIsSuffix(ds: seq<real>, n: nat)
    ensures |LastN(ds, n)| == if |ds| <= n then |ds| else n
    ensures LastN(ds, n) == ds[|ds| - |LastN(ds, n)|..]
  {
  }

  /** Dropping the oldest sample takes it out of both sums. */
  lemma {:induction false} DropFirst(ds: seq<real>)
    requires ds != []
    ensures Sum(ds[1..]) == Sum(ds) - ds[0]
    ensures SumOfSquares(ds[1..]) == SumOfSquares(ds) - ds[0] * ds[0]
    decreases |ds|
  {
    if |ds| == 1 {
      assert ds[1..] == [] && ds[..0] == [];
    } else {
      var pre := ds[..|ds| - 1];
      DropFirst(pre);
      assert ds[1..][..|ds| - 2] == pre[1..];
    }
  }

  /** Sliding one sample at a time keeps exactly the last samples: all of them up to `n`, then the last `n`. */
  lemma SlideKeepsLast(ds: seq<real>, n: nat, d: real)
    ensures LastN(LastN(ds, n) + [d], n) == LastN(ds + [d], n)
    ensures |ds| < n ==> LastN(ds + [d], n) == ds + [d]
    ensures |ds| >= n ==> LastN(ds + [d], n) == (ds + [d])[|ds| + 1 - n..]
  {
  }

  // ---------- Mean and variance ----------

  function Mean(ds: seq<real>): real
    requires ds != []
  {
    Sum(ds) / |ds| as real
  }

  /** Sum of the signed deviations from `m`. */
  function Offsets(ds: seq<real>, m: real): real {
    if ds == [] then 0.0 else Offsets(ds[..|ds| - 1], m) + (ds[|ds| - 1] - m)
  }

  lemma {:induction false} OffsetsAreSum(ds: seq<real>, m: real)
    ensures Offsets(ds, m) == Sum(ds) - |ds| as real * m
    decreases |ds|
  {
    if ds != [] {
      var k := |ds| - 1;
      OffsetsAreSum(ds[..k], m);
      OneMoreTimes(k, m);
    }
  }

  lemma OneMoreTimes(k: nat, m: real)
    ensures (k + 1) as real * m == k as real * m + m
  {
    assert (k + 1) as real == k as real + 1.0;
    assert (k as real + 1.0) * m == k as real * m + m;
  }

  /** The mean is the one number that the samples deviate from by 0 in total. */
  lemma MeanBalances(ds: seq<real>, m: real)
    requires ds != []
    ensures Mean(ds) * |ds| as real == Sum(ds)
    ensures m == Mean(ds) <==> Offsets(ds, m) == 0.0
  {
    hide Offsets, Sum;
    OffsetsAreSum(ds, m);
    var n := |ds| as real;
    QuotientTimes(Sum(ds), n);
    if n * m == Sum(ds) {
      SameQuotient(m, Sum(ds) / n, n);
    }
  }

  lemma QuotientTimes(x: real, n: real)
    requires n > 0.0
    ensures (x / n) * n == x && n * (x / n) == x
  {
  }

  lemma SameQuotient(a: real, b: real, n: real)
    requires n > 0.0 && n * a == n * b
    ensures a == b
  {
    assert n * (a - b) == 0.0;
  }

  /** The one-pass formula of the window. */
  function Variance(ds: seq<real>): real
    requires ds != []
  {
    SumOfSquares(ds) / |ds| as real - Mean(ds) * Mean(ds)
  }

  /** Sum of squared deviations from `m`. */
  function Deviations(ds: seq<real>, m: real): real {
    if ds == [] then 0.0
    else Deviations(ds[..|ds| - 1], m) + (ds[|ds| - 1] - m) * (ds[|ds| - 1] - m)
  }

  lemma {:induction false} DeviationsNonNegative(ds: seq<real>, m: real)
    ensures Deviations(ds, m) >= 0.0
    decreases |ds|
  {
    if ds != [] {
      DeviationsNonNegative(ds[..|ds| - 1], m);
      SquareNonNegative(ds[|ds| - 1] - m);
    }
  }

  lemma SquareNonNegative(x: real)
    ensures x * x >= 0.0
  {
  }

  /** The sum of squared deviations of `n` samples from `m`, told from their sum and sum of squares. */
  function Expanded(q: real, s: real, n: real, m: real): real {
    q - 2.0 * m * s + n * (m * m)
  }

  lemma ExpandOneMore(q: real, s: real, n: real, m: real, d: real)
    ensures Expanded(q, s, n, m) + (d - m) * (d - m) == Expanded(q + d * d, s + d, n + 1.0, m)
  {
    assert (d - m) * (d - m) == d * d - 2.0 * m * d + m * m;
    assert 2.0 * m * (s + d) == 2.0 * m * s + 2.0 * m * d;
    assert (n + 1.0) * (m * m) == n * (m * m) + m * m;
  }

  lemma ExpandNothing(m: real)
    ensures Expanded(0.0, 0.0, 0.0, m) == 0.0
  {
  }

  lemma {:induction false} DeviationsExpand(ds: seq<real>, m: real)
    ensures Deviations(ds, m) == Expanded(SumOfSquares(ds), Sum(ds), |ds| as real, m)
    decreases |ds|
  {
    hide Expanded;
    if ds == [] {
      ExpandNothing(m);
    } else {
      var k := |ds| - 1;
      assert |ds| as real == k as real + 1.0;
      DeviationsExpand(ds[..k], m);
      var q, t, d := SumOfSquares(ds[..k]), Sum(ds[..k]), ds[k];
      ExpandOneMore(q, t, k as real, m, d);
      assert SumOfSquares(ds) == q + d * d && Sum(ds) == t + d;
      assert Deviations(ds, m) == Deviations(ds[..k], m) + (d - m) * (d - m);
    }
  }

  /** The one-pass variance is the mean squared deviation, hence never negative. */
  lemma VarianceIsMeanSquaredDeviation(ds: seq<real>)
    requires ds != []
    ensures Variance(ds) == Deviations(ds, Mean(ds)) / |ds| as real
    ensures Variance(ds) >= 0.0
  {
    hide Expanded, Deviations, SumOfSquares, Sum;
    var n, m := |ds| as real, Mean(ds);
    DeviationsExpand(ds, m);
    DeviationsNonNegative(ds, m);
    MeanDeviation(SumOfSquares(ds), Sum(ds), n, m);
    NonNegativeQuotient(Deviations(ds, m), n);
  }

  lemma MeanDeviation(q: real, s: real, n: real, m: real)
    requires n > 0.0 && m == s / n
    ensures Expanded(q, s, n, m) / n == q / n - m * m
  {
    assert s == n * m;
    assert 2.0 * m * s == 2.0 * (n * (m * m)) by {
      assert m * s == m * (n * m) == n * (m * m);
    }
    DivideDifference(q, m * m, n);
  }

  lemma DivideDifference(q: real, w: real, n: real)
    requires n > 0.0
    ensures (q - n * w) / n == q / n - w
  {
    var z := q / n;
    assert q == n * z;
    assert q - n * w == n * (z - w);
  }

  lemma NonNegativeQuotient(d: real, n: real)
    requires d >= 0.0 && n > 0.0
    ensures d / n >= 0.0
  {
  }

  /** Two samples lie symmetrically around their mean. */
  lemma TwoSamples(a: real, b: real)
    ensures Mean([a, b]) == (a + b) / 2.0
    ensures Variance([a, b]) == ((a - b) / 2.0) * ((a - b) / 2.0)
  {
    SumOfNothing();
    SumSnoc([], a);
    SumSnoc([a], b);
    assert [] + [a] == [a] && [a] + [b] == [a, b];
    HalfSquares(a, b);
  }

  lemma HalfSquares(a: real, b: real)
    ensures (a * a + b * b) / 2.0 - (a + b) / 2.0 * ((a + b) / 2.0) == (a - b) / 2.0 * ((a - b) / 2.0)
  {
  }

  // ---------- Telescoping ----------

  /** The intervals between consecutive times. */
  function Intervals(ts: seq<real>): (ds: seq<real>)
    ensures |ts| > 0 ==> |ds| == |ts| - 1
  {
    if |ts| <= 1 then [] else Intervals(ts[..|ts| - 1]) + [ts[|ts| - 1] - ts[|ts| - 2]]
  }

  lemma {:induction false} IntervalsSnoc(ts: seq<real>, t: real)
    requires ts != []
    ensures Intervals(ts + [t]) == Intervals(ts) + [t - ts[|ts| - 1]]
  {
    assert (ts + [t])[..|ts|] == ts;
  }

  lemma SumOfNothing()
    ensures Sum([]) == 0.0 && SumOfSquares([]) == 0.0
  {
  }

  lemma {:induction false} SumOfIntervals(ts: seq<real>, from: nat)
    requires from < |ts|
    ensures Sum(Intervals(ts)[from..]) == ts[|ts| - 1] - ts[from]
    decreases |ts|
  {
    hide Sum;
    var k, tail := |ts| - 1, Intervals(ts)[from..];
    if from == k {
      assert tail == [];
      SumOfNothing();
    } else {
      SumOfIntervals(ts[..k], from);
      SumSnoc(Intervals(ts[..k])[from..], ts[k] - ts[k - 1]);
      assert tail == Intervals(ts[..k])[from..] + [ts[k] - ts[k - 1]];
    }
  }

  /** The intervals in the window add up to the time between its two ends. */
  lemma {:induction false} IntervalsTelescope(ts: seq<real>, n: nat)
    requires ts != []
    ensures var ds := LastN(Intervals(ts), n);
            && |ds| == (if |ts| - 1 <= n then |ts| - 1 else n)
            && Sum(ds) == ts[|ts| - 1] - ts[|ts| - 1 - |ds|]
  {
    hide Intervals, Sum;
    var ds := LastN(Intervals(ts), n);
    SumOfIntervals(ts, |ts| - 1 - |ds|);
    assert ds == Intervals(ts)[|ts| - 1 - |ds|..];
  }

  lemma SumSnoc(ds: seq<real>, d: real)
    ensures Sum(ds + [d]) == Sum(ds) + d
    ensures SumOfSquares(ds + [d]) == SumOfSquares(ds) + d * d
  {
    assert (ds + [d])[..|ds|] == ds;
  }

  // ---------- Phi ----------

  ghost predicate ExpLike(exp: real -> real) {
    && (forall x :: exp(x) > 0.0)
    && (forall x, y :: x < y ==> exp(x) < exp(y))
  }

  ghost predicate LogLike(log10: real -> real) {
    && log10(1.0) == 0.0
    && (forall x, y :: 0.0 < x < y ==> log10(x) < log10(y))
  }

  function Floored(sigma: real): (s: real)
    ensures s >= 1.0
  {
    if sigma < 1.0 then 1.0 else sigma
  }

  /** The exponent of the logistic approximation, negated. */
  function Logistic(y: real): real {
    y * (1.5976 + 0.070566 * y * y)
  }

  function StandardScore(mean: real, sigma: real, elapsed: real): real {
    (elapsed - mean) / Floored(sigma)
  }

  function PhiBelow(log10: real -> real, e: real): real
    requires e > 0.0
  {
    -log10(1.0 - 1.0 / (1.0 + e))
  }

  function PhiAbove(log10: real -> real, e: real): real
    requires e > 0.0
  {
    -log10(e / (1.0 + e))
  }

  /** Phi for a window of this mean and standard deviation, `elapsed` after the latest heartbeat. */
  function Phi(exp: real -> real, log10: real -> real, mean: real, sigma: real, elapsed: real): real
    requires forall x :: exp(x) > 0.0
  {
    var e := exp(-Logistic(StandardScore(mean, sigma, elapsed)));
    if elapsed < mean then PhiBelow(log10, e) else PhiAbove(log10, e)
  }

  /** Phi spelled out: the deviation counts from 1 up, and the branch is taken at the mean. */
  lemma {:induction false} PhiFormula(exp: real -> real, log10: real -> real, mean: real, sigma: real, elapsed: real,
                                      y: real, e: real)
    requires ExpLike(exp) && e == exp(-y * (1.5976 + 0.070566 * y * y))
    requires sigma < 1.0 ==> y == elapsed - mean
    requires sigma >= 1.0 ==> y == (elapsed - mean) / sigma
    ensures e > 0.0
    ensures Phi(exp, log10, mean, sigma, elapsed)
         == if elapsed < mean then -log10(1.0 - 1.0 / (1.0 + e)) else -log10(e / (1.0 + e))
  {
    ScoreCases(mean, sigma, elapsed);
    NegatedProduct(y, 1.5976 + 0.070566 * y * y);
  }

  lemma ScoreCases(mean: real, sigma: real, elapsed: real)
    ensures sigma < 1.0 ==> StandardScore(mean, sigma, elapsed) == elapsed - mean
    ensures sigma >= 1.0 ==> StandardScore(mean, sigma, elapsed) == (elapsed - mean) / sigma
  {
  }

  lemma NegatedProduct(y: real, z: real)
    ensures -y * z == -(y * z)
  {
  }

  /** The two branches compute the same value. */
  lemma BranchesAgree(log10: real -> real, e: real)
    requires e > 0.0
    ensures PhiBelow(log10, e) == PhiAbove(log10, e)
  {
    var q := 1.0 / (1.0 + e);
    assert q * (1.0 + e) == 1.0;
    assert 1.0 - q == e * q;
    assert e * q == e / (1.0 + e);
  }

  lemma {:induction false} PhiIsOneFormula(exp: real -> real, log10: real -> real, mean: real, sigma: real, elapsed: real)
    requires ExpLike(exp)
    ensures Phi(exp, log10, mean, sigma, elapsed)
         == PhiAbove(log10, exp(-Logistic(StandardScore(mean, sigma, elapsed))))
  {
    BranchesAgree(log10, exp(-Logistic(StandardScore(mean, sigma, elapsed))));
  }

  lemma FractionMonotone(a: real, b: real)
    requires 0.0 < a < b
    ensures 0.0 < a / (1.0 + a) < b / (1.0 + b) < 1.0
  {
    var p, q := a / (1.0 + a), b / (1.0 + b);
    assert p * (1.0 + a) == a && q * (1.0 + b) == b;
    FractionBetween(a, p);
    FractionBetween(b, q);
    FractionOrder(a, b, p, q);
  }

  lemma FractionOrder(a: real, b: real, p: real, q: real)
    requires 0.0 < a < b && 0.0 < p < 1.0 && 0.0 < q < 1.0 && p * (1.0 + a) == a && q * (1.0 + b) == b
    ensures p < q
  {
    assert (1.0 - p) * a == p && (1.0 - q) * b == q;
    if q <= p {
      ProductMonotone(1.0 - p, 1.0 - q, a, b);
    }
  }

  lemma ProductMonotone(u: real, v: real, a: real, b: real)
    requires 0.0 < u <= v && 0.0 < a < b
    ensures u * a < v * b
  {
    assert v * b - u * a == v * (b - a) + (v - u) * a;
    assert v * (b - a) > 0.0 && (v - u) * a >= 0.0;
  }

  lemma FractionBetween(a: real, p: real)
    requires a > 0.0 && p * (1.0 + a) == a
    ensures 0.0 < p < 1.0
  {
    assert p > 0.0 by {
      if p <= 0.0 { NonPositiveProduct(p, 1.0 + a); }
    }
    assert p * (1.0 + a) == p + p * a;
    if p >= 1.0 {
      ProductGrows(p, a);
    }
  }

  lemma NonPositiveProduct(p: real, c: real)
    requires p <= 0.0 && c > 0.0
    ensures p * c <= 0.0
  {
  }

  lemma ProductGrows(p: real, a: real)
    requires p >= 1.0 && a > 0.0
    ensures p * a >= a
  {
  }

  lemma LogisticMonotone(x: real, y: real)
    requires x < y
    ensures Logistic(x) < Logistic(y)
  {
    var b := 0.070566;
    assert Logistic(x) == 1.5976 * x + b * (x * x * x);
    assert Logistic(y) == 1.5976 * y + b * (y * y * y);
    CubeMonotone(x, y);
  }

  lemma CubeMonotone(x: real, y: real)
    requires x < y
    ensures x * x * x <= y * y * y
  {
    var d, w := y - x, y * y + x * y + x * x;
    assert y * y * y - x * x * x == d * w;
    var h := y + 0.5 * x;
    assert w == h * h + 0.75 * (x * x);
    SquareNonNegative(h);
    SquareNonNegative(x);
    NonNegativeProduct(d, w);
  }

  lemma NonNegativeProduct(a: real, b: real)
    requires a >= 0.0 && b >= 0.0
    ensures a * b >= 0.0
  {
  }

  lemma ScoreMonotone(mean: real, sigma: real, s: real, t: real)
    requires s < t
    ensures StandardScore(mean, sigma, s) < StandardScore(mean, sigma, t)
  {
    var f := Floored(sigma);
    var x, y := StandardScore(mean, sigma, s), StandardScore(mean, sigma, t);
    assert x * f == s - mean && y * f == t - mean;
    if y <= x {
      var d := x - y;
      NonNegativeProduct(d, f);
    }
  }

  /** Phi is always positive. */
  lemma PhiIsPositive(exp: real -> real, log10: real -> real, mean: real, sigma: real, elapsed: real)
    requires ExpLike(exp) && LogLike(log10)
    ensures Phi(exp, log10, mean, sigma, elapsed) > 0.0
  {
    PhiIsOneFormula(exp, log10, mean, sigma, elapsed);
    var e := exp(-Logistic(StandardScore(mean, sigma, elapsed)));
    FractionMonotone(e, e + 1.0);
  }

  /** Suspicion only grows while no heartbeat arrives, across the branch point and whatever the standard deviation. */
  lemma PhiIsIncreasing(exp: real -> real, log10: real -> real, mean: real, sigma: real, s: real, t: real)
    requires ExpLike(exp) && LogLike(log10) && s < t
    ensures Phi(exp, log10, mean, sigma, s) < Phi(exp, log10, mean, sigma, t)
  {
    PhiIsOneFormula(exp, log10, mean, sigma, s);
    PhiIsOneFormula(exp, log10, mean, sigma, t);
    ScoreMonotone(mean, sigma, s, t);
    LogisticMonotone(StandardScore(mean, sigma, s), StandardScore(mean, sigma, t));
    var e, f := exp(-Logistic(StandardScore(mean, sigma, s))), exp(-Logistic(StandardScore(mean, sigma, t)));
    FractionMonotone(f, e);
  }
}
