/** The failure detector and its sample window as objects. */
module PhiDetector {
  import opened Options
  import opened PhiStatistics

  datatype Normal = Normal(mean: real, stddev: real)

  /** Samples of at most `windowSize` intervals with their running sums; `history` are all samples since the
      latest reset. */
  class Window {
    const windowSize: nat
    var durations: seq<real>
    var sum: real
    var sumOfSquares: real
    ghost var history: seq<real>

    ghost predicate Valid()
      reads this
    {
      && durations == LastN(history, windowSize)
      && sum == Sum(durations) && sumOfSquares == SumOfSquares(durations)
    }

    /** Leaves the sums with whatever the memory held: only `Reset` sets them. */
    constructor (size: nat, sum0: real, sumOfSquares0: real)
      ensures windowSize == size && durations == [] && sum == sum0 && sumOfSquares == sumOfSquares0
    {
      windowSize, durations, sum, sumOfSquares, history := size, [], sum0, sumOfSquares0, [];
    }

    method Reset()
      modifies this
      ensures Valid() && history == [] && durations == []
    {
      durations, sum, sumOfSquares, history := [], 0.0, 0.0, [];
    }

    method Add(d: real)
      requires Valid()
      modifies this
      ensures Valid() && history == old(history) + [d]
      ensures |durations| == if |history| <= windowSize then |history| else windowSize
      ensures durations == history[|history| - |durations|..]
      ensures sum == Sum(durations) && sumOfSquares == SumOfSquares(durations)
    {
      hide Sum, SumOfSquares;
      SlideKeepsLast(history, windowSize, d);
      LastNIsSuffix(history + [d], windowSize);
      SumSnoc(durations, d);
      DropFirst(durations + [d]);
      history := history + [d];
      durations := durations + [d];
      sum := sum + d;
      sumOfSquares := sumOfSquares + d * d;
      if |durations| > windowSize {
        sum := sum - durations[0];
        sumOfSquares := sumOfSquares - durations[0] * durations[0];
        durations := durations[1..];
      }
    }

    /** Mean and standard deviation of the samples, for any square root function; the mean squared deviation
        it is taken of is never negative. Without samples both are 0/0, not a number. */
    method NormalDistribution(sqrt: real -> real) returns (r: Option<Normal>)
      requires Valid()
      ensures r.None? <==> durations == []
      ensures r.Some? ==> r.value.mean * |durations| as real == Sum(durations) && r.value.mean == Mean(durations)
      ensures r.Some? ==> Deviations(durations, r.value.mean) / |durations| as real >= 0.0
      ensures r.Some? ==> r.value.stddev == sqrt(Deviations(durations, r.value.mean) / |durations| as real)
    {
      hide Sum, SumOfSquares, Deviations;
      if |durations| == 0 {
        return None;
      }
      VarianceIsMeanSquaredDeviation(durations);
      MeanBalances(durations, Mean(durations));
      var mean := sum / |durations| as real;
      assert sumOfSquares / |durations| as real - mean * mean == Variance(durations);
      r := Some(Normal(mean, sqrt(sumOfSquares / |durations| as real - mean * mean)));
    }
  }

  /** `times` are the instant of the latest reset and of every heartbeat since. */
  class FailureDetector {
    const window: Window
    var latestHeartbeat: real
    ghost var times: seq<real>

    ghost predicate Valid()
      reads this, window
    {
      && window.Valid()
      && times != [] && times[|times| - 1] == latestHeartbeat
      && window.history == Intervals(times)
    }

    constructor (w: Window, t: real)
      ensures window == w && latestHeartbeat == t && times == [t]
    {
      window, latestHeartbeat, times := w, t, [t];
    }

    method Reset(t: real)
      modifies this, window
      ensures Valid() && times == [t] && window.durations == []
    {
      window.Reset();
      latestHeartbeat, times := t, [t];
    }

    /** The window keeps the last intervals between heartbeats, so its sum is the time it spans. */
    method Heartbeat(t: real)
      requires Valid()
      modifies this, window
      ensures Valid() && times == old(times) + [t]
      ensures |window.durations| == if |times| - 1 <= window.windowSize then |times| - 1 else window.windowSize
      ensures window.sum == t - times[|times| - 1 - |window.durations|]
    {
      IntervalsSnoc(times, t);
      hide Intervals, Sum, SumOfSquares, LastN;
      IntervalsTelescope(times + [t], window.windowSize);
      window.Add(t - latestHeartbeat);
      latestHeartbeat, times := t, times + [t];
    }

    /** Without samples the comparisons with a mean that is not a number fail and the answer is not a number. */
    method Suspicion(t: real, exp: real -> real, log10: real -> real, sqrt: real -> real) returns (r: Option<real>)
      requires Valid() && ExpLike(exp) && LogLike(log10)
      ensures r.None? <==> window.durations == []
      ensures r.Some? ==>
                var m := Mean(window.durations);
                r.value == Phi(exp, log10, m, sqrt(Deviations(window.durations, m) / |window.durations| as real),
                               t - latestHeartbeat)
      ensures r.Some? ==> r.value > 0.0
    {
      hide Mean, Deviations, Phi, ExpLike, LogLike, Sum, SumOfSquares;
      var elapsed := t - latestHeartbeat;
      var normal := window.NormalDistribution(sqrt);
      if normal.None? {
        return None;
      }
      var mean, sigma := normal.value.mean, normal.value.stddev;
      if sigma < 1.0 {
        sigma := 1.0;
      }
      var y := (elapsed - mean) / sigma;
      assert (elapsed - mean) / 1.0 == elapsed - mean;
      var e := exp(-y * (1.5976 + 0.070566 * y * y));
      PhiFormula(exp, log10, mean, normal.value.stddev, elapsed, y, e);
      PhiIsPositive(exp, log10, mean, normal.value.stddev, elapsed);
      if elapsed < mean {
        r := Some(-log10(1.0 - 1.0 / (1.0 + e)));
      } else {
        r := Some(-log10(e / (1.0 + e)));
      }
    }
  }
}
