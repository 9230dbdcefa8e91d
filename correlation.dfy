// The pseudo-autocorrelation scan of one sample window: a correlation
// value per lag (one minus the mean absolute difference between the window
// and itself shifted by the lag), a search for a rising peak above the
// confidence threshold, and a sub-sample refinement of the peak's lag.
module Correlation {
  import opened Numeric

  /** A correlation must exceed this to count as good. */
  const GoodCorrelation := 0.9
  /** Without early exit, a best correlation at or below this means no pitch. */
  const CorrelationFloor := 0.01

  /** MAX_SAMPLES: lags, and summed samples per lag, are both below |buf| / 2. */
  function MaxLag(buf: seq<real>): (r: nat)
    ensures 2 * r <= |buf| < 2 * r + 2
  {
    |buf| / 2
  }

  /** The sum over i < n of |buf[i] - buf[i + offset]|. */
  function AbsDiffSum(buf: seq<real>, offset: nat, n: nat): (r: real)
    requires n + offset <= |buf|
    ensures r >= 0.0
  {
    if n == 0 then 0.0
    else AbsDiffSum(buf, offset, n - 1) + Abs(buf[n - 1] - buf[n - 1 + offset])
  }

  /** The correlation stored for lag `offset`: never above 1. */
  function Correlation(buf: seq<real>, offset: nat): (c: real)
    requires offset < MaxLag(buf)
    ensures c <= 1.0
  {
    1.0 - AbsDiffSum(buf, offset, MaxLag(buf)) / (MaxLag(buf) as real)
  }

  /** lastCorrelation when lag `offset` is examined: 1 before the first lag. */
  function Previous(buf: seq<real>, offset: nat): (r: real)
    requires offset <= MaxLag(buf)
    ensures r <= 1.0
  {
    if offset == 0 then 1.0 else Correlation(buf, offset - 1)
  }

  /** A good correlation: above the threshold and rising. */
  predicate Qualifies(buf: seq<real>, offset: nat)
    requires offset < MaxLag(buf)
  {
    Correlation(buf, offset) > GoodCorrelation && Correlation(buf, offset) > Previous(buf, offset)
  }

  lemma {:induction false} NoDifferenceAtLagZero(buf: seq<real>, n: nat)
    requires n <= |buf|
    ensures AbsDiffSum(buf, 0, n) == 0.0
  {
    if n > 0 {
      NoDifferenceAtLagZero(buf, n - 1);
    }
  }

  /** The window matches itself exactly at lag 0. */
  lemma CorrelationAtLagZero(buf: seq<real>)
    requires MaxLag(buf) > 0
    ensures Correlation(buf, 0) == 1.0
  {
    NoDifferenceAtLagZero(buf, MaxLag(buf));
  }

  /** Lag 0 is never a good correlation, since lastCorrelation starts at 1. */
  lemma LagZeroNeverQualifies(buf: seq<real>)
    requires MaxLag(buf) > 0
    ensures !Qualifies(buf, 0)
  {
    CorrelationAtLagZero(buf);
  }

  /** The first lag at or after `from` that qualifies, or MaxLag if none does. */
  function FirstQualifying(buf: seq<real>, from: nat): (r: nat)
    requires from <= MaxLag(buf)
    ensures from <= r <= MaxLag(buf)
    ensures forall k :: from <= k < r ==> !Qualifies(buf, k)
    ensures r < MaxLag(buf) ==> Qualifies(buf, r)
    decreases MaxLag(buf) - from
  {
    if from == MaxLag(buf) || Qualifies(buf, from) then from
    else FirstQualifying(buf, from + 1)
  }

  /** The first lag at or after `from` that does not qualify, or MaxLag if all do. */
  function StreakEnd(buf: seq<real>, from: nat): (r: nat)
    requires from <= MaxLag(buf)
    ensures from <= r <= MaxLag(buf)
    ensures forall k :: from <= k < r ==> Qualifies(buf, k)
    ensures r < MaxLag(buf) ==> !Qualifies(buf, r)
    decreases MaxLag(buf) - from
  {
    if from == MaxLag(buf) || !Qualifies(buf, from) then from
    else StreakEnd(buf, from + 1)
  }

  /**
   * The outcome of a scan: a peak whose streak ended inside the window, with
   * its interpolated lag; a peak at the last lag, not interpolated; or none.
   */
  datatype ScanOutcome = Refined(best: nat, lag: real) | Unrefined(best: nat) | NoPeak

  /** best + 8 * shift, shift = (c[best + 1] - c[best - 1]) / c[best]. */
  function RefinedLag(buf: seq<real>, best: nat): real
    requires 1 <= best && best + 1 < MaxLag(buf) && Qualifies(buf, best)
  {
    var shift := (Correlation(buf, best + 1) - Correlation(buf, best - 1)) / Correlation(buf, best);
    best as real + 8.0 * shift
  }

  /**
   * Reference definition of the scan, stated over lag ranges rather than as a
   * state machine: the first good lag starts a streak of good lags; a streak
   * that ends inside the window gives a refined peak at its last lag, one
   * that runs to the end gives its last lag unrefined.
   */
  function Analyze(buf: seq<real>): ScanOutcome {
    var first := FirstQualifying(buf, 0);
    if first == MaxLag(buf) then NoPeak
    else
      LagZeroNeverQualifies(buf);
      var end := StreakEnd(buf, first);
      if end == MaxLag(buf) then Unrefined(end - 1)
      else Refined(end - 1, RefinedLag(buf, end - 1))
  }

  /** No peak exactly when no lag qualifies. */
  lemma AnalyzeNoPeak(buf: seq<real>)
    ensures Analyze(buf).NoPeak? <==> forall o :: 0 <= o < MaxLag(buf) ==> !Qualifies(buf, o)
  {
    var first := FirstQualifying(buf, 0);
    if first < MaxLag(buf) {
      assert Qualifies(buf, first);
    }
  }

  /** Along a streak of good lags the correlation rises. */
  lemma {:induction false} StreakRises(buf: seq<real>, from: nat, o: nat)
    requires from <= MaxLag(buf) && from <= o < StreakEnd(buf, from)
    ensures forall k :: from <= k <= o ==> Correlation(buf, k) <= Correlation(buf, o)
    decreases o - from
  {
    if o > from {
      StreakRises(buf, from, o - 1);
      assert Qualifies(buf, o);
    }
  }

  /**
   * A peak sits at a good lag other than 0 and carries the largest good
   * correlation scanned up to it. A refined peak is followed by the lag that
   * ended its streak, so both neighbours read by the refinement were stored;
   * an unrefined peak is the last lag.
   */
  lemma AnalyzePeak(buf: seq<real>)
    requires !Analyze(buf).NoPeak?
    ensures 1 <= Analyze(buf).best < MaxLag(buf) && Qualifies(buf, Analyze(buf).best)
    ensures forall o :: 0 <= o <= Analyze(buf).best && Qualifies(buf, o) ==>
              Correlation(buf, o) <= Correlation(buf, Analyze(buf).best)
    ensures Analyze(buf).Refined? ==>
              Analyze(buf).best + 1 < MaxLag(buf) && !Qualifies(buf, Analyze(buf).best + 1)
    ensures Analyze(buf).Unrefined? ==> Analyze(buf).best + 1 == MaxLag(buf)
  {
    var first := FirstQualifying(buf, 0);
    LagZeroNeverQualifies(buf);
    var end := StreakEnd(buf, first);
    StreakRises(buf, first, end - 1);
  }

  /** A good lag at or before the end of the current streak extends it. */
  lemma StreakGrows(buf: seq<real>, offset: nat)
    requires offset < MaxLag(buf) && Qualifies(buf, offset)
    requires FirstQualifying(buf, 0) < offset ==> StreakEnd(buf, FirstQualifying(buf, 0)) >= offset
    ensures FirstQualifying(buf, 0) <= offset
    ensures StreakEnd(buf, FirstQualifying(buf, 0)) > offset
  {
  }

  /**
   * A lag that is not good, reached while the streak is still running, ends
   * it: the scan's outcome is the refined lag of the lag before.
   */
  lemma StreakEndsAt(buf: seq<real>, offset: nat)
    requires offset < MaxLag(buf) && !Qualifies(buf, offset)
    requires FirstQualifying(buf, 0) < offset <= StreakEnd(buf, FirstQualifying(buf, 0))
    ensures 2 <= offset && Qualifies(buf, offset - 1)
    ensures Analyze(buf) == Refined(offset - 1, RefinedLag(buf, offset - 1))
  {
    LagZeroNeverQualifies(buf);
  }

  /**
   * A scan that reaches the last lag without a streak ending: the outcome is
   * the last lag if the streak started, and no peak otherwise.
   */
  lemma ScanCompletes(buf: seq<real>)
    requires FirstQualifying(buf, 0) < MaxLag(buf) ==> StreakEnd(buf, FirstQualifying(buf, 0)) == MaxLag(buf)
    ensures FirstQualifying(buf, 0) < MaxLag(buf) ==> Analyze(buf) == Unrefined(MaxLag(buf) - 1)
    ensures FirstQualifying(buf, 0) == MaxLag(buf) ==> Analyze(buf) == NoPeak
  {
  }

  /**
   * The inner loop of the scan: one minus the mean absolute difference
   * between the first MaxLag samples and the samples `offset` later. Every
   * sample it reads is inside the window.
   */
  method CorrelationAt(buf: seq<real>, offset: nat) returns (correlation: real)
    requires offset < MaxLag(buf)
    ensures correlation == Correlation(buf, offset)
  {
    var maxLag := MaxLag(buf);
    var sum := 0.0;
    for i := 0 to maxLag
      invariant sum == AbsDiffSum(buf, offset, i)
    {
      sum := sum + Abs(buf[i] - buf[i + offset]);
    }
    correlation := 1.0 - sum / (maxLag as real);
  }

  /**
   * The scan loop of the detection cycle: for each lag, sum the absolute
   * differences, store the correlation, track the best good correlation,
   * and stop with a refined lag as soon as a good streak ends.
   */
  method Scan(buf: seq<real>) returns (s: ScanOutcome)
    ensures s == Analyze(buf)
  {
    var maxLag := MaxLag(buf);
    var bestOffset := -1;
    var bestCorrelation := 0.0;
    var foundGoodCorrelation := false;
    var correlations := new real[maxLag];
    if maxLag > 0 {
      LagZeroNeverQualifies(buf);
    }
    ghost var first := FirstQualifying(buf, 0);
    ghost var end := if first < maxLag then StreakEnd(buf, first) else maxLag;

    var lastCorrelation := 1.0;
    for offset := 0 to maxLag
      invariant forall k :: 0 <= k < offset ==> correlations[k] == Correlation(buf, k)
      invariant lastCorrelation == Previous(buf, offset)
      invariant foundGoodCorrelation <==> first < offset
      invariant foundGoodCorrelation ==>
                  end >= offset && bestOffset == offset - 1 &&
                  bestCorrelation == Correlation(buf, offset - 1) && bestCorrelation > GoodCorrelation
      invariant !foundGoodCorrelation ==> bestOffset == -1 && bestCorrelation == 0.0
    {
      var correlation := CorrelationAt(buf, offset);
      correlations[offset] := correlation;
      assert (correlation > GoodCorrelation && correlation > lastCorrelation) == Qualifies(buf, offset);
      if correlation > GoodCorrelation && correlation > lastCorrelation {
        StreakGrows(buf, offset);
        foundGoodCorrelation := true;
        if correlation > bestCorrelation {
          bestCorrelation := correlation;
          bestOffset := offset;
        }
      } else if foundGoodCorrelation {
        StreakEndsAt(buf, offset);
        assert correlations[bestOffset] == bestCorrelation > GoodCorrelation;
        assert correlations[bestOffset - 1] == Correlation(buf, bestOffset - 1);
        var shift := (correlations[bestOffset + 1] - correlations[bestOffset - 1]) / correlations[bestOffset];
        return Refined(bestOffset, bestOffset as real + 8.0 * shift);
      }
      lastCorrelation := correlation;
    }
    ScanCompletes(buf);
    if bestCorrelation > CorrelationFloor {
      return Unrefined(bestOffset);
    }
    return NoPeak;
  }
}
