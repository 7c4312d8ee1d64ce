/**
 * The baseline statistics of the ingestion pipeline: the trailing window of
 * historical precipitation, its long-term average (lta), the rainfall anomaly
 * and the Standardized Precipitation Index (spi = anomaly / std).
 */
module Spi {

  /**
   * A numpy float64 result. Reals have no inf or nan, so the values numpy
   * produces for a mean of nothing or a division by zero are NonFinite.
   */
  datatype Float = Finite(value: real) | NonFinite

  /** How many of the newest historical samples form the baseline (`[-60:]`). */
  const BaselineSize: nat := 60

  /** `historical_rainfall[-60:]`: the newest min(60, n) samples, oldest first. */
  function TrailingWindow(history: seq<real>): (w: seq<real>)
    ensures |w| == if |history| < BaselineSize then |history| else BaselineSize
    ensures history == history[..|history| - |w|] + w
  {
    if |history| <= BaselineSize then history else history[|history| - BaselineSize..]
  }

  /** The window slides: after one more sample it is the old window plus that sample, less the oldest once full. */
  lemma TrailingWindowSlides(history: seq<real>, x: real)
    ensures TrailingWindow(history + [x]) == TrailingWindow(TrailingWindow(history) + [x])
  {
    var h := history + [x];
    var w := TrailingWindow(history);
    if |history| >= BaselineSize {
      assert h[|h| - BaselineSize..] == (w + [x])[1..];
    }
  }

  function Sum(s: seq<real>): real {
    if |s| == 0 then 0.0 else s[0] + Sum(s[1..])
  }

  /** `np.mean` of a non-empty sequence. */
  function Mean(s: seq<real>): real
    requires |s| > 0
  {
    Sum(s) / (|s| as real)
  }

  /** Every sample minus c. */
  function Deviations(s: seq<real>, c: real): (d: seq<real>)
    ensures |d| == |s|
    ensures forall i :: 0 <= i < |s| ==> d[i] == s[i] - c
  {
    seq(|s|, i requires 0 <= i < |s| => s[i] - c)
  }

  lemma {:induction false} SumOfDeviations(s: seq<real>, c: real)
    ensures Sum(Deviations(s, c)) == Sum(s) - (|s| as real) * c
  {
    if |s| > 0 {
      SumOfDeviations(s[1..], c);
      assert Deviations(s, c)[1..] == Deviations(s[1..], c);
    }
  }

  /** The deviations from the long-term average cancel out. */
  lemma DeviationsFromMeanCancel(s: seq<real>)
    requires |s| > 0
    ensures Sum(Deviations(s, Mean(s))) == 0.0
  {
    SumOfDeviations(s, Mean(s));
  }

  lemma {:induction false} SumOfConstant(s: seq<real>, c: real)
    requires forall i :: 0 <= i < |s| ==> s[i] == c
    ensures Sum(s) == (|s| as real) * c
  {
    if |s| > 0 {
      SumOfConstant(s[1..], c);
    }
  }

  /** A baseline of identical samples has that sample as its mean. */
  lemma MeanOfConstant(s: seq<real>, c: real)
    requires |s| > 0
    requires forall i :: 0 <= i < |s| ==> s[i] == c
    ensures Mean(s) == c
  {
    SumOfConstant(s, c);
  }

  lemma {:induction false} SumAtLeast(s: seq<real>, lo: real)
    requires forall i :: 0 <= i < |s| ==> lo <= s[i]
    ensures (|s| as real) * lo <= Sum(s)
  {
    if |s| > 0 {
      SumAtLeast(s[1..], lo);
    }
  }

  lemma {:induction false} SumAtMost(s: seq<real>, hi: real)
    requires forall i :: 0 <= i < |s| ==> s[i] <= hi
    ensures Sum(s) <= (|s| as real) * hi
  {
    if |s| > 0 {
      SumAtMost(s[1..], hi);
    }
  }

  /** The mean lies between any lower and upper bound of the samples. */
  lemma MeanBounds(s: seq<real>, lo: real, hi: real)
    requires |s| > 0
    requires forall i :: 0 <= i < |s| ==> lo <= s[i] <= hi
    ensures lo <= Mean(s) <= hi
  {
    SumAtLeast(s, lo);
    SumAtMost(s, hi);
    var n := |s| as real;
    assert Mean(s) * n == Sum(s);
  }

  /** The four baseline statistics of one ingestion, in the order the code returns them. */
  datatype SpiStats = SpiStats(lta: Float, std: Float, rainfallAnomaly: Float, spi: Float)

  /**
   * `calculate_spi_and_lta(current, window)`, with the value of `np.std(window)`
   * supplied as `std`. numpy does not raise on an empty window or a zero std:
   * it yields nan or inf, which are NonFinite here.
   */
  function CalculateSpiAndLta(current: real, window: seq<real>, std: real): (r: SpiStats)
    ensures |window| == 0 ==> r == SpiStats(NonFinite, NonFinite, NonFinite, NonFinite)
    ensures |window| > 0 ==> r.lta.Finite? && r.std == Finite(std) && r.rainfallAnomaly.Finite?
    ensures r.lta.Finite? ==> r.lta.value * (|window| as real) == Sum(window)
    ensures r.rainfallAnomaly.Finite? ==> r.rainfallAnomaly.value + r.lta.value == current
    ensures r.spi.Finite? <==> |window| > 0 && std != 0.0
    ensures r.spi.Finite? ==> r.spi.value * std == r.rainfallAnomaly.value
  {
    if |window| == 0 then
      SpiStats(NonFinite, NonFinite, NonFinite, NonFinite)
    else
      var lta := Mean(window);
      var anomaly := current - lta;
      SpiStats(Finite(lta), Finite(std), Finite(anomaly),
               if std == 0.0 then NonFinite else Finite(anomaly / std))
  }

  /** Rainfall exactly at the long-term average has a zero anomaly and a zero index. */
  lemma AverageRainfallHasZeroIndex(window: seq<real>, std: real)
    requires |window| > 0 && std != 0.0
    ensures CalculateSpiAndLta(Mean(window), window, std).spi == Finite(0.0)
  {
  }
}
