/** The statistics panel: the overall normalised signal score and the per-metric average, minimum and maximum. */
module MetricControls {
  import opened Types
  import RfMetrics
  import Aggregates

  datatype OverallStats = OverallStats(normalizedAvg: real, quality: Quality)

  datatype MetricStats = MetricStats(average: real, min: real, max: real, quality: Quality)

  /** `rfPoints.map(p => p.metrics[metric])` */
  function Values(ps: seq<RFPoint>, m: MetricType): (vs: seq<real>)
    ensures |vs| == |ps|
    ensures forall i :: 0 <= i < |ps| ==> vs[i] == ps[i].metrics.Get(m)
  {
    seq(|ps|, i requires 0 <= i < |ps| => ps[i].metrics.Get(m))
  }

  /** The average of one metric over all points, normalised against the application range and clamped to [0, 1]. */
  function MetricNorm(ps: seq<RFPoint>, m: MetricType): (n: real)
    requires |ps| > 0
    ensures 0.0 <= n <= 1.0
  {
    RfMetrics.ClampedNormalized(Aggregates.Sum(Values(ps, m)) / |ps| as real, RfMetrics.AppBounds(m))
  }

  /** The sum of the clamped norms of the metrics `ms`. */
  function SumNorms(ps: seq<RFPoint>, ms: seq<MetricType>): (s: real)
    requires |ps| > 0
    ensures 0.0 <= s <= |ms| as real
  {
    if |ms| == 0 then 0.0 else SumNorms(ps, ms[..|ms| - 1]) + MetricNorm(ps, ms[|ms| - 1])
  }

  /** The overall score: the mean of the five clamped norms. */
  function NormalizedAverage(ps: seq<RFPoint>): (n: real)
    requires |ps| > 0
    ensures 0.0 <= n <= 1.0
  {
    SumNorms(ps, AllMetrics) / |AllMetrics| as real
  }

  /** The `overallStats` memo. */
  method ComputeOverallStats(rfPoints: seq<RFPoint>) returns (stats: OverallStats)
    ensures |rfPoints| == 0 ==> stats == OverallStats(0.0, Poor)
    ensures |rfPoints| > 0 ==> stats.normalizedAvg == NormalizedAverage(rfPoints)
    ensures 0.0 <= stats.normalizedAvg <= 1.0
    ensures stats.quality == RfMetrics.Bucket(stats.normalizedAvg)
  {
    if |rfPoints| == 0 {
      return OverallStats(0.0, Poor);
    }
    var sumNorm := 0.0;
    for i := 0 to |AllMetrics|
      invariant sumNorm == SumNorms(rfPoints, AllMetrics[..i])
    {
      var metric := AllMetrics[i];
      var values := Values(rfPoints, metric);
      var range := RfMetrics.AppBounds(metric);
      var avg := Aggregates.Sum(values) / |values| as real;
      var norm := RfMetrics.ClampedNormalized(avg, range);
      assert AllMetrics[..i + 1][..i] == AllMetrics[..i];
      sumNorm := sumNorm + norm;
    }
    assert AllMetrics[..|AllMetrics|] == AllMetrics;
    var normalizedAvg := sumNorm / |AllMetrics| as real;
    var quality := Poor;
    if normalizedAvg >= 0.75 {
      quality := Excellent;
    } else if normalizedAvg >= 0.5 {
      quality := Good;
    } else if normalizedAvg >= 0.25 {
      quality := Fair;
    }
    stats := OverallStats(normalizedAvg, quality);
  }

  /** Each metric's norm is 1 once every point reaches the top of that metric's range, and 0 once every point is at or below its bottom. */
  lemma MetricNormExtremes(ps: seq<RFPoint>, m: MetricType)
    requires |ps| > 0
    ensures (forall i :: 0 <= i < |ps| ==> RfMetrics.AppBounds(m).max as real <= ps[i].metrics.Get(m)) ==> MetricNorm(ps, m) == 1.0
    ensures (forall i :: 0 <= i < |ps| ==> ps[i].metrics.Get(m) <= RfMetrics.AppBounds(m).min as real) ==> MetricNorm(ps, m) == 0.0
  {
    var vs := Values(ps, m);
    Aggregates.MeanBetween(vs, Aggregates.Min(vs), Aggregates.Max(vs));
  }

  /** The sum of norms is |ms| when every norm is 1 and 0 when every norm is 0. */
  lemma {:induction false} SumNormsExtremes(ps: seq<RFPoint>, ms: seq<MetricType>, v: real)
    requires |ps| > 0
    requires v == 0.0 || v == 1.0
    requires forall i :: 0 <= i < |ms| ==> MetricNorm(ps, ms[i]) == v
    ensures SumNorms(ps, ms) == |ms| as real * v
  {
    if |ms| > 0 {
      var init := ms[..|ms| - 1];
      assert forall i :: 0 <= i < |init| ==> init[i] == ms[i];
      SumNormsExtremes(ps, init, v);
    }
  }

  /** Points at or above the top of every metric's range score 1, which is `excellent`. */
  lemma OverallBest(ps: seq<RFPoint>)
    requires |ps| > 0
    requires forall i, m :: 0 <= i < |ps| ==> RfMetrics.AppBounds(m).max as real <= ps[i].metrics.Get(m)
    ensures NormalizedAverage(ps) == 1.0 && RfMetrics.Bucket(NormalizedAverage(ps)) == Excellent
  {
    forall k | 0 <= k < |AllMetrics|
      ensures MetricNorm(ps, AllMetrics[k]) == 1.0
    {
      MetricNormExtremes(ps, AllMetrics[k]);
    }
    SumNormsExtremes(ps, AllMetrics, 1.0);
  }

  /** Points at or below the bottom of every metric's range score 0, which is `poor`. */
  lemma OverallWorst(ps: seq<RFPoint>)
    requires |ps| > 0
    requires forall i, m :: 0 <= i < |ps| ==> ps[i].metrics.Get(m) <= RfMetrics.AppBounds(m).min as real
    ensures NormalizedAverage(ps) == 0.0 && RfMetrics.Bucket(NormalizedAverage(ps)) == Poor
  {
    forall k | 0 <= k < |AllMetrics|
      ensures MetricNorm(ps, AllMetrics[k]) == 0.0
    {
      MetricNormExtremes(ps, AllMetrics[k]);
    }
    SumNormsExtremes(ps, AllMetrics, 0.0);
  }

  /** The `stats` memo: all zeros and `poor` with no selected metric or no points. */
  function Stats(ps: seq<RFPoint>, selected: Option<MetricType>): (s: MetricStats)
    ensures selected == None || |ps| == 0 ==> s == MetricStats(0.0, 0.0, 0.0, Poor)
    ensures selected != None && |ps| > 0 ==> s.min <= s.average <= s.max
    ensures selected != None && |ps| > 0 ==> s.quality == RfMetrics.QualityLevel(s.average, selected.value)
  {
    if selected == None || |ps| == 0 then MetricStats(0.0, 0.0, 0.0, Poor)
    else
      var values := Values(ps, selected.value);
      var sum := Aggregates.Sum(values);
      var average := sum / |values| as real;
      var min := Aggregates.Min(values);
      var max := Aggregates.Max(values);
      Aggregates.MeanBetween(values, min, max);
      MetricStats(average, min, max, RfMetrics.QualityLevel(average, selected.value))
  }

  /** The minimum and maximum are attained by some point and bound every point. */
  lemma StatsExtremes(ps: seq<RFPoint>, m: MetricType)
    requires |ps| > 0
    ensures exists i :: 0 <= i < |ps| && Stats(ps, Some(m)).min == ps[i].metrics.Get(m)
    ensures exists i :: 0 <= i < |ps| && Stats(ps, Some(m)).max == ps[i].metrics.Get(m)
    ensures forall i :: 0 <= i < |ps| ==> Stats(ps, Some(m)).min <= ps[i].metrics.Get(m) <= Stats(ps, Some(m)).max
  {
    var vs := Values(ps, m);
    var lo := Aggregates.Min(vs);
    var hi := Aggregates.Max(vs);
    var a :| 0 <= a < |vs| && vs[a] == lo;
    var b :| 0 <= b < |vs| && vs[b] == hi;
  }
}
