/** The application's metric model: the range table, the red-to-green colour scale and the quality buckets. */
module RfMetrics {
  import opened Types
  import Js

  datatype MetricRange = MetricRange(min: int, max: int, unit: string, name: string, description: string)

  /** `METRIC_RANGES` of the application. Every entry has min < max, so both normalisations below are defined. */
  function MetricRanges(m: MetricType): (r: MetricRange)
    ensures r.min < r.max
  {
    match m
    case Rssi => MetricRange(-85, -50, "dBm", "RSSI", "Received Signal Strength Indicator")
    case Cqi => MetricRange(0, 15, "", "CQI", "Channel Quality Indicator")
    case Rsrp => MetricRange(-110, -80, "dBm", "RSRP", "Reference Signal Received Power")
    case Rsrq => MetricRange(-15, -5, "dB", "RSRQ", "Reference Signal Received Quality")
    case Snr => MetricRange(0, 20, "dB", "SNR", "Signal-to-Noise Ratio")
  }

  /** The [min, max] part of the application table, as the generators consume it. */
  function AppBounds(m: MetricType): (b: Bounds)
    ensures b.min < b.max
  {
    Bounds(MetricRanges(m).min, MetricRanges(m).max)
  }

  /** `(value - min) / (max - min)`, without clamping. */
  function Normalized(value: real, b: Bounds): real
    requires b.min < b.max
  {
    (value - b.min as real) / (b.max - b.min) as real
  }

  /** The normalised value clamped to [0, 1]; the same expression appears in the colour scale, the blob sizes and the overall statistics. */
  function ClampedNormalized(value: real, b: Bounds): (n: real)
    requires b.min < b.max
    ensures 0.0 <= n <= 1.0
    ensures value <= b.min as real ==> n == 0.0
    ensures b.max as real <= value ==> n == 1.0
  {
    Js.Clamp(0.0, 1.0, Normalized(value, b))
  }

  /** Inside the range the clamp does nothing: the value is min plus that fraction of the span. */
  lemma ClampedNormalizedInside(value: real, b: Bounds)
    requires b.min < b.max
    requires b.min as real <= value <= b.max as real
    ensures ClampedNormalized(value, b) * (b.max - b.min) as real == value - b.min as real
  {
    var d := (b.max - b.min) as real;
    assert (value - b.min as real) / d <= d / d;
  }

  lemma ClampedNormalizedMonotone(v1: real, v2: real, b: Bounds)
    requires b.min < b.max && v1 <= v2
    ensures ClampedNormalized(v1, b) <= ClampedNormalized(v2, b)
  {
    var d := (b.max - b.min) as real;
    assert (v1 - b.min as real) / d <= (v2 - b.min as real) / d;
    Js.ClampMonotone(0.0, 1.0, Normalized(v1, b), Normalized(v2, b));
  }

  /** Tailwind red-400 (#f87171), the colour of the poorest signal. */
  const Red400: Rgb := Rgb(248.0 / 255.0, 113.0 / 255.0, 113.0 / 255.0)
  /** Tailwind green-400 (#4ade80), the colour of the best signal. */
  const Green400: Rgb := Rgb(74.0 / 255.0, 222.0 / 255.0, 128.0 / 255.0)

  function Lerp(a: real, b: real, t: real): real
  {
    a + (b - a) * t
  }

  predicate Between(x: real, a: real, b: real)
  {
    (a <= x <= b) || (b <= x <= a)
  }

  /** `getColorFromMetric`: a straight RGB interpolation from red-400 to green-400 by the clamped normalised value. */
  function ColorFromMetric(value: real, m: MetricType): (c: Rgb)
    ensures value <= AppBounds(m).min as real ==> c == Red400
    ensures AppBounds(m).max as real <= value ==> c == Green400
    ensures Between(c.r, Red400.r, Green400.r)
    ensures Between(c.g, Red400.g, Green400.g)
    ensures Between(c.b, Red400.b, Green400.b)
  {
    var t := ClampedNormalized(value, AppBounds(m));
    Rgb(Lerp(Red400.r, Green400.r, t), Lerp(Red400.g, Green400.g, t), Lerp(Red400.b, Green400.b, t))
  }

  /** A better value is never redder: red falls, green and blue rise with the value. */
  lemma ColorMonotone(v1: real, v2: real, m: MetricType)
    requires v1 <= v2
    ensures ColorFromMetric(v2, m).r <= ColorFromMetric(v1, m).r
    ensures ColorFromMetric(v1, m).g <= ColorFromMetric(v2, m).g
    ensures ColorFromMetric(v1, m).b <= ColorFromMetric(v2, m).b
  {
    ClampedNormalizedMonotone(v1, v2, AppBounds(m));
  }

  /** The threshold chain shared by `getQualityLevel` and the overall statistics; each boundary lands in the higher bucket. */
  function Bucket(n: real): (q: Quality)
    ensures q == Excellent <==> 0.75 <= n
    ensures q == Good <==> 0.5 <= n < 0.75
    ensures q == Fair <==> 0.25 <= n < 0.5
    ensures q == Poor <==> n < 0.25
  {
    if n >= 0.75 then Excellent
    else if n >= 0.5 then Good
    else if n >= 0.25 then Fair
    else Poor
  }

  lemma BucketMonotone(n1: real, n2: real)
    requires n1 <= n2
    ensures Bucket(n1).Rank() <= Bucket(n2).Rank()
  {
  }

  /** `getQualityLevel`: buckets the UNCLAMPED normalised value. */
  function QualityLevel(value: real, m: MetricType): (q: Quality)
    ensures AppBounds(m).max as real <= value ==> q == Excellent
    ensures value < AppBounds(m).min as real ==> q == Poor
  {
    Bucket(Normalized(value, AppBounds(m)))
  }

  lemma {:induction false} QualityLevelMonotone(v1: real, v2: real, m: MetricType)
    requires v1 <= v2
    ensures QualityLevel(v1, m).Rank() <= QualityLevel(v2, m).Rank()
  {
    var b := AppBounds(m);
    var d := (b.max - b.min) as real;
    assert (v1 - b.min as real) / d <= (v2 - b.min as real) / d;
    BucketMonotone(Normalized(v1, b), Normalized(v2, b));
  }

  /** Clamping before bucketing would change nothing: out-of-range values already fall in the end buckets. */
  lemma {:induction false} QualityLevelIgnoresClamp(value: real, m: MetricType)
    ensures QualityLevel(value, m) == Bucket(ClampedNormalized(value, AppBounds(m)))
  {
    var b := AppBounds(m);
    var n := Normalized(value, b);
    if n < 0.0 {
      assert Js.Clamp(0.0, 1.0, n) == 0.0;
    } else if n > 1.0 {
      assert Js.Clamp(0.0, 1.0, n) == 1.0;
    }
  }
}
