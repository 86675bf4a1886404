# Drone visualisation: procedural RF data, verified

The drone-visualisation application shows a small synthetic city. A few
target high-rise towers stand among low-rise buildings, and each tower
carries points that sample the radio signal along its walls. A statistics
panel and a layer of coloured "signal blobs" summarise those samples. The
same generator also runs as an HTTP function, which returns the city and its
samples as JSON and sets CORS headers.

This project is a Dafny model of that generation core, with proofs about it:

- `Types` holds the shared records. These are the metric kind (RSSI, CQI, RSRP, RSRQ, SNR), the metric record, the building, the RF point and the quality level.
- `Js` holds the JavaScript primitives the code relies on: `Math.round`, the clamp written as `Math.max(lo, Math.min(hi, x))`, and the decimal printing of a non-negative integer.
- `Aggregates` holds sum, minimum, maximum and mean over a sequence of reals.
- `Colors` models `rgbToHex`. It proves that a hex colour parses back to the channels it encodes.
- `RfMetrics` holds the metric range table, clamped normalisation, the red-to-green colour ramp and the quality thresholds.
- `Prng` models the seeded generator: an FNV-1a hash of the seed, a Weyl-sequence state and a mixing step. A `DeterministicRng` class holds the closure's state.
- `RfPoints` models the per-building sampler and the sampler for the whole city.
- `CityLayout` models the layout generator: three towers, then 12 to 15 low-rise candidates, each dropped when it falls too close to a tower.
- `MetricControls` models the overall-score memo and the per-metric statistics memo.
- `SignalBlobs` models the blob memo. Points are grouped by building in first-seen order and cut into runs of three. Each run is averaged into one blob, and the result is capped at 800.
- `Lambda` models the HTTP function: its own range table, the CORS allow-list parsed from the environment, the origin header choice and the three response shapes.

`Math.random()` is not a function of anything the model can see. Each
generator therefore takes the random numbers it consumes as an explicit
sequence `draws: seq<real>`, read in the order the code calls
`Math.random()`. A metric value takes two draws. A point takes ten, for its
five metrics in the order RSSI, CQI, RSRP, RSRQ, SNR. A tower takes three:
height, width and depth. The low-rise count takes one. A low-rise candidate
takes six: height, width, depth, grid spacing and the x and z jitter.
Lemmas that depend on the draws lying in [0, 1) say so with `UnitDraws`.

The HTTP function in `infra/lambda/src/index.ts` repeats the code of the
application's generators, with a range table that is wider for every metric except CQI. The model writes each
generator once, parameterised by a range table. The application binds
`RfMetrics.AppBounds`; the HTTP function binds `Lambda.Ranges`.

Facts about the layout code that the model keeps:

- Towers and low-rises are 4 to 6 m wide and deep.
- A rejected low-rise candidate is not re-rolled. It is dropped, so the layout may hold fewer than 3 + count buildings. Low-rises are not tested against each other, and positions are not clamped to any boundary.
- The only placement test is the 8 m guard against the three tower anchors. It compares squared distance against 64, which is the same test as `sqrt(...) < 8`.
- `getQualityLevel` thresholds the unclamped normalised value. `QualityLevelIgnoresClamp` proves that this never changes the bucket.
- Two source comments disagree with the code. "30-40 floors" is really 33 to 43 floors (`TowerDimensions`). The "-0.5 to 0.5" horizontal lane is really -0.5 to 0.4 (`RfPoints.HorizontalPosition`).

## Model

| member | source | states |
|---|---|---|
| Js.Round | src/lib/generators/rf-points.ts:110-113 | `Math.round`: the result is the integer within half a unit of x, with halves rounding up |
| Js.RoundMonotone | src/lib/generators/rf-points.ts:110-113 | rounding never reverses the order of two values |
| Js.Clamp | src/lib/constants/rf-metrics.ts:62-65 | the clamp lies in [lo, hi], is the identity inside it and gives the nearer end outside it |
| Js.ClampMonotone | src/lib/constants/rf-metrics.ts:62-65 | clamping preserves order |
| Js.DecimalString | src/lib/generators/rf-points.ts:71 | the printed number is a non-empty string of decimal digits with no leading zero |
| Js.DecimalRoundTrip | src/lib/generators/rf-points.ts:71 | reading the printed digits back gives the number |
| Js.DecimalStringInjective | src/lib/generators/rf-points.ts:71 | distinct numbers print differently, so the index suffixes of ids differ |
| Aggregates.Min | src/components/MetricControls.tsx:60 | `Math.min(...values)` is one of the values and is at most every value |
| Aggregates.Max | src/components/MetricControls.tsx:61 | `Math.max(...values)` is one of the values and is at least every value |
| Aggregates.TimesIsProduct | src/components/MetricControls.tsx:58 | adding v to itself n times gives n * v |
| Aggregates.SumWithin | src/components/MetricControls.tsx:58 | a sum of values within [lo, hi] lies between n * lo and n * hi |
| Aggregates.MeanWithin | src/components/MetricControls.tsx:59 | a sum within [n * lo, n * hi] divided by n lies within [lo, hi] |
| Aggregates.DivideBounds | src/components/SignalBlobs.tsx:78 | scaling such a sum by 1 / n also lands in [lo, hi] |
| Aggregates.MeanBetween | src/components/MetricControls.tsx:57-61 | lo <= minimum <= mean <= maximum <= hi for any bounds lo and hi of the values |
| Colors.To255 | src/lib/constants/colors.ts:29 | the channel byte lies in [0, 255]: 0 at or below 0, 255 at or above 1, and otherwise the nearest integer to v * 255 |
| Colors.HexDigit | src/lib/constants/colors.ts:30-32 | a value below 16 becomes a lower-case hexadecimal digit |
| Colors.HexString | src/lib/constants/colors.ts:30-32 | `toString(16)` of a byte has one digit exactly when the byte is below 16 |
| Colors.PadStart | src/lib/constants/colors.ts:30-32 | `padStart` keeps the string as its suffix and fills only the front, up to the requested length |
| Colors.Channel | src/lib/constants/colors.ts:30-32 | each channel is exactly two hex digits, the high nibble then the low nibble |
| Colors.HexTriple | src/lib/constants/colors.ts:33 | the colour string is `#` and six hex digits, the three channel pairs in order |
| Colors.RgbToHex | src/lib/constants/colors.ts:24-34 | `rgbToHex` yields a 7-character `#rrggbb` string |
| Colors.HexDigitValue | src/lib/constants/colors.ts:30-32 | reading a character gives a digit value exactly for hex digits, and inverts `HexDigit` |
| Colors.HexDigitValueOf | src/lib/constants/colors.ts:30-32 | reading back a printed digit gives its value |
| Colors.ChannelRoundTrip | src/lib/constants/colors.ts:30-32 | parsing a channel's two digits gives the byte back |
| Colors.TripleRoundTrip | src/lib/constants/colors.ts:33 | parsing the colour string gives the three bytes back |
| Colors.RgbToHexRoundTrip | src/lib/constants/colors.ts:24-34 | parsing `rgbToHex(c)` gives exactly the three clamped, rounded channel bytes |
| RfMetrics.MetricRanges | src/lib/constants/rf-metrics.ts:11-47 | every metric's range has min < max |
| RfMetrics.AppBounds | src/lib/constants/rf-metrics.ts:11-47 | the numeric bounds taken from the range table have min < max |
| RfMetrics.ClampedNormalized | src/lib/constants/rf-metrics.ts:62-65 | the normalised value lies in [0, 1]: 0 at or below min, 1 at or above max |
| RfMetrics.ClampedNormalizedInside | src/lib/constants/rf-metrics.ts:62-65 | inside the range the clamp is inert, and the value is min + n * (max - min) |
| RfMetrics.ClampedNormalizedMonotone | src/lib/constants/rf-metrics.ts:62-65 | normalisation preserves order |
| RfMetrics.Normalized | src/lib/constants/rf-metrics.ts:94 | definition: `(value - min) / (max - min)` without a clamp; see `QualityLevel` and `QualityLevelIgnoresClamp` |
| RfMetrics.ColorFromMetric | src/lib/constants/rf-metrics.ts:56-84 | the colour is red-400 at or below min, green-400 at or above max, and between the two on each channel otherwise |
| RfMetrics.ColorMonotone | src/lib/constants/rf-metrics.ts:79-81 | a better value is never redder: red falls while green and blue rise |
| RfMetrics.Bucket | src/lib/constants/rf-metrics.ts:96-99 | excellent iff n >= 0.75, good iff 0.5 <= n < 0.75, fair iff 0.25 <= n < 0.5, poor iff n < 0.25 |
| RfMetrics.BucketMonotone | src/lib/constants/rf-metrics.ts:96-99 | a larger normalised value never gets a worse quality level |
| RfMetrics.QualityLevel | src/lib/constants/rf-metrics.ts:89-100 | excellent at or above the range's max, poor below its min |
| RfMetrics.QualityLevelMonotone | src/lib/constants/rf-metrics.ts:94-99 | a larger metric value never gets a worse quality level |
| RfMetrics.QualityLevelIgnoresClamp | src/lib/constants/rf-metrics.ts:94-99 | thresholding the unclamped value gives the same level as thresholding the clamped one |
| Prng.MulBits | src/utils/prng.ts:12 | the 32-bit product used by `Math.imul` stays below 2^32 |
| Prng.FnvFromAppend | src/utils/prng.ts:10-13 | hashing s + t is hashing t starting from the hash of s, so the hash can be computed one unit at a time |
| Prng.SeedHash | src/utils/prng.ts:9-13 | the loop computes the 32-bit FNV-1a hash of the seed's UTF-16 code units; the empty seed hashes to the offset basis 2166136261 |
| Prng.Fnv1a | src/utils/prng.ts:9-13 | definition: FNV-1a over the code units from the offset basis 2166136261; see `FnvFromAppend` and `SeedHash` |
| Prng.ModAddLeft | src/utils/prng.ts:17 | reducing before adding does not change a sum modulo 2^32 |
| Prng.AdvanceClosedForm | src/utils/prng.ts:17 | after k calls the state is seed hash + k * 0x6D2B79F5 modulo 2^32 |
| Prng.Mix | src/utils/prng.ts:18-20 | definition: the xor-shift and `Math.imul` mixing of the advanced state; see `Output` |
| Prng.Output | src/utils/prng.ts:18-20 | every output is in [0, 1) |
| Prng.Stream | src/utils/prng.ts:16-21 | the first n outputs of a seed are n numbers in [0, 1) |
| Prng.DeterministicRng.constructor | src/utils/prng.ts:7-13 | a new generator's state is the FNV-1a hash of the seed, with no calls made |
| Prng.DeterministicRng.Next | src/utils/prng.ts:16-21 | a call advances the state by the increment modulo 2^32 and returns the mixed state scaled into [0, 1) |
| Prng.Draw | src/utils/prng.ts:7-22 | n calls on a fresh generator return the stream determined by the seed's hash alone |
| Prng.SameSeedSameNumbers | src/utils/prng.ts:7-22 | two generators made from the same seed return the same numbers; a corollary of `Draw` |
| RfPoints.ScaledWithin | src/lib/generators/rf-points.ts:107 | a quality in [0, 1] maps to a value within the metric's range |
| RfPoints.ScaledMonotone | src/lib/generators/rf-points.ts:107 | a higher quality maps to a higher value |
| RfPoints.RoundToTenth | src/lib/generators/rf-points.ts:113 | `Math.round(v * 10) / 10` has one decimal place and lies within 0.05 of v |
| RfPoints.RoundWithin | src/lib/generators/rf-points.ts:111 | rounding a value within an integer range stays within it |
| RfPoints.RoundToTenthWithin | src/lib/generators/rf-points.ts:113 | rounding to a tenth a value within an integer range stays within it |
| RfPoints.RoundToTenthMonotone | src/lib/generators/rf-points.ts:113 | rounding to a tenth preserves order |
| RfPoints.QualityFactor | src/lib/generators/rf-points.ts:100-104 | the clamped quality lies in [0, 1] |
| RfPoints.GenerateMetricValue | src/lib/generators/rf-points.ts:90-114 | the value lies within the metric's range; CQI is a whole number and every other metric has one decimal place |
| RfPoints.MetricValueMonotoneInHeight | src/lib/generators/rf-points.ts:100-113 | with the same random draws, a higher height factor never gives a lower value |
| RfPoints.Walls | src/lib/generators/rf-points.ts:26-31 | there are four walls: front, back, right, left |
| RfPoints.HorizontalPosition | src/lib/generators/rf-points.ts:42 | the lane offset lies in [-0.5, 0.4] |
| RfPoints.HorizontalPositionPeriodic | src/lib/generators/rf-points.ts:42 | lanes repeat every ten steps |
| RfPoints.PointsPerWall | src/lib/generators/rf-points.ts:15 | definition: `Math.floor(pointsPerBuilding / 4)`; see `PointsSpec` |
| RfPoints.PositionOn | src/lib/generators/rf-points.ts:37-55 | definition: the point's height from its step and its place 15 cm off its wall; see `PositionOnWall`, `PositionHeightWithin` and `PositionRisesAlongWall` |
| RfPoints.MetricsAt | src/lib/generators/rf-points.ts:62-68 | definition: the five metric values from ten consecutive draws; see `PointMetricsInRange` |
| RfPoints.PointId | src/lib/generators/rf-points.ts:71 | definition: `{building}-point-{k}`; see `PointIdsDistinct` |
| RfPoints.PointIdsDistinct | src/lib/generators/rf-points.ts:71 | `{building}-point-{j}` differs for distinct j |
| RfPoints.WallRun | src/lib/generators/rf-points.ts:36-78 | one wall yields pointsPerWall points |
| RfPoints.WallsPoints | src/lib/generators/rf-points.ts:35-79 | the first w walls yield w * pointsPerWall points |
| RfPoints.PointsSpec | src/lib/generators/rf-points.ts:10-82 | a building yields 4 * floor(pointsPerBuilding / 4) points, or none when that floor is not positive |
| RfPoints.GenerateRFPoints | src/lib/generators/rf-points.ts:10-82 | the wall loop returns exactly the points of `PointsSpec` |
| RfPoints.PlaceWallPoints | src/lib/generators/rf-points.ts:36-78 | the inner loop returns the wall's run and advances the point index by pointsPerWall |
| RfPoints.WallsPointsPrefix | src/lib/generators/rf-points.ts:35-36 | the points of fewer walls are a prefix of the points of more walls |
| RfPoints.WallsPointsLast | src/lib/generators/rf-points.ts:35-77 | the point at index w * ppw + i is step i of wall w, numbered with that index |
| RfPoints.PointsSpecAt | src/lib/generators/rf-points.ts:35-77 | the points are ordered wall by wall, then step by step up each wall |
| RfPoints.WallsPointsIds | src/lib/generators/rf-points.ts:70-77 | point k carries the building's id and the id `{building}-point-{k}` |
| RfPoints.PointsSpecIds | src/lib/generators/rf-points.ts:70-77 | the point ids of one building are pairwise distinct |
| RfPoints.DefaultBudgetCount | src/lib/generators/rf-points.ts:12-15 | the default budget of 200 yields exactly 200 points |
| RfPoints.SmallBudgetCount | src/lib/generators/rf-points.ts:15 | a budget of 8 yields exactly 8 points |
| RfPoints.TinyBudgetCount | src/lib/generators/rf-points.ts:15 | a budget below 4 needs no draws and yields no point |
| RfPoints.PositionOnWall | src/lib/generators/rf-points.ts:45-55 | each point sits 15 cm outside its wall's face, at its lane along the wall |
| RfPoints.PositionHeightWithin | src/lib/generators/rf-points.ts:38-39 | every point lies between the building's base and its roof |
| RfPoints.PositionRisesAlongWall | src/lib/generators/rf-points.ts:38-39 | along a wall, later steps are strictly higher |
| RfPoints.PointMetricsInRange | src/lib/generators/rf-points.ts:62-68 | all five metrics of a point lie within their ranges |
| RfPoints.TargetCount | src/lib/generators/rf-points.ts:125 | the number of targets is at most the number of buildings |
| RfPoints.TargetCountPrefix | src/lib/generators/rf-points.ts:124-125 | a prefix never has more targets than the whole list |
| RfPoints.AllPointsSpec | src/lib/generators/rf-points.ts:121-132 | definition: the points of the target buildings, concatenated in building order; see `GenerateAllRFPoints` and `AllPointsLength` |
| RfPoints.GenerateAllRFPoints | src/lib/generators/rf-points.ts:121-132 | the loop over the buildings returns exactly the concatenation of the targets' points |
| RfPoints.AllPointsLength | src/lib/generators/rf-points.ts:121-132 | there are 200 points per target building |
| RfPoints.AllPointsOwnedByTargets | src/lib/generators/rf-points.ts:124-128 | every point belongs to a target building of the input |
| RfPoints.PointsMetricsInRange | src/lib/generators/rf-points.ts:62-75 | every metric of every point of a building lies within its range |
| RfPoints.AllPointsMetricsInRange | src/lib/generators/rf-points.ts:121-132 | every metric of every point of the city lies within its range |
| RfPoints.Targets | src/lib/generators/rf-points.ts:125 | the kept buildings are exactly the targets of the input |
| RfPoints.AllPointsOnlyTargets | src/lib/generators/rf-points.ts:124-129 | non-target buildings contribute nothing, so only the targets matter |
| CityLayout.Towers | src/lib/generators/city-layout.ts:17-35 | there are exactly three towers |
| CityLayout.LowRiseCount | src/lib/generators/city-layout.ts:38 | 12 + floor(4u) lies in 12..15 |
| CityLayout.GridX | src/lib/generators/city-layout.ts:48 | the grid column (i mod 6) - 3 lies in -3..2 |
| CityLayout.GridZ | src/lib/generators/city-layout.ts:49 | for the at most 15 candidates, the grid row floor(i / 6) - 1 lies in -1..1 |
| CityLayout.Jitter | src/lib/generators/city-layout.ts:51-52 | the jitter (u - 0.5) * 3 lies in [-1.5, 1.5) |
| CityLayout.FloorCount | src/lib/generators/city-layout.ts:33 | definition: `Math.round(height / 3)`; see `FloorCountBetween` |
| CityLayout.HighRise | src/lib/generators/city-layout.ts:22-34 | definition: the tower record on its anchor, standing on the ground; see `LayoutStartsWithTowers` |
| CityLayout.Tower | src/lib/generators/city-layout.ts:17-34 | definition: tower i from its three draws; see `TowerDimensions` |
| CityLayout.LowRise | src/lib/generators/city-layout.ts:62-70 | definition: the low-rise record, standing on the ground; see `GroundAnchored` |
| CityLayout.CandidateOf | src/lib/generators/city-layout.ts:41-53 | definition: candidate i from its six draws; see `CandidateOnGrid` |
| CityLayout.Candidate | src/lib/generators/city-layout.ts:40-53 | definition: candidate i read from its place in the draws; see `LowRiseDimensions` |
| CityLayout.Near | src/lib/generators/city-layout.ts:57-58 | definition: squared distance to an anchor below 64; see `LowRiseClearance` |
| CityLayout.TooClose | src/lib/generators/city-layout.ts:56-59 | definition: near some tower anchor; see `AcceptedIff` |
| CityLayout.PlaceTowers | src/lib/generators/city-layout.ts:17-35 | the tower loop pushes the three towers of the specification |
| CityLayout.PlaceLowRise | src/lib/generators/city-layout.ts:40-60 | one candidate's record and its too-close verdict |
| CityLayout.GenerateCityLayout | src/lib/generators/city-layout.ts:7-75 | the generator returns the layout specification and consumes 10 + 6 * count draws |
| CityLayout.LayoutStartsWithTowers | src/lib/generators/city-layout.ts:11-35 | the layout starts with `highrise-0..2`, all targets, centred on their anchors |
| CityLayout.LowRisesLength | src/lib/generators/city-layout.ts:40-72 | at most one low-rise is kept per candidate |
| CityLayout.LayoutSize | src/lib/generators/city-layout.ts:38-72 | the layout has between 3 and 18 buildings, never more than 3 + the candidate count |
| CityLayout.LowRisesAreCandidates | src/lib/generators/city-layout.ts:55-71 | every kept low-rise is some candidate that passed the guard, and is not a target |
| CityLayout.OnlyTowersAreTargets | src/lib/generators/city-layout.ts:17-72 | a building is a target exactly when it is one of the first three |
| CityLayout.GroundAnchored | src/lib/generators/city-layout.ts:17-72 | every building stands on the ground (centre at half its height) and has round(height / 3) floors |
| CityLayout.FloorCountBetween | src/lib/generators/city-layout.ts:33 | heights within 1.5 m of a floor multiple round to a floor count within the bounds |
| CityLayout.TowerDimensions | src/lib/generators/city-layout.ts:18-33 | towers are 100 to 130 m high with 33 to 43 floors, 4 to 6 m wide and deep |
| CityLayout.LowRiseDimensions | src/lib/generators/city-layout.ts:41-69 | low-rises are 10 to 40 m high with 3 to 13 floors, 4 to 6 m wide and deep |
| CityLayout.LowRiseClearance | src/lib/generators/city-layout.ts:55-61 | every kept low-rise is at least 8 m from every tower anchor |
| CityLayout.CandidateOnGrid | src/lib/generators/city-layout.ts:47-53 | a candidate is its grid cell times a spacing in [10, 12), off by less than 1.5 m on each axis |
| CityLayout.LowRisesByIndex | src/lib/generators/city-layout.ts:40-71 | the kept low-rises are the accepted candidates, in candidate order |
| CityLayout.AcceptedIncreasing | src/lib/generators/city-layout.ts:40-71 | the accepted candidate indices are strictly increasing and below the candidate count |
| CityLayout.AcceptedIff | src/lib/generators/city-layout.ts:55-61 | a candidate is kept exactly when it is not too close to a tower |
| CityLayout.IdPrefixesDiffer | src/lib/generators/city-layout.ts:23-63 | no `highrise-` id equals a `lowrise-` id |
| CityLayout.PrefixedDistinct | src/lib/generators/city-layout.ts:63 | ids with the same prefix and different indices differ |
| CityLayout.LayoutIdsDistinct | src/lib/generators/city-layout.ts:17-72 | the building ids of a layout are pairwise distinct |
| MetricControls.Values | src/components/MetricControls.tsx:35 | the values are the selected metric of each point, in order |
| MetricControls.MetricNorm | src/components/MetricControls.tsx:35-41 | each metric's clamped normalised average lies in [0, 1] |
| MetricControls.SumNorms | src/components/MetricControls.tsx:33-43 | the sum of k clamped norms lies in [0, k] |
| MetricControls.NormalizedAverage | src/components/MetricControls.tsx:44 | the overall score lies in [0, 1] |
| MetricControls.ComputeOverallStats | src/components/MetricControls.tsx:29-50 | no points give 0 and poor; otherwise the loop computes the mean of the five norms, and the level is its quality bucket |
| MetricControls.MetricNormExtremes | src/components/MetricControls.tsx:38-41 | a metric's norm is 1 when every point is at or above its max, and 0 when every point is at or below its min |
| MetricControls.SumNormsExtremes | src/components/MetricControls.tsx:33-43 | the norms sum to k when all are 1 and to 0 when all are 0 |
| MetricControls.OverallBest | src/components/MetricControls.tsx:29-49 | points at the top of every range score 1, which is excellent |
| MetricControls.OverallWorst | src/components/MetricControls.tsx:29-49 | points at the bottom of every range score 0, which is poor |
| MetricControls.Stats | src/components/MetricControls.tsx:53-64 | no metric or no points give zeros and poor; otherwise min <= average <= max, and the level is the average's quality |
| MetricControls.StatsExtremes | src/components/MetricControls.tsx:57-61 | the minimum and maximum are values of actual points and bound all points |
| SignalBlobs.FirstSeen | src/components/SignalBlobs.tsx:45-50 | the map's key order has no repeated building id |
| SignalBlobs.FirstSeenOf | src/components/SignalBlobs.tsx:45-50 | a building id is a key exactly when some point carries it |
| SignalBlobs.FirstSeenOrder | src/components/SignalBlobs.tsx:45-63 | keys come in order of first appearance: each key's first point precedes the first point of every later key |
| SignalBlobs.Members | src/components/SignalBlobs.tsx:47-49 | a building's group is no longer than the input |
| SignalBlobs.MembersOf | src/components/SignalBlobs.tsx:46-49 | a point is in a building's group exactly when it is an input point of that building |
| SignalBlobs.MembersOfUnseen | src/components/SignalBlobs.tsx:46-49 | a building with no points has an empty group |
| SignalBlobs.MembersStep | src/components/SignalBlobs.tsx:47-49 | one more input point extends only its own building's group |
| SignalBlobs.GroupByBuilding | src/components/SignalBlobs.tsx:45-50 | the grouping loop builds the map whose keys are the first-seen ids and whose values are each building's points, in input order |
| SignalBlobs.GroupSizesStep | src/components/SignalBlobs.tsx:46-49 | each input point adds one to exactly one group |
| SignalBlobs.GroupsPartition | src/components/SignalBlobs.tsx:45-50 | the group sizes add up to the number of points, so every point is in exactly one group |
| SignalBlobs.Chunk | src/components/SignalBlobs.tsx:68 | `slice(i, i + 3)` has 1 to 3 elements, and fewer than 3 only at the end |
| SignalBlobs.ChunksFrom | src/components/SignalBlobs.tsx:67-68 | every stride slice has 1 to 3 elements |
| SignalBlobs.ChunksFromCount | src/components/SignalBlobs.tsx:67-68 | the stride loop makes ceil((n - i) / 3) slices |
| SignalBlobs.ChunksFromFlatten | src/components/SignalBlobs.tsx:67-68 | the slices concatenate back to the group, so no point is lost or repeated |
| SignalBlobs.ChunksFromFull | src/components/SignalBlobs.tsx:67-68 | every slice but the last has exactly 3 points |
| SignalBlobs.ChunksShape | src/components/SignalBlobs.tsx:66-69 | a group of n points gives ceil(n / 3) slices of 1 to 3 points that concatenate back to the group |
| SignalBlobs.MeanPosition | src/components/SignalBlobs.tsx:70-78 | definition: the summed position scaled by 1 / n; see `MeanPositionInBox` |
| SignalBlobs.MeanMetric | src/components/SignalBlobs.tsx:71-79 | definition: the summed metric divided by n; see `MeanMetricWithin` |
| SignalBlobs.BlobSize | src/components/SignalBlobs.tsx:82-83 | the size lies in [4, 7]: 4 at or above the range's max, 7 at or below its min |
| SignalBlobs.BlobSizeAntitone | src/components/SignalBlobs.tsx:82-83 | a better average never gives a larger blob |
| SignalBlobs.BlobOf | src/components/SignalBlobs.tsx:70-84 | a blob's colour is a `#rrggbb` string and its size lies in [4, 7] |
| SignalBlobs.SumGroup | src/components/SignalBlobs.tsx:70-77 | the inner loop sums the positions and the selected metric of the slice |
| SignalBlobs.SumPositionInBox | src/components/SignalBlobs.tsx:72-75 | the summed position of n points in a box lies in the box scaled by n |
| SignalBlobs.ScaleInBox | src/components/SignalBlobs.tsx:78 | `multiplyScalar(1 / n)` brings such a sum back into the box |
| SignalBlobs.MeanPositionInBox | src/components/SignalBlobs.tsx:70-78 | a blob centre lies in any box that holds its points |
| SignalBlobs.SumMetricWithin | src/components/SignalBlobs.tsx:76 | the summed metric of n points within [lo, hi] lies within [n * lo, n * hi] |
| SignalBlobs.MeanMetricWithin | src/components/SignalBlobs.tsx:79-83 | the average metric lies within the points' bounds, and so the size lies between the sizes of those bounds |
| SignalBlobs.MakeBlob | src/components/SignalBlobs.tsx:68-84 | one iteration of the stride loop builds the blob of its slice |
| SignalBlobs.BlobsOfGroup | src/components/SignalBlobs.tsx:67-85 | the stride loop emits one blob per slice of the group, in order |
| SignalBlobs.BuildingChunks | src/components/SignalBlobs.tsx:63-68 | there is one list of slices per building, in key order |
| SignalBlobs.ChunksByBuildingSnoc | src/components/SignalBlobs.tsx:63-86 | one more building appends exactly its own slices |
| SignalBlobs.ChunksByBuildingSizes | src/components/SignalBlobs.tsx:63-69 | every slice of every building has 1 to 3 points |
| SignalBlobs.ByBuildingStep | src/components/SignalBlobs.tsx:63-86 | one more building appends exactly its own blobs |
| SignalBlobs.BlobsByBuilding | src/components/SignalBlobs.tsx:63-86 | the outer loop emits the blobs of each building's slices, building by building in key order |
| SignalBlobs.ComputeBlobs | src/components/SignalBlobs.tsx:44-90 | the memo returns the first 800 blobs of that sequence |
| SignalBlobs.Cap | src/components/SignalBlobs.tsx:89 | `slice(0, 800)` keeps a prefix of length min(n, 800) |
| SignalBlobs.ChunksByBuildingCount | src/components/SignalBlobs.tsx:63-68 | the total number of slices is the sum over buildings of ceil(group size / 3) |
| SignalBlobs.BlobCount | src/components/SignalBlobs.tsx:63-89 | the memo returns min(sum of ceil(group size / 3), 800) blobs, and they are a prefix of the uncapped blobs |
| SignalBlobs.ChunkOfGroup | src/components/SignalBlobs.tsx:68 | a slice of a building's group has 1 to 3 points, all input points of that building |
| SignalBlobs.AllBlobsAt | src/components/SignalBlobs.tsx:63-85 | blob i is the blob of slice i |
| SignalBlobs.ChunkSource | src/components/SignalBlobs.tsx:63-68 | slice k of building j sits at the position given by the slice count of the earlier buildings |
| SignalBlobs.ChunkFromOneBuilding | src/components/SignalBlobs.tsx:63-69 | every slice holds 1 to 3 input points, all of one building |
| SignalBlobs.BlobFromOneBuilding | src/components/SignalBlobs.tsx:63-84 | every blob averages 1 to 3 input points of a single building |
| Lambda.Ranges | infra/lambda/src/index.ts:34-40 | the function's range table has min < max for every metric |
| Lambda.RangesContainAppRanges | infra/lambda/src/index.ts:34-40 | each of the function's ranges contains the application's range for that metric |
| Lambda.MetricValueWithin | infra/lambda/src/index.ts:42-50 | the function's metric values lie within its own ranges, with CQI whole and the others to one decimal |
| Lambda.LeadingTargets | infra/lambda/src/index.ts:164-172 | n leading targets followed by non-targets give n targets |
| Lambda.LayoutTargets | infra/lambda/src/index.ts:108-162 | the function's layout always has exactly 3 targets |
| Lambda.GenerateData | infra/lambda/src/index.ts:208-209 | the function builds the layout and the points of its targets: exactly 600 points |
| Lambda.PointsOnTowersWithinRanges | infra/lambda/src/index.ts:164-172 | every returned point belongs to one of the three towers and has all metrics within the function's ranges |
| Lambda.LeadingSpace | infra/lambda/src/index.ts:176 | the leading run that `trim` removes is exactly the white space before the first other character |
| Lambda.TrailingSpace | infra/lambda/src/index.ts:176 | the trailing run that `trim` removes is exactly the white space after the last other character |
| Lambda.Trim | infra/lambda/src/index.ts:176 | a trimmed string neither starts nor ends with white space |
| Lambda.TrimClean | infra/lambda/src/index.ts:176 | `trim` leaves a string without outer white space unchanged |
| Lambda.TrimEmpty | infra/lambda/src/index.ts:176-177 | a string trims to empty exactly when it is all white space |
| Lambda.Split | infra/lambda/src/index.ts:175 | `split(",")` always yields at least one piece |
| Lambda.SplitPiecesClean | infra/lambda/src/index.ts:175 | no piece contains the separator |
| Lambda.JoinSplit | infra/lambda/src/index.ts:175 | joining the pieces with the separator gives back the string |
| Lambda.SplitPrefix | infra/lambda/src/index.ts:175 | splitting stops each piece at the first separator |
| Lambda.SplitWhole | infra/lambda/src/index.ts:175 | a string without separator splits into itself |
| Lambda.SplitJoin | infra/lambda/src/index.ts:175 | splitting a join of separator-free pieces gives the pieces back |
| Lambda.TrimAll | infra/lambda/src/index.ts:176 | `map(s => s.trim())` trims each piece in place |
| Lambda.NonEmpty | infra/lambda/src/index.ts:177 | `filter(Boolean)` keeps exactly the non-empty strings |
| Lambda.NonEmptyKeeps | infra/lambda/src/index.ts:177 | filtering a list with no empty string changes nothing |
| Lambda.AllowedOrigins | infra/lambda/src/index.ts:175-177 | every allowed origin is non-empty, comma-free and trimmed |
| Lambda.TrimSubstring | infra/lambda/src/index.ts:176 | trimming cannot introduce a character |
| Lambda.AllowedOriginsMembers | infra/lambda/src/index.ts:175-177 | an origin is allowed exactly when it is a non-empty trimmed piece of the comma-separated setting |
| Lambda.UnsetAllowsNothing | infra/lambda/src/index.ts:175 | an unset or empty setting allows no origin |
| Lambda.Setting | infra/lambda/src/index.ts:175 | definition: `CORS_ORIGINS` or the empty string when unset; see `UnsetAllowsNothing` |
| Lambda.AllowedOriginsRoundTrip | infra/lambda/src/index.ts:175-177 | a setting written as clean origins joined by commas is read back as exactly those origins |
| Lambda.AllowedOrigin | infra/lambda/src/index.ts:179 | the request's origin is echoed exactly when it is present and allowed; anything else gives `*` |
| Lambda.BuildCorsHeaders | infra/lambda/src/index.ts:174-188 | the five CORS and content headers and their fixed values, with the chosen origin |
| Lambda.UnsetIsWildcard | infra/lambda/src/index.ts:175-179 | with no allow-list the origin header is always `*` |
| Lambda.OriginOf | infra/lambda/src/index.ts:203 | the lower-case `origin` header wins unless it is missing or empty, in which case `Origin` is used |
| Lambda.IsPreflight | infra/lambda/src/index.ts:200 | definition: the request is an `OPTIONS` request; see `Handler` |
| Lambda.FailureMessage | infra/lambda/src/index.ts:225-229 | definition: an `Error`'s message, otherwise "Unknown error"; see `Handler` |
| Lambda.Handler | infra/lambda/src/index.ts:193-232 | a preflight gets 204 and an empty body; a failure gets 500 and the error message; otherwise 200 with the layout and its 600 points; every response carries the CORS headers |

## Left out

- Rendering is not modelled. That covers the Three.js scene, sprites, textures, React components, hooks and the controls UI. Only the computations inside the memos are modelled.
- Floating point is modelled by real arithmetic. Rounding errors of IEEE doubles are not captured, and `Math.round` is floor(x + 0.5).
- Squared distances replace `Math.sqrt` in the 8 m guard. The two tests agree on real numbers.
- `Math.random()` is not modelled as a source. Its results are the `draws` parameter. `CityLayout.EnoughDraws` and `Lambda.EnoughDraws` only demand enough draws to finish; the real supply is endless.
- `Math.min(...xs)` and `Math.max(...xs)` are modelled without the engine's limit on argument count.
- The seed is modelled as a sequence of UTF-16 code units, which is what `charCodeAt` yields. The bitwise operators (`^`, `>>>`, `|`, `Math.imul`) are written out bit by bit over integers below 2^32. A signed int32 result is represented by its unsigned bit pattern.
- The ghost fields `seedHash` and `calls` of `Prng.DeterministicRng` are proof bookkeeping and do not exist in the source.
- `generateIndoorRFPoints` and the other files of the repository are not part of this model.
- The `group.length === 0` branch in the blob loop is omitted. It cannot be reached, because every slice the stride loop takes is non-empty (`SignalBlobs.Chunk`).
- JSON serialisation is left out: the response body is a datatype holding the data, not a string.
- `console.error` and the reading of `process.env` are left out. The `CORS_ORIGINS` setting and the request's headers are inputs.
- An `undefined` header value is modelled as a missing key.
- The handler's catch branch is modelled by a `fault` parameter that carries the thrown error's message, or "Unknown error" for a non-`Error` value. The model's generators cannot throw, so nothing in the model raises it.
- RfPoints.PointsSpec: the budget is an integer and has no default. The source takes any JS number, so `generateRFPoints(b, 10.5)` makes 2 points per wall, and it defaults the budget to 200. Every caller passes the literal 200, so nothing the source does is lost. A negative or tiny integer budget gives no points, following `Math.floor`, which Dafny's division matches for the divisor 4.
- `CityLayout.GridZ`: the row bound is stated only for the at most 15 candidates that the count allows.
