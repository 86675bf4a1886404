/**
 * RF point synthesis: one building's point budget spread over its four walls,
 * and the concatenation over all target buildings. Each `Math.random()` draw is
 * read from `draws`, in the order the source makes them: a metric value takes
 * two, a point takes ten (rssi, cqi, rsrp, rsrq, snr), so point `k` of a call
 * reads `draws[10 * k .. 10 * k + 10]`.
 * The generators take the metric range table as a parameter; the application
 * passes `RfMetrics.AppBounds`, the Lambda handler its own wider table.
 */
module RfPoints {
  import opened Types
  import Js

  /** Every entry of the table is a proper range. */
  predicate ProperTable(ranges: RangeTable)
  {
    forall m: MetricType :: ranges(m).min <= ranges(m).max
  }

  /** `min + quality * (max - min)`: a quality in [0, 1] scaled into the range. */
  function Scaled(b: Bounds, quality: real): real
  {
    b.min as real + quality * (b.max - b.min) as real
  }

  /** A quality in [0, 1] scales into the range. */
  lemma ScaledWithin(b: Bounds, q: real)
    requires 0.0 <= q <= 1.0
    ensures b.min <= b.max ==> b.min as real <= Scaled(b, q) <= b.max as real
  {
    if b.min <= b.max {
      var d := (b.max - b.min) as real;
      assert q * d <= 1.0 * d;
    }
  }

  lemma ScaledMonotone(b: Bounds, q1: real, q2: real)
    requires 0.0 <= q1 <= q2 <= 1.0 && b.min <= b.max
    ensures Scaled(b, q1) <= Scaled(b, q2)
  {
    MulMonotone(q1, q2, (b.max - b.min) as real);
  }

  lemma MulMonotone(q1: real, q2: real, d: real)
    requires q1 <= q2 && 0.0 <= d
    ensures q1 * d <= q2 * d
  {
    assert (q2 - q1) * d >= 0.0;
  }

  /** `Math.round(x * 10) / 10` */
  function RoundToTenth(x: real): (v: real)
    ensures v * 10.0 == (v * 10.0).Floor as real
    ensures x - 0.05 < v <= x + 0.05
  {
    var r := Js.Round(x * 10.0);
    assert r as real / 10.0 * 10.0 == r as real;
    assert x * 10.0 - 0.5 < r as real <= x * 10.0 + 0.5;
    r as real / 10.0
  }

  /** Rounding to an integer never leaves an integer-bounded range. */
  lemma RoundWithin(x: real, lo: int, hi: int)
    ensures lo as real <= x <= hi as real ==> lo <= Js.Round(x) <= hi
  {
  }

  /** Rounding to a tenth never leaves an integer-bounded range. */
  lemma RoundToTenthWithin(x: real, lo: int, hi: int)
    ensures lo as real <= x <= hi as real ==> lo as real <= RoundToTenth(x) <= hi as real
  {
    if lo as real <= x <= hi as real {
      var r := Js.Round(x * 10.0);
      RoundWithin(x * 10.0, lo * 10, hi * 10);
      assert RoundToTenth(x) == r as real / 10.0;
    }
  }

  lemma RoundToTenthMonotone(x: real, y: real)
    requires x <= y
    ensures RoundToTenth(x) <= RoundToTenth(y)
  {
    Js.RoundMonotone(x * 10.0, y * 10.0);
  }

  /** The clamped quality of a metric value at height factor `heightFactor`. */
  function QualityFactor(heightFactor: real, u1: real, u2: real): (q: real)
    ensures 0.0 <= q <= 1.0
  {
    var baseQuality := 0.2 + heightFactor * 0.5 + u1 * 0.3;
    var variation := (u2 - 0.5) * 0.2;
    Js.Clamp(0.0, 1.0, baseQuality + variation)
  }

  /**
   * `generateMetricValue(metric, heightFactor)`, with its two draws `u1`, `u2`:
   * a clamped quality in [0, 1] scaled into the metric's range, rounded to an
   * integer for cqi and to one decimal otherwise.
   */
  function GenerateMetricValue(ranges: RangeTable, metric: MetricType, heightFactor: real, u1: real, u2: real): (v: real)
    ensures ranges(metric).min <= ranges(metric).max ==> ranges(metric).min as real <= v <= ranges(metric).max as real
    ensures metric == Cqi ==> v == v.Floor as real
    ensures metric != Cqi ==> v * 10.0 == (v * 10.0).Floor as real
  {
    var b := ranges(metric);
    var quality := QualityFactor(heightFactor, u1, u2);
    var value := Scaled(b, quality);
    ScaledWithin(b, quality);
    RoundWithin(value, b.min, b.max);
    if metric == Cqi then Js.Round(value) as real
    else
      RoundToTenthWithin(value, b.min, b.max);
      RoundToTenth(value)
  }

  /** With the same draws, a higher point never gets a worse value: the metric trends upward with height. */
  lemma {:induction false} MetricValueMonotoneInHeight(ranges: RangeTable, metric: MetricType, h1: real, h2: real, u1: real, u2: real)
    requires ranges(metric).min <= ranges(metric).max && h1 <= h2
    ensures GenerateMetricValue(ranges, metric, h1, u1, u2) <= GenerateMetricValue(ranges, metric, h2, u1, u2)
  {
    var b := ranges(metric);
    var q1, q2 := QualityFactor(h1, u1, u2), QualityFactor(h2, u1, u2);
    Js.ClampMonotone(0.0, 1.0, 0.2 + h1 * 0.5 + u1 * 0.3 + (u2 - 0.5) * 0.2, 0.2 + h2 * 0.5 + u1 * 0.3 + (u2 - 0.5) * 0.2);
    ScaledMonotone(b, q1, q2);
    Js.RoundMonotone(Scaled(b, q1), Scaled(b, q2));
    RoundToTenthMonotone(Scaled(b, q1), Scaled(b, q2));
  }

  /** The five metric values of one point at height ratio `heightRatio`, from `draws[at .. at + 10]`. */
  function MetricsAt(ranges: RangeTable, heightRatio: real, draws: seq<real>, at: nat): Metrics
    requires at + 10 <= |draws|
  {
    Metrics(
      GenerateMetricValue(ranges, Rssi, heightRatio, draws[at], draws[at + 1]),
      GenerateMetricValue(ranges, Cqi, heightRatio, draws[at + 2], draws[at + 3]),
      GenerateMetricValue(ranges, Rsrp, heightRatio, draws[at + 4], draws[at + 5]),
      GenerateMetricValue(ranges, Rsrq, heightRatio, draws[at + 6], draws[at + 7]),
      GenerateMetricValue(ranges, Snr, heightRatio, draws[at + 8], draws[at + 9]))
  }

  datatype WallName = Front | Back | Right | Left

  /** A wall: its outward normal in the X/Z plane and the offset of its plane from the centroid. */
  datatype Wall = Wall(name: WallName, normalX: real, normalZ: real, offsetX: real, offsetZ: real)

  /** The four walls in the order points are generated: front (+Z), back (-Z), right (+X), left (-X). */
  function Walls(b: Building): (ws: seq<Wall>)
    ensures |ws| == 4
  {
    [ Wall(Front, 0.0, 1.0, 0.0, b.depth / 2.0),
      Wall(Back, 0.0, -1.0, 0.0, -(b.depth / 2.0)),
      Wall(Right, 1.0, 0.0, b.width / 2.0, 0.0),
      Wall(Left, -1.0, 0.0, -(b.width / 2.0), 0.0) ]
  }

  /** Points stand 15 cm off the wall plane. */
  const SurfaceOffset: real := 0.15

  /** `Math.floor(pointsPerBuilding / 4)` */
  function PointsPerWall(pointsPerBuilding: int): int
  {
    pointsPerBuilding / 4
  }

  /** `(i % 10) / 10 - 0.5`: ten horizontal lanes, reused cyclically. */
  function HorizontalPosition(i: nat): (h: real)
    ensures -0.5 <= h <= 0.4
  {
    (i % 10) as real / 10.0 - 0.5
  }

  lemma HorizontalPositionPeriodic(i: nat)
    ensures HorizontalPosition(i + 10) == HorizontalPosition(i)
  {
    assert (i + 10) % 10 == i % 10;
  }

  /** `"{buildingId}-point-{k}"` */
  function PointId(buildingId: string, k: nat): string
  {
    buildingId + "-point-" + Js.DecimalString(k)
  }

  lemma {:induction false} PointIdsDistinct(buildingId: string, j: nat, k: nat)
    requires j != k
    ensures PointId(buildingId, j) != PointId(buildingId, k)
  {
    Js.DecimalStringInjective(j, k);
    var p := buildingId + "-point-";
    assert PointId(buildingId, j)[|p|..] == Js.DecimalString(j);
    assert PointId(buildingId, k)[|p|..] == Js.DecimalString(k);
  }

  /** Where step `i` of `wall` stands, with `ppw` points per wall. */
  function PositionOn(b: Building, wall: Wall, ppw: nat, i: nat): Vec3
    requires 0 < ppw
  {
    var heightRatio := i as real / ppw as real;
    var pointHeight := (b.position.y - b.height / 2.0) + heightRatio * b.height;
    var h := HorizontalPosition(i);
    if wall.name == Front || wall.name == Back then
      Vec3(b.position.x + h * b.width, pointHeight, b.position.z + wall.offsetZ + wall.normalZ * SurfaceOffset)
    else
      Vec3(b.position.x + wall.offsetX + wall.normalX * SurfaceOffset, pointHeight, b.position.z + h * b.depth)
  }

  /** Step `i` of `wall`, the `k`-th point of its building: id `"{id}-point-{k}"`, draws from `10 * k`. */
  function PointOn(ranges: RangeTable, b: Building, wall: Wall, ppw: nat, i: nat, k: nat, draws: seq<real>): RFPoint
    requires 0 < ppw && 10 * k + 10 <= |draws|
  {
    RFPoint(PointId(b.id, k), b.id, PositionOn(b, wall, ppw, i), MetricsAt(ranges, i as real / ppw as real, draws, 10 * k))
  }

  /** The `ppw` points of one wall, bottom to top, numbered from `start`. */
  function WallRun(ranges: RangeTable, b: Building, wall: Wall, ppw: nat, start: nat, draws: seq<real>): (ps: seq<RFPoint>)
    requires 0 < ppw && 10 * (start + ppw) <= |draws|
    ensures |ps| == ppw
  {
    seq(ppw, i requires 0 <= i < ppw => PointOn(ranges, b, wall, ppw, i, start + i, draws))
  }

  lemma MulMonotoneInt(a: int, b: int, c: nat)
    requires a <= b
    ensures a * c <= b * c
  {
    assert b * c - a * c == (b - a) * c;
  }

  lemma NextWallFits(w: nat, ppw: nat)
    requires w < 4
    ensures (w + 1) * ppw == w * ppw + ppw <= 4 * ppw
  {
    MulMonotoneInt(w + 1, 4, ppw);
  }

  /** The points of the first `w` walls, each wall numbered on from where the previous one stopped. */
  function WallsPoints(ranges: RangeTable, b: Building, ppw: nat, w: nat, draws: seq<real>): (ps: seq<RFPoint>)
    requires 0 < ppw && w <= 4 && 40 * ppw <= |draws|
    ensures |ps| == w * ppw
  {
    if w == 0 then []
    else
      var before := WallsPoints(ranges, b, ppw, w - 1, draws);
      assert w * ppw == (w - 1) * ppw + ppw;
      MulMonotoneInt(w, 4, ppw);
      before + WallRun(ranges, b, Walls(b)[w - 1], ppw, |before|, draws)
  }

  /** The points of one `generateRFPoints(b, n)` call, as a sequence. */
  function PointsSpec(ranges: RangeTable, b: Building, pointsPerBuilding: int, draws: seq<real>): (ps: seq<RFPoint>)
    requires 40 * PointsPerWall(pointsPerBuilding) <= |draws|
    ensures |ps| == if 0 < PointsPerWall(pointsPerBuilding) then 4 * PointsPerWall(pointsPerBuilding) else 0
  {
    var ppw := PointsPerWall(pointsPerBuilding);
    if ppw <= 0 then [] else WallsPoints(ranges, b, ppw, 4, draws)
  }

  /**
   * `generateRFPoints(building, pointsPerBuilding)`: `4 * floor(n / 4)` points
   * (none when that is not positive), wall by wall.
   */
  method GenerateRFPoints(ranges: RangeTable, building: Building, pointsPerBuilding: int, draws: seq<real>)
    returns (points: seq<RFPoint>)
    requires 40 * PointsPerWall(pointsPerBuilding) <= |draws|
    ensures points == PointsSpec(ranges, building, pointsPerBuilding, draws)
    ensures |points| == if 0 < PointsPerWall(pointsPerBuilding) then 4 * PointsPerWall(pointsPerBuilding) else 0
  {
    points := [];
    var pointsPerWall := pointsPerBuilding / 4;
    var walls := Walls(building);
    var pointIndex := 0;
    for w := 0 to |walls|
      invariant pointIndex == |points|
      invariant 0 < pointsPerWall ==> points == WallsPoints(ranges, building, pointsPerWall, w, draws)
      invariant pointsPerWall <= 0 ==> points == []
    {
      if 0 < pointsPerWall {
        NextWallFits(w, pointsPerWall);
        var run;
        run, pointIndex := PlaceWallPoints(ranges, building, walls[w], pointsPerWall, pointIndex, draws);
        points := points + run;
      }
    }
  }

  /** The inner loop of `generateRFPoints`: one wall's points, numbered on from `pointIndex`. */
  method PlaceWallPoints(ranges: RangeTable, building: Building, wall: Wall, pointsPerWall: nat, pointIndex: nat, draws: seq<real>)
    returns (run: seq<RFPoint>, nextIndex: nat)
    requires 0 < pointsPerWall && 10 * (pointIndex + pointsPerWall) <= |draws|
    ensures run == WallRun(ranges, building, wall, pointsPerWall, pointIndex, draws)
    ensures nextIndex == pointIndex + pointsPerWall
  {
    run := [];
    nextIndex := pointIndex;
    for i := 0 to pointsPerWall
      invariant nextIndex == pointIndex + i
      invariant run == WallRun(ranges, building, wall, pointsPerWall, pointIndex, draws)[..i]
    {
      var heightRatio := i as real / pointsPerWall as real;
      var position := PositionOn(building, wall, pointsPerWall, i);
      var metrics := MetricsAt(ranges, heightRatio, draws, 10 * nextIndex);
      var point := RFPoint(PointId(building.id, nextIndex), building.id, position, metrics);
      assert point == PointOn(ranges, building, wall, pointsPerWall, i, pointIndex + i, draws)
                   == WallRun(ranges, building, wall, pointsPerWall, pointIndex, draws)[i];
      run := run + [point];
      nextIndex := nextIndex + 1;
    }
  }

  /** Later walls only append: the points of the first `u` walls are a prefix of those of the first `v`. */
  lemma {:induction false} WallsPointsPrefix(ranges: RangeTable, b: Building, ppw: nat, u: nat, v: nat, draws: seq<real>)
    requires 0 < ppw && u <= v <= 4 && 40 * ppw <= |draws|
    ensures u * ppw <= v * ppw
    ensures WallsPoints(ranges, b, ppw, u, draws) == WallsPoints(ranges, b, ppw, v, draws)[..u * ppw]
    decreases v
  {
    MulMonotoneInt(u, v, ppw);
    if u < v {
      WallsPointsPrefix(ranges, b, ppw, u, v - 1, draws);
    }
  }

  /** Step `i` of the last of the first `w + 1` walls sits at index `w * ppw + i`. */
  lemma WallsPointsLast(ranges: RangeTable, b: Building, ppw: nat, w: nat, i: nat, draws: seq<real>)
    requires 0 < ppw && w < 4 && i < ppw && 40 * ppw <= |draws|
    ensures w * ppw + i < (w + 1) * ppw && 10 * (w * ppw + i) + 10 <= |draws|
    ensures WallsPoints(ranges, b, ppw, w + 1, draws)[w * ppw + i] == PointOn(ranges, b, Walls(b)[w], ppw, i, w * ppw + i, draws)
  {
    NextWallFits(w, ppw);
    var run := WallRun(ranges, b, Walls(b)[w], ppw, w * ppw, draws);
    assert WallsPoints(ranges, b, ppw, w + 1, draws) == WallsPoints(ranges, b, ppw, w, draws) + run;
    assert run[i] == PointOn(ranges, b, Walls(b)[w], ppw, i, w * ppw + i, draws);
  }

  /** The point at index `w * ppw + i` is step `i` of wall `w`: walls in the order front, back, right, left. */
  lemma PointsSpecAt(ranges: RangeTable, b: Building, pointsPerBuilding: int, draws: seq<real>, w: nat, i: nat)
    requires 40 * PointsPerWall(pointsPerBuilding) <= |draws|
    requires w < 4 && i < PointsPerWall(pointsPerBuilding)
    ensures var ppw := PointsPerWall(pointsPerBuilding);
      && w * ppw + i < |PointsSpec(ranges, b, pointsPerBuilding, draws)|
      && 10 * (w * ppw + i) + 10 <= |draws|
      && PointsSpec(ranges, b, pointsPerBuilding, draws)[w * ppw + i] == PointOn(ranges, b, Walls(b)[w], ppw, i, w * ppw + i, draws)
  {
    var ppw := PointsPerWall(pointsPerBuilding);
    WallsPointsLast(ranges, b, ppw, w, i, draws);
    WallsPointsPrefix(ranges, b, ppw, w + 1, 4, draws);
  }

  /** Every point of the first `w` walls carries the building's id and, at index `k`, the id `"{id}-point-{k}"`. */
  lemma {:induction false} WallsPointsIds(ranges: RangeTable, b: Building, ppw: nat, w: nat, draws: seq<real>)
    requires 0 < ppw && w <= 4 && 40 * ppw <= |draws|
    ensures forall k :: 0 <= k < |WallsPoints(ranges, b, ppw, w, draws)| ==>
      WallsPoints(ranges, b, ppw, w, draws)[k].id == PointId(b.id, k)
      && WallsPoints(ranges, b, ppw, w, draws)[k].buildingId == b.id
  {
    if w > 0 {
      WallsPointsIds(ranges, b, ppw, w - 1, draws);
      var before := WallsPoints(ranges, b, ppw, w - 1, draws);
      MulMonotoneInt(w, 4, ppw);
      var run := WallRun(ranges, b, Walls(b)[w - 1], ppw, |before|, draws);
      var all := WallsPoints(ranges, b, ppw, w, draws);
      assert all == before + run;
      forall k | |before| <= k < |all|
        ensures all[k].id == PointId(b.id, k) && all[k].buildingId == b.id
      {
        assert all[k] == run[k - |before|] == PointOn(ranges, b, Walls(b)[w - 1], ppw, k - |before|, k, draws);
      }
    }
  }

  /** The point at result index `k` has id `"{id}-point-{k}"` and the building's id; ids within one call are distinct. */
  lemma PointsSpecIds(ranges: RangeTable, b: Building, pointsPerBuilding: int, draws: seq<real>)
    requires 40 * PointsPerWall(pointsPerBuilding) <= |draws|
    ensures var ps := PointsSpec(ranges, b, pointsPerBuilding, draws);
      && (forall k :: 0 <= k < |ps| ==> ps[k].id == PointId(b.id, k) && ps[k].buildingId == b.id)
      && (forall j, k :: 0 <= j < k < |ps| ==> ps[j].id != ps[k].id)
  {
    var ppw := PointsPerWall(pointsPerBuilding);
    if 0 < ppw {
      WallsPointsIds(ranges, b, ppw, 4, draws);
      var ps := PointsSpec(ranges, b, pointsPerBuilding, draws);
      forall j, k | 0 <= j < k < |ps|
        ensures ps[j].id != ps[k].id
      {
        PointIdsDistinct(b.id, j, k);
      }
    }
  }

  /** The budget every caller passes, `generateRFPoints(b, 200)`, yields 200 points. */
  lemma DefaultBudgetCount(ranges: RangeTable, b: Building, draws: seq<real>)
    requires 2000 <= |draws|
    ensures |PointsSpec(ranges, b, 200, draws)| == 200
  {
  }

  /** A budget that is a multiple of four is met exactly: `generateRFPoints(b, 8)` yields 8 points. */
  lemma SmallBudgetCount(ranges: RangeTable, b: Building, draws: seq<real>)
    requires 80 <= |draws|
    ensures |PointsSpec(ranges, b, 8, draws)| == 8
  {
  }

  /** A budget below 4 gives no wall a point, so no draws are needed and no point is made. */
  lemma TinyBudgetCount(ranges: RangeTable, b: Building, draws: seq<real>, n: int)
    requires n < 4
    ensures 40 * PointsPerWall(n) <= |draws| && PointsSpec(ranges, b, n, draws) == []
  {
  }

  /** A point sits 15 cm outside the face of its wall, at its lane along that wall. */
  lemma PositionOnWall(b: Building, ppw: nat, w: nat, i: nat)
    requires 0 < ppw && w < 4
    ensures var p := PositionOn(b, Walls(b)[w], ppw, i);
      var lane := HorizontalPosition(i);
      && (w == 0 ==> p.z == b.position.z + b.depth / 2.0 + SurfaceOffset && p.x == b.position.x + lane * b.width)
      && (w == 1 ==> p.z == b.position.z - b.depth / 2.0 - SurfaceOffset && p.x == b.position.x + lane * b.width)
      && (w == 2 ==> p.x == b.position.x + b.width / 2.0 + SurfaceOffset && p.z == b.position.z + lane * b.depth)
      && (w == 3 ==> p.x == b.position.x - b.width / 2.0 - SurfaceOffset && p.z == b.position.z + lane * b.depth)
  {
  }

  lemma RatioBelowOne(i: nat, n: nat)
    requires i < n
    ensures 0.0 <= i as real / n as real < 1.0
  {
  }

  /** On a building of positive height, step `i < ppw` lies between the base and the roof (the roof itself excluded). */
  lemma PositionHeightWithin(b: Building, wall: Wall, ppw: nat, i: nat)
    requires i < ppw && 0.0 < b.height
    ensures var y := PositionOn(b, wall, ppw, i).y;
      b.position.y - b.height / 2.0 <= y < b.position.y + b.height / 2.0
  {
    var r := i as real / ppw as real;
    RatioBelowOne(i, ppw);
    MulMonotone(0.0, r, b.height);
    assert r * b.height < 1.0 * b.height by {
      assert (1.0 - r) * b.height > 0.0;
    }
  }

  lemma RatioStrictlyIncreasing(i: nat, j: nat, n: nat)
    requires i < j && 0 < n
    ensures i as real / n as real < j as real / n as real
  {
    assert j as real / n as real - i as real / n as real == (j - i) as real / n as real;
  }

  lemma MulStrictlyIncreasing(x: real, y: real, h: real)
    requires x < y && 0.0 < h
    ensures x * h < y * h
  {
    assert (y - x) * h > 0.0;
  }

  /** Along one wall, later steps stand strictly higher: each wall is sampled from the bottom up. */
  lemma PositionRisesAlongWall(b: Building, wall: Wall, ppw: nat, i: nat, j: nat)
    requires i < j < ppw && 0.0 < b.height
    ensures PositionOn(b, wall, ppw, i).y < PositionOn(b, wall, ppw, j).y
  {
    RatioStrictlyIncreasing(i, j, ppw);
    MulStrictlyIncreasing(i as real / ppw as real, j as real / ppw as real, b.height);
  }

  /** With a proper range table every metric of every point lies within its range. */
  lemma PointMetricsInRange(ranges: RangeTable, b: Building, wall: Wall, ppw: nat, i: nat, k: nat, draws: seq<real>, m: MetricType)
    requires 0 < ppw && 10 * k + 10 <= |draws| && ProperTable(ranges)
    ensures var v := PointOn(ranges, b, wall, ppw, i, k, draws).metrics.Get(m);
      ranges(m).min as real <= v <= ranges(m).max as real
  {
    assert ranges(m).min <= ranges(m).max;
  }

  function TargetCount(bs: seq<Building>): (n: nat)
    ensures n <= |bs|
    decreases |bs|
  {
    if bs == [] then 0
    else TargetCount(bs[..|bs| - 1]) + (if bs[|bs| - 1].isTarget then 1 else 0)
  }

  lemma {:induction false} TargetCountPrefix(bs: seq<Building>, i: nat)
    requires i <= |bs|
    ensures TargetCount(bs[..i]) <= TargetCount(bs)
    decreases |bs|
  {
    if i < |bs| {
      assert bs[..|bs| - 1][..i] == bs[..i];
      TargetCountPrefix(bs[..|bs| - 1], i);
    } else {
      assert bs[..i] == bs;
    }
  }

  /**
   * `generateAllRFPoints(buildings)`: 200 points per target building, in
   * building order; non-targets add nothing. Each target consumes 2000 draws
   * (ten per point).
   */
  function AllPointsSpec(ranges: RangeTable, bs: seq<Building>, draws: seq<real>): seq<RFPoint>
    requires 2000 * TargetCount(bs) <= |draws|
    decreases |bs|
  {
    if bs == [] then []
    else
      var prefix := bs[..|bs| - 1];
      var b := bs[|bs| - 1];
      AllPointsSpec(ranges, prefix, draws)
        + (if b.isTarget then PointsSpec(ranges, b, 200, draws[2000 * TargetCount(prefix)..]) else [])
  }

  method GenerateAllRFPoints(ranges: RangeTable, buildings: seq<Building>, draws: seq<real>)
    returns (allPoints: seq<RFPoint>)
    requires 2000 * TargetCount(buildings) <= |draws|
    ensures allPoints == AllPointsSpec(ranges, buildings, draws)
  {
    allPoints := [];
    var used := 0;
    for i := 0 to |buildings|
      invariant used == 2000 * TargetCount(buildings[..i])
      invariant TargetCount(buildings[..i]) <= TargetCount(buildings)
      invariant allPoints == AllPointsSpec(ranges, buildings[..i], draws)
    {
      var building := buildings[i];
      assert buildings[..i + 1][..i] == buildings[..i];
      TargetCountPrefix(buildings, i + 1);
      if building.isTarget {
        var points := GenerateRFPoints(ranges, building, 200, draws[used..]);
        allPoints := allPoints + points;
        used := used + 2000;
      }
    }
    assert buildings[..|buildings|] == buildings;
  }

  lemma {:induction false} AllPointsLength(ranges: RangeTable, bs: seq<Building>, draws: seq<real>)
    requires 2000 * TargetCount(bs) <= |draws|
    ensures |AllPointsSpec(ranges, bs, draws)| == 200 * TargetCount(bs)
    decreases |bs|
  {
    if bs != [] {
      AllPointsLength(ranges, bs[..|bs| - 1], draws);
    }
  }

  /** Every generated point belongs to a target building of the input. */
  lemma {:induction false} AllPointsOwnedByTargets(ranges: RangeTable, bs: seq<Building>, draws: seq<real>, p: RFPoint)
    requires 2000 * TargetCount(bs) <= |draws|
    requires p in AllPointsSpec(ranges, bs, draws)
    ensures exists b :: b in bs && b.isTarget && b.id == p.buildingId
    decreases |bs|
  {
    var prefix := bs[..|bs| - 1];
    var b := bs[|bs| - 1];
    if b.isTarget && p !in AllPointsSpec(ranges, prefix, draws) {
      var rest := draws[2000 * TargetCount(prefix)..];
      var ps := PointsSpec(ranges, b, 200, rest);
      assert p in ps;
      var k :| 0 <= k < |ps| && ps[k] == p;
      PointsSpecIds(ranges, b, 200, rest);
    } else {
      AllPointsOwnedByTargets(ranges, prefix, draws, p);
      var c :| c in prefix && c.isTarget && c.id == p.buildingId;
      assert c in bs;
    }
  }

  /** Every point of a 200-point building reports each metric within the table's range. */
  lemma PointsMetricsInRange(ranges: RangeTable, b: Building, draws: seq<real>, p: RFPoint, m: MetricType)
    requires 2000 <= |draws| && ProperTable(ranges)
    requires p in PointsSpec(ranges, b, 200, draws)
    ensures ranges(m).min as real <= p.metrics.Get(m) <= ranges(m).max as real
  {
    var ps := PointsSpec(ranges, b, 200, draws);
    var k :| 0 <= k < |ps| && ps[k] == p;
    var w, i := k / 50, k % 50;
    assert k == w * 50 + i;
    PointsSpecAt(ranges, b, 200, draws, w, i);
    PointMetricsInRange(ranges, b, Walls(b)[w], 50, i, k, draws, m);
  }

  /** Every generated point reports each metric within the table's range. */
  lemma {:induction false} AllPointsMetricsInRange(ranges: RangeTable, bs: seq<Building>, draws: seq<real>, p: RFPoint, m: MetricType)
    requires 2000 * TargetCount(bs) <= |draws| && ProperTable(ranges)
    requires p in AllPointsSpec(ranges, bs, draws)
    ensures ranges(m).min as real <= p.metrics.Get(m) <= ranges(m).max as real
    decreases |bs|
  {
    var prefix := bs[..|bs| - 1];
    var b := bs[|bs| - 1];
    if b.isTarget && p !in AllPointsSpec(ranges, prefix, draws) {
      PointsMetricsInRange(ranges, b, draws[2000 * TargetCount(prefix)..], p, m);
    } else {
      AllPointsMetricsInRange(ranges, prefix, draws, p, m);
    }
  }

  function Targets(bs: seq<Building>): (ts: seq<Building>)
    ensures forall b :: b in ts <==> b in bs && b.isTarget
    decreases |bs|
  {
    if bs == [] then []
    else Targets(bs[..|bs| - 1]) + (if bs[|bs| - 1].isTarget then [bs[|bs| - 1]] else [])
  }

  /** Non-target buildings neither contribute points nor consume draws. */
  lemma {:induction false} AllPointsOnlyTargets(ranges: RangeTable, bs: seq<Building>, draws: seq<real>)
    requires 2000 * TargetCount(bs) <= |draws|
    ensures TargetCount(Targets(bs)) == TargetCount(bs)
    ensures AllPointsSpec(ranges, Targets(bs), draws) == AllPointsSpec(ranges, bs, draws)
    decreases |bs|
  {
    if bs != [] {
      var prefix := bs[..|bs| - 1];
      var b := bs[|bs| - 1];
      AllPointsOnlyTargets(ranges, prefix, draws);
      if b.isTarget {
        var ts := Targets(bs);
        assert ts[..|ts| - 1] == Targets(prefix);
        assert ts[|ts| - 1] == b;
      } else {
        assert Targets(bs) == Targets(prefix);
      }
    }
  }
}
