/**
 * The city layout: three fixed target towers, then 12 to 15 low-rise
 * candidates on a jittered grid, each dropped when it falls within 8 m of a
 * tower anchor. Draws are consumed in the source's order: three per tower
 * (height, width, depth), one for the low-rise count, then six per candidate
 * (height, width, depth, spacing, x jitter, z jitter), so candidate `i` reads
 * `draws[10 + 6 * i .. 16 + 6 * i]`.
 */
module CityLayout {
  import opened Types
  import Js

  /** Every draw is a `Math.random()` result. */
  predicate UnitDraws(draws: seq<real>)
  {
    forall i :: 0 <= i < |draws| ==> 0.0 <= draws[i] < 1.0
  }

  /** The tower anchors (centre, back left, front right); y is unused. */
  const HighRiseAnchors: seq<Vec3> := [Vec3(0.0, 0.0, 0.0), Vec3(-20.0, 0.0, -20.0), Vec3(20.0, 0.0, 15.0)]

  /** `Math.round(height / 3)`: three metres per floor. */
  function FloorCount(height: real): int
  {
    Js.Round(height / 3.0)
  }

  /** The record pushed for tower `i`: centred on its anchor, standing on the ground. */
  function HighRise(i: nat, anchor: Vec3, width: real, height: real, depth: real): Building
  {
    Building("highrise-" + Js.DecimalString(i), Vec3(anchor.x, height / 2.0, anchor.z), width, height, depth, true, FloorCount(height))
  }

  /** The record pushed for low-rise `i` at (x, z), standing on the ground. */
  function LowRise(i: nat, x: real, z: real, width: real, height: real, depth: real): Building
  {
    Building("lowrise-" + Js.DecimalString(i), Vec3(x, height / 2.0, z), width, height, depth, false, FloorCount(height))
  }

  /** Tower `i`, from `draws[3 * i .. 3 * i + 3]`. */
  function Tower(i: nat, draws: seq<real>): Building
    requires i < 3 && 9 <= |draws|
  {
    var height := 100.0 + draws[3 * i] * 30.0;
    var width := 4.0 + draws[3 * i + 1] * 2.0;
    var depth := 4.0 + draws[3 * i + 2] * 2.0;
    HighRise(i, HighRiseAnchors[i], width, height, depth)
  }

  function Towers(draws: seq<real>): (ts: seq<Building>)
    requires 9 <= |draws|
    ensures |ts| == 3
  {
    [Tower(0, draws), Tower(1, draws), Tower(2, draws)]
  }

  /** `12 + Math.floor(u * 4)`: 12 to 15 candidates. */
  function LowRiseCount(u: real): (n: int)
    ensures 0.0 <= u < 1.0 ==> 12 <= n <= 15
  {
    12 + (u * 4.0).Floor
  }

  const GridSize := 6

  /** `(i % gridSize) - gridSize / 2` */
  function GridX(i: nat): (g: int)
    ensures -3 <= g <= 2
  {
    i % GridSize - GridSize / 2
  }

  /** `Math.floor(i / gridSize) - 1` */
  function GridZ(i: nat): (g: int)
    ensures i < 18 ==> -1 <= g <= 1
  {
    i / GridSize - 1
  }

  /** `(Math.random() - 0.5) * 3`: at most 1.5 m either way. */
  function Jitter(u: real): (j: real)
    ensures 0.0 <= u < 1.0 ==> -1.5 <= j < 1.5
  {
    (u - 0.5) * 3.0
  }

  /** Low-rise candidate `i` from its six draws `u`: height, width, depth, spacing, x jitter, z jitter. */
  function CandidateOf(i: nat, u: seq<real>): Building
    requires |u| == 6
  {
    var spacing := 10.0 + u[3] * 2.0;
    LowRise(i, GridX(i) as real * spacing + Jitter(u[4]), GridZ(i) as real * spacing + Jitter(u[5]),
      4.0 + u[1] * 2.0, 10.0 + u[0] * 30.0, 4.0 + u[2] * 2.0)
  }

  /** Low-rise candidate `i`, from `draws[10 + 6 * i .. 16 + 6 * i]`. */
  function Candidate(i: nat, draws: seq<real>): Building
    requires 16 + 6 * i <= |draws|
  {
    CandidateOf(i, draws[10 + 6 * i .. 16 + 6 * i])
  }

  /** `Math.sqrt((x - hx) ** 2 + (z - hz) ** 2) < 8`, compared squared. */
  predicate Near(anchor: Vec3, x: real, z: real)
  {
    (x - anchor.x) * (x - anchor.x) + (z - anchor.z) * (z - anchor.z) < 64.0
  }

  /** `highRisePositions.some(...)`: within 8 m of some tower anchor. */
  predicate TooClose(x: real, z: real)
  {
    exists a :: a in HighRiseAnchors && Near(a, x, z)
  }

  /** The low-rises kept from the first `n` candidates, in candidate order. */
  function LowRises(draws: seq<real>, n: nat): seq<Building>
    requires 10 + 6 * n <= |draws|
  {
    if n == 0 then []
    else
      var c := Candidate(n - 1, draws);
      LowRises(draws, n - 1) + (if TooClose(c.position.x, c.position.z) then [] else [c])
  }

  /** The candidate indices that survive the distance guard, in increasing order. */
  function AcceptedIndices(draws: seq<real>, n: nat): seq<nat>
    requires 10 + 6 * n <= |draws|
  {
    if n == 0 then []
    else
      var c := Candidate(n - 1, draws);
      AcceptedIndices(draws, n - 1) + (if TooClose(c.position.x, c.position.z) then [] else [n - 1])
  }

  /** Enough draws for the whole layout, the count draw being a `Math.random()` result. */
  predicate EnoughDraws(draws: seq<real>)
  {
    10 <= |draws| && 0.0 <= draws[9] < 1.0 && 10 + 6 * LowRiseCount(draws[9]) <= |draws|
  }

  /** `generateCityLayout()`: the towers, then the surviving low-rises. */
  function CityLayoutSpec(draws: seq<real>): seq<Building>
    requires EnoughDraws(draws)
  {
    Towers(draws) + LowRises(draws, LowRiseCount(draws[9]))
  }

  /** The tower loop of `generateCityLayout()`: three draws per tower. */
  method PlaceTowers(draws: seq<real>) returns (buildings: seq<Building>)
    requires 9 <= |draws|
    ensures buildings == Towers(draws)
  {
    buildings := [];
    var next := 0;
    for i := 0 to 3
      invariant next == 3 * i
      invariant buildings == Towers(draws)[..i]
    {
      var height := 100.0 + draws[next] * 30.0;
      var width := 4.0 + draws[next + 1] * 2.0;
      var depth := 4.0 + draws[next + 2] * 2.0;
      next := next + 3;
      buildings := buildings + [HighRise(i, HighRiseAnchors[i], width, height, depth)];
    }
  }

  /** One pass of the low-rise loop body: candidate `i` from its six draws, and whether the distance guard drops it. */
  method PlaceLowRise(i: nat, u: seq<real>) returns (candidate: Building, tooClose: bool)
    requires |u| == 6
    ensures candidate == CandidateOf(i, u)
    ensures tooClose <==> TooClose(candidate.position.x, candidate.position.z)
  {
    var height := 10.0 + u[0] * 30.0;
    var width := 4.0 + u[1] * 2.0;
    var depth := 4.0 + u[2] * 2.0;
    var spacing := 10.0 + u[3] * 2.0;
    var x := GridX(i) as real * spacing + Jitter(u[4]);
    var z := GridZ(i) as real * spacing + Jitter(u[5]);
    tooClose := TooClose(x, z);
    candidate := LowRise(i, x, z, width, height, depth);
  }

  /** `generateCityLayout()`: the towers, then the low-rise loop with its distance guard; `used` is the number of draws made. */
  method GenerateCityLayout(draws: seq<real>) returns (buildings: seq<Building>, used: nat)
    requires EnoughDraws(draws)
    ensures buildings == CityLayoutSpec(draws)
    ensures used == 10 + 6 * LowRiseCount(draws[9])
  {
    buildings := PlaceTowers(draws);
    var next := 9;
    var lowRiseCount := 12 + (draws[next] * 4.0).Floor;
    next := next + 1;
    for i := 0 to lowRiseCount
      invariant next == 10 + 6 * i
      invariant buildings == Towers(draws) + LowRises(draws, i)
    {
      var u := draws[next .. next + 6];
      assert u == draws[10 + 6 * i .. 16 + 6 * i];
      next := next + 6;
      var candidate, tooClose := PlaceLowRise(i, u);
      assert candidate == Candidate(i, draws);
      if !tooClose {
        buildings := buildings + [candidate];
      }
    }
    used := next;
  }

  /** The three towers come first: ids `highrise-0..2`, targets, on their anchors. */
  lemma LayoutStartsWithTowers(draws: seq<real>)
    requires EnoughDraws(draws)
    ensures var layout := CityLayoutSpec(draws);
      && 3 <= |layout|
      && forall j :: 0 <= j < 3 ==>
        && layout[j].id == "highrise-" + Js.DecimalString(j)
        && layout[j].isTarget
        && layout[j].position.x == HighRiseAnchors[j].x
        && layout[j].position.z == HighRiseAnchors[j].z
  {
  }

  lemma {:induction false} LowRisesLength(draws: seq<real>, n: nat)
    requires 10 + 6 * n <= |draws|
    ensures |LowRises(draws, n)| <= n
  {
    if n > 0 {
      LowRisesLength(draws, n - 1);
    }
  }

  /** Between 12 and 15 candidates, so between 3 and 18 buildings, and never more than 3 + the candidate count. */
  lemma LayoutSize(draws: seq<real>)
    requires EnoughDraws(draws)
    ensures 12 <= LowRiseCount(draws[9]) <= 15
    ensures 3 <= |CityLayoutSpec(draws)| <= 3 + LowRiseCount(draws[9]) <= 18
  {
    LowRisesLength(draws, LowRiseCount(draws[9]));
  }

  /** Every low-rise kept is a candidate that passed the guard, and so is not a target. */
  lemma {:induction false} LowRisesAreCandidates(draws: seq<real>, n: nat, b: Building)
    requires 10 + 6 * n <= |draws|
    requires b in LowRises(draws, n)
    ensures exists i :: 0 <= i < n && b == Candidate(i, draws) && !TooClose(b.position.x, b.position.z)
    ensures !b.isTarget
  {
    var c := Candidate(n - 1, draws);
    if b in LowRises(draws, n - 1) {
      LowRisesAreCandidates(draws, n - 1, b);
    } else {
      assert b == c;
    }
  }

  /** The towers are the only targets. */
  lemma OnlyTowersAreTargets(draws: seq<real>)
    requires EnoughDraws(draws)
    ensures forall j :: 0 <= j < |CityLayoutSpec(draws)| ==> (CityLayoutSpec(draws)[j].isTarget <==> j < 3)
  {
    var layout := CityLayoutSpec(draws);
    var lows := LowRises(draws, LowRiseCount(draws[9]));
    forall j | 3 <= j < |layout|
      ensures !layout[j].isTarget
    {
      assert layout[j] == lows[j - 3];
      LowRisesAreCandidates(draws, LowRiseCount(draws[9]), layout[j]);
    }
  }

  /** Every building stands on the ground (its centroid at half its height) and has `round(height / 3)` floors. */
  lemma GroundAnchored(draws: seq<real>, b: Building)
    requires EnoughDraws(draws) && b in CityLayoutSpec(draws)
    ensures b.position.y == b.height / 2.0
    ensures b.floorCount == FloorCount(b.height)
  {
    if b !in Towers(draws) {
      LowRisesAreCandidates(draws, LowRiseCount(draws[9]), b);
    }
  }

  lemma FloorCountBetween(height: real, lo: int, hi: int)
    requires 3.0 * lo as real - 1.5 <= height < 3.0 * hi as real + 1.5
    ensures lo <= FloorCount(height) <= hi
  {
  }

  /** Tower dimensions: height in [100, 130) with 33 to 43 floors, width and depth in [4, 6). */
  lemma TowerDimensions(draws: seq<real>, j: nat)
    requires EnoughDraws(draws) && UnitDraws(draws) && j < 3
    ensures var t := CityLayoutSpec(draws)[j];
      && 100.0 <= t.height < 130.0
      && 33 <= t.floorCount <= 43
      && 4.0 <= t.width < 6.0 && 4.0 <= t.depth < 6.0
  {
    FloorCountBetween(100.0 + draws[3 * j] * 30.0, 33, 43);
  }

  /** Low-rise dimensions: height in [10, 40) with 3 to 13 floors, width and depth in [4, 6). */
  lemma LowRiseDimensions(draws: seq<real>, b: Building)
    requires EnoughDraws(draws) && UnitDraws(draws) && b in LowRises(draws, LowRiseCount(draws[9]))
    ensures 10.0 <= b.height < 40.0
    ensures 3 <= b.floorCount <= 13
    ensures 4.0 <= b.width < 6.0 && 4.0 <= b.depth < 6.0
  {
    LowRisesAreCandidates(draws, LowRiseCount(draws[9]), b);
    var i :| 0 <= i < LowRiseCount(draws[9]) && b == Candidate(i, draws) && !TooClose(b.position.x, b.position.z);
    var u := draws[10 + 6 * i .. 16 + 6 * i];
    assert u[0] == draws[10 + 6 * i] && u[1] == draws[11 + 6 * i] && u[2] == draws[12 + 6 * i];
    FloorCountBetween(10.0 + u[0] * 30.0, 3, 13);
  }

  /** Every kept low-rise is at least 8 m (squared distance at least 64) from every tower anchor. */
  lemma LowRiseClearance(draws: seq<real>, b: Building, a: Vec3)
    requires EnoughDraws(draws) && b in LowRises(draws, LowRiseCount(draws[9])) && a in HighRiseAnchors
    ensures (b.position.x - a.x) * (b.position.x - a.x) + (b.position.z - a.z) * (b.position.z - a.z) >= 64.0
  {
    LowRisesAreCandidates(draws, LowRiseCount(draws[9]), b);
    assert !Near(a, b.position.x, b.position.z);
  }

  /** A candidate lies on its grid cell scaled by a spacing in [10, 12), off by at most 1.5 m on each axis. */
  lemma CandidateOnGrid(i: nat, u: seq<real>)
    requires |u| == 6 && forall k :: 0 <= k < 6 ==> 0.0 <= u[k] < 1.0
    ensures var c := CandidateOf(i, u);
      var spacing := 10.0 + u[3] * 2.0;
      && 10.0 <= spacing < 12.0
      && -1.5 <= c.position.x - GridX(i) as real * spacing < 1.5
      && -1.5 <= c.position.z - GridZ(i) as real * spacing < 1.5
  {
    assert 0.0 <= u[3] < 1.0 && 0.0 <= u[4] < 1.0 && 0.0 <= u[5] < 1.0;
  }

  predicate StrictlyIncreasing(xs: seq<nat>)
  {
    forall j, k :: 0 <= j < k < |xs| ==> xs[j] < xs[k]
  }

  /**
   * The kept low-rises are exactly the candidates at the accepted indices, in
   * the same order.
   */
  lemma {:induction false} LowRisesByIndex(draws: seq<real>, n: nat)
    requires 10 + 6 * n <= |draws|
    ensures var acc := AcceptedIndices(draws, n);
      && |LowRises(draws, n)| == |acc|
      && forall k :: 0 <= k < |acc| ==> acc[k] < n && LowRises(draws, n)[k] == Candidate(acc[k], draws)
  {
    if n > 0 {
      LowRisesByIndex(draws, n - 1);
    }
  }

  /** Accepted indices increase strictly, so `lowrise-{i}` ids appear in increasing `i`. */
  lemma {:induction false} AcceptedIncreasing(draws: seq<real>, n: nat)
    requires 10 + 6 * n <= |draws|
    ensures StrictlyIncreasing(AcceptedIndices(draws, n))
    ensures forall k :: 0 <= k < |AcceptedIndices(draws, n)| ==> AcceptedIndices(draws, n)[k] < n
  {
    if n > 0 {
      AcceptedIncreasing(draws, n - 1);
    }
  }

  /** Index `i` is accepted iff its candidate clears the guard: a dropped index leaves a gap and changes nothing else. */
  lemma {:induction false} AcceptedIff(draws: seq<real>, n: nat, i: nat)
    requires 10 + 6 * n <= |draws| && i < n
    ensures i in AcceptedIndices(draws, n) <==> !TooClose(Candidate(i, draws).position.x, Candidate(i, draws).position.z)
  {
    AcceptedIncreasing(draws, n - 1);
    if i < n - 1 {
      AcceptedIff(draws, n - 1, i);
    }
  }

  lemma IdPrefixesDiffer(s: string, t: string)
    ensures "highrise-" + s != "lowrise-" + t
  {
    assert ("highrise-" + s)[0] == 'h';
    assert ("lowrise-" + t)[0] == 'l';
  }

  lemma PrefixedDistinct(prefix: string, m: nat, n: nat)
    requires m != n
    ensures prefix + Js.DecimalString(m) != prefix + Js.DecimalString(n)
  {
    Js.DecimalStringInjective(m, n);
    assert (prefix + Js.DecimalString(m))[|prefix|..] == Js.DecimalString(m);
    assert (prefix + Js.DecimalString(n))[|prefix|..] == Js.DecimalString(n);
  }

  /** Building ids are pairwise distinct. */
  lemma LayoutIdsDistinct(draws: seq<real>, j: nat, k: nat)
    requires EnoughDraws(draws) && j < k < |CityLayoutSpec(draws)|
    ensures CityLayoutSpec(draws)[j].id != CityLayoutSpec(draws)[k].id
  {
    var layout := CityLayoutSpec(draws);
    var n := LowRiseCount(draws[9]);
    var acc := AcceptedIndices(draws, n);
    LowRisesByIndex(draws, n);
    AcceptedIncreasing(draws, n);
    if k < 3 {
      PrefixedDistinct("highrise-", j, k);
    } else if j < 3 {
      assert layout[k] == Candidate(acc[k - 3], draws);
      IdPrefixesDiffer(Js.DecimalString(j), Js.DecimalString(acc[k - 3]));
    } else {
      assert layout[j] == Candidate(acc[j - 3], draws);
      assert layout[k] == Candidate(acc[k - 3], draws);
      PrefixedDistinct("lowrise-", acc[j - 3], acc[k - 3]);
    }
  }
}
