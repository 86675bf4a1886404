/** The `blobs` computation of the signal-blob layer: group points by building, cut each group into
    runs of three, average each run into one blob, keep at most 800 blobs. */
module SignalBlobs {
  import opened Types
  import RfMetrics
  import Colors
  import Aggregates

  /** One blob: centre, `#rrggbb` colour and sprite size in metres. */
  datatype Blob = Blob(position: Vec3, color: string, size: real)

  /** The cap on the number of blobs. */
  const MaxBlobs := 800

  // ---------------------------------------------------------------- grouping

  /** The building ids in order of first appearance: the key order of the grouping map. */
  function FirstSeen(ps: seq<RFPoint>): (ids: seq<string>)
    ensures forall i, j :: 0 <= i < j < |ids| ==> ids[i] != ids[j]
  {
    if |ps| == 0 then []
    else
      var before := FirstSeen(ps[..|ps| - 1]);
      var id := ps[|ps| - 1].buildingId;
      if id in before then before else before + [id]
  }

  /** The keys are exactly the building ids that occur. */
  lemma {:induction false} FirstSeenOf(ps: seq<RFPoint>, id: string)
    ensures id in FirstSeen(ps) <==> exists k :: 0 <= k < |ps| && ps[k].buildingId == id
  {
    if |ps| > 0 {
      var init := ps[..|ps| - 1];
      FirstSeenOf(init, id);
      assert forall k :: 0 <= k < |init| ==> init[k] == ps[k];
      if id == ps[|ps| - 1].buildingId {
        assert id in FirstSeen(ps);
      }
    }
  }

  /** The points of building `id`, in their original relative order. */
  function Members(ps: seq<RFPoint>, id: string): (g: seq<RFPoint>)
    ensures |g| <= |ps|
  {
    if |ps| == 0 then []
    else
      var before := Members(ps[..|ps| - 1], id);
      var last := ps[|ps| - 1];
      if last.buildingId == id then before + [last] else before
  }

  /** A group holds exactly the points of its building. */
  lemma {:induction false} MembersOf(ps: seq<RFPoint>, id: string, q: RFPoint)
    ensures q in Members(ps, id) <==> q in ps && q.buildingId == id
  {
    if |ps| > 0 {
      var init := ps[..|ps| - 1];
      MembersOf(init, id, q);
      assert ps == init + [ps[|ps| - 1]];
    }
  }

  /** A building that no point names has an empty group. */
  lemma {:induction false} MembersOfUnseen(ps: seq<RFPoint>, id: string)
    requires id !in FirstSeen(ps)
    ensures Members(ps, id) == []
  {
    if |ps| > 0 {
      var init := ps[..|ps| - 1];
      assert forall k :: 0 <= k < |init| ==> init[k] == ps[k];
      MembersOfUnseen(init, id);
    }
  }

  lemma MembersStep(ps: seq<RFPoint>, i: nat, id: string)
    requires i < |ps|
    ensures Members(ps[..i + 1], id) == Members(ps[..i], id) + (if ps[i].buildingId == id then [ps[i]] else [])
  {
    assert ps[..i + 1][..i] == ps[..i];
  }

  /** The `Map<string, RFPoint[]>` loop: `order` is the map's key order, `groups` its contents. */
  method GroupByBuilding(points: seq<RFPoint>) returns (order: seq<string>, groups: map<string, seq<RFPoint>>)
    ensures order == FirstSeen(points)
    ensures forall id :: id in groups <==> id in order
    ensures forall id :: id in groups ==> groups[id] == Members(points, id)
  {
    order := [];
    groups := map[];
    for i := 0 to |points|
      invariant order == FirstSeen(points[..i])
      invariant forall id :: id in groups <==> id in order
      invariant forall id :: id in groups ==> groups[id] == Members(points[..i], id)
      invariant forall id :: id !in groups ==> Members(points[..i], id) == []
    {
      var p := points[i];
      var arr := if p.buildingId in groups then groups[p.buildingId] else [];
      arr := arr + [p];
      if p.buildingId !in groups {
        order := order + [p.buildingId];
      }
      groups := groups[p.buildingId := arr];
      assert points[..i + 1][..i] == points[..i];
      forall id
        ensures Members(points[..i + 1], id) == Members(points[..i], id) + (if p.buildingId == id then [p] else [])
      {
        MembersStep(points, i, id);
      }
    }
    assert points[..|points|] == points;
  }

  /** `order` visits the buildings by first appearance: some point of an earlier id precedes every point of a later one. */
  lemma {:induction false} FirstSeenOrder(ps: seq<RFPoint>, i: nat, j: nat, k: nat)
    requires i < j < |FirstSeen(ps)|
    requires k < |ps| && ps[k].buildingId == FirstSeen(ps)[j]
    ensures exists k' :: 0 <= k' < k && ps[k'].buildingId == FirstSeen(ps)[i]
    decreases |ps|
  {
    var init := ps[..|ps| - 1];
    var before := FirstSeen(init);
    var last := ps[|ps| - 1];
    assert forall n :: 0 <= n < |ps| - 1 ==> init[n] == ps[n];
    if last.buildingId in before {
      assert FirstSeen(ps) == before;
      if k == |ps| - 1 {
        // `last` repeats FirstSeen(ps)[j], which therefore already occurs in `init`
        assert before[j] in before;
        FirstSeenOf(init, before[j]);
        var k2 :| 0 <= k2 < |init| && init[k2].buildingId == before[j];
        FirstSeenOrder(init, i, j, k2);
      } else {
        FirstSeenOrder(init, i, j, k);
      }
    } else {
      assert FirstSeen(ps) == before + [last.buildingId];
      FirstSeenOf(init, last.buildingId);
      if j < |before| {
        if k == |ps| - 1 {
          assert false;
        }
        FirstSeenOrder(init, i, j, k);
      } else {
        // j is the new id, first seen at the last point, so k is that point
        if k < |ps| - 1 {
          assert false;
        }
        var id := before[i];
        assert id in before;
        FirstSeenOf(init, id);
        var k2 :| 0 <= k2 < |init| && init[k2].buildingId == id;
        assert ps[k2].buildingId == FirstSeen(ps)[i];
      }
    }
  }

  /** Total size of the groups of `ids`. */
  function GroupSizes(ps: seq<RFPoint>, ids: seq<string>): nat
  {
    if |ids| == 0 then 0 else GroupSizes(ps, ids[..|ids| - 1]) + |Members(ps, ids[|ids| - 1])|
  }

  lemma {:induction false} GroupSizesStep(ps: seq<RFPoint>, p: RFPoint, ids: seq<string>)
    requires forall i, j :: 0 <= i < j < |ids| ==> ids[i] != ids[j]
    ensures GroupSizes(ps + [p], ids) == GroupSizes(ps, ids) + (if p.buildingId in ids then 1 else 0)
    decreases |ids|
  {
    if |ids| > 0 {
      var init := ids[..|ids| - 1];
      GroupSizesStep(ps, p, init);
      assert (ps + [p])[..|ps|] == ps;
      assert p.buildingId in ids <==> p.buildingId in init || p.buildingId == ids[|ids| - 1];
      assert ids[|ids| - 1] !in init;
    }
  }

  /** The groups partition the points: every point lands in exactly one group. */
  lemma {:induction false} GroupsPartition(ps: seq<RFPoint>)
    ensures GroupSizes(ps, FirstSeen(ps)) == |ps|
    decreases |ps|
  {
    if |ps| > 0 {
      var init := ps[..|ps| - 1];
      var p := ps[|ps| - 1];
      assert ps == init + [p];
      GroupsPartition(init);
      GroupSizesStep(init, p, FirstSeen(init));
      if p.buildingId !in FirstSeen(init) {
        var ids := FirstSeen(init);
        assert FirstSeen(ps) == ids + [p.buildingId];
        assert (ids + [p.buildingId])[..|ids|] == ids;
        MembersOfUnseen(init, p.buildingId);
        assert Members(ps, p.buildingId) == [p];
      }
    }
  }

  // ---------------------------------------------------------------- stride-3 chunks

  /** `arr.slice(i, i + 3)` for a start inside the array. */
  function Chunk<T>(s: seq<T>, i: nat): (c: seq<T>)
    requires i < |s|
    ensures 1 <= |c| <= 3
    ensures |c| == 3 || i + |c| == |s|
  {
    s[i..if i + 3 <= |s| then i + 3 else |s|]
  }

  /** The chunks taken at `i, i + 3, i + 6, ...` while the start is inside the array. */
  function ChunksFrom<T>(s: seq<T>, i: nat): (cs: seq<seq<T>>)
    ensures forall c :: c in cs ==> 1 <= |c| <= 3
    decreases |s| - i
  {
    if |s| <= i then [] else [Chunk(s, i)] + ChunksFrom(s, i + 3)
  }

  function Chunks<T>(s: seq<T>): seq<seq<T>>
  {
    ChunksFrom(s, 0)
  }

  function Flatten<T>(cs: seq<seq<T>>): seq<T>
  {
    if |cs| == 0 then [] else cs[0] + Flatten(cs[1..])
  }

  /** There are ceil((|s| - i) / 3) chunks. */
  lemma {:induction false} ChunksFromCount<T>(s: seq<T>, i: nat)
    ensures |ChunksFrom(s, i)| == if |s| <= i then 0 else (|s| - i + 2) / 3
    decreases |s| - i
  {
    if i < |s| {
      ChunksFromCount(s, i + 3);
    }
  }

  /** Concatenating the chunks gives back the suffix: chunks are consecutive and nothing is lost. */
  lemma FlattenCons<T>(c: seq<T>, rest: seq<seq<T>>)
    ensures Flatten([c] + rest) == c + Flatten(rest)
  {
    assert ([c] + rest)[1..] == rest;
  }

  lemma {:induction false} ChunksFromFlatten<T>(s: seq<T>, i: nat)
    requires i <= |s|
    ensures Flatten(ChunksFrom(s, i)) == s[i..]
    decreases |s| - i
  {
    if i < |s| {
      var c, rest := Chunk(s, i), ChunksFrom(s, i + 3);
      FlattenCons(c, rest);
      if i + 3 <= |s| {
        ChunksFromFlatten(s, i + 3);
        assert c == s[i..i + 3];
        assert s[i..] == s[i..i + 3] + s[i + 3..];
      } else {
        assert c == s[i..];
      }
    }
  }

  /** Every chunk but the last holds exactly three points. */
  lemma {:induction false} ChunksFromFull<T>(s: seq<T>, i: nat, k: nat)
    requires k + 1 < |ChunksFrom(s, i)|
    ensures |ChunksFrom(s, i)[k]| == 3
    decreases |s| - i
  {
    var cs := ChunksFrom(s, i);
    assert cs[1..] == ChunksFrom(s, i + 3);
    if k == 0 {
      assert ChunksFrom(s, i + 3) != [];
    } else {
      ChunksFromFull(s, i + 3, k - 1);
    }
  }

  lemma ChunksShape<T>(s: seq<T>)
    ensures |Chunks(s)| == (|s| + 2) / 3
    ensures Flatten(Chunks(s)) == s
    ensures forall c :: c in Chunks(s) ==> 1 <= |c| <= 3
    ensures forall k :: 0 <= k < |Chunks(s)| - 1 ==> |Chunks(s)[k]| == 3
  {
    ChunksFromCount(s, 0);
    ChunksFromFlatten(s, 0);
    forall k | 0 <= k < |Chunks(s)| - 1
      ensures |Chunks(s)[k]| == 3
    {
      ChunksFromFull(s, 0, k);
    }
  }

  // ---------------------------------------------------------------- one blob

  function SumPosition(g: seq<RFPoint>): Vec3
  {
    if |g| == 0 then Vec3(0.0, 0.0, 0.0)
    else
      var s := SumPosition(g[..|g| - 1]);
      var p := g[|g| - 1].position;
      Vec3(s.x + p.x, s.y + p.y, s.z + p.z)
  }

  function SumMetric(g: seq<RFPoint>, m: MetricType): real
  {
    if |g| == 0 then 0.0 else SumMetric(g[..|g| - 1], m) + g[|g| - 1].metrics.Get(m)
  }

  /** `Vector3.multiplyScalar(k)` */
  function Scale(v: Vec3, k: real): Vec3
  {
    Vec3(v.x * k, v.y * k, v.z * k)
  }

  function MeanPosition(g: seq<RFPoint>): Vec3
    requires |g| > 0
  {
    Scale(SumPosition(g), 1.0 / |g| as real)
  }

  function MeanMetric(g: seq<RFPoint>, m: MetricType): real
    requires |g| > 0
  {
    SumMetric(g, m) / |g| as real
  }

  /** The sprite size `4 + (1 - q) * 3` with q the clamped normalised metric: better signal, smaller blob. */
  function BlobSize(avg: real, m: MetricType): (size: real)
    ensures 4.0 <= size <= 7.0
    ensures RfMetrics.AppBounds(m).max as real <= avg ==> size == 4.0
    ensures avg <= RfMetrics.AppBounds(m).min as real ==> size == 7.0
  {
    4.0 + (1.0 - RfMetrics.ClampedNormalized(avg, RfMetrics.AppBounds(m))) * 3.0
  }

  lemma BlobSizeAntitone(v1: real, v2: real, m: MetricType)
    requires v1 <= v2
    ensures BlobSize(v2, m) <= BlobSize(v1, m)
  {
    RfMetrics.ClampedNormalizedMonotone(v1, v2, RfMetrics.AppBounds(m));
  }

  function BlobOf(g: seq<RFPoint>, m: MetricType): (b: Blob)
    requires |g| > 0
    ensures |b.color| == 7 && b.color[0] == '#'
    ensures 4.0 <= b.size <= 7.0
  {
    var avg := MeanMetric(g, m);
    Blob(MeanPosition(g), Colors.RgbToHex(RfMetrics.ColorFromMetric(avg, m)), BlobSize(avg, m))
  }

  /** The inner loop over one chunk: running sums of the positions and of the selected metric. */
  method SumGroup(group: seq<RFPoint>, m: MetricType) returns (pos: Vec3, sumMetric: real)
    ensures pos == SumPosition(group) && sumMetric == SumMetric(group, m)
  {
    pos := Vec3(0.0, 0.0, 0.0);
    sumMetric := 0.0;
    for i := 0 to |group|
      invariant pos == SumPosition(group[..i]) && sumMetric == SumMetric(group[..i], m)
    {
      var p := group[i];
      assert group[..i + 1][..i] == group[..i];
      pos := Vec3(pos.x + p.position.x, pos.y + p.position.y, pos.z + p.position.z);
      sumMetric := sumMetric + p.metrics.Get(m);
    }
    assert group[..|group|] == group;
  }

  predicate InBox(v: Vec3, lo: Vec3, hi: Vec3)
  {
    lo.x <= v.x <= hi.x && lo.y <= v.y <= hi.y && lo.z <= v.z <= hi.z
  }

  lemma {:induction false} SumPositionInBox(g: seq<RFPoint>, lo: Vec3, hi: Vec3)
    requires forall q :: q in g ==> InBox(q.position, lo, hi)
    ensures var s := SumPosition(g); var n := |g|;
      Aggregates.Times(n, lo.x) <= s.x <= Aggregates.Times(n, hi.x) && Aggregates.Times(n, lo.y) <= s.y <= Aggregates.Times(n, hi.y) && Aggregates.Times(n, lo.z) <= s.z <= Aggregates.Times(n, hi.z)
  {
    if |g| > 0 {
      var init := g[..|g| - 1];
      SumPositionInBox(init, lo, hi);
      assert g[|g| - 1] in g;
    }
  }

  lemma ScaleInBox(s: Vec3, n: nat, lo: Vec3, hi: Vec3)
    requires 0 < n
    requires Aggregates.Times(n, lo.x) <= s.x <= Aggregates.Times(n, hi.x) && Aggregates.Times(n, lo.y) <= s.y <= Aggregates.Times(n, hi.y) && Aggregates.Times(n, lo.z) <= s.z <= Aggregates.Times(n, hi.z)
    ensures InBox(Scale(s, 1.0 / n as real), lo, hi)
  {
    Aggregates.DivideBounds(n, lo.x, hi.x, s.x);
    Aggregates.DivideBounds(n, lo.y, hi.y, s.y);
    Aggregates.DivideBounds(n, lo.z, hi.z, s.z);
  }

  /** A blob's centre lies in every axis-aligned box that holds the points it averages. */
  lemma MeanPositionInBox(g: seq<RFPoint>, lo: Vec3, hi: Vec3)
    requires |g| > 0
    requires forall q :: q in g ==> InBox(q.position, lo, hi)
    ensures InBox(MeanPosition(g), lo, hi)
  {
    SumPositionInBox(g, lo, hi);
    ScaleInBox(SumPosition(g), |g|, lo, hi);
  }

  /** The averaged metric lies within the group's metric range, so the blob's size and colour lie between theirs. */
  lemma {:induction false} SumMetricWithin(g: seq<RFPoint>, m: MetricType, lo: real, hi: real)
    requires forall q :: q in g ==> lo <= q.metrics.Get(m) <= hi
    ensures Aggregates.Times(|g|, lo) <= SumMetric(g, m) <= Aggregates.Times(|g|, hi)
  {
    if |g| > 0 {
      SumMetricWithin(g[..|g| - 1], m, lo, hi);
      assert g[|g| - 1] in g;
    }
  }

  lemma MeanMetricWithin(g: seq<RFPoint>, m: MetricType, lo: real, hi: real)
    requires |g| > 0
    requires forall q :: q in g ==> lo <= q.metrics.Get(m) <= hi
    ensures lo <= MeanMetric(g, m) <= hi
    ensures BlobSize(hi, m) <= BlobOf(g, m).size <= BlobSize(lo, m)
  {
    SumMetricWithin(g, m, lo, hi);
    Aggregates.MeanWithin(SumMetric(g, m), |g|, lo, hi);
    BlobSizeAntitone(lo, MeanMetric(g, m), m);
    BlobSizeAntitone(MeanMetric(g, m), hi, m);
  }

  // ---------------------------------------------------------------- all blobs

  /** `cs.map(f)`; kept generic so that the list structure is reasoned about apart from the blob arithmetic. */
  function MapSeq<A, B>(f: A --> B, cs: seq<A>): (bs: seq<B>)
    requires forall c :: c in cs ==> f.requires(c)
    ensures |bs| == |cs|
  {
    if |cs| == 0 then [] else [f(cs[0])] + MapSeq(f, cs[1..])
  }

  lemma {:induction false} MapSeqAt<A, B>(f: A --> B, cs: seq<A>, k: nat)
    requires forall c :: c in cs ==> f.requires(c)
    requires k < |cs|
    ensures MapSeq(f, cs)[k] == f(cs[k])
  {
    if k > 0 {
      assert forall c :: c in cs[1..] ==> c in cs;
      MapSeqAt(f, cs[1..], k - 1);
    }
  }

  lemma MapSeqCons<A, B>(f: A --> B, c: A, cs: seq<A>)
    requires f.requires(c) && forall d :: d in cs ==> f.requires(d)
    ensures MapSeq(f, [c] + cs) == [f(c)] + MapSeq(f, cs)
  {
    assert ([c] + cs)[1..] == cs;
  }

  lemma {:induction false} MapSeqAppend<A, B>(f: A --> B, a: seq<A>, b: seq<A>)
    requires forall c :: c in a + b ==> f.requires(c)
    ensures MapSeq(f, a + b) == MapSeq(f, a) + MapSeq(f, b)
  {
    if |a| == 0 {
      assert a + b == b;
    } else {
      assert (a + b)[0] == a[0] && (a + b)[1..] == a[1..] + b;
      assert forall c :: c in a[1..] + b ==> c in a + b;
      MapSeqAppend(f, a[1..], b);
      assert forall c :: c in a[1..] ==> c in a;
      ConcatAssoc([f(a[0])], MapSeq(f, a[1..]), MapSeq(f, b));
    }
  }

  lemma ConcatAssoc<T>(a: seq<T>, b: seq<T>, c: seq<T>)
    ensures a + (b + c) == (a + b) + c
  {
  }

  /** The averaging of one chunk as a function value. */
  function BlobMaker(m: MetricType): seq<RFPoint> --> Blob
  {
    (g: seq<RFPoint>) requires |g| > 0 => BlobOf(g, m)
  }

  /** The blobs of one building's points, one per stride-3 chunk. */
  function GroupBlobs(arr: seq<RFPoint>, m: MetricType): seq<Blob>
  {
    MapSeq(BlobMaker(m), Chunks(arr))
  }

  /** The body of the stride loop: average one chunk and derive its colour and size. */
  method MakeBlob(group: seq<RFPoint>, m: MetricType) returns (blob: Blob)
    requires |group| > 0
    ensures blob == BlobOf(group, m)
  {
    var pos, sumMetric := SumGroup(group, m);
    pos := Scale(pos, 1.0 / |group| as real);
    var avgMetric := sumMetric / |group| as real;
    var color := Colors.RgbToHex(RfMetrics.ColorFromMetric(avgMetric, m));
    var q := RfMetrics.ClampedNormalized(avgMetric, RfMetrics.AppBounds(m));
    var size := 4.0 + (1.0 - q) * 3.0;
    assert pos == MeanPosition(group);
    assert avgMetric == MeanMetric(group, m);
    assert size == BlobSize(avgMetric, m);
    blob := Blob(pos, color, size);
  }

  /** One step of a stride loop: the value of the chunk at `i` moves from the remaining values to the emitted ones. */
  lemma StrideStep<B>(f: seq<RFPoint> --> B, arr: seq<RFPoint>, i: nat, out: seq<B>)
    requires i < |arr|
    requires forall c :: 1 <= |c| <= 3 ==> f.requires(c)
    ensures out + MapSeq(f, ChunksFrom(arr, i)) == (out + [f(Chunk(arr, i))]) + MapSeq(f, ChunksFrom(arr, i + 3))
  {
    MapSeqCons(f, Chunk(arr, i), ChunksFrom(arr, i + 3));
    ConcatAssoc(out, [f(Chunk(arr, i))], MapSeq(f, ChunksFrom(arr, i + 3)));
  }

  /** The stride loop over one group. */
  method BlobsOfGroup(arr: seq<RFPoint>, m: MetricType) returns (out: seq<Blob>)
    ensures out == GroupBlobs(arr, m)
  {
    out := [];
    var i := 0;
    while i < |arr|
      invariant out + MapSeq(BlobMaker(m), ChunksFrom(arr, i)) == GroupBlobs(arr, m)
      decreases |arr| - i
    {
      var group := arr[i..if i + 3 <= |arr| then i + 3 else |arr|];
      assert group == Chunk(arr, i);
      var blob := MakeBlob(group, m);
      StrideStep(BlobMaker(m), arr, i, out);
      out := out + [blob];
      i := i + 3;
    }
  }

  /** The chunk lists of the buildings `ids`, one per building. */
  function BuildingChunks(ps: seq<RFPoint>, ids: seq<string>): (pieces: seq<seq<seq<RFPoint>>>)
    ensures |pieces| == |ids|
    ensures forall i :: 0 <= i < |ids| ==> pieces[i] == Chunks(Members(ps, ids[i]))
  {
    seq(|ids|, i requires 0 <= i < |ids| => Chunks(Members(ps, ids[i])))
  }

  /** The chunks of the buildings `ids`, building after building. */
  function ChunksByBuilding(ps: seq<RFPoint>, ids: seq<string>): seq<seq<RFPoint>>
  {
    Flatten(BuildingChunks(ps, ids))
  }

  lemma {:induction false} FlattenAppend<T>(a: seq<seq<T>>, b: seq<seq<T>>)
    ensures Flatten(a + b) == Flatten(a) + Flatten(b)
    decreases |a|
  {
    if |a| == 0 {
      assert a + b == b;
    } else {
      assert (a + b)[0] == a[0] && (a + b)[1..] == a[1..] + b;
      FlattenAppend(a[1..], b);
      ConcatAssoc(a[0], Flatten(a[1..]), Flatten(b));
    }
  }

  /** Element `k` of piece `j` follows the pieces before it. */
  lemma FlattenAt<T>(cs: seq<seq<T>>, j: nat, k: nat)
    requires j < |cs| && k < |cs[j]|
    ensures |Flatten(cs[..j])| + k < |Flatten(cs)|
    ensures Flatten(cs)[|Flatten(cs[..j])| + k] == cs[j][k]
  {
    assert cs == cs[..j] + cs[j..];
    FlattenAppend(cs[..j], cs[j..]);
    assert cs[j..][0] == cs[j];
  }

  lemma FlattenSnoc<T>(a: seq<seq<T>>, x: seq<T>)
    ensures Flatten(a + [x]) == Flatten(a) + x
  {
    FlattenAppend(a, [x]);
    assert Flatten([x]) == x + Flatten([]);
  }

  lemma FlattenPrefixSnoc<T>(cs: seq<seq<T>>, k: nat)
    requires k < |cs|
    ensures Flatten(cs[..k + 1]) == Flatten(cs[..k]) + cs[k]
  {
    assert cs[..k + 1] == cs[..k] + [cs[k]];
    FlattenSnoc(cs[..k], cs[k]);
  }

  /** Adding building `ids[k]` appends its chunks. */
  lemma ChunksByBuildingSnoc(ps: seq<RFPoint>, ids: seq<string>, k: nat)
    requires k < |ids|
    ensures ChunksByBuilding(ps, ids[..k + 1]) == ChunksByBuilding(ps, ids[..k]) + Chunks(Members(ps, ids[k]))
  {
    var pieces := BuildingChunks(ps, ids);
    assert pieces[..k] == BuildingChunks(ps, ids[..k]);
    assert pieces[..k + 1] == BuildingChunks(ps, ids[..k + 1]);
    FlattenPrefixSnoc(pieces, k);
  }

  /** Every chunk of every building holds one to three points. */
  lemma {:induction false} ChunksByBuildingSizes(ps: seq<RFPoint>, ids: seq<string>)
    ensures forall c :: c in ChunksByBuilding(ps, ids) ==> 1 <= |c| <= 3
    decreases |ids|
  {
    if |ids| > 0 {
      var n := |ids| - 1;
      ChunksByBuildingSizes(ps, ids[..n]);
      ChunksByBuildingSnoc(ps, ids, n);
      assert ids[..n + 1] == ids;
    }
  }

  /** `out.slice(0, 800)` */
  function Cap(bs: seq<Blob>): (r: seq<Blob>)
    ensures r <= bs
    ensures |r| == if |bs| <= MaxBlobs then |bs| else MaxBlobs
  {
    if |bs| <= MaxBlobs then bs else bs[..MaxBlobs]
  }

  /** The blobs of the buildings `ids`, building after building. */
  function BuildingBlobs(ps: seq<RFPoint>, ids: seq<string>, m: MetricType): seq<Blob>
  {
    ChunksByBuildingSizes(ps, ids);
    MapSeq(BlobMaker(m), ChunksByBuilding(ps, ids))
  }

  /** The blobs of all buildings in first-appearance order, before the cap. */
  function AllBlobs(ps: seq<RFPoint>, m: MetricType): seq<Blob>
  {
    BuildingBlobs(ps, FirstSeen(ps), m)
  }

  /** The value of the `blobs` memo. */
  function BlobsSpec(ps: seq<RFPoint>, m: MetricType): seq<Blob>
  {
    Cap(AllBlobs(ps, m))
  }

  /** Appending one building's blobs extends the blobs of the buildings before it. */
  lemma ByBuildingStep(ps: seq<RFPoint>, ids: seq<string>, k: nat, m: MetricType)
    requires k < |ids|
    ensures BuildingBlobs(ps, ids[..k + 1], m) == BuildingBlobs(ps, ids[..k], m) + GroupBlobs(Members(ps, ids[k]), m)
  {
    ChunksByBuildingSizes(ps, ids[..k + 1]);
    ChunksByBuildingSizes(ps, ids[..k]);
    ChunksByBuildingSnoc(ps, ids, k);
    MapSeqAppend(BlobMaker(m), ChunksByBuilding(ps, ids[..k]), Chunks(Members(ps, ids[k])));
  }

  /** The loop over the groups in key order, each group's blobs appended in turn. */
  method BlobsByBuilding(ps: seq<RFPoint>, order: seq<string>, groups: map<string, seq<RFPoint>>, m: MetricType) returns (out: seq<Blob>)
    requires forall id :: id in order ==> id in groups && groups[id] == Members(ps, id)
    ensures out == BuildingBlobs(ps, order, m)
  {
    out := [];
    for k := 0 to |order|
      invariant out == BuildingBlobs(ps, order[..k], m)
    {
      var more := BlobsOfGroup(groups[order[k]], m);
      ByBuildingStep(ps, order, k, m);
      out := out + more;
    }
    assert order[..|order|] == order;
  }

  /** The `blobs` memo: group, chunk, average, cap. */
  method ComputeBlobs(rfPoints: seq<RFPoint>, selectedMetric: MetricType) returns (blobs: seq<Blob>)
    ensures blobs == BlobsSpec(rfPoints, selectedMetric)
  {
    var order, groups := GroupByBuilding(rfPoints);
    var out := BlobsByBuilding(rfPoints, order, groups, selectedMetric);
    blobs := if |out| <= 800 then out else out[..800];
  }

  /** ceil(n_b / 3) summed over the buildings `ids`. */
  function ChunkTotal(ps: seq<RFPoint>, ids: seq<string>): nat
  {
    if |ids| == 0 then 0 else ChunkTotal(ps, ids[..|ids| - 1]) + (|Members(ps, ids[|ids| - 1])| + 2) / 3
  }

  lemma {:induction false} ChunksByBuildingCount(ps: seq<RFPoint>, ids: seq<string>)
    ensures |ChunksByBuilding(ps, ids)| == ChunkTotal(ps, ids)
    decreases |ids|
  {
    if |ids| > 0 {
      var n := |ids| - 1;
      ChunksByBuildingCount(ps, ids[..n]);
      ChunksByBuildingSnoc(ps, ids, n);
      assert ids[..n + 1] == ids;
      ChunksShape(Members(ps, ids[n]));
    }
  }

  /** The result holds min(sum over buildings of ceil(n_b / 3), 800) blobs, the first ones of the uncapped list. */
  lemma BlobCount(ps: seq<RFPoint>, m: MetricType)
    ensures var total := ChunkTotal(ps, FirstSeen(ps));
      |BlobsSpec(ps, m)| == (if total <= 800 then total else 800)
    ensures BlobsSpec(ps, m) <= AllBlobs(ps, m)
  {
    ChunksByBuildingCount(ps, FirstSeen(ps));
  }

  /** Chunk `k` of a building's group is 1 to 3 points, all of them points of that building. */
  lemma ChunkOfGroup(ps: seq<RFPoint>, id: string, k: nat)
    requires k < |Chunks(Members(ps, id))|
    ensures var g := Chunks(Members(ps, id))[k];
      1 <= |g| <= 3 && forall q :: q in g ==> q in ps && q.buildingId == id
  {
    var g := Chunks(Members(ps, id))[k];
    assert g in Chunks(Members(ps, id));
    forall q | q in g
      ensures q in ps && q.buildingId == id
    {
      ChunkMember(Members(ps, id), k, q);
      MembersOf(ps, id, q);
    }
  }

  /** Blob `i` is the average of chunk `i` of the building-by-building chunk list. */
  lemma AllBlobsAt(ps: seq<RFPoint>, m: MetricType, i: nat)
    requires i < |ChunksByBuilding(ps, FirstSeen(ps))|
    ensures 1 <= |ChunksByBuilding(ps, FirstSeen(ps))[i]| <= 3
    ensures i < |AllBlobs(ps, m)| && AllBlobs(ps, m)[i] == BlobOf(ChunksByBuilding(ps, FirstSeen(ps))[i], m)
  {
    ChunksByBuildingSizes(ps, FirstSeen(ps));
    MapSeqAt(BlobMaker(m), ChunksByBuilding(ps, FirstSeen(ps)), i);
  }

  /** Every element of a concatenation comes from one of its pieces. */
  lemma {:induction false} FlattenIndex<T>(cs: seq<seq<T>>, n: nat)
    requires n < |Flatten(cs)|
    ensures exists j, k :: 0 <= j < |cs| && 0 <= k < |cs[j]| && Flatten(cs)[n] == cs[j][k]
    decreases |cs|
  {
    if n < |cs[0]| {
      assert Flatten(cs)[n] == cs[0][n];
    } else {
      FlattenIndex(cs[1..], n - |cs[0]|);
      var j, k :| 0 <= j < |cs[1..]| && 0 <= k < |cs[1..][j]| && Flatten(cs[1..])[n - |cs[0]|] == cs[1..][j][k];
      assert Flatten(cs)[n] == cs[j + 1][k];
    }
  }

  /** Chunk `i` of the buildings `ids` is one to three points of the input, all from the same building. */
  lemma ChunkFromOneBuilding(ps: seq<RFPoint>, ids: seq<string>, i: nat)
    requires i < |ChunksByBuilding(ps, ids)|
    ensures var c := ChunksByBuilding(ps, ids)[i];
      1 <= |c| <= 3 && forall q :: q in c ==> q in ps && q.buildingId == c[0].buildingId
  {
    var pieces := BuildingChunks(ps, ids);
    FlattenIndex(pieces, i);
    var j, k :| 0 <= j < |pieces| && 0 <= k < |pieces[j]| && Flatten(pieces)[i] == pieces[j][k];
    ChunkOfGroup(ps, ids[j], k);
  }

  /** Blob `i` averages one to three points of the input, all from the same building. */
  lemma BlobFromOneBuilding(ps: seq<RFPoint>, m: MetricType, i: nat)
    requires i < |ChunksByBuilding(ps, FirstSeen(ps))|
    ensures var c := ChunksByBuilding(ps, FirstSeen(ps))[i];
      && 1 <= |c| <= 3
      && (forall q :: q in c ==> q in ps && q.buildingId == c[0].buildingId)
      && i < |AllBlobs(ps, m)| && AllBlobs(ps, m)[i] == BlobOf(c, m)
  {
    AllBlobsAt(ps, m, i);
    ChunkFromOneBuilding(ps, FirstSeen(ps), i);
  }

  /** Chunk `k` of building `ids[j]` sits right after the chunks of the buildings before it. */
  lemma ChunkSource(ps: seq<RFPoint>, ids: seq<string>, j: nat, k: nat)
    requires j < |ids| && k < |Chunks(Members(ps, ids[j]))|
    ensures |ChunksByBuilding(ps, ids[..j])| + k < |ChunksByBuilding(ps, ids)|
    ensures ChunksByBuilding(ps, ids)[|ChunksByBuilding(ps, ids[..j])| + k] == Chunks(Members(ps, ids[j]))[k]
  {
    var pieces := BuildingChunks(ps, ids);
    assert pieces[..j] == BuildingChunks(ps, ids[..j]);
    FlattenAt(pieces, j, k);
  }

  /** Every point of a chunk comes from the chunked sequence. */
  lemma ChunkMember<T>(s: seq<T>, k: nat, q: T)
    requires k < |Chunks(s)| && q in Chunks(s)[k]
    ensures q in s
  {
    ChunksShape(s);
    FlattenMember(Chunks(s), k, q);
  }

  lemma {:induction false} FlattenMember<T>(cs: seq<seq<T>>, k: nat, q: T)
    requires k < |cs| && q in cs[k]
    ensures q in Flatten(cs)
  {
    if k > 0 {
      FlattenMember(cs[1..], k - 1, q);
    }
  }
}
