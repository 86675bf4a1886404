/**
 * The serverless handler that serves a generated scene over HTTP: its own wider metric range table,
 * the origin allow-list behind the CORS headers, and the choice between the 204, 200 and 500 responses.
 * The generators are the application's (RfPoints, CityLayout) bound to this module's range table.
 */
module Lambda {
  import opened Types
  import RfMetrics
  import RfPoints
  import CityLayout

  // ---------------------------------------------------------------------------------------------
  // The range table and the generated data

  /** `METRIC_RANGES` of the handler. */
  function Ranges(m: MetricType): (b: Bounds)
    ensures b.min < b.max
  {
    match m
    case Rssi => Bounds(-120, -40)
    case Cqi => Bounds(0, 15)
    case Rsrp => Bounds(-140, -44)
    case Rsrq => Bounds(-20, -3)
    case Snr => Bounds(-10, 30)
  }

  /** Every range of the handler's table contains the application's range for the same metric. */
  lemma RangesContainAppRanges(m: MetricType)
    ensures Ranges(m).min <= RfMetrics.AppBounds(m).min < RfMetrics.AppBounds(m).max <= Ranges(m).max
  {
  }

  /** `generateMetricValue` with the handler's table: a value inside the metric's range, rounded the same way. */
  lemma MetricValueWithin(metric: MetricType, heightFactor: real, u1: real, u2: real)
    ensures var v := RfPoints.GenerateMetricValue(Ranges, metric, heightFactor, u1, u2);
      && (metric == Rssi ==> -120.0 <= v <= -40.0)
      && (metric == Cqi ==> 0.0 <= v <= 15.0 && v == v.Floor as real)
      && (metric == Rsrp ==> -140.0 <= v <= -44.0)
      && (metric == Rsrq ==> -20.0 <= v <= -3.0)
      && (metric == Snr ==> -10.0 <= v <= 30.0)
      && (metric != Cqi ==> v * 10.0 == (v * 10.0).Floor as real)
  {
    var b := Ranges(metric);
    assert b.min <= b.max;
  }

  /** The draws one request consumes: the layout's, then 2000 for each of the three towers. */
  predicate EnoughDraws(draws: seq<real>)
  {
    CityLayout.EnoughDraws(draws) && LayoutDraws(draws) + 6000 <= |draws|
  }

  /** The number of draws `generateCityLayout()` consumes. */
  function LayoutDraws(draws: seq<real>): nat
    requires CityLayout.EnoughDraws(draws)
  {
    10 + 6 * CityLayout.LowRiseCount(draws[9])
  }

  /** A run of buildings whose first `n` are exactly the targets has `n` targets. */
  lemma {:induction false} LeadingTargets(bs: seq<Building>, n: nat)
    requires n <= |bs|
    requires forall j :: 0 <= j < |bs| ==> (bs[j].isTarget <==> j < n)
    ensures RfPoints.TargetCount(bs) == n
    decreases |bs|
  {
    if bs != [] {
      var init := bs[..|bs| - 1];
      assert forall j :: 0 <= j < |init| ==> init[j] == bs[j];
      if |bs| == n {
        LeadingTargets(init, n - 1);
      } else {
        LeadingTargets(init, n);
      }
    }
  }

  /** Every layout has exactly three target buildings, the towers. */
  lemma LayoutTargets(draws: seq<real>)
    requires CityLayout.EnoughDraws(draws)
    ensures RfPoints.TargetCount(CityLayout.CityLayoutSpec(draws)) == 3
  {
    CityLayout.LayoutSize(draws);
    CityLayout.OnlyTowersAreTargets(draws);
    LeadingTargets(CityLayout.CityLayoutSpec(draws), 3);
  }

  /** The points of one request: 200 per target building of the layout, from the draws after the layout's. */
  function PointsOf(draws: seq<real>): seq<RFPoint>
    requires EnoughDraws(draws)
  {
    LayoutTargets(draws);
    RfPoints.AllPointsSpec(Ranges, CityLayout.CityLayoutSpec(draws), draws[LayoutDraws(draws)..])
  }

  /** The generation step of the handler: `generateCityLayout()` then `generateAllRFPoints(buildings)`. */
  method GenerateData(draws: seq<real>) returns (buildings: seq<Building>, rfPoints: seq<RFPoint>)
    requires EnoughDraws(draws)
    ensures buildings == CityLayout.CityLayoutSpec(draws)
    ensures rfPoints == PointsOf(draws)
    ensures |rfPoints| == 600
  {
    var used;
    buildings, used := CityLayout.GenerateCityLayout(draws);
    LayoutTargets(draws);
    rfPoints := RfPoints.GenerateAllRFPoints(Ranges, buildings, draws[used..]);
    RfPoints.AllPointsLength(Ranges, buildings, draws[used..]);
  }

  /** Every point the handler serves lies on a tower and reports each metric within the handler's table. */
  lemma PointsOnTowersWithinRanges(draws: seq<real>, p: RFPoint, m: MetricType)
    requires EnoughDraws(draws) && p in PointsOf(draws)
    ensures exists j :: 0 <= j < 3 && CityLayout.CityLayoutSpec(draws)[j].id == p.buildingId
    ensures Ranges(m).min as real <= p.metrics.Get(m) <= Ranges(m).max as real
  {
    var layout := CityLayout.CityLayoutSpec(draws);
    var rest := draws[LayoutDraws(draws)..];
    LayoutTargets(draws);
    RfPoints.AllPointsOwnedByTargets(Ranges, layout, rest, p);
    var b :| b in layout && b.isTarget && b.id == p.buildingId;
    var j :| 0 <= j < |layout| && layout[j] == b;
    CityLayout.OnlyTowersAreTargets(draws);
    assert RfPoints.ProperTable(Ranges);
    RfPoints.AllPointsMetricsInRange(Ranges, layout, rest, p, m);
  }

  // ---------------------------------------------------------------------------------------------
  // The origin allow-list

  /** The characters `String.prototype.trim` removes: white space and line terminators. */
  predicate IsWhiteSpace(c: char)
  {
    c in {'\t', '\n', '\U{000B}', '\U{000C}', '\r', ' ', '\U{00A0}', '\U{1680}', '\U{2000}', '\U{2001}',
          '\U{2002}', '\U{2003}', '\U{2004}', '\U{2005}', '\U{2006}', '\U{2007}', '\U{2008}', '\U{2009}',
          '\U{200A}', '\U{2028}', '\U{2029}', '\U{202F}', '\U{205F}', '\U{3000}', '\U{FEFF}'}
  }

  /** The number of leading white-space characters. */
  function LeadingSpace(s: string): (n: nat)
    ensures n <= |s|
    ensures forall k :: 0 <= k < n ==> IsWhiteSpace(s[k])
    ensures n == |s| || !IsWhiteSpace(s[n])
  {
    if s != [] && IsWhiteSpace(s[0]) then 1 + LeadingSpace(s[1..]) else 0
  }

  /** The number of trailing white-space characters. */
  function TrailingSpace(s: string): (n: nat)
    ensures n <= |s|
    ensures forall k :: |s| - n <= k < |s| ==> IsWhiteSpace(s[k])
    ensures n == |s| || !IsWhiteSpace(s[|s| - n - 1])
  {
    if s != [] && IsWhiteSpace(s[|s| - 1]) then 1 + TrailingSpace(s[..|s| - 1]) else 0
  }

  /** `s.trim()` */
  function Trim(s: string): (t: string)
    ensures |t| <= |s|
    ensures t == [] || (!IsWhiteSpace(t[0]) && !IsWhiteSpace(t[|t| - 1]))
  {
    var r := s[LeadingSpace(s)..];
    r[..|r| - TrailingSpace(r)]
  }

  /** A string without surrounding white space is its own trim; in particular trimming is idempotent. */
  lemma TrimClean(s: string)
    requires s == [] || (!IsWhiteSpace(s[0]) && !IsWhiteSpace(s[|s| - 1]))
    ensures Trim(s) == s
  {
  }

  /** A string trims to the empty string exactly when it is all white space. */
  lemma TrimEmpty(s: string)
    ensures Trim(s) == [] <==> forall k :: 0 <= k < |s| ==> IsWhiteSpace(s[k])
  {
    var i := LeadingSpace(s);
    var r := s[i..];
    if Trim(s) == [] {
      assert TrailingSpace(r) == |r|;
    }
  }

  /** `s.split(sep)`: the pieces between separators, empty pieces included. */
  function Split(s: string, sep: char): (parts: seq<string>)
    ensures |parts| >= 1
    decreases |s|
  {
    if s == [] then [""]
    else
      var rest := Split(s[1..], sep);
      if s[0] == sep then [""] + rest else [[s[0]] + rest[0]] + rest[1..]
  }

  /** The pieces joined back with the separator. */
  function Join(parts: seq<string>, sep: char): string
    requires |parts| >= 1
    decreases |parts|
  {
    if |parts| == 1 then parts[0] else parts[0] + [sep] + Join(parts[1..], sep)
  }

  /** No piece of a split holds the separator. */
  lemma {:induction false} SplitPiecesClean(s: string, sep: char)
    ensures forall p :: p in Split(s, sep) ==> sep !in p
    decreases |s|
  {
    if s != [] {
      SplitPiecesClean(s[1..], sep);
      var rest := Split(s[1..], sep);
      if s[0] != sep {
        assert rest[0] in rest;
        forall p | p in Split(s, sep)
          ensures sep !in p
        {
          if p != [s[0]] + rest[0] {
            assert p in rest[1..];
          }
        }
      }
    }
  }

  /** Joining a piece in front of at least one more. */
  lemma JoinCons(x: string, rest: seq<string>, sep: char)
    requires |rest| >= 1
    ensures Join([x] + rest, sep) == x + [sep] + Join(rest, sep)
  {
    assert ([x] + rest)[1..] == rest;
  }

  /** Splitting and joining are inverse: joining the pieces restores the string. */
  lemma {:induction false} JoinSplit(s: string, sep: char)
    ensures Join(Split(s, sep), sep) == s
    decreases |s|
  {
    if s != [] {
      var rest := Split(s[1..], sep);
      JoinSplit(s[1..], sep);
      assert [s[0]] + s[1..] == s;
      if s[0] == sep {
        assert Split(s, sep) == [""] + rest;
        JoinCons("", rest, sep);
      } else {
        var parts := [[s[0]] + rest[0]] + rest[1..];
        assert Split(s, sep) == parts;
        if |rest| == 1 {
          assert Join(parts, sep) == parts[0];
        } else {
          JoinCons([s[0]] + rest[0], rest[1..], sep);
          assert [rest[0]] + rest[1..] == rest;
          JoinCons(rest[0], rest[1..], sep);
        }
      }
    }
  }

  /** A piece free of the separator, a separator, then the rest: the piece comes off first. */
  lemma {:induction false} SplitPrefix(a: string, r: string, sep: char)
    requires sep !in a
    ensures Split(a + [sep] + r, sep) == [a] + Split(r, sep)
    decreases |a|
  {
    if a == [] {
      assert a + [sep] + r == [sep] + r;
    } else {
      var s := a + [sep] + r;
      assert s[0] == a[0] && a[0] != sep;
      assert s[1..] == a[1..] + [sep] + r;
      assert sep !in a[1..];
      SplitPrefix(a[1..], r, sep);
      assert [a[0]] + a[1..] == a;
    }
  }

  /** A string free of the separator splits into itself. */
  lemma {:induction false} SplitWhole(a: string, sep: char)
    requires sep !in a
    ensures Split(a, sep) == [a]
    decreases |a|
  {
    if a != [] {
      assert a[0] != sep && sep !in a[1..];
      SplitWhole(a[1..], sep);
      assert [a[0]] + a[1..] == a;
    }
  }

  /** Joining and splitting are inverse on pieces free of the separator. */
  lemma {:induction false} SplitJoin(parts: seq<string>, sep: char)
    requires |parts| >= 1
    requires forall p :: p in parts ==> sep !in p
    ensures Split(Join(parts, sep), sep) == parts
    decreases |parts|
  {
    if |parts| == 1 {
      SplitWhole(parts[0], sep);
    } else {
      assert forall p :: p in parts[1..] ==> p in parts;
      SplitJoin(parts[1..], sep);
      SplitPrefix(parts[0], Join(parts[1..], sep), sep);
    }
  }

  /** `.map((s) => s.trim())` */
  function TrimAll(parts: seq<string>): (ts: seq<string>)
    ensures |ts| == |parts|
    ensures forall i :: 0 <= i < |parts| ==> ts[i] == Trim(parts[i])
  {
    seq(|parts|, i requires 0 <= i < |parts| => Trim(parts[i]))
  }

  /** `.filter(Boolean)`: the non-empty strings, in order. */
  function NonEmpty(xs: seq<string>): (ys: seq<string>)
    ensures |ys| <= |xs|
    ensures forall y :: y in ys <==> y in xs && y != ""
    decreases |xs|
  {
    if xs == [] then []
    else NonEmpty(xs[..|xs| - 1]) + (if xs[|xs| - 1] == "" then [] else [xs[|xs| - 1]])
  }

  /** Filtering a list without empty strings keeps it whole. */
  lemma {:induction false} NonEmptyKeeps(xs: seq<string>)
    requires forall x :: x in xs ==> x != ""
    ensures NonEmpty(xs) == xs
    decreases |xs|
  {
    if xs != [] {
      var init := xs[..|xs| - 1];
      forall x | x in init
        ensures x != ""
      {
        var k :| 0 <= k < |init| && init[k] == x;
        assert xs[k] == x && xs[k] in xs;
      }
      NonEmptyKeeps(init);
      assert xs[|xs| - 1] in xs;
    }
  }

  /** The value of `CORS_ORIGINS`, the empty string when it is unset. */
  function Setting(corsOrigins: Option<string>): string
  {
    match corsOrigins
    case None => ""
    case Some(v) => v
  }

  /** The allow-list: the comma-separated entries of `CORS_ORIGINS`, trimmed, empty entries dropped. */
  function AllowedOrigins(corsOrigins: Option<string>): (allowed: seq<string>)
    ensures forall o :: o in allowed ==> o != "" && ',' !in o && Trim(o) == o
  {
    var parts := Split(Setting(corsOrigins), ',');
    SplitPiecesClean(Setting(corsOrigins), ',');
    var allowed := NonEmpty(TrimAll(parts));
    assert forall o :: o in allowed ==> o != "" && ',' !in o && Trim(o) == o by {
      forall o | o in allowed
        ensures ',' !in o && Trim(o) == o
      {
        var i :| 0 <= i < |parts| && TrimAll(parts)[i] == o;
        TrimClean(o);
        TrimSubstring(parts[i], ',');
      }
    }
    allowed
  }

  /** The trim of a string is a slice of it, so it holds no character the string lacks. */
  lemma TrimSubstring(s: string, c: char)
    ensures c !in s ==> c !in Trim(s)
  {
    var r := s[LeadingSpace(s)..];
    if c in Trim(s) {
      var k :| 0 <= k < |Trim(s)| && Trim(s)[k] == c;
      assert s[LeadingSpace(s) + k] == c;
    }
  }

  /** An origin is allowed exactly when it is the non-empty trim of one of the comma-separated entries. */
  lemma AllowedOriginsMembers(corsOrigins: Option<string>, o: string)
    ensures o in AllowedOrigins(corsOrigins) <==>
      o != "" && exists p :: p in Split(Setting(corsOrigins), ',') && Trim(p) == o
  {
    var parts := Split(Setting(corsOrigins), ',');
    if o != "" && exists p :: p in parts && Trim(p) == o {
      var p :| p in parts && Trim(p) == o;
      var i :| 0 <= i < |parts| && parts[i] == p;
      assert TrimAll(parts)[i] == o;
    }
  }

  /** An unset or empty `CORS_ORIGINS` allows no origin. */
  lemma UnsetAllowsNothing(corsOrigins: Option<string>)
    requires corsOrigins == None || corsOrigins == Some("")
    ensures AllowedOrigins(corsOrigins) == []
  {
    assert Split("", ',') == [""];
    assert TrimAll([""]) == [""];
    assert NonEmpty([""]) == [];
  }

  /** A comma-joined list of clean origins is read back as exactly that list, in order. */
  lemma AllowedOriginsRoundTrip(origins: seq<string>)
    requires |origins| >= 1
    requires forall o :: o in origins ==> o != "" && ',' !in o && Trim(o) == o
    ensures AllowedOrigins(Some(Join(origins, ','))) == origins
  {
    var setting := Join(origins, ',');
    assert Setting(Some(setting)) == setting;
    SplitJoin(origins, ',');
    var trimmed := TrimAll(origins);
    forall i | 0 <= i < |origins|
      ensures trimmed[i] == origins[i]
    {
      assert origins[i] in origins;
    }
    assert trimmed == origins;
    NonEmptyKeeps(origins);
  }

  // ---------------------------------------------------------------------------------------------
  // The CORS headers

  const AllowOrigin := "Access-Control-Allow-Origin"
  const AllowMethods := "Access-Control-Allow-Methods"
  const AllowHeaders := "Access-Control-Allow-Headers"
  const VaryHeader := "Vary"
  const ContentType := "Content-Type"

  /** The `Access-Control-Allow-Origin` value: the request's origin when it is allowed, otherwise `*`. */
  function AllowedOrigin(corsOrigins: Option<string>, originHeader: Option<string>): (origin: string)
    ensures origin != "*" ==> originHeader == Some(origin) && origin in AllowedOrigins(corsOrigins)
    ensures originHeader.Some? && originHeader.value in AllowedOrigins(corsOrigins) ==> origin == originHeader.value
  {
    var allowed := AllowedOrigins(corsOrigins);
    if originHeader.Some? && originHeader.value != "" && originHeader.value in allowed
    then originHeader.value else "*"
  }

  /** `buildCorsHeaders(originHeader)` under the given `CORS_ORIGINS`. */
  function BuildCorsHeaders(corsOrigins: Option<string>, originHeader: Option<string>): (h: map<string, string>)
    ensures h.Keys == {AllowOrigin, AllowMethods, AllowHeaders, VaryHeader, ContentType}
    ensures h[AllowOrigin] == AllowedOrigin(corsOrigins, originHeader)
    ensures h[AllowMethods] == "GET, OPTIONS" && h[AllowHeaders] == "Content-Type"
    ensures h[VaryHeader] == "Origin" && h[ContentType] == "application/json"
  {
    map[AllowOrigin := AllowedOrigin(corsOrigins, originHeader), AllowMethods := "GET, OPTIONS",
        AllowHeaders := "Content-Type", VaryHeader := "Origin", ContentType := "application/json"]
  }

  /** With no allow-list every response carries the wildcard origin. */
  lemma UnsetIsWildcard(corsOrigins: Option<string>, originHeader: Option<string>)
    requires corsOrigins == None || corsOrigins == Some("")
    ensures BuildCorsHeaders(corsOrigins, originHeader)[AllowOrigin] == "*"
  {
    UnsetAllowsNothing(corsOrigins);
  }

  // ---------------------------------------------------------------------------------------------
  // The handler

  /** The parts of the API Gateway event the handler reads; a header without a value is a missing key. */
  datatype Event = Event(httpMethod: Option<string>, headers: Option<map<string, string>>)

  /** `event?.headers?.[name]` */
  function Header(event: Option<Event>, name: string): Option<string>
  {
    if event.Some? && event.value.headers.Some? && name in event.value.headers.value
    then Some(event.value.headers.value[name])
    else None
  }

  /** `event?.headers?.origin || event?.headers?.Origin`: a missing or empty `origin` defers to `Origin`. */
  function OriginOf(event: Option<Event>): (o: Option<string>)
    ensures o == Header(event, "origin") || o == Header(event, "Origin")
    ensures Header(event, "origin").Some? && Header(event, "origin") != Some("") ==> o == Header(event, "origin")
    ensures o == None ==> Header(event, "origin") == None || Header(event, "origin") == Some("")
  {
    var lower := Header(event, "origin");
    if lower.Some? && lower.value != "" then lower else Header(event, "Origin")
  }

  /** `event?.httpMethod === "OPTIONS"` */
  predicate IsPreflight(event: Option<Event>)
  {
    event.Some? && event.value.httpMethod == Some("OPTIONS")
  }

  /** A value thrown inside the handler's `try`: an `Error` with its message, or anything else. */
  datatype Thrown = ErrorObject(message: string) | OtherValue

  /** The response body, before serialisation. */
  datatype Body =
    | NoContent
    | Data(buildings: seq<Building>, rfPoints: seq<RFPoint>)
    | Failure(error: string, message: string)

  datatype Response = Response(statusCode: int, headers: map<string, string>, body: Body)

  /** The `message` of the 500 body. */
  function FailureMessage(thrown: Thrown): string
  {
    match thrown
    case ErrorObject(m) => m
    case OtherValue => "Unknown error"
  }

  /**
   * `handler(event)`. `fault` stands for a value thrown while generating or serialising the data
   * (the generators of this model never throw); every response carries the CORS headers for the
   * request's origin.
   */
  method Handler(event: Option<Event>, corsOrigins: Option<string>, draws: seq<real>, fault: Option<Thrown>)
    returns (response: Response)
    requires EnoughDraws(draws)
    ensures response.headers == BuildCorsHeaders(corsOrigins, OriginOf(event))
    ensures IsPreflight(event) ==> response.statusCode == 204 && response.body == NoContent
    ensures !IsPreflight(event) && fault.Some? ==>
      response.statusCode == 500 && response.body == Failure("Failed to generate RF data", FailureMessage(fault.value))
    ensures !IsPreflight(event) && fault == None ==>
      response.statusCode == 200
      && response.body == Data(CityLayout.CityLayoutSpec(draws), PointsOf(draws))
      && |response.body.rfPoints| == 600
  {
    var headers := BuildCorsHeaders(corsOrigins, OriginOf(event));
    if IsPreflight(event) {
      return Response(204, headers, NoContent);
    }
    var buildings, rfPoints := GenerateData(draws);
    if fault.Some? {
      return Response(500, headers, Failure("Failed to generate RF data", FailureMessage(fault.value)));
    }
    response := Response(200, headers, Data(buildings, rfPoints));
  }
}
