/** Service processing in the generator (src/services/data-generator.js): the service name
    heuristic, the stop sequences, the route geometries read from KML conversions or from
    patches, `processService` with its per-service failure isolation, `processServices`,
    and the final ordering of the route features. Services are visited in the order given;
    the `localeCompare` sort before the visit is left out. The files the generator reads
    and the polyline encoder are inputs (`Sources`). */
module GeneratorServices {
  import opened Common
  import opened GeoJson
  import opened LtaClient
  import opened DataFetcher
  import opened GeneratorStops
  import opened GeneratorGeometry

  /** A route feature: `{properties: {number, pattern}, geometry: LineString}`. */
  datatype RouteFeature = RouteFeature(number: string, pattern: nat, coordinates: seq<Position>)

  /** A `servicesJSON` entry. */
  datatype ServiceData = ServiceData(name: string, routes: seq<seq<string>>)

  /** What `processService` returns for a service it could process. */
  datatype Processed = Processed(number: string, serviceData: ServiceData, polylines: map<nat, string>, features: seq<RouteFeature>)

  /** The files read while processing services, each `None` when it cannot be read, and the
      polyline encoder (`simplify` then `polyline.encode`). */
  datatype Sources = Sources(
    readRoute: (string, string) -> Option<seq<RouteDirection>>,
    readGeometry: (string, string) -> Option<FeatureCollection>,
    readOm: string -> Option<OmPatch>,
    readCm: string -> Option<CmPatch>,
    encode: seq<Position> -> string)

  // ---------------------------------------------------------------------------
  // generateServiceName

  const LoopArrow: string := " \U{27F2} "
  const OneWayArrow: string := " \U{2192} "
  const BothWaysArrow: string := " \U{21C4} "

  /** The origins of a pair of routes: the first route's first stop, and the second
      route's last stop unless it is the same stop. */
  function Origins(r1: seq<string>, r2: seq<string>): (o: seq<string>)
    requires r1 != [] && r2 != []
    ensures o != [] && o[0] == r1[0] && (set s | s in o) == {r1[0], r2[|r2| - 1]}
    ensures forall i, j :: 0 <= i < j < |o| ==> o[i] != o[j]
  {
    if r1[0] == r2[|r2| - 1] then [r1[0]] else [r1[0], r2[|r2| - 1]]
  }

  /** The destinations of a pair of routes: the first route's last stop, and the second
      route's first stop unless it is the same stop. */
  function Destinations(r1: seq<string>, r2: seq<string>): (d: seq<string>)
    requires r1 != [] && r2 != []
    ensures d != [] && d[0] == r1[|r1| - 1] && (set s | s in d) == {r1[|r1| - 1], r2[0]}
    ensures forall i, j :: 0 <= i < j < |d| ==> d[i] != d[j]
  {
    if r2[0] == r1[|r1| - 1] then [r1[|r1| - 1]] else [r1[|r1| - 1], r2[0]]
  }

  predicate AllKnown(stops: seq<string>, stopsData: map<string, StopData>)
  {
    forall i :: 0 <= i < |stops| ==> stops[i] in stopsData
  }

  function Names(stops: seq<string>, stopsData: map<string, StopData>): seq<string>
    requires AllKnown(stops, stopsData)
  {
    seq(|stops|, i requires 0 <= i < |stops| => stopsData[stops[i]].name)
  }

  /** `generateServiceName`; `None` when it throws: no route, a single route with fewer
      than two stops, a first or second route without stops, or a named stop missing from
      `stopsData`. */
  function GenerateServiceName(routes: seq<seq<string>>, stopsData: map<string, StopData>): (r: Option<string>)
    ensures r.Some? ==> routes != [] && |routes[0]| >= 1 && routes[0][0] in stopsData
    ensures r.Some? ==> |routes| == 1 || |routes[1]| >= 1
  {
    if |routes| == 1 then
      var route := routes[0];
      if |route| < 2 then None
      else
        var first := route[0];
        var rest := route[1..];
        var last := rest[|rest| - 1];
        if first == last then
          var mid := rest[(|rest| - 1) / 2];
          if first in stopsData && mid in stopsData then Some(stopsData[first].name + LoopArrow + stopsData[mid].name) else None
        else if first in stopsData && last in stopsData then Some(stopsData[first].name + OneWayArrow + stopsData[last].name)
        else None
    else if |routes| == 0 || routes[0] == [] || routes[1] == [] then None
    else
      var origins := Origins(routes[0], routes[1]);
      var destinations := Destinations(routes[0], routes[1]);
      if AllKnown(origins, stopsData) && AllKnown(destinations, stopsData) then
        var o := Join(Names(origins, stopsData), " / ");
        var d := Join(Names(destinations, stopsData), " / ");
        Some(if o == d then o else o + BothWaysArrow + d)
      else None
  }

  /** A single loop route is named after its first stop and the stop halfway along it:
      index `|route| / 2`, that is `floor((|rest| - 1) / 2)` in the stops after the first. */
  lemma LoopServiceName(route: seq<string>, stopsData: map<string, StopData>)
    requires |route| >= 2 && route[0] == route[|route| - 1] && AllKnown(route, stopsData)
    ensures GenerateServiceName([route], stopsData) ==
            Some(stopsData[route[0]].name + LoopArrow + stopsData[route[|route| / 2]].name)
  {
    var rest := route[1..];
    assert rest[(|rest| - 1) / 2] == route[|route| / 2];
  }

  /** `[S1, S2, S3, S4, S1]` is named after S1 and S3. */
  lemma LoopServiceNameExample(s1: string, s2: string, s3: string, s4: string, stopsData: map<string, StopData>)
    requires s1 in stopsData && s2 in stopsData && s3 in stopsData && s4 in stopsData
    ensures GenerateServiceName([[s1, s2, s3, s4, s1]], stopsData) ==
            Some(stopsData[s1].name + LoopArrow + stopsData[s3].name)
  {
    LoopServiceName([s1, s2, s3, s4, s1], stopsData);
  }

  /** A single route between two different stops is named after both ends. */
  lemma OneWayServiceName(route: seq<string>, stopsData: map<string, StopData>)
    requires |route| >= 2 && route[0] != route[|route| - 1] && AllKnown(route, stopsData)
    ensures GenerateServiceName([route], stopsData) ==
            Some(stopsData[route[0]].name + OneWayArrow + stopsData[route[|route| - 1]].name)
  {
    assert route[1..][|route| - 2] == route[|route| - 1];
  }

  /** Two routes that run between the same two stops in opposite directions are named
      after those two stops, or after the first alone when both names are the same. */
  lemma ReturnTripServiceName(r1: seq<string>, r2: seq<string>, rest: seq<seq<string>>, stopsData: map<string, StopData>)
    requires r1 != [] && r2 != [] && r1[0] == r2[|r2| - 1] && r2[0] == r1[|r1| - 1]
    requires AllKnown(r1, stopsData) && AllKnown(r2, stopsData)
    ensures var a := stopsData[r1[0]].name;
            var b := stopsData[r1[|r1| - 1]].name;
            GenerateServiceName([r1, r2] + rest, stopsData) == Some(if a == b then a else a + BothWaysArrow + b)
  {
    var routes := [r1, r2] + rest;
    assert routes[0] == r1 && routes[1] == r2;
    assert Origins(r1, r2) == [r1[0]];
    assert Destinations(r1, r2) == [r1[|r1| - 1]];
  }

  /** Two or more routes are named after their origins and destinations: the first route's
      first stop, joined with the second route's last stop when that is another stop, and
      the first route's last stop, joined with the second route's first stop when that is
      another stop; the two sides are joined by an arrow unless they read the same. */
  lemma TwoRouteServiceName(r1: seq<string>, r2: seq<string>, rest: seq<seq<string>>, stopsData: map<string, StopData>)
    requires r1 != [] && r2 != []
    requires r1[0] in stopsData && r1[|r1| - 1] in stopsData && r2[0] in stopsData && r2[|r2| - 1] in stopsData
    ensures var o := if r1[0] == r2[|r2| - 1] then stopsData[r1[0]].name
                     else stopsData[r1[0]].name + " / " + stopsData[r2[|r2| - 1]].name;
            var d := if r2[0] == r1[|r1| - 1] then stopsData[r1[|r1| - 1]].name
                     else stopsData[r1[|r1| - 1]].name + " / " + stopsData[r2[0]].name;
            GenerateServiceName([r1, r2] + rest, stopsData) == Some(if o == d then o else o + BothWaysArrow + d)
  {
    var routes := [r1, r2] + rest;
    assert routes[0] == r1 && routes[1] == r2;
    var origins := Origins(r1, r2);
    var destinations := Destinations(r1, r2);
    if r1[0] == r2[|r2| - 1] {
      assert Names(origins, stopsData) == [stopsData[r1[0]].name];
    } else {
      assert Names(origins, stopsData) == [stopsData[r1[0]].name, stopsData[r2[|r2| - 1]].name];
      JoinCons(stopsData[r1[0]].name, [stopsData[r2[|r2| - 1]].name], " / ");
    }
    if r2[0] == r1[|r1| - 1] {
      assert Names(destinations, stopsData) == [stopsData[r1[|r1| - 1]].name];
    } else {
      assert Names(destinations, stopsData) == [stopsData[r1[|r1| - 1]].name, stopsData[r2[0]].name];
      JoinCons(stopsData[r1[|r1| - 1]].name, [stopsData[r2[0]].name], " / ");
    }
  }

  /** The origins `[A]` and destinations `[B, C]` of routes `A..B` and `C..A`. */
  lemma AsymmetricServiceName(a: string, b: string, c: string, stopsData: map<string, StopData>)
    requires a in stopsData && b in stopsData && c in stopsData
    requires a != b && a != c && b != c
    ensures GenerateServiceName([[a, b], [c, a]], stopsData) ==
      var o := stopsData[a].name;
      var d := stopsData[b].name + " / " + stopsData[c].name;
      Some(if o == d then o else o + BothWaysArrow + d)
  {
    TwoRouteServiceName([a, b], [c, a], [], stopsData);
    assert [[a, b], [c, a]] + [] == [[a, b], [c, a]];
  }

  /** When every stop is known, naming fails exactly for no route, a lone route of fewer
      than two stops, or an empty first or second route. */
  lemma ServiceNameFails(routes: seq<seq<string>>, stopsData: map<string, StopData>)
    requires forall i :: 0 <= i < |routes| ==> AllKnown(routes[i], stopsData)
    ensures GenerateServiceName(routes, stopsData).None? <==>
      |routes| == 0 || (|routes| == 1 && |routes[0]| < 2) || (|routes| >= 2 && (routes[0] == [] || routes[1] == []))
  {
    if |routes| == 1 && |routes[0]| >= 2 {
      var route := routes[0];
      var rest := route[1..];
      assert rest[(|rest| - 1) / 2] == route[(|rest| - 1) / 2 + 1];
      assert rest[|rest| - 1] == route[|route| - 1];
    } else if |routes| >= 2 && routes[0] != [] && routes[1] != [] {
      var r1, r2 := routes[0], routes[1];
      assert r1[|r1| - 1] in stopsData && r2[|r2| - 1] in stopsData;
    }
  }

  // ---------------------------------------------------------------------------
  // Stop sequences

  predicate HasStops(p: RouteDirection)
  {
    |p.stops| > 0
  }

  /** The stops of each pattern that are in `stopsData`, in order. */
  function KnownStops(route: seq<RouteDirection>, stopsData: map<string, StopData>): (r: seq<seq<string>>)
    ensures |r| == |route|
    ensures forall i :: 0 <= i < |route| ==> r[i] == Filter(route[i].stops, s => s in stopsData)
  {
    Map(route, (p: RouteDirection) => Filter(p.stops, s => s in stopsData))
  }

  /** The cleaned stop sequences keep, in order, exactly the stops of the non-empty patterns
      that are in `stopsData`. */
  lemma KnownStopsCleaned(file: seq<RouteDirection>, stopsData: map<string, StopData>, i: nat)
    requires i < |Filter(file, HasStops)|
    ensures var route := Filter(file, HasStops);
      var r := KnownStops(route, stopsData)[i];
      && route[i] in file && HasStops(route[i])
      && IsSubsequence(r, route[i].stops)
      && AllKnown(r, stopsData)
      && forall s :: s in route[i].stops && s in stopsData ==> s in r
  {
    var route := Filter(file, HasStops);
    var p := route[i];
    assert p in route;
    var r := Filter(p.stops, s => s in stopsData);
    forall j | 0 <= j < |r| ensures r[j] in stopsData {
      assert r[j] in r;
    }
    FilterIsSubsequence(p.stops, s => s in stopsData);
    forall s | s in p.stops && s in stopsData ensures s in Filter(p.stops, s => s in stopsData) {
      FilterKeeps(p.stops, s => s in stopsData, s);
    }
  }

  // ---------------------------------------------------------------------------
  // Geometries

  /** The coordinates read for a KML file: the first feature of the converted GeoJSON
      named after the file; `None` when the file cannot be read, has no feature, or its
      geometry cannot be read. */
  function KmlCoordinates(serviceType: string, fileName: string, src: Sources): Option<seq<Position>>
  {
    match src.readGeometry(serviceType, BaseName(fileName))
    case None => None
    case Some(fc) => if fc.features == [] then None else ExtractCoordinates(fc.features[0].geometry)
  }

  /** The features for the first `n` patterns, given what each pattern yields: one
      feature per pattern that yields coordinates, with the pattern's index. */
  function Features(number: string, at: nat -> Option<seq<Position>>, n: nat): seq<RouteFeature>
  {
    if n == 0 then []
    else
      Features(number, at, n - 1) +
      (match at(n - 1)
       case None => []
       case Some(c) => [RouteFeature(number, n - 1, c)])
  }

  /** What each KML file yields. */
  function KmlAt(serviceType: string, kmlFiles: seq<string>, src: Sources): nat -> Option<seq<Position>>
  {
    (i: nat) => if i < |kmlFiles| then KmlCoordinates(serviceType, kmlFiles[i], src) else None
  }

  /** What each pattern of a faulty service yields: the vertices of the first patch
      pattern that starts at its first stop. */
  function PatchedAt(route: seq<RouteDirection>, patterns: seq<PatchPattern>): nat -> Option<seq<Position>>
  {
    (i: nat) => if i < |route| then PatchedCoordinates(patterns, route[i].stops) else None
  }

  function PatchedCoordinates(patterns: seq<PatchPattern>, stops: seq<string>): Option<seq<Position>>
  {
    match FindPattern(patterns, stops)
    case None => None
    case Some(p) => Some(p.coordinates)
  }

  /** `polylines[pattern] = encode(coordinates)` for each feature in turn. */
  function Polylines(features: seq<RouteFeature>, encode: seq<Position> -> string): map<nat, string>
  {
    if features == [] then map[]
    else
      var f := features[|features| - 1];
      Polylines(features[..|features| - 1], encode)[f.pattern := encode(f.coordinates)]
  }

  /** The features of a faulty service: none when no patch can be loaded. */
  function PatchedGeometries(number: string, route: seq<RouteDirection>, src: Sources): seq<RouteFeature>
  {
    match LoadPatchPatterns(src.readOm(number), src.readCm(number))
    case None => []
    case Some(patterns) => Features(number, PatchedAt(route, patterns), |route|)
  }

  /** The features of `processServiceGeometries`. */
  function ServiceGeometries(number: string, serviceType: string, kmlFiles: seq<string>, route: seq<RouteDirection>,
                             faultyRoutes: seq<string>, src: Sources): seq<RouteFeature>
  {
    if number in faultyRoutes then PatchedGeometries(number, route, src)
    else Features(number, KmlAt(serviceType, kmlFiles, src), |kmlFiles|)
  }

  /** The coordinates of a KML file, read as the loop body does. */
  method ReadKmlCoordinates(serviceType: string, fileName: string, src: Sources) returns (r: Option<seq<Position>>)
    ensures r == KmlCoordinates(serviceType, fileName, src)
  {
    var geojson := src.readGeometry(serviceType, BaseName(fileName));
    if geojson.None? || geojson.value.features == [] {
      return None;
    }
    r := ExtractCoordinatesFromFeature(geojson.value.features[0]);
  }

  /** The body shared by both geometry loops: when pattern `i` yields coordinates, record
      its polyline and push its feature. */
  method AddFeature(number: string, at: nat -> Option<seq<Position>>, i: nat, coordinates: Option<seq<Position>>,
                    encode: seq<Position> -> string, polylines: map<nat, string>, features: seq<RouteFeature>)
    returns (polylines': map<nat, string>, features': seq<RouteFeature>)
    requires at(i) == coordinates
    requires features == Features(number, at, i) && polylines == Polylines(features, encode)
    ensures features' == Features(number, at, i + 1) && polylines' == Polylines(features', encode)
  {
    polylines', features' := polylines, features;
    if coordinates.Some? {
      var f := RouteFeature(number, i, coordinates.value);
      assert (features + [f])[..|features|] == features;
      polylines' := polylines[i := encode(coordinates.value)];
      features' := features + [f];
    }
  }

  /** `processServiceGeometries`: patched geometries for a faulty service, otherwise one
      `try` per KML file, skipping the files that fail. */
  method ProcessServiceGeometries(number: string, serviceType: string, kmlFiles: seq<string>, route: seq<RouteDirection>,
                                  faultyRoutes: seq<string>, src: Sources)
    returns (polylines: map<nat, string>, features: seq<RouteFeature>)
    ensures features == ServiceGeometries(number, serviceType, kmlFiles, route, faultyRoutes, src)
    ensures polylines == Polylines(features, src.encode)
  {
    if number in faultyRoutes {
      polylines, features := ProcessPatchedGeometries(number, route, src);
      return;
    }
    var at := KmlAt(serviceType, kmlFiles, src);
    polylines, features := map[], [];
    var i := 0;
    while i < |kmlFiles|
      invariant 0 <= i <= |kmlFiles|
      invariant features == Features(number, at, i)
      invariant polylines == Polylines(features, src.encode)
    {
      var coordinates := ReadKmlCoordinates(serviceType, kmlFiles[i], src);
      polylines, features := AddFeature(number, at, i, coordinates, src.encode, polylines, features);
      i := i + 1;
    }
  }

  /** `processPatchedGeometries`: every pattern takes the first patch pattern that starts at
      its first stop; no patterns at all when none can be loaded. */
  method ProcessPatchedGeometries(number: string, route: seq<RouteDirection>, src: Sources)
    returns (polylines: map<nat, string>, features: seq<RouteFeature>)
    ensures features == PatchedGeometries(number, route, src)
    ensures polylines == Polylines(features, src.encode)
  {
    polylines, features := map[], [];
    var patterns := LoadPatchPatterns(src.readOm(number), src.readCm(number));
    if patterns.None? {
      return;
    }
    var at := PatchedAt(route, patterns.value);
    var i := 0;
    while i < |route|
      invariant 0 <= i <= |route|
      invariant features == Features(number, at, i)
      invariant polylines == Polylines(features, src.encode)
    {
      var coordinates := PatchedCoordinates(patterns.value, route[i].stops);
      polylines, features := AddFeature(number, at, i, coordinates, src.encode, polylines, features);
      i := i + 1;
    }
  }

  /** A feature exists for exactly the patterns that yield coordinates, carries them, and
      is numbered by the pattern's position. */
  lemma {:induction false} FeaturesMembers(number: string, at: nat -> Option<seq<Position>>, n: nat, f: RouteFeature)
    ensures f in Features(number, at, n) <==> f.number == number && f.pattern < n && at(f.pattern) == Some(f.coordinates)
  {
    if n > 0 {
      FeaturesMembers(number, at, n - 1, f);
    }
  }

  predicate IncreasingPatterns(features: seq<RouteFeature>)
  {
    forall i, j :: 0 <= i < j < |features| ==> features[i].pattern < features[j].pattern
  }

  /** The features come in increasing pattern order, all below `n`. */
  lemma {:induction false} FeaturesOrdered(number: string, at: nat -> Option<seq<Position>>, n: nat)
    ensures var fs := Features(number, at, n);
      IncreasingPatterns(fs) && forall f :: f in fs ==> f.pattern < n
  {
    if n > 0 {
      FeaturesOrdered(number, at, n - 1);
    }
  }

  /** A KML feature exists for exactly the files whose coordinates can be read, and a
      patched feature for exactly the patterns whose first stop starts a patch pattern. */
  lemma ServiceGeometriesMembers(number: string, serviceType: string, kmlFiles: seq<string>,
                                 route: seq<RouteDirection>, faultyRoutes: seq<string>, src: Sources, f: RouteFeature)
    ensures var fs := ServiceGeometries(number, serviceType, kmlFiles, route, faultyRoutes, src);
      if number !in faultyRoutes then
        f in fs <==> f.number == number && f.pattern < |kmlFiles| &&
                     KmlCoordinates(serviceType, kmlFiles[f.pattern], src) == Some(f.coordinates)
      else match LoadPatchPatterns(src.readOm(number), src.readCm(number))
        case None => fs == []
        case Some(patterns) =>
          f in fs <==> f.number == number && f.pattern < |route| &&
                       FindPattern(patterns, route[f.pattern].stops).Some? &&
                       FindPattern(patterns, route[f.pattern].stops).value.coordinates == f.coordinates
  {
    if number !in faultyRoutes {
      FeaturesMembers(number, KmlAt(serviceType, kmlFiles, src), |kmlFiles|, f);
    } else {
      var patterns := LoadPatchPatterns(src.readOm(number), src.readCm(number));
      if patterns.Some? {
        FeaturesMembers(number, PatchedAt(route, patterns.value), |route|, f);
      }
    }
  }

  /** The features of a service come in increasing pattern order and all carry the
      service number. */
  lemma ServiceGeometriesOrdered(number: string, serviceType: string, kmlFiles: seq<string>,
                                 route: seq<RouteDirection>, faultyRoutes: seq<string>, src: Sources)
    ensures var fs := ServiceGeometries(number, serviceType, kmlFiles, route, faultyRoutes, src);
      IncreasingPatterns(fs) && forall f :: f in fs ==> f.number == number
  {
    var fs := ServiceGeometries(number, serviceType, kmlFiles, route, faultyRoutes, src);
    var at := if number in faultyRoutes then
                match LoadPatchPatterns(src.readOm(number), src.readCm(number))
                case None => (i: nat) => None
                case Some(patterns) => PatchedAt(route, patterns)
              else KmlAt(serviceType, kmlFiles, src);
    var n := if number in faultyRoutes then |route| else |kmlFiles|;
    if number in faultyRoutes && LoadPatchPatterns(src.readOm(number), src.readCm(number)).None? {
      assert fs == [];
    } else {
      assert fs == Features(number, at, n);
      FeaturesOrdered(number, at, n);
      forall f | f in fs ensures f.number == number {
        FeaturesMembers(number, at, n, f);
      }
    }
  }

  /** Each pattern with a feature has that feature's encoded vertices as its polyline, and
      no other pattern has one. */
  lemma PolylinesOfFeatures(features: seq<RouteFeature>, encode: seq<Position> -> string, k: nat)
    requires IncreasingPatterns(features)
    ensures k in Polylines(features, encode) <==> exists f :: f in features && f.pattern == k
    ensures forall f :: f in features && f.pattern == k ==> Polylines(features, encode)[k] == encode(f.coordinates)
  {
    PolylinesKeys(features, encode, k);
    forall f | f in features && f.pattern == k
      ensures Polylines(features, encode)[k] == encode(f.coordinates)
    {
      PolylineValue(features, encode, f);
    }
  }

  /** A pattern has a polyline exactly when some feature has that pattern. */
  lemma {:induction false} PolylinesKeys(features: seq<RouteFeature>, encode: seq<Position> -> string, k: nat)
    ensures k in Polylines(features, encode) <==> exists f :: f in features && f.pattern == k
  {
    if features != [] {
      var init := features[..|features| - 1];
      var last := features[|features| - 1];
      assert Polylines(features, encode) == Polylines(init, encode)[last.pattern := encode(last.coordinates)];
      PolylinesKeys(init, encode, k);
      assert features == init + [last];
      assert forall f :: f in features <==> f in init || f == last;
    }
  }

  /** With patterns increasing, a feature's polyline is the encoding of its own coordinates. */
  lemma {:induction false} PolylineValue(features: seq<RouteFeature>, encode: seq<Position> -> string, f: RouteFeature)
    requires IncreasingPatterns(features) && f in features
    ensures f.pattern in Polylines(features, encode)
    ensures Polylines(features, encode)[f.pattern] == encode(f.coordinates)
  {
    var init := features[..|features| - 1];
    var last := features[|features| - 1];
    assert Polylines(features, encode) == Polylines(init, encode)[last.pattern := encode(last.coordinates)];
    if f != last {
      var i :| 0 <= i < |features| && features[i] == f;
      assert i < |init| && init[i] == f;
      PolylineValue(init, encode, f);
    }
  }

  // ---------------------------------------------------------------------------
  // processService

  /** `processService`; `None` when it throws: the route file cannot be read or the
      service cannot be named. */
  function ServiceResult(service: BusService, stopsData: map<string, StopData>, faultyRoutes: seq<string>, src: Sources): Option<Processed>
  {
    match src.readRoute(service.serviceType, service.number)
    case None => None
    case Some(file) =>
      var route := Filter(file, HasStops);
      var stopsRoutes := KnownStops(route, stopsData);
      match GenerateServiceName(stopsRoutes, stopsData)
      case None => None
      case Some(name) =>
        var features := ServiceGeometries(service.number, service.serviceType, service.kmlFile, route, faultyRoutes, src);
        Some(Processed(service.number, ServiceData(name, stopsRoutes), Polylines(features, src.encode), features))
  }

  method ProcessService(service: BusService, stopsData: map<string, StopData>, faultyRoutes: seq<string>, src: Sources)
    returns (r: Option<Processed>)
    ensures r == ServiceResult(service, stopsData, faultyRoutes, src)
  {
    var file := src.readRoute(service.serviceType, service.number);
    if file.None? {
      return None;
    }
    var route := Filter(file.value, HasStops);
    var stopsRoutes := KnownStops(route, stopsData);
    var name := GenerateServiceName(stopsRoutes, stopsData);
    if name.None? {
      return None;
    }
    var polylines, features := ProcessServiceGeometries(service.number, service.serviceType, service.kmlFile, route, faultyRoutes, src);
    r := Some(Processed(service.number, ServiceData(name.value, stopsRoutes), polylines, features));
  }

  /** A processed service is named, its routes are its cleaned stop sequences, and its
      features carry its number and match its polylines. */
  lemma ServiceResultShape(service: BusService, stopsData: map<string, StopData>, faultyRoutes: seq<string>, src: Sources)
    requires ServiceResult(service, stopsData, faultyRoutes, src).Some?
    ensures var p := ServiceResult(service, stopsData, faultyRoutes, src).value;
      && src.readRoute(service.serviceType, service.number).Some?
      && p.number == service.number
      && p.serviceData.routes == KnownStops(Filter(src.readRoute(service.serviceType, service.number).value, HasStops), stopsData)
      && Some(p.serviceData.name) == GenerateServiceName(p.serviceData.routes, stopsData)
      && IncreasingPatterns(p.features)
      && (forall f :: f in p.features ==> f.number == service.number)
      && (forall f :: f in p.features ==> f.pattern in p.polylines && p.polylines[f.pattern] == src.encode(f.coordinates))
  {
    var p := ServiceResult(service, stopsData, faultyRoutes, src).value;
    var route := Filter(src.readRoute(service.serviceType, service.number).value, HasStops);
    ServiceGeometriesOrdered(service.number, service.serviceType, service.kmlFile, route, faultyRoutes, src);
    forall f | f in p.features ensures f.pattern in p.polylines && p.polylines[f.pattern] == src.encode(f.coordinates) {
      PolylinesOfFeatures(p.features, src.encode, f.pattern);
    }
  }

  // ---------------------------------------------------------------------------
  // processServices

  /** The services `processServices` visits: not withdrawn, of a generated type, and not
      listed as missing. */
  predicate Eligible(s: BusService, missingServices: seq<string>)
  {
    !Skipped(s) && s.number !in missingServices
  }

  /** What visiting one service yields: `None` for a service that is not eligible or whose
      processing fails. */
  function ServiceOutcome(stopsData: map<string, StopData>, missingServices: seq<string>, faultyRoutes: seq<string>,
                          src: Sources): BusService -> Option<Processed>
  {
    s => if Eligible(s, missingServices) then ServiceResult(s, stopsData, faultyRoutes, src) else None
  }

  /** The three outputs of `processServices` before the features are sorted. */
  datatype Tables = Tables(servicesJSON: map<string, ServiceData>, routesPolylines: map<string, map<nat, string>>,
                           routesFeatures: seq<RouteFeature>)

  /** The tables after visiting `services` in order: each processed service sets its entry
      in both maps and appends its features. */
  function Visit(services: seq<BusService>, outcome: BusService -> Option<Processed>): Tables
  {
    if services == [] then Tables(map[], map[], [])
    else
      var t := Visit(services[..|services| - 1], outcome);
      match outcome(services[|services| - 1])
      case None => t
      case Some(p) => Tables(t.servicesJSON[p.number := p.serviceData], t.routesPolylines[p.number := p.polylines],
                             t.routesFeatures + p.features)
  }

  /** `processServices`: visits the services one by one, isolating the failure of each, then
      sorts the route features by service number (`le` is the order `localeCompare` puts
      on numbers) and pattern. */
  method ProcessServices(services: seq<BusService>, stopsData: map<string, StopData>, missingServices: seq<string>,
                         faultyRoutes: seq<string>, src: Sources, le: (string, string) -> bool)
    returns (servicesJSON: map<string, ServiceData>, routesPolylines: map<string, map<nat, string>>,
             routesFeatures: seq<RouteFeature>)
    ensures var t := Visit(services, ServiceOutcome(stopsData, missingServices, faultyRoutes, src));
      && servicesJSON == t.servicesJSON
      && routesPolylines == t.routesPolylines
      && routesFeatures == SortFeatures(t.routesFeatures, le)
  {
    var outcome := ServiceOutcome(stopsData, missingServices, faultyRoutes, src);
    servicesJSON, routesPolylines, routesFeatures := map[], map[], [];
    var i := 0;
    while i < |services|
      invariant 0 <= i <= |services|
      invariant Tables(servicesJSON, routesPolylines, routesFeatures) == Visit(services[..i], outcome)
    {
      var service := services[i];
      assert services[..i + 1][..i] == services[..i];
      if Eligible(service, missingServices) {
        var processed := ProcessService(service, stopsData, faultyRoutes, src);
        if processed.Some? {
          var p := processed.value;
          servicesJSON := servicesJSON[p.number := p.serviceData];
          routesPolylines := routesPolylines[p.number := p.polylines];
          routesFeatures := routesFeatures + p.features;
        }
      }
      i := i + 1;
    }
    assert services[..i] == services;
    routesFeatures := SortFeatures(routesFeatures, le);
  }

  /** A number is in `servicesJSON` exactly when some service with that number was
      processed, and `routesPolylines` has the same numbers. */
  lemma {:induction false} VisitKeys(services: seq<BusService>, outcome: BusService -> Option<Processed>, k: string)
    ensures var t := Visit(services, outcome);
      && (k in t.servicesJSON <==> exists i :: 0 <= i < |services| && outcome(services[i]).Some? && outcome(services[i]).value.number == k)
      && (k in t.routesPolylines <==> k in t.servicesJSON)
  {
    if services != [] {
      var init := services[..|services| - 1];
      VisitKeys(init, outcome, k);
      if exists i :: 0 <= i < |init| && outcome(init[i]).Some? && outcome(init[i]).value.number == k {
        var i :| 0 <= i < |init| && outcome(init[i]).Some? && outcome(init[i]).value.number == k;
        assert services[i] == init[i];
      }
      if exists i :: 0 <= i < |services| && outcome(services[i]).Some? && outcome(services[i]).value.number == k {
        var i :| 0 <= i < |services| && outcome(services[i]).Some? && outcome(services[i]).value.number == k;
        if i < |init| {
          assert init[i] == services[i];
        }
      }
    }
  }

  /** The route features are exactly the features of the processed services. */
  lemma {:induction false} VisitFeatures(services: seq<BusService>, outcome: BusService -> Option<Processed>, f: RouteFeature)
    ensures f in Visit(services, outcome).routesFeatures <==>
      exists i :: 0 <= i < |services| && outcome(services[i]).Some? && f in outcome(services[i]).value.features
  {
    if services != [] {
      var init := services[..|services| - 1];
      VisitFeatures(init, outcome, f);
      if exists i :: 0 <= i < |init| && outcome(init[i]).Some? && f in outcome(init[i]).value.features {
        var i :| 0 <= i < |init| && outcome(init[i]).Some? && f in outcome(init[i]).value.features;
        assert services[i] == init[i];
      }
      if exists i :: 0 <= i < |services| && outcome(services[i]).Some? && f in outcome(services[i]).value.features {
        var i :| 0 <= i < |services| && outcome(services[i]).Some? && f in outcome(services[i]).value.features;
        if i < |init| {
          assert init[i] == services[i];
        }
      }
    }
  }

  /** A service that is skipped or fails leaves no trace: the tables are those of the
      other services. */
  lemma {:induction false} VisitIsolatesFailure(a: seq<BusService>, s: BusService, b: seq<BusService>,
                                               outcome: BusService -> Option<Processed>)
    requires outcome(s).None?
    ensures Visit(a + [s] + b, outcome) == Visit(a + b, outcome)
  {
    if b == [] {
      assert (a + [s])[..|a|] == a;
      assert a + [s] + b == a + [s];
      assert a + b == a;
    } else {
      var init := b[..|b| - 1];
      VisitIsolatesFailure(a, s, init, outcome);
      assert (a + [s] + b)[..|a + [s] + b| - 1] == a + [s] + init;
      assert (a + b)[..|a + b| - 1] == a + init;
    }
  }

  /** A processed service carries its own number, and its features carry it too. */
  lemma ServiceOutcomeNumbers(stopsData: map<string, StopData>, missingServices: seq<string>, faultyRoutes: seq<string>,
                              src: Sources, s: BusService)
    requires ServiceOutcome(stopsData, missingServices, faultyRoutes, src)(s).Some?
    ensures var p := ServiceOutcome(stopsData, missingServices, faultyRoutes, src)(s).value;
      Eligible(s, missingServices) && p.number == s.number && forall f :: f in p.features ==> f.number == s.number
  {
    ServiceResultShape(s, stopsData, faultyRoutes, src);
  }

  /** Every route feature belongs to a service listed in `servicesJSON`, and only eligible
      services appear there. */
  lemma ProcessedFeaturesListed(services: seq<BusService>, stopsData: map<string, StopData>, missingServices: seq<string>,
                                faultyRoutes: seq<string>, src: Sources)
    ensures var t := Visit(services, ServiceOutcome(stopsData, missingServices, faultyRoutes, src));
      && (forall f :: f in t.routesFeatures ==> f.number in t.servicesJSON)
      && (forall k :: k in t.servicesJSON ==>
            exists i :: 0 <= i < |services| && services[i].number == k && Eligible(services[i], missingServices))
  {
    var outcome := ServiceOutcome(stopsData, missingServices, faultyRoutes, src);
    var t := Visit(services, outcome);
    forall f | f in t.routesFeatures ensures f.number in t.servicesJSON {
      VisitFeatures(services, outcome, f);
      var i :| 0 <= i < |services| && outcome(services[i]).Some? && f in outcome(services[i]).value.features;
      ServiceOutcomeNumbers(stopsData, missingServices, faultyRoutes, src, services[i]);
      VisitKeys(services, outcome, f.number);
    }
    forall k | k in t.servicesJSON
      ensures exists i :: 0 <= i < |services| && services[i].number == k && Eligible(services[i], missingServices)
    {
      VisitKeys(services, outcome, k);
      var i :| 0 <= i < |services| && outcome(services[i]).Some? && outcome(services[i]).value.number == k;
      ServiceOutcomeNumbers(stopsData, missingServices, faultyRoutes, src, services[i]);
    }
  }

  // ---------------------------------------------------------------------------
  // The route feature order

  /** What `localeCompare` is taken to be: a total preorder on service numbers. */
  ghost predicate TotalPreorder(le: (string, string) -> bool)
  {
    && (forall a, b :: le(a, b) || le(b, a))
    && (forall a, b, c :: le(a, b) && le(b, c) ==> le(a, c))
  }

  /** The comparator of the feature sort: by number, then by pattern. */
  predicate FeatureLe(le: (string, string) -> bool, f: RouteFeature, g: RouteFeature)
  {
    if le(f.number, g.number) && le(g.number, f.number) then f.pattern <= g.pattern else le(f.number, g.number)
  }

  predicate SortedBy(le: (string, string) -> bool, s: seq<RouteFeature>)
  {
    forall i, j :: 0 <= i < j < |s| ==> FeatureLe(le, s[i], s[j])
  }

  /** Puts `x` after the features of `sorted` that do not follow it. */
  function Insert(sorted: seq<RouteFeature>, x: RouteFeature, le: (string, string) -> bool): seq<RouteFeature>
  {
    if sorted == [] || FeatureLe(le, sorted[|sorted| - 1], x) then sorted + [x]
    else Insert(sorted[..|sorted| - 1], x, le) + [sorted[|sorted| - 1]]
  }

  /** The sorted feature list (a stable insertion sort stands for `Array.prototype.sort`). */
  function SortFeatures(s: seq<RouteFeature>, le: (string, string) -> bool): seq<RouteFeature>
  {
    if s == [] then [] else Insert(SortFeatures(s[..|s| - 1], le), s[|s| - 1], le)
  }

  lemma FeatureLeTotal(le: (string, string) -> bool, f: RouteFeature, g: RouteFeature)
    requires TotalPreorder(le)
    ensures FeatureLe(le, f, g) || FeatureLe(le, g, f)
  {
    assert le(f.number, g.number) || le(g.number, f.number);
  }

  lemma FeatureLeTransitive(le: (string, string) -> bool, f: RouteFeature, g: RouteFeature, h: RouteFeature)
    requires TotalPreorder(le) && FeatureLe(le, f, g) && FeatureLe(le, g, h)
    ensures FeatureLe(le, f, h)
  {
    assert le(f.number, g.number) && le(g.number, h.number);
    assert le(f.number, h.number);
    if le(h.number, f.number) {
      assert le(h.number, g.number) && le(g.number, f.number);
    }
  }

  lemma {:induction false} InsertPermutes(sorted: seq<RouteFeature>, x: RouteFeature, le: (string, string) -> bool)
    ensures multiset(Insert(sorted, x, le)) == multiset(sorted) + multiset{x}
  {
    if !(sorted == [] || FeatureLe(le, sorted[|sorted| - 1], x)) {
      var init := sorted[..|sorted| - 1];
      assert sorted == init + [sorted[|sorted| - 1]];
      InsertPermutes(init, x, le);
    }
  }

  /** Appending a feature that follows every element keeps a list sorted. */
  lemma SortedSnoc(le: (string, string) -> bool, s: seq<RouteFeature>, x: RouteFeature)
    requires SortedBy(le, s) && forall y :: y in s ==> FeatureLe(le, y, x)
    ensures SortedBy(le, s + [x])
  {
    var r := s + [x];
    forall i, j | 0 <= i < j < |r| ensures FeatureLe(le, r[i], r[j]) {
      if j == |s| {
        assert r[i] == s[i];
      }
    }
  }

  lemma {:induction false} InsertSorted(sorted: seq<RouteFeature>, x: RouteFeature, le: (string, string) -> bool)
    requires TotalPreorder(le) && SortedBy(le, sorted)
    ensures SortedBy(le, Insert(sorted, x, le))
  {
    if sorted == [] || FeatureLe(le, sorted[|sorted| - 1], x) {
      forall y | y in sorted ensures FeatureLe(le, y, x) {
        var k :| 0 <= k < |sorted| && sorted[k] == y;
        if k < |sorted| - 1 {
          FeatureLeTransitive(le, y, sorted[|sorted| - 1], x);
        }
      }
      SortedSnoc(le, sorted, x);
    } else {
      var init := sorted[..|sorted| - 1];
      var last := sorted[|sorted| - 1];
      InsertSorted(init, x, le);
      InsertPermutes(init, x, le);
      var ins := Insert(init, x, le);
      forall y | y in ins ensures FeatureLe(le, y, last) {
        assert y in multiset(ins);
        if y == x {
          FeatureLeTotal(le, last, x);
        } else {
          assert y in multiset(init);
          var k :| 0 <= k < |init| && init[k] == y;
          assert sorted[k] == y;
        }
      }
      SortedSnoc(le, ins, last);
    }
  }

  /** The feature list comes out ordered by number then pattern, and holds the same
      features as many times as before. */
  lemma {:induction false} SortFeaturesCorrect(s: seq<RouteFeature>, le: (string, string) -> bool)
    requires TotalPreorder(le)
    ensures SortedBy(le, SortFeatures(s, le))
    ensures multiset(SortFeatures(s, le)) == multiset(s)
  {
    SortFeaturesSorted(s, le);
    SortFeaturesPermutes(s, le);
  }

  lemma {:induction false} SortFeaturesSorted(s: seq<RouteFeature>, le: (string, string) -> bool)
    requires TotalPreorder(le)
    ensures SortedBy(le, SortFeatures(s, le))
  {
    if s != [] {
      var init, x := s[..|s| - 1], s[|s| - 1];
      var sorted := SortFeatures(init, le);
      assert SortFeatures(s, le) == Insert(sorted, x, le);
      SortFeaturesSorted(init, le);
      InsertSorted(sorted, x, le);
    }
  }

  lemma {:induction false} SortFeaturesPermutes(s: seq<RouteFeature>, le: (string, string) -> bool)
    ensures multiset(SortFeatures(s, le)) == multiset(s)
  {
    if s != [] {
      var init, x := s[..|s| - 1], s[|s| - 1];
      calc {
        multiset(SortFeatures(s, le));
        multiset(Insert(SortFeatures(init, le), x, le));
        { InsertPermutes(SortFeatures(init, le), x, le); }
        multiset(SortFeatures(init, le)) + multiset{x};
        { SortFeaturesPermutes(init, le); }
        multiset(init) + multiset{x};
        { assert s == init + [x]; }
        multiset(s);
      }
    }
  }
}
