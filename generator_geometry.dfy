/** The geometry side of the generator (src/services/data-generator.js): stitching the line
    segments of a GeometryCollection or of a OneMap patch into one vertex list, reading a
    feature's coordinates, the patch patterns of `loadPatchPatterns` with their OneMap to
    CityMapper fallback, and the names of the services whose routes are faulty. */
module GeneratorGeometry {
  import opened Common
  import opened Js
  import opened GeoJson
  import opened DataFetcher

  // ---------------------------------------------------------------------------
  // Stitching

  /** The `reduce` of `extractCoordinatesFromFeature` and `loadPatchPatterns`: the lines are
      appended in order, and a line's first vertex is left out when it equals the last
      vertex gathered so far. `None` when a line is empty once something has been gathered,
      since its `line[0].join()` throws. */
  function Stitch(lines: seq<seq<Position>>): (r: Option<seq<Position>>)
    ensures r.Some? && lines != [] && lines[0] != [] ==> r.value != [] && r.value[0] == lines[0][0]
  {
    if lines == [] then Some([])
    else
      match Stitch(lines[..|lines| - 1])
      case None => None
      case Some(acc) =>
        var line := lines[|lines| - 1];
        if acc == [] then Some(line)
        else if line == [] then None
        else if acc[|acc| - 1] == line[0] then Some(acc + line[1..])
        else Some(acc + line)
  }

  /** The stitch as the source runs it: `acc.push(...line)`, after `line.shift()` when
      something has been gathered and the line starts with its last vertex. The shift
      works on a copy here. */
  method StitchLines(lines: seq<seq<Position>>) returns (r: Option<seq<Position>>)
    ensures r == Stitch(lines)
  {
    var acc: seq<Position> := [];
    var i := 0;
    while i < |lines|
      invariant 0 <= i <= |lines|
      invariant Stitch(lines[..i]) == Some(acc)
    {
      var line := lines[i];
      assert lines[..i + 1] == lines[..i] + [line];
      StitchSnoc(lines[..i], line);
      if |acc| == 0 {
        acc := line;
      } else if line == [] {
        StitchFailurePersists(lines, i + 1);
        return None;
      } else if acc[|acc| - 1] == line[0] {
        acc := acc + line[1..];
      } else {
        acc := acc + line;
      }
      i := i + 1;
    }
    assert lines[..i] == lines;
    r := Some(acc);
  }

  /** One more line, as the definition reads it with the line last. */
  lemma StitchSnoc(init: seq<seq<Position>>, line: seq<Position>)
    ensures Stitch(init + [line]) ==
      match Stitch(init)
      case None => None
      case Some(acc) =>
        if acc == [] then Some(line)
        else if line == [] then None
        else if acc[|acc| - 1] == line[0] then Some(acc + line[1..])
        else Some(acc + line)
  {
    assert (init + [line])[..|init|] == init;
  }

  lemma {:induction false} StitchFailurePersists(lines: seq<seq<Position>>, n: nat)
    requires n <= |lines| && Stitch(lines[..n]).None?
    ensures Stitch(lines).None?
    decreases |lines| - n
  {
    if n < |lines| {
      assert lines[..n + 1][..n] == lines[..n];
      StitchFailurePersists(lines, n + 1);
    } else {
      assert lines[..n] == lines;
    }
  }

  /** Nothing is gathered exactly when every line is empty. */
  lemma {:induction false} StitchEmpty(lines: seq<seq<Position>>)
    requires Stitch(lines).Some?
    ensures Stitch(lines).value == [] <==> Concat(lines) == []
  {
    if lines != [] {
      StitchEmpty(lines[..|lines| - 1]);
    }
  }

  /** The stitch fails exactly when an empty line comes after a non-empty one. */
  lemma StitchFails(lines: seq<seq<Position>>)
    ensures Stitch(lines).None? <==> exists i :: 0 <= i < |lines| && lines[i] == [] && Concat(lines[..i]) != []
  {
    if Stitch(lines).None? {
      StitchFailsAt(lines);
    }
    if exists i :: 0 <= i < |lines| && lines[i] == [] && Concat(lines[..i]) != [] {
      var i :| 0 <= i < |lines| && lines[i] == [] && Concat(lines[..i]) != [];
      StitchFailsFrom(lines, i);
    }
  }

  lemma {:induction false} StitchFailsAt(lines: seq<seq<Position>>)
    requires Stitch(lines).None?
    ensures exists i :: 0 <= i < |lines| && lines[i] == [] && Concat(lines[..i]) != []
  {
    var n := |lines|;
    var init := lines[..n - 1];
    if Stitch(init).None? {
      StitchFailsAt(init);
      var i :| 0 <= i < |init| && init[i] == [] && Concat(init[..i]) != [];
      assert lines[i] == init[i] && lines[..i] == init[..i];
    } else {
      StitchEmpty(init);
      assert lines[..n - 1] == init;
    }
  }

  lemma {:induction false} StitchFailsFrom(lines: seq<seq<Position>>, i: nat)
    requires i < |lines| && lines[i] == [] && Concat(lines[..i]) != []
    ensures Stitch(lines).None?
  {
    var init := lines[..i];
    assert lines[..i + 1] == init + [lines[i]];
    if Stitch(init).Some? {
      StitchEmpty(init);
      StitchSnoc(init, lines[i]);
    } else {
      assert lines[..i + 1][..i] == init;
      StitchFailurePersists(lines[..i + 1], i);
    }
    StitchFailurePersists(lines, i + 1);
  }

  /** No vertex is moved or added: the result is the lines' vertices in order, some left out. */
  lemma {:induction false} StitchSubsequence(lines: seq<seq<Position>>)
    requires Stitch(lines).Some?
    ensures IsSubsequence(Stitch(lines).value, Concat(lines))
  {
    if lines == [] {
      SubsequenceReflexive(Stitch(lines).value);
    } else {
      var init := lines[..|lines| - 1];
      var line := lines[|lines| - 1];
      var acc := Stitch(init).value;
      StitchSubsequence(init);
      SubsequenceReflexive(line);
      if acc == [] {
        StitchEmpty(init);
        assert Concat(lines) == line;
      } else if acc[|acc| - 1] == line[0] {
        SubsequenceReflexive(line[1..]);
        assert IsSubsequence(line[1..], line);
        SubsequenceConcat(acc, Concat(init), line[1..], line);
      } else {
        SubsequenceConcat(acc, Concat(init), line, line);
      }
    }
  }

  /** ... and no vertex value is lost: a vertex left out repeats the one before it. */
  lemma {:induction false} StitchKeepsVertices(lines: seq<seq<Position>>, i: nat, v: Position)
    requires Stitch(lines).Some? && i < |lines| && v in lines[i]
    ensures v in Stitch(lines).value
  {
    var n := |lines|;
    var init := lines[..n - 1];
    var acc := Stitch(init).value;
    if i < n - 1 {
      assert init[i] == lines[i];
      StitchKeepsVertices(init, i, v);
    } else if acc != [] && acc[|acc| - 1] == lines[i][0] && v == lines[i][0] {
      assert v == acc[|acc| - 1];
    } else if acc != [] && acc[|acc| - 1] == lines[i][0] {
      var k :| 0 <= k < |lines[i]| && lines[i][k] == v;
      assert lines[i][1..][k - 1] == v;
    }
  }

  /** The junctions between consecutive non-empty lines where the second repeats the last
      vertex of the first. */
  function Junctions(lines: seq<seq<Position>>): nat
  {
    if |lines| < 2 then 0
    else
      var a := lines[|lines| - 2];
      var b := lines[|lines| - 1];
      Junctions(lines[..|lines| - 1]) + (if a != [] && b != [] && b[0] == a[|a| - 1] then 1 else 0)
  }

  /** When no line is empty, the stitch succeeds, ends on the last line's last vertex, and
      leaves out exactly one vertex per repeated junction. */
  lemma {:induction false} StitchJunctions(lines: seq<seq<Position>>)
    requires forall i :: 0 <= i < |lines| ==> lines[i] != []
    ensures Stitch(lines).Some?
    ensures |Stitch(lines).value| + Junctions(lines) == SumLengths(lines)
    ensures lines != [] ==>
      (Stitch(lines).value != [] &&
       Stitch(lines).value[|Stitch(lines).value| - 1] == lines[|lines| - 1][|lines[|lines| - 1]| - 1])
  {
    if lines != [] {
      var n := |lines|;
      var init := lines[..n - 1];
      var line := lines[n - 1];
      StitchJunctions(init);
      assert lines == init + [line];
      StitchSnoc(init, line);
      if n >= 2 {
        var prev := lines[n - 2];
        assert init[n - 2] == prev;
        var acc := Stitch(init).value;
        assert acc != [] && acc[|acc| - 1] == prev[|prev| - 1];
        assert Junctions(lines) == Junctions(init) + (if line[0] == prev[|prev| - 1] then 1 else 0);
      }
    }
  }

  // ---------------------------------------------------------------------------
  // extractCoordinatesFromFeature

  predicate AllLineStrings(gs: seq<Geometry>)
  {
    forall i :: 0 <= i < |gs| ==> gs[i].LineString?
  }

  function LinesOf(gs: seq<Geometry>): seq<seq<Position>>
    requires AllLineStrings(gs)
  {
    seq(|gs|, i requires 0 <= i < |gs| => gs[i].coordinates)
  }

  /** The coordinates of a feature's geometry: a LineString's own, the stitch of a
      GeometryCollection of LineStrings, and `None` (a thrown error) for anything else. */
  function ExtractCoordinates(g: Geometry): Option<seq<Position>>
  {
    match g
    case LineString(cs) => Some(cs)
    case GeometryCollection(gs) => if AllLineStrings(gs) then Stitch(LinesOf(gs)) else None
    case OtherGeometry(_, _) => None
  }

  /** `extractCoordinatesFromFeature`. */
  method ExtractCoordinatesFromFeature(f: Feature) returns (r: Option<seq<Position>>)
    ensures r == ExtractCoordinates(f.geometry)
  {
    match f.geometry {
      case LineString(cs) =>
        r := Some(cs);
      case GeometryCollection(gs) =>
        if AllLineStrings(gs) {
          r := StitchLines(LinesOf(gs));
        } else {
          r := None;
        }
      case OtherGeometry(_, _) =>
        r := None;
    }
  }

  // ---------------------------------------------------------------------------
  // loadPatchPatterns

  /** A segment of a OneMap direction in `<number>.om.json`. */
  datatype OmSegment = OmSegment(busSequence: int, startBusStopNum: string, geometries: seq<Position>)

  /** `<number>.om.json`: each direction is absent or null (`None`) or a segment list. */
  datatype OmPatch = OmPatch(directionOne: Option<seq<OmSegment>>, directionTwo: Option<seq<OmSegment>>)

  /** A CityMapper pattern: the ids of its stop points and its path of `[lat, lon]` pairs. */
  datatype CmPattern = CmPattern(stopPoints: seq<string>, path: seq<Position>)

  datatype CmRoute = CmRoute(patterns: seq<CmPattern>)

  /** `<number>.cm.json`: its routes and its stops, from stop-point id to stop code. */
  datatype CmPatch = CmPatch(routes: seq<CmRoute>, stops: map<string, string>)

  /** A patch pattern: the stop it starts from and its vertices. */
  datatype PatchPattern = PatchPattern(firstStop: string, coordinates: seq<Position>)

  /** `segments.find(s => s.BUS_SEQUENCE === 1)`. */
  function FindFirstSegment(segments: seq<OmSegment>): (r: Option<OmSegment>)
    ensures r.None? <==> forall i :: 0 <= i < |segments| ==> segments[i].busSequence != 1
    ensures r.Some? ==> exists i :: 0 <= i < |segments| && segments[i] == r.value && r.value.busSequence == 1 &&
                                    forall j :: 0 <= j < i ==> segments[j].busSequence != 1
  {
    if segments == [] then None
    else if segments[0].busSequence == 1 then Some(segments[0])
    else
      var r := FindFirstSegment(segments[1..]);
      assert r.Some? ==> exists i :: 0 <= i < |segments| && segments[i] == r.value && r.value.busSequence == 1 &&
                                    forall j :: 0 <= j < i ==> segments[j].busSequence != 1 by {
        if r.Some? {
          var i :| 0 <= i < |segments[1..]| && segments[1..][i] == r.value && r.value.busSequence == 1 &&
                   forall j :: 0 <= j < i ==> segments[1..][j].busSequence != 1;
          assert segments[i + 1] == r.value;
        }
      }
      r
  }

  function SegmentLines(segments: seq<OmSegment>): seq<seq<Position>>
  {
    seq(|segments|, i requires 0 <= i < |segments| => segments[i].geometries)
  }

  /** The pattern of one OneMap direction: it starts from the stop of its first segment with
      sequence number 1 (`None` when there is none: the property read throws) and follows
      the stitch of its segments' geometries. */
  function OmDirection(segments: seq<OmSegment>): Option<PatchPattern>
  {
    match FindFirstSegment(segments)
    case None => None
    case Some(first) =>
      match Stitch(SegmentLines(segments))
      case None => None
      case Some(coordinates) => Some(PatchPattern(first.startBusStopNum, coordinates))
  }

  function DirectionPatterns(direction: Option<seq<OmSegment>>): Option<seq<PatchPattern>>
  {
    match direction
    case None => Some([])
    case Some(segments) =>
      match OmDirection(segments)
      case None => None
      case Some(p) => Some([p])
  }

  /** The patterns of a OneMap patch: direction one's, then direction two's. */
  function OmPatterns(om: OmPatch): Option<seq<PatchPattern>>
  {
    match (DirectionPatterns(om.directionOne), DirectionPatterns(om.directionTwo))
    case (Some(one), Some(two)) => Some(one + two)
    case _ => None
  }

  predicate CmPatternReadable(cm: CmPatch, p: CmPattern)
  {
    p.stopPoints != [] && p.stopPoints[0] in cm.stops
  }

  /** `coords.reverse()` on every vertex: `[lat, lon]` becomes `[lon, lat]`. */
  function Swapped(path: seq<Position>): (r: seq<Position>)
    ensures |r| == |path|
    ensures forall k :: 0 <= k < |path| ==> r[k] == Reverse(path[k])
  {
    seq(|path|, k requires 0 <= k < |path| => Reverse(path[k]))
  }

  /** The patterns of a CityMapper patch: one per pattern of its first route, starting from
      the stop code of its first stop point; `None` when there is no route or a stop point
      cannot be read. */
  function CmPatterns(cm: CmPatch): Option<seq<PatchPattern>>
  {
    if cm.routes == [] then None
    else
      var ps := cm.routes[0].patterns;
      if forall j :: 0 <= j < |ps| ==> CmPatternReadable(cm, ps[j])
      then Some(seq(|ps|, j requires 0 <= j < |ps| && CmPatternReadable(cm, ps[j]) =>
                    PatchPattern(cm.stops[ps[j].stopPoints[0]], Swapped(ps[j].path))))
      else None
  }

  /** `loadPatchPatterns`: the OneMap patch when it can be read and used, else the CityMapper
      patch, else `None` (`null`). The files are `None` when they cannot be read. */
  function LoadPatchPatterns(om: Option<OmPatch>, cm: Option<CmPatch>): (r: Option<seq<PatchPattern>>)
    ensures r.None? <==> (om.None? || OmPatterns(om.value).None?) && (cm.None? || CmPatterns(cm.value).None?)
  {
    if om.Some? && OmPatterns(om.value).Some? then OmPatterns(om.value)
    else if cm.Some? then CmPatterns(cm.value)
    else None
  }

  /** A usable OneMap patch decides the patterns: the CityMapper file is then never read. */
  lemma PatchPatternsPreferOneMap(om: OmPatch, cm: Option<CmPatch>, cm': Option<CmPatch>)
    requires OmPatterns(om).Some?
    ensures LoadPatchPatterns(Some(om), cm) == LoadPatchPatterns(Some(om), cm') == OmPatterns(om)
  {
  }

  /** Each OneMap pattern starts from the first sequence-1 segment of its direction and
      follows the stitch of that direction's segments; direction two's pattern follows
      direction one's. */
  lemma OmPatternsShape(om: OmPatch)
    requires OmPatterns(om).Some?
    ensures var ps := OmPatterns(om).value;
      && |ps| == (if om.directionOne.Some? then 1 else 0) + (if om.directionTwo.Some? then 1 else 0)
      && (om.directionOne.Some? ==>
            var segs := om.directionOne.value;
            FindFirstSegment(segs).Some? && ps[0].firstStop == FindFirstSegment(segs).value.startBusStopNum &&
            Some(ps[0].coordinates) == Stitch(SegmentLines(segs)))
      && (om.directionTwo.Some? ==>
            var segs := om.directionTwo.value;
            FindFirstSegment(segs).Some? && ps[|ps| - 1].firstStop == FindFirstSegment(segs).value.startBusStopNum &&
            Some(ps[|ps| - 1].coordinates) == Stitch(SegmentLines(segs)))
  {
  }

  /** A CityMapper pattern's vertices are its path's with each pair swapped, so swapping
      them back gives the path. */
  lemma CmPatternsSwapped(cm: CmPatch, j: nat, k: nat)
    requires CmPatterns(cm).Some? && j < |CmPatterns(cm).value|
    ensures |CmPatterns(cm).value| == |cm.routes[0].patterns|
    ensures k < |cm.routes[0].patterns[j].path| ==>
      k < |CmPatterns(cm).value[j].coordinates| &&
      Reverse(CmPatterns(cm).value[j].coordinates[k]) == cm.routes[0].patterns[j].path[k]
  {
    if k < |cm.routes[0].patterns[j].path| {
      ReverseReverse(cm.routes[0].patterns[j].path[k]);
    }
  }

  lemma ReverseReverse(s: seq<real>)
    ensures Reverse(Reverse(s)) == s
  {
    assert forall i :: 0 <= i < |s| ==> Reverse(Reverse(s))[i] == s[i];
  }

  /** `patchPatterns.find(p => p.firstStop === stops[0])`; a pattern without stops matches
      nothing. */
  function FindPattern(patterns: seq<PatchPattern>, stops: seq<string>): (r: Option<PatchPattern>)
    ensures r.None? <==> stops == [] || forall i :: 0 <= i < |patterns| ==> patterns[i].firstStop != stops[0]
    ensures r.Some? ==> exists i :: 0 <= i < |patterns| && patterns[i] == r.value && r.value.firstStop == stops[0] &&
                                    forall j :: 0 <= j < i ==> patterns[j].firstStop != stops[0]
  {
    if stops == [] || patterns == [] then None
    else if patterns[0].firstStop == stops[0] then Some(patterns[0])
    else
      var r := FindPattern(patterns[1..], stops);
      assert r.Some? ==> exists i :: 0 <= i < |patterns| && patterns[i] == r.value && r.value.firstStop == stops[0] &&
                                    forall j :: 0 <= j < i ==> patterns[j].firstStop != stops[0] by {
        if r.Some? {
          var i :| 0 <= i < |patterns[1..]| && patterns[1..][i] == r.value && r.value.firstStop == stops[0] &&
                   forall j :: 0 <= j < i ==> patterns[1..][j].firstStop != stops[0];
          assert patterns[i + 1] == r.value;
        }
      }
      r
  }

  // ---------------------------------------------------------------------------
  // identifyFaultyRoutes

  predicate AllDigits(t: string)
  {
    forall q :: 0 <= q < |t| ==> IsDigit(t[q])
  }

  /** Every character of `s` from index `p` on is a digit. */
  predicate DigitsFrom(s: string, p: nat)
  {
    forall q :: p <= q < |s| ==> IsDigit(s[q])
  }

  /** The length of the longest run of digits that ends `s`. */
  function DigitSuffix(s: string): (k: nat)
    ensures k <= |s| && DigitsFrom(s, |s| - k)
    ensures k < |s| ==> !IsDigit(s[|s| - k - 1])
  {
    if s == [] || !IsDigit(s[|s| - 1]) then 0
    else DigitSuffix(s[..|s| - 1]) + 1
  }

  /** `name.replace(/-\d+$/, '')`: a `-` followed only by digits, at least one, is removed
      with those digits. */
  function StripPatternSuffix(name: string): (r: string)
    ensures r <= name
    ensures r != name <==> exists p :: 0 <= p < |name| - 1 && name[p] == '-' && DigitsFrom(name, p + 1)
    ensures forall p :: 0 <= p < |name| - 1 && name[p] == '-' && DigitsFrom(name, p + 1) ==> r == name[..p]
  {
    var k := DigitSuffix(name);
    if k > 0 && |name| > k && name[|name| - k - 1] == '-' then name[..|name| - k - 1] else name
  }

  /** The service number a failed KML file stands for. */
  function FaultyNumber(f: Failure): string
  {
    StripPatternSuffix(BaseName(f.fileName))
  }

  /** `identifyFaultyRoutes`: the numbers of the failed KML files, then the numbers of the
      multi-line results; each file is `None` when it cannot be read. */
  function FaultyRoutes(failedKmls: Option<seq<Failure>>, multiline: Option<seq<string>>): (r: seq<string>)
    ensures |r| == (if failedKmls.Some? then |failedKmls.value| else 0) + (if multiline.Some? then |multiline.value| else 0)
  {
    (if failedKmls.Some? then Map(failedKmls.value, FaultyNumber) else []) +
    (if multiline.Some? then multiline.value else [])
  }

  /** A service is faulty exactly when one of its KML files failed or it has a multi-line
      result. */
  lemma FaultyRoutesMembers(failedKmls: Option<seq<Failure>>, multiline: Option<seq<string>>, number: string)
    ensures number in FaultyRoutes(failedKmls, multiline) <==>
      (failedKmls.Some? && exists i :: 0 <= i < |failedKmls.value| && FaultyNumber(failedKmls.value[i]) == number) ||
      (multiline.Some? && number in multiline.value)
  {
    if failedKmls.Some? {
      MapMembers(failedKmls.value, FaultyNumber, number);
    }
  }

  /** A name `<number>-<pattern>` has no `/` or `.` when neither part has. */
  lemma PatternNameChars(number: string, pattern: string)
    requires '/' !in number && '.' !in number && AllDigits(pattern)
    ensures '/' !in number + "-" + pattern && '.' !in number + "-" + pattern
  {
    var name := number + "-" + pattern;
    forall q | 0 <= q < |name| ensures name[q] != '/' && name[q] != '.' {
      if q > |number| {
        assert name[q] == pattern[q - |number| - 1];
      }
    }
  }

  lemma StripOfPatternName(number: string, pattern: string)
    requires pattern != [] && AllDigits(pattern)
    ensures StripPatternSuffix(number + "-" + pattern) == number
  {
    var name := number + "-" + pattern;
    var p := |number|;
    assert name[p] == '-';
    assert DigitsFrom(name, p + 1) by {
      forall q | p + 1 <= q < |name| ensures IsDigit(name[q]) {
        assert name[q] == pattern[q - p - 1];
      }
    }
    assert name[..p] == number;
  }

  /** The KML files the fetcher names `<dir>/<number>-<pattern>.kml` give back their
      service number. */
  lemma FaultyNumberOfKml(dir: string, number: string, pattern: string, ext: string, error: string)
    requires number != [] && '/' !in number && '.' !in number
    requires pattern != [] && AllDigits(pattern)
    requires '/' !in ext && '.' !in ext
    ensures FaultyNumber(Failure(dir + "/" + number + "-" + pattern + "." + ext, error)) == number
  {
    var name := number + "-" + pattern;
    PatternNameChars(number, pattern);
    assert dir + "/" + number + "-" + pattern + "." + ext == dir + "/" + name + "." + ext;
    BaseNameOfFile(dir, name, ext);
    StripOfPatternName(number, pattern);
  }
}
