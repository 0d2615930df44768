/** The decisions of src/services/data-patcher.js: which failed KML downloads name a route
    pattern worth patching, the OneMap-then-CityMapper fallback for them, the classifier that
    flags services whose geometry is not one connected line, the OneMap request for those,
    and the heuristic that picks the stop names to look up. The HTTP responses, the files
    read and the page scrape are inputs; the files written are returned as a list. */
module DataPatcher {
  import opened Common
  import opened Js
  import opened GeoJson
  import opened LtaClient
  import opened DataFetcher
  import opened GeneratorGeometry
  import opened GeneratorStops

  /** `config.paths.patch`, as `path.join` normalises it, and the files written there. */
  const PatchDir: string := "data/v1/patch"
  const MissingServicesPath: string := "data/v1/patch/missing-services.json"
  const MultilineResultsPath: string := "data/v1/patch/patch-multiple-routes.results.json"
  const StopNamesPath: string := "data/v1/patch/bus-stop-names.json"

  /** The two directions written to `<number>.om.json`. */
  datatype Directions = Directions(one: Json, two: Json)

  /** The number shown for a flagged geometry: a sub-geometry count or "?". */
  datatype Count = Count(n: nat) | Unknown

  /** An entry of `patch-multiple-routes.results.json`. */
  datatype MultilineRecord = MultilineRecord(number: string, numberPattern: string, e: string, count: Count)

  /** An entry of `bus-stop-names.json`; `newName` is `null` when the page had no match. */
  datatype StopNameFix = StopNameFix(number: string, name: string, newName: Option<string>)

  datatype PatchContent =
    | OmFile(directions: Directions)
    | CmFile(routeInfo: Json)
    | MissingList(numbers: seq<string>)
    | MultilineList(records: seq<MultilineRecord>)
    | StopNameList(fixes: seq<StopNameFix>)

  datatype PatchWrite = PatchWrite(path: string, content: PatchContent)

  function OmPath(number: string): string
  {
    PatchDir + "/" + number + ".om.json"
  }

  function CmPath(number: string): string
  {
    PatchDir + "/" + number + ".cm.json"
  }

  /** The responses of the services the patcher calls; `None` stands for a request (or its
      JSON parse) that throws. */
  datatype Web = Web(
    /** Whether the n-th request of the OneMap home page (0 in `patchMissingRoutes`, 1 in
        `patchMultilineRoutes`) answers with a first `set-cookie` that carries `OMITN=…;`;
        when it does not, reading the session token throws. */
    sessionToken: nat -> bool,
    /** `getBusRoutes?busSvcNo=<number>&startBusStopNo=<start>`, `start` as interpolated. */
    oneMap: (string, Json) -> Option<Json>,
    /** `getBusRoutes?busSvcNo=<number>`. */
    oneMapAll: string -> Option<Json>,
    /** `findtransport?query=<number>`. */
    cityMapperFind: string -> Option<Json>,
    /** `routeinfo?route=<id>`. */
    cityMapperRoute: Json -> Option<Json>,
    /** `Number(s)`; `None` for NaN. */
    toNumber: string -> Option<real>)

  // ---------------------------------------------------------------------------
  // Failed KML file names

  /** A character of the class `[\w-]`. */
  predicate IsWordChar(c: char)
  {
    IsAsciiLetter(c) || IsDigit(c) || c == '_' || c == '-'
  }

  predicate AllWordChars(s: string)
  {
    forall i :: 0 <= i < |s| ==> IsWordChar(s[i])
  }

  /** The length of the longest prefix made of `[\w-]` characters. */
  function WordRun(s: string): (n: nat)
    ensures n <= |s| && AllWordChars(s[..n])
    ensures n < |s| ==> !IsWordChar(s[n])
  {
    if s == [] || !IsWordChar(s[0]) then 0
    else
      var n := 1 + WordRun(s[1..]);
      assert forall i :: 1 <= i < n ==> s[..n][i] == s[1..][..n - 1][i - 1];
      n
  }

  /** `fileName.match(/^([\w-]+)\-(\d)\./i)`: the service number and the pattern digit.
      Since `.` is not in `[\w-]`, the only place the match can end is the first character
      outside the class, so the greedy match is the longest `[\w-]` prefix, which must end
      in `-` and a digit and be followed by `.`. `None` when the name does not match. */
  function ParseKmlName(name: string): (r: Option<(string, char)>)
    ensures r.Some? ==> IsDigit(r.value.1) && |r.value.0| >= 1 && r.value.0 + "-" + [r.value.1] + "." <= name
  {
    var q := WordRun(name);
    if q >= 3 && q < |name| && name[q] == '.' && name[q - 2] == '-' && IsDigit(name[q - 1])
    then Some((name[..q - 2], name[q - 1]))
    else None
  }

  lemma {:induction false} WordRunOf(a: string, b: string)
    requires AllWordChars(a)
    requires b == [] || !IsWordChar(b[0])
    ensures WordRun(a + b) == |a|
  {
    if a != [] {
      assert (a + b)[1..] == a[1..] + b;
      WordRunOf(a[1..], b);
    } else {
      assert a + b == b;
    }
  }

  /** The name of a pattern's KML file parses back to its service and pattern digit. */
  lemma KmlNameRoundTrip(number: string, digit: char, ext: string)
    requires number != [] && AllWordChars(number) && IsDigit(digit)
    ensures ParseKmlName(number + "-" + [digit] + "." + ext) == Some((number, digit))
  {
    var name := number + "-" + [digit] + "." + ext;
    assert name == (number + "-" + [digit]) + ("." + ext);
    WordRunOf(number + "-" + [digit], "." + ext);
    assert name[..|number|] == number;
  }

  /** A name that parses is a service number of `[\w-]` characters, `-`, the digit, `.`
      and the rest of the name. */
  lemma KmlNameParsed(name: string)
    requires ParseKmlName(name).Some?
    ensures var (number, digit) := ParseKmlName(name).value;
      && number != [] && AllWordChars(number) && IsDigit(digit)
      && name == number + "-" + [digit] + "." + name[|number| + 3..]
  {
    var q := WordRun(name);
    var number := name[..q - 2];
    assert AllWordChars(number) by {
      assert forall i :: 0 <= i < q - 2 ==> number[i] == name[..q][i];
    }
    assert name == number + "-" + [name[q - 1]] + "." + name[q + 1..];
  }

  // ---------------------------------------------------------------------------
  // patchMissingRoutes: the failed KMLs

  /** A pattern to patch: the service, the pattern number and the service's route file. */
  datatype MissingService = MissingService(number: string, pattern: nat, data: seq<RouteDirection>)

  /** `services.find((s) => s.number == serviceNumber)`. */
  function FindService(services: seq<BusService>, number: string): (r: Option<BusService>)
    ensures r.None? <==> forall i :: 0 <= i < |services| ==> services[i].number != number
    ensures r.Some? ==> r.value.number == number
    ensures r.Some? ==> exists i :: 0 <= i < |services| && services[i] == r.value &&
                                    forall j :: 0 <= j < i ==> services[j].number != number
  {
    if services == [] then None
    else if services[0].number == number then Some(services[0])
    else
      var r := FindService(services[1..], number);
      assert forall j :: 1 <= j < |services| ==> services[1..][j - 1] == services[j];
      if r.Some? then
        var i :| 0 <= i < |services[1..]| && services[1..][i] == r.value &&
          forall j :: 0 <= j < i ==> services[1..][j].number != number;
        assert services[i + 1] == r.value;
        r
      else r
  }

  function DigitNumber(d: char): nat
    requires IsDigit(d)
  {
    (d as int) - ('0' as int)
  }

  /** One element of `failedKMLs.map(...)`: `None` when the name does not match (the
      destructuring throws outside the `try`), `Some(None)` for the `undefined` of a service
      that is not listed, a route file that cannot be read or a pattern that the route file
      does not have, and the pattern to patch otherwise. `readRoute(type, number)` reads
      `services/<type>/<number>.json`. */
  function MissingEntry(f: Failure, services: seq<BusService>,
                        readRoute: (string, string) -> Option<seq<RouteDirection>>): Option<Option<MissingService>>
  {
    match ParseKmlName(f.fileName)
    case None => None
    case Some((number, digit)) =>
      Some(
        match FindService(services, number)
        case None => None
        case Some(s) =>
          match readRoute(s.serviceType, number)
          case None => None
          case Some(data) =>
            var pattern := DigitNumber(digit);
            if 1 <= pattern <= |data| then Some(MissingService(number, pattern, data)) else None)
  }

  function MissingEntryFor(services: seq<BusService>, readRoute: (string, string) -> Option<seq<RouteDirection>>)
    : Failure -> Option<Option<MissingService>>
  {
    (f: Failure) => MissingEntry(f, services, readRoute)
  }

  /** `missingServices`; `None` when some failed file name does not match, which aborts
      `patchMissingRoutes`. */
  function MissingServices(failedKmls: seq<Failure>, services: seq<BusService>,
                           readRoute: (string, string) -> Option<seq<RouteDirection>>): (r: Option<seq<Option<MissingService>>>)
    ensures r.Some? ==> |r.value| == |failedKmls|
  {
    MapAll(failedKmls, MissingEntryFor(services, readRoute))
  }

  /** Some failed KML file name does not match the pattern. */
  predicate UnmatchedKml(failedKmls: seq<Failure>)
  {
    exists i :: 0 <= i < |failedKmls| && ParseKmlName(failedKmls[i].fileName).None?
  }

  /** `patchMissingRoutes` aborts exactly when some failed file name does not match. */
  lemma MissingServicesAbort(failedKmls: seq<Failure>, services: seq<BusService>,
                             readRoute: (string, string) -> Option<seq<RouteDirection>>)
    ensures MissingServices(failedKmls, services, readRoute).None? <==> UnmatchedKml(failedKmls)
  {
    var f := MissingEntryFor(services, readRoute);
    if exists i :: 0 <= i < |failedKmls| && ParseKmlName(failedKmls[i].fileName).None? {
      var i :| 0 <= i < |failedKmls| && ParseKmlName(failedKmls[i].fileName).None?;
      assert f(failedKmls[i]).None?;
    }
  }

  /** The KML file of pattern `d` of a listed service gives the pattern to patch exactly when
      the service's route file can be read and has a `d`th direction. */
  lemma MissingEntryOfKml(number: string, digit: char, ext: string, error: string,
                          services: seq<BusService>, readRoute: (string, string) -> Option<seq<RouteDirection>>,
                          s: BusService)
    requires number != [] && AllWordChars(number) && IsDigit(digit)
    requires FindService(services, number) == Some(s)
    ensures var e := MissingEntry(Failure(number + "-" + [digit] + "." + ext, error), services, readRoute);
      && e.Some?
      && (e.value.Some? <==>
            readRoute(s.serviceType, number).Some? && 1 <= DigitNumber(digit) <= |readRoute(s.serviceType, number).value|)
      && (e.value.Some? ==> e.value.value == MissingService(number, DigitNumber(digit), readRoute(s.serviceType, number).value))
  {
    KmlNameRoundTrip(number, digit, ext);
  }

  // ---------------------------------------------------------------------------
  // The direction merge

  /** `direction?.[0]?.START_BUS_STOP_NUM`. */
  function StartOf(direction: Json): Json
  {
    OptProp(OptAt(direction, 0), "START_BUS_STOP_NUM")
  }

  /** `{ BUS_DIRECTION_ONE: direction1 || direction2, BUS_DIRECTION_TWO: diff ? direction2 : null }`
      where `diff` says that the two directions start at different stops. */
  function MergeDirections(direction1: Json, direction2: Json): (d: Directions)
    ensures Truthy(d.one) <==> Truthy(direction1) || Truthy(direction2)
    ensures Truthy(direction1) ==> d.one == direction1
    ensures d.two == direction2 || d.two == Null
    ensures !StrictEquals(StartOf(direction2), StartOf(direction1)) ==> d.two == direction2
  {
    var diff := !StrictEquals(StartOf(direction2), StartOf(direction1));
    Directions(if Truthy(direction1) then direction1 else direction2, if diff then direction2 else Null)
  }

  /** Without a second answer (`null`) there is no second direction, whatever the first. */
  lemma NoSecondAnswerNoDirectionTwo(direction1: Json)
    ensures MergeDirections(direction1, Null).two == Null
  {
  }

  /** Two answers that start at the same stop give no second direction. */
  lemma SameStartNoDirectionTwo(seg1: map<string, Json>, rest1: seq<Json>, seg2: map<string, Json>, rest2: seq<Json>,
                                start: string)
    requires "START_BUS_STOP_NUM" in seg1 && seg1["START_BUS_STOP_NUM"] == Str(start)
    requires "START_BUS_STOP_NUM" in seg2 && seg2["START_BUS_STOP_NUM"] == Str(start)
    ensures MergeDirections(Arr([Obj(seg1)] + rest1), Arr([Obj(seg2)] + rest2)) ==
            Directions(Arr([Obj(seg1)] + rest1), Null)
  {
    assert StartOf(Arr([Obj(seg1)] + rest1)) == Str(start);
    assert StartOf(Arr([Obj(seg2)] + rest2)) == Str(start);
  }

  // ---------------------------------------------------------------------------
  // patchMissingRoutes: OneMap, then CityMapper

  /** `data[k].stops[0]` as it is interpolated into the request. */
  function FirstStop(d: RouteDirection): Json
  {
    if d.stops == [] then Undefined else Str(d.stops[0])
  }

  /** The OneMap attempt of the `try` block: the directions written to `<number>.om.json`,
      or `None` when a request throws, direction one is missing, its first stop cannot be
      read, or it starts elsewhere than the route's first stop. */
  function OneMapAttempt(m: MissingService, web: Web): Option<Directions>
  {
    if m.data == [] then None
    else
      match web.oneMap(m.number, FirstStop(m.data[0]))
      case None => None
      case Some(direction1) =>
        var second := if |m.data| >= 2 then web.oneMap(m.number, FirstStop(m.data[1])) else Some(Null);
        match second
        case None => None
        case Some(direction2) =>
          var directions := MergeDirections(direction1, direction2);
          if !Truthy(directions.one) then None
          else
            match Prop(At(directions.one, 0).value, "START_BUS_STOP_NUM")
            case None => None
            case Some(firstBusStop) =>
              if StrictEquals(FirstStop(m.data[0]), firstBusStop) then Some(directions) else None
  }

  /** A OneMap answer is kept only when direction one exists and its first segment starts
      at the first stop of the route's first direction. */
  lemma OneMapAcceptedStart(m: MissingService, web: Web)
    requires OneMapAttempt(m, web).Some?
    ensures var d := OneMapAttempt(m, web).value;
      && m.data != []
      && Truthy(d.one)
      && Prop(At(d.one, 0).value, "START_BUS_STOP_NUM") == Some(FirstStop(m.data[0]))
  {
  }

  /** `r.display_name == number`: a string display name compares as text, a number or
      boolean through `Number(number)`; nullish values never equal a string. */
  predicate LooselyEquals(v: Json, number: string, toNumber: string -> Option<real>)
  {
    match v
    case Str(s) => s == number
    case Num(n) => toNumber(number) == Some(n)
    case Bool(b) => toNumber(number) == Some(if b then 1.0 else 0.0)
    case _ => false
  }

  /** A result whose display name equals the service number. */
  predicate NamedAfter(result: Json, number: string, toNumber: string -> Option<real>)
  {
    Prop(result, "display_name").Some? && LooselyEquals(Prop(result, "display_name").value, number, toNumber)
  }

  /** A result whose display name can be read and differs from the service number. */
  predicate NamedOtherwise(result: Json, number: string, toNumber: string -> Option<real>)
  {
    Prop(result, "display_name").Some? && !LooselyEquals(Prop(result, "display_name").value, number, toNumber)
  }

  /** `results.find((r) => r.display_name == number)`: `None` when reading a display name
      throws (a `null` entry before any match), `Some(None)` when nothing matches. */
  function FindDisplayName(results: seq<Json>, number: string, toNumber: string -> Option<real>): (r: Option<Option<Json>>)
    ensures r == Some(None) <==> forall i :: 0 <= i < |results| ==> NamedOtherwise(results[i], number, toNumber)
    ensures r.Some? && r.value.Some? ==>
      exists i :: 0 <= i < |results| && results[i] == r.value.value && NamedAfter(results[i], number, toNumber) &&
        forall j :: 0 <= j < i ==> NamedOtherwise(results[j], number, toNumber)
  {
    if results == [] then Some(None)
    else
      match Prop(results[0], "display_name")
      case None => None
      case Some(name) =>
        if LooselyEquals(name, number, toNumber) then Some(Some(results[0]))
        else
          var r := FindDisplayName(results[1..], number, toNumber);
          assert forall j :: 1 <= j < |results| ==> results[1..][j - 1] == results[j];
          if r.Some? && r.value.Some? then
            var i :| 0 <= i < |results[1..]| && results[1..][i] == r.value.value &&
              NamedAfter(results[1..][i], number, toNumber) &&
              forall j :: 0 <= j < i ==> NamedOtherwise(results[1..][j], number, toNumber);
            assert results[i + 1] == r.value.value;
            r
          else r
  }

  /** The CityMapper attempt: the route information written to `<number>.cm.json`, or
      `None` when a request throws, no result is named after the service, or the route has
      no routes. */
  function CityMapperAttempt(number: string, web: Web): Option<Json>
  {
    match web.cityMapperFind(number)
    case None => None
    case Some(response) =>
      match Prop(response, "results")
      case None => None
      case Some(results) =>
        if Nullish(results) || !Truthy(Length(results).value) || !results.Arr? then None
        else
          match FindDisplayName(results.items, number, web.toNumber)
          case None => None
          case Some(None) => None
          case Some(Some(first)) =>
            match web.cityMapperRoute(Prop(first, "id").value)
            case None => None
            case Some(routeInfo) =>
              match Prop(routeInfo, "routes")
              case None => None
              case Some(routes) =>
                match Length(routes)
                case None => None
                case Some(count) => if Truthy(count) then Some(routeInfo) else None
  }

  /** CityMapper's route is kept only when some result is named after the service and the
      route information it leads to has a non-empty `routes` list. */
  lemma CityMapperAcceptedMatch(number: string, web: Web)
    requires CityMapperAttempt(number, web).Some?
    ensures var routeInfo := CityMapperAttempt(number, web).value;
      && web.cityMapperFind(number).Some?
      && Prop(web.cityMapperFind(number).value, "results").Some?
      && var results := Prop(web.cityMapperFind(number).value, "results").value;
      && results.Arr?
      && (exists i :: 0 <= i < |results.items| && NamedAfter(results.items[i], number, web.toNumber))
      && Prop(routeInfo, "routes").Some?
      && Truthy(Length(Prop(routeInfo, "routes").value).value)
  {
  }

  /** What happens to one pattern to patch. */
  datatype Resolution =
    | OneMapPatched(number: string, directions: Directions)
    | CityMapperPatched(number: string, routeInfo: Json)
    | StillMissing(number: string)

  /** OneMap first; CityMapper only when the OneMap attempt fails. */
  function Resolve(m: MissingService, web: Web): (r: Resolution)
    ensures r.number == m.number
  {
    match OneMapAttempt(m, web)
    case Some(directions) => OneMapPatched(m.number, directions)
    case None =>
      match CityMapperAttempt(m.number, web)
      case Some(routeInfo) => CityMapperPatched(m.number, routeInfo)
      case None => StillMissing(m.number)
  }

  /** When OneMap's answer is kept, CityMapper is never consulted; a service is missing
      exactly when both attempts fail. */
  lemma OneMapFirst(m: MissingService, web: Web, web': Web)
    requires web'.oneMap == web.oneMap
    ensures OneMapAttempt(m, web).Some? ==> Resolve(m, web) == Resolve(m, web')
    ensures Resolve(m, web).StillMissing? <==> OneMapAttempt(m, web).None? && CityMapperAttempt(m.number, web).None?
  {
    assert OneMapAttempt(m, web') == OneMapAttempt(m, web);
  }

  /** The files written and the services still missing after the patterns in order. */
  datatype MissingRun = MissingRun(writes: seq<PatchWrite>, missing: seq<string>)

  function ResolutionWrite(r: Resolution): seq<PatchWrite>
  {
    match r
    case OneMapPatched(number, directions) => [PatchWrite(OmPath(number), OmFile(directions))]
    case CityMapperPatched(number, routeInfo) => [PatchWrite(CmPath(number), CmFile(routeInfo))]
    case StillMissing(_) => []
  }

  function ResolutionMissing(r: Resolution): seq<string>
  {
    if r.StillMissing? then [r.number] else []
  }

  function ResolveWith(web: Web): MissingService -> Resolution
  {
    (m: MissingService) => Resolve(m, web)
  }

  /** The loop of `patchMissingRoutes` over `missingServices`, `undefined` entries skipped,
      for the outcome `resolve` of each pattern. */
  function MissingLoop(entries: seq<Option<MissingService>>, resolve: MissingService -> Resolution): MissingRun
  {
    if entries == [] then MissingRun([], [])
    else
      var run := MissingLoop(entries[..|entries| - 1], resolve);
      match entries[|entries| - 1]
      case None => run
      case Some(m) =>
        var r := resolve(m);
        MissingRun(run.writes + ResolutionWrite(r), run.missing + ResolutionMissing(r))
  }

  lemma MissingLoopSnoc(entries: seq<Option<MissingService>>, e: Option<MissingService>, resolve: MissingService -> Resolution)
    ensures var run := MissingLoop(entries, resolve);
      MissingLoop(entries + [e], resolve) ==
        if e.None? then run
        else MissingRun(run.writes + ResolutionWrite(resolve(e.value)), run.missing + ResolutionMissing(resolve(e.value)))
  {
    assert (entries + [e])[..|entries|] == entries;
  }

  /** The `try` blocks of one iteration: OneMap, then CityMapper. */
  method ResolveMissing(m: MissingService, web: Web) returns (r: Resolution)
    ensures r == Resolve(m, web)
  {
    var om := OneMapAttempt(m, web);
    if om.Some? {
      return OneMapPatched(m.number, om.value);
    }
    var cm := CityMapperAttempt(m.number, web);
    if cm.Some? {
      return CityMapperPatched(m.number, cm.value);
    }
    return StillMissing(m.number);
  }

  /** One pattern of `patchMissingRoutes`: its patch file is written, or its service is
      added to the missing list. */
  method RecordResolution(m: MissingService, web: Web, writes: seq<PatchWrite>, missing: seq<string>)
    returns (writes': seq<PatchWrite>, missing': seq<string>)
    ensures writes' == writes + ResolutionWrite(Resolve(m, web))
    ensures missing' == missing + ResolutionMissing(Resolve(m, web))
  {
    var resolution := ResolveMissing(m, web);
    writes', missing' := writes, missing;
    match resolution {
      case OneMapPatched(number, directions) =>
        writes' := writes + [PatchWrite(OmPath(number), OmFile(directions))];
      case CityMapperPatched(number, routeInfo) =>
        writes' := writes + [PatchWrite(CmPath(number), CmFile(routeInfo))];
      case StillMissing(number) =>
        missing' := missing + [number];
    }
  }

  /** The `for` loop of `patchMissingRoutes` over `missingServices`. */
  method ResolveAll(missingServices: seq<Option<MissingService>>, web: Web)
    returns (writes: seq<PatchWrite>, srslyMissingServices: seq<string>)
    ensures MissingRun(writes, srslyMissingServices) == MissingLoop(missingServices, ResolveWith(web))
  {
    srslyMissingServices := [];
    writes := [];
    var i := 0;
    while i < |missingServices|
      invariant 0 <= i <= |missingServices|
      invariant MissingLoop(missingServices[..i], ResolveWith(web)) == MissingRun(writes, srslyMissingServices)
    {
      var missingService := missingServices[i];
      assert missingServices[..i + 1] == missingServices[..i] + [missingService];
      MissingLoopSnoc(missingServices[..i], missingService, ResolveWith(web));
      i := i + 1;
      if missingService.None? {
        continue;
      }
      writes, srslyMissingServices := RecordResolution(missingService.value, web, writes, srslyMissingServices);
    }
    assert missingServices[..i] == missingServices;
  }

  /** `patchMissingRoutes`: `None` when it aborts on a file name that does not match or on
      the session token, both before any file is written; otherwise the patch files in order
      and, once after the loop, the missing list. */
  method PatchMissingRoutes(failedKmls: seq<Failure>, services: seq<BusService>,
                            readRoute: (string, string) -> Option<seq<RouteDirection>>, web: Web)
    returns (r: Option<(seq<PatchWrite>, seq<string>)>)
    ensures var entries := MissingServices(failedKmls, services, readRoute);
      && (r.None? <==> entries.None? || !web.sessionToken(0))
      && (r.Some? ==>
            var run := MissingLoop(entries.value, ResolveWith(web));
            r.value == (run.writes + [PatchWrite(MissingServicesPath, MissingList(run.missing))], run.missing))
  {
    var entries := MissingServices(failedKmls, services, readRoute);
    if entries.None? || !web.sessionToken(0) {
      return None;
    }
    var writes, srslyMissingServices := ResolveAll(entries.value, web);
    writes := writes + [PatchWrite(MissingServicesPath, MissingList(srslyMissingServices))];
    r := Some((writes, srslyMissingServices));
  }

  predicate IsPresent(e: Option<MissingService>)
  {
    e.Some?
  }

  /** Every service in the missing list comes from a pattern that could not be patched. */
  lemma {:induction false} MissingSound(entries: seq<Option<MissingService>>, resolve: MissingService -> Resolution)
    ensures var run := MissingLoop(entries, resolve);
      forall k :: 0 <= k < |run.missing| ==>
        exists i :: 0 <= i < |entries| && entries[i].Some? && resolve(entries[i].value) == StillMissing(run.missing[k])
  {
    if entries != [] {
      var init := entries[..|entries| - 1];
      var e := entries[|entries| - 1];
      var run := MissingLoop(entries, resolve);
      var before := MissingLoop(init, resolve);
      MissingSound(init, resolve);
      MissingLoopSnoc(init, e, resolve);
      assert entries == init + [e];
      forall k | 0 <= k < |run.missing|
        ensures exists i :: 0 <= i < |entries| && entries[i].Some? && resolve(entries[i].value) == StillMissing(run.missing[k])
      {
        if k < |before.missing| {
          assert run.missing[k] == before.missing[k];
          var i :| 0 <= i < |init| && init[i].Some? && resolve(init[i].value) == StillMissing(before.missing[k]);
          assert entries[i] == init[i];
        } else {
          assert entries[|entries| - 1] == e;
        }
      }
    }
  }

  /** Every pattern that could not be patched has its service in the missing list. */
  lemma {:induction false} MissingComplete(entries: seq<Option<MissingService>>, resolve: MissingService -> Resolution,
                                           i: nat)
    requires i < |entries| && entries[i].Some? && resolve(entries[i].value).StillMissing?
    ensures resolve(entries[i].value).number in MissingLoop(entries, resolve).missing
  {
    var init := entries[..|entries| - 1];
    var e := entries[|entries| - 1];
    MissingLoopSnoc(init, e, resolve);
    assert entries == init + [e];
    if i < |init| {
      assert entries[i] == init[i];
      MissingComplete(init, resolve, i);
    }
  }

  /** Each pattern to patch either writes one patch file or adds its service to the list. */
  lemma {:induction false} MissingCount(entries: seq<Option<MissingService>>, resolve: MissingService -> Resolution)
    ensures var run := MissingLoop(entries, resolve);
      |run.writes| + |run.missing| == |Filter(entries, IsPresent)|
  {
    if entries != [] {
      var init := entries[..|entries| - 1];
      var e := entries[|entries| - 1];
      MissingCount(init, resolve);
      MissingLoopSnoc(init, e, resolve);
      assert entries == init + [e];
      FilterSnoc(init, IsPresent, e);
      if e.Some? {
        ResolutionCount(resolve(e.value));
      }
    }
  }

  lemma ResolutionCount(r: Resolution)
    ensures |ResolutionWrite(r)| + |ResolutionMissing(r)| == 1
  {
  }

  lemma PatchPathsDiffer(n: string)
    ensures OmPath(n) != MissingServicesPath && CmPath(n) != MissingServicesPath
  {
    var om := OmPath(n);
    var cm := CmPath(n);
    assert om[|om| - 8] == '.' && cm[|cm| - 8] == '.';
    assert MissingServicesPath[|MissingServicesPath| - 8] == 'c';
  }

  /** The missing list is written once, last: no patch file has its path. */
  lemma {:induction false} MissingListWrittenOnce(entries: seq<Option<MissingService>>, resolve: MissingService -> Resolution,
                                                  w: PatchWrite)
    requires w in MissingLoop(entries, resolve).writes
    ensures w.path != MissingServicesPath
  {
    var init := entries[..|entries| - 1];
    if w in MissingLoop(init, resolve).writes {
      MissingListWrittenOnce(init, resolve, w);
    } else {
      PatchPathsDiffer(resolve(entries[|entries| - 1].value).number);
    }
  }

  // ---------------------------------------------------------------------------
  // patchMultilineRoutes: the classifier

  /** `features.every((f) => f.geometry.coordinates.join() === features[0].geometry.coordinates.join())`
      over the features from `fs` on: `None` when a `join` throws (a GeometryCollection has
      no `coordinates`), and `Some(false)` at the first feature that differs. */
  function SameAsFirst(fs: seq<Feature>, first: Geometry): (r: Option<bool>)
    ensures fs != [] ==>
      (r == Some(true) <==>
         JoinedCoordinates(first).Some? &&
         forall i :: 0 <= i < |fs| ==> JoinedCoordinates(fs[i].geometry) == JoinedCoordinates(first))
  {
    if fs == [] then Some(true)
    else
      match JoinedCoordinates(fs[0].geometry)
      case None => None
      case Some(a) =>
        match JoinedCoordinates(first)
        case None => None
        case Some(b) =>
          if a != b then Some(false)
          else
            var r := SameAsFirst(fs[1..], first);
            assert forall i :: 1 <= i < |fs| ==> fs[1..][i - 1] == fs[i];
            r
  }

  /** Segment `j` ends where segment `j + 1` begins. */
  predicate Connects(lines: seq<seq<Position>>, j: nat)
    requires j + 1 < |lines|
  {
    lines[j] != [] && lines[j + 1] != [] && lines[j][|lines[j]| - 1] == lines[j + 1][0]
  }

  /** `geometries.every(...)` of the connectivity check, from index `i` on: each segment's
      last vertex is the next segment's first. `None` when an empty segment makes the
      `join` throw. */
  function ConnectedFrom(lines: seq<seq<Position>>, i: nat): (r: Option<bool>)
    ensures r == Some(true) <==> forall j :: i <= j < |lines| - 1 ==> Connects(lines, j)
    decreases |lines| - i
  {
    if i + 1 >= |lines| then Some(true)
    else if lines[i] == [] || lines[i + 1] == [] then assert !Connects(lines, i); None
    else if lines[i][|lines[i]| - 1] != lines[i + 1][0] then assert !Connects(lines, i); Some(false)
    else assert Connects(lines, i); ConnectedFrom(lines, i + 1)
  }

  /** What the classifier decides for one geometry file. */
  datatype Verdict =
    | Flagged(e: string, count: Count)
    | Accepted
      /** The `try` block threw: the file is skipped. */
    | Unreadable

  const MoreThanOneFeature: string := "More than 1 feature"
  const NotLineString: string := "Not LineString but is "

  /** The checks of `patchMultilineRoutes` on one geometry file. */
  function Classify(fc: FeatureCollection): (v: Verdict)
    ensures fc.features == [] ==> v == Unreadable
    ensures v.Flagged? ==> v.e == MoreThanOneFeature || (|fc.features| == 1 && !fc.features[0].geometry.LineString?)
  {
    var features := fc.features;
    if |features| > 1 then
      match SameAsFirst(features, features[0].geometry)
      case None => Unreadable
      case Some(same) => if same then Accepted else Flagged(MoreThanOneFeature, Count(|features|))
    else if features == [] then Unreadable
    else ClassifyGeometry(features[0].geometry)
  }

  /** The checks on the geometry of a file's only feature: a connected collection of
      LineStrings passes, anything else but a LineString is flagged. */
  function ClassifyGeometry(g: Geometry): (v: Verdict)
    ensures g.LineString? ==> v == Accepted
    ensures v.Flagged? ==> !g.LineString? && v.e == NotLineString + TypeName(g)
  {
    var connected :=
      if g.GeometryCollection? && AllLineStrings(g.geometries) then ConnectedFrom(LinesOf(g.geometries), 0)
      else Some(false);
    if connected.None? then Unreadable
    else if connected.value then Accepted
    else if !g.LineString? then
      Flagged(NotLineString + TypeName(g), if g.GeometryCollection? then Count(|g.geometries|) else Unknown)
    else Accepted
  }

  /** Several features are flagged unless they all have the same coordinates. */
  lemma SeveralFeatures(fc: FeatureCollection)
    requires |fc.features| > 1
    requires forall i :: 0 <= i < |fc.features| ==> fc.features[i].geometry.LineString?
    ensures Classify(fc) == Accepted <==>
      forall i :: 0 <= i < |fc.features| ==>
        Flatten(fc.features[i].geometry.coordinates) == Flatten(fc.features[0].geometry.coordinates)
    ensures Classify(fc) != Accepted ==> Classify(fc) == Flagged(MoreThanOneFeature, Count(|fc.features|))
  {
    var fs := fc.features;
    var r := SameAsFirst(fs, fs[0].geometry);
    assert forall i :: 0 <= i < |fs| ==> JoinedCoordinates(fs[i].geometry) == Some(Flatten(fs[i].geometry.coordinates));
    if r.None? {
      assert JoinedCoordinates(fs[0].geometry).Some?;
      SameAsFirstDefined(fs, fs[0].geometry);
    }
  }

  /** Over LineStrings, comparing coordinates never throws. */
  lemma {:induction false} SameAsFirstDefined(fs: seq<Feature>, first: Geometry)
    requires first.LineString?
    requires forall i :: 0 <= i < |fs| ==> fs[i].geometry.LineString?
    ensures SameAsFirst(fs, first).Some?
  {
    if fs != [] {
      SameAsFirstDefined(fs[1..], first);
    }
  }

  /** A single LineString is never flagged, and a single geometry that is neither a
      LineString nor a collection is flagged with count "?". */
  lemma SingleGeometry(g: Geometry)
    ensures g.LineString? ==> Classify(FeatureCollection([Feature(g)])) == Accepted
    ensures g.OtherGeometry? ==> Classify(FeatureCollection([Feature(g)])) == Flagged(NotLineString + g.kind, Unknown)
  {
  }

  /** A collection of LineStrings is accepted exactly when each segment ends where the next
      begins (throwing on an empty segment that has a neighbour); otherwise it is flagged
      with the number of its segments. */
  lemma SingleCollection(gs: seq<Geometry>)
    requires AllLineStrings(gs)
    ensures var v := Classify(FeatureCollection([Feature(GeometryCollection(gs))]));
      && (v == Accepted <==> forall j :: 0 <= j < |gs| - 1 ==> Connects(LinesOf(gs), j))
      && (v.Flagged? ==> v == Flagged(NotLineString + "GeometryCollection", Count(|gs|)))
  {
    var fc := FeatureCollection([Feature(GeometryCollection(gs))]);
    assert Classify(fc) == ClassifyGeometry(GeometryCollection(gs));
  }

  /** A connected collection stitches into one line that repeats no junction vertex: it
      has one vertex fewer per junction than its segments together. */
  lemma ConnectedStitch(lines: seq<seq<Position>>)
    requires |lines| >= 1 && forall i :: 0 <= i < |lines| ==> lines[i] != []
    requires ConnectedFrom(lines, 0) == Some(true)
    ensures Stitch(lines).Some?
    ensures |Stitch(lines).value| == SumLengths(lines) - (|lines| - 1)
  {
    StitchJunctions(lines);
    AllJunctions(lines);
  }

  /** In a connected list of non-empty lines every junction repeats a vertex. */
  lemma {:induction false} AllJunctions(lines: seq<seq<Position>>)
    requires |lines| >= 1 && forall i :: 0 <= i < |lines| ==> lines[i] != []
    requires forall j :: 0 <= j < |lines| - 1 ==> Connects(lines, j)
    ensures Junctions(lines) == |lines| - 1
  {
    if |lines| >= 2 {
      var init := lines[..|lines| - 1];
      assert forall j :: 0 <= j < |init| ==> init[j] == lines[j];
      assert forall j :: 0 <= j < |init| - 1 ==> Connects(lines, j) && Connects(init, j);
      AllJunctions(init);
      assert Connects(lines, |lines| - 2);
    }
  }

  // ---------------------------------------------------------------------------
  // patchMultilineRoutes: the services to re-fetch

  /** The record for one KML file of a service, if the classifier flags it;
      `readGeometry(type, name)` reads `services/<type>/<name>.geojson`. */
  function FileRecord(s: BusService, fileName: string,
                      readGeometry: (string, string) -> Option<FeatureCollection>): Option<MultilineRecord>
  {
    var numberPattern := BaseName(fileName);
    match readGeometry(s.serviceType, numberPattern)
    case None => None
    case Some(geojson) =>
      match Classify(geojson)
      case Flagged(e, count) => Some(MultilineRecord(s.number, numberPattern, e, count))
      case _ => None
  }

  /** The records of a service's KML files in order. */
  function FileRecords(s: BusService, files: seq<string>,
                       readGeometry: (string, string) -> Option<FeatureCollection>): seq<MultilineRecord>
  {
    if files == [] then []
    else
      var r := FileRecord(s, files[|files| - 1], readGeometry);
      FileRecords(s, files[..|files| - 1], readGeometry) + (if r.Some? then [r.value] else [])
  }

  /** `multilineGeoJSONs`: the records of all inspected services in order; withdrawn
      services and services of other types are not inspected. */
  function MultilineRecords(services: seq<BusService>,
                            readGeometry: (string, string) -> Option<FeatureCollection>): seq<MultilineRecord>
  {
    if services == [] then []
    else
      var s := services[|services| - 1];
      MultilineRecords(services[..|services| - 1], readGeometry) +
      (if Skipped(s) then [] else FileRecords(s, s.kmlFile, readGeometry))
  }

  lemma FileRecordsStep(s: BusService, files: seq<string>, j: nat,
                        readGeometry: (string, string) -> Option<FeatureCollection>)
    requires j < |files|
    ensures var r := FileRecord(s, files[j], readGeometry);
      FileRecords(s, files[..j + 1], readGeometry) == FileRecords(s, files[..j], readGeometry) + (if r.Some? then [r.value] else [])
  {
    assert files[..j + 1][..j] == files[..j];
  }

  /** One file of the inner `kmlFile.forEach`: read its GeoJSON and classify it. */
  method InspectFile(s: BusService, fileName: string, readGeometry: (string, string) -> Option<FeatureCollection>)
    returns (record: Option<MultilineRecord>)
    ensures record == FileRecord(s, fileName, readGeometry)
  {
    record := None;
    var numberPattern := BaseName(fileName);
    var geojson := readGeometry(s.serviceType, numberPattern);
    if geojson.Some? {
      var verdict := Classify(geojson.value);
      if verdict.Flagged? {
        record := Some(MultilineRecord(s.number, numberPattern, verdict.e, verdict.count));
      }
    }
  }

  /** The inner `kmlFile.forEach`. */
  method InspectFiles(s: BusService, readGeometry: (string, string) -> Option<FeatureCollection>,
                      records: seq<MultilineRecord>) returns (out: seq<MultilineRecord>)
    ensures out == records + FileRecords(s, s.kmlFile, readGeometry)
  {
    out := records;
    var j := 0;
    while j < |s.kmlFile|
      invariant 0 <= j <= |s.kmlFile|
      invariant out == records + FileRecords(s, s.kmlFile[..j], readGeometry)
    {
      var record := InspectFile(s, s.kmlFile[j], readGeometry);
      FileRecordsStep(s, s.kmlFile, j, readGeometry);
      if record.Some? {
        AppendAssoc(records, FileRecords(s, s.kmlFile[..j], readGeometry), [record.value]);
        out := out + [record.value];
      }
      j := j + 1;
    }
    assert s.kmlFile[..j] == s.kmlFile;
  }

  /** The `services.forEach` that fills `multilineGeoJSONs`. */
  method FindMultilineRoutes(services: seq<BusService>, readGeometry: (string, string) -> Option<FeatureCollection>)
    returns (multilineGeoJSONs: seq<MultilineRecord>)
    ensures multilineGeoJSONs == MultilineRecords(services, readGeometry)
  {
    multilineGeoJSONs := [];
    var i := 0;
    while i < |services|
      invariant 0 <= i <= |services|
      invariant multilineGeoJSONs == MultilineRecords(services[..i], readGeometry)
    {
      var s := services[i];
      assert services[..i + 1][..i] == services[..i];
      if !Skipped(s) {
        multilineGeoJSONs := InspectFiles(s, readGeometry, multilineGeoJSONs);
      }
      i := i + 1;
    }
    assert services[..i] == services;
  }

  /** Each record is for a KML file of an inspected service, with its base name. */
  lemma {:induction false} FileRecordsSound(s: BusService, files: seq<string>,
                                            readGeometry: (string, string) -> Option<FeatureCollection>, r: MultilineRecord)
    requires r in FileRecords(s, files, readGeometry)
    ensures r.number == s.number
    ensures exists f :: f in files && r.numberPattern == BaseName(f) && FileRecord(s, f, readGeometry) == Some(r)
  {
    var init := files[..|files| - 1];
    if r in FileRecords(s, init, readGeometry) {
      FileRecordsSound(s, init, readGeometry, r);
      var f :| f in init && r.numberPattern == BaseName(f) && FileRecord(s, f, readGeometry) == Some(r);
      assert f in files;
    } else {
      assert files[|files| - 1] in files;
    }
  }

  /** Only services that are neither withdrawn nor of another type are flagged. */
  lemma {:induction false} MultilineRecordsInspected(services: seq<BusService>,
                                                     readGeometry: (string, string) -> Option<FeatureCollection>,
                                                     r: MultilineRecord)
    requires r in MultilineRecords(services, readGeometry)
    ensures exists s :: s in services && !Skipped(s) && s.number == r.number &&
                        exists f :: f in s.kmlFile && FileRecord(s, f, readGeometry) == Some(r)
  {
    var init := services[..|services| - 1];
    var s := services[|services| - 1];
    if r in MultilineRecords(init, readGeometry) {
      MultilineRecordsInspected(init, readGeometry, r);
      var t :| t in init && !Skipped(t) && t.number == r.number &&
               exists f :: f in t.kmlFile && FileRecord(t, f, readGeometry) == Some(r);
      assert t in services;
    } else {
      FileRecordsSound(s, s.kmlFile, readGeometry, r);
      assert s in services;
    }
  }

  function RecordNumber(r: MultilineRecord): string
  {
    r.number
  }

  /** `[...new Set(multilineGeoJSONs.map((g) => '' + g.number))]`. */
  function MultilineServices(records: seq<MultilineRecord>): seq<string>
  {
    Map(DistinctBy(records, RecordNumber), RecordNumber)
  }

  /** Each flagged service is listed once, in order of its first record. */
  lemma MultilineServicesDistinct(records: seq<MultilineRecord>)
    ensures Distinct(MultilineServices(records))
    ensures Elements(MultilineServices(records)) == set r | r in records :: r.number
  {
    DistinctKeys(records, RecordNumber);
  }

  // ---------------------------------------------------------------------------
  // patchMultilineRoutes: the OneMap request

  /** What the OneMap request does for one flagged service. */
  datatype MultilineOutcome = Patched(directions: Directions) | NotFound | Failed

  /** `direction2`: requested only when direction one has elements and its first names a
      truthy `END_BUS_STOP_NUM`, `null` otherwise; `None` when reading or requesting throws. */
  function SecondDirection(number: string, direction1: Json, web: Web): Option<Json>
  {
    match Length(direction1)
    case None => None
    case Some(length) =>
      if !Truthy(length) then Some(Null)
      else
        match Prop(At(direction1, 0).value, "END_BUS_STOP_NUM")
        case None => None
        case Some(end) => if Truthy(end) then web.oneMap(number, end) else Some(Null)
  }

  /** One iteration of the `try` block for a flagged service. */
  function MultilineAttempt(number: string, web: Web): MultilineOutcome
  {
    match web.oneMapAll(number)
    case None => Failed
    case Some(direction1) =>
      match SecondDirection(number, direction1, web)
      case None => Failed
      case Some(direction2) =>
        var directions := MergeDirections(direction1, direction2);
        if Truthy(directions.one) then Patched(directions) else NotFound
  }

  /** The second direction is asked for only when direction one is non-empty and names its
      end stop; otherwise there is no direction two. */
  lemma SecondDirectionRequest(number: string, web: Web)
    requires web.oneMapAll(number).Some?
    ensures var direction1 := web.oneMapAll(number).value;
      var requested := !Nullish(direction1) && Truthy(Length(direction1).value) &&
        Prop(At(direction1, 0).value, "END_BUS_STOP_NUM").Some? &&
        Truthy(Prop(At(direction1, 0).value, "END_BUS_STOP_NUM").value);
      && (requested ==>
            SecondDirection(number, direction1, web) ==
              web.oneMap(number, Prop(At(direction1, 0).value, "END_BUS_STOP_NUM").value))
      && (!requested && MultilineAttempt(number, web).Patched? ==> MultilineAttempt(number, web).directions.two == Null)
  {
  }

  /** The files written by the requests for the flagged services, in order. */
  function MultilineWrites(numbers: seq<string>, web: Web): seq<PatchWrite>
  {
    if numbers == [] then []
    else
      var number := numbers[|numbers| - 1];
      var outcome := MultilineAttempt(number, web);
      MultilineWrites(numbers[..|numbers| - 1], web) +
      (if outcome.Patched? then [PatchWrite(OmPath(number), OmFile(outcome.directions))] else [])
  }

  /** The `for` loop of `patchMultilineRoutes`: one OneMap file per flagged service that
      OneMap knows, and one delay per flagged service, whatever happens to it. */
  method RequestMultiline(multilineServices: seq<string>, web: Web) returns (writes: seq<PatchWrite>, delays: nat)
    ensures writes == MultilineWrites(multilineServices, web)
    ensures delays == |multilineServices|
  {
    writes := [];
    delays := 0;
    var i := 0;
    while i < |multilineServices|
      invariant 0 <= i <= |multilineServices|
      invariant writes == MultilineWrites(multilineServices[..i], web)
      invariant delays == i
    {
      var number := multilineServices[i];
      assert multilineServices[..i + 1][..i] == multilineServices[..i];
      var outcome := MultilineAttempt(number, web);
      if outcome.Patched? {
        writes := writes + [PatchWrite(OmPath(number), OmFile(outcome.directions))];
      }
      delays := delays + 1;
      i := i + 1;
    }
    assert multilineServices[..i] == multilineServices;
  }

  /** `patchMultilineRoutes`: the results file, then the requests for the flagged services.
      `ok` is false when reading the session token throws, after the results file and before
      any request; the pass then has no service list. */
  method PatchMultilineRoutes(services: seq<BusService>, readGeometry: (string, string) -> Option<FeatureCollection>,
                              web: Web)
    returns (writes: seq<PatchWrite>, multilineServices: seq<string>, delays: nat, ok: bool)
    ensures ok == web.sessionToken(1)
    ensures var records := MultilineRecords(services, readGeometry);
      && (!ok ==> writes == [PatchWrite(MultilineResultsPath, MultilineList(records))] && multilineServices == [] && delays == 0)
      && (ok ==>
            && multilineServices == MultilineServices(records)
            && writes == [PatchWrite(MultilineResultsPath, MultilineList(records))] + MultilineWrites(multilineServices, web)
            && delays == |multilineServices|)
  {
    var multilineGeoJSONs := FindMultilineRoutes(services, readGeometry);
    writes := [PatchWrite(MultilineResultsPath, MultilineList(multilineGeoJSONs))];
    multilineServices, delays := [], 0;
    ok := web.sessionToken(1);
    if !ok {
      return;
    }
    multilineServices := MultilineServices(multilineGeoJSONs);
    var requested;
    requested, delays := RequestMultiline(multilineServices, web);
    writes := writes + requested;
  }

  // ---------------------------------------------------------------------------
  // patchBusStopNames

  /** `/[a-z]/.test(name)`. */
  predicate HasLowerAscii(name: string)
  {
    exists i :: 0 <= i < |name| && IsLowerAscii(name[i])
  }

  /** `/[A-Z]{2,}/.test(name)`. */
  predicate HasUpperPair(name: string)
  {
    exists i :: 0 <= i < |name| - 1 && IsUpperAscii(name[i]) && IsUpperAscii(name[i + 1])
  }

  /** A name written all in capitals: no lower-case letter and two capitals in a row. */
  predicate SuspectName(name: string)
  {
    !HasLowerAscii(name) && HasUpperPair(name)
  }

  lemma SuspectNameExamples()
    ensures SuspectName("BLK 123")
    ensures !SuspectName("Blk 123")
    ensures !SuspectName("A1")
  {
    assert IsUpperAscii("BLK 123"[0]) && IsUpperAscii("BLK 123"[1]);
    assert IsLowerAscii("Blk 123"[1]);
  }

  predicate IsLegit(s: RawStop)
  {
    !IsWithdrawn(s.name)
  }

  /** The looked-up stops in order; `lookup(code)` is the TransitLink page's stop name,
      `Some(None)` when the page has none and `None` when the request throws. */
  function StopNameFixes(stops: seq<RawStop>, lookup: string -> Option<Option<string>>): (r: seq<StopNameFix>)
  {
    if stops == [] then []
    else
      var s := stops[|stops| - 1];
      StopNameFixes(stops[..|stops| - 1], lookup) +
      (if SuspectName(s.details) && lookup(s.name).Some? then [StopNameFix(s.name, s.details, lookup(s.name).value)] else [])
  }

  /** `patchBusStopNames`: the records and the one-second waits (one per record). */
  method PatchBusStopNames(stops: seq<RawStop>, lookup: string -> Option<Option<string>>)
    returns (faultyStopNames: seq<StopNameFix>, waits: nat, write: PatchWrite)
    ensures faultyStopNames == StopNameFixes(Filter(stops, IsLegit), lookup)
    ensures waits == |faultyStopNames|
    ensures write == PatchWrite(StopNamesPath, StopNameList(faultyStopNames))
  {
    var legitStops := Filter(stops, IsLegit);
    faultyStopNames := [];
    waits := 0;
    var i := 0;
    while i < |legitStops|
      invariant 0 <= i <= |legitStops|
      invariant faultyStopNames == StopNameFixes(legitStops[..i], lookup)
      invariant waits == |faultyStopNames|
    {
      var stop := legitStops[i];
      assert legitStops[..i + 1][..i] == legitStops[..i];
      var number := stop.name;
      var name := stop.details;
      if SuspectName(name) {
        var page := lookup(number);
        if page.Some? {
          faultyStopNames := faultyStopNames + [StopNameFix(number, name, page.value)];
          waits := waits + 1;
        }
      }
      i := i + 1;
    }
    assert legitStops[..i] == legitStops;
    write := PatchWrite(StopNamesPath, StopNameList(faultyStopNames));
  }

  /** A stop the loop records: its name looks all in capitals and its page could be fetched. */
  predicate Fixable(s: RawStop, lookup: string -> Option<Option<string>>)
  {
    SuspectName(s.details) && lookup(s.name).Some?
  }

  /** The positions of the stops the loop records, in increasing order. */
  function FixedStops(stops: seq<RawStop>, lookup: string -> Option<Option<string>>): seq<int>
  {
    if stops == [] then []
    else FixedStops(stops[..|stops| - 1], lookup) + (if Fixable(stops[|stops| - 1], lookup) then [|stops| - 1] else [])
  }

  /** The record the loop makes for a stop it looks up. */
  function FixOf(s: RawStop, lookup: string -> Option<Option<string>>): StopNameFix
    requires Fixable(s, lookup)
  {
    StopNameFix(s.name, s.details, lookup(s.name).value)
  }

  /** The recorded positions lie in the list, increase strictly, and are exactly the recorded stops. */
  lemma {:induction false} FixedStopsShape(stops: seq<RawStop>, lookup: string -> Option<Option<string>>)
    ensures var idx := FixedStops(stops, lookup);
      |idx| <= |stops| &&
      (forall j :: 0 <= j < |idx| ==> 0 <= idx[j] < |stops| && Fixable(stops[idx[j]], lookup)) &&
      (forall j, k :: 0 <= j < k < |idx| ==> idx[j] < idx[k]) &&
      (forall k :: 0 <= k < |stops| ==> (k in idx <==> Fixable(stops[k], lookup)))
  {
    if stops != [] {
      var init := stops[..|stops| - 1];
      FixedStopsShape(init, lookup);
      var idx0 := FixedStops(init, lookup);
      assert forall k :: 0 <= k < |init| ==> stops[k] == init[k];
      assert |init| !in idx0;
    }
  }

  lemma {:induction false} FixesLength(stops: seq<RawStop>, lookup: string -> Option<Option<string>>)
    ensures |StopNameFixes(stops, lookup)| == |FixedStops(stops, lookup)|
  {
    if stops != [] {
      FixesLength(stops[..|stops| - 1], lookup);
    }
  }

  /** The j-th record is the one for the stop at the j-th recorded position. */
  lemma {:induction false} FixAt(stops: seq<RawStop>, lookup: string -> Option<Option<string>>, j: int)
    requires 0 <= j < |FixedStops(stops, lookup)|
    ensures var idx := FixedStops(stops, lookup);
      j < |StopNameFixes(stops, lookup)| && 0 <= idx[j] < |stops| && Fixable(stops[idx[j]], lookup) &&
      StopNameFixes(stops, lookup)[j] == FixOf(stops[idx[j]], lookup)
  {
    var init := stops[..|stops| - 1];
    FixesLength(init, lookup);
    FixesLength(stops, lookup);
    var idx0 := FixedStops(init, lookup);
    if j < |idx0| {
      FixAt(init, lookup, j);
      assert stops[idx0[j]] == init[idx0[j]];
    }
  }

  /** At most one record per stop: the j-th record is the one for the stop at the j-th
      recorded position, and those positions increase strictly (FixedStopsShape). */
  lemma StopNameFixesAtMostOnePerStop(stops: seq<RawStop>, lookup: string -> Option<Option<string>>)
    ensures var r, idx := StopNameFixes(stops, lookup), FixedStops(stops, lookup);
      |r| == |idx| <= |stops| &&
      (forall j, k :: 0 <= j < k < |idx| ==> 0 <= idx[j] < idx[k] < |stops|) &&
      (forall j :: 0 <= j < |idx| ==>
         (0 <= idx[j] < |stops| && Fixable(stops[idx[j]], lookup) && r[j] == FixOf(stops[idx[j]], lookup)))
  {
    FixedStopsShape(stops, lookup);
    FixesLength(stops, lookup);
    var idx := FixedStops(stops, lookup);
    forall j | 0 <= j < |idx|
      ensures 0 <= idx[j] < |stops| && Fixable(stops[idx[j]], lookup) &&
              StopNameFixes(stops, lookup)[j] == FixOf(stops[idx[j]], lookup)
    {
      FixAt(stops, lookup, j);
    }
  }

  /** A record exists exactly for each stop that is not withdrawn, whose name looks all in
      capitals and whose page could be fetched; its new name is the page's, or `null`. */
  lemma {:induction false} StopNameFixesListed(stops: seq<RawStop>, lookup: string -> Option<Option<string>>, x: StopNameFix)
    ensures x in StopNameFixes(stops, lookup) <==>
      exists s :: s in stops && SuspectName(s.details) && lookup(s.name).Some? &&
                  x == StopNameFix(s.name, s.details, lookup(s.name).value)
  {
    if stops != [] {
      var init := stops[..|stops| - 1];
      var s := stops[|stops| - 1];
      StopNameFixesListed(init, lookup, x);
      assert stops == init + [s];
      if exists t :: t in init && SuspectName(t.details) && lookup(t.name).Some? &&
                     x == StopNameFix(t.name, t.details, lookup(t.name).value) {
        var t :| t in init && SuspectName(t.details) && lookup(t.name).Some? &&
                 x == StopNameFix(t.name, t.details, lookup(t.name).value);
        assert t in stops;
      }
    }
  }

  /** Withdrawn stops are never looked up. */
  lemma WithdrawnStopsSkipped(stops: seq<RawStop>, lookup: string -> Option<Option<string>>, x: StopNameFix)
    requires x in StopNameFixes(Filter(stops, IsLegit), lookup)
    ensures !IsWithdrawn(x.number)
    ensures exists s :: s in stops && s.name == x.number && s.details == x.name && SuspectName(s.details)
  {
    StopNameFixesListed(Filter(stops, IsLegit), lookup, x);
    var s :| s in Filter(stops, IsLegit) && SuspectName(s.details) && lookup(s.name).Some? &&
             x == StopNameFix(s.name, s.details, lookup(s.name).value);
    assert s in stops && IsLegit(s);
  }

  // ---------------------------------------------------------------------------
  // run

  /** The `results` map: `missing-services`, `multiline-services`, `patched-stop-names`. */
  datatype PatchResults = PatchResults(missingServices: seq<string>, multilineServices: seq<string>,
                                       patchedStopNames: seq<StopNameFix>)

  /** The two patches after `patchMissingRoutes`: the multiline pass, then, unless it
      throws on the session token, the stop-name pass. */
  method LaterPasses(services: seq<BusService>, stops: seq<RawStop>,
                     readGeometry: (string, string) -> Option<FeatureCollection>,
                     web: Web, lookup: string -> Option<Option<string>>)
    returns (writes: seq<PatchWrite>, multilineServices: seq<string>, fixes: seq<StopNameFix>, ok: bool)
    ensures ok == web.sessionToken(1)
    ensures var records := MultilineRecords(services, readGeometry);
      && (!ok ==> writes == [PatchWrite(MultilineResultsPath, MultilineList(records))])
      && (ok ==>
            && multilineServices == MultilineServices(records)
            && fixes == StopNameFixes(Filter(stops, IsLegit), lookup)
            && writes == [PatchWrite(MultilineResultsPath, MultilineList(records))] +
                         MultilineWrites(multilineServices, web) + [PatchWrite(StopNamesPath, StopNameList(fixes))])
  {
    var delays, waits;
    writes, multilineServices, delays, ok := PatchMultilineRoutes(services, readGeometry, web);
    fixes := [];
    if ok {
      var stopNamesWrite;
      fixes, waits, stopNamesWrite := PatchBusStopNames(stops, lookup);
      writes := writes + [stopNamesWrite];
    }
  }

  /** `run`: the three patches in order, with the files written; `r` is `None` when `run`
      rejects. A file name that does not match or a first session token that cannot be read
      rejects before any file is written; a second one rejects after the first patch's files
      and the multiline results file, before any later request. */
  method Run(failedKmls: seq<Failure>, services: seq<BusService>, stops: seq<RawStop>,
             readRoute: (string, string) -> Option<seq<RouteDirection>>,
             readGeometry: (string, string) -> Option<FeatureCollection>,
             web: Web, lookup: string -> Option<Option<string>>)
    returns (writes: seq<PatchWrite>, r: Option<PatchResults>)
    ensures r.None? <==> UnmatchedKml(failedKmls) || !web.sessionToken(0) || !web.sessionToken(1)
    ensures UnmatchedKml(failedKmls) || !web.sessionToken(0) ==> writes == []
    ensures !UnmatchedKml(failedKmls) && web.sessionToken(0) ==>
      var missing := MissingLoop(MissingServices(failedKmls, services, readRoute).value, ResolveWith(web));
      var records := MultilineRecords(services, readGeometry);
      var fixes := StopNameFixes(Filter(stops, IsLegit), lookup);
      var first := missing.writes + [PatchWrite(MissingServicesPath, MissingList(missing.missing))];
      var results := [PatchWrite(MultilineResultsPath, MultilineList(records))];
      && (!web.sessionToken(1) ==> writes == first + results)
      && (web.sessionToken(1) ==>
            && r == Some(PatchResults(missing.missing, MultilineServices(records), fixes))
            && writes == first + (results + MultilineWrites(MultilineServices(records), web) +
                                  [PatchWrite(StopNamesPath, StopNameList(fixes))]))
  {
    MissingServicesAbort(failedKmls, services, readRoute);
    var missing := PatchMissingRoutes(failedKmls, services, readRoute, web);
    if missing.None? {
      return [], None;
    }
    var later, multilineServices, faultyStopNames, ok := LaterPasses(services, stops, readGeometry, web, lookup);
    writes := missing.value.0 + later;
    r := if ok then Some(PatchResults(missing.value.1, multilineServices, faultyStopNames)) else None;
  }
}
