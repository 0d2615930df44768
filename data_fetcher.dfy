/** The route-file fetch loop of the offline pipeline (src/services/data-fetcher.js):
    for every service of an allowed type that is not withdrawn, fetch each route XML
    and each KML file, store what arrives under `data/v1/raw/services/<type>/`, collect
    every failure without aborting, wait once per service, and write the failure
    record only when something failed. The two fetches are oracles. */
module DataFetcher {
  import opened Common
  import opened LtaClient
  import opened GeoJson

  /** What an awaited fetch yields: its value, or the message of the error it throws. */
  datatype Outcome<T> = Ok(value: T) | Err(message: string)

  /** `{fileName, error: error.message}`. */
  datatype Failure = Failure(fileName: string, error: string)

  /** What is written to a file. */
  datatype Stored =
    | RouteFile(directions: seq<RouteDirection>)
    | GeometryFile(geojson: FeatureCollection)
    | FailureRecord(failedXmls: seq<Failure>, failedKmls: seq<Failure>)

  datatype Write = Write(path: string, content: Stored)

  /** `config.serviceTypes`. */
  const ServiceTypes: seq<string> := ["CITYDIRECT", "TRUNK"]

  /** `config.paths.services` and the failure record, as `path.join` normalises them. */
  const ServicesDir: string := "data/v1/raw/services"
  const FailuresPath: string := "data/v1/patch/bus-services-routes.failures.json"

  /** `/^-/.test(number) || !config.serviceTypes.includes(type)`. */
  predicate Skipped(s: BusService)
  {
    IsWithdrawn(s.number) || s.serviceType !in ServiceTypes
  }

  // ---------------------------------------------------------------------------
  // path.parse(fileName).name

  predicate AllSlashes(s: string)
  {
    forall i :: 0 <= i < |s| ==> s[i] == '/'
  }

  /** The path without its trailing `/`s, which `path.parse` ignores. */
  function TrimTrailingSlashes(p: string): string
  {
    if p != [] && p[|p| - 1] == '/' then TrimTrailingSlashes(p[..|p| - 1]) else p
  }

  /** Trimming keeps a prefix that does not end in `/`, and drops only `/`s. */
  lemma {:induction false} TrimTrailingSlashesShape(p: string)
    ensures var q := TrimTrailingSlashes(p);
      q <= p && (q == [] || q[|q| - 1] != '/') && AllSlashes(p[|q|..])
  {
    if p != [] && p[|p| - 1] == '/' {
      var init := p[..|p| - 1];
      TrimTrailingSlashesShape(init);
      var q := TrimTrailingSlashes(init);
      assert p[|q|..] == init[|q|..] + "/";
    }
  }

  /** The part of a path after its last `/`, trailing `/`s ignored. */
  function LastSegment(p: string): (b: string)
    ensures '/' !in b
  {
    var q := TrimTrailingSlashes(p);
    if '/' in q then q[LastIndexOf(q, '/') + 1..] else q
  }

  /** The segment is a suffix of the trimmed path. */
  lemma LastSegmentIsSuffix(p: string)
    ensures var q := TrimTrailingSlashes(p); var b := LastSegment(p);
      |b| <= |q| && b == q[|q| - |b|..]
  {
  }

  /** A trailing `/` does not change the segment: `x/10-1.kml/` and `x/10-1.kml` agree. */
  lemma TrailingSlashIgnored(p: string)
    ensures LastSegment(p + "/") == LastSegment(p)
  {
    assert (p + "/")[..|p|] == p;
  }

  /** `path.parse(p).name`: the last segment without its extension (the text from its last
      `.`, unless that `.` is the segment's first character). */
  function BaseName(p: string): (name: string)
    ensures '/' !in name
  {
    var b := LastSegment(p);
    if b != ".." && |b| >= 2 && '.' in b[1..] then b[..1 + LastIndexOf(b[1..], '.')] else b
  }

  /** The base name of `dir/name.ext` is `name`, for a name and an extension without `/` or `.`. */
  lemma {:induction false} BaseNameOfFile(dir: string, name: string, ext: string)
    requires name != [] && '/' !in name && '.' !in name && '/' !in ext && '.' !in ext
    ensures BaseName(dir + "/" + name + "." + ext) == name
  {
    var p := dir + "/" + name + "." + ext;
    var file := name + "." + ext;
    SegmentOfFile(dir, name, ext);
    DotOfFile(name, ext);
    BaseNameOfSegment(p, file, |name| - 1);
  }

  lemma SegmentOfFile(dir: string, name: string, ext: string)
    requires '/' !in name && '/' !in ext
    ensures LastSegment(dir + "/" + name + "." + ext) == name + "." + ext
  {
    var file := name + "." + ext;
    assert dir + "/" + name + "." + ext == dir + "/" + file;
    NotInConcat('/', name + ".", ext);
    assert file[|name|] == '.';
    LastSegmentAfterSlash(dir, file);
  }

  lemma DotOfFile(name: string, ext: string)
    requires name != [] && '.' !in name && '.' !in ext
    ensures var file := name + "." + ext;
      && file != ".." && |file| >= 2 && file[..|name|] == name
      && '.' in file[1..] && LastIndexOf(file[1..], '.') == |name| - 1
  {
    var file := name + "." + ext;
    assert file[1..] == name[1..] + "." + ext;
    LastDotBeforeExt(name[1..], ext);
    assert file[0] == name[0];
  }

  lemma BaseNameOfSegment(p: string, file: string, k: nat)
    requires LastSegment(p) == file
    requires file != ".." && |file| >= 2 && '.' in file[1..] && LastIndexOf(file[1..], '.') == k
    ensures BaseName(p) == file[..1 + k]
  {
  }

  lemma NotInConcat(c: char, a: string, b: string)
    requires c !in a && c !in b
    ensures c !in a + b
  {
  }

  lemma LastSegmentAfterSlash(dir: string, file: string)
    requires file != [] && '/' !in file
    ensures LastSegment(dir + "/" + file) == file
  {
    var p := dir + "/" + file;
    assert p[|p| - 1] == file[|file| - 1];
    assert TrimTrailingSlashes(p) == p;
    assert p[|dir|] == '/';
    assert p[|dir| + 1..] == file;
    LastIndexOfAt(p, '/', |dir|);
  }

  lemma LastDotBeforeExt(stem: string, ext: string)
    requires '.' !in stem && '.' !in ext
    ensures '.' in stem + "." + ext && LastIndexOf(stem + "." + ext, '.') == |stem|
  {
    var s := stem + "." + ext;
    assert s[|stem|] == '.';
    assert s[|stem| + 1..] == ext;
    LastIndexOfAt(s, '.', |stem|);
  }

  /** The last occurrence of `c` in `s` is the one with no `c` after it. */
  lemma LastIndexOfAt(s: string, c: char, i: nat)
    requires i < |s| && s[i] == c && c !in s[i + 1..]
    ensures c in s && LastIndexOf(s, c) == i
  {
  }

  /** Where a fetched file is stored: `path.join(config.paths.services, type, name + ext)`. */
  function OutputPath(serviceType: string, fileName: string, ext: string): string
  {
    ServicesDir + "/" + serviceType + "/" + BaseName(fileName) + ext
  }

  function AsRouteFile(directions: seq<RouteDirection>): Stored { RouteFile(directions) }

  function AsGeometryFile(geojson: FeatureCollection): Stored { GeometryFile(geojson) }

  function RouteFiles(s: BusService): seq<string> { s.routeFile }

  function KmlFiles(s: BusService): seq<string> { s.kmlFile }

  // ---------------------------------------------------------------------------
  // What the loop does, as functions of its inputs

  /** The writes of one inner loop over `files`: one per successful fetch, in order. */
  function FileWrites<T>(serviceType: string, files: seq<string>, fetch: (string, string) -> Outcome<T>,
                         ext: string, store: T -> Stored): seq<Write>
  {
    if files == [] then []
    else
      var name := files[|files| - 1];
      FileWrites(serviceType, files[..|files| - 1], fetch, ext, store) +
      (match fetch(serviceType, name)
       case Ok(v) => [Write(OutputPath(serviceType, name, ext), store(v))]
       case Err(_) => [])
  }

  lemma FileLoopStep<T>(serviceType: string, files: seq<string>, j: nat, fetch: (string, string) -> Outcome<T>,
                        ext: string, store: T -> Stored)
    requires j < |files|
    ensures FileWrites(serviceType, files[..j + 1], fetch, ext, store) ==
      FileWrites(serviceType, files[..j], fetch, ext, store) +
      (match fetch(serviceType, files[j])
       case Ok(v) => [Write(OutputPath(serviceType, files[j], ext), store(v))]
       case Err(_) => [])
    ensures FileFailures(serviceType, files[..j + 1], fetch) ==
      FileFailures(serviceType, files[..j], fetch) +
      (match fetch(serviceType, files[j])
       case Ok(_) => []
       case Err(message) => [Failure(files[j], message)])
  {
    assert files[..j + 1][..j] == files[..j];
  }

  /** The failures of one inner loop over `files`: one per failed fetch, in order. */
  function FileFailures<T>(serviceType: string, files: seq<string>, fetch: (string, string) -> Outcome<T>): seq<Failure>
  {
    if files == [] then []
    else
      var name := files[|files| - 1];
      FileFailures(serviceType, files[..|files| - 1], fetch) +
      (match fetch(serviceType, name)
       case Ok(_) => []
       case Err(message) => [Failure(name, message)])
  }

  /** The writes for one service: its route files, then its KML files; none when skipped. */
  function ServiceWrites(s: BusService, fetchRoute: (string, string) -> Outcome<seq<RouteDirection>>,
                         fetchGeometry: (string, string) -> Outcome<FeatureCollection>): seq<Write>
  {
    if Skipped(s) then []
    else FileWrites(s.serviceType, s.routeFile, fetchRoute, ".json", AsRouteFile) +
         FileWrites(s.serviceType, s.kmlFile, fetchGeometry, ".geojson", AsGeometryFile)
  }

  /** The writes of the loop over the first `n` services, in order. */
  function LoopWrites(services: seq<BusService>, n: nat, fetchRoute: (string, string) -> Outcome<seq<RouteDirection>>,
                      fetchGeometry: (string, string) -> Outcome<FeatureCollection>): seq<Write>
    requires n <= |services|
  {
    if n == 0 then []
    else if Skipped(services[n - 1]) then LoopWrites(services, n - 1, fetchRoute, fetchGeometry)
    else LoopWrites(services, n - 1, fetchRoute, fetchGeometry) + ServiceWrites(services[n - 1], fetchRoute, fetchGeometry)
  }

  /** `failedXMLs` (with `files == RouteFiles`) or `failedKMLs` (with `files == KmlFiles`)
      after the first `n` services. */
  function Failures<T>(services: seq<BusService>, n: nat, files: BusService -> seq<string>,
                       fetch: (string, string) -> Outcome<T>): seq<Failure>
    requires n <= |services|
  {
    if n == 0 then []
    else
      var s := services[n - 1];
      Failures(services, n - 1, files, fetch) + ServiceFailures(services[n - 1], files, fetch)
  }

  /** The failures recorded for one service: none when it is skipped. */
  function ServiceFailures<T>(s: BusService, files: BusService -> seq<string>, fetch: (string, string) -> Outcome<T>): seq<Failure>
  {
    if Skipped(s) then [] else FileFailures(s.serviceType, files(s), fetch)
  }

  /** The first `n` services that the loop body runs for: one delay each. */
  function Processed(services: seq<BusService>, n: nat): seq<BusService>
    requires n <= |services|
  {
    if n == 0 then []
    else
      var s := services[n - 1];
      Processed(services, n - 1) + (if Skipped(s) then [] else [s])
  }

  /** Everything the loop over the first `n` services produces at once: its writes, its
      two failure lists and its delays. */
  datatype Effects = Effects(writes: seq<Write>, failedXmls: seq<Failure>, failedKmls: seq<Failure>, delays: nat)

  function LoopEffects(services: seq<BusService>, n: nat, fetchRoute: (string, string) -> Outcome<seq<RouteDirection>>,
                       fetchGeometry: (string, string) -> Outcome<FeatureCollection>): Effects
    requires n <= |services|
  {
    if n == 0 then Effects([], [], [], 0)
    else
      var e := LoopEffects(services, n - 1, fetchRoute, fetchGeometry);
      var s := services[n - 1];
      if Skipped(s) then e
      else Effects(e.writes + ServiceWrites(s, fetchRoute, fetchGeometry),
                   e.failedXmls + ServiceFailures(s, RouteFiles, fetchRoute),
                   e.failedKmls + ServiceFailures(s, KmlFiles, fetchGeometry),
                   e.delays + 1)
  }

  /** The combined effects agree, field by field, with the separate descriptions. */
  lemma LoopEffectsParts(services: seq<BusService>, n: nat, fetchRoute: (string, string) -> Outcome<seq<RouteDirection>>,
      fetchGeometry: (string, string) -> Outcome<FeatureCollection>)
    requires n <= |services|
    ensures var e := LoopEffects(services, n, fetchRoute, fetchGeometry);
      && e.writes == LoopWrites(services, n, fetchRoute, fetchGeometry)
      && e.failedXmls == Failures(services, n, RouteFiles, fetchRoute)
      && e.failedKmls == Failures(services, n, KmlFiles, fetchGeometry)
      && e.delays == |Processed(services, n)|
  {
    EffectWrites(services, n, fetchRoute, fetchGeometry);
    EffectXmls(services, n, fetchRoute, fetchGeometry);
    EffectKmls(services, n, fetchRoute, fetchGeometry);
    EffectDelays(services, n, fetchRoute, fetchGeometry);
  }

  lemma {:induction false} EffectWrites(services: seq<BusService>, n: nat, fetchRoute: (string, string) -> Outcome<seq<RouteDirection>>,
      fetchGeometry: (string, string) -> Outcome<FeatureCollection>)
    requires n <= |services|
    ensures LoopEffects(services, n, fetchRoute, fetchGeometry).writes == LoopWrites(services, n, fetchRoute, fetchGeometry)
  {
    if n > 0 {
      EffectWrites(services, n - 1, fetchRoute, fetchGeometry);
    }
  }

  lemma {:induction false} EffectXmls(services: seq<BusService>, n: nat, fetchRoute: (string, string) -> Outcome<seq<RouteDirection>>,
      fetchGeometry: (string, string) -> Outcome<FeatureCollection>)
    requires n <= |services|
    ensures LoopEffects(services, n, fetchRoute, fetchGeometry).failedXmls == Failures(services, n, RouteFiles, fetchRoute)
  {
    if n > 0 {
      EffectXmls(services, n - 1, fetchRoute, fetchGeometry);
    }
  }

  lemma {:induction false} EffectKmls(services: seq<BusService>, n: nat, fetchRoute: (string, string) -> Outcome<seq<RouteDirection>>,
      fetchGeometry: (string, string) -> Outcome<FeatureCollection>)
    requires n <= |services|
    ensures LoopEffects(services, n, fetchRoute, fetchGeometry).failedKmls == Failures(services, n, KmlFiles, fetchGeometry)
  {
    if n > 0 {
      EffectKmls(services, n - 1, fetchRoute, fetchGeometry);
    }
  }

  lemma {:induction false} EffectDelays(services: seq<BusService>, n: nat, fetchRoute: (string, string) -> Outcome<seq<RouteDirection>>,
      fetchGeometry: (string, string) -> Outcome<FeatureCollection>)
    requires n <= |services|
    ensures LoopEffects(services, n, fetchRoute, fetchGeometry).delays == |Processed(services, n)|
  {
    if n > 0 {
      EffectDelays(services, n - 1, fetchRoute, fetchGeometry);
    }
  }

  /** Every file written by `fetchServiceRoutes`, in order: the fetched files, then the
      failure record when either list is non-empty. */
  function FetchWrites(services: seq<BusService>, fetchRoute: (string, string) -> Outcome<seq<RouteDirection>>,
                       fetchGeometry: (string, string) -> Outcome<FeatureCollection>): seq<Write>
  {
    var xmls := Failures(services, |services|, RouteFiles, fetchRoute);
    var kmls := Failures(services, |services|, KmlFiles, fetchGeometry);
    LoopWrites(services, |services|, fetchRoute, fetchGeometry) +
    (if xmls != [] || kmls != [] then [Write(FailuresPath, FailureRecord(xmls, kmls))] else [])
  }

  // ---------------------------------------------------------------------------
  // The fetcher's state and its loop

  class Fetcher {
    /** Files written so far, in order (a later write to the same path replaces the file). */
    var writes: seq<Write>
    /** The `failed-xmls` and `failed-kmls` results. */
    var failedXmls: seq<Failure>
    var failedKmls: seq<Failure>
    /** Rate-limiting delays issued so far. */
    var delays: nat

    constructor ()
      ensures writes == [] && failedXmls == [] && failedKmls == [] && delays == 0
    {
      writes := [];
      failedXmls := [];
      failedKmls := [];
      delays := 0;
    }

    /** `fetchServiceRoutes`. */
    method FetchServiceRoutes(services: seq<BusService>,
                              fetchRoute: (string, string) -> Outcome<seq<RouteDirection>>,
                              fetchGeometry: (string, string) -> Outcome<FeatureCollection>)
      modifies this
      ensures failedXmls == Failures(services, |services|, RouteFiles, fetchRoute)
      ensures failedKmls == Failures(services, |services|, KmlFiles, fetchGeometry)
      ensures writes == old(writes) + FetchWrites(services, fetchRoute, fetchGeometry)
      ensures delays == old(delays) + |Processed(services, |services|)|
    {
      var xmls, kmls := FetchAll(services, fetchRoute, fetchGeometry);
      LoopEffectsParts(services, |services|, fetchRoute, fetchGeometry);
      if |xmls| > 0 || |kmls| > 0 {
        AppendAssoc(old(writes), LoopWrites(services, |services|, fetchRoute, fetchGeometry), [Write(FailuresPath, FailureRecord(xmls, kmls))]);
        writes := writes + [Write(FailuresPath, FailureRecord(xmls, kmls))];
      }
      failedXmls := xmls;
      failedKmls := kmls;
    }

    /** The loop over the services of `fetchServiceRoutes`. */
    method FetchAll(services: seq<BusService>,
                    fetchRoute: (string, string) -> Outcome<seq<RouteDirection>>,
                    fetchGeometry: (string, string) -> Outcome<FeatureCollection>)
      returns (xmls: seq<Failure>, kmls: seq<Failure>)
      modifies this`writes, this`delays
      ensures var e := LoopEffects(services, |services|, fetchRoute, fetchGeometry);
        writes == old(writes) + e.writes && xmls == e.failedXmls && kmls == e.failedKmls &&
        delays == old(delays) + e.delays
    {
      xmls, kmls := [], [];
      var i := 0;
      while i < |services|
        invariant 0 <= i <= |services|
        invariant var e := LoopEffects(services, i, fetchRoute, fetchGeometry);
          writes == old(writes) + e.writes && xmls == e.failedXmls && kmls == e.failedKmls &&
          delays == old(delays) + e.delays
      {
        var s := services[i];
        if !Skipped(s) {
          var xf, kf := FetchServiceFiles(s, fetchRoute, fetchGeometry);
          AppendAssoc(old(writes), LoopEffects(services, i, fetchRoute, fetchGeometry).writes, ServiceWrites(s, fetchRoute, fetchGeometry));
          xmls := xmls + xf;
          kmls := kmls + kf;
          delays := delays + 1;
        }
        i := i + 1;
      }
    }

    /** The body of the loop for one service that is not skipped: its route XML files, then
        its KML files. */
    method FetchServiceFiles(s: BusService,
                             fetchRoute: (string, string) -> Outcome<seq<RouteDirection>>,
                             fetchGeometry: (string, string) -> Outcome<FeatureCollection>)
      returns (xmls: seq<Failure>, kmls: seq<Failure>)
      requires !Skipped(s)
      modifies this`writes
      ensures writes == old(writes) + ServiceWrites(s, fetchRoute, fetchGeometry)
      ensures xmls == ServiceFailures(s, RouteFiles, fetchRoute)
      ensures kmls == ServiceFailures(s, KmlFiles, fetchGeometry)
    {
      xmls := FetchFiles(s.serviceType, s.routeFile, fetchRoute, ".json", AsRouteFile);
      kmls := FetchFiles(s.serviceType, s.kmlFile, fetchGeometry, ".geojson", AsGeometryFile);
    }

    /** One inner loop: fetch each file in its own `try`, store what arrives, and collect
        `{fileName, error}` for what throws. */
    method FetchFiles<T>(serviceType: string, files: seq<string>, fetch: (string, string) -> Outcome<T>,
                         ext: string, store: T -> Stored)
      returns (failures: seq<Failure>)
      modifies this`writes
      ensures writes == old(writes) + FileWrites(serviceType, files, fetch, ext, store)
      ensures failures == FileFailures(serviceType, files, fetch)
    {
      failures := [];
      var j := 0;
      while j < |files|
        invariant 0 <= j <= |files|
        invariant failures == FileFailures(serviceType, files[..j], fetch)
        invariant writes == old(writes) + FileWrites(serviceType, files[..j], fetch, ext, store)
      {
        var name := files[j];
        FileLoopStep(serviceType, files, j, fetch, ext, store);
        match fetch(serviceType, name) {
          case Ok(v) =>
            var w := [Write(OutputPath(serviceType, name, ext), store(v))];
            AppendAssoc(old(writes), FileWrites(serviceType, files[..j], fetch, ext, store), w);
            writes := writes + w;
          case Err(message) =>
            failures := failures + [Failure(name, message)];
        }
        j := j + 1;
      }
      assert files[..j] == files;
    }
  }

  // ---------------------------------------------------------------------------
  // Properties

  /** A failure of an inner loop names one of its files and carries that fetch's error. */
  lemma {:induction false} FileFailureSound<T>(t: string, files: seq<string>, fetch: (string, string) -> Outcome<T>, f: Failure)
    requires f in FileFailures(t, files, fetch)
    ensures f.fileName in files && fetch(t, f.fileName) == Err(f.error)
  {
    var init := files[..|files| - 1];
    if f in FileFailures(t, init, fetch) {
      FileFailureSound(t, init, fetch, f);
    }
  }

  /** Every failed fetch of an inner loop is recorded. */
  lemma {:induction false} FileFailureComplete<T>(t: string, files: seq<string>, fetch: (string, string) -> Outcome<T>, name: string)
    requires name in files && fetch(t, name).Err?
    ensures Failure(name, fetch(t, name).message) in FileFailures(t, files, fetch)
  {
    var init := files[..|files| - 1];
    if files[|files| - 1] != name {
      assert name in init;
      FileFailureComplete(t, init, fetch, name);
    }
  }

  /** Failures come only from services that were not skipped: each names a file of such a
      service whose fetch threw with the recorded message. */
  lemma {:induction false} FailureSound<T>(services: seq<BusService>, n: nat, files: BusService -> seq<string>,
                                           fetch: (string, string) -> Outcome<T>, f: Failure)
    requires n <= |services| && f in Failures(services, n, files, fetch)
    ensures exists k :: 0 <= k < n && !Skipped(services[k]) && f.fileName in files(services[k]) &&
                         fetch(services[k].serviceType, f.fileName) == Err(f.error)
  {
    var s := services[n - 1];
    if f in Failures(services, n - 1, files, fetch) {
      FailureSound(services, n - 1, files, fetch, f);
    } else {
      FileFailureSound(s.serviceType, files(s), fetch, f);
    }
  }

  /** A failed fetch never aborts the run: every file of every processed service whose
      fetch throws is recorded, whatever failed before it. */
  lemma {:induction false} FailureComplete<T>(services: seq<BusService>, n: nat, files: BusService -> seq<string>,
                                              fetch: (string, string) -> Outcome<T>, k: nat, name: string)
    requires k < n <= |services|
    requires !Skipped(services[k]) && name in files(services[k]) && fetch(services[k].serviceType, name).Err?
    ensures Failure(name, fetch(services[k].serviceType, name).message) in Failures(services, n, files, fetch)
  {
    if k == n - 1 {
      FileFailureComplete(services[k].serviceType, files(services[k]), fetch, name);
    } else {
      FailureComplete(services, n - 1, files, fetch, k, name);
    }
  }

  /** Exactly the services that are not skipped get a delay, each once. */
  lemma {:induction false} ProcessedMembers(services: seq<BusService>, n: nat, s: BusService)
    requires n <= |services|
    ensures s in Processed(services, n) <==> s in services[..n] && !Skipped(s)
    ensures |Processed(services, n)| <= n
  {
    if n > 0 {
      ProcessedMembers(services, n - 1, s);
      assert services[..n] == services[..n - 1] + [services[n - 1]];
    }
  }

  /** Every write of an inner loop stores a successful fetch of one of its files at that
      file's output path. */
  lemma {:induction false} FileWriteSound<T>(t: string, files: seq<string>, fetch: (string, string) -> Outcome<T>,
                                             ext: string, store: T -> Stored, w: Write)
    requires w in FileWrites(t, files, fetch, ext, store)
    ensures exists name :: name in files && fetch(t, name).Ok? &&
              w == Write(OutputPath(t, name, ext), store(fetch(t, name).value))
  {
    var init := files[..|files| - 1];
    if w in FileWrites(t, init, fetch, ext, store) {
      FileWriteSound(t, init, fetch, ext, store, w);
      var name :| name in init && fetch(t, name).Ok? && w == Write(OutputPath(t, name, ext), store(fetch(t, name).value));
      assert name in files;
    } else {
      assert files[|files| - 1] in files;
    }
  }

  /** Files are only stored for services that are not skipped, under the directory of the
      service's type. */
  lemma {:induction false} LoopWriteSound(services: seq<BusService>, n: nat, fetchRoute: (string, string) -> Outcome<seq<RouteDirection>>,
                                          fetchGeometry: (string, string) -> Outcome<FeatureCollection>, w: Write)
    requires n <= |services| && w in LoopWrites(services, n, fetchRoute, fetchGeometry)
    ensures exists k :: 0 <= k < n && !Skipped(services[k]) && ServicesDir + "/" + services[k].serviceType + "/" <= w.path
  {
    var s := services[n - 1];
    if w in LoopWrites(services, n - 1, fetchRoute, fetchGeometry) {
      LoopWriteSound(services, n - 1, fetchRoute, fetchGeometry, w);
    } else {
      var t := s.serviceType;
      if w in FileWrites(t, s.routeFile, fetchRoute, ".json", AsRouteFile) {
        FileWriteSound(t, s.routeFile, fetchRoute, ".json", AsRouteFile, w);
        var name :| name in s.routeFile && fetchRoute(t, name).Ok? &&
                    w == Write(OutputPath(t, name, ".json"), AsRouteFile(fetchRoute(t, name).value));
        OutputPathPrefix(t, name, ".json");
      } else {
        FileWriteSound(t, s.kmlFile, fetchGeometry, ".geojson", AsGeometryFile, w);
        var name :| name in s.kmlFile && fetchGeometry(t, name).Ok? &&
                    w == Write(OutputPath(t, name, ".geojson"), AsGeometryFile(fetchGeometry(t, name).value));
        OutputPathPrefix(t, name, ".geojson");
      }
    }
  }

  lemma OutputPathPrefix(t: string, name: string, ext: string)
    ensures ServicesDir + "/" + t + "/" <= OutputPath(t, name, ext)
  {
  }

  /** A path under a service type's directory is not the failure record's. */
  lemma NotFailuresPath(t: string, p: string)
    requires ServicesDir + "/" + t + "/" <= p
    ensures p != FailuresPath
  {
    var prefix := ServicesDir + "/" + t + "/";
    assert prefix[8] == ServicesDir[8] == 'r';
    assert FailuresPath[8] == 'p';
  }

  /** The failure record is written exactly when some fetch failed, and it is the last write. */
  lemma FailureRecordWritten(services: seq<BusService>, fetchRoute: (string, string) -> Outcome<seq<RouteDirection>>,
                             fetchGeometry: (string, string) -> Outcome<FeatureCollection>)
    ensures var ws := FetchWrites(services, fetchRoute, fetchGeometry);
      (exists w :: w in ws && w.path == FailuresPath) <==>
      (Failures(services, |services|, RouteFiles, fetchRoute) != [] || Failures(services, |services|, KmlFiles, fetchGeometry) != [])
  {
    var n := |services|;
    var xmls := Failures(services, n, RouteFiles, fetchRoute);
    var kmls := Failures(services, n, KmlFiles, fetchGeometry);
    var loop := LoopWrites(services, n, fetchRoute, fetchGeometry);
    var ws := FetchWrites(services, fetchRoute, fetchGeometry);
    forall w | w in loop ensures w.path != FailuresPath {
      LoopWriteSound(services, n, fetchRoute, fetchGeometry, w);
      var k :| 0 <= k < n && !Skipped(services[k]) && ServicesDir + "/" + services[k].serviceType + "/" <= w.path;
      NotFailuresPath(services[k].serviceType, w.path);
    }
    if xmls != [] || kmls != [] {
      var record := Write(FailuresPath, FailureRecord(xmls, kmls));
      assert ws == loop + [record];
      assert record in ws;
    } else {
      assert ws == loop;
    }
  }
}
