/** The `/api/bus-stops` handler (api/bus-stops.js): query validation, then the filter and
    limit chain over the stops GeoJSON features or over the entries of the stops JSON
    table. The two data files are inputs; they are what the generator writes
    (`stops.min.geojson` and `stops.min.json`). */
module BusStops {
  import opened Common
  import opened Js
  import opened GeneratorStops
  import V = UtilsValidators

  /** The query parameters the handler reads; each is absent or one string. */
  datatype StopsQuery = StopsQuery(bbox: Option<string>, service: Option<string>, search: Option<string>,
                                   limit: Option<string>, format: Option<string>)

  /** The handler's answer: a 400 with the validator's message, a 200 with the features
      or the stop entries and the meta block, or a 500 when a filter throws. */
  datatype StopsResponse =
    | BadRequest(error: string)
    | FeaturesPage(features: seq<StopFeature>, total: nat, limit: int)
    | StopsPage(stops: seq<(string, StopRow)>, total: nat, limit: int)
    | InternalError

  const MaxLimit := 1000

  /** `(req.query.format || 'json') === 'geojson'`. */
  predicate WantsGeoJson(format: Option<string>)
  {
    format == Some("geojson")
  }

  function InBoxOf(box: seq<Number>): StopFeature -> bool
    requires |box| == 4
  {
    (f: StopFeature) => V.InBox(f.long, f.lat, box)
  }

  function ServesOf(service: string): StopFeature -> bool
  {
    (f: StopFeature) => service in f.services
  }

  /** The search test: the lower-cased name or road contains the lower-cased term. */
  predicate NameOrRoadMatch(name: string, road: string, term: string)
  {
    Includes(ToLower(name), ToLower(term)) || Includes(ToLower(road), ToLower(term))
  }

  function MatchesOf(term: string): StopFeature -> bool
  {
    (f: StopFeature) => NameOrRoadMatch(f.name, f.road, term)
  }

  /** The features kept by the bbox, service and search filters, in their order. */
  function FilterFeatures(features: seq<StopFeature>, box: Option<seq<Number>>, service: Option<string>,
                          search: Option<string>): seq<StopFeature>
    requires box.Some? ==> |box.value| == 4
  {
    var inBox := if box.Some? then Filter(features, InBoxOf(box.value)) else features;
    var served := if Given(service) then Filter(inBox, ServesOf(service.value)) else inBox;
    if Given(search) then Filter(served, MatchesOf(search.value)) else served
  }

  /** What the three filters ask of one feature. */
  predicate Selected(f: StopFeature, box: Option<seq<Number>>, service: Option<string>, search: Option<string>)
    requires box.Some? ==> |box.value| == 4
  {
    && (box.Some? ==> V.InBox(f.long, f.lat, box.value))
    && (Given(service) ==> service.value in f.services)
    && (Given(search) ==> NameOrRoadMatch(f.name, f.road, search.value))
  }

  /** A feature survives the filters exactly when it is in the data and meets all three,
      and the survivors keep their order. */
  lemma FilterFeaturesSelects(features: seq<StopFeature>, box: Option<seq<Number>>, service: Option<string>,
                              search: Option<string>, f: StopFeature)
    requires box.Some? ==> |box.value| == 4
    ensures f in FilterFeatures(features, box, service, search) <==> f in features && Selected(f, box, service, search)
    ensures IsSubsequence(FilterFeatures(features, box, service, search), features)
  {
    var inBox := if box.Some? then Filter(features, InBoxOf(box.value)) else features;
    var served := if Given(service) then Filter(inBox, ServesOf(service.value)) else inBox;
    if f in features && Selected(f, box, service, search) {
      if box.Some? { FilterKeeps(features, InBoxOf(box.value), f); }
      if Given(service) { FilterKeeps(inBox, ServesOf(service.value), f); }
      if Given(search) { FilterKeeps(served, MatchesOf(search.value), f); }
    }
    SubsequenceReflexive(features);
    if box.Some? { FilterIsSubsequence(features, InBoxOf(box.value)); }
    if Given(service) {
      FilterIsSubsequence(inBox, ServesOf(service.value));
      SubsequenceTransitive(served, inBox, features);
    }
    if Given(search) {
      FilterIsSubsequence(served, MatchesOf(search.value));
      SubsequenceTransitive(Filter(served, MatchesOf(search.value)), served, features);
    }
  }

  /** The stop entries the JSON branch returns, as written: each filter reads
      `stopData.services` or `stopData.name` of an entry, which in the generated table is a
      `[lng, lat, name, road]` array, so the read gives `undefined` and the call on it
      throws as soon as there is an entry to test. `None` is that throw. */
  function FilterRowsAsWritten(rows: seq<(string, StopRow)>, service: Option<string>, search: Option<string>)
    : (r: Option<seq<(string, StopRow)>>)
    ensures r.Some? ==> r.value == rows
  {
    if Given(service) && rows != [] then None
    else if Given(search) && rows != [] then None
    else Some(rows)
  }

  /** `module.exports` of api/bus-stops.js, with the JSON branch as written. */
  function BusStops(q: StopsQuery, features: seq<StopFeature>, rows: seq<(string, StopRow)>): (r: StopsResponse)
    ensures V.ValidateLimit(q.limit, MaxLimit).Invalid? ==> r == BadRequest(V.ValidateLimit(q.limit, MaxLimit).error)
    ensures V.ValidateLimit(q.limit, MaxLimit).Valid? && V.ValidateBbox(q.bbox).Invalid? ==>
      r == BadRequest(V.ValidateBbox(q.bbox).error)
    ensures r.FeaturesPage? ==> WantsGeoJson(q.format) && r.total == |r.features| && 1 <= r.limit <= MaxLimit
    ensures r.FeaturesPage? ==>
      r.features == Take(FilterFeatures(features, V.ValidateBbox(q.bbox).value, q.service, q.search), r.limit)
    ensures r.StopsPage? ==> !WantsGeoJson(q.format) && r.total == |r.stops| && 1 <= r.limit <= MaxLimit
    ensures r.StopsPage? ==> r.limit == V.ValidateLimit(q.limit, MaxLimit).value && r.stops == Take(rows, r.limit)
    ensures r == InternalError <==>
      && V.ValidateLimit(q.limit, MaxLimit).Valid? && V.ValidateBbox(q.bbox).Valid?
      && !WantsGeoJson(q.format) && rows != [] && (Given(q.service) || Given(q.search))
  {
    var limitValidation := V.ValidateLimit(q.limit, MaxLimit);
    if limitValidation.Invalid? then BadRequest(limitValidation.error)
    else
      var bboxValidation := V.ValidateBbox(q.bbox);
      if bboxValidation.Invalid? then BadRequest(bboxValidation.error)
      else
        var limit := limitValidation.value;
        assert limit >= 1;
        if WantsGeoJson(q.format) then
          var page := Take(FilterFeatures(features, bboxValidation.value, q.service, q.search), limit);
          FeaturesPage(page, |page|, limit)
        else
          match FilterRowsAsWritten(rows, q.service, q.search)
          case None => InternalError
          case Some(stops) =>
            var page := Take(stops, limit);
            StopsPage(page, |page|, limit)
  }

  /** The page holds at most `limit` features, each in the data and meeting every filter,
      in data order; when no more than `limit` features qualify, all of them are there. */
  lemma GeoJsonPage(q: StopsQuery, features: seq<StopFeature>, rows: seq<(string, StopRow)>)
    requires BusStops(q, features, rows).FeaturesPage?
    ensures var r := BusStops(q, features, rows);
      var box := V.ValidateBbox(q.bbox).value;
      && |r.features| <= r.limit
      && IsSubsequence(r.features, features)
      && (forall f :: f in r.features ==> Selected(f, box, q.service, q.search))
      && (|FilterFeatures(features, box, q.service, q.search)| <= r.limit ==>
            forall f :: f in features && Selected(f, box, q.service, q.search) ==> f in r.features)
  {
    var r := BusStops(q, features, rows);
    var box := V.ValidateBbox(q.bbox).value;
    var all := FilterFeatures(features, box, q.service, q.search);
    forall f | f in r.features
      ensures Selected(f, box, q.service, q.search)
    {
      FilterFeaturesSelects(features, box, q.service, q.search, f);
    }
    forall f | f in features && Selected(f, box, q.service, q.search)
      ensures f in all
    {
      FilterFeaturesSelects(features, box, q.service, q.search, f);
    }
    FilterFeaturesSelects(features, box, q.service, q.search, if features == [] then StopFeature("", "", "", [], 0.0, 0.0) else features[0]);
    TakeIsSubsequence(all, r.limit);
    SubsequenceTransitive(r.features, all, features);
  }

  /** The JSON branch never looks at the box: any valid `bbox` gives the same answer as none. */
  lemma JsonIgnoresBbox(q: StopsQuery, features: seq<StopFeature>, rows: seq<(string, StopRow)>)
    requires !WantsGeoJson(q.format) && V.ValidateBbox(q.bbox).Valid?
    ensures BusStops(q, features, rows) == BusStops(q.(bbox := None), features, rows)
  {
  }

  /** As written, any `service` or `search` on the JSON branch fails with a 500 as soon as
      the table has a stop, for example the `?service=10&limit=50` query. */
  lemma JsonFilterThrows(q: StopsQuery, features: seq<StopFeature>, rows: seq<(string, StopRow)>)
    requires !WantsGeoJson(q.format) && rows != []
    requires V.ValidateLimit(q.limit, MaxLimit).Valid? && V.ValidateBbox(q.bbox).Valid?
    requires Given(q.service) || Given(q.search)
    ensures BusStops(q, features, rows) == InternalError
  {
  }

  /** The documented kind of query, `?service=10&limit=n` for an allowed `n`, fails on any
      non-empty table. */
  lemma DocumentedExampleFails(n: int, features: seq<StopFeature>, rows: seq<(string, StopRow)>)
    requires rows != [] && 1 <= n <= MaxLimit
    ensures BusStops(StopsQuery(None, Some("10"), None, Some(IntString(n)), None), features, rows) == InternalError
  {
    V.LimitReadsIntString(n, MaxLimit);
  }

  // ---------------------------------------------------------------------------
  // The JSON branch as evidently intended

  /** The row filters reading the table's own columns: the services of a stop come from
      `servicesOf` (the generator's stop-to-services table, the one the GeoJSON features
      carry), the name and road from the row. */
  function FilterRows(rows: seq<(string, StopRow)>, servicesOf: map<string, seq<string>>,
                      service: Option<string>, search: Option<string>): seq<(string, StopRow)>
  {
    var served := if Given(service) then Filter(rows, RowServes(servicesOf, service.value)) else rows;
    if Given(search) then Filter(served, RowMatches(search.value)) else served
  }

  function RowServes(servicesOf: map<string, seq<string>>, service: string): ((string, StopRow)) -> bool
  {
    (e: (string, StopRow)) => e.0 in servicesOf && service in servicesOf[e.0]
  }

  function RowMatches(term: string): ((string, StopRow)) -> bool
  {
    (e: (string, StopRow)) => NameOrRoadMatch(e.1.name, e.1.road, term)
  }

  /** What the two corrected row filters ask of one entry. */
  predicate RowSelected(e: (string, StopRow), servicesOf: map<string, seq<string>>,
                        service: Option<string>, search: Option<string>)
  {
    && (Given(service) ==> e.0 in servicesOf && service.value in servicesOf[e.0])
    && (Given(search) ==> NameOrRoadMatch(e.1.name, e.1.road, search.value))
  }

  /** The corrected handler: the JSON branch filters instead of throwing. */
  function BusStopsCorrected(q: StopsQuery, features: seq<StopFeature>, rows: seq<(string, StopRow)>,
                             servicesOf: map<string, seq<string>>): (r: StopsResponse)
    ensures r != InternalError
    ensures !WantsGeoJson(q.format) ==> (r.BadRequest? <==> BusStops(q, features, rows).BadRequest?)
    ensures WantsGeoJson(q.format) ==> r == BusStops(q, features, rows)
    ensures !WantsGeoJson(q.format) && !r.BadRequest? ==> r.StopsPage?
    ensures r.StopsPage? ==>
      && r.limit == V.ValidateLimit(q.limit, MaxLimit).value && 1 <= r.limit <= MaxLimit
      && r.stops == Take(FilterRows(rows, servicesOf, q.service, q.search), r.limit)
      && r.total == |r.stops|
  {
    var limitValidation := V.ValidateLimit(q.limit, MaxLimit);
    if limitValidation.Invalid? then BadRequest(limitValidation.error)
    else
      var bboxValidation := V.ValidateBbox(q.bbox);
      if bboxValidation.Invalid? then BadRequest(bboxValidation.error)
      else
        var limit := limitValidation.value;
        if WantsGeoJson(q.format) then
          var page := Take(FilterFeatures(features, bboxValidation.value, q.service, q.search), limit);
          FeaturesPage(page, |page|, limit)
        else
          var page := Take(FilterRows(rows, servicesOf, q.service, q.search), limit);
          StopsPage(page, |page|, limit)
  }

  /** With the correction, an entry is returned only if its stop is served by the
      requested service and its name or road matches, and the entries keep their order. */
  lemma CorrectedRowsSelect(rows: seq<(string, StopRow)>, servicesOf: map<string, seq<string>>,
                            service: Option<string>, search: Option<string>, e: (string, StopRow))
    ensures e in FilterRows(rows, servicesOf, service, search) <==>
      && e in rows
      && (Given(service) ==> e.0 in servicesOf && service.value in servicesOf[e.0])
      && (Given(search) ==> NameOrRoadMatch(e.1.name, e.1.road, search.value))
    ensures IsSubsequence(FilterRows(rows, servicesOf, service, search), rows)
  {
    var served := if Given(service) then Filter(rows, RowServes(servicesOf, service.value)) else rows;
    if e in rows && (Given(service) ==> e.0 in servicesOf && service.value in servicesOf[e.0]) &&
       (Given(search) ==> NameOrRoadMatch(e.1.name, e.1.road, search.value)) {
      if Given(service) { FilterKeeps(rows, RowServes(servicesOf, service.value), e); }
      if Given(search) { FilterKeeps(served, RowMatches(search.value), e); }
    }
    SubsequenceReflexive(rows);
    if Given(service) { FilterIsSubsequence(rows, RowServes(servicesOf, service.value)); }
    if Given(search) {
      FilterIsSubsequence(served, RowMatches(search.value));
      SubsequenceTransitive(Filter(served, RowMatches(search.value)), served, rows);
    }
  }

  /** With the correction, the JSON page holds at most `limit` entries, each in the table,
      served by the requested service and matching the search, in table order; when no
      more than `limit` entries qualify, all of them are there. */
  lemma CorrectedJsonPage(q: StopsQuery, features: seq<StopFeature>, rows: seq<(string, StopRow)>,
                          servicesOf: map<string, seq<string>>)
    requires BusStopsCorrected(q, features, rows, servicesOf).StopsPage?
    ensures var r := BusStopsCorrected(q, features, rows, servicesOf);
      && |r.stops| <= r.limit
      && IsSubsequence(r.stops, rows)
      && (forall e :: e in r.stops ==> RowSelected(e, servicesOf, q.service, q.search))
      && (|FilterRows(rows, servicesOf, q.service, q.search)| <= r.limit ==>
            forall e :: e in rows && RowSelected(e, servicesOf, q.service, q.search) ==> e in r.stops)
  {
    var r := BusStopsCorrected(q, features, rows, servicesOf);
    var all := FilterRows(rows, servicesOf, q.service, q.search);
    forall e | e in r.stops
      ensures RowSelected(e, servicesOf, q.service, q.search)
    {
      CorrectedRowsSelect(rows, servicesOf, q.service, q.search, e);
    }
    forall e | e in rows && RowSelected(e, servicesOf, q.service, q.search)
      ensures e in all
    {
      CorrectedRowsSelect(rows, servicesOf, q.service, q.search, e);
    }
    CorrectedRowsSelect(rows, servicesOf, q.service, q.search, if rows == [] then ("", StopRow(0.0, 0.0, "", "")) else rows[0]);
    TakeIsSubsequence(all, r.limit);
    SubsequenceTransitive(r.stops, all, rows);
  }
}
