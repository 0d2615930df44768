/** The `/api/bus-routes` handler (api/bus-routes.js): bbox validation, then the service
    and bbox filters over the route features (`routes.min.geojson`), or the selection of
    one service's polylines from the polylines table (`routes.min.json`). */
module BusRoutes {
  import opened Common
  import opened Js
  import opened GeoJson
  import opened GeneratorServices
  import V = UtilsValidators

  datatype RoutesQuery = RoutesQuery(service: Option<string>, bbox: Option<string>, simplified: Option<string>,
                                     format: Option<string>)

  /** The handler's answer. `simplified` is the flag echoed in the meta block. */
  datatype RoutesResponse =
    | BadRequest(error: string)
    | FeaturesPage(features: seq<RouteFeature>, total: nat, simplified: bool)
    | PolylinesPage(routes: map<string, map<nat, string>>, total: nat, simplified: bool)

  predicate WantsGeoJson(format: Option<string>)
  {
    format == Some("geojson")
  }

  /** `simplified = 'true'` as a destructuring default, then `simplified === 'true'`. */
  predicate Simplified(simplified: Option<string>)
  {
    simplified.None? || simplified.value == "true"
  }

  /** `([lng, lat]) => lng >= minLng && ...`: a position too short to name both numbers
      compares `undefined` and is never inside. */
  predicate PositionInBox(p: Position, box: seq<Number>)
    requires |box| == 4
  {
    |p| >= 2 && V.InBox(p[0], p[1], box)
  }

  /** `coords.some(...)`: the route has a vertex inside the box. */
  predicate TouchesBox(f: RouteFeature, box: seq<Number>)
    requires |box| == 4
  {
    exists i :: 0 <= i < |f.coordinates| && PositionInBox(f.coordinates[i], box)
  }

  function IsServiceOf(service: string): RouteFeature -> bool
  {
    (f: RouteFeature) => f.number == service
  }

  function TouchesBoxOf(box: seq<Number>): RouteFeature -> bool
    requires |box| == 4
  {
    (f: RouteFeature) => TouchesBox(f, box)
  }

  function FilterRoutes(features: seq<RouteFeature>, service: Option<string>, box: Option<seq<Number>>)
    : seq<RouteFeature>
    requires box.Some? ==> |box.value| == 4
  {
    var ofService := if Given(service) then Filter(features, IsServiceOf(service.value)) else features;
    if box.Some? then Filter(ofService, TouchesBoxOf(box.value)) else ofService
  }

  /** `if (service) { routes = routesData[service] ? { [service]: ... } : {} }`. */
  function SelectService(routes: map<string, map<nat, string>>, service: Option<string>): (r: map<string, map<nat, string>>)
    ensures !Given(service) ==> r == routes
    ensures Given(service) && service.value in routes ==> r == map[service.value := routes[service.value]]
    ensures Given(service) && service.value !in routes ==> r == map[]
  {
    if !Given(service) then routes
    else if service.value in routes then map[service.value := routes[service.value]]
    else map[]
  }

  /** `module.exports` of api/bus-routes.js. */
  function BusRoutes(q: RoutesQuery, features: seq<RouteFeature>, routes: map<string, map<nat, string>>)
    : (r: RoutesResponse)
    ensures V.ValidateBbox(q.bbox).Invalid? <==> r.BadRequest?
    ensures r.FeaturesPage? ==> WantsGeoJson(q.format) && r.total == |r.features|
    ensures r.FeaturesPage? ==> r.features == FilterRoutes(features, q.service, V.ValidateBbox(q.bbox).value)
    ensures r.PolylinesPage? ==> !WantsGeoJson(q.format) && r.total == |r.routes.Keys|
    ensures r.PolylinesPage? ==> r.routes == SelectService(routes, q.service)
    ensures !r.BadRequest? ==> r.simplified == Simplified(q.simplified)
  {
    var bboxValidation := V.ValidateBbox(q.bbox);
    if bboxValidation.Invalid? then BadRequest(bboxValidation.error)
    else if WantsGeoJson(q.format) then
      var page := FilterRoutes(features, q.service, bboxValidation.value);
      FeaturesPage(page, |page|, Simplified(q.simplified))
    else
      var selected := SelectService(routes, q.service);
      PolylinesPage(selected, |selected.Keys|, Simplified(q.simplified))
  }

  /** A route feature is returned exactly when it is in the data, belongs to the requested
      service and has a vertex in the box, and the features keep their order. */
  lemma FilterRoutesSelects(features: seq<RouteFeature>, service: Option<string>, box: Option<seq<Number>>,
                            f: RouteFeature)
    requires box.Some? ==> |box.value| == 4
    ensures f in FilterRoutes(features, service, box) <==>
      && f in features
      && (Given(service) ==> f.number == service.value)
      && (box.Some? ==> TouchesBox(f, box.value))
    ensures IsSubsequence(FilterRoutes(features, service, box), features)
  {
    var ofService := if Given(service) then Filter(features, IsServiceOf(service.value)) else features;
    if f in features && (Given(service) ==> f.number == service.value) && (box.Some? ==> TouchesBox(f, box.value)) {
      if Given(service) { FilterKeeps(features, IsServiceOf(service.value), f); }
      if box.Some? { FilterKeeps(ofService, TouchesBoxOf(box.value), f); }
    }
    SubsequenceReflexive(features);
    if Given(service) { FilterIsSubsequence(features, IsServiceOf(service.value)); }
    if box.Some? {
      FilterIsSubsequence(ofService, TouchesBoxOf(box.value));
      SubsequenceTransitive(Filter(ofService, TouchesBoxOf(box.value)), ofService, features);
    }
  }

  /** The polylines answer has one entry for a known service, none for an unknown one and
      the whole table without a service; the box plays no part. */
  lemma PolylinesSelection(q: RoutesQuery, features: seq<RouteFeature>, routes: map<string, map<nat, string>>)
    requires !WantsGeoJson(q.format) && V.ValidateBbox(q.bbox).Valid?
    ensures var r := BusRoutes(q, features, routes);
      && r.PolylinesPage?
      && (Given(q.service) ==> r.total == (if q.service.value in routes then 1 else 0))
      && (!Given(q.service) ==> r.total == |routes.Keys|)
      && r == BusRoutes(q.(bbox := None), features, routes)
  {
    if Given(q.service) && q.service.value in routes {
      assert map[q.service.value := routes[q.service.value]].Keys == {q.service.value};
    }
  }

  /** `simplified` changes nothing but the flag in the meta block. */
  lemma SimplifiedOnlyInMeta(q: RoutesQuery, features: seq<RouteFeature>, routes: map<string, map<nat, string>>,
                             other: Option<string>)
    ensures var r := BusRoutes(q, features, routes);
      var s := BusRoutes(q.(simplified := other), features, routes);
      && (r.BadRequest? <==> s.BadRequest?)
      && (r.FeaturesPage? ==> s.FeaturesPage? && s.features == r.features && s.total == r.total)
      && (r.PolylinesPage? ==> s.PolylinesPage? && s.routes == r.routes && s.total == r.total)
  {
  }
}
