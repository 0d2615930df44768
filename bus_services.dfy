/** The `/api/bus-services` handler (api/bus-services.js): limit validation, then the
    search, origin and destination filters and the limit over the entries of the services
    table the generator writes (`services.min.json`), in the table's entry order. */
module BusServices {
  import opened Common
  import opened Js
  import opened GeneratorServices
  import V = UtilsValidators

  datatype ServicesQuery = ServicesQuery(search: Option<string>, origin: Option<string>,
                                         destination: Option<string>, limit: Option<string>)

  datatype ServicesResponse =
    | BadRequest(error: string)
    | ServicesPage(services: seq<(string, ServiceData)>, total: nat, limit: int)

  /** The cap this handler passes to `validateLimit`. */
  const MaxLimit := 100

  /** The search test: the lower-cased number or name contains the lower-cased term. */
  predicate NumberOrNameMatch(number: string, data: ServiceData, term: string)
  {
    Includes(ToLower(number), ToLower(term)) || Includes(ToLower(data.name), ToLower(term))
  }

  /** `serviceData.routes.some((route) => route.includes(stop))`. */
  predicate CallsAt(data: ServiceData, stop: string)
  {
    exists i :: 0 <= i < |data.routes| && stop in data.routes[i]
  }

  function SearchOf(term: string): ((string, ServiceData)) -> bool
  {
    (e: (string, ServiceData)) => NumberOrNameMatch(e.0, e.1, term)
  }

  function CallsAtOf(stop: string): ((string, ServiceData)) -> bool
  {
    (e: (string, ServiceData)) => CallsAt(e.1, stop)
  }

  /** The entries kept by the three filters, in their order. */
  function FilterServices(services: seq<(string, ServiceData)>, search: Option<string>, origin: Option<string>,
                          destination: Option<string>): seq<(string, ServiceData)>
  {
    var searched := if Given(search) then Filter(services, SearchOf(search.value)) else services;
    var fromOrigin := if Given(origin) then Filter(searched, CallsAtOf(origin.value)) else searched;
    if Given(destination) then Filter(fromOrigin, CallsAtOf(destination.value)) else fromOrigin
  }

  /** What the filters ask of one entry. The origin and destination tests are separate:
      they may be met by different routes, and nothing orders the two stops. */
  predicate Selected(e: (string, ServiceData), search: Option<string>, origin: Option<string>,
                     destination: Option<string>)
  {
    && (Given(search) ==> NumberOrNameMatch(e.0, e.1, search.value))
    && (Given(origin) ==> CallsAt(e.1, origin.value))
    && (Given(destination) ==> CallsAt(e.1, destination.value))
  }

  /** An entry survives the filters exactly when it is in the table and meets every one,
      and the survivors keep their order. */
  lemma FilterServicesSelects(services: seq<(string, ServiceData)>, search: Option<string>, origin: Option<string>,
                              destination: Option<string>, e: (string, ServiceData))
    ensures e in FilterServices(services, search, origin, destination) <==>
      e in services && Selected(e, search, origin, destination)
    ensures IsSubsequence(FilterServices(services, search, origin, destination), services)
  {
    var searched := if Given(search) then Filter(services, SearchOf(search.value)) else services;
    var fromOrigin := if Given(origin) then Filter(searched, CallsAtOf(origin.value)) else searched;
    if e in services && Selected(e, search, origin, destination) {
      if Given(search) { FilterKeeps(services, SearchOf(search.value), e); }
      if Given(origin) { FilterKeeps(searched, CallsAtOf(origin.value), e); }
      if Given(destination) { FilterKeeps(fromOrigin, CallsAtOf(destination.value), e); }
    }
    SubsequenceReflexive(services);
    if Given(search) { FilterIsSubsequence(services, SearchOf(search.value)); }
    if Given(origin) {
      FilterIsSubsequence(searched, CallsAtOf(origin.value));
      SubsequenceTransitive(fromOrigin, searched, services);
    }
    if Given(destination) {
      FilterIsSubsequence(fromOrigin, CallsAtOf(destination.value));
      SubsequenceTransitive(Filter(fromOrigin, CallsAtOf(destination.value)), fromOrigin, services);
    }
  }

  /** `module.exports` of api/bus-services.js. */
  function BusServices(q: ServicesQuery, services: seq<(string, ServiceData)>): (r: ServicesResponse)
    ensures V.ValidateLimit(q.limit, MaxLimit).Invalid? <==> r.BadRequest?
    ensures r.BadRequest? ==> r.error == V.ValidateLimit(q.limit, MaxLimit).error
    ensures r.ServicesPage? ==> r.total == |r.services| && 1 <= r.limit <= MaxLimit
    ensures r.ServicesPage? ==> r.services == Take(FilterServices(services, q.search, q.origin, q.destination), r.limit)
  {
    var limitValidation := V.ValidateLimit(q.limit, MaxLimit);
    if limitValidation.Invalid? then BadRequest(limitValidation.error)
    else
      var page := Take(FilterServices(services, q.search, q.origin, q.destination), limitValidation.value);
      ServicesPage(page, |page|, limitValidation.value)
  }

  /** The page holds at most 100 entries, each in the table and meeting every filter, in
      table order; when no more than the limit qualify, all of them are there. */
  lemma ServicesPageSelects(q: ServicesQuery, services: seq<(string, ServiceData)>)
    requires BusServices(q, services).ServicesPage?
    ensures var r := BusServices(q, services);
      && |r.services| <= MaxLimit
      && IsSubsequence(r.services, services)
      && (forall e :: e in r.services ==> Selected(e, q.search, q.origin, q.destination))
      && (|FilterServices(services, q.search, q.origin, q.destination)| <= r.limit ==>
            forall e :: e in services && Selected(e, q.search, q.origin, q.destination) ==> e in r.services)
  {
    var r := BusServices(q, services);
    var all := FilterServices(services, q.search, q.origin, q.destination);
    forall e | e in r.services
      ensures Selected(e, q.search, q.origin, q.destination)
    {
      FilterServicesSelects(services, q.search, q.origin, q.destination, e);
    }
    forall e | e in services && Selected(e, q.search, q.origin, q.destination)
      ensures e in all
    {
      FilterServicesSelects(services, q.search, q.origin, q.destination, e);
    }
    FilterServicesSelects(services, q.search, q.origin, q.destination,
                          if services == [] then ("", ServiceData("", [])) else services[0]);
    TakeIsSubsequence(all, r.limit);
    SubsequenceTransitive(r.services, all, services);
  }

  /** Swapping origin and destination selects the same services: no order is imposed. */
  lemma OriginDestinationSymmetric(services: seq<(string, ServiceData)>, search: Option<string>,
                                   a: Option<string>, b: Option<string>, e: (string, ServiceData))
    ensures e in FilterServices(services, search, a, b) <==> e in FilterServices(services, search, b, a)
  {
    FilterServicesSelects(services, search, a, b, e);
    FilterServicesSelects(services, search, b, a, e);
  }

  /** The limit defaults to 100 and cannot be raised above it. */
  lemma LimitCapped(q: ServicesQuery, services: seq<(string, ServiceData)>, n: int)
    requires n > MaxLimit
    ensures BusServices(q.(limit := None), services).ServicesPage?
    ensures BusServices(q.(limit := None), services).limit == 100
    ensures BusServices(q.(limit := Some(IntString(n))), services) ==
      BadRequest(V.LimitExceeded + IntString(MaxLimit))
  {
    V.LimitReadsIntString(n, MaxLimit);
  }
}
