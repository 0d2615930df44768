/** The primary provider's client (src/data-sources/lta-client.js): flattening the parsed
    service list, mapping a parsed route file to directions, and the DataMall `$skip`
    pagination. HTTP and XML parsing are outside the model: their results are inputs. */
module LtaClient {
  import opened Common

  /** How the XML parser presents a repeated tag that is not in its array mode: absent,
      a single object, or an array of two or more. */
  datatype XmlElements<T> = Missing | One(element: T) | Many(elements: seq<T>)

  /** The `file` list under `kmlFile` or `routeFile`, always an array (array mode). */
  datatype FileList = FileList(file: seq<string>)

  /** A parsed `<bus_service>`: its number, its other attributes, and its two file lists. */
  datatype XmlService = XmlService(number: string, props: map<string, string>, kmlFile: FileList, routeFile: FileList)

  /** A flattened service as the fetcher, patcher and generator read it. */
  datatype BusService = BusService(
    number: string,
    serviceType: string,
    kmlFile: seq<string>,
    routeFile: seq<string>,
    props: map<string, string>)

  /** One category of `bus_service_list`: its key and its `bus_service` children. */
  datatype Category = Category(key: string, services: XmlElements<XmlService>)

  /** `{...props, type, kmlFile: kmlFile.file, routeFile: routeFile.file}`: a `type` attribute
      of the service itself is overwritten by the category key. */
  function FlattenService(categoryKey: string, s: XmlService): (b: BusService)
    ensures b.serviceType == categoryKey && b.number == s.number
    ensures "type" !in b.props && forall k :: k in s.props && k != "type" ==> k in b.props && b.props[k] == s.props[k]
  {
    BusService(s.number, categoryKey, s.kmlFile.file, s.routeFile.file, s.props - {"type"})
  }

  /** The services of the categories before index `k`, in entry order; `None` when some
      category's `bus_service` is not an array, so that `.map` throws. */
  function Flattened(categories: seq<Category>): Option<seq<BusService>>
  {
    if categories == [] then Some([])
    else
      var last := categories[|categories| - 1];
      match Flattened(categories[..|categories| - 1])
      case None => None
      case Some(prefix) =>
        if last.services.Many? then Some(prefix + MapFlatten(last.key, last.services.elements))
        else None
  }

  function MapFlatten(key: string, services: seq<XmlService>): (r: seq<BusService>)
    ensures |r| == |services|
    ensures forall j :: 0 <= j < |services| ==> r[j] == FlattenService(key, services[j])
  {
    seq(|services|, j requires 0 <= j < |services| => FlattenService(key, services[j]))
  }

  /** The number of services in the categories, when every category is an array. */
  function ServiceCount(categories: seq<Category>): nat
  {
    if categories == [] then 0
    else
      var last := categories[|categories| - 1];
      ServiceCount(categories[..|categories| - 1]) + (if last.services.Many? then |last.services.elements| else 0)
  }

  /** `fetchBusServices` after parsing: each category's services are pushed in turn. */
  method FetchBusServices(categories: seq<Category>) returns (r: Option<seq<BusService>>)
    ensures r.Some? <==> forall k :: 0 <= k < |categories| ==> categories[k].services.Many?
    ensures r == Flattened(categories)
  {
    var busServices: seq<BusService> := [];
    var i := 0;
    while i < |categories|
      invariant 0 <= i <= |categories|
      invariant Flattened(categories[..i]) == Some(busServices)
      invariant forall k :: 0 <= k < i ==> categories[k].services.Many?
    {
      var c := categories[i];
      if !c.services.Many? {
        FlattenedNone(categories, i);
        return None;
      }
      var services := MapFlatten(c.key, c.services.elements);
      assert categories[..i + 1][..i] == categories[..i];
      busServices := busServices + services;
      i := i + 1;
    }
    assert categories[..i] == categories;
    r := Some(busServices);
  }

  lemma {:induction false} FlattenedNone(categories: seq<Category>, i: nat)
    requires i < |categories| && !categories[i].services.Many?
    ensures Flattened(categories) == None
    decreases |categories|
  {
    var init := categories[..|categories| - 1];
    if i < |categories| - 1 {
      assert init[i] == categories[i];
      FlattenedNone(init, i);
    }
  }

  /** Every flattened service comes from one category's service list at a known position:
      the services of category `k` start after those of the categories before it. */
  lemma {:induction false} FlattenedAt(categories: seq<Category>, k: nat, j: nat)
    requires Flattened(categories).Some?
    requires k < |categories| && categories[k].services.Many? && j < |categories[k].services.elements|
    ensures |Flattened(categories).value| == ServiceCount(categories)
    ensures ServiceCount(categories[..k]) + j < ServiceCount(categories)
    ensures Flattened(categories).value[ServiceCount(categories[..k]) + j]
            == FlattenService(categories[k].key, categories[k].services.elements[j])
    decreases |categories|
  {
    var n := |categories|;
    var init := categories[..n - 1];
    FlattenedCount(init);
    if k < n - 1 {
      assert init[..k] == categories[..k];
      assert init[k] == categories[k];
      FlattenedAt(init, k, j);
    } else {
      assert init == categories[..k];
    }
  }

  lemma {:induction false} FlattenedCount(categories: seq<Category>)
    requires Flattened(categories).Some?
    ensures |Flattened(categories).value| == ServiceCount(categories)
    decreases |categories|
  {
    if categories != [] {
      FlattenedCount(categories[..|categories| - 1]);
    }
  }

  /** Every flattened service carries its category's key as `type`. */
  lemma {:induction false} FlattenedTypes(categories: seq<Category>, b: BusService)
    requires Flattened(categories).Some? && b in Flattened(categories).value
    ensures exists k :: 0 <= k < |categories| && categories[k].key == b.serviceType
    decreases |categories|
  {
    var n := |categories|;
    var init := categories[..n - 1];
    var prefix := Flattened(init).value;
    if b in prefix {
      FlattenedTypes(init, b);
      var k :| 0 <= k < |init| && init[k].key == b.serviceType;
      assert categories[k] == init[k];
    } else {
      assert categories[n - 1].key == b.serviceType;
    }
  }

  // ---------------------------------------------------------------------------
  // fetchServiceRoute

  datatype XmlBusStop = XmlBusStop(name: string)

  datatype XmlDirection = XmlDirection(name: string, busstop: XmlElements<XmlBusStop>)

  /** One direction of a route file as stored: its name and its stop codes. */
  datatype RouteDirection = RouteDirection(name: string, stops: seq<string>)

  /** `{name, stops: busstop?.map(s => s.name) || []}`; `None` when a direction has a single
      `<busstop>`, which the parser yields as an object without `map`. */
  function DirectionOf(d: XmlDirection): (r: Option<RouteDirection>)
  {
    match d.busstop
    case Missing => Some(RouteDirection(d.name, []))
    case One(_) => None
    case Many(stops) => Some(RouteDirection(d.name, seq(|stops|, i requires 0 <= i < |stops| => stops[i].name)))
  }

  /** `fetchServiceRoute` after parsing: `parsed.route.direction.map(...)`; `None` (an
      exception) when the route has no `direction` or a direction fails. */
  function RouteOf(directions: Option<seq<XmlDirection>>): (r: Option<seq<RouteDirection>>)
    ensures r.Some? <==> directions.Some? && forall i :: 0 <= i < |directions.value| ==> DirectionOf(directions.value[i]).Some?
    ensures r.Some? ==> |r.value| == |directions.value|
  {
    match directions
    case None => None
    case Some(ds) =>
      if forall i :: 0 <= i < |ds| ==> DirectionOf(ds[i]).Some?
      then Some(seq(|ds|, i requires 0 <= i < |ds| => DirectionOf(ds[i]).value))
      else None
  }

  /** The route file keeps each direction's name and lists its stops by name, in order,
      and an absent stop list becomes empty. */
  lemma RouteOfDirections(directions: seq<XmlDirection>, i: nat)
    requires RouteOf(Some(directions)).Some? && i < |directions|
    ensures |RouteOf(Some(directions)).value| == |directions|
    ensures RouteOf(Some(directions)).value[i].name == directions[i].name
    ensures directions[i].busstop.Missing? ==> RouteOf(Some(directions)).value[i].stops == []
    ensures directions[i].busstop.Many? ==>
      var stops := directions[i].busstop.elements;
      var r := RouteOf(Some(directions)).value[i].stops;
      |r| == |stops| && forall j :: 0 <= j < |stops| ==> r[j] == stops[j].name
    ensures !directions[i].busstop.One?
  {
    assert DirectionOf(directions[i]).Some?;
  }

  // ---------------------------------------------------------------------------
  // fetchDatamallData

  lemma ConcatSnoc<V>(pages: seq<seq<V>>, page: seq<V>)
    ensures Concat(pages + [page]) == Concat(pages) + page
  {
    assert (pages + [page])[..|pages|] == pages;
  }

  /** The `$skip` pagination: request `skip = 0, batchSize, 2 * batchSize, ...` and append
      every page's `value` list, until a page comes back empty. `fetchPage(skip)` is the
      response (`None` when the request fails, which aborts the loop). The source loops
      forever when no empty page ever comes; `lastPage` names one that ends the loop. */
  method FetchDatamallData<V>(fetchPage: nat -> Option<seq<V>>, batchSize: nat, ghost lastPage: nat)
    returns (values: Option<seq<V>>, skips: seq<nat>, pages: seq<seq<V>>)
    requires fetchPage(lastPage * batchSize) != Some([]) ==> fetchPage(lastPage * batchSize).None?
    ensures |skips| >= 1 && |pages| == |skips| - 1
    ensures forall i :: 0 <= i < |skips| ==> skips[i] == i * batchSize
    ensures forall i :: 0 <= i < |pages| ==> pages[i] != [] && fetchPage(skips[i]) == Some(pages[i])
    ensures var last := fetchPage(skips[|skips| - 1]); last == Some([]) || last.None?
    ensures values.None? <==> fetchPage(skips[|skips| - 1]).None?
    ensures values.Some? ==> values.value == Concat(pages)
  {
    var acc: seq<V> := [];
    var skip := 0;
    skips := [];
    pages := [];
    while true
      invariant |skips| == |pages| && skip == |skips| * batchSize
      invariant |skips| <= lastPage
      invariant forall i :: 0 <= i < |skips| ==> skips[i] == i * batchSize
      invariant forall i :: 0 <= i < |pages| ==> pages[i] != [] && fetchPage(skips[i]) == Some(pages[i])
      invariant acc == Concat(pages)
      decreases lastPage - |skips|
    {
      var data := fetchPage(skip);
      if |skips| == lastPage {
        assert data == fetchPage(lastPage * batchSize);
      }
      skips := skips + [skip];
      if data.None? {
        return None, skips, pages;
      }
      var page := data.value;
      acc := acc + page;
      skip := skip + batchSize;
      if page == [] {
        return Some(acc), skips, pages;
      }
      ConcatSnoc(pages, page);
      pages := pages + [page];
    }
  }
}
