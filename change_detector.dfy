/** The change report of src/services/change-detector.js: the classification of the
    `just-diff` records between the old and new stops, services and routes tables, the
    rewritten first/last timings, and `run`'s refusal of a report without changes. The
    tables are JSON objects (`map<string, Json>`); the diffs and `hyperdiff`'s counts are
    inputs, as are the git and file reads. */
module ChangeDetector {
  import opened Common
  import opened Js
  import opened GeneratorFirstLast

  datatype Op = Add | Remove | Replace

  /** A `just-diff` record for two objects: `path` is `[key] + subpath`. */
  datatype DiffEntry = DiffEntry(op: Op, key: string, subpath: seq<Json>, value: Json)

  /** `d.path[1]`. */
  function PathAt1(d: DiffEntry): Json
  {
    if |d.subpath| > 0 then d.subpath[0] else Undefined
  }

  /** `table[key]`. */
  function Entry(table: map<string, Json>, key: string): Json
  {
    if key in table then table[key] else Undefined
  }

  function KeyOf(d: DiffEntry): string
  {
    d.key
  }

  datatype StopChange = StopChange(number: string, name: Json)
  datatype NameChange = NameChange(number: string, oldName: Json, newName: Json)
  datatype LocationChange = LocationChange(number: string, oldCoordinates: seq<Json>, newCoordinates: seq<Json>)
  datatype ServiceChange = ServiceChange(number: string, name: Json)
  datatype RouteChange = RouteChange(number: string, name: Json, added: nat, removed: nat)

  function StopNumber(c: StopChange): string { c.number }
  function NameNumber(c: NameChange): string { c.number }
  function LocationNumber(c: LocationChange): string { c.number }
  function ServiceNumber(c: ServiceChange): string { c.number }
  function RouteNumber(c: RouteChange): string { c.number }

  // ---------------------------------------------------------------------------
  // Stops

  function HasOp(op: Op): DiffEntry -> bool
  {
    (d: DiffEntry) => d.op == op
  }

  /** `value[2]` of an `add` record, or of the stop in the table for a `remove`. */
  function StopNameSource(d: DiffEntry, op: Op, stopsData: map<string, Json>): Json
  {
    if op == Add then d.value else Entry(stopsData, d.key)
  }

  function StopChangeFor(op: Op, stopsData: map<string, Json>): DiffEntry -> Option<StopChange>
  {
    (d: DiffEntry) => match At(StopNameSource(d, op, stopsData), 2)
         case None => None
         case Some(n) => Some(StopChange(d.key, n))
  }

  /** `extractStopChanges`; `None` when it throws. */
  function ExtractStopChanges(diff: seq<DiffEntry>, op: Op, stopsData: map<string, Json>): (r: Option<seq<StopChange>>)
    ensures r.Some? ==> Map(r.value, StopNumber) == Map(Filter(diff, HasOp(op)), KeyOf)
  {
    MapAll(Filter(diff, HasOp(op)), StopChangeFor(op, stopsData))
  }

  /** The added (removed) stops are the `add` (`remove`) records in order, each with its key
      and the name at index 2 of the new value (of the old table's entry); the extraction
      throws exactly when one of those values is `undefined` or `null`. */
  lemma StopChangesListed(diff: seq<DiffEntry>, op: Op, stopsData: map<string, Json>)
    ensures var kept := Filter(diff, HasOp(op));
      var r := ExtractStopChanges(diff, op, stopsData);
      && (r.None? <==> exists d :: d in diff && d.op == op && Nullish(StopNameSource(d, op, stopsData)))
      && (r.Some? ==>
            |r.value| == |kept| &&
            forall i :: 0 <= i < |kept| ==>
              r.value[i] == StopChange(kept[i].key, At(StopNameSource(kept[i], op, stopsData), 2).value))
  {
    var kept := Filter(diff, HasOp(op));
    var f := StopChangeFor(op, stopsData);
    if exists d :: d in diff && d.op == op && Nullish(StopNameSource(d, op, stopsData)) {
      var d :| d in diff && d.op == op && Nullish(StopNameSource(d, op, stopsData));
      FilterKeeps(diff, HasOp(op), d);
      var i :| 0 <= i < |kept| && kept[i] == d;
      assert f(kept[i]).None?;
    } else {
      forall i | 0 <= i < |kept| ensures f(kept[i]).Some? {
        assert kept[i] in kept;
      }
    }
  }

  predicate IsNameChange(d: DiffEntry)
  {
    d.op == Replace && PathAt1(d) == Num(2.0)
  }

  function NameChangeFor(oldStops: map<string, Json>): DiffEntry -> Option<NameChange>
  {
    (d: DiffEntry) => match At(Entry(oldStops, d.key), 2)
         case None => None
         case Some(n) => Some(NameChange(d.key, n, d.value))
  }

  /** `extractStopNameChanges`; `None` when it throws. */
  function ExtractStopNameChanges(diff: seq<DiffEntry>, oldStops: map<string, Json>): (r: Option<seq<NameChange>>)
    ensures r.Some? ==> Map(r.value, NameNumber) == Map(Filter(diff, IsNameChange), KeyOf)
  {
    MapAll(Filter(diff, IsNameChange), NameChangeFor(oldStops))
  }

  /** The name changes are exactly the `replace` records at index 2, in order, with the old
      name from the old table and the new name from the record; the extraction throws
      exactly when such a record names a stop missing from the old table. */
  lemma NameChangesListed(diff: seq<DiffEntry>, oldStops: map<string, Json>)
    ensures var kept := Filter(diff, IsNameChange);
      var r := ExtractStopNameChanges(diff, oldStops);
      && (r.None? <==> exists d :: d in diff && IsNameChange(d) && Nullish(Entry(oldStops, d.key)))
      && (r.Some? ==>
            |r.value| == |kept| &&
            forall i :: 0 <= i < |kept| ==>
              r.value[i] == NameChange(kept[i].key, At(oldStops[kept[i].key], 2).value, kept[i].value))
  {
    var kept := Filter(diff, IsNameChange);
    var f := NameChangeFor(oldStops);
    if exists d :: d in diff && IsNameChange(d) && Nullish(Entry(oldStops, d.key)) {
      var d :| d in diff && IsNameChange(d) && Nullish(Entry(oldStops, d.key));
      FilterKeeps(diff, IsNameChange, d);
      var i :| 0 <= i < |kept| && kept[i] == d;
      assert f(kept[i]).None?;
    } else {
      forall i | 0 <= i < |kept| ensures f(kept[i]).Some? && kept[i].key in oldStops {
        assert kept[i] in kept;
      }
    }
  }

  predicate IsLocationChange(d: DiffEntry)
  {
    d.op == Replace && PathAt1(d) != Num(2.0)
  }

  /** `[stop[0], stop[1]]`. */
  function Coordinates(stop: Json): seq<Json>
    requires !Nullish(stop)
  {
    [At(stop, 0).value, At(stop, 1).value]
  }

  function LocationChangeFor(oldStops: map<string, Json>, newStops: map<string, Json>): DiffEntry -> Option<LocationChange>
  {
    (d: DiffEntry) => var o := Entry(oldStops, d.key);
         var n := Entry(newStops, d.key);
         if Nullish(o) || Nullish(n) then None
         else Some(LocationChange(d.key, Coordinates(o), Coordinates(n)))
  }

  /** The extraction throws on a stop missing from either table. */
  predicate LocationThrows(d: DiffEntry, oldStops: map<string, Json>, newStops: map<string, Json>)
  {
    Nullish(Entry(oldStops, d.key)) || Nullish(Entry(newStops, d.key))
  }

  /** The location records: `replace` records at any index but 2, the first one per stop. */
  function LocationRecords(diff: seq<DiffEntry>): seq<DiffEntry>
  {
    DistinctBy(Filter(diff, IsLocationChange), KeyOf)
  }

  /** `extractStopLocationChanges`; `None` when it throws. */
  function ExtractStopLocationChanges(diff: seq<DiffEntry>, oldStops: map<string, Json>, newStops: map<string, Json>)
    : (r: Option<seq<LocationChange>>)
    ensures r.Some? ==> Map(r.value, LocationNumber) == Map(LocationRecords(diff), KeyOf)
  {
    MapAll(LocationRecords(diff), LocationChangeFor(oldStops, newStops))
  }

  /** The extraction throws exactly when a stop with a location record is missing from
      the old or the new table. */
  lemma LocationChangesThrow(diff: seq<DiffEntry>, oldStops: map<string, Json>, newStops: map<string, Json>)
    ensures ExtractStopLocationChanges(diff, oldStops, newStops).None? <==>
      exists d :: d in diff && IsLocationChange(d) && LocationThrows(d, oldStops, newStops)
  {
    if exists d :: d in diff && IsLocationChange(d) && LocationThrows(d, oldStops, newStops) {
      var d :| d in diff && IsLocationChange(d) && LocationThrows(d, oldStops, newStops);
      MissingStopThrows(diff, oldStops, newStops, d);
    } else {
      var recs := LocationRecords(diff);
      forall i | 0 <= i < |recs| ensures LocationChangeFor(oldStops, newStops)(recs[i]).Some? {
        assert recs[i] in recs;
        assert recs[i] in Filter(diff, IsLocationChange);
      }
    }
  }

  lemma MissingStopThrows(diff: seq<DiffEntry>, oldStops: map<string, Json>, newStops: map<string, Json>, d: DiffEntry)
    requires d in diff && IsLocationChange(d) && LocationThrows(d, oldStops, newStops)
    ensures ExtractStopLocationChanges(diff, oldStops, newStops).None?
  {
    var locs := Filter(diff, IsLocationChange);
    var recs := LocationRecords(diff);
    FilterKeeps(diff, IsLocationChange, d);
    var k :| 0 <= k < |locs| && locs[k] == d;
    assert d.key in KeysOf(locs, KeyOf);
    var i :| 0 <= i < |recs| && recs[i].key == d.key;
    assert LocationChangeFor(oldStops, newStops)(recs[i]).None?;
  }

  /** The `i`-th location change is for the stop of the `i`-th location record. */
  lemma LocationChangeNumbers(diff: seq<DiffEntry>, oldStops: map<string, Json>, newStops: map<string, Json>)
    requires ExtractStopLocationChanges(diff, oldStops, newStops).Some?
    ensures var r := ExtractStopLocationChanges(diff, oldStops, newStops).value;
      |r| == |LocationRecords(diff)| &&
      forall i :: 0 <= i < |r| ==> r[i] == LocationChangeFor(oldStops, newStops)(LocationRecords(diff)[i]).value
  {
  }

  /** Each stop with a `replace` record at an index other than 2 is reported once, with its
      first two fields in the old and in the new table, and no other stop is reported. */
  lemma LocationChangesListed(diff: seq<DiffEntry>, oldStops: map<string, Json>, newStops: map<string, Json>)
    ensures var r := ExtractStopLocationChanges(diff, oldStops, newStops);
      r.Some? ==>
        && Distinct(Map(r.value, LocationNumber))
        && Elements(Map(r.value, LocationNumber)) == (set d | d in diff && IsLocationChange(d) :: d.key)
    ensures var r := ExtractStopLocationChanges(diff, oldStops, newStops);
      r.Some? ==> forall i :: 0 <= i < |r.value| ==>
        var n := r.value[i].number;
        && !Nullish(Entry(oldStops, n)) && !Nullish(Entry(newStops, n))
        && r.value[i].oldCoordinates == Coordinates(Entry(oldStops, n))
        && r.value[i].newCoordinates == Coordinates(Entry(newStops, n))
  {
    var r := ExtractStopLocationChanges(diff, oldStops, newStops);
    if r.Some? {
      LocationChangeNumbers(diff, oldStops, newStops);
      MapAllKeys(LocationRecords(diff), LocationChangeFor(oldStops, newStops), KeyOf, LocationNumber);
      DistinctKeys(Filter(diff, IsLocationChange), KeyOf);
      FilterKeysOf(diff, IsLocationChange, KeyOf);
    }
  }

  /** The stops are reported in the order of their first location record. */
  lemma LocationChangesOrder(diff: seq<DiffEntry>, oldStops: map<string, Json>, newStops: map<string, Json>)
    ensures var r := ExtractStopLocationChanges(diff, oldStops, newStops);
      var locs := Filter(diff, IsLocationChange);
      r.Some? ==> forall i, j :: 0 <= i < j < |r.value| ==>
        r.value[i].number in KeysOf(locs, KeyOf) &&
        r.value[j].number in KeysOf(locs, KeyOf) &&
        FirstIndex(locs, KeyOf, r.value[i].number) < FirstIndex(locs, KeyOf, r.value[j].number)
  {
    var r := ExtractStopLocationChanges(diff, oldStops, newStops);
    var locs := Filter(diff, IsLocationChange);
    var recs := LocationRecords(diff);
    if r.Some? {
      LocationChangeNumbers(diff, oldStops, newStops);
      DistinctByFirst(locs, KeyOf);
      forall i, j | 0 <= i < j < |r.value|
        ensures r.value[i].number in KeysOf(locs, KeyOf) && r.value[j].number in KeysOf(locs, KeyOf)
        ensures FirstIndex(locs, KeyOf, r.value[i].number) < FirstIndex(locs, KeyOf, r.value[j].number)
      {
        assert r.value[i].number == KeyOf(recs[i]) && r.value[j].number == KeyOf(recs[j]);
      }
    }
  }

  /** A change at index 3 alone (the road) is reported as a location change. */
  lemma RoadChangeIsLocationChange(k: string, road: Json, oldStop: seq<Json>, newStop: seq<Json>)
    requires |oldStop| >= 2 && |newStop| >= 2
    ensures ExtractStopLocationChanges([DiffEntry(Replace, k, [Num(3.0)], road)], map[k := Arr(oldStop)], map[k := Arr(newStop)]) ==
            Some([LocationChange(k, oldStop[..2], newStop[..2])])
  {
    var d := DiffEntry(Replace, k, [Num(3.0)], road);
    var f := LocationChangeFor(map[k := Arr(oldStop)], map[k := Arr(newStop)]);
    var c := LocationChange(k, oldStop[..2], newStop[..2]);
    assert [d][1..] == [];
    assert Filter([d], IsLocationChange) == [d];
    assert LocationRecords([d]) == [d] by {
      assert [d][..0] == [];
      assert DistinctBy([], KeyOf) == [];
      assert KeysOf([], KeyOf) == {};
    }
    assert f(d) == Some(c) by {
      assert oldStop[..2] == [oldStop[0], oldStop[1]];
      assert newStop[..2] == [newStop[0], newStop[1]];
    }
    var r := MapAll([d], f);
    assert r.Some? && |r.value| == 1 && r.value[0] == c;
    assert r.value == [c];
  }

  // ---------------------------------------------------------------------------
  // Services

  /** A record of the given operation that is not under a service's `routes`. */
  function IsServiceChange(op: Op): DiffEntry -> bool
  {
    (d: DiffEntry) => d.op == op && PathAt1(d) != Str("routes")
  }

  /** The `name` of an `add` record's value, or of the service in the table for a `remove`. */
  function ServiceNameSource(d: DiffEntry, op: Op, servicesData: map<string, Json>): Json
  {
    if op == Add then d.value else Entry(servicesData, d.key)
  }

  function ServiceChangeFor(op: Op, servicesData: map<string, Json>): DiffEntry -> Option<ServiceChange>
  {
    (d: DiffEntry) => match Prop(ServiceNameSource(d, op, servicesData), "name")
         case None => None
         case Some(n) => Some(ServiceChange(d.key, n))
  }

  /** `extractServiceChanges`; `None` when it throws. */
  function ExtractServiceChanges(diff: seq<DiffEntry>, op: Op, servicesData: map<string, Json>): (r: Option<seq<ServiceChange>>)
    ensures r.Some? ==> Map(r.value, ServiceNumber) == Map(Filter(diff, IsServiceChange(op)), KeyOf)
  {
    MapAll(Filter(diff, IsServiceChange(op)), ServiceChangeFor(op, servicesData))
  }

  /** The added (removed) services are the `add` (`remove`) records not under `routes`, in
      order, each with its key and name; the extraction throws exactly when one of the
      values it reads the name from is `undefined` or `null`. */
  lemma ServiceChangesListed(diff: seq<DiffEntry>, op: Op, servicesData: map<string, Json>)
    ensures var kept := Filter(diff, IsServiceChange(op));
      var r := ExtractServiceChanges(diff, op, servicesData);
      && (r.None? <==> exists d :: d in diff && IsServiceChange(op)(d) && Nullish(ServiceNameSource(d, op, servicesData)))
      && (r.Some? ==>
            |r.value| == |kept| &&
            forall i :: 0 <= i < |kept| ==>
              r.value[i] == ServiceChange(kept[i].key, Prop(ServiceNameSource(kept[i], op, servicesData), "name").value))
  {
    var kept := Filter(diff, IsServiceChange(op));
    var f := ServiceChangeFor(op, servicesData);
    if exists d :: d in diff && IsServiceChange(op)(d) && Nullish(ServiceNameSource(d, op, servicesData)) {
      var d :| d in diff && IsServiceChange(op)(d) && Nullish(ServiceNameSource(d, op, servicesData));
      FilterKeeps(diff, IsServiceChange(op), d);
      var i :| 0 <= i < |kept| && kept[i] == d;
      assert f(kept[i]).None?;
    } else {
      forall i | 0 <= i < |kept| ensures f(kept[i]).Some? {
        assert kept[i] in kept;
      }
    }
  }

  /** A record under a service's `routes` never changes the added or removed services. */
  lemma RoutesRecordIgnored(a: seq<DiffEntry>, d: DiffEntry, b: seq<DiffEntry>, op: Op, servicesData: map<string, Json>)
    requires PathAt1(d) == Str("routes")
    ensures ExtractServiceChanges(a + [d] + b, op, servicesData) == ExtractServiceChanges(a + b, op, servicesData)
  {
    var p := IsServiceChange(op);
    FilterAppend(a + [d], b, p);
    FilterAppend(a, [d], p);
    FilterAppend(a, b, p);
    assert [d][1..] == [];
    assert Filter([d], p) == [];
    assert Filter(a + [d], p) == Filter(a, p);
  }

  /** `arr.flat()`: one level of nested arrays is spliced in. */
  function Flat(items: seq<Json>): seq<Json>
  {
    if items == [] then []
    else
      Flat(items[..|items| - 1]) +
      (match items[|items| - 1]
       case Arr(xs) => xs
       case x => [x])
  }

  predicate IsRoutesRecord(d: DiffEntry)
  {
    PathAt1(d) == Str("routes")
  }

  /** The distinct service numbers with a record under `routes`, in order of first
      appearance (`new Set(...)`). */
  function RouteChangedServices(diff: seq<DiffEntry>): seq<string>
  {
    Map(DistinctBy(Filter(diff, IsRoutesRecord), KeyOf), KeyOf)
  }

  /** The entry for one changed service; `hyperdiff` gives the added and removed counts. */
  function RouteChangeFor(oldServices: map<string, Json>, newServices: map<string, Json>,
                          hyperdiff: (seq<Json>, seq<Json>) -> (nat, nat)): string -> Option<RouteChange>
  {
    (number: string) => RouteChangeOf(oldServices, newServices, hyperdiff, number)
  }

  function RouteChangeOf(oldServices: map<string, Json>, newServices: map<string, Json>,
                         hyperdiff: (seq<Json>, seq<Json>) -> (nat, nat), number: string): Option<RouteChange>
  {
    match (RoutesArray(oldServices, number), RoutesArray(newServices, number))
    case (Some(oldRoutes), Some(newRoutes)) =>
      var counts := hyperdiff(Flat(oldRoutes), Flat(newRoutes));
      Some(RouteChange(number, Prop(Entry(newServices, number), "name").value, counts.0, counts.1))
    case _ => None
  }

  /** `services[number].routes` when it is an array; reading it from a missing service,
      or calling `.flat()` on anything else, throws. */
  function RoutesArray(services: map<string, Json>, number: string): (r: Option<seq<Json>>)
    ensures r.Some? ==> !Nullish(Entry(services, number))
  {
    match Prop(Entry(services, number), "routes")
    case Some(Arr(routes)) => Some(routes)
    case _ => None
  }

  /** The route extraction throws on a service whose old or new `routes` is not an array. */
  predicate RoutesThrow(number: string, oldServices: map<string, Json>, newServices: map<string, Json>)
  {
    RoutesArray(oldServices, number).None? || RoutesArray(newServices, number).None?
  }

  /** `extractRouteChanges`; `None` when it throws. */
  function ExtractRouteChanges(diff: seq<DiffEntry>, oldServices: map<string, Json>, newServices: map<string, Json>,
                               hyperdiff: (seq<Json>, seq<Json>) -> (nat, nat)): (r: Option<seq<RouteChange>>)
    ensures r.Some? ==> Map(r.value, RouteNumber) == RouteChangedServices(diff)
  {
    MapAll(RouteChangedServices(diff), RouteChangeFor(oldServices, newServices, hyperdiff))
  }

  /** The extraction throws exactly when a service with a record under `routes` has no
      `routes` array in the old or in the new table. */
  lemma RouteChangesThrow(diff: seq<DiffEntry>, oldServices: map<string, Json>, newServices: map<string, Json>,
                          hyperdiff: (seq<Json>, seq<Json>) -> (nat, nat))
    ensures ExtractRouteChanges(diff, oldServices, newServices, hyperdiff).None? <==>
      exists d :: d in diff && IsRoutesRecord(d) && RoutesThrow(d.key, oldServices, newServices)
  {
    var ns := RouteChangedServices(diff);
    var f := RouteChangeFor(oldServices, newServices, hyperdiff);
    if exists d :: d in diff && IsRoutesRecord(d) && RoutesThrow(d.key, oldServices, newServices) {
      var d :| d in diff && IsRoutesRecord(d) && RoutesThrow(d.key, oldServices, newServices);
      MissingRoutesThrow(diff, oldServices, newServices, hyperdiff, d);
    } else {
      forall i | 0 <= i < |ns| ensures f(ns[i]).Some? {
        RouteServiceHasRecord(diff, i);
        assert f(ns[i]) == RouteChangeOf(oldServices, newServices, hyperdiff, ns[i]);
      }
    }
  }

  lemma MissingRoutesThrow(diff: seq<DiffEntry>, oldServices: map<string, Json>, newServices: map<string, Json>,
                           hyperdiff: (seq<Json>, seq<Json>) -> (nat, nat), d: DiffEntry)
    requires d in diff && IsRoutesRecord(d) && RoutesThrow(d.key, oldServices, newServices)
    ensures ExtractRouteChanges(diff, oldServices, newServices, hyperdiff).None?
  {
    var ns := RouteChangedServices(diff);
    RouteRecordListed(diff, d);
    var i :| 0 <= i < |ns| && ns[i] == d.key;
    assert RouteChangeFor(oldServices, newServices, hyperdiff)(ns[i]) == RouteChangeOf(oldServices, newServices, hyperdiff, ns[i]);
  }

  /** A service with a record under `routes` is among the changed services. */
  lemma RouteRecordListed(diff: seq<DiffEntry>, d: DiffEntry)
    requires d in diff && IsRoutesRecord(d)
    ensures d.key in RouteChangedServices(diff)
  {
    var recs := Filter(diff, IsRoutesRecord);
    var distinct := DistinctBy(recs, KeyOf);
    FilterKeeps(diff, IsRoutesRecord, d);
    var k :| 0 <= k < |recs| && recs[k] == d;
    assert d.key in KeysOf(recs, KeyOf);
    var i :| 0 <= i < |distinct| && distinct[i].key == d.key;
    assert RouteChangedServices(diff)[i] == d.key;
  }

  /** Each changed service has a record under `routes`. */
  lemma RouteServiceHasRecord(diff: seq<DiffEntry>, i: nat)
    requires i < |RouteChangedServices(diff)|
    ensures exists d :: d in diff && IsRoutesRecord(d) && d.key == RouteChangedServices(diff)[i]
  {
    var distinct := DistinctBy(Filter(diff, IsRoutesRecord), KeyOf);
    assert distinct[i] in distinct;
    assert distinct[i] in Filter(diff, IsRoutesRecord);
  }

  /** There is one route change per service with a record under `routes`, none twice; each
      carries the service's name in the new table and `hyperdiff`'s counts over the
      flattened old and new routes. */
  lemma RouteChangesListed(diff: seq<DiffEntry>, oldServices: map<string, Json>, newServices: map<string, Json>,
                           hyperdiff: (seq<Json>, seq<Json>) -> (nat, nat))
    ensures var r := ExtractRouteChanges(diff, oldServices, newServices, hyperdiff);
      r.Some? ==>
        && Distinct(Map(r.value, RouteNumber))
        && Elements(Map(r.value, RouteNumber)) == (set d | d in diff && IsRoutesRecord(d) :: d.key)
    ensures var r := ExtractRouteChanges(diff, oldServices, newServices, hyperdiff);
      r.Some? ==> forall i :: 0 <= i < |r.value| ==>
        var n := r.value[i].number;
        && RoutesArray(oldServices, n).Some? && RoutesArray(newServices, n).Some?
        && r.value[i].name == Prop(Entry(newServices, n), "name").value
        && (r.value[i].added, r.value[i].removed) ==
           hyperdiff(Flat(RoutesArray(oldServices, n).value), Flat(RoutesArray(newServices, n).value))
  {
    var r := ExtractRouteChanges(diff, oldServices, newServices, hyperdiff);
    if r.Some? {
      RouteChangeNumbers(diff, oldServices, newServices, hyperdiff);
      assert Map(r.value, RouteNumber) == RouteChangedServices(diff);
      DistinctKeys(Filter(diff, IsRoutesRecord), KeyOf);
      FilterKeysOf(diff, IsRoutesRecord, KeyOf);
    }
  }

  /** The `i`-th route change is the entry of the `i`-th changed service. */
  lemma RouteChangeNumbers(diff: seq<DiffEntry>, oldServices: map<string, Json>, newServices: map<string, Json>,
                           hyperdiff: (seq<Json>, seq<Json>) -> (nat, nat))
    requires ExtractRouteChanges(diff, oldServices, newServices, hyperdiff).Some?
    ensures var r := ExtractRouteChanges(diff, oldServices, newServices, hyperdiff).value;
      var ns := RouteChangedServices(diff);
      |r| == |ns| &&
      forall i :: 0 <= i < |r| ==>
        r[i] == RouteChangeOf(oldServices, newServices, hyperdiff, ns[i]).value && r[i].number == ns[i] &&
        ns[i] == DistinctBy(Filter(diff, IsRoutesRecord), KeyOf)[i].key
  {
    var r := ExtractRouteChanges(diff, oldServices, newServices, hyperdiff).value;
    var ns := RouteChangedServices(diff);
    var f := RouteChangeFor(oldServices, newServices, hyperdiff);
    forall i | 0 <= i < |r|
      ensures r[i] == RouteChangeOf(oldServices, newServices, hyperdiff, ns[i]).value && r[i].number == ns[i]
    {
      assert f(ns[i]) == RouteChangeOf(oldServices, newServices, hyperdiff, ns[i]);
    }
  }

  /** The services are reported in the order of their first record under `routes`. */
  lemma RouteChangesOrder(diff: seq<DiffEntry>, oldServices: map<string, Json>, newServices: map<string, Json>,
                          hyperdiff: (seq<Json>, seq<Json>) -> (nat, nat))
    ensures var r := ExtractRouteChanges(diff, oldServices, newServices, hyperdiff);
      var recs := Filter(diff, IsRoutesRecord);
      r.Some? ==> forall i, j :: 0 <= i < j < |r.value| ==>
        r.value[i].number in KeysOf(recs, KeyOf) &&
        r.value[j].number in KeysOf(recs, KeyOf) &&
        FirstIndex(recs, KeyOf, r.value[i].number) < FirstIndex(recs, KeyOf, r.value[j].number)
  {
    var r := ExtractRouteChanges(diff, oldServices, newServices, hyperdiff);
    var recs := Filter(diff, IsRoutesRecord);
    var distinct := DistinctBy(recs, KeyOf);
    if r.Some? {
      RouteChangeNumbers(diff, oldServices, newServices, hyperdiff);
      DistinctByFirst(recs, KeyOf);
      forall i, j | 0 <= i < j < |r.value|
        ensures r.value[i].number in KeysOf(recs, KeyOf) && r.value[j].number in KeysOf(recs, KeyOf)
        ensures FirstIndex(recs, KeyOf, r.value[i].number) < FirstIndex(recs, KeyOf, r.value[j].number)
      {
        assert r.value[i].number == KeyOf(distinct[i]) && r.value[j].number == KeyOf(distinct[j]);
      }
    }
  }

  // ---------------------------------------------------------------------------
  // Routes

  function InTable(newServices: map<string, Json>): string -> bool
  {
    (s: string) => Truthy(Entry(newServices, s))
  }

  function ChangedServiceFor(newServices: map<string, Json>): string -> Option<ServiceChange>
  {
    (number: string) => match Prop(Entry(newServices, number), "name")
              case None => None
              case Some(n) => Some(ServiceChange(number, n))
  }

  /** The distinct keys of the routes diff that name a service of the new table. */
  function ChangedServiceNumbers(routesDiff: seq<DiffEntry>, newServices: map<string, Json>): seq<string>
  {
    Filter(Map(DistinctBy(routesDiff, KeyOf), KeyOf), InTable(newServices))
  }

  /** `detectRoutesChanges` after its reads; `None` when it throws. */
  function DetectRoutesChanges(routesDiff: seq<DiffEntry>, newServices: map<string, Json>): (r: Option<seq<ServiceChange>>)
    ensures r.Some? ==> Map(r.value, ServiceNumber) == ChangedServiceNumbers(routesDiff, newServices)
  {
    MapAll(ChangedServiceNumbers(routesDiff, newServices), ChangedServiceFor(newServices))
  }

  /** The geometry-changed services never throw, are listed once each, and are exactly the
      keys of the routes diff that are (truthy) services of the new table. */
  lemma RoutesChangesListed(routesDiff: seq<DiffEntry>, newServices: map<string, Json>)
    ensures var r := DetectRoutesChanges(routesDiff, newServices);
      && r.Some?
      && Distinct(Map(r.value, ServiceNumber))
      && Elements(Map(r.value, ServiceNumber)) ==
         (set d | d in routesDiff && d.key in newServices && Truthy(newServices[d.key]) :: d.key)
  {
    var numbers := ChangedServiceNumbers(routesDiff, newServices);
    forall i | 0 <= i < |numbers| ensures ChangedServiceFor(newServices)(numbers[i]).Some? {
      assert numbers[i] in numbers;
    }
    ChangedServiceNumbersListed(routesDiff, newServices);
  }

  /** The changed numbers are distinct and are the keys of the routes diff that are (truthy)
      services of the new table. */
  lemma ChangedServiceNumbersListed(routesDiff: seq<DiffEntry>, newServices: map<string, Json>)
    ensures var numbers := ChangedServiceNumbers(routesDiff, newServices);
      && Distinct(numbers)
      && Elements(numbers) == (set d | d in routesDiff && d.key in newServices && Truthy(newServices[d.key]) :: d.key)
  {
    var ks := Map(DistinctBy(routesDiff, KeyOf), KeyOf);
    var numbers := ChangedServiceNumbers(routesDiff, newServices);
    DistinctKeys(routesDiff, KeyOf);
    FilterDistinct(ks, InTable(newServices));
    var expected := set d | d in routesDiff && d.key in newServices && Truthy(newServices[d.key]) :: d.key;
    forall k | k in expected ensures k in Elements(numbers) {
      var d :| d in routesDiff && d.key in newServices && Truthy(newServices[d.key]) && d.key == k;
      assert k in KeysOf(routesDiff, KeyOf);
      FilterKeeps(ks, InTable(newServices), k);
    }
    forall k | k in Elements(numbers) ensures k in expected {
      FilterIsSubsequence(ks, InTable(newServices));
      var i :| 0 <= i < |numbers| && numbers[i] == k;
      assert numbers[i] in numbers;
      assert k in ks;
      var d :| d in routesDiff && d.key == k;
    }
  }

  // ---------------------------------------------------------------------------
  // First/last timings

  /** The service of a first/last line: its first space-separated token. */
  function ServiceOf(line: string): string
  {
    Split(line, ' ')[0]
  }

  /** The timing of a first/last line: its other tokens, joined without spaces. */
  function TimingOf(line: string): string
  {
    Join(Split(line, ' ')[1..], "")
  }

  /** The timings per service after the lines in order, for a line's service and timing
      given by `serviceOf` and `timingOf`. */
  function RewriteBy(lines: seq<string>, serviceOf: string -> string, timingOf: string -> string): map<string, string>
  {
    if lines == [] then map[]
    else
      var t := RewriteBy(lines[..|lines| - 1], serviceOf, timingOf);
      var line := lines[|lines| - 1];
      var service := serviceOf(line);
      t[service := (if service in t then t[service] else "") + timingOf(line)]
  }

  /** The timings per service after the lines in order. */
  function RewriteLines(lines: seq<string>): map<string, string>
  {
    RewriteBy(lines, ServiceOf, TimingOf)
  }

  /** The lines of all stops, in the order the object's entries are enumerated. */
  function AllLines(entries: seq<(string, seq<string>)>): seq<string>
  {
    if entries == [] then [] else AllLines(entries[..|entries| - 1]) + entries[|entries| - 1].1
  }

  /** One more line appends its timing to its service's entry. */
  lemma RewriteSnoc(lines: seq<string>, line: string, serviceOf: string -> string, timingOf: string -> string)
    ensures var t := RewriteBy(lines, serviceOf, timingOf);
      var service := serviceOf(line);
      RewriteBy(lines + [line], serviceOf, timingOf) == t[service := (if service in t then t[service] else "") + timingOf(line)]
  {
    assert (lines + [line])[..|lines|] == lines;
  }

  lemma AllLinesSnoc(entries: seq<(string, seq<string>)>, i: nat)
    requires i < |entries|
    ensures AllLines(entries[..i + 1]) == AllLines(entries[..i]) + entries[i].1
  {
    assert entries[..i + 1][..i] == entries[..i];
  }

  /** `rewriteFirstLast`; `entries` is `Object.entries(fl)`. */
  method RewriteFirstLast(entries: seq<(string, seq<string>)>) returns (newFL: map<string, string>)
    ensures newFL == RewriteLines(AllLines(entries))
  {
    newFL := map[];
    var i := 0;
    while i < |entries|
      invariant 0 <= i <= |entries|
      invariant newFL == RewriteLines(AllLines(entries[..i]))
    {
      newFL := RewriteStopLines(newFL, AllLines(entries[..i]), entries[i].1);
      AllLinesSnoc(entries, i);
      i := i + 1;
    }
    assert entries[..i] == entries;
  }

  /** The inner loop of `rewriteFirstLast`: the lines of one stop, in order. */
  method RewriteStopLines(fl: map<string, string>, ghost before: seq<string>, serviceTimings: seq<string>)
    returns (newFL: map<string, string>)
    requires fl == RewriteLines(before)
    ensures newFL == RewriteLines(before + serviceTimings)
  {
    newFL := fl;
    assert before + serviceTimings[..0] == before;
    var j := 0;
    while j < |serviceTimings|
      invariant 0 <= j <= |serviceTimings|
      invariant newFL == RewriteLines(before + serviceTimings[..j])
    {
      var line := serviceTimings[j];
      assert before + serviceTimings[..j + 1] == (before + serviceTimings[..j]) + [line];
      RewriteSnoc(before + serviceTimings[..j], line, ServiceOf, TimingOf);
      var service := ServiceOf(line);
      if service !in newFL {
        newFL := newFL[service := ""];
      }
      newFL := newFL[service := newFL[service] + TimingOf(line)];
      j := j + 1;
    }
    assert serviceTimings[..j] == serviceTimings;
  }

  function ServiceIs(serviceOf: string -> string, service: string): string -> bool
  {
    (l: string) => serviceOf(l) == service
  }

  /** A service is listed exactly when some line has it. */
  lemma {:induction false} RewriteByKeys(lines: seq<string>, serviceOf: string -> string, timingOf: string -> string,
                                         service: string)
    ensures service in RewriteBy(lines, serviceOf, timingOf) <==> exists i :: 0 <= i < |lines| && serviceOf(lines[i]) == service
  {
    if lines != [] {
      var init := lines[..|lines| - 1];
      var line := lines[|lines| - 1];
      var t := RewriteBy(init, serviceOf, timingOf);
      assert RewriteBy(lines, serviceOf, timingOf).Keys == t.Keys + {serviceOf(line)};
      RewriteByKeys(init, serviceOf, timingOf, service);
      if service in t {
        var i :| 0 <= i < |init| && serviceOf(init[i]) == service;
        assert lines[i] == init[i];
      } else if service != serviceOf(line) {
        forall i | 0 <= i < |lines| ensures serviceOf(lines[i]) != service {
          if i < |init| {
            assert lines[i] == init[i];
          }
        }
      }
    }
  }

  /** A listed service's timing is the concatenation of the timings of its lines, in order. */
  lemma {:induction false} RewriteByValue(lines: seq<string>, serviceOf: string -> string, timingOf: string -> string,
                                          service: string)
    requires service in RewriteBy(lines, serviceOf, timingOf)
    ensures RewriteBy(lines, serviceOf, timingOf)[service] == Concat(Map(Filter(lines, ServiceIs(serviceOf, service)), timingOf))
  {
    var init := lines[..|lines| - 1];
    var line := lines[|lines| - 1];
    var t := RewriteBy(init, serviceOf, timingOf);
    var p := ServiceIs(serviceOf, service);
    assert lines == init + [line];
    FilterSnoc(init, p, line);
    var kept := Filter(init, p);
    if serviceOf(line) == service {
      assert RewriteBy(lines, serviceOf, timingOf)[service] == (if service in t then t[service] else "") + timingOf(line);
      assert Filter(lines, p) == kept + [line];
      MapSnoc(kept, line, timingOf);
      ConcatSnoc(Map(kept, timingOf), timingOf(line));
      if service in t {
        RewriteByValue(init, serviceOf, timingOf, service);
      } else {
        RewriteByKeys(init, serviceOf, timingOf, service);
        FilterNone(init, p);
      }
    } else {
      assert RewriteBy(lines, serviceOf, timingOf)[service] == t[service];
      assert Filter(lines, p) == kept;
      RewriteByValue(init, serviceOf, timingOf, service);
    }
  }

  /** A service is listed exactly when some line starts with it, and its timing is the
      concatenation of the timings of its lines, in order. */
  lemma RewriteLinesAt(lines: seq<string>, service: string)
    ensures service in RewriteLines(lines) <==> exists i :: 0 <= i < |lines| && ServiceOf(lines[i]) == service
    ensures service in RewriteLines(lines) ==>
      RewriteLines(lines)[service] == Concat(Map(Filter(lines, ServiceIs(ServiceOf, service)), TimingOf))
  {
    RewriteByKeys(lines, ServiceOf, TimingOf, service);
    if service in RewriteLines(lines) {
      RewriteByValue(lines, ServiceOf, TimingOf, service);
    }
  }

  /** Filtering with a predicate that holds for no element gives nothing. */
  lemma {:induction false} FilterNone<T>(s: seq<T>, p: T -> bool)
    requires forall i :: 0 <= i < |s| ==> !p(s[i])
    ensures Filter(s, p) == []
  {
    if s != [] {
      FilterNone(s[1..], p);
    }
  }

  lemma JoinSix(a: string, b: string, c: string, d: string, e: string, f: string)
    ensures Join([a, b, c, d, e, f], "") == a + b + c + d + e + f
  {
    assert Join([f], "") == f;
    assert Join([e, f], "") == e + f by { assert [e, f][1..] == [f]; }
    assert Join([d, e, f], "") == d + e + f by { assert [d, e, f][1..] == [e, f]; }
    assert Join([c, d, e, f], "") == c + d + e + f by { assert [c, d, e, f][1..] == [d, e, f]; }
    assert Join([b, c, d, e, f], "") == b + c + d + e + f by { assert [b, c, d, e, f][1..] == [c, d, e, f]; }
    assert [a, b, c, d, e, f][1..] == [b, c, d, e, f];
  }

  /** For a line the generator writes, the service is the record's service and the timing
      is the six time fields, with the weekend ones as written ("=" for a repeat). */
  lemma RewriteOfGeneratedLine(r: FirstLastRecord)
    requires Spaceless(r)
    ensures ServiceOf(Line(r)) == r.serviceNo
    ensures TimingOf(Line(r)) == r.wdFirst + r.wdLast +
      Compress(r.satFirst, r.wdFirst) + Compress(r.satLast, r.wdLast) +
      Compress(r.sunFirst, r.wdFirst) + Compress(r.sunLast, r.wdLast)
  {
    var parts := Parts(r);
    forall i | 0 <= i < |parts| ensures ' ' !in parts[i] {
      assert r.serviceNo in [r.serviceNo, r.wdFirst, r.wdLast, r.satFirst, r.satLast, r.sunFirst, r.sunLast];
    }
    SplitJoin(parts, ' ');
    assert parts[1..] == [r.wdFirst, r.wdLast, Compress(r.satFirst, r.wdFirst), Compress(r.satLast, r.wdLast),
                          Compress(r.sunFirst, r.wdFirst), Compress(r.sunLast, r.wdLast)];
    JoinSix(r.wdFirst, r.wdLast, Compress(r.satFirst, r.wdFirst), Compress(r.satLast, r.wdLast),
            Compress(r.sunFirst, r.wdFirst), Compress(r.sunLast, r.wdLast));
  }

  /** The first/last part of the report. */
  datatype FirstLastChanges = FirstLastChanges(hasChanges: bool, affectedServices: set<string>)

  /** `detectFirstLastChanges` after its reads: `just-diff` yields no record exactly when the
      rewritten tables are equal, and one record per service whose timing differs. */
  function DetectFirstLastChanges(oldFL: seq<(string, seq<string>)>, newFL: seq<(string, seq<string>)>): (r: FirstLastChanges)
    ensures !r.hasChanges ==> r.affectedServices == {}
  {
    var a := RewriteLines(AllLines(oldFL));
    var b := RewriteLines(AllLines(newFL));
    FirstLastChanges(a != b, set k | k in a.Keys + b.Keys && (k !in a || k !in b || a[k] != b[k]))
  }

  /** The first/last timings have changed exactly when some service is affected. */
  lemma FirstLastChangesAffected(oldFL: seq<(string, seq<string>)>, newFL: seq<(string, seq<string>)>)
    ensures var c := DetectFirstLastChanges(oldFL, newFL);
      c.hasChanges <==> c.affectedServices != {}
  {
    var a := RewriteLines(AllLines(oldFL));
    var b := RewriteLines(AllLines(newFL));
    var c := DetectFirstLastChanges(oldFL, newFL);
    if c.affectedServices == {} {
      forall k | k in a ensures k in b && a[k] == b[k] {
        assert k !in c.affectedServices;
      }
      forall k | k in b ensures k in a {
        assert k !in c.affectedServices;
      }
      assert a == b;
    }
  }

  // ---------------------------------------------------------------------------
  // The report

  datatype StopsChanges = StopsChanges(oldCount: nat, newCount: nat, added: seq<StopChange>, removed: seq<StopChange>,
                                       nameChanged: seq<NameChange>, locationChanged: seq<LocationChange>)

  datatype ServicesChanges = ServicesChanges(oldCount: nat, newCount: nat, added: seq<ServiceChange>,
                                             removed: seq<ServiceChange>, routeChanges: seq<RouteChange>)

  datatype Changes = Changes(date: string, stops: StopsChanges, services: ServicesChanges,
                             changedServices: seq<ServiceChange>, firstLast: FirstLastChanges)

  /** `detectStopsChanges` after its reads; `None` when it throws. */
  function DetectStopsChanges(oldStops: map<string, Json>, newStops: map<string, Json>, diff: seq<DiffEntry>)
    : Option<StopsChanges>
  {
    var added := ExtractStopChanges(diff, Add, newStops);
    var removed := ExtractStopChanges(diff, Remove, oldStops);
    var names := ExtractStopNameChanges(diff, oldStops);
    var locations := ExtractStopLocationChanges(diff, oldStops, newStops);
    if added.None? || removed.None? || names.None? || locations.None? then None
    else Some(StopsChanges(|oldStops|, |newStops|, added.value, removed.value, names.value, locations.value))
  }

  /** `detectServicesChanges` after its reads; `None` when it throws. */
  function DetectServicesChanges(oldServices: map<string, Json>, newServices: map<string, Json>, diff: seq<DiffEntry>,
                                 hyperdiff: (seq<Json>, seq<Json>) -> (nat, nat)): Option<ServicesChanges>
  {
    var added := ExtractServiceChanges(diff, Add, newServices);
    var removed := ExtractServiceChanges(diff, Remove, oldServices);
    var routes := ExtractRouteChanges(diff, oldServices, newServices, hyperdiff);
    if added.None? || removed.None? || routes.None? then None
    else Some(ServicesChanges(|oldServices|, |newServices|, added.value, removed.value, routes.value))
  }

  /** `hasAnyChanges`. */
  predicate HasAnyChanges(c: Changes)
  {
    || |c.stops.added| > 0 || |c.stops.removed| > 0 || |c.stops.nameChanged| > 0 || |c.stops.locationChanged| > 0
    || |c.services.added| > 0 || |c.services.removed| > 0 || |c.services.routeChanges| > 0
    || |c.changedServices| > 0
    || c.firstLast.hasChanges
  }

  datatype RunResult = Report(changes: Changes) | NoChanges | Thrown

  const NoChangesMessage: string := "No changes detected in any data files!"

  /** The old and new data `run` compares; the diffs are those of the old and new tables. */
  datatype Snapshot = Snapshot(
    oldStops: map<string, Json>, newStops: map<string, Json>, stopsDiff: seq<DiffEntry>,
    oldServices: map<string, Json>, newServices: map<string, Json>, servicesDiff: seq<DiffEntry>,
    routesDiff: seq<DiffEntry>,
    oldFL: seq<(string, seq<string>)>, newFL: seq<(string, seq<string>)>)

  /** `run`: the report, `NoChanges` for the "No changes detected" error, `Thrown` when an
      extraction throws. */
  function Run(date: string, s: Snapshot, hyperdiff: (seq<Json>, seq<Json>) -> (nat, nat)): (r: RunResult)
    ensures r.Report? ==> HasAnyChanges(r.changes) && r.changes.date == date
  {
    var stops := DetectStopsChanges(s.oldStops, s.newStops, s.stopsDiff);
    var services := DetectServicesChanges(s.oldServices, s.newServices, s.servicesDiff, hyperdiff);
    var routes := DetectRoutesChanges(s.routesDiff, s.newServices);
    if stops.None? || services.None? || routes.None? then Thrown
    else
      var changes := Changes(date, stops.value, services.value, routes.value, DetectFirstLastChanges(s.oldFL, s.newFL));
      if HasAnyChanges(changes) then Report(changes) else NoChanges
  }

  /** `run` refuses exactly the reports whose eight lists are empty and whose first/last
      timings are unchanged, and returns every other report. */
  lemma RunRefusesEmptyReport(date: string, s: Snapshot, hyperdiff: (seq<Json>, seq<Json>) -> (nat, nat))
    ensures var r := Run(date, s, hyperdiff);
      && (r.NoChanges? <==>
            r != Thrown &&
            ExtractStopChanges(s.stopsDiff, Add, s.newStops) == Some([]) &&
            ExtractStopChanges(s.stopsDiff, Remove, s.oldStops) == Some([]) &&
            ExtractStopNameChanges(s.stopsDiff, s.oldStops) == Some([]) &&
            ExtractStopLocationChanges(s.stopsDiff, s.oldStops, s.newStops) == Some([]) &&
            ExtractServiceChanges(s.servicesDiff, Add, s.newServices) == Some([]) &&
            ExtractServiceChanges(s.servicesDiff, Remove, s.oldServices) == Some([]) &&
            ExtractRouteChanges(s.servicesDiff, s.oldServices, s.newServices, hyperdiff) == Some([]) &&
            DetectRoutesChanges(s.routesDiff, s.newServices) == Some([]) &&
            RewriteLines(AllLines(s.oldFL)) == RewriteLines(AllLines(s.newFL)))
      && (r.Report? ==> HasAnyChanges(r.changes))
  {
  }

  /** Without diff records there are no stop changes. */
  lemma EmptyStopsDiff(oldStops: map<string, Json>, newStops: map<string, Json>)
    ensures DetectStopsChanges(oldStops, newStops, []) == Some(StopsChanges(|oldStops|, |newStops|, [], [], [], []))
  {
    assert Filter([], HasOp(Add)) == [] && Filter([], HasOp(Remove)) == [];
    assert Filter([], IsNameChange) == [] && Filter([], IsLocationChange) == [];
    assert DistinctBy([], KeyOf) == [];
  }

  /** Without diff records there are no service changes. */
  lemma EmptyServicesDiff(oldServices: map<string, Json>, newServices: map<string, Json>,
                          hyperdiff: (seq<Json>, seq<Json>) -> (nat, nat))
    ensures DetectServicesChanges(oldServices, newServices, [], hyperdiff) ==
            Some(ServicesChanges(|oldServices|, |newServices|, [], [], []))
  {
    assert Filter([], IsServiceChange(Add)) == [] && Filter([], IsServiceChange(Remove)) == [];
    assert Filter([], IsRoutesRecord) == [];
    assert DistinctBy([], KeyOf) == [];
  }

  /** Without routes diff records no service's geometry changed. */
  lemma EmptyRoutesDiff(newServices: map<string, Json>)
    ensures DetectRoutesChanges([], newServices) == Some([])
  {
    assert DistinctBy([], KeyOf) == [];
    assert ChangedServiceNumbers([], newServices) == [];
  }

  /** Empty diffs and unchanged first/last timings are always refused. */
  lemma UnchangedDataRefused(date: string, s: Snapshot, hyperdiff: (seq<Json>, seq<Json>) -> (nat, nat))
    requires s.stopsDiff == [] && s.servicesDiff == [] && s.routesDiff == []
    requires RewriteLines(AllLines(s.oldFL)) == RewriteLines(AllLines(s.newFL))
    ensures Run(date, s, hyperdiff) == NoChanges
  {
    EmptyStopsDiff(s.oldStops, s.newStops);
    EmptyServicesDiff(s.oldServices, s.newServices, hyperdiff);
    EmptyRoutesDiff(s.newServices);
  }
}
