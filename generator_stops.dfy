/** Stop fusion in the generator (src/services/data-generator.js): the stop-name patches,
    the DataMall road lookup, `processStops` and the stops GeoJSON feature list. Stops are
    visited in the order given; the `localeCompare` sort before the visit is left out, and
    it does not change the tables (see `StopsDataLast`: the entry for a code depends only
    on the last stop with that code, and a stable sort keeps stops with equal codes in order). */
module GeneratorStops {
  import opened Common

  /** A raw stop of `bus-stops.json`: its code (`name`), its description and its position. */
  datatype RawStop = RawStop(name: string, details: string, long: real, lat: real)

  /** A stop of `bus-stops.datamall.json`, reduced to what the road lookup reads. */
  datatype DatamallStop = DatamallStop(busStopCode: string, roadName: string)

  /** A record of the stop-name patch file; `newName` is `None` for `null`. */
  datatype NameRecord = NameRecord(number: string, newName: Option<string>)

  /** A `stopsData` entry. */
  datatype StopData = StopData(number: string, name: string, road: string, long: real, lat: real)

  /** A `stopsJSON` entry, the array `[lon, lat, name, road]` with rounded coordinates. */
  datatype StopRow = StopRow(long: real, lat: real, name: string, road: string)

  /** A feature of the stops GeoJSON. */
  datatype StopFeature = StopFeature(number: string, name: string, road: string, services: seq<string>, long: real, lat: real)

  const UnknownRoad: string := "Unknown Road"

  function NamePairs(records: seq<NameRecord>): seq<(string, Option<string>)>
  {
    seq(|records|, i requires 0 <= i < |records| => (records[i].number, records[i].newName))
  }

  /** `loadStopNames`: the patch file as a map from code to new name; `{}` when the file
      cannot be read. */
  function LoadStopNames(file: Option<seq<NameRecord>>): map<string, Option<string>>
  {
    match file
    case None => map[]
    case Some(records) => Assign(NamePairs(records))
  }

  /** The patch table has an entry exactly for the codes of the file's records. */
  lemma LoadStopNamesKeys(file: Option<seq<NameRecord>>, code: string)
    ensures code in LoadStopNames(file) <==>
      file.Some? && exists i :: 0 <= i < |file.value| && file.value[i].number == code
  {
    if file.Some? {
      var pairs := NamePairs(file.value);
      AssignKeys(pairs, code);
      if code in LoadStopNames(file) {
        var i :| 0 <= i < |pairs| && pairs[i].0 == code;
        assert file.value[i].number == code;
      } else {
        forall i | 0 <= i < |file.value| ensures file.value[i].number != code {
          assert pairs[i].0 == file.value[i].number;
        }
      }
    }
  }

  function RoadPairs(datamall: seq<DatamallStop>): seq<(string, string)>
  {
    seq(|datamall|, i requires 0 <= i < |datamall| => (datamall[i].busStopCode, datamall[i].roadName))
  }

  /** `roadLookup`: from code to road name. */
  function RoadLookup(datamall: seq<DatamallStop>): map<string, string>
  {
    Assign(RoadPairs(datamall))
  }

  /** `stopNames[number] || details`. */
  function StopName(names: map<string, Option<string>>, number: string, details: string): string
  {
    if number in names && names[number].Some? && names[number].value != "" then names[number].value else details
  }

  /** `roadLookup[number] || 'Unknown Road'`. */
  function Road(lookup: map<string, string>, number: string): string
  {
    if number in lookup && lookup[number] != "" then lookup[number] else UnknownRoad
  }

  function Fused(s: RawStop, names: map<string, Option<string>>, lookup: map<string, string>): StopData
  {
    StopData(s.name, StopName(names, s.name, s.details), Road(lookup, s.name), s.long, s.lat)
  }

  /** The `stopsJSON` entry of a stop; `round` is the coordinate rounding. */
  function Row(d: StopData, round: real -> real): StopRow
  {
    StopRow(round(d.long), round(d.lat), d.name, d.road)
  }

  /** `stopsData` after visiting `stops` in order: withdrawn codes are skipped and a later
      stop replaces an earlier one with the same code. */
  function StopsData(stops: seq<RawStop>, names: map<string, Option<string>>, lookup: map<string, string>): map<string, StopData>
  {
    if stops == [] then map[]
    else
      var last := stops[|stops| - 1];
      var data := StopsData(stops[..|stops| - 1], names, lookup);
      if IsWithdrawn(last.name) then data else data[last.name := Fused(last, names, lookup)]
  }

  /** `stopsJSON` next to `stopsData`: the same codes, each with its row. */
  function Rows(data: map<string, StopData>, round: real -> real): map<string, StopRow>
  {
    map k | k in data :: Row(data[k], round)
  }

  /** `processStops`: fills `stopsJSON` and `stopsData` stop by stop; `stopsServices` is
      created and returned without ever being filled. */
  method ProcessStops(stops: seq<RawStop>, datamall: seq<DatamallStop>, names: map<string, Option<string>>,
                      round: real -> real)
    returns (stopsJSON: map<string, StopRow>, stopsData: map<string, StopData>, stopsServices: map<string, seq<string>>)
    ensures stopsData == StopsData(stops, names, RoadLookup(datamall))
    ensures stopsJSON == Rows(stopsData, round)
    ensures stopsServices == map[]
  {
    var lookup := RoadLookup(datamall);
    stopsJSON, stopsData, stopsServices := map[], map[], map[];
    var i := 0;
    while i < |stops|
      invariant 0 <= i <= |stops|
      invariant stopsData == StopsData(stops[..i], names, lookup)
      invariant stopsJSON == Rows(stopsData, round)
    {
      var s := stops[i];
      assert stops[..i + 1][..i] == stops[..i];
      if !IsWithdrawn(s.name) {
        var d := Fused(s, names, lookup);
        stopsJSON := stopsJSON[s.name := Row(d, round)];
        stopsData := stopsData[s.name := d];
      }
      i := i + 1;
    }
    assert stops[..i] == stops;
  }

  /** The codes in `stopsData` are exactly those of the stops that are not withdrawn. */
  lemma {:induction false} StopsDataKeys(stops: seq<RawStop>, names: map<string, Option<string>>, lookup: map<string, string>, k: string)
    ensures k in StopsData(stops, names, lookup) <==>
            exists i :: 0 <= i < |stops| && stops[i].name == k && !IsWithdrawn(k)
  {
    if stops != [] {
      var init := stops[..|stops| - 1];
      StopsDataKeys(init, names, lookup, k);
      if exists i :: 0 <= i < |init| && init[i].name == k && !IsWithdrawn(k) {
        var i :| 0 <= i < |init| && init[i].name == k && !IsWithdrawn(k);
        assert stops[i] == init[i];
      }
      if exists i :: 0 <= i < |stops| && stops[i].name == k && !IsWithdrawn(k) {
        var i :| 0 <= i < |stops| && stops[i].name == k && !IsWithdrawn(k);
        if i < |init| {
          assert init[i] == stops[i];
        }
      }
    }
  }

  /** The entry for a code is built from the last stop carrying that code. */
  lemma {:induction false} StopsDataLast(stops: seq<RawStop>, names: map<string, Option<string>>, lookup: map<string, string>, i: nat)
    requires i < |stops| && !IsWithdrawn(stops[i].name)
    requires forall j :: i < j < |stops| ==> stops[j].name != stops[i].name
    ensures stops[i].name in StopsData(stops, names, lookup)
    ensures StopsData(stops, names, lookup)[stops[i].name] == Fused(stops[i], names, lookup)
  {
    var init := stops[..|stops| - 1];
    if i < |stops| - 1 {
      assert init[i] == stops[i];
      forall j | i < j < |init| ensures init[j].name != init[i].name {
        assert init[j] == stops[j];
      }
      StopsDataLast(init, names, lookup, i);
    }
  }

  /** The displayed name of a stop is the new name of the last patch record for its code
      when that name is a non-empty string, and the stop's `details` otherwise. */
  lemma StopNamePatched(records: seq<NameRecord>, number: string, details: string)
    ensures var name := StopName(LoadStopNames(Some(records)), number, details);
      if exists i :: 0 <= i < |records| && records[i].number == number then
        forall i :: 0 <= i < |records| && records[i].number == number &&
                    (forall j :: i < j < |records| ==> records[j].number != number) ==>
          name == (if records[i].newName.Some? && records[i].newName.value != "" then records[i].newName.value else details)
      else name == details
  {
    var pairs := NamePairs(records);
    AssignKeys(pairs, number);
    if exists i :: 0 <= i < |records| && records[i].number == number {
      forall i | 0 <= i < |records| && records[i].number == number &&
                 (forall j :: i < j < |records| ==> records[j].number != number)
        ensures StopName(LoadStopNames(Some(records)), number, details) ==
                (if records[i].newName.Some? && records[i].newName.value != "" then records[i].newName.value else details)
      {
        AssignLast(pairs, i);
      }
    } else {
      assert number !in Assign(pairs);
    }
  }

  /** The road of a stop is the road name of the last DataMall record for its code when it
      is non-empty, and "Unknown Road" otherwise. */
  lemma RoadFromLookup(datamall: seq<DatamallStop>, number: string)
    ensures var road := Road(RoadLookup(datamall), number);
      if exists i :: 0 <= i < |datamall| && datamall[i].busStopCode == number then
        forall i :: 0 <= i < |datamall| && datamall[i].busStopCode == number &&
                    (forall j :: i < j < |datamall| ==> datamall[j].busStopCode != number) ==>
          road == (if datamall[i].roadName != "" then datamall[i].roadName else UnknownRoad)
      else road == UnknownRoad
  {
    var pairs := RoadPairs(datamall);
    AssignKeys(pairs, number);
    if exists i :: 0 <= i < |datamall| && datamall[i].busStopCode == number {
      forall i | 0 <= i < |datamall| && datamall[i].busStopCode == number &&
                 (forall j :: i < j < |datamall| ==> datamall[j].busStopCode != number)
        ensures Road(RoadLookup(datamall), number) == (if datamall[i].roadName != "" then datamall[i].roadName else UnknownRoad)
      {
        AssignLast(pairs, i);
      }
    } else {
      assert number !in Assign(pairs);
    }
  }

  // ---------------------------------------------------------------------------
  // The stops GeoJSON

  /** `Object.values(stopsData).filter(d => stopsServices[d.number]).map(...)`: a feature
      for each stop that serves some service. The `sort()` of the service list is left out. */
  function StopsFeatures(values: seq<StopData>, stopsServices: map<string, seq<string>>): seq<StopFeature>
  {
    if values == [] then []
    else
      var d := values[0];
      (if d.number in stopsServices
       then [StopFeature(d.number, d.name, d.road, stopsServices[d.number], d.long, d.lat)]
       else []) + StopsFeatures(values[1..], stopsServices)
  }

  /** Since `processStops` leaves `stopsServices` empty, the stops GeoJSON has no feature,
      whatever the stops. */
  lemma {:induction false} StopsFeaturesEmpty(values: seq<StopData>, stopsServices: map<string, seq<string>>)
    requires stopsServices == map[]
    ensures StopsFeatures(values, stopsServices) == []
  {
    if values != [] {
      StopsFeaturesEmpty(values[1..], stopsServices);
    }
  }
}
