/** The first/last bus timing table of the generator (`generateFirstLastData` in
    src/services/data-generator.js): per stop, one line per DataMall route record, with the
    Saturday and Sunday times written as "=" when they repeat the weekday time. */
module GeneratorFirstLast {
  import opened Common
  import opened GeneratorStops

  /** A record of `bus-routes.datamall.json`, reduced to the fields the table reads. */
  datatype FirstLastRecord = FirstLastRecord(
    serviceNo: string, busStopCode: string,
    wdFirst: string, wdLast: string, satFirst: string, satLast: string, sunFirst: string, sunLast: string)

  /** The marker for "same as on weekdays" and the DataMall value for "no bus". */
  const Same: string := "="
  const NoBus: string := "-"

  /** A Saturday or Sunday time next to the weekday time it may repeat. */
  function Compress(t: string, weekday: string): string
  {
    if t != NoBus && t == weekday then Same else t
  }

  /** The reading a consumer of the table gives a Saturday or Sunday field. */
  function Expand(field: string, weekday: string): string
  {
    if field == Same then weekday else field
  }

  /** A time becomes "=" exactly when it is a bus time equal to the weekday time; otherwise
      it is kept as it is. */
  lemma CompressMarks(t: string, weekday: string)
    requires t != Same
    ensures Compress(t, weekday) == Same <==> t != NoBus && t == weekday
    ensures Compress(t, weekday) != Same ==> Compress(t, weekday) == t
  {
  }

  /** The compression loses nothing: the time is read back from the field and the weekday
      time, whenever the time itself is not "=". */
  lemma CompressExpand(t: string, weekday: string)
    requires t != Same
    ensures Expand(Compress(t, weekday), weekday) == t
  {
  }

  function Parts(r: FirstLastRecord): seq<string>
  {
    [r.serviceNo, r.wdFirst, r.wdLast,
     Compress(r.satFirst, r.wdFirst), Compress(r.satLast, r.wdLast),
     Compress(r.sunFirst, r.wdFirst), Compress(r.sunLast, r.wdLast)]
  }

  /** The line for a record: "svc wdF wdL satF satL sunF sunL". */
  function Line(r: FirstLastRecord): string
  {
    Join(Parts(r), " ")
  }

  /** Reads a line back into a record for the stop it is listed under. */
  function ReadLine(line: string, stop: string): Option<FirstLastRecord>
  {
    var p := Split(line, ' ');
    if |p| != 7 then None
    else Some(FirstLastRecord(p[0], stop, p[1], p[2],
                              Expand(p[3], p[1]), Expand(p[4], p[2]), Expand(p[5], p[1]), Expand(p[6], p[2])))
  }

  predicate Spaceless(r: FirstLastRecord)
  {
    forall s :: s in [r.serviceNo, r.wdFirst, r.wdLast, r.satFirst, r.satLast, r.sunFirst, r.sunLast] ==> ' ' !in s
  }

  /** A line lists the record's seven fields and reads back to the record, whenever no
      field holds a space and no weekend time is itself "=". */
  lemma LineReadsBack(r: FirstLastRecord)
    requires Spaceless(r)
    requires r.satFirst != Same && r.satLast != Same && r.sunFirst != Same && r.sunLast != Same
    ensures ReadLine(Line(r), r.busStopCode) == Some(r)
  {
    var parts := Parts(r);
    forall i | 0 <= i < |parts| ensures ' ' !in parts[i] {
      assert r.serviceNo in [r.serviceNo, r.wdFirst, r.wdLast, r.satFirst, r.satLast, r.sunFirst, r.sunLast];
    }
    SplitJoin(parts, ' ');
    CompressExpand(r.satFirst, r.wdFirst);
    CompressExpand(r.satLast, r.wdLast);
    CompressExpand(r.sunFirst, r.wdFirst);
    CompressExpand(r.sunLast, r.wdLast);
  }

  /** The codes of the stops that are not withdrawn. */
  function StopCodes(stops: seq<RawStop>): seq<string>
  {
    Map(Filter(stops, (s: RawStop) => !IsWithdrawn(s.name)), (s: RawStop) => s.name)
  }

  /** The table after the records in order: a record at a known stop appends its line to
      that stop's list; other records are dropped. */
  function FirstLastTable(records: seq<FirstLastRecord>, busStops: seq<string>): (t: map<string, seq<string>>)
    ensures forall k :: k in t ==> k in busStops && t[k] != []
  {
    if records == [] then map[]
    else
      var t := FirstLastTable(records[..|records| - 1], busStops);
      var r := records[|records| - 1];
      if r.busStopCode !in busStops then t
      else t[r.busStopCode := (if r.busStopCode in t then t[r.busStopCode] else []) + [Line(r)]]
  }

  /** `generateFirstLastData` without the file reads and writes. */
  method GenerateFirstLastData(stops: seq<RawStop>, busRoutes: seq<FirstLastRecord>)
    returns (firstLastJSON: map<string, seq<string>>)
    ensures firstLastJSON == FirstLastTable(busRoutes, StopCodes(stops))
  {
    var busStops := StopCodes(stops);
    firstLastJSON := map[];
    var i := 0;
    while i < |busRoutes|
      invariant 0 <= i <= |busRoutes|
      invariant firstLastJSON == FirstLastTable(busRoutes[..i], busStops)
    {
      var route := busRoutes[i];
      assert busRoutes[..i + 1][..i] == busRoutes[..i];
      if route.busStopCode in busStops {
        if route.busStopCode !in firstLastJSON {
          firstLastJSON := firstLastJSON[route.busStopCode := []];
        }
        firstLastJSON := firstLastJSON[route.busStopCode := firstLastJSON[route.busStopCode] + [Line(route)]];
      }
      i := i + 1;
    }
    assert busRoutes[..i] == busRoutes;
  }

  /** The records at stop `k`, in input order. */
  function RecordsAt(records: seq<FirstLastRecord>, k: string): seq<FirstLastRecord>
  {
    Filter(records, AtStop(k))
  }

  function AtStop(k: string): FirstLastRecord -> bool
  {
    (r: FirstLastRecord) => r.busStopCode == k
  }

  /** The table lists exactly the known stops that some record names, and each lists the
      lines of its records in input order. */
  lemma {:induction false} FirstLastTableAt(records: seq<FirstLastRecord>, busStops: seq<string>, k: string)
    ensures k in FirstLastTable(records, busStops) <==> k in busStops && RecordsAt(records, k) != []
    ensures k in FirstLastTable(records, busStops) ==>
      FirstLastTable(records, busStops)[k] == Map(RecordsAt(records, k), Line)
  {
    if records != [] {
      var init := records[..|records| - 1];
      var r := records[|records| - 1];
      var t := FirstLastTable(init, busStops);
      assert FirstLastTable(records, busStops) ==
        if r.busStopCode !in busStops then t
        else t[r.busStopCode := (if r.busStopCode in t then t[r.busStopCode] else []) + [Line(r)]];
      FirstLastTableAt(init, busStops, k);
      assert records == init + [r];
      FilterSnoc(init, AtStop(k), r);
      if r.busStopCode == k {
        MapSnoc(RecordsAt(init, k), r, Line);
      }
    }
  }

  /** Withdrawn stops never get a list. */
  lemma WithdrawnStopsDropped(stops: seq<RawStop>, records: seq<FirstLastRecord>, k: string)
    requires IsWithdrawn(k)
    ensures k !in FirstLastTable(records, StopCodes(stops))
  {
    FirstLastTableAt(records, StopCodes(stops), k);
    var kept := Filter(stops, (s: RawStop) => !IsWithdrawn(s.name));
    MapMembers(kept, (s: RawStop) => s.name, k);
    if k in StopCodes(stops) {
      var i :| 0 <= i < |kept| && kept[i].name == k;
      assert kept[i] in kept;
    }
  }
}
