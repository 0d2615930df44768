# sg-bus-data-api, modelled in Dafny

This project models the core of `sg-bus-data-api`, a Singapore bus data service, and proves properties of that model.
The service has two halves:

- an offline pipeline that builds static data files:
  - `DataFetcher` and `LtaClient` fetch bus stops, services, routes and route geometry from LTA DataMall and LTA's KML service;
  - `DataPatcher` repairs them:
    - a missing route pattern is fetched from OneMap, with Citymapper as the fallback;
    - services whose geometry is not one connected line are fetched again from OneMap;
    - stop names written all in capitals are looked up on TransitLink;
  - `GeneratorStops`, `GeneratorFirstLast`, `GeneratorServices` and `GeneratorGeometry` turn the raw files into the published GeoJSON and JSON tables;
  - `ChangeDetector` compares two generations of those tables and decides whether a change report is worth writing;
- HTTP endpoints that serve the tables:
  - `BusStops`, `BusServices` and `BusRoutes` are the handlers;
  - they check their query parameters with `UtilsValidators`;
  - `LibValidators` holds the library's other validators.

Shared definitions live in these modules:

- `Common`: option values, filters, subsequences and string helpers;
- `Js`: JSON values, JavaScript truthiness, `parseInt`, case mapping and numeric conversion;
- `Patterns`: the regular expressions used by the validators;
- `GeoJson`: positions, geometries and features.

How the JavaScript is rendered:

- Code that loops over state and updates it becomes methods with loop invariants. Examples are the fetch loops, the generator's per-service visit and the patcher's passes.
- Each method is proved against a specification function.
- Pure computations become functions, and the lemmas about them state what the source promises.
- Exceptions caught inside a `try` become `None` or an error result.
- Network, file system, clock and third-party libraries are function parameters. The model states what it assumes of them.

## Model

| member | source | states |
|---|---|---|
| DataFetcher.TrimTrailingSlashesShape | src/services/data-fetcher.js:83 | trailing `/`s are dropped before the path is split, as `path.parse` does: what remains is a prefix of the path that does not end in `/`, and only `/`s were dropped |
| DataFetcher.LastSegment | src/services/data-fetcher.js:83 | the last segment of a path has no `/` |
| DataFetcher.LastSegmentIsSuffix | src/services/data-fetcher.js:83 | the last segment is a suffix of the path once its trailing `/`s are dropped |
| DataFetcher.TrailingSlashIgnored | src/services/data-fetcher.js:83 | a trailing `/` does not change the segment, so `x/10-1.kml/` and `x/10-1.kml` have the same base name |
| DataFetcher.BaseName | src/services/data-fetcher.js:83 | `path.parse(p).name` never contains a `/` |
| DataFetcher.BaseNameOfFile | src/services/data-fetcher.js:83-98 | the base name of `dir/name.ext` is `name` |
| DataFetcher.LoopEffectsParts | src/services/data-fetcher.js:68-108 | the loop's combined effects are, field by field, its writes, its two failure lists and one delay per processed service |
| DataFetcher.Fetcher.constructor | src/services/data-fetcher.js:8-12 | a new fetcher has written nothing, recorded no failure and waited never |
| DataFetcher.Fetcher.FetchServiceRoutes | src/services/data-fetcher.js:61-120 | the failure lists are the failed route and KML fetches of the processed services; the writes are the fetched files, then the failure record when something failed; one delay per processed service |
| DataFetcher.Fetcher.FetchAll | src/services/data-fetcher.js:68-108 | the loop over the services appends exactly the loop's writes and delays and returns its two failure lists |
| DataFetcher.Fetcher.FetchServiceFiles | src/services/data-fetcher.js:76-104 | for a service that is not skipped, its route files are fetched and stored, then its KML files, and each list's failures are returned |
| DataFetcher.Fetcher.FetchFiles | src/services/data-fetcher.js:77-89 | each file is fetched in its own `try`: successes are stored in order and failures collected in order |
| DataFetcher.FileFailureSound | src/services/data-fetcher.js:86-88 | every recorded failure names one of the loop's files and carries the error its fetch threw |
| DataFetcher.FileFailureComplete | src/services/data-fetcher.js:86-88 | every fetch that throws is recorded with its message |
| DataFetcher.FailureSound | src/services/data-fetcher.js:68-104 | every failure comes from a file of a service that is not skipped, whose fetch threw with the recorded message |
| DataFetcher.FailureComplete | src/services/data-fetcher.js:68-104 | a failure never aborts the run: every failing file of every processed service is recorded |
| DataFetcher.ProcessedMembers | src/services/data-fetcher.js:71-107 | exactly the services not withdrawn and of an allowed type are processed, so the delays are at most the services |
| DataFetcher.FileWriteSound | src/services/data-fetcher.js:79-100 | every write stores a successful fetch of one of the loop's files at that file's output path |
| DataFetcher.LoopWriteSound | src/services/data-fetcher.js:68-108 | files are only stored for processed services, under the directory of the service's type |
| DataFetcher.OutputPathPrefix | src/services/data-fetcher.js:80-84 | a file's output path lies under the directory of its service type |
| DataFetcher.NotFailuresPath | src/services/data-fetcher.js:112-115 | no fetched file is stored at the failure record's path |
| DataFetcher.FailureRecordWritten | src/services/data-fetcher.js:110-116 | the failure record is written exactly when either failure list is non-empty |
| LtaClient.FlattenService | src/data-sources/lta-client.js:29-35 | a flattened service carries the category key as its type and the service's number, and keeps every other attribute; a `type` attribute of the service itself is overridden by the key (lemmas: LtaClient.MapFlatten, LtaClient.FlattenedTypes) |
| LtaClient.MapFlatten | src/data-sources/lta-client.js:28-36 | one flattened service per parsed service, in order, each carrying the category key as its type and the two file lists |
| LtaClient.FetchBusServices | src/data-sources/lta-client.js:19-41 | the flattening succeeds exactly when every category's `bus_service` is an array, and yields the categories' services one category after another |
| LtaClient.FlattenedAt | src/data-sources/lta-client.js:26-40 | the `j`-th service of category `k` sits right after the services of the categories before `k`, flattened with that category's key, and the list has as many services as the categories hold |
| LtaClient.FlattenedTypes | src/data-sources/lta-client.js:27-32 | every flattened service's type is the key of one of the categories |
| LtaClient.RouteOf | src/data-sources/lta-client.js:50-57 | a route parses exactly when it has a `direction` list and every direction parses, and then has one entry per direction (lemma: LtaClient.RouteOfDirections) |
| LtaClient.RouteOfDirections | src/data-sources/lta-client.js:43-58 | a parsed route keeps one entry per direction with the direction's name and its stop names in order; a missing stop list becomes empty, and a single stop makes the route fail |
| LtaClient.FetchDatamallData | src/data-sources/lta-client.js:68-87 | pages are requested at skip 0, batchSize, 2 batchSize and so on until one comes back empty; the result is the concatenation of the non-empty pages in order, and a failed request fails the whole fetch |
| LibValidators.ValidateBusStopCode | api/lib/validators.js:3-24 | a missing or empty code is refused as required; otherwise the code is accepted exactly when it is five ASCII digits, and is returned unchanged |
| LibValidators.ServiceShape | api/lib/validators.js:35 | the service pattern matches exactly the strings of one to four ASCII letters or digits whose fourth character, if any, is a letter |
| LibValidators.ValidateServiceNo | api/lib/validators.js:26-47 | absent or empty gives `null`; otherwise accepted exactly when it has the service shape, returned unchanged; refusals carry the format message |
| LibValidators.ValidateSkip | api/lib/validators.js:49-70 | absent or empty gives 0; an accepted skip is never negative; refusals carry the skip message |
| LibValidators.SkipReadsIntString | api/lib/validators.js:57-69 | the decimal text of an integer is accepted as that integer when it is non-negative and refused otherwise |
| LibValidators.ValidateLimit | api/lib/validators.js:72-100 | absent or empty gives 100 whatever the maximum; an accepted limit lies in 1..maxLimit; refusals carry the positive-integer message or name the maximum |
| LibValidators.LimitReadsIntString | api/lib/validators.js:80-99 | the decimal text of an integer is refused when not positive, refused naming the maximum when above it, and otherwise returned |
| LibValidators.LimitIgnoresHex | api/lib/validators.js:80-87 | with radix 10 a `0x` literal reads as 0 and is refused as not positive |
| LibValidators.LimitIgnoresSuffix | api/lib/validators.js:80 | text after the leading digits does not change the answer |
| LibValidators.CheckCoordinates | api/lib/validators.js:122-150 | the four parsed numbers pass exactly when none is NaN, the first and third lie in -180..180 and the second and fourth in -90..90, and they are then returned as they are |
| LibValidators.ValidateBbox | api/lib/validators.js:102-151 | absent or empty gives `null`; otherwise a bbox is accepted exactly as its comma-separated parts read with `parseFloat` after trimming, and every accepted box has four numbers in range |
| LibValidators.PartReadsInteger | api/lib/validators.js:120 | an integer's decimal text has no comma and is read back by the coordinate parser as that integer |
| LibValidators.BboxTextCoordinates | api/lib/validators.js:111-120 | four integers joined by commas are split and parsed back into those four numbers |
| LibValidators.CheckFinite | api/lib/validators.js:131-150 | four finite coordinates are refused for longitude first, then for latitude, and accepted otherwise |
| LibValidators.BboxOfCoordinates | api/lib/validators.js:102-127 | a text whose parts read as four finite numbers is judged on those numbers alone |
| LibValidators.BboxReadsIntegers | api/lib/validators.js:102-151 | four integer coordinates in range are accepted in either corner order; a first longitude out of range is refused with the longitude message |
| UtilsValidators.ValidateBusStopCode | api/utils/validators.js:2-17 | a missing or empty code is refused as required, a blank one as blank; otherwise accepted exactly when it is five ASCII digits |
| UtilsValidators.StopCodeNotBlank | api/utils/validators.js:7-12 | a five-digit code survives trimming, so the blank check never refuses a valid code |
| UtilsValidators.ServiceShape | api/utils/validators.js:29 | the pattern matches the upper-cased number exactly when the number is one to four digits, possibly followed by one character whose upper case is an ASCII letter |
| UtilsValidators.ValidateServiceNo | api/utils/validators.js:19-34 | absent or empty is accepted; a blank number is refused as blank; otherwise accepted exactly when it has the service shape |
| UtilsValidators.FourDigitService | api/utils/validators.js:28-29 | a four-digit number such as `1234` is accepted |
| UtilsValidators.LowerCaseSuffix | api/utils/validators.js:29 | a lower-case suffix letter (`10e`) is accepted |
| UtilsValidators.LetterFirst | api/utils/validators.js:29-31 | a number starting with a letter (`NR1`) is refused |
| UtilsValidators.ValidateLimit | api/utils/validators.js:36-51 | absent or empty gives 100; an accepted limit lies in 1..maxLimit; refusals carry the positive-number message or name the maximum |
| UtilsValidators.LimitReadsIntString | api/utils/validators.js:41-50 | the decimal text of an integer is refused when below 1, refused naming the maximum when above it, and otherwise returned |
| UtilsValidators.LimitReadsHex | api/utils/validators.js:41 | `parseInt` without a radix reads `0x10` as 16, which is accepted |
| UtilsValidators.ValidateBbox | api/utils/validators.js:53-69 | absent or empty gives no box; otherwise accepted exactly as its comma-separated parts read with `Number`, and every accepted box has four numbers with the first corner strictly west and south of the second |
| UtilsValidators.CheckBox | api/utils/validators.js:58-68 | the parsed parts pass exactly when there are four, none is NaN and minimum is strictly below maximum on both axes; they are then returned unchanged |
| UtilsValidators.CheckFinite | api/utils/validators.js:63-66 | four finite numbers pass exactly when both minimums are strictly below their maximums |
| UtilsValidators.PartReadsInteger | api/utils/validators.js:58 | an integer's decimal text has no comma and reads back with `Number` as that integer |
| UtilsValidators.BboxReadsIntegers | api/utils/validators.js:53-69 | four integers joined by commas are accepted exactly when the first corner is strictly west and south of the second, whatever their range, and are returned as numbers |
| UtilsValidators.EmptyPartIsZero | api/utils/validators.js:58 | an empty part reads as 0, so leaving out a coordinate is the same as writing 0 |
| UtilsValidators.ValidateSkip | api/utils/validators.js:71-82 | absent or empty gives 0; an accepted skip is never negative; refusals carry the skip message |
| UtilsValidators.SkipReadsIntString | api/utils/validators.js:76-81 | the decimal text of an integer is accepted as that integer when non-negative and refused otherwise |
| BusStops.FilterFeaturesSelects | api/bus-stops.js:44-67 | a feature is kept exactly when it is in the data, inside the box (bounds included), served by the service and matching the search in name or road, case-insensitively; the kept features stay in data order |
| BusStops.FilterRowsAsWritten | api/bus-stops.js:86-102 | as written, a `service` or `search` filter on a non-empty stop table throws; without one the table passes unchanged |
| BusStops.BusStops | api/bus-stops.js:21-124 | an invalid limit (maximum 1000) or bbox gives a 400 with the validator's message, limit first; a GeoJSON page is the first `limit` filtered features and reports their count; a JSON page is the first `limit` rows of the unfiltered table, with its count and the validated limit; the answer is the 500 exactly when a valid JSON query carries a `service` or `search` over a non-empty table |
| BusStops.GeoJsonPage | api/bus-stops.js:41-83 | the GeoJSON page has at most `limit` features, each in the data and meeting every filter, in data order, and holds all qualifying features when they are no more than the limit |
| BusStops.JsonIgnoresBbox | api/bus-stops.js:84-117 | the JSON branch answers the same with any valid bbox as with none |
| BusStops.JsonFilterThrows | api/bus-stops.js:89-101 | with a valid query, a `service` or `search` on the JSON branch over a non-empty table ends in the 500 answer |
| BusStops.DocumentedExampleFails | api/bus-stops.js:89-93 | the query `service=10&limit=n`, for any allowed `n`, ends in the 500 answer on a non-empty table |
| BusStops.BusStopsCorrected | api/bus-stops.js:84-117 | the corrected handler never gives a 500, refuses exactly the queries the original refuses, and answers GeoJSON queries as the original does; its JSON page is the first `limit` rows that pass the service and search filters, with their count and the validated limit |
| BusStops.CorrectedJsonPage | api/bus-stops.js:84-117 | the corrected JSON page has at most `limit` rows, each a row of the table that passes the service and search filters, in table order, and holds every such row when they are no more than the limit |
| BusStops.CorrectedRowsSelect | api/bus-stops.js:89-102 | with the correction an entry is kept exactly when it is in the table, its stop is served by the service and its name or road matches the search; entries keep their order |
| BusServices.FilterServicesSelects | api/bus-services.js:32-53 | an entry is kept exactly when it is in the table, its number or name contains the search term case-insensitively, and some route calls at the origin and some route calls at the destination; entries keep their order |
| BusServices.BusServices | api/bus-services.js:18-68 | an invalid limit (maximum 100) is exactly what gives a 400, with the validator's message; a page is the first `limit` filtered entries and reports their count and the limit |
| BusServices.ServicesPageSelects | api/bus-services.js:30-68 | the page has at most 100 entries, each in the table and meeting every filter, in table order, and holds all qualifying entries when they are no more than the limit |
| BusServices.OriginDestinationSymmetric | api/bus-services.js:41-53 | swapping origin and destination selects the same services |
| BusServices.LimitCapped | api/bus-services.js:25-28 | without a limit the page limit is 100, and any larger limit is refused naming 100 |
| BusRoutes.SelectService | api/bus-routes.js:66-75 | without a service the whole polyline table is returned; with a known service a one-entry table; with an unknown one an empty table |
| BusRoutes.BusRoutes | api/bus-routes.js:20-94 | an invalid bbox is exactly what gives a 400; a GeoJSON answer holds the features of the service that touch the box and counts them; a polyline answer holds the selected table and counts its keys; `simplified` is true unless given as something other than `true` |
| BusRoutes.FilterRoutesSelects | api/bus-routes.js:36-52 | a route feature is kept exactly when it is in the data, has the requested number and has a vertex inside the box; features keep their order |
| BusRoutes.PolylinesSelection | api/bus-routes.js:65-86 | the polyline answer counts one entry for a known service, none for an unknown one and every service without one, and is the same whatever valid bbox is given |
| BusRoutes.SimplifiedOnlyInMeta | api/bus-routes.js:24-84 | the `simplified` parameter changes nothing but the flag in the meta block |
| ChangeDetector.ExtractStopChanges | src/services/change-detector.js:70-77 | when it does not throw, the added (removed) stops are listed one per `add` (`remove`) record, in record order, under the record's key (lemma: ChangeDetector.StopChangesListed) |
| ChangeDetector.StopChangesListed | src/services/change-detector.js:70-77 | the added (removed) stops are the `add` (`remove`) records in order, each with its key and the name at index 2 of the new value (of the old table's entry); the extraction throws exactly when such a value is `undefined` or `null` |
| ChangeDetector.ExtractStopNameChanges | src/services/change-detector.js:79-87 | when it does not throw, there is one name change per `replace` record at index 2, in record order, under the record's key (lemma: ChangeDetector.NameChangesListed) |
| ChangeDetector.NameChangesListed | src/services/change-detector.js:79-87 | the name changes are exactly the `replace` records at index 2, in order, with the old name from the old table and the new one from the record; it throws exactly when such a stop is missing from the old table |
| ChangeDetector.ExtractStopLocationChanges | src/services/change-detector.js:88-107 | when it does not throw, there is one location change per distinct stop with a location record, in first-record order (lemmas: ChangeDetector.LocationChangesListed, ChangeDetector.LocationChangesOrder, ChangeDetector.LocationChangesThrow) |
| ChangeDetector.LocationChangesThrow | src/services/change-detector.js:88-107 | the extraction throws exactly when a stop with a location record is missing (`undefined` or `null`) from the old or the new table |
| ChangeDetector.LocationChangesOrder | src/services/change-detector.js:88-107 | stops are reported in the order of their first location record |
| ChangeDetector.LocationChangesListed | src/services/change-detector.js:88-107 | each stop with a `replace` record at an index other than 2 is reported once, and no other stop; each report carries the stop's old and new coordinates, indexes 0 and 1 of its entries in the old and new tables |
| ChangeDetector.RoadChangeIsLocationChange | src/services/change-detector.js:90-106 | a change of the road alone (index 3) is reported as a location change with unchanged coordinates |
| ChangeDetector.ExtractServiceChanges | src/services/change-detector.js:127-134 | when it does not throw, there is one service change per `add` (`remove`) record not under `routes`, in record order, under the record's key (lemma: ChangeDetector.ServiceChangesListed) |
| ChangeDetector.ServiceChangesListed | src/services/change-detector.js:127-134 | the added (removed) services are the `add` (`remove`) records not under `routes`, in order, with key and name; the extraction throws exactly when a value the name is read from is `undefined` or `null` |
| ChangeDetector.RoutesRecordIgnored | src/services/change-detector.js:129 | a record under a service's `routes` never changes the added or removed services |
| ChangeDetector.ExtractRouteChanges | src/services/change-detector.js:136-152 | when it does not throw, there is one route change per distinct service with a record under `routes`, in first-record order (lemmas: ChangeDetector.RouteChangesListed, ChangeDetector.RouteChangesOrder, ChangeDetector.RouteChangesThrow) |
| ChangeDetector.RouteChangesThrow | src/services/change-detector.js:136-152 | the extraction throws exactly when a service with a record under `routes` has no `routes` array in the old or in the new table |
| ChangeDetector.RouteChangesOrder | src/services/change-detector.js:136-152 | services are reported in the order of their first record under `routes` |
| ChangeDetector.RouteChangesListed | src/services/change-detector.js:129-147 | there is one route change per service with a record under `routes`, none twice; each carries the new table's service name and the added and removed counts `hyperdiff` gives for the flattened old and new routes |
| ChangeDetector.DetectRoutesChanges | src/services/change-detector.js:154-167 | when it does not throw, there is one changed service per changed number, in order (lemma: ChangeDetector.RoutesChangesListed) |
| ChangeDetector.ChangedServiceNumbersListed | src/services/change-detector.js:158-160 | the changed numbers are distinct and are exactly the diff keys that are truthy services of the new table |
| ChangeDetector.RoutesChangesListed | src/services/change-detector.js:154-167 | the geometry check never throws and lists, once each, exactly the diff keys that are truthy services of the new table |
| ChangeDetector.RewriteSnoc | src/services/change-detector.js:182-186 | one more line appends its timing to its service's entry, starting from the empty string |
| ChangeDetector.RewriteFirstLast | src/services/change-detector.js:179-189 | the rewritten table is the timings per service after all lines of all stops, in entry order |
| ChangeDetector.RewriteStopLines | src/services/change-detector.js:182-186 | the lines of one stop extend the rewritten table line by line |
| ChangeDetector.RewriteByKeys | src/services/change-detector.js:183-184 | a service is in the rewritten table exactly when some line names it |
| ChangeDetector.RewriteByValue | src/services/change-detector.js:185 | a listed service's entry is the concatenation of the timings of its lines, in order |
| ChangeDetector.RewriteLinesAt | src/services/change-detector.js:179-189 | a service is listed exactly when some line starts with it, and its entry is the concatenation of its lines' timings in order |
| ChangeDetector.RewriteOfGeneratedLine | src/services/change-detector.js:183-185 | for a line the generator writes, the service read back is the record's service and the timing is the six time fields as written |
| ChangeDetector.DetectFirstLastChanges | src/services/change-detector.js:169-177 | unchanged timings affect no service (lemma: ChangeDetector.FirstLastChangesAffected, both directions) |
| ChangeDetector.FirstLastChangesAffected | src/services/change-detector.js:169-177 | the first/last timings have changed exactly when some service is affected |
| ChangeDetector.Run | src/services/change-detector.js:15-31 | a returned report has at least one change and carries the run's date (lemma: ChangeDetector.RunRefusesEmptyReport) |
| ChangeDetector.RunRefusesEmptyReport | src/services/change-detector.js:15-203 | `run` refuses exactly the reports whose eight lists are empty and whose first/last timings are unchanged; every report it returns has a change |
| ChangeDetector.EmptyStopsDiff | src/services/change-detector.js:52-68 | without diff records the stop report has only the two counts |
| ChangeDetector.EmptyServicesDiff | src/services/change-detector.js:110-125 | without diff records the services report has only the two counts |
| ChangeDetector.EmptyRoutesDiff | src/services/change-detector.js:154-167 | without routes diff records no service's geometry changed |
| ChangeDetector.UnchangedDataRefused | src/services/change-detector.js:24-28 | empty diffs and unchanged first/last timings always end in the "no changes" error |
| GeneratorStops.ProcessStops | src/services/data-generator.js:123-158 | the stops table holds, for each code, the fused last stop with that code that is not withdrawn; the JSON table holds that stop's row; the stop-to-services table is returned empty |
| GeneratorStops.StopsDataKeys | src/services/data-generator.js:134-139 | a code is in the stops table exactly when some raw stop carries it and it is not withdrawn |
| GeneratorStops.StopsDataLast | src/services/data-generator.js:137-154 | the entry for a code is built from the last stop carrying that code |
| GeneratorStops.LoadStopNamesKeys | src/services/data-generator.js:49-61 | the patch table has an entry exactly for the codes of the patch file's records, and is empty when the file cannot be read |
| GeneratorStops.StopNamePatched | src/services/data-generator.js:49-140 | a stop's name is the new name of the last patch record for its code when that is a non-empty string, and its description otherwise |
| GeneratorStops.RoadFromLookup | src/services/data-generator.js:129-141 | a stop's road is the road name of the last DataMall record for its code when non-empty, and "Unknown Road" otherwise |
| GeneratorStops.StopsFeaturesEmpty | src/services/data-generator.js:126-431 | since the stop-to-services table is never filled, the stops GeoJSON has no feature |
| GeneratorFirstLast.CompressMarks | src/services/data-generator.js:534-537 | a weekend time becomes "=" exactly when it is a bus time equal to the weekday time, and is otherwise kept |
| GeneratorFirstLast.CompressExpand | src/services/data-generator.js:534-537 | the weekend time is recovered from the field and the weekday time whenever it is not itself "=" |
| GeneratorFirstLast.LineReadsBack | src/services/data-generator.js:540-542 | a line lists the record's seven fields and reads back to the record when no field holds a space |
| GeneratorFirstLast.GenerateFirstLastData | src/services/data-generator.js:504-556 | the table is built record by record: a record at a known stop appends its line to that stop's list, others are dropped |
| GeneratorFirstLast.FirstLastTable | src/services/data-generator.js:517-543 | only known stops are listed, each with at least one line (lemma: GeneratorFirstLast.FirstLastTableAt) |
| GeneratorFirstLast.FirstLastTableAt | src/services/data-generator.js:517-543 | a stop is listed exactly when it is known and some record names it, and its list holds its records' lines in input order |
| GeneratorFirstLast.WithdrawnStopsDropped | src/services/data-generator.js:507-532 | a withdrawn stop never gets a list |
| GeneratorServices.Origins | src/services/data-generator.js:242-245 | the origins start with the first route's first stop, are that stop and the second route's last stop, and hold no stop twice |
| GeneratorServices.Destinations | src/services/data-generator.js:246-248 | the destinations start with the first route's last stop, are that stop and the second route's first stop, and hold no stop twice |
| GeneratorServices.GenerateServiceName | src/services/data-generator.js:229-257 | a name exists only when the first route has a known first stop, and, for two or more routes, a non-empty second route (lemmas: GeneratorServices.ServiceNameFails, GeneratorServices.LoopServiceName, GeneratorServices.OneWayServiceName, GeneratorServices.TwoRouteServiceName) |
| GeneratorServices.LoopServiceName | src/services/data-generator.js:230-237 | a single loop route is named after its first stop and the stop halfway along it |
| GeneratorServices.LoopServiceNameExample | src/services/data-generator.js:235-237 | the loop `S1 S2 S3 S4 S1` is named after S1 and S3 |
| GeneratorServices.OneWayServiceName | src/services/data-generator.js:238-240 | a single route between two different stops is named after both ends |
| GeneratorServices.ReturnTripServiceName | src/services/data-generator.js:241-256 | two routes running between the same two stops in opposite directions are named after those stops, or after the first alone when both names are equal |
| GeneratorServices.TwoRouteServiceName | src/services/data-generator.js:241-256 | with two or more routes and their ends known, the name is the first route's start (plus the second route's end when different), `⇄`, the first route's end (plus the second route's start when different), or one side alone when both sides read the same |
| GeneratorServices.AsymmetricServiceName | src/services/data-generator.js:241-256 | routes `A…B` and `C…A` are named `A ⇄ B / C` |
| GeneratorServices.ServiceNameFails | src/services/data-generator.js:229-257 | with every stop known, naming throws exactly for no route, a lone route of fewer than two stops, or an empty first or second route |
| GeneratorServices.KnownStops | src/services/data-generator.js:202-204 | each pattern's stop list keeps, in order, the stops present in the stops table |
| GeneratorServices.KnownStopsCleaned | src/services/data-generator.js:197-204 | the cleaned sequences come from non-empty patterns and keep, in order, exactly their known stops |
| GeneratorServices.ReadKmlCoordinates | src/services/data-generator.js:269-274 | a KML file yields the coordinates of the first feature of its converted GeoJSON, or nothing when any read fails |
| GeneratorServices.AddFeature | src/services/data-generator.js:275-320 | a pattern that yields coordinates adds its feature and sets its polyline |
| GeneratorServices.ProcessServiceGeometries | src/services/data-generator.js:259-294 | a faulty service takes the patched geometries; otherwise each KML file is tried on its own and failures are skipped; the polylines match the features |
| GeneratorServices.ProcessPatchedGeometries | src/services/data-generator.js:296-325 | each pattern takes the first patch pattern starting at its first stop; without a loadable patch there is no geometry; the polylines match the features |
| GeneratorServices.FeaturesMembers | src/services/data-generator.js:267-291 | a feature exists for exactly the patterns that yield coordinates, carries them and is numbered by the pattern's position |
| GeneratorServices.FeaturesOrdered | src/services/data-generator.js:267-291 | the features come in increasing pattern order, all below the number of patterns |
| GeneratorServices.ServiceGeometriesMembers | src/services/data-generator.js:259-325 | a KML feature exists for exactly the files whose coordinates can be read, a patched feature for exactly the patterns whose first stop starts a patch pattern |
| GeneratorServices.ServiceGeometriesOrdered | src/services/data-generator.js:259-325 | a service's features come in increasing pattern order and carry the service number |
| GeneratorServices.PolylinesOfFeatures | src/services/data-generator.js:275-308 | a pattern has a polyline exactly when it has a feature, and the polyline encodes that feature's vertices |
| GeneratorServices.PolylinesKeys | src/services/data-generator.js:275-308 | a pattern is a key of the polylines exactly when some feature has that pattern, in any feature order |
| GeneratorServices.PolylineValue | src/services/data-generator.js:275-308 | with patterns increasing, every feature's pattern maps to the encoding of that feature's own vertices |
| GeneratorServices.ServiceResultShape | src/services/data-generator.js:191-227 | a processed service read its route file, is named from its cleaned stop sequences, and its features carry its number, come in pattern order and match its polylines |
| GeneratorServices.ProcessServices | src/services/data-generator.js:160-189 | the services and polylines tables are those of the eligible services processed one by one, and the feature list is their features sorted by number then pattern |
| GeneratorServices.VisitKeys | src/services/data-generator.js:172-181 | a number is in the services table exactly when some service with it was processed, and the polylines table has the same numbers |
| GeneratorServices.VisitFeatures | src/services/data-generator.js:179 | the route features are exactly the features of the processed services |
| GeneratorServices.VisitIsolatesFailure | src/services/data-generator.js:173-226 | a service that is skipped or fails leaves no trace in the tables |
| GeneratorServices.ServiceOutcomeNumbers | src/services/data-generator.js:165-180 | a processed service is eligible and carries its own number, as do its features |
| GeneratorServices.ProcessedFeaturesListed | src/services/data-generator.js:160-189 | every route feature belongs to a listed service, and only eligible services are listed |
| GeneratorServices.InsertSorted | src/services/data-generator.js:183-186 | inserting a feature into a sorted list keeps it sorted |
| GeneratorServices.SortFeaturesCorrect | src/services/data-generator.js:183-186 | the feature list comes out ordered by number then pattern and is a permutation of the input |
| GeneratorServices.SortFeaturesSorted | src/services/data-generator.js:183-186 | for a total preorder on numbers, the sorted features are ordered by number then pattern |
| GeneratorServices.SortFeaturesPermutes | src/services/data-generator.js:183-186 | for any comparison, sorting neither loses nor adds a feature |
| GeneratorGeometry.Stitch | src/services/data-generator.js:383-390 | a stitched route starts at the first line's first vertex (lemmas: GeneratorGeometry.StitchFails, GeneratorGeometry.StitchSubsequence, GeneratorGeometry.StitchKeepsVertices, GeneratorGeometry.StitchJunctions) |
| GeneratorGeometry.StitchLines | src/services/data-generator.js:383-390 | the stitching loop computes the stitch of the lines |
| GeneratorGeometry.StitchSnoc | src/services/data-generator.js:384-389 | one more line is appended whole, or without its first vertex when that repeats the last gathered vertex, and an empty line after gathered vertices throws |
| GeneratorGeometry.StitchEmpty | src/services/data-generator.js:383-390 | nothing is gathered exactly when every line is empty |
| GeneratorGeometry.StitchFails | src/services/data-generator.js:385 | the stitch throws exactly when an empty line comes after a non-empty one |
| GeneratorGeometry.StitchSubsequence | src/services/data-generator.js:383-390 | the result is the lines' vertices in order with some left out |
| GeneratorGeometry.StitchKeepsVertices | src/services/data-generator.js:383-390 | no vertex value is lost: every vertex of every line is in the result |
| GeneratorGeometry.StitchJunctions | src/services/data-generator.js:383-390 | without empty lines the stitch succeeds, ends on the last line's last vertex and drops exactly one vertex per repeated junction |
| GeneratorGeometry.ExtractCoordinatesFromFeature | src/services/data-generator.js:381-396 | a LineString gives its own coordinates, a GeometryCollection the stitch of its lines, anything else throws |
| GeneratorGeometry.FindFirstSegment | src/services/data-generator.js:338-351 | the search finds nothing exactly when no segment has sequence number 1, and otherwise the first one that has |
| GeneratorGeometry.Swapped | src/services/data-generator.js:373 | every vertex has its coordinates reversed, and the path keeps its length |
| GeneratorGeometry.LoadPatchPatterns | src/services/data-generator.js:327-364 | there are no patch patterns exactly when neither the OneMap nor the CityMapper patch can be read and used (lemma: GeneratorGeometry.PatchPatternsPreferOneMap) |
| GeneratorGeometry.PatchPatternsPreferOneMap | src/services/data-generator.js:327-364 | a usable OneMap patch decides the patterns whatever the CityMapper file holds |
| GeneratorGeometry.OmPatternsShape | src/services/data-generator.js:335-363 | one pattern per present direction, each starting from the stop of its first sequence-1 segment and following the stitch of its segments |
| GeneratorGeometry.CmPatternsSwapped | src/services/data-generator.js:371-374 | one pattern per CityMapper pattern of the first route, whose vertices swapped back give the path |
| GeneratorGeometry.FindPattern | src/services/data-generator.js:304 | the search finds nothing exactly when the pattern has no stops or no patch pattern starts at its first stop, and otherwise the first that does |
| GeneratorGeometry.DigitSuffix | src/services/data-generator.js:82 | the length of the longest run of digits ending the name |
| GeneratorGeometry.StripPatternSuffix | src/services/data-generator.js:82 | the name loses a trailing `-` and digits exactly when it has them, and is then cut at that `-` |
| GeneratorGeometry.FaultyRoutes | src/services/data-generator.js:73-101 | one entry per failed KML file and per multi-line result (lemma: GeneratorGeometry.FaultyRoutesMembers) |
| GeneratorGeometry.FaultyRoutesMembers | src/services/data-generator.js:73-101 | a service is faulty exactly when one of its KML files failed or it has a multi-line result |
| GeneratorGeometry.FaultyNumberOfKml | src/services/data-generator.js:81-83 | a failed KML file named `<number>-<pattern>.<ext>` gives back its service number |
| DataPatcher.WordRun | src/services/data-patcher.js:40 | the longest prefix of `[\w-]` characters: all of it is in the class and the next character is not |
| DataPatcher.ParseKmlName | src/services/data-patcher.js:40 | a match gives a non-empty service number and a digit such that the name starts with `<number>-<digit>.` (lemmas: DataPatcher.KmlNameRoundTrip, DataPatcher.KmlNameParsed) |
| DataPatcher.KmlNameRoundTrip | src/services/data-patcher.js:40 | the KML file name `<number>-<digit>.<ext>` matches and gives back its service number and pattern digit |
| DataPatcher.KmlNameParsed | src/services/data-patcher.js:40 | a matching name is a `[\w-]` service number, `-`, one digit, `.` and the rest of the name |
| DataPatcher.FindService | src/services/data-patcher.js:41 | the search finds nothing exactly when no service has the number, and otherwise the first one that has |
| DataPatcher.MissingServices | src/services/data-patcher.js:39-59 | when no name fails to match, there is one entry per failed KML file (lemmas: DataPatcher.MissingServicesAbort, DataPatcher.MissingEntryOfKml) |
| DataPatcher.MissingServicesAbort | src/services/data-patcher.js:39-59 | `patchMissingRoutes` aborts exactly when some failed KML file name does not match the pattern |
| DataPatcher.MissingEntryOfKml | src/services/data-patcher.js:39-59 | for a listed service the KML file of pattern `d` gives a pattern to patch exactly when the route file can be read and has a `d`th direction, and it carries the number, the pattern and the route file |
| DataPatcher.MergeDirections | src/services/data-patcher.js:90-95 | direction one is the first answer when truthy and the second otherwise; direction two is the second answer or `null`, and is the second answer whenever the two start at different stops |
| DataPatcher.NoSecondAnswerNoDirectionTwo | src/services/data-patcher.js:83-95 | without a second answer there is no second direction |
| DataPatcher.SameStartNoDirectionTwo | src/services/data-patcher.js:90-95 | two answers starting at the same stop give no second direction |
| DataPatcher.OneMapAcceptedStart | src/services/data-patcher.js:76-110 | a OneMap answer is kept only when direction one exists and starts at the first stop of the route's first direction |
| DataPatcher.FindDisplayName | src/services/data-patcher.js:124 | the search finds nothing exactly when every result has a display name loosely different from the number, and otherwise the first loosely equal one |
| DataPatcher.CityMapperAcceptedMatch | src/services/data-patcher.js:118-140 | CityMapper's route is kept only when some result is named after the service and its route information has a non-empty `routes` list |
| DataPatcher.Resolve | src/services/data-patcher.js:76-147 | the resolution of a pattern is about its own service |
| DataPatcher.OneMapFirst | src/services/data-patcher.js:97-116 | a kept OneMap answer never consults CityMapper; a service stays missing exactly when both attempts fail |
| DataPatcher.ResolveMissing | src/services/data-patcher.js:76-147 | one iteration's two `try` blocks compute the resolution |
| DataPatcher.ResolveAll | src/services/data-patcher.js:70-148 | the loop over the patterns to patch skips the `undefined` entries and, for each other one, writes its OneMap or CityMapper patch or adds its service to the missing list, in order |
| DataPatcher.PatchMissingRoutes | src/services/data-patcher.js:27-156 | the pass aborts, before any file is written, exactly when a failed file name does not match or the session token cannot be read; otherwise the patch files are written in order and then, once, the missing list |
| DataPatcher.MissingSound | src/services/data-patcher.js:142-146 | every service in the missing list comes from a pattern that could not be patched |
| DataPatcher.MissingComplete | src/services/data-patcher.js:142-146 | every pattern that could not be patched has its service in the missing list |
| DataPatcher.MissingCount | src/services/data-patcher.js:70-148 | each pattern to patch either writes one patch file or adds its service to the missing list |
| DataPatcher.MissingListWrittenOnce | src/services/data-patcher.js:104-153 | no patch file is written at the missing list's path |
| DataPatcher.SameAsFirst | src/services/data-patcher.js:182-186 | over a non-empty list, all features have the first's coordinates exactly when every join succeeds and gives the same numbers |
| DataPatcher.ConnectedFrom | src/services/data-patcher.js:206-215 | the check passes exactly when each segment from the given one on ends where the next begins |
| DataPatcher.Classify | src/services/data-patcher.js:176-236 | a file without features is skipped, and a flagged file is either a multi-feature file or a single feature that is not a LineString (lemmas: DataPatcher.SeveralFeatures, DataPatcher.SingleGeometry, DataPatcher.SingleCollection) |
| DataPatcher.ClassifyGeometry | src/services/data-patcher.js:199-233 | a LineString is accepted, and a flagged geometry is not a LineString and is flagged with its type name |
| DataPatcher.SeveralFeatures | src/services/data-patcher.js:181-197 | several LineString features are accepted exactly when all have the same coordinates, and are otherwise flagged as more than one feature with their count |
| DataPatcher.SameAsFirstDefined | src/services/data-patcher.js:182-186 | comparing LineString coordinates never throws |
| DataPatcher.SingleGeometry | src/services/data-patcher.js:199-233 | a single LineString is accepted; a single geometry that is neither a LineString nor a collection is flagged with count "?" |
| DataPatcher.SingleCollection | src/services/data-patcher.js:202-232 | a collection of LineStrings is accepted exactly when each segment ends where the next begins, and is otherwise flagged with its segment count |
| DataPatcher.ConnectedStitch | src/services/data-patcher.js:206-215 | a connected collection of non-empty segments stitches into one line with one vertex fewer per junction |
| DataPatcher.AllJunctions | src/services/data-patcher.js:206-215 | in a connected list of non-empty segments every junction repeats a vertex |
| DataPatcher.InspectFiles | src/services/data-patcher.js:172-237 | the inner loop appends the records of the service's KML files in order |
| DataPatcher.FindMultilineRoutes | src/services/data-patcher.js:166-238 | the outer loop gathers the records of all inspected services in order |
| DataPatcher.FileRecordsSound | src/services/data-patcher.js:172-237 | each record carries the service's number and the base name of one of its KML files |
| DataPatcher.MultilineRecordsInspected | src/services/data-patcher.js:168-171 | only services that are neither withdrawn nor of another type are flagged |
| DataPatcher.MultilineServicesDistinct | src/services/data-patcher.js:253 | each flagged service is listed once, and exactly the flagged services are listed |
| DataPatcher.SecondDirectionRequest | src/services/data-patcher.js:265-274 | the second direction is requested from the end stop only when direction one is non-empty and names a truthy end stop; otherwise there is no direction two |
| DataPatcher.RequestMultiline | src/services/data-patcher.js:255-296 | the request loop writes one OneMap file per flagged service OneMap knows, in order, with one delay per flagged service whatever happens to it |
| DataPatcher.PatchMultilineRoutes | src/services/data-patcher.js:158-299 | the results file is written first; the pass then fails exactly when the session token cannot be read, with no request and no delay; otherwise the requests follow |
| DataPatcher.SuspectNameExamples | src/services/data-patcher.js:315 | `BLK 123` is looked up; `Blk 123` and `A1` are not |
| DataPatcher.PatchBusStopNames | src/services/data-patcher.js:301-350 | the records are those of the stops that are not withdrawn, one wait per record, and the record list is written once |
| DataPatcher.FixedStopsShape | src/services/data-patcher.js:311-341 | the positions of the stops the loop records increase strictly, and a position is listed exactly when that stop is suspect and its page was fetched |
| DataPatcher.StopNameFixesAtMostOnePerStop | src/services/data-patcher.js:311-341 | at most one record per stop: the j-th record is the one made for the stop at the j-th recorded position, and those positions increase strictly, so no stop gives two records |
| DataPatcher.StopNameFixesListed | src/services/data-patcher.js:311-341 | a record exists exactly for each stop whose name has no lower-case letter and two capitals in a row and whose page could be fetched, and carries the page's name or `null` |
| DataPatcher.WithdrawnStopsSkipped | src/services/data-patcher.js:309 | withdrawn stops are never looked up |
| DataPatcher.LaterPasses | src/services/data-patcher.js:19-25 | after the missing-routes pass, the multiline pass runs; the stop-name pass follows exactly when the multiline pass reads its session token |
| DataPatcher.Run | src/services/data-patcher.js:19-25 | `run` rejects exactly when a failed file name does not match or either session token cannot be read; the first two reject before any write, the second token after the first pass's files and the multiline results file; otherwise the three patches' files are written in turn and the three results are returned |
| Js.ParseIntReadsIntString | api/lib/validators.js:57-80 | `parseInt` reads back the decimal text of every integer, with radix 10 or without a radix |
| Js.ParseIntIgnoresSuffix | api/lib/validators.js:57-80 | `parseInt(s, 10)` ignores whatever follows an integer's digits |
| Js.ParseIntDecimalHex | api/lib/validators.js:80 | `parseInt(s, 10)` reads a `0x` literal as the 0 before the `x` |
| Js.NumberReadsIntString | api/utils/validators.js:58 | `Number` reads back the decimal text of every integer |
| Js.ParseFloatReadsIntString | api/lib/validators.js:120 | `parseFloat` reads back the decimal text of every integer |
| Js.NumberOfBlank | api/utils/validators.js:58 | `Number` reads an empty or blank string as 0 |
| Js.TrailingLetter | api/utils/validators.js:58 | `Number` rejects a trailing letter that `parseFloat` ignores |
| Js.HexLiteral | api/utils/validators.js:58 | `Number` reads a hexadecimal literal that `parseFloat` stops reading at the `x` |
| Patterns.TwoTerms | api/utils/validators.js:29 | a pattern `A{m,n}B?` matches exactly the strings of `m` to `n` characters of class A followed by at most one character of class B |
| Patterns.StopCodeShape | api/utils/validators.js:12 | the stop code pattern matches exactly the strings of five decimal digits |

## Left out

**Documentation and code disagree**

- `api/docs.js:19` documents the bus-stops `limit` as "default 1000, max 5000". The code (`api/bus-stops.js:29` with `api/utils/validators.js`) uses a default of 100 and a maximum of 1000. The model follows the code.

**Input shapes**

- Repeated query parameters arrive as arrays in the source. The model takes each parameter as either absent or a single string, so the validators' `typeof` checks on non-string values are not modelled.
- Identifiers (service numbers, stop codes) are strings. A JSON number standing where a string is expected is not modelled.

**JavaScript semantics**

- Case mapping covers ASCII plus the dotless i and long s. Other non-ASCII case mappings are left out.
- `Number` and `parseFloat` are exact decimal readings into `real`, given as an oracle where their full grammar matters. Floating-point rounding, overflow to `Infinity` and `-0` are not modelled.
- `NaN` inside JSON values is not modelled.
- `Object.entries`/`Object.keys` order is taken to be the given sequence order. JavaScript's rule that integer-like keys come first is not modelled.
- Plain objects indexed by a key are modelled as maps with key membership. This covers `routesData[service]` in `api/bus-routes.js` and `newFL[service]` in `rewriteFirstLast` (`src/services/change-detector.js:180-185`). Inherited keys such as `constructor` or `__proto__` are not modelled. For a service with such a name, JavaScript finds a value where the map has none.
- `parseInt` and `Number` read integer text exactly. Precision is lost above 2^53 in JavaScript, and this is not modelled. The validators read `limit` and `skip` with `parseInt`, so an integer over 2^53 compares differently with the limits there.
- Loose equality (`==`) on array or object `display_name` values is not modelled; only string and number comparison is.

**Generator**

- The `localeCompare` sorts of stops and services are left out; entries are visited in the given order.
- The route-feature sort is modelled as a stable insertion sort over an abstract total preorder.
- The `sort()` of a stop's service list is left out.
- Number rounding, line simplification and the polyline encoder are parameters.
- A GeometryCollection holding a non-LineString member yields no coordinates in the model. In the source its outcome depends on array coercion.
- The source reads each geometry file fresh and then mutates its segments (`shift`, `reverse`). The model builds new sequences instead, so that in-place mutation is not modelled.
- The GeoJSON validation and the file writes of `generateOutputs` are left out. They are I/O over the tables the model computes.

**External libraries and inputs**

- The results of `just-diff` and `hyperdiff` are inputs. The model states what it relies on from them: an empty diff exactly for equal values, and counts as given.
- The services affected by first/last changes are modelled as a set. The order of the source's list is not modelled.
- Git commands, the clock, `console` output and `logChanges` are left out.
- HTTP requests are oracle parameters. The HTTP client's retries and the length of each wait are not modelled. The number of `delay()` calls is modelled.
- The OneMap session token is modelled only as whether each of the two home-page requests yields a first cookie carrying `OMITN`. A failure rejects `run`. The token's value, and how it is used in the requests, are not modelled.
- The TransitLink page scrape (its regular expression over HTML) is a lookup oracle.
- XML/KML parsing and the `togeojson` conversion are left out.
- The handlers load their data lazily and answer 500 on a read failure. This is left out: the data are parameters.
- The response envelope of `ResponseHandler` is left out. Status, error message, data and counts are modelled; echoed query fields are not.
- `DataFetcher`'s `fetchBusStops`, `fetchBusServices`, `fetchDatamallData` wrappers and the writes in `run` are file I/O around `LtaClient`. Only `fetchServiceRoutes` and its file loop are modelled.
- File writes never fail in the model.

**Files outside the core**

- `onemap-client`, `citymapper-client`, `lta-service`, `realtime`, `arrivals`, `data-manager`, `base-service` and `src/utils/validators.js` are not part of this model.

**Contracts stated weaker or differently**

- LtaClient.FetchDatamallData: the source loops forever when no page is ever empty. The method takes a ghost page index `lastPage` at which the loop is known to end, and it is proved only for such inputs.
- ChangeDetector.LocationRecords: the source's `filter` mutates a `Set` while it filters. This is modelled as a pure function with the same result.
- BusStops.FilterRowsAsWritten: as written, the JSON filters throw, so this member only states that a result, when there is one, is the unchanged table.

## Findings

| source | as written | input that shows it | evidently intended | confidence | as-written member | corrected member |
|---|---|---|---|---|---|---|
| api/bus-stops.js:89-101 | the JSON branch filters on `stopData.services` and `stopData.name`. The rows of the stops table are `[lng, lat, name, road]` arrays (`src/services/data-generator.js:148`), so `.includes` and `.toLowerCase` are called on `undefined`, and the request fails with a 500 | `/api/bus-stops?service=10&limit=50` (the documented example) on any non-empty stops table | filter rows by the stop's services and by name (index 2) or road (index 3) | not executed | BusStops.JsonFilterThrows | BusStops.CorrectedRowsSelect |
