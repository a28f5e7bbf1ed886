# gtfs-realtime-etl, modelled in Dafny

gtfs-realtime-etl runs two scheduled jobs over one object-store bucket.

The **ingest job** (`etl/runtime/handler.py`) fetches a GTFS Realtime vehicle-positions feed. It turns every feed entity that carries a vehicle position into one nine-column record. It nulls out every `0.0` and `""`, appends a WKB point column, and writes a GeoParquet file. It then uploads the file under `positions_raw/YYYY/MM/DD/HHMMSS.parquet`, keyed by the write-time clock.

The **compaction job** (`compaction/runtime/handler.py`) works on a lookback window, which counts back either days or months from the current date and optionally includes the current day or month. For each date in the window, oldest first, it:
- lists a partition prefix page by page;
- reads the listed files as one dataset and sorts it by `geohash`;
- keeps the first file's metadata;
- writes the result with fixed row-group bounds;
- uploads every `.parquet` file in `/tmp` under the partition's destination prefix.

## Modules

| file | module | what it holds |
|---|---|---|
| `wrappers.dfy` | `Wrappers` | the `Option` and `Result` types |
| `strings.dfy` | `Strings` | how `strftime` prints decimals, prefix and suffix tests, the code-point order used for sorting |
| `calendar.dfy` | `Calendar` | proleptic Gregorian dates in Python's year range, day and month arithmetic (`relativedelta`, with day-of-month clamping), and the `%Y/%m/%d/` and `%H%M%S` texts |
| `columnar.dfy` | `Columnar` | cells, rows, GeoParquet metadata and Parquet files |
| `listing.dfy` | `Listing` | `list_objects_in_s3` |
| `planner.dfy` | `Planner` | `get_dates_in_range` |
| `partition.dfy` | `Partition` | `merge_objects_from_s3` |
| `compaction.dfy` | `Compaction` | the compaction `handler` |
| `ingest.dfy` | `Ingest` | the ingest `handler` |
| `pipeline.dfy` | `Pipeline` | what follows from the two jobs' key layouts and schemas taken together |

Everything outside the program is a parameter of the model:
- the object store is a function from a list request to a page, plus a function from a URI to a file;
- the clock is a `Date` or `DateTime` value;
- the fetch outcome is a value;
- the `/tmp` directory listing is a value;
- upload failure is a flag.

Where the code and its documentation disagree, the model follows the code:
- A feed without vehicle positions makes the ingest job raise. `pd.DataFrame([])` has no columns, so `astype` with the dtype mapping raises a `KeyError` (etl/runtime/handler.py:75-90). It does not write an empty file.
- `raise_for_status` raises only for status codes 400 to 599. Other non-2xx responses are parsed as a feed.
- Both periods use the row-group bounds 61440 and 122880 (compaction/runtime/handler.py:105-106).
- `%Y` has exactly four digits for the years 1000 to 9999 (`Strings.DecimalFourDigits`), so every key the jobs build today has a four-digit year. Earlier years are outside what the model settles (see "## Left out").
- The ingest key has no stage segment, but compaction lists `{stage}/positions_raw/...`. `Pipeline.RawSnapshotsNeverListed` proves that no raw snapshot ever lies under a compaction source prefix. The ingest file also has no `geohash` column, and `Pipeline.SnapshotFirstMergeFails` proves that a merge whose first listed file is such a snapshot raises.

## Model

| member | source | states |
|---|---|---|
| `Strings.DecimalRoundTrip` | compaction/runtime/handler.py:61 | reading back the printed year gives the year |
| `Strings.DecimalInjective` | compaction/runtime/handler.py:61 | distinct years print differently |
| `Strings.DecimalFourDigits` | compaction/runtime/handler.py:61 | years 1000..9999 print as exactly four digits |
| `Strings.Decimal` | compaction/runtime/handler.py:61 | the year text is a non-empty string of decimal digits |
| `Strings.ZeroPad2` | compaction/runtime/handler.py:61 | `%m`/`%d`/`%H`/`%M`/`%S` print two digits that read back as the number |
| `Strings.LexLeTotal` | compaction/runtime/handler.py:99 | the text order used by the sort is total |
| `Strings.LexLeTransitive` | compaction/runtime/handler.py:99 | the text order used by the sort is transitive |
| `Calendar.DaysInMonth` | compaction/runtime/handler.py:143 | months have 28..31 days, and 29 exactly for February of a leap year |
| `Calendar.NextDay` | compaction/runtime/handler.py:152 | one day later is a valid, strictly later date |
| `Calendar.NextDayIsImmediate` | compaction/runtime/handler.py:152 | no valid date lies strictly between a date and its next day, so a day step is exactly one calendar day |
| `Calendar.PrevDay` | compaction/runtime/handler.py:143 | one day earlier is a valid date whose next day is the original |
| `Calendar.AddDays` | compaction/runtime/handler.py:143 | `relativedelta(days=n)` as n single-day steps, forward for positive n and back for negative n, always a valid date |
| `Calendar.AddDaysStep` | compaction/runtime/handler.py:152 | `start + (n+1) days` is the day after `start + n days` |
| `Calendar.AddDaysBackAndForth` | compaction/runtime/handler.py:143 | going back k days and forward k days returns to the date |
| `Calendar.AddMonths` | compaction/runtime/handler.py:154 | adding n months moves the month index by exactly n and clamps the day to the target month's length |
| `Calendar.MonthIndexInjective` | compaction/runtime/handler.py:145 | equal month indices mean the same year and month |
| `Calendar.MonthIndexOrder` | compaction/runtime/handler.py:154 | a larger month index means a strictly later date |
| `Calendar.YearText` | compaction/runtime/handler.py:61 | `%Y` as the decimal year; exactly four digits for the years 1000..9999 |
| `Calendar.TimeText` | etl/runtime/handler.py:141 | `%H%M%S` is six digits |
| `Calendar.MonthPathInjective` | compaction/runtime/handler.py:72 | the month path `YYYY/MM/` determines the year and month |
| `Calendar.DayPathInjective` | compaction/runtime/handler.py:61 | the day path `YYYY/MM/DD/` determines the date |
| `Listing.RequestFor` | compaction/runtime/handler.py:36-41 | a token is sent exactly when one is held and it is non-empty (Python truthiness) |
| `Listing.Walk` | compaction/runtime/handler.py:35-48 | a finished walk makes at least one and at most `fuel` requests |
| `Listing.WalkUnfold` | compaction/runtime/handler.py:36-48 | one iteration: send the request, record the response, stop when the page has no next token, else continue with it |
| `Listing.WalkProtocol` | compaction/runtime/handler.py:31-48 | the first request carries the starting token, each later request carries the previous page's `NextContinuationToken`, and only the last page lacks one |
| `Listing.WalkFuelIrrelevant` | compaction/runtime/handler.py:35-48 | the exchanges do not depend on the bound once it is large enough |
| `Listing.GatheredEmpty` | compaction/runtime/handler.py:43-50 | nothing is gathered exactly when every page's `Contents` is missing or empty |
| `Listing.GatheredAppend` | compaction/runtime/handler.py:43 | each page's contents are appended after the earlier pages' contents |
| `Listing.ListingOf` | compaction/runtime/handler.py:50 | the sentinel `"None"` exactly when nothing was gathered, otherwise the concatenated contents in page order |
| `Listing.ListObjects` | compaction/runtime/handler.py:31-50 | the loop returns exactly `ListingOf` for the store |
| `Planner.PlanLength` | compaction/runtime/handler.py:147-150 | the number of dates is the lookback, plus one with `compact_to_now`, and none when that is not positive |
| `Planner.PlanStart` | compaction/runtime/handler.py:142-145 | the start is `now` moved back by the lookback, a valid date |
| `Planner.PlanDate` | compaction/runtime/handler.py:150-155 | entry n is the start moved forward n units, a valid date |
| `Planner.PlanDatesConsecutive` | compaction/runtime/handler.py:150-155 | adjacent entries are one calendar day, or one calendar month, apart and strictly increasing |
| `Planner.PlanEndsAtNow` | compaction/runtime/handler.py:142-150 | with `compact_to_now` the last entry is in the current month, and is today in day mode |
| `Planner.PlanEndsBeforeNow` | compaction/runtime/handler.py:142-150 | without it the last entry is yesterday or last month |
| `Planner.PlanCoversUpToNow` | compaction/runtime/handler.py:139-156 | a positive lookback plans at least one date, oldest first, ending in the current or the previous period |
| `Planner.GetDatesInRange` | compaction/runtime/handler.py:139-156 | raises exactly when a planned date is outside years 1..9999; otherwise the dates are exactly the plan entries, consecutive and increasing |
| `Partition.SourcePrefixInjective` | compaction/runtime/handler.py:58-73 | different dates list different prefixes (different months in month mode) |
| `Partition.SourcePrefix` | compaction/runtime/handler.py:58-73 | days list `{stage}/positions_raw/YYYY/MM/DD/`, months list `{stage}/positions/YYYY/MM/` |
| `Partition.DestinationKey` | compaction/runtime/handler.py:125-130 | day files go to `{stage}/positions/YYYY/MM/DD/<file>`, month files to `{stage}/positions/YYYY/MM/<file>` |
| `Partition.DayOutputFeedsMonth` | compaction/runtime/handler.py:125-130 | day output lands under the month's source prefix |
| `Partition.MonthOutputRelisted` | compaction/runtime/handler.py:125-130 | month output lands under its own month's source prefix |
| `Partition.DayOutputNotRelisted` | compaction/runtime/handler.py:125-128 | day output never lands under any day source prefix |
| `Partition.UrisOf` | compaction/runtime/handler.py:81-83 | one URI `bucket/key` per listed object, in listing order |
| `Partition.Project` | compaction/runtime/handler.py:93-98 | a row read under the dataset schema: columns the file lacks read as null, columns the schema lacks are dropped |
| `Partition.DatasetRows` | compaction/runtime/handler.py:93-98 | the dataset is every file's rows, file after file; every row holds exactly the first file's columns, and no row is lost or added (as many rows as the files hold together) |
| `Partition.OneFileDataset` | compaction/runtime/handler.py:93-98 | reading one file whose rows hold exactly its own columns gives back its rows unchanged |
| `Partition.ConformingDataset` | compaction/runtime/handler.py:93-98 | when every listed file holds the first file's columns, the dataset is exactly the files' rows, file after file, and its size is the files' row count |
| `Partition.KeyLeTotal` | compaction/runtime/handler.py:99 | the geohash order (nulls last) is total |
| `Partition.KeyLeTransitive` | compaction/runtime/handler.py:99 | the geohash order is transitive |
| `Partition.SortedAllPairs` | compaction/runtime/handler.py:99 | adjacent-pair sortedness gives every pair in order |
| `Partition.InsertBy` | compaction/runtime/handler.py:93-99 | inserting keeps the rows sorted and the same multiset |
| `Partition.SortBy` | compaction/runtime/handler.py:93-99 | sorting yields a sorted permutation |
| `Partition.SortByGeohash` | compaction/runtime/handler.py:93-99 | the merged rows are a permutation of the input rows, non-decreasing in geohash |
| `Partition.SortSortedIsIdentity` | compaction/runtime/handler.py:99 | sorting already sorted rows changes nothing |
| `Partition.ParquetNames` | compaction/runtime/handler.py:125-126 | the names kept are no more than the names listed |
| `Partition.ParquetNamesMembers` | compaction/runtime/handler.py:125-126 | a name is kept exactly when it is listed and ends in `.parquet` |
| `Partition.UploadsArePerParquetFile` | compaction/runtime/handler.py:124-136 | one upload per `.parquet` name, in listing order, from `/tmp/<name>` to the partition's destination key |
| `Partition.UploadsFor` | compaction/runtime/handler.py:124-136 | the uploads for the `/tmp` listing, one per `.parquet` name, in listing order |
| `Partition.MergeOutcomeMeaning` | compaction/runtime/handler.py:57-136 | nothing read or uploaded when nothing is listed; raises exactly when the first file lacks `geohash`; otherwise the URIs, the first file's metadata, the sorted permutation of all rows read under the first file's columns (each merged row holds exactly those columns), as many rows as the listed files hold together, and, when every file holds those columns, a permutation of all the files' rows, the 61440/122880 bounds and the uploads |
| `Partition.MergeOutcomeOf` | compaction/runtime/handler.py:57-136 | the sentinel when nothing is listed, the missing-`geohash` error, or the sorted dataset with the first file's metadata, the fixed bounds and the uploads |
| `Partition.UploadWrittenFiles` | compaction/runtime/handler.py:124-136 | the upload loop performs exactly the uploads of `UploadsFor` |
| `Partition.MergeObjects` | compaction/runtime/handler.py:57-136 | the merge's result is `MergeOutcomeOf` for the store |
| `Compaction.SelectMode` | compaction/runtime/handler.py:171-176 | `previous_days` wins when truthy, then `previous_months`, and no mode exists when neither is truthy |
| `Compaction.StageText` | compaction/runtime/handler.py:169 | a missing stage renders as "None" in keys |
| `Compaction.MergeEach` | compaction/runtime/handler.py:180-181 | merges every date in order; fails exactly when some merge raises, reporting the first one |
| `Compaction.CompactPlanned` | compaction/runtime/handler.py:178-187 | the run agrees with the plan: fails when a date is out of range or a merge raises, otherwise one outcome per planned date |
| `Compaction.Handler` | compaction/runtime/handler.py:159-187 | an unbound duration raises; otherwise the run is as planned and answers 200 "Compaction complete!" |
| `Ingest.ToRecord` | etl/runtime/handler.py:48-70 | the null rules per column, with `direction_id` equal to the route id |
| `Ingest.RecordsOf` | etl/runtime/handler.py:45-71 | one record per entity that carries a vehicle, in feed order |
| `Ingest.VehicleIndicesMeaning` | etl/runtime/handler.py:46-47 | the entities used are, in increasing order, exactly those that carry a vehicle |
| `Ingest.RecordsFollowVehicles` | etl/runtime/handler.py:45-71 | record k is the record of the k-th entity with a vehicle |
| `Ingest.ExtractRecords` | etl/runtime/handler.py:45-71 | the loop returns exactly `RecordsOf` the entities |
| `Ingest.NormaliseCell` | etl/runtime/handler.py:76-77 | `0.0` and `""` become null and nothing else changes |
| `Ingest.NormaliseRecord` | etl/runtime/handler.py:76-77 | the per-cell normalisation applied to all nine columns of a record |
| `Ingest.NormaliseMeaning` | etl/runtime/handler.py:76-77 | no normalised cell is `0.0` or `""`, clean records are unchanged, and normalising twice is normalising once |
| `Ingest.StoredTripNull` | etl/runtime/handler.py:52-77 | a stored trip id is null exactly when the trip is absent or its id is unset or empty, and a stored speed is null exactly when the position is absent or the speed is 0.0 |
| `Ingest.PointOf` | etl/runtime/handler.py:126-128 | the point's x is the longitude and y the latitude |
| `Ingest.TableOf` | etl/runtime/handler.py:92-132 | the written table: the nine columns and `geometry`, the geo metadata, one row per record in order |
| `Ingest.TableIsGeoParquet` | etl/runtime/handler.py:92-132 | the geo metadata declares version 1.1.0, the last column `geometry` as WKB `Point` in EPSG:4326; every row has exactly the ten columns and its point; no `geohash` column |
| `Ingest.RawObjectKeyInjective` | etl/runtime/handler.py:140-141 | two snapshots share a key only when written in the same second |
| `Ingest.RawObjectKey` | etl/runtime/handler.py:140-141 | `positions_raw/YYYY/MM/DD/HHMMSS.parquet` of the write time, with no stage segment |
| `Ingest.Handler` | etl/runtime/handler.py:26-147 | raises exactly on a transport error or a 4xx/5xx status, or when no entity carries a vehicle; otherwise writes the normalised records with the fixed columns and metadata to `/tmp/positions.parquet` under the raw key, and a `ClientError` only marks the upload as not done |
| `Pipeline.RawSnapshotsNeverListed` | etl/runtime/handler.py:141 | no raw snapshot key lies under any compaction source prefix, whatever the stage, period or date |
| `Pipeline.SnapshotFirstMergeFails` | compaction/runtime/handler.py:89-99 | a merge whose first listed file is an ingest snapshot raises |

## Left out

- Object-store calls, HTTP, protobuf parsing and Parquet reading and writing are not modelled as code. Their observable results are parameters: the paged lister, the URI-to-file function, the fetch outcome and the `/tmp` listing after a write. Row groups, compression and the names `write_to_dataset` chooses are not modelled.
- Listing failures and unreadable objects are not modelled: every listed object reads as a Parquet file. `Partition.MergeOutcomeMeaning`'s "raises exactly when the first file lacks `geohash`" holds under that assumption; the source also raises on an object it cannot read.
- Only the `"geo"` entry of the written file's metadata is modelled. The `"pandas"` entry that `pa.Table.from_pandas` adds and the `"ARROW:schema"` entry that `write_table` adds (etl/runtime/handler.py:118-136) are not, so `Ingest.Handler`'s metadata is that one entry.
- Time zones are left out. "Now" and the write time are given as local calendar values, and the `timezone` event field and `TIMEZONE` variable only choose them.
- The feed timestamp is kept as epoch seconds. The `fromtimestamp`/`isoformat`/`astype` round trip and its failure on out-of-range values are left out.
- Floating-point values are modelled as reals. NaN and negative zero are not represented; only equality with `0.0` matters to the code.
- Listing.ListObjects: requires that the listing ends within a bound of pages (a ghost `fuel`). The source loops for as long as the store keeps returning tokens.
- Compaction.SelectMode: durations are integers. A string-valued duration that `int()` converts is not modelled, and `compact_to_now` is a boolean or absent.
- The dataset read is modelled as the concatenation of the listed files' rows, each read under the first file's column set: columns the first file lacks are dropped and missing ones read as null. Type conflicts between files and other schema errors are not modelled.
- Calendar.YearText: for years below 1000, whether `%Y` is zero-padded depends on the Python release. The model prints those years unpadded and claims nothing about the interpreter's output there.
- Ingest.PointOf: a point built from a null coordinate is modelled as a point holding a null cell. What geoarrow does with a missing coordinate is not modelled.
- Ingest.Handler: its "raises exactly" holds under the `Ingest.PointOf` assumption above; building the point column from an absent or `0.0` coordinate (read as null) may itself raise, and that is not modelled. Only transport failures and status codes are modelled as fetch errors. A feed that fails to parse is not modelled. An upload error other than `ClientError` is not modelled. The `except ClientError` at etl/runtime/handler.py:143-147 is modelled as the code reads. boto3's `upload_file`, however, reports a failed upload as `S3UploadFailedError`, which is not a `ClientError`. With the library as it behaves, an upload failure would therefore end the invocation rather than be swallowed.
- Partition.MergeObjects: uploads always succeed. The source does not catch upload errors there, so a failure would end the invocation.
- Logging and `print` lines are left out. So are the module-level clients, the Lambda `context`, and the infrastructure and database code.
