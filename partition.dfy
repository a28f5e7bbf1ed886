/** The partition merge of the compaction job (`merge_objects_from_s3`):
    list the partition's objects, read them as one dataset, sort it by
    geohash, keep the first file's metadata and upload the written files
    under the partition's destination prefix. */
module Partition {
  import opened Wrappers
  import opened Strings
  import opened Calendar
  import opened Listing
  import opened Columnar

  // ---------------------------------------------------------------------
  // Storage keys

  /** Where the objects to merge are listed: raw snapshots for a day,
      day-compacted files (and anything else under the month) for a month. */
  function SourcePrefix(stage: string, period: Period, d: Date): string
    requires Valid(d) && InRange(d)
  {
    match period
    case Days => stage + "/positions_raw/" + DayPath(d)
    case Months => stage + "/positions/" + MonthPath(d)
  }

  /** The key a written file `file` is uploaded under. */
  function DestinationKey(stage: string, period: Period, d: Date, file: string): string
    requires Valid(d) && InRange(d)
  {
    match period
    case Days => stage + "/positions/" + DayPath(d) + file
    case Months => stage + "/positions/" + MonthPath(d) + file
  }

  /** Distinct partitions read distinct prefixes: a day prefix names one
      date, a month prefix one calendar month. */
  lemma SourcePrefixInjective(stage: string, period: Period, a: Date, b: Date)
    requires Valid(a) && InRange(a) && Valid(b) && InRange(b)
    requires SourcePrefix(stage, period, a) == SourcePrefix(stage, period, b)
    ensures a.year == b.year && a.month == b.month
    ensures period == Days ==> a == b
  {
    var head := stage + (if period == Days then "/positions_raw/" else "/positions/");
    var s := SourcePrefix(stage, period, a);
    if period == Days {
      assert DayPath(a) == s[|head|..] == DayPath(b);
      DayPathInjective(a, b);
    } else {
      assert MonthPath(a) == s[|head|..] == MonthPath(b);
      MonthPathInjective(a, b);
    }
  }

  /** Day output lands under the month's source prefix: the month merge
      consumes what the day merges of that month wrote. */
  lemma DayOutputFeedsMonth(stage: string, d: Date, file: string)
    requires Valid(d) && InRange(d)
    ensures StartsWith(DestinationKey(stage, Days, d, file), SourcePrefix(stage, Months, d))
  {
    var p := SourcePrefix(stage, Months, d);
    assert DestinationKey(stage, Days, d, file) == p + (DayText(d) + "/" + file);
  }

  /** Month output lands under the month's own source prefix, so a later
      merge of the same month lists it again beside the day files. */
  lemma MonthOutputRelisted(stage: string, d: Date, file: string)
    requires Valid(d) && InRange(d)
    ensures StartsWith(DestinationKey(stage, Months, d, file), SourcePrefix(stage, Months, d))
  {
    var p := SourcePrefix(stage, Months, d);
    assert DestinationKey(stage, Months, d, file) == p + file;
  }

  /** Day output never lands under a day source prefix (`positions/` is not
      `positions_raw/`), so re-merging a day reads only raw snapshots. */
  lemma DayOutputNotRelisted(stage: string, d: Date, e: Date, file: string)
    requires Valid(d) && InRange(d) && Valid(e) && InRange(e)
    ensures !StartsWith(DestinationKey(stage, Days, d, file), SourcePrefix(stage, Days, e))
  {
    var k := DestinationKey(stage, Days, d, file);
    var p := SourcePrefix(stage, Days, e);
    var i := |stage| + 10;
    assert k[i] == '/';
    assert p[i] == '_';
  }

  // ---------------------------------------------------------------------
  // Reading and sorting

  /** `f"{s3_bucket}/{object['Key']}"`. */
  function UriOf(bucket: string, o: ObjectSummary): string {
    bucket + "/" + o.key
  }

  /** A row read under the dataset schema `columns`: a column the file
      lacks reads as null, and a column the schema lacks is dropped. */
  function Project(row: Row, columns: seq<string>): Row {
    map c | c in columns :: if c in row then row[c] else Null
  }

  /** The rows of the dataset over `uris` under the schema `columns` (the
      first file's): every file's rows, file after file, each read under
      that schema. */
  function DatasetRows(files: string -> ParquetFile, uris: seq<string>, columns: seq<string>)
    : (rows: seq<Row>)
    ensures forall i :: 0 <= i < |rows| ==> rows[i].Keys == set c | c in columns
    ensures |rows| == RowCount(files, uris)
  {
    if uris == [] then []
    else
      var last := files(uris[|uris| - 1]).rows;
      DatasetRows(files, uris[..|uris| - 1], columns)
      + seq(|last|, k requires 0 <= k < |last| => Project(last[k], columns))
  }

  /** A file whose every row holds exactly its own columns, read on its
      own, reads back as its rows: merging one compacted file loses and
      adds nothing. */
  lemma OneFileDataset(files: string -> ParquetFile, u: string)
    requires forall k :: 0 <= k < |files(u).rows| ==> files(u).rows[k].Keys == set c | c in files(u).columns
    ensures DatasetRows(files, [u], files(u).columns) == files(u).rows
  {
    var f := files(u);
    assert [u][..0] == [];
    var read := seq(|f.rows|, k requires 0 <= k < |f.rows| => Project(f.rows[k], f.columns));
    assert DatasetRows(files, [u], f.columns) == [] + read;
    forall k | 0 <= k < |f.rows|
      ensures read[k] == f.rows[k]
    {
      var row := f.rows[k];
      assert read[k] == Project(row, f.columns);
      assert Project(row, f.columns).Keys == row.Keys;
    }
  }

  /** The files' own rows, file after file. */
  function AllRows(files: string -> ParquetFile, uris: seq<string>): seq<Row> {
    if uris == [] then [] else AllRows(files, uris[..|uris| - 1]) + files(uris[|uris| - 1]).rows
  }

  /** The number of rows the files hold together. */
  function RowCount(files: string -> ParquetFile, uris: seq<string>): nat {
    if uris == [] then 0 else RowCount(files, uris[..|uris| - 1]) + |files(uris[|uris| - 1]).rows|
  }

  /** Every row of every file holds exactly the columns `columns`. */
  predicate Conforms(files: string -> ParquetFile, uris: seq<string>, columns: seq<string>) {
    forall j, k :: 0 <= j < |uris| && 0 <= k < |files(uris[j]).rows| ==>
      files(uris[j]).rows[k].Keys == set c | c in columns
  }

  /** When every file holds the schema's columns, the dataset is exactly the
      files' rows, file after file, and no row is lost or added. */
  lemma {:induction false} ConformingDataset(files: string -> ParquetFile, uris: seq<string>, columns: seq<string>)
    requires Conforms(files, uris, columns)
    ensures DatasetRows(files, uris, columns) == AllRows(files, uris)
    ensures |DatasetRows(files, uris, columns)| == RowCount(files, uris)
  {
    if uris != [] {
      var front, u := uris[..|uris| - 1], uris[|uris| - 1];
      assert Conforms(files, front, columns) by {
        forall j, k | 0 <= j < |front| && 0 <= k < |files(front[j]).rows|
          ensures files(front[j]).rows[k].Keys == set c | c in columns
        {
          assert front[j] == uris[j];
        }
      }
      ConformingDataset(files, front, columns);
      var last := files(u).rows;
      var read := seq(|last|, k requires 0 <= k < |last| => Project(last[k], columns));
      forall k | 0 <= k < |last|
        ensures read[k] == last[k]
      {
        assert last[k].Keys == set c | c in columns;
        assert Project(last[k], columns).Keys == last[k].Keys;
      }
      assert read == last;
    }
  }

  /** A row's sort key: its geohash text, or null when the cell is null or
      the file has no such column. */
  function GeohashOf(row: Row): Option<string> {
    if "geohash" in row && row["geohash"].Text? then Some(row["geohash"].text) else None
  }

  /** Ascending order with nulls placed last. */
  predicate KeyLe(a: Option<string>, b: Option<string>) {
    b.None? || (a.Some? && LexLe(a.value, b.value))
  }

  lemma KeyLeTotal(a: Option<string>, b: Option<string>)
    ensures KeyLe(a, b) || KeyLe(b, a)
  {
    if a.Some? && b.Some? {
      LexLeTotal(a.value, b.value);
    }
  }

  lemma KeyLeTransitive(a: Option<string>, b: Option<string>, c: Option<string>)
    requires KeyLe(a, b) && KeyLe(b, c)
    ensures KeyLe(a, c)
  {
    if a.Some? && b.Some? && c.Some? {
      LexLeTransitive(a.value, b.value, c.value);
    }
  }

  /** Neighbouring elements are in key order. */
  predicate SortedBy<T>(xs: seq<T>, key: T -> Option<string>) {
    forall i :: 0 < i < |xs| ==> KeyLe(key(xs[i - 1]), key(xs[i]))
  }

  /** Neighbouring rows are in geohash order. */
  predicate SortedByGeohash(rows: seq<Row>) {
    SortedBy(rows, GeohashOf)
  }

  /** Sorted means non-decreasing across every pair of indices. */
  lemma {:induction false} SortedAllPairs<T>(xs: seq<T>, key: T -> Option<string>, i: nat, j: nat)
    requires SortedBy(xs, key) && i <= j < |xs|
    ensures KeyLe(key(xs[i]), key(xs[j]))
    decreases j - i
  {
    if i == j {
      if key(xs[i]).Some? {
        LexLeTotal(key(xs[i]).value, key(xs[i]).value);
      }
    } else {
      SortedAllPairs(xs, key, i, j - 1);
      KeyLeTransitive(key(xs[i]), key(xs[j - 1]), key(xs[j]));
    }
  }

  /** Putting an element whose key is no greater than the head's in front
      keeps the sequence sorted. */
  lemma ConsSorted<T>(x: T, xs: seq<T>, key: T -> Option<string>)
    requires SortedBy(xs, key)
    requires xs != [] ==> KeyLe(key(x), key(xs[0]))
    ensures SortedBy([x] + xs, key)
  {
    var r := [x] + xs;
    forall i | 0 < i < |r|
      ensures KeyLe(key(r[i - 1]), key(r[i]))
    {
      if i > 1 {
        assert r[i - 1] == xs[i - 2] && r[i] == xs[i - 1];
      }
    }
  }

  lemma TailSorted<T>(xs: seq<T>, key: T -> Option<string>)
    requires SortedBy(xs, key) && xs != []
    ensures SortedBy(xs[1..], key)
  {
    var tail := xs[1..];
    forall i | 0 < i < |tail| ensures KeyLe(key(tail[i - 1]), key(tail[i])) {
      assert tail[i - 1] == xs[i] && tail[i] == xs[i + 1];
    }
  }

  /** Insert `x` before the first element whose key is not smaller, which
      places it ahead of equal keys. */
  function InsertBy<T>(x: T, xs: seq<T>, key: T -> Option<string>): (r: seq<T>)
    requires SortedBy(xs, key)
    ensures SortedBy(r, key)
    ensures multiset(r) == multiset(xs) + multiset{x}
    ensures r[0] == x || (xs != [] && r[0] == xs[0])
  {
    if xs == [] then [x]
    else if KeyLe(key(x), key(xs[0])) then
      ConsSorted(x, xs, key);
      [x] + xs
    else
      var head, tail := xs[0], xs[1..];
      TailSorted(xs, key);
      var rest := InsertBy(x, tail, key);
      KeyLeTotal(key(x), key(head));
      assert tail != [] ==> tail[0] == xs[1];
      ConsSorted(head, rest, key);
      assert xs == [head] + tail;
      [head] + rest
  }

  /** Insertion sort by key: ascending, nulls last, and stable because each
      element is inserted ahead of the equal keys that followed it. */
  function SortBy<T>(xs: seq<T>, key: T -> Option<string>): (r: seq<T>)
    ensures SortedBy(r, key)
    ensures multiset(r) == multiset(xs)
  {
    if xs == [] then []
    else
      assert xs == [xs[0]] + xs[1..];
      InsertBy(xs[0], SortBy(xs[1..], key), key)
  }

  /** `Table.sort_by("geohash")`: the same rows, ascending by geohash with
      nulls last. */
  function SortByGeohash(rows: seq<Row>): (r: seq<Row>)
    ensures SortedByGeohash(r)
    ensures multiset(r) == multiset(rows)
  {
    SortBy(rows, GeohashOf)
  }

  /** Sorting what is already sorted changes nothing, so re-merging a
      single compacted file gives back its rows unchanged. */
  lemma {:induction false} SortSortedIsIdentity<T>(xs: seq<T>, key: T -> Option<string>)
    requires SortedBy(xs, key)
    ensures SortBy(xs, key) == xs
  {
    if xs != [] {
      TailSorted(xs, key);
      SortSortedIsIdentity(xs[1..], key);
    }
  }

  // ---------------------------------------------------------------------
  // Writing and uploading

  /** Row-group bounds given to the writer; the code uses the same pair for
      day and month merges. */
  const MinRowsPerGroup: nat := 61440
  const MaxRowsPerGroup: nat := 122880

  datatype Upload = Upload(bucket: string, key: string, localPath: string)

  /** The names in a local directory listing that end in `.parquet`, in
      listing order. */
  function ParquetNames(names: seq<string>): (r: seq<string>)
    ensures |r| <= |names|
  {
    if names == [] then []
    else
      var last := names[|names| - 1];
      ParquetNames(names[..|names| - 1]) + (if EndsWith(last, ".parquet") then [last] else [])
  }

  /** Exactly the `.parquet` names are kept. */
  lemma {:induction false} ParquetNamesMembers(names: seq<string>)
    ensures forall x :: x in ParquetNames(names) <==> x in names && EndsWith(x, ".parquet")
  {
    if names != [] {
      var front := names[..|names| - 1];
      ParquetNamesMembers(front);
      assert names == front + [names[|names| - 1]];
    }
  }

  /** What one merge did. `NoObjectsFound` reads, writes and uploads
      nothing. */
  datatype MergeOutcome =
    | NoObjectsFound
    | Compacted(uris: seq<string>, metadata: FileMetadata, rows: seq<Row>,
                minRowsPerGroup: nat, maxRowsPerGroup: nat, uploads: seq<Upload>)

  /** One URI per listed object, in listing order. */
  function UrisOf(bucket: string, items: seq<ObjectSummary>): (uris: seq<string>)
    ensures |uris| == |items|
    ensures forall i :: 0 <= i < |items| ==> uris[i] == UriOf(bucket, items[i])
  {
    seq(|items|, i requires 0 <= i < |items| => UriOf(bucket, items[i]))
  }

  /** `sort_by` on a dataset whose schema (taken from the first file) has no
      geohash column raises. */
  datatype MergeError = NoGeohashColumn

  /** `upload_object_to_s3(bucket, key, f"/tmp/{file}")` for a written file. */
  function UploadOf(bucket: string, stage: string, period: Period, d: Date, file: string): Upload
    requires Valid(d) && InRange(d)
  {
    Upload(bucket, DestinationKey(stage, period, d, file), "/tmp/" + file)
  }

  /** The uploads for a local directory listing, name after name. */
  function UploadsFor(bucket: string, stage: string, period: Period, d: Date, localDir: seq<string>)
    : seq<Upload>
    requires Valid(d) && InRange(d)
  {
    if localDir == [] then []
    else
      var file := localDir[|localDir| - 1];
      UploadsFor(bucket, stage, period, d, localDir[..|localDir| - 1])
      + (if EndsWith(file, ".parquet") then [UploadOf(bucket, stage, period, d, file)] else [])
  }

  /** One upload per `.parquet` name, in listing order, under the partition's
      destination key; nothing else is uploaded. */
  lemma {:induction false} UploadsArePerParquetFile(bucket: string, stage: string, period: Period, d: Date,
                                                    localDir: seq<string>)
    requires Valid(d) && InRange(d)
    ensures var ups := UploadsFor(bucket, stage, period, d, localDir);
      var names := ParquetNames(localDir);
      && |ups| == |names|
      && forall k :: 0 <= k < |ups| ==>
           && ups[k] == Upload(bucket, DestinationKey(stage, period, d, names[k]), "/tmp/" + names[k])
           && EndsWith(ups[k].key, ".parquet")
  {
    ParquetNamesMembers(localDir);
    if localDir != [] {
      UploadsArePerParquetFile(bucket, stage, period, d, localDir[..|localDir| - 1]);
    }
    var ups := UploadsFor(bucket, stage, period, d, localDir);
    var names := ParquetNames(localDir);
    forall k | 0 <= k < |ups| ensures EndsWith(ups[k].key, ".parquet") {
      assert names[k] in names;
      var key := ups[k].key;
      assert key == DestinationKey(stage, period, d, names[k]);
      assert key[|key| - |names[k]|..] == names[k];
      assert key[|key| - 8..] == names[k][|names[k]| - 8..];
    }
  }

  /** The outcome of merging partition `d`, given the object store's
      listing (`lister`, whose listings end within `fuel` pages), the files
      it holds (`files`, by URI) and the names in `/tmp` after the write
      (`localDir`). */
  function MergeOutcomeOf(bucket: string, d: Date, period: Period, stage: string,
                          lister: Lister, fuel: nat, files: string -> ParquetFile,
                          localDir: seq<string>)
    : Result<MergeOutcome, MergeError>
    requires Valid(d) && InRange(d)
    requires Ends(lister, bucket, SourcePrefix(stage, period, d), fuel)
  {
    match ListingOf(lister, bucket, SourcePrefix(stage, period, d), fuel)
    case NoneSentinel => Ok(NoObjectsFound)
    case Objects(items) =>
      var uris := UrisOf(bucket, items);
      var first := files(uris[0]);
      if "geohash" !in first.columns then Err(NoGeohashColumn)
      else
        var rows := SortByGeohash(DatasetRows(files, uris, first.columns));
        Ok(Compacted(uris, first.metadata, rows, MinRowsPerGroup, MaxRowsPerGroup,
                     UploadsFor(bucket, stage, period, d, localDir)))
  }

  /** What a merge promises: the sentinel when nothing is listed, a failure
      exactly when the first file lacks a geohash column, and otherwise one
      URI per listed object, the first file's metadata, the input rows sorted
      by geohash, the fixed row-group bounds and one upload per written
      `.parquet` file. */
  lemma MergeOutcomeMeaning(bucket: string, d: Date, period: Period, stage: string,
                            lister: Lister, fuel: nat, files: string -> ParquetFile,
                            localDir: seq<string>)
    requires Valid(d) && InRange(d)
    requires Ends(lister, bucket, SourcePrefix(stage, period, d), fuel)
    ensures var listing := ListingOf(lister, bucket, SourcePrefix(stage, period, d), fuel);
      var r := MergeOutcomeOf(bucket, d, period, stage, lister, fuel, files, localDir);
      && (r == Ok(NoObjectsFound) <==> listing.NoneSentinel?)
      && (r.Err? <==> listing.Objects? && "geohash" !in files(UriOf(bucket, listing.items[0])).columns)
      && (r.Ok? && r.value.Compacted? ==>
            var m := r.value;
            && listing.Objects?
            && |m.uris| == |listing.items|
            && (forall i :: 0 <= i < |m.uris| ==> m.uris[i] == UriOf(bucket, listing.items[i]))
            && m.metadata == files(m.uris[0]).metadata
            && SortedByGeohash(m.rows)
            && multiset(m.rows) == multiset(DatasetRows(files, m.uris, files(m.uris[0]).columns))
            && |m.rows| == |DatasetRows(files, m.uris, files(m.uris[0]).columns)|
            && (forall i :: 0 <= i < |m.rows| ==> m.rows[i].Keys == set c | c in files(m.uris[0]).columns)
            && |m.rows| == RowCount(files, m.uris)
            && (Conforms(files, m.uris, files(m.uris[0]).columns) ==>
                  multiset(m.rows) == multiset(AllRows(files, m.uris)))
            && m.minRowsPerGroup == 61440 && m.maxRowsPerGroup == 122880
            && m.uploads == UploadsFor(bucket, stage, period, d, localDir))
  {
    var listing := ListingOf(lister, bucket, SourcePrefix(stage, period, d), fuel);
    if listing.Objects? {
      var uris := UrisOf(bucket, listing.items);
      var columns := files(uris[0]).columns;
      var read := DatasetRows(files, uris, columns);
      var rows := SortByGeohash(read);
      assert |rows| == |multiset(rows)|;
      forall i | 0 <= i < |rows|
        ensures rows[i].Keys == set c | c in columns
      {
        assert rows[i] in multiset(read);
      }
      if Conforms(files, uris, columns) {
        ConformingDataset(files, uris, columns);
      }
    }
  }

  /** The loop over `/tmp` that uploads every `.parquet` file under the
      partition's destination key. */
  method UploadWrittenFiles(bucket: string, stage: string, period: Period, d: Date, localDir: seq<string>)
    returns (uploads: seq<Upload>)
    requires Valid(d) && InRange(d)
    ensures uploads == UploadsFor(bucket, stage, period, d, localDir)
  {
    uploads := [];
    var j := 0;
    while j < |localDir|
      invariant 0 <= j <= |localDir|
      invariant uploads == UploadsFor(bucket, stage, period, d, localDir[..j])
    {
      var file := localDir[j];
      assert localDir[..j + 1][..j] == localDir[..j];
      if EndsWith(file, ".parquet") {
        var key := DestinationKey(stage, period, d, file);
        uploads := uploads + [Upload(bucket, key, "/tmp/" + file)];
      }
      j := j + 1;
    }
    assert localDir[..|localDir|] == localDir;
  }

  /** `merge_objects_from_s3`. */
  method MergeObjects(bucket: string, d: Date, period: Period, stage: string,
                      lister: Lister, ghost fuel: nat, files: string -> ParquetFile,
                      localDir: seq<string>) returns (r: Result<MergeOutcome, MergeError>)
    requires Valid(d) && InRange(d)
    requires Ends(lister, bucket, SourcePrefix(stage, period, d), fuel)
    ensures r == MergeOutcomeOf(bucket, d, period, stage, lister, fuel, files, localDir)
  {
    var objects := ListObjects(lister, bucket, SourcePrefix(stage, period, d), fuel);
    if objects.NoneSentinel? {
      return Ok(NoObjectsFound);
    }
    var items := objects.items;
    var uris: seq<string> := [];
    var i := 0;
    while i < |items|
      invariant 0 <= i <= |items| && |uris| == i
      invariant forall k :: 0 <= k < i ==> uris[k] == bucket + "/" + items[k].key
    {
      uris := uris + [bucket + "/" + items[i].key];
      i := i + 1;
    }
    assert uris == UrisOf(bucket, items);
    var metadata := files(uris[0]).metadata;
    if "geohash" !in files(uris[0]).columns {
      return Err(NoGeohashColumn);
    }
    var dataset := SortByGeohash(DatasetRows(files, uris, files(uris[0]).columns));
    var uploads := UploadWrittenFiles(bucket, stage, period, d, localDir);
    r := Ok(Compacted(uris, metadata, dataset, 61440, 122880, uploads));
  }
}
