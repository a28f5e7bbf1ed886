/** How the two jobs meet in the bucket. The ingest job writes raw
    snapshots at the bucket root, with no stage segment, and without a
    geohash column; the compaction job reads under a stage segment and sorts
    by geohash. These lemmas state what follows from the two as written. */
module Pipeline {
  import opened Wrappers
  import opened Strings
  import opened Calendar
  import opened Listing
  import opened Columnar
  import opened Partition
  import opened Ingest

  /** No `/` in `s` is directly followed by `p`. */
  predicate NoSlashP(s: string) {
    forall i :: 0 <= i < |s| - 1 ==> !(s[i] == '/' && s[i + 1] == 'p')
  }

  lemma ConcatNoSlashP(a: string, b: string)
    requires NoSlashP(a) && NoSlashP(b)
    requires a != [] && b != [] ==> !(a[|a| - 1] == '/' && b[0] == 'p')
    ensures NoSlashP(a + b)
  {
    var s := a + b;
    forall i | 0 <= i < |s| - 1
      ensures !(s[i] == '/' && s[i + 1] == 'p')
    {
      if i < |a| - 1 {
        assert s[i] == a[i] && s[i + 1] == a[i + 1];
      } else if i >= |a| {
        assert s[i] == b[i - |a|] && s[i + 1] == b[i + 1 - |a|];
      }
    }
  }

  lemma DigitsNoSlashP(s: string)
    requires AllDigits(s)
    ensures NoSlashP(s)
  {
    forall i | 0 <= i < |s| - 1
      ensures !(s[i] == '/' && s[i + 1] == 'p')
    {
      assert IsDigit(s[i]);
    }
  }

  /** Every `/` inside a day path is followed by a digit, and the path starts
      with one. */
  lemma DayPathNoSlashP(d: Date)
    requires Valid(d) && InRange(d)
    ensures NoSlashP(DayPath(d)) && IsDigit(DayPath(d)[0])
  {
    var y, m, dd := YearText(d), MonthText(d), DayText(d);
    DigitsNoSlashP(y);
    DigitsNoSlashP(m);
    DigitsNoSlashP(dd);
    ConcatNoSlashP(y, "/");
    ConcatNoSlashP(y + "/", m);
    ConcatNoSlashP(y + "/" + m, "/");
    ConcatNoSlashP(y + "/" + m + "/", dd);
    ConcatNoSlashP(y + "/" + m + "/" + dd, "/");
    assert DayPath(d) == y + "/" + m + "/" + dd + "/";
    assert DayPath(d)[0] == y[0];
  }

  lemma RawObjectKeyNoSlashP(t: DateTime)
    requires ValidClock(t)
    ensures NoSlashP(RawObjectKey(t))
  {
    var head, path, time := "positions_raw/", DayPath(t.date), TimeText(t);
    DayPathNoSlashP(t.date);
    DigitsNoSlashP(time);
    assert NoSlashP(head);
    assert NoSlashP(".parquet");
    ConcatNoSlashP(head, path);
    ConcatNoSlashP(head + path, time);
    ConcatNoSlashP(head + path + time, ".parquet");
  }

  /** A raw snapshot is never under any compaction source prefix, whatever
      the stage, period or date: a source prefix has `/p` right after the
      stage, and a raw key never has `/p`. So compaction never reads what
      ingest writes. */
  lemma RawSnapshotsNeverListed(stage: string, period: Period, d: Date, t: DateTime)
    requires Valid(d) && InRange(d)
    requires ValidClock(t)
    ensures !StartsWith(RawObjectKey(t), SourcePrefix(stage, period, d))
  {
    var k, p := RawObjectKey(t), SourcePrefix(stage, period, d);
    RawObjectKeyNoSlashP(t);
    var i := |stage|;
    assert p[i] == '/' && p[i + 1] == 'p';
  }

  /** A merge whose first listed file is an ingest snapshot raises: the
      dataset schema comes from that file, which has no geohash column. */
  lemma SnapshotFirstMergeFails(bucket: string, d: Date, period: Period, stage: string,
                                lister: Lister, fuel: nat, files: string -> ParquetFile,
                                localDir: seq<string>, records: seq<Record>)
    requires Valid(d) && InRange(d)
    requires Ends(lister, bucket, SourcePrefix(stage, period, d), fuel)
    requires var listing := ListingOf(lister, bucket, SourcePrefix(stage, period, d), fuel);
      listing.Objects? && files(UriOf(bucket, listing.items[0])) == TableOf(records)
    ensures MergeOutcomeOf(bucket, d, period, stage, lister, fuel, files, localDir) == Err(NoGeohashColumn)
  {
    TableIsGeoParquet(records);
  }
}
