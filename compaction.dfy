/** The compaction job's entry point (`handler`): it reads the lookback from
    the invocation event, plans the partition dates and merges them one after
    the other, oldest first. */
module Compaction {
  import opened Wrappers
  import opened Calendar
  import opened Listing
  import opened Planner
  import opened Columnar
  import opened Partition

  /** The fields the handler reads from its event. An absent key reads as
      `None`; durations are integers. */
  datatype Event = Event(s3Bucket: string, previousDays: Option<int>, previousMonths: Option<int>,
                         compactToNow: Option<bool>, stage: Option<string>)

  /** Python truthiness of an optional integer. */
  predicate Truthy(x: Option<int>) {
    x.Some? && x.value != 0
  }

  /** Python truthiness of an optional flag. */
  predicate FlagSet(x: Option<bool>) {
    x == Some(true)
  }

  /** The lookback the handler settled on. */
  datatype Mode = Mode(duration: int, period: Period)

  /** `previous_days` wins when it is truthy, then `previous_months`; when
      neither is, `duration` is never bound. */
  function SelectMode(e: Event): (m: Option<Mode>)
    ensures m.None? <==> !Truthy(e.previousDays) && !Truthy(e.previousMonths)
    ensures m.Some? ==> (m.value.period == Days <==> Truthy(e.previousDays))
    ensures m.Some? && m.value.period == Days ==> m.value.duration == e.previousDays.value
    ensures m.Some? && m.value.period == Months ==> m.value.duration == e.previousMonths.value
    ensures m.Some? ==> m.value.duration != 0
  {
    if Truthy(e.previousDays) then Some(Mode(e.previousDays.value, Days))
    else if Truthy(e.previousMonths) then Some(Mode(e.previousMonths.value, Months))
    else None
  }

  /** The stage as an f-string renders it: a missing stage becomes "None". */
  function StageText(stage: Option<string>): (s: string)
    ensures stage.Some? ==> s == stage.value
    ensures stage.None? ==> s == "None"
  {
    match stage
    case Some(text) => text
    case None => "None"
  }

  /** Why an invocation raised. */
  datatype HandlerError =
    | DurationUnbound
    | PlanFailed(planError: PlanError)
    | MergeFailed(date: Date, mergeError: MergeError)

  datatype Response = Response(statusCode: int, body: string)

  /** A completed invocation: its response, the planned dates and each
      date's merge outcome, in the same order. */
  datatype Run = Run(response: Response, dates: seq<Date>, outcomes: seq<MergeOutcome>)

  /** Every listing of the bucket ends within `fuel` pages. */
  ghost predicate ListingsEnd(lister: Lister, bucket: string, fuel: nat) {
    forall prefix :: Ends(lister, bucket, prefix, fuel)
  }

  /** The merge of one planned date, with `/tmp` as `tmpListing` shows it
      after that date's write. */
  function MergeAt(e: Event, mode: Mode, lister: Lister, fuel: nat, files: string -> ParquetFile,
                   tmpListing: Date -> seq<string>, d: Date): Result<MergeOutcome, MergeError>
    requires Valid(d) && InRange(d)
    requires ListingsEnd(lister, e.s3Bucket, fuel)
  {
    MergeOutcomeOf(e.s3Bucket, d, mode.period, StageText(e.stage), lister, fuel, files, tmpListing(d))
  }

  /** `o` is what merging `d` produces. */
  ghost predicate MergedTo(e: Event, mode: Mode, lister: Lister, fuel: nat, files: string -> ParquetFile,
                           tmpListing: Date -> seq<string>, d: Date, o: MergeOutcome)
    requires Valid(d) && InRange(d)
    requires ListingsEnd(lister, e.s3Bucket, fuel)
  {
    MergeAt(e, mode, lister, fuel, files, tmpListing, d) == Ok(o)
  }

  /** The handler's loop over the planned dates: merge each in order and stop
      at the first merge that raises. */
  method MergeEach(e: Event, mode: Mode, lister: Lister, ghost fuel: nat, files: string -> ParquetFile,
                   tmpListing: Date -> seq<string>, dates: seq<Date>)
    returns (r: Result<seq<MergeOutcome>, HandlerError>)
    requires ListingsEnd(lister, e.s3Bucket, fuel)
    requires forall k :: 0 <= k < |dates| ==> Valid(dates[k]) && InRange(dates[k])
    ensures r.Ok? <==> forall k :: 0 <= k < |dates| ==> MergeAt(e, mode, lister, fuel, files, tmpListing, dates[k]).Ok?
    ensures r.Ok? ==> |r.value| == |dates|
    ensures r.Ok? ==> forall k :: 0 <= k < |dates| ==>
      MergedTo(e, mode, lister, fuel, files, tmpListing, dates[k], r.value[k])
    ensures r.Err? ==> r.error.MergeFailed?
    ensures r.Err? ==> exists n ::
      && 0 <= n < |dates|
      && r.error.date == dates[n]
      && MergeAt(e, mode, lister, fuel, files, tmpListing, dates[n]) == Err(r.error.mergeError)
      && forall k :: 0 <= k < n ==> MergeAt(e, mode, lister, fuel, files, tmpListing, dates[k]).Ok?
  {
    var stage := StageText(e.stage);
    var outcomes: seq<MergeOutcome> := [];
    var i := 0;
    while i < |dates|
      invariant 0 <= i <= |dates| && |outcomes| == i
      invariant forall k :: 0 <= k < i ==> MergedTo(e, mode, lister, fuel, files, tmpListing, dates[k], outcomes[k])
    {
      var date := dates[i];
      var merged := MergeObjects(e.s3Bucket, date, mode.period, stage, lister, fuel, files, tmpListing(date));
      if merged.Err? {
        return Err(MergeFailed(date, merged.error));
      }
      assert MergedTo(e, mode, lister, fuel, files, tmpListing, date, merged.value);
      ghost var before := outcomes;
      outcomes := outcomes + [merged.value];
      forall k | 0 <= k <= i
        ensures MergedTo(e, mode, lister, fuel, files, tmpListing, dates[k], outcomes[k])
      {
        if k < i {
          assert outcomes[k] == before[k];
        }
      }
      i := i + 1;
    }
    r := Ok(outcomes);
  }

  /** What an invocation with lookback `mode` amounts to: it fails exactly
      when a planned date is out of range or a planned merge raises (the
      first one that does is reported); otherwise it answers 200 with one
      merge outcome per planned date, in plan order. */
  ghost predicate RunAsPlanned(e: Event, mode: Mode, now: Date, lister: Lister, fuel: nat,
                               files: string -> ParquetFile, tmpListing: Date -> seq<string>,
                               r: Result<Run, HandlerError>)
    requires Valid(now)
    requires ListingsEnd(lister, e.s3Bucket, fuel)
  {
    var count := PlanLength(mode.duration, FlagSet(e.compactToNow));
    var representable := PlanRepresentable(now, mode.period, mode.duration, count);
    var dates := PlannedDates(now, mode.period, mode.duration, count);
    && (!representable <==> r == Err(PlanFailed(DateOutOfRange)))
    && (r.Ok? <==>
          && representable
          && forall n :: 0 <= n < |dates| ==> MergeAt(e, mode, lister, fuel, files, tmpListing, dates[n]).Ok?)
    && (r.Ok? ==>
          && r.value.response == Response(200, "Compaction complete!")
          && r.value.dates == dates
          && |r.value.outcomes| == |dates|
          && forall n :: 0 <= n < |dates| ==>
               MergedTo(e, mode, lister, fuel, files, tmpListing, dates[n], r.value.outcomes[n]))
    && (r.Err? && r.error.MergeFailed? ==>
          && representable
          && exists n ::
               && 0 <= n < |dates|
               && r.error.date == dates[n]
               && MergeAt(e, mode, lister, fuel, files, tmpListing, dates[n]) == Err(r.error.mergeError)
               && forall k :: 0 <= k < n ==> MergeAt(e, mode, lister, fuel, files, tmpListing, dates[k]).Ok?)
  }

  /** Plan the dates of `mode` and merge each in order; the first merge
      that raises ends the run. */
  method CompactPlanned(e: Event, mode: Mode, now: Date, lister: Lister, ghost fuel: nat,
                        files: string -> ParquetFile, tmpListing: Date -> seq<string>)
    returns (r: Result<Run, HandlerError>)
    requires Valid(now)
    requires ListingsEnd(lister, e.s3Bucket, fuel)
    ensures r != Err(DurationUnbound)
    ensures RunAsPlanned(e, mode, now, lister, fuel, files, tmpListing, r)
  {
    var planned := GetDatesInRange(mode.duration, mode.period, FlagSet(e.compactToNow), now);
    if planned.Err? {
      assert planned.error == DateOutOfRange;
      return Err(PlanFailed(planned.error));
    }
    var dates := planned.value;
    assert dates == PlannedDates(now, mode.period, mode.duration, |dates|);
    var merged := MergeEach(e, mode, lister, fuel, files, tmpListing, dates);
    if merged.Err? {
      return Err(merged.error);
    }
    r := Ok(Run(Response(200, "Compaction complete!"), dates, merged.value));
  }

  /** `handler`: select the mode, plan the dates, then merge each date in
      order; the first merge that raises ends the invocation. `now` is the
      clock in the job's time zone; `files` and `tmpListing` stand for the
      object store's files and the local directory. */
  method Handler(e: Event, now: Date, lister: Lister, ghost fuel: nat, files: string -> ParquetFile,
                 tmpListing: Date -> seq<string>) returns (r: Result<Run, HandlerError>)
    requires Valid(now)
    requires ListingsEnd(lister, e.s3Bucket, fuel)
    ensures SelectMode(e).None? <==> r == Err(DurationUnbound)
    ensures SelectMode(e).Some? ==> RunAsPlanned(e, SelectMode(e).value, now, lister, fuel, files, tmpListing, r)
  {
    var m := SelectMode(e);
    if m.None? {
      return Err(DurationUnbound);
    }
    r := CompactPlanned(e, m.value, now, lister, fuel, files, tmpListing);
  }
}
