/** The ingest job (`etl/runtime/handler.py`): one GTFS Realtime
    vehicle-positions feed becomes one GeoParquet file of position records,
    uploaded under a key taken from the write-time clock. */
module Ingest {
  import opened Wrappers
  import opened Strings
  import opened Calendar
  import opened Columnar

  /* GTFS Realtime messages, as the proto2 bindings expose them: an optional
     sub-message is an Option (`HasField`), and an unset scalar reads as its
     default ("" for text, 0.0 for floats). */

  datatype TripDescriptor = TripDescriptor(tripId: string, routeId: string)

  datatype VehicleDescriptor = VehicleDescriptor(id: string)

  datatype Position = Position(latitude: real, longitude: real, bearing: real, speed: real)

  datatype VehiclePosition = VehiclePosition(trip: Option<TripDescriptor>, vehicle: Option<VehicleDescriptor>,
                                             position: Option<Position>, timestamp: Option<nat>)

  datatype FeedEntity = FeedEntity(id: string, vehicle: Option<VehiclePosition>)

  datatype FeedMessage = FeedMessage(entity: seq<FeedEntity>)

  /** One position record: the nine columns in schema order. */
  datatype Record = Record(tripId: Cell, routeId: Cell, directionId: Cell, vehicleId: Cell,
                           latitude: Cell, longitude: Cell, bearing: Cell, speed: Cell, timestamp: Cell)

  /** The record of one vehicle position. The trip columns are null exactly
      when the trip is absent, and `direction_id` carries the trip's route id;
      the vehicle id is null exactly when the descriptor is absent; the four
      position columns are null together, exactly when the position is
      absent; the timestamp is null exactly when it is unset. */
  function ToRecord(v: VehiclePosition): (r: Record)
    ensures r.tripId == Null <==> v.trip.None?
    ensures r.routeId == Null <==> v.trip.None?
    ensures r.directionId == r.routeId
    ensures v.trip.Some? ==> r.tripId == Text(v.trip.value.tripId) && r.routeId == Text(v.trip.value.routeId)
    ensures r.vehicleId == Null <==> v.vehicle.None?
    ensures v.vehicle.Some? ==> r.vehicleId == Text(v.vehicle.value.id)
    ensures v.position.None? <==> r.latitude == Null
    ensures v.position.None? ==> r.longitude == Null && r.bearing == Null && r.speed == Null
    ensures v.position.Some? ==>
      var p := v.position.value;
      r.latitude == Float(p.latitude) && r.longitude == Float(p.longitude)
      && r.bearing == Float(p.bearing) && r.speed == Float(p.speed)
    ensures r.timestamp == Null <==> v.timestamp.None?
    ensures v.timestamp.Some? ==> r.timestamp == Timestamp(v.timestamp.value)
  {
    var (tripId, routeId) := match v.trip
      case Some(t) => (Text(t.tripId), Text(t.routeId))
      case None => (Null, Null);
    var vehicleId := match v.vehicle
      case Some(d) => Text(d.id)
      case None => Null;
    var (latitude, longitude, bearing, speed) := match v.position
      case Some(p) => (Float(p.latitude), Float(p.longitude), Float(p.bearing), Float(p.speed))
      case None => (Null, Null, Null, Null);
    var timestamp := match v.timestamp
      case Some(s) => Timestamp(s)
      case None => Null;
    Record(tripId, routeId, routeId, vehicleId, latitude, longitude, bearing, speed, timestamp)
  }

  /** The records of a run of entities: one per entity that carries a
      vehicle position, in feed order. */
  function RecordsOf(entities: seq<FeedEntity>): seq<Record> {
    if entities == [] then []
    else
      var last := entities[|entities| - 1];
      RecordsOf(entities[..|entities| - 1])
      + (if last.vehicle.Some? then [ToRecord(last.vehicle.value)] else [])
  }

  /** The positions in the feed of the entities that carry a vehicle. */
  function VehicleIndices(entities: seq<FeedEntity>): seq<nat> {
    if entities == [] then []
    else
      VehicleIndices(entities[..|entities| - 1])
      + (if entities[|entities| - 1].vehicle.Some? then [|entities| - 1] else [])
  }

  /** The indices are increasing, and an entity is listed exactly when it
      carries a vehicle position. */
  lemma {:induction false} VehicleIndicesMeaning(entities: seq<FeedEntity>)
    ensures var ix := VehicleIndices(entities);
      && (forall k :: 0 <= k < |ix| ==> ix[k] < |entities| && entities[ix[k]].vehicle.Some?)
      && (forall k, l :: 0 <= k < l < |ix| ==> ix[k] < ix[l])
      && (forall i :: 0 <= i < |entities| && entities[i].vehicle.Some? ==> i in ix)
  {
    if entities != [] {
      var init := entities[..|entities| - 1];
      VehicleIndicesMeaning(init);
      var ix := VehicleIndices(entities);
      var prev := VehicleIndices(init);
      assert forall k :: 0 <= k < |prev| ==> ix[k] == prev[k];
      forall i | 0 <= i < |entities| && entities[i].vehicle.Some?
        ensures i in ix
      {
        if i < |entities| - 1 {
          assert init[i] == entities[i];
          var k :| 0 <= k < |prev| && prev[k] == i;
          assert ix[k] == i;
        } else {
          assert ix[|ix| - 1] == i;
        }
      }
    }
  }

  /** Record `k` is the record of the `k`th entity that carries a vehicle. */
  lemma {:induction false} RecordsFollowVehicles(entities: seq<FeedEntity>)
    ensures var ix := VehicleIndices(entities);
      var records := RecordsOf(entities);
      && |records| == |ix|
      && forall k :: 0 <= k < |records| ==>
           ix[k] < |entities| && entities[ix[k]].vehicle.Some?
           && records[k] == ToRecord(entities[ix[k]].vehicle.value)
  {
    VehicleIndicesMeaning(entities);
    if entities != [] {
      var init := entities[..|entities| - 1];
      RecordsFollowVehicles(init);
      VehicleIndicesMeaning(init);
      var ix, prev := VehicleIndices(entities), VehicleIndices(init);
      var records, before := RecordsOf(entities), RecordsOf(init);
      forall k | 0 <= k < |records|
        ensures ix[k] < |entities| && entities[ix[k]].vehicle.Some?
        ensures records[k] == ToRecord(entities[ix[k]].vehicle.value)
      {
        if k < |before| {
          assert records[k] == before[k] && ix[k] == prev[k];
          assert init[prev[k]] == entities[prev[k]];
        }
      }
    }
  }

  /** The scan over `feed.entity` that builds one record per vehicle
      position. */
  method ExtractRecords(feed: FeedMessage) returns (records: seq<Record>)
    ensures records == RecordsOf(feed.entity)
  {
    records := [];
    var i := 0;
    while i < |feed.entity|
      invariant 0 <= i <= |feed.entity|
      invariant records == RecordsOf(feed.entity[..i])
    {
      var entity := feed.entity[i];
      assert feed.entity[..i + 1][..i] == feed.entity[..i];
      if entity.vehicle.Some? {
        records := records + [ToRecord(entity.vehicle.value)];
      }
      i := i + 1;
    }
    assert feed.entity[..|feed.entity|] == feed.entity;
  }

  /** The cells the two `replace` calls turn into null. */
  predicate Blank(c: Cell) {
    c == Float(0.0) || c == Text("")
  }

  /** `replace(0.0, NA)` then `replace("", NA)` on one cell. */
  function NormaliseCell(c: Cell): (r: Cell)
    ensures !Blank(r)
    ensures Blank(c) ==> r == Null
    ensures !Blank(c) ==> r == c
  {
    if Blank(c) then Null else c
  }

  function NormaliseRecord(r: Record): Record {
    Record(NormaliseCell(r.tripId), NormaliseCell(r.routeId), NormaliseCell(r.directionId),
           NormaliseCell(r.vehicleId), NormaliseCell(r.latitude), NormaliseCell(r.longitude),
           NormaliseCell(r.bearing), NormaliseCell(r.speed), NormaliseCell(r.timestamp))
  }

  predicate NoBlankCell(r: Record) {
    !Blank(r.tripId) && !Blank(r.routeId) && !Blank(r.directionId) && !Blank(r.vehicleId)
    && !Blank(r.latitude) && !Blank(r.longitude) && !Blank(r.bearing) && !Blank(r.speed)
    && !Blank(r.timestamp)
  }

  /** After normalisation no cell is 0.0 or "", nothing else changed, and a
      second pass changes nothing. */
  lemma NormaliseMeaning(r: Record)
    ensures NoBlankCell(NormaliseRecord(r))
    ensures NoBlankCell(r) ==> NormaliseRecord(r) == r
    ensures NormaliseRecord(NormaliseRecord(r)) == NormaliseRecord(r)
  {
  }

  /** Combining extraction and normalisation: a trip column of a stored
      record is null exactly when the trip is absent or its id is unset. */
  lemma StoredTripNull(v: VehiclePosition)
    ensures NormaliseRecord(ToRecord(v)).tripId == Null <==> v.trip.None? || v.trip.value.tripId == ""
    ensures NormaliseRecord(ToRecord(v)).directionId == NormaliseRecord(ToRecord(v)).routeId
    ensures NormaliseRecord(ToRecord(v)).speed == Null <==> v.position.None? || v.position.value.speed == 0.0
  {
  }

  /** The columns of the written file, in order: the nine schema fields, then
      the appended geometry. */
  const ColumnNames: seq<string> :=
    ["trip_id", "route_id", "direction_id", "vehicle_id", "latitude", "longitude",
     "bearing", "speed", "timestamp", "geometry"]

  /** The GeoParquet "geo" declaration stored in the file metadata. */
  const Geo110: GeoMetadata :=
    GeoMetadata("1.1.0", "geometry", map["geometry" := GeoColumn("WKB", ["Point"], "EPSG:4326")])

  /** The point of a record: x is the longitude, y the latitude. */
  function PointOf(r: Record): (p: Cell)
    ensures p.WkbPoint? && p.x == r.longitude && p.y == r.latitude
  {
    WkbPoint(r.longitude, r.latitude)
  }

  function RowOf(r: Record): Row {
    map["trip_id" := r.tripId, "route_id" := r.routeId, "direction_id" := r.directionId,
        "vehicle_id" := r.vehicleId, "latitude" := r.latitude, "longitude" := r.longitude,
        "bearing" := r.bearing, "speed" := r.speed, "timestamp" := r.timestamp,
        "geometry" := PointOf(r)]
  }

  /** The table written to `/tmp/positions.parquet`. */
  function TableOf(records: seq<Record>): ParquetFile {
    ParquetFile(ColumnNames, map["geo" := Geo(Geo110)],
                seq(|records|, i requires 0 <= i < |records| => RowOf(records[i])))
  }

  /** The written file is a GeoParquet file of points: its metadata names the
      last column as the primary WKB point column in EPSG:4326, every row
      holds exactly the file's columns, and each row's geometry is the point
      (longitude, latitude) of that row. No geohash column is written. */
  lemma TableIsGeoParquet(records: seq<Record>)
    ensures var f := TableOf(records);
      && |f.rows| == |records|
      && "geo" in f.metadata && f.metadata["geo"].Geo?
      && var geo := f.metadata["geo"].geo;
      && geo.version == "1.1.0"
      && geo.primaryColumn == f.columns[|f.columns| - 1]
      && geo.primaryColumn in geo.columns
      && geo.columns[geo.primaryColumn] == GeoColumn("WKB", ["Point"], "EPSG:4326")
      && "geohash" !in f.columns
      && forall i :: 0 <= i < |f.rows| ==>
           && (forall c :: c in f.rows[i] <==> c in f.columns)
           && f.rows[i][geo.primaryColumn] == WkbPoint(f.rows[i]["longitude"], f.rows[i]["latitude"])
  {
    var f := TableOf(records);
    forall i | 0 <= i < |f.rows|
      ensures forall c :: c in f.rows[i] <==> c in f.columns
    {
      assert f.rows[i] == RowOf(records[i]);
    }
  }

  /** `positions_raw/%Y/%m/%d/%H%M%S.parquet` of the write time. */
  function RawObjectKey(t: DateTime): string
    requires ValidClock(t)
  {
    "positions_raw/" + DayPath(t.date) + TimeText(t) + ".parquet"
  }

  /** Two writes get the same key only in the same second. */
  lemma RawObjectKeyInjective(a: DateTime, b: DateTime)
    requires ValidClock(a)
    requires ValidClock(b)
    requires RawObjectKey(a) == RawObjectKey(b)
    ensures a == b
  {
    var k := RawObjectKey(a);
    var n := |k|;
    assert |DayPath(a.date)| == |DayPath(b.date)|;
    assert DayPath(a.date) == k[14..n - 14] == DayPath(b.date);
    DayPathInjective(a.date, b.date);
    var ta, tb := TimeText(a), TimeText(b);
    assert ta == k[n - 14..n - 8] == tb;
    assert ZeroPad2(a.hour) == ta[..2] && ZeroPad2(b.hour) == tb[..2];
    assert ZeroPad2(a.minute) == ta[2..4] && ZeroPad2(b.minute) == tb[2..4];
    assert ZeroPad2(a.second) == ta[4..] && ZeroPad2(b.second) == tb[4..];
  }

  /** The outcome of the HTTP fetch. */
  datatype Fetch = TransportFailure | HttpResponse(status: int, feed: FeedMessage)

  /** `raise_for_status` raises for client and server errors only. */
  predicate FetchRaises(f: Fetch) {
    f.TransportFailure? || 400 <= f.status < 600
  }

  /** Why an invocation raised: the fetch failed (re-raised), or the feed
      held no vehicle positions, so the frame has none of the columns the
      dtype mapping names. */
  datatype IngestError = FetchFailed | NoRecords

  /** A completed invocation: the file written locally, where it was sent,
      and whether the upload went through (a `ClientError` is logged and
      swallowed). */
  datatype Ingested = Ingested(file: ParquetFile, localPath: string, bucket: string, key: string, uploaded: bool)

  /** `handler`. The fetch outcome, the write-time clock in the configured
      zone and whether the upload raises a `ClientError` are parameters. */
  method Handler(fetch: Fetch, bucket: string, writeTime: DateTime, uploadClientError: bool)
    returns (r: Result<Ingested, IngestError>)
    requires ValidClock(writeTime)
    ensures r == Err(FetchFailed) <==> FetchRaises(fetch)
    ensures r == Err(NoRecords) <==> !FetchRaises(fetch) && VehicleIndices(fetch.feed.entity) == []
    ensures r.Ok? ==>
      var records := RecordsOf(fetch.feed.entity);
      && |r.value.file.rows| == |records| > 0
      && (forall k :: 0 <= k < |records| ==> r.value.file.rows[k] == RowOf(NormaliseRecord(records[k])))
      && r.value.file.columns == ColumnNames
      && r.value.file.metadata == map["geo" := Geo(Geo110)]
      && r.value.localPath == "/tmp/positions.parquet"
      && r.value.bucket == bucket
      && r.value.key == RawObjectKey(writeTime)
      && r.value.uploaded == !uploadClientError
  {
    if fetch.TransportFailure? || 400 <= fetch.status < 600 {
      return Err(FetchFailed);
    }
    var records := ExtractRecords(fetch.feed);
    RecordsFollowVehicles(fetch.feed.entity);
    if |records| == 0 {
      return Err(NoRecords);
    }
    var normalised := seq(|records|, i requires 0 <= i < |records| => NormaliseRecord(records[i]));
    var file := TableOf(normalised);
    var key := RawObjectKey(writeTime);
    r := Ok(Ingested(file, "/tmp/positions.parquet", bucket, key, !uploadClientError));
  }
}
