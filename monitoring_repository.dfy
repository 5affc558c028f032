/** internal/domain/repository/monitoring_repository.go: the InfluxDB side of
    telemetry. Writes become points in the bucket; a query's answer is the
    sequence of records its cursor yields, which the repository turns into
    samples and statistics. The Flux engine itself is not modelled: what a
    query returns is an input. */
module MonitoringRepository {
  import opened Common
  import opened Uuids
  import opened Calendar
  import opened Entity

  const Measurement := "device_monitoring"
  const DeviceIdTag := "device_id"
  const CpuField := "cpu_usage"
  const MemoryField := "memory_usage"
  const DiskField := "disk_usage"
  const TemperatureField := "temperature"

  /** A field value as the query client returns it: a float64, or a value
      of any other type. */
  datatype FieldValue = FloatValue(bits: Float64) | OtherValue

  /** One line-protocol point: measurement, tag set, field set and time. */
  datatype Point = Point(
    measurement: string,
    tags: map<string, string>,
    fields: map<string, FieldValue>,
    time: Time)

  /** One row of a pivoted query result: its `_time` and its columns. */
  datatype Record = Record(time: Time, values: map<string, FieldValue>)

  /** What a query cursor delivers: its records in order, then what its
      Err() reports once Next() has returned false. */
  datatype Cursor = Cursor(records: seq<Record>, err: Option<string>)

  /** The point Store writes for a sample. */
  function PointOf(data: MonitoringData): (p: Point)
    ensures p.measurement == Measurement && p.time == data.timestamp
    ensures p.tags.Keys == {DeviceIdTag} && Parse(p.tags[DeviceIdTag]) == Some(data.deviceId)
    ensures p.fields.Keys == {CpuField, MemoryField, DiskField, TemperatureField}
    ensures forall k :: k in p.fields ==> p.fields[k].FloatValue?
  {
    ParseToString(data.deviceId);
    Point(
      Measurement,
      map[DeviceIdTag := ToString(data.deviceId)],
      map[CpuField := FloatValue(data.cpuUsage),
          MemoryField := FloatValue(data.memoryUsage),
          DiskField := FloatValue(data.diskUsage),
          TemperatureField := FloatValue(data.temperature)],
      data.timestamp)
  }

  /** The row a stored point comes back as once the query pivots its
      fields into columns keyed by `_time`. */
  function RecordOf(p: Point): (rec: Record)
  {
    Record(p.time, p.fields)
  }

  /** `record.ValueByKey(key).(float64)`, with the zero value when the
      column is missing or holds something else. */
  function FieldOrZero(r: Record, key: string): (v: Float64)
    ensures key in r.values && r.values[key].FloatValue? ==> v == r.values[key].bits
    ensures !(key in r.values && r.values[key].FloatValue?) ==> v == PositiveZero
  {
    if key in r.values then
      match r.values[key]
      case FloatValue(bits) => bits
      case OtherValue => PositiveZero
    else PositiveZero
  }

  /** The sample built from one row: the queried device, the row's time
      and the four metric columns. */
  function DecodeRow(deviceId: Uuid, r: Record): (d: MonitoringData)
  {
    MonitoringData(
      deviceId,
      FieldOrZero(r, CpuField),
      FieldOrZero(r, MemoryField),
      FieldOrZero(r, DiskField),
      FieldOrZero(r, TemperatureField),
      r.time)
  }

  /** A row decodes to the queried device and the row's own time, and each
      metric is the column's float or zero. */
  lemma DecodeRowFields(deviceId: Uuid, r: Record)
    ensures DecodeRow(deviceId, r).deviceId == deviceId
    ensures DecodeRow(deviceId, r).timestamp == r.time
    ensures CpuField !in r.values ==> DecodeRow(deviceId, r).cpuUsage == PositiveZero
    ensures MemoryField !in r.values ==> DecodeRow(deviceId, r).memoryUsage == PositiveZero
    ensures DiskField !in r.values ==> DecodeRow(deviceId, r).diskUsage == PositiveZero
    ensures TemperatureField !in r.values ==> DecodeRow(deviceId, r).temperature == PositiveZero
  {
  }

  /** A stored sample read back under its own device id is the sample
      itself: Store and the row decoding are inverse. */
  lemma StoreDecodeRoundTrip(data: MonitoringData)
    ensures DecodeRow(data.deviceId, RecordOf(PointOf(data))) == data
    ensures Parse(PointOf(data).tags[DeviceIdTag]) == Some(data.deviceId)
  {
    var r := RecordOf(PointOf(data));
    assert r.values[CpuField] == FloatValue(data.cpuUsage);
    assert r.values[MemoryField] == FloatValue(data.memoryUsage);
    assert r.values[DiskField] == FloatValue(data.diskUsage);
    assert r.values[TemperatureField] == FloatValue(data.temperature);
  }

  /** The rows decoded from a run of records, one per record, in order. */
  function DecodeAll(deviceId: Uuid, records: seq<Record>): (rows: seq<MonitoringData>)
    ensures |rows| == |records|
    ensures forall i :: 0 <= i < |rows| ==> rows[i].deviceId == deviceId && rows[i].timestamp == records[i].time
  {
    seq(|records|, i requires 0 <= i < |records| => DecodeRow(deviceId, records[i]))
  }

  lemma DecodeAllAppend(deviceId: Uuid, records: seq<Record>, r: Record)
    ensures DecodeAll(deviceId, records + [r]) == DecodeAll(deviceId, records) + [DecodeRow(deviceId, r)]
  {
    var a := DecodeAll(deviceId, records + [r]);
    var b := DecodeAll(deviceId, records) + [DecodeRow(deviceId, r)];
    assert forall i :: 0 <= i < |a| ==> a[i] == b[i];
  }

  const ErrQueryData := "failed to query monitoring data: "
  const ErrQueryLatest := "failed to query latest monitoring data: "
  const ErrQueryStats := "failed to query monitoring stats: "
  const ErrCursor := "query error: "
  const ErrNoData := "no data found"
  const ErrDelete := "failed to delete old data: "

  /** What GetByDeviceID answers for a query outcome: the query's error,
      the cursor's error with no rows, or every record decoded in order. */
  function RangeRows(deviceId: Uuid, query: Result<Cursor>): (r: Result<seq<MonitoringData>>)
    ensures query.Err? ==> r == Err(ErrQueryData + query.error)
    ensures query.Ok? && query.value.err.Some? ==> r == Err(ErrCursor + query.value.err.value)
    ensures r.Ok? <==> query.Ok? && query.value.err.None?
    ensures r.Ok? ==> r.value == DecodeAll(deviceId, query.value.records)
  {
    match query
    case Err(e) => Err(ErrQueryData + e)
    case Ok(cursor) =>
      if cursor.err.Some? then Err(ErrCursor + cursor.err.value)
      else Ok(DecodeAll(deviceId, cursor.records))
  }

  /** GetLatestByDeviceID: the first record decoded, or "no data found"
      when the cursor yields none. The cursor's own error is never read. */
  function LatestRow(deviceId: Uuid, query: Result<Cursor>): (r: Result<MonitoringData>)
    ensures query.Err? ==> r == Err(ErrQueryLatest + query.error)
    ensures query.Ok? && query.value.records == [] ==> r == Err(ErrNoData)
    ensures r.Ok? <==> query.Ok? && query.value.records != []
    ensures r.Ok? ==> r.value == DecodeRow(deviceId, query.value.records[0])
  {
    match query
    case Err(e) => Err(ErrQueryLatest + e)
    case Ok(cursor) =>
      if cursor.records != [] then Ok(DecodeRow(deviceId, cursor.records[0]))
      else Err(ErrNoData)
  }

  /** A cursor that fails after delivering a record still yields a latest
      sample, and a failed empty cursor reads as "no data found". */
  lemma LatestIgnoresCursorError(deviceId: Uuid, records: seq<Record>, e: string)
    ensures LatestRow(deviceId, Ok(Cursor(records, Some(e)))) == LatestRow(deviceId, Ok(Cursor(records, None)))
    ensures records == [] ==> LatestRow(deviceId, Ok(Cursor(records, Some(e)))) == Err(ErrNoData)
  {
  }

  /** The statistics period label: both dates in the "2006-01-02" layout. */
  function PeriodLabel(startTime: Time, endTime: Time): (text: string)
  {
    FormatDate(DateOf(startTime)) + " to " + FormatDate(DateOf(endTime))
  }

  /** For dates in years 0 through 9999 the label is the start date, " to "
      and the end date, each date ten characters long. */
  lemma PeriodLabelShape(startTime: Time, endTime: Time)
    requires 0 <= DateOf(startTime).year <= 9999 && 0 <= DateOf(endTime).year <= 9999
    ensures |PeriodLabel(startTime, endTime)| == 24
    ensures PeriodLabel(startTime, endTime)[..10] == FormatDate(DateOf(startTime))
    ensures PeriodLabel(startTime, endTime)[10..14] == " to "
    ensures PeriodLabel(startTime, endTime)[14..] == FormatDate(DateOf(endTime))
  {
    FormatDateFields(DateOf(startTime));
    FormatDateFields(DateOf(endTime));
  }

  /** The statistics GetStats returns after counting `count` records:
      device and period filled in, every average and maximum left zero. */
  function Stats(deviceId: Uuid, startTime: Time, endTime: Time, count: nat): (s: MonitoringStats)
    ensures s.deviceId == deviceId && s.dataPoints == count
    ensures s.period == PeriodLabel(startTime, endTime)
    ensures s.avgCpu == s.avgMemory == s.avgDisk == s.avgTemp == PositiveZero
    ensures s.maxCpu == s.maxMemory == s.maxDisk == s.maxTemp == PositiveZero
  {
    MonitoringStats(deviceId, PositiveZero, PositiveZero, PositiveZero, PositiveZero,
      PositiveZero, PositiveZero, PositiveZero, PositiveZero, count, PeriodLabel(startTime, endTime))
  }

  /** Whether `p` lies in the window the delete call names: from
      `start` to `stop`, both ends included, whatever its measurement. */
  predicate InWindow(p: Point, start: Time, stop: Time)
  {
    start <= p.time <= stop
  }

  /** The points a delete of the window [start, stop] leaves. */
  function Surviving(points: seq<Point>, start: Time, stop: Time): (r: seq<Point>)
    ensures |r| <= |points|
    ensures forall p :: p in r <==> p in points && !InWindow(p, start, stop)
  {
    if points == [] then []
    else
      var rest := Surviving(points[1..], start, stop);
      assert forall p :: p in points <==> p == points[0] || p in points[1..];
      if InWindow(points[0], start, stop) then rest else [points[0]] + rest
  }

  /** A delete keeps every copy of a point outside the window and no copy
      of a point inside it. */
  lemma {:induction false} SurvivingCounts(points: seq<Point>, start: Time, stop: Time, p: Point)
    ensures multiset(Surviving(points, start, stop))[p] == if InWindow(p, start, stop) then 0 else multiset(points)[p]
  {
    if points != [] {
      assert points == [points[0]] + points[1..];
      assert multiset(points) == multiset{points[0]} + multiset(points[1..]);
      SurvivingCounts(points[1..], start, stop, p);
    }
  }

  /** A delete keeps the survivors in write order: the survivors of two
      consecutive runs of points are those of the first run, then those of
      the second. */
  lemma {:induction false} SurvivingAppend(a: seq<Point>, b: seq<Point>, start: Time, stop: Time)
    ensures Surviving(a + b, start, stop) == Surviving(a, start, stop) + Surviving(b, start, stop)
  {
    if a == [] {
      assert a + b == b;
    } else {
      assert (a + b)[1..] == a[1..] + b;
      SurvivingAppend(a[1..], b, start, stop);
    }
  }

  /** The bucket and the repository methods over it. */
  class InfluxRepository {
    /** The points written so far, in write order. */
    var points: seq<Point>

    constructor(initial: seq<Point>)
      ensures points == initial
    {
      points := initial;
    }

    /** Store: writes the sample's point through the buffered writer and
        flushes. A failed write (`written` false) surfaces only on the
        writer's error channel: Store reports nil either way. */
    method Store(data: MonitoringData, written: bool) returns (err: Option<string>)
      modifies this
      ensures err == None
      ensures written ==> points == old(points) + [PointOf(data)]
      ensures !written ==> points == old(points)
    {
      var point := PointOf(data);
      if written {
        points := points + [point];
      }
      return None;
    }

    /** GetByDeviceID: appends one decoded row per record the cursor yields,
        then reports the cursor's error in place of the rows. */
    method GetByDeviceID(deviceId: Uuid, query: Result<Cursor>) returns (r: Result<seq<MonitoringData>>)
      ensures r == RangeRows(deviceId, query)
    {
      if query.Err? {
        return Err(ErrQueryData + query.error);
      }
      var result := query.value;
      var monitoringData: seq<MonitoringData> := [];
      var i := 0;
      while i < |result.records|
        invariant 0 <= i <= |result.records|
        invariant monitoringData == DecodeAll(deviceId, result.records[..i])
      {
        var record := result.records[i];
        var data := MonitoringData(deviceId, PositiveZero, PositiveZero, PositiveZero, PositiveZero, record.time);
        if CpuField in record.values && record.values[CpuField].FloatValue? {
          data := data.(cpuUsage := record.values[CpuField].bits);
        }
        if MemoryField in record.values && record.values[MemoryField].FloatValue? {
          data := data.(memoryUsage := record.values[MemoryField].bits);
        }
        if DiskField in record.values && record.values[DiskField].FloatValue? {
          data := data.(diskUsage := record.values[DiskField].bits);
        }
        if TemperatureField in record.values && record.values[TemperatureField].FloatValue? {
          data := data.(temperature := record.values[TemperatureField].bits);
        }
        assert data == DecodeRow(deviceId, record);
        DecodeAllAppend(deviceId, result.records[..i], record);
        assert result.records[..i + 1] == result.records[..i] + [record];
        monitoringData := monitoringData + [data];
        i := i + 1;
      }
      assert result.records[..i] == result.records;
      if result.err.Some? {
        return Err(ErrCursor + result.err.value);
      }
      return Ok(monitoringData);
    }

    /** GetLatestByDeviceID. */
    method GetLatestByDeviceID(deviceId: Uuid, query: Result<Cursor>) returns (r: Result<MonitoringData>)
      ensures r == LatestRow(deviceId, query)
    {
      if query.Err? {
        return Err(ErrQueryLatest + query.error);
      }
      if query.value.records != [] {
        return Ok(DecodeRow(deviceId, query.value.records[0]));
      }
      return Err(ErrNoData);
    }

    /** GetStats: counts the records the cursor yields; the cursor's error
        is never consulted. */
    method GetStats(deviceId: Uuid, startTime: Time, endTime: Time, query: Result<Cursor>)
      returns (r: Result<MonitoringStats>)
      ensures query.Err? ==> r == Err(ErrQueryStats + query.error)
      ensures query.Ok? ==> r == Ok(Stats(deviceId, startTime, endTime, |query.value.records|))
    {
      if query.Err? {
        return Err(ErrQueryStats + query.error);
      }
      var result := query.value;
      var period := PeriodLabel(startTime, endTime);
      var dataPoints := 0;
      var i := 0;
      while i < |result.records|
        invariant 0 <= i <= |result.records|
        invariant dataPoints == i
      {
        dataPoints := dataPoints + 1;
        i := i + 1;
      }
      var stats := MonitoringStats(deviceId, PositiveZero, PositiveZero, PositiveZero, PositiveZero,
        PositiveZero, PositiveZero, PositiveZero, PositiveZero, dataPoints, period);
      return Ok(stats);
    }

    /** DeleteOldData: deletes every point from `now - retention` (first
        clock reading) to `later` (second clock reading). When the delete
        call fails the bucket is left as it was. */
    method DeleteOldData(retention: Duration, now: Time, later: Time, deleteErr: Option<string>)
      returns (err: Option<string>)
      modifies this
      ensures deleteErr.Some? ==> err == Some(ErrDelete + deleteErr.value) && points == old(points)
      ensures deleteErr.None? ==> err == None && points == Surviving(old(points), now - retention, later)
    {
      var deleteTime := now - retention;
      if deleteErr.Some? {
        return Some(ErrDelete + deleteErr.value);
      }
      points := Surviving(points, deleteTime, later);
      return None;
    }
  }

  /** The window DeleteOldData removes is the recent one: with a positive
      retention and a clock that does not run backwards, a point written at
      the current time is deleted, and one older than the cutoff is kept. */
  lemma DeleteWindowIsRecent(points: seq<Point>, retention: Duration, now: Time, later: Time, p: Point)
    requires retention > 0 && now <= later && p in points
    ensures p.time == now ==> p !in Surviving(points, now - retention, later)
    ensures p.time < now - retention ==> p in Surviving(points, now - retention, later)
    ensures p.time > later ==> p in Surviving(points, now - retention, later)
  {
  }
}
