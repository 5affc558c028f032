/** internal/domain/usecase/monitoring_usecase.go: argument guards in front
    of the repository. Every guard failure returns before the repository
    is called; the repository's answer is returned unchanged. */
module MonitoringUsecase {
  import opened Common
  import opened Uuids
  import opened Entity
  import opened MonitoringRepository

  const ErrNilDevice := "device_id tidak boleh kosong"
  const ErrEndBeforeStart := "endTime harus lebih besar dari startTime"
  const ErrRetention := "retentionPeriod harus lebih dari 0"
  const DefaultLimit := 100

  /** The arguments a range query hands to the repository. */
  datatype RangeQuery = RangeQuery(deviceId: Uuid, startTime: Time, endTime: Time, limit: int)

  /** The guards of GetMonitoringDataByDevice: the device is checked
      first, a non-positive limit becomes 100, and only an end strictly
      before the start is refused. */
  function RangeGuard(deviceId: Uuid, startTime: Time, endTime: Time, limit: int): (r: Result<RangeQuery>)
    ensures deviceId == Nil ==> r == Err(ErrNilDevice)
    ensures deviceId != Nil && endTime < startTime ==> r == Err(ErrEndBeforeStart)
    ensures r.Ok? <==> deviceId != Nil && startTime <= endTime
    ensures r.Ok? ==> r.value.deviceId == deviceId && r.value.startTime == startTime && r.value.endTime == endTime
    ensures r.Ok? ==> r.value.limit >= 1
    ensures r.Ok? && limit >= 1 ==> r.value.limit == limit
    ensures r.Ok? && limit <= 0 ==> r.value.limit == DefaultLimit
  {
    if deviceId == Nil then Err(ErrNilDevice)
    else if endTime < startTime then Err(ErrEndBeforeStart)
    else Ok(RangeQuery(deviceId, startTime, endTime, if limit <= 0 then DefaultLimit else limit))
  }

  /** The sample StoreMonitoringData passes on: a zero timestamp is
      replaced by the clock reading, anything else is kept. */
  function Stamped(data: MonitoringData, now: Time): (d: MonitoringData)
    ensures d.deviceId == data.deviceId && SameMetrics(d, data)
    ensures data.timestamp != ZeroTime ==> d == data
    ensures data.timestamp == ZeroTime ==> d.timestamp == now
  {
    if data.timestamp == ZeroTime then data.(timestamp := now) else data
  }

  /** An instant range of zero length passes the guards: end == start is
      accepted. */
  lemma EqualEndsAccepted(deviceId: Uuid, t: Time, limit: int)
    requires deviceId != Nil
    ensures RangeGuard(deviceId, t, t, limit).Ok?
  {
  }

  class MonitoringUsecase {
    const repo: InfluxRepository

    constructor(repo: InfluxRepository)
      ensures this.repo == repo
    {
      this.repo := repo;
    }

    /** StoreMonitoringData. The caller's sample is updated in place, so the
        stamped sample is returned as `updated`. `written` says whether the
        buffered write reaches the bucket. */
    method StoreMonitoringData(data: MonitoringData, now: Time, written: bool)
      returns (updated: MonitoringData, err: Option<string>)
      modifies repo
      ensures data.deviceId == Nil ==> err == Some(ErrNilDevice) && updated == data && repo.points == old(repo.points)
      ensures data.deviceId != Nil ==> err == None && updated == Stamped(data, now)
      ensures data.deviceId != Nil && written ==> repo.points == old(repo.points) + [PointOf(updated)]
      ensures data.deviceId != Nil && !written ==> repo.points == old(repo.points)
    {
      updated := data;
      if data.deviceId == Nil {
        return updated, Some(ErrNilDevice);
      }
      if updated.timestamp == ZeroTime {
        updated := updated.(timestamp := now);
      }
      err := repo.Store(updated, written);
    }

    /** GetMonitoringDataByDevice. `call` is the repository call made, if
        any, and `query` what the engine answers it with. */
    method GetMonitoringDataByDevice(deviceId: Uuid, startTime: Time, endTime: Time, limit: int, query: Result<Cursor>)
      returns (call: Option<RangeQuery>, r: Result<seq<MonitoringData>>)
      ensures RangeGuard(deviceId, startTime, endTime, limit).Err? ==>
        call == None && r == Err(RangeGuard(deviceId, startTime, endTime, limit).error)
      ensures RangeGuard(deviceId, startTime, endTime, limit).Ok? ==>
        call == Some(RangeGuard(deviceId, startTime, endTime, limit).value) && r == RangeRows(deviceId, query)
    {
      if deviceId == Nil {
        return None, Err(ErrNilDevice);
      }
      var effectiveLimit := limit;
      if effectiveLimit <= 0 {
        effectiveLimit := DefaultLimit;
      }
      if endTime < startTime {
        return None, Err(ErrEndBeforeStart);
      }
      call := Some(RangeQuery(deviceId, startTime, endTime, effectiveLimit));
      r := repo.GetByDeviceID(deviceId, query);
    }

    /** GetLatestMonitoringData. */
    method GetLatestMonitoringData(deviceId: Uuid, query: Result<Cursor>)
      returns (called: bool, r: Result<MonitoringData>)
      ensures deviceId == Nil ==> !called && r == Err(ErrNilDevice)
      ensures deviceId != Nil ==> called && r == LatestRow(deviceId, query)
    {
      if deviceId == Nil {
        return false, Err(ErrNilDevice);
      }
      r := repo.GetLatestByDeviceID(deviceId, query);
      return true, r;
    }

    /** GetMonitoringStats: the same device and range guards as the range
        query, without a limit. */
    method GetMonitoringStats(deviceId: Uuid, startTime: Time, endTime: Time, query: Result<Cursor>)
      returns (called: bool, r: Result<MonitoringStats>)
      ensures deviceId == Nil ==> !called && r == Err(ErrNilDevice)
      ensures deviceId != Nil && endTime < startTime ==> !called && r == Err(ErrEndBeforeStart)
      ensures called <==> deviceId != Nil && startTime <= endTime
      ensures called && query.Err? ==> r == Err(ErrQueryStats + query.error)
      ensures called && query.Ok? ==> r == Ok(Stats(deviceId, startTime, endTime, |query.value.records|))
    {
      if deviceId == Nil {
        return false, Err(ErrNilDevice);
      }
      if endTime < startTime {
        return false, Err(ErrEndBeforeStart);
      }
      r := repo.GetStats(deviceId, startTime, endTime, query);
      return true, r;
    }

    /** DeleteOldMonitoringData: a non-positive retention is refused before
        anything is deleted. */
    method DeleteOldMonitoringData(retention: Duration, now: Time, later: Time, deleteErr: Option<string>)
      returns (err: Option<string>)
      modifies repo
      ensures retention <= 0 ==> err == Some(ErrRetention) && repo.points == old(repo.points)
      ensures retention > 0 && deleteErr.Some? ==> err == Some(ErrDelete + deleteErr.value) && repo.points == old(repo.points)
      ensures retention > 0 && deleteErr.None? ==>
        err == None && repo.points == Surviving(old(repo.points), now - retention, later)
    {
      if retention <= 0 {
        return Some(ErrRetention);
      }
      err := repo.DeleteOldData(retention, now, later, deleteErr);
    }
  }
}
