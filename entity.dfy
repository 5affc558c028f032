/** The telemetry records of internal/domain/entity/monitoring_model.go. */
module Entity {
  import opened Common
  import opened Uuids

  /** One telemetry sample: a device, four metric readings and a time. */
  datatype MonitoringData = MonitoringData(
    deviceId: Uuid,
    cpuUsage: Float64,
    memoryUsage: Float64,
    diskUsage: Float64,
    temperature: Float64,
    timestamp: Time)

  /** The body of the telemetry trigger endpoint. */
  datatype MonitoringRequest = MonitoringRequest(
    cpuUsage: Float64,
    memoryUsage: Float64,
    diskUsage: Float64,
    temperature: Float64)

  /** The aggregate answer for one device and time range. */
  datatype MonitoringStats = MonitoringStats(
    deviceId: Uuid,
    avgCpu: Float64,
    avgMemory: Float64,
    avgDisk: Float64,
    avgTemp: Float64,
    maxCpu: Float64,
    maxMemory: Float64,
    maxDisk: Float64,
    maxTemp: Float64,
    dataPoints: int,
    period: string)

  /** Two samples carry the same four readings. */
  predicate SameMetrics(a: MonitoringData, b: MonitoringData)
  {
    a.cpuUsage == b.cpuUsage && a.memoryUsage == b.memoryUsage
    && a.diskUsage == b.diskUsage && a.temperature == b.temperature
  }
}
