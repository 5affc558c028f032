/** Shared value types of the monitoring backend: optional values, results
    carrying Go-style error texts, bytes and opaque metric readings. */
module Common {

  datatype Option<T> = None | Some(value: T)

  /** A value or the text of the Go `error` returned in its place. */
  datatype Result<T> = Ok(value: T) | Err(error: string)

  /** One octet of a UUID. */
  newtype Byte = x: int | 0 <= x < 256

  /** A float64 metric reading, kept as its IEEE-754 binary64 bit pattern.
      No code in the core computes on metric values: they are only copied,
      so the pattern is all the model needs. The pattern of +0.0, Go's zero
      value for float64, is 0. */
  type Float64 = x: nat | x < 0x1_0000_0000_0000_0000

  const PositiveZero: Float64 := 0

  /** Time instants are nanoseconds since 1970-01-01T00:00:00Z. */
  type Time = int

  /** Durations are nanoseconds, as Go's time.Duration. */
  type Duration = int

  const Nanosecond: Duration := 1
  const Microsecond: Duration := 1000 * Nanosecond
  const Millisecond: Duration := 1000 * Microsecond
  const Second: Duration := 1000 * Millisecond
  const Minute: Duration := 60 * Second
  const Hour: Duration := 60 * Minute

  /** Go's zero time.Time, January 1 of year 1, 00:00:00 UTC: 62135596800
      seconds before the Unix epoch. `IsZero` compares against it. */
  const ZeroTime: Time := -62_135_596_800 * Second

  /** Bounds of Go's int64, the width of `int` and of time.Duration. */
  const MinInt64: int := -0x8000_0000_0000_0000
  const MaxInt64: int := 0x7FFF_FFFF_FFFF_FFFF
}
