/** Wall-clock time as the controller loops see it. Python reads the clock
    with `datetime.datetime.now()`; here every reading is a parameter. */
module Clock {

  /** `datetime.time` has microsecond resolution. */
  const MicrosPerDay: int := 86_400_000_000
  const MicrosPerSecond: int := 1_000_000

  /** A time of day, the value `datetime.time(now)` extracts. */
  type TimeOfDay = t: int | 0 <= t < MicrosPerDay

  /** A date-time: a calendar day number and the time of day on it. */
  datatype DateTime = DateTime(day: int, time: TimeOfDay)

  /** Microseconds since day 0, 00:00. */
  function Micros(dt: DateTime): int {
    dt.day * MicrosPerDay + dt.time
  }

  /** The length of `to - from`, in seconds. */
  function ElapsedSeconds(from: DateTime, to: DateTime): (s: real)
    ensures s >= 0.0 <==> Micros(from) <= Micros(to)
  {
    (Micros(to) - Micros(from)) as real / MicrosPerSecond as real
  }
}
