/** Points in time and durations, as integers in nanoseconds; points count from 1970. */
module GoTime {
  import opened Text

  /** Go's zero time, January 1 of the year 1. */
  const ZERO_TIME: int := -62135596800 * 1_000_000_000

  const MINUTE: int := 60 * 1_000_000_000

  /** `Time.Sub`: a 64-bit duration that saturates. */
  function Sub(t: int, u: int): int {
    if t - u > MAX_INT64 then MAX_INT64 else if t - u < MIN_INT64 then MIN_INT64 else t - u
  }
}
