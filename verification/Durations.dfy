/** Go's time arithmetic in nanoseconds: instants are unbounded, durations are 64-bit. */
module Durations {
  import opened Basics

  const SECOND: int := 1_000_000_000
  const MINUTE: int := 60 * SECOND
  const MAX_DURATION: int := 0x7fff_ffff_ffff_ffff
  const MIN_DURATION: int := -0x8000_0000_0000_0000

  type Duration = d: int | MIN_DURATION <= d <= MAX_DURATION

  /** `Time.Sub`: the difference of two instants, saturating at the ends of the range. */
  function Sub(t: int, u: int): Duration {
    if t - u > MAX_DURATION then MAX_DURATION
    else if t - u < MIN_DURATION then MIN_DURATION
    else t - u
  }

  /** Subtraction of two durations, wrapping around as int64 does. */
  function Minus(a: Duration, b: Duration): Duration {
    if a - b > MAX_DURATION then a - b - TWO_TO_THE_64
    else if a - b < MIN_DURATION then a - b + TWO_TO_THE_64
    else a - b
  }
}
