/** Durations in nanoseconds, as the program counts them. */
module Clock {
  const SECOND: nat := 1_000_000_000

  const HOUR: nat := 3600 * SECOND
}
