/** Lengths of time in nanoseconds. */
module Durations {
  const NANO: nat := 1
  const MICRO: nat := 1_000
  const MILLI: nat := 1_000_000
  const SECOND: nat := 1_000_000_000
  const MINUTE: nat := 60_000_000_000
  const HOUR: nat := 3_600_000_000_000
  const DAY: nat := 86_400_000_000_000
}
