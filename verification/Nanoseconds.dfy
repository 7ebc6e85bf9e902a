/** Durations are counted in nanoseconds. */
module Nanoseconds {
  const MILLISECOND: nat := 1_000_000
  const SECOND: int := 1_000_000_000
}
