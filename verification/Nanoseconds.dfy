/** Clock readings and durations are integer nanoseconds. */
module Nanoseconds {
  const SECOND: int := 1_000_000_000
}
