/** Times are nanoseconds, on the monotonic or on the wall clock. */
module Clock {
  const SECOND: int := 1_000_000_000
}
