/** Times and durations are nanoseconds, as in Go's time package. */
module Clock {

  const SECOND: int := 1_000_000_000
}
