/** The times, in milliseconds, that a date can show: any other makes `toISOString` throw. */
module Dates {
  const MAX_TIME := 8_640_000_000_000_000

  predicate IsDate(ts: int) {
    -MAX_TIME <= ts <= MAX_TIME
  }
}
