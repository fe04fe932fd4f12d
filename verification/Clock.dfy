/** Readings of a clock that never goes back. */
module Clock {
  type Time = int
}
