/** time.Duration is an int64: products wrap, time differences saturate. */
module Durations {
  const MAX_DURATION := 0x7fff_ffff_ffff_ffff
  const MIN_DURATION := -0x8000_0000_0000_0000
  const SECOND := 1_000_000_000

  predicate IsDuration(d: int) { MIN_DURATION <= d <= MAX_DURATION }

  /** Two's-complement wrap-around to 64 bits. */
  function Wrap(x: int): (r: int)
    ensures IsDuration(r)
    ensures IsDuration(x) ==> r == x
    ensures (x - r) % 0x1_0000_0000_0000_0000 == 0
  {
    (x - MIN_DURATION) % 0x1_0000_0000_0000_0000 + MIN_DURATION
  }

  /** t.Sub(u), saturating. */
  function TimeSub(t: int, u: int): (r: int)
    ensures IsDuration(r)
  {
    if t - u > MAX_DURATION then MAX_DURATION
    else if t - u < MIN_DURATION then MIN_DURATION
    else t - u
  }
}
