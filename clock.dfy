/** Go's `time` package as the bot uses it.  A `Time` is a count of
    nanoseconds since January 1 of year 1, UTC, so the zero `time.Time{}`
    is 0; a `Duration` is a signed count of nanoseconds.  The wall clock
    itself (`time.Now`) is always a parameter. */
module Clock {
  import opened GoInt

  type Time = int
  type Duration = int

  const ZeroTime: Time := 0
  const Millisecond: Duration := 1_000_000
  const Second: Duration := 1000 * Millisecond
  const Minute: Duration := 60 * Second
  const Hour: Duration := 60 * Minute

  /** The largest and smallest `time.Duration` (64-bit nanoseconds). */
  const MaxDuration: Duration := 0x7fff_ffff_ffff_ffff
  const MinDuration: Duration := -0x8000_0000_0000_0000

  predicate IsZero(t: Time)
  {
    t == ZeroTime
  }

  /** `t.Sub(u)`: the difference, saturated to the Duration range. */
  function Sub(t: Time, u: Time): (d: Duration)
    ensures MinDuration <= d <= MaxDuration
    ensures MinDuration <= t - u <= MaxDuration ==> d == t - u
    ensures t - u > MaxDuration ==> d == MaxDuration
    ensures t - u < MinDuration ==> d == MinDuration
  {
    if t - u > MaxDuration then MaxDuration
    else if t - u < MinDuration then MinDuration
    else t - u
  }

  /** `d.Milliseconds()`: truncating division by a million. */
  function Milliseconds(d: Duration): (ms: int)
    ensures d >= 0 ==> 0 <= ms * Millisecond <= d < (ms + 1) * Millisecond
    ensures d <= 0 ==> ms <= 0 && d > (ms - 1) * Millisecond
  {
    Div(d, Millisecond)
  }

  /** `time.Duration(ms) * time.Millisecond`: the product on 64-bit
      integers, wrapping on overflow. */
  function FromMilliseconds(ms: int): (d: Duration)
    ensures -9_223_372_036_854 <= ms <= 9_223_372_036_854 ==> d == ms * Millisecond
  {
    Wrap64(ms * Millisecond)
  }

  /** Saturation never changes the sign of a difference. */
  lemma SubSign(t: Time, u: Time)
    ensures Sub(t, u) > 0 <==> t > u
    ensures Sub(t, u) == 0 <==> t == u
  {
  }
}
