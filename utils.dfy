/** The helpers of src/utils.go: clamping, duration formatting and the
    rate limiter. */
module Utils {
  import opened GoInt
  import opened Clock
  import opened Text

  /** `Clamp(value, min, max)`: the lower bound is tested first, so with
      `lo > hi` a value below `lo` still yields `lo`. */
  function Clamp(value: int, lo: int, hi: int): (r: int)
    ensures lo <= hi ==> lo <= r <= hi
    ensures r == value <==> (value >= lo && value <= hi) || (value < lo && value == lo) || (value > hi && value == hi)
    ensures value < lo ==> r == lo
    ensures lo <= value ==> r == Min(value, hi)
  {
    if value < lo then lo else if value > hi then hi else value
  }

  /** Clamping twice into the same non-empty range clamps once. */
  lemma ClampIdempotent(value: int, lo: int, hi: int)
    requires lo <= hi
    ensures Clamp(Clamp(value, lo, hi), lo, hi) == Clamp(value, lo, hi)
  {
  }

  /** `ClampFloat`: the same two tests over floats. */
  function ClampReal(value: real, lo: real, hi: real): (r: real)
    ensures lo <= hi ==> lo <= r <= hi
    ensures lo <= value <= hi ==> r == value
    ensures value < lo ==> r == lo
    ensures lo <= value && value > hi ==> r == hi
  {
    if value < lo then lo else if value > hi then hi else value
  }

  lemma ClampRealIdempotent(value: real, lo: real, hi: real)
    requires lo <= hi
    ensures ClampReal(ClampReal(value, lo, hi), lo, hi) == ClampReal(value, lo, hi)
  {
  }

  /** Whole hours, then minutes and seconds modulo 60, each truncated
      toward zero as `int(d.Hours())` and Go's `%` do. */
  function DurationFields(d: Duration): (f: (int, int, int))
    ensures d >= 0 ==> f.0 >= 0 && 0 <= f.1 < 60 && 0 <= f.2 < 60
    ensures d >= 0 ==> f.0 * 3600 + f.1 * 60 + f.2 == Div(d, Second)
  {
    var totalSeconds := Div(d, Second);
    var totalMinutes := Div(d, Minute);
    FieldsSplit(d);
    (Div(d, Hour), Rem(totalMinutes, 60), Rem(totalSeconds, 60))
  }

  /** For a non-negative duration the minutes and hours are the whole
      seconds divided again. */
  lemma FieldsSplit(d: Duration)
    ensures d >= 0 ==> Div(d, Minute) == Div(d, Second) / 60 && Div(d, Hour) == Div(d, Minute) / 60
  {
    if d >= 0 {
      var q := d / 1_000_000_000;
      assert Div(d, Second) == q;
      assert Div(d, Minute) == d / 60_000_000_000;
      assert Div(d, Hour) == d / 3_600_000_000_000;
    }
  }

  /** `FormatDuration`: "Hh Mm Ss" with hours, "Mm Ss" with minutes only,
      else "Ss". */
  function FormatDuration(d: Duration): string
  {
    var (h, m, s) := DurationFields(d);
    if h > 0 then Decimal(h) + "h " + Decimal(m) + "m " + Decimal(s) + "s"
    else if m > 0 then Decimal(m) + "m " + Decimal(s) + "s"
    else Decimal(s) + "s"
  }

  /** Which form `FormatDuration` picks for a non-negative duration, and
      that the printed fields add back up to the whole seconds. */
  lemma FormatDurationForm(d: Duration)
    requires d >= 0
    ensures var (h, m, s) := DurationFields(d);
            h * 3600 + m * 60 + s == Div(d, Second) && 0 <= m < 60 && 0 <= s < 60 &&
            (d >= Hour ==> FormatDuration(d) == Decimal(h) + "h " + Decimal(m) + "m " + Decimal(s) + "s") &&
            (Minute <= d < Hour ==> h == 0 && FormatDuration(d) == Decimal(m) + "m " + Decimal(s) + "s") &&
            (d < Minute ==> h == 0 && m == 0 && FormatDuration(d) == Decimal(s) + "s")
  {
    var (h, m, s) := DurationFields(d);
    LeadingFields(d);
  }

  /** Which of the hours and minutes fields are zero, by the size of a
      non-negative duration. */
  lemma LeadingFields(d: Duration)
    requires d >= 0
    ensures d >= Hour ==> Div(d, Hour) >= 1
    ensures d < Hour ==> Div(d, Hour) == 0
    ensures Minute <= d < Hour ==> Rem(Div(d, Minute), 60) >= 1
    ensures d < Minute ==> Rem(Div(d, Minute), 60) == 0
  {
    var x := Div(d, Minute);
    assert x == d / 60_000_000_000;
    assert Div(d, Hour) == d / 3_600_000_000_000;
    if d < Hour {
      assert 0 <= x < 60;
      assert Div(x, 60) == 0;
    }
  }

  /** Whether `Allow` fires at `now`: at least `interval` has passed since
      the last execution. */
  predicate Allows(lastExec: Time, interval: Duration, now: Time)
  {
    Sub(now, lastExec) >= interval
  }

  class RateLimiter {
    var lastExec: Time
    var interval: Duration

    constructor (interval: Duration)
      ensures this.interval == interval && lastExec == ZeroTime
    {
      this.interval := interval;
      lastExec := ZeroTime;
    }

    /** `Allow`: fires and records `now`, or refuses and changes nothing. */
    method Allow(now: Time) returns (ok: bool)
      modifies this
      ensures ok == Allows(old(lastExec), interval, now)
      ensures lastExec == (if ok then now else old(lastExec))
      ensures interval == old(interval)
    {
      if Sub(now, lastExec) >= interval {
        lastExec := now;
        return true;
      }
      return false;
    }

    /** `Reset`: back to the zero time. */
    method Reset()
      modifies this
      ensures lastExec == ZeroTime && interval == old(interval)
    {
      lastExec := ZeroTime;
    }
  }

  /** After `Reset` the next `Allow` fires: the distance from the zero time
      to any clock reading past year 293 saturates at the largest
      Duration, which no interval exceeds. */
  lemma AllowsAfterReset(interval: Duration, now: Time)
    requires interval <= MaxDuration && now >= MaxDuration
    ensures Allows(ZeroTime, interval, now)
  {
  }

  /** A positive interval refuses an immediate repeat. */
  lemma RefusesImmediateRepeat(interval: Duration, now: Time)
    requires interval > 0
    ensures !Allows(now, interval, now)
  {
  }

  /** Waiting longer never turns a firing call into a refusal. */
  lemma AllowsLater(lastExec: Time, interval: Duration, now: Time, later: Time)
    requires Allows(lastExec, interval, now) && now <= later
    ensures Allows(lastExec, interval, later)
  {
  }
}
