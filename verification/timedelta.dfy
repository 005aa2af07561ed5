/** The part of Python's `datetime.timedelta` the rain window relies on.
    Instants are whole microseconds, the resolution of `datetime`; the
    difference of two instants is normalised the way Python normalises it:
    any number of days, then 0 <= seconds < 86400 and
    0 <= microseconds < 10^6. */
module Timedelta {

  const MicrosPerSecond: int := 1_000_000
  const SecondsPerDay: int := 86_400
  const MicrosPerDay: int := 86_400_000_000

  /** A point in time, in microseconds from an arbitrary origin. */
  type Instant = int

  datatype Timedelta = Timedelta(days: int, seconds: int, microseconds: int)

  /** The field ranges Python guarantees for every timedelta. */
  predicate Normalised(d: Timedelta)
  {
    && 0 <= d.seconds < SecondsPerDay
    && 0 <= d.microseconds < MicrosPerSecond
  }

  /** The duration a timedelta stands for, in microseconds. */
  function TotalMicros(d: Timedelta): int
  {
    d.days * MicrosPerDay + d.seconds * MicrosPerSecond + d.microseconds
  }

  /** `later - earlier` for two datetimes: the normalised timedelta of that
      duration. A negative duration has negative `days` and non-negative
      `seconds`. */
  function Between(later: Instant, earlier: Instant): (d: Timedelta)
    ensures Normalised(d)
    ensures TotalMicros(d) == later - earlier
  {
    var micros := later - earlier;
    var withinDay := micros % MicrosPerDay;
    Timedelta(micros / MicrosPerDay, withinDay / MicrosPerSecond, withinDay % MicrosPerSecond)
  }

  /** A normalised timedelta is determined by the duration it stands for. */
  lemma {:induction false} NormalisedUnique(d: Timedelta, e: Timedelta)
    requires Normalised(d) && Normalised(e)
    requires TotalMicros(d) == TotalMicros(e)
    ensures d == e
  {
    var rd := d.seconds * MicrosPerSecond + d.microseconds;
    var re := e.seconds * MicrosPerSecond + e.microseconds;
    assert 0 <= rd < MicrosPerDay && 0 <= re < MicrosPerDay;
    assert (d.days - e.days) * MicrosPerDay == re - rd;
    assert d.days == e.days;
    assert (d.seconds - e.seconds) * MicrosPerSecond == e.microseconds - d.microseconds;
    assert d.seconds == e.seconds;
  }

  /** Shifting a duration by whole days changes only the `days` field. */
  lemma ShiftByDays(later: Instant, earlier: Instant, k: int)
    ensures Between(later + k * MicrosPerDay, earlier).seconds == Between(later, earlier).seconds
    ensures Between(later + k * MicrosPerDay, earlier).microseconds == Between(later, earlier).microseconds
    ensures Between(later + k * MicrosPerDay, earlier).days == Between(later, earlier).days + k
  {
    var d := Between(later, earlier);
    var shifted := Timedelta(d.days + k, d.seconds, d.microseconds);
    assert TotalMicros(shifted) == TotalMicros(d) + k * MicrosPerDay;
    NormalisedUnique(Between(later + k * MicrosPerDay, earlier), shifted);
  }
}
