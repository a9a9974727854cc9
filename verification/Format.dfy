/** Conversion of a millisecond timestamp to a time, over 64-bit integers.
    The int64 newtype makes Dafny prove that no intermediate result overflows. */
module Format {
  import opened Users

  const DIVISOR: int64 := 1_000
  const MULTIPLIER: int64 := 1_000_000
  const NANOS_PER_SECOND := 1_000_000_000

  function MsecToTime(msec: int64): (t: Time)
    ensures t.ZeroTime? <==> msec <= 0
    ensures t.UnixTime? ==> Normalised(t) && Nanos(t) == msec as int * 1_000_000
  {
    if msec > 0 then
      var sec := msec / DIVISOR;
      var nsec := (msec - sec * DIVISOR) * MULTIPLIER;
      UnixTime(sec, nsec)
    else
      ZeroTime
  }

  /** What time.Unix expects of its arguments to keep them as they are. */
  predicate Normalised(t: Time)
    requires t.UnixTime?
  {
    0 <= t.sec && 0 <= t.nsec as int < NANOS_PER_SECOND
  }

  /** The instant a time denotes, in nanoseconds since the epoch, unbounded. */
  function Nanos(t: Time): int
    requires t.UnixTime?
  {
    t.sec as int * NANOS_PER_SECOND + t.nsec as int
  }

  /** time.Time.Before, on the (seconds, nanoseconds) pair the struct stores. */
  predicate Before(a: Time, b: Time)
    requires a.UnixTime? && b.UnixTime?
  {
    a.sec < b.sec || (a.sec == b.sec && a.nsec < b.nsec)
  }

  /** Converting back: time.Time.UnixMilli on the values MsecToTime produces. */
  function TimeToMsec(t: Time): int
  {
    if t.ZeroTime? then 0 else t.sec as int * 1_000 + t.nsec as int / 1_000_000
  }

  lemma MsecRoundTrip(msec: int64)
    ensures TimeToMsec(MsecToTime(msec)) == if msec > 0 then msec as int else 0
  {
    if msec > 0 {
      var sec := msec as int / 1_000;
      assert (msec as int - sec * 1_000) * 1_000_000 / 1_000_000 == msec as int - sec * 1_000;
    }
  }

  lemma MsecToTimeStrictlyIncreasing(a: int64, b: int64)
    requires 0 < a && 0 < b
    ensures a < b <==> Before(MsecToTime(a), MsecToTime(b))
  {
  }

  /** Two timestamps are confused exactly when both are not positive. */
  lemma MsecToTimeCollapse(a: int64, b: int64)
    ensures MsecToTime(a) == MsecToTime(b) <==> a == b || (a <= 0 && b <= 0)
  {
  }
}
