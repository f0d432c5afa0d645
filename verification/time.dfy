/** Conversions between the minutes the policy is configured in and the
    milliseconds the clock reads, as java.util.concurrent.TimeUnit does
    them (without its saturation at the bounds of a 64-bit long). */
module Time {

  const MillisPerMinute: int := 60000

  function MinutesToMillis(minutes: int): (ms: int)
    ensures minutes >= 0 ==> ms >= 0
    ensures minutes > 0 ==> ms >= MillisPerMinute
  {
    minutes * MillisPerMinute
  }

  /** Whole minutes in a span of milliseconds, truncated toward zero. */
  function MillisToMinutes(ms: int): (m: int)
    ensures ms >= 0 ==> 0 <= m && m * MillisPerMinute <= ms < (m + 1) * MillisPerMinute
    ensures ms < 0 ==> m <= 0 && -ms - MillisPerMinute < -m * MillisPerMinute <= -ms
  {
    if ms >= 0 then ms / MillisPerMinute else -((-ms) / MillisPerMinute)
  }
}
