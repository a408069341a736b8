/**
 * Go's time arithmetic as the limiter uses it. An instant is an integer count of nanoseconds
 * since Go's zero time (January 1 of year 1, UTC); a duration is an integer count of nanoseconds.
 */
module GoTime {

  const NanosPerSecond: int := 1_000_000_000

  /** Seconds from Go's zero time to the Unix epoch. */
  const ZeroToUnixSeconds: int := 62_135_596_800

  /** `t.Truncate(d)`: round down to a multiple of d since the zero time; no change when d <= 0. */
  function Truncate(t: int, d: int): (r: int)
    ensures d > 0 ==> r <= t < r + d && r % d == 0
    ensures d <= 0 ==> r == t
  {
    if d <= 0 then t else
      MultipleOfDivisor(t / d, d);
      t - t % d
  }

  /** A multiple of d leaves no remainder. */
  lemma MultipleOfDivisor(q: int, d: int)
    requires d > 0
    ensures (q * d) % d == 0
  {
    var m := q * d;
    var x := q - m / d;
    assert x * d == m % d by {
      assert m == (m / d) * d + m % d;
    }
    if x >= 1 {
      ProductAtLeast(x, d);
    }
  }

  /** A positive multiplier of d is at least d. */
  lemma ProductAtLeast(x: int, d: int)
    requires x >= 1 && d > 0
    ensures x * d >= d
  {
  }

  /** `t.Unix()`: whole seconds since the Unix epoch, rounded down. */
  function UnixSeconds(t: int): (s: int)
    ensures (s + ZeroToUnixSeconds) * NanosPerSecond <= t < (s + ZeroToUnixSeconds + 1) * NanosPerSecond
  {
    t / NanosPerSecond - ZeroToUnixSeconds
  }

  /** `int(d.Seconds())` for a positive duration: whole seconds, the fraction dropped. */
  function WholeSeconds(d: int): (s: int)
    requires d > 0
    ensures s >= 0 && s * NanosPerSecond <= d < (s + 1) * NanosPerSecond
  {
    d / NanosPerSecond
  }
}
