/** Status: the sliding-window estimate of the request rate and the Status verdict. */
module WindowEstimate {
  import opened Base
  import opened GoTime

  /**
   * The estimate Status computes, `prev*(W-diff)/W + curr`, in exact arithmetic: the previous
   * window's count weighted by the share of it still inside the trailing window, plus the
   * current window's count.
   */
  function SlidingRate(prev: int, curr: int, windowLength: int, diff: int): (rate: real)
    requires windowLength > 0
    ensures 0 <= diff < windowLength && prev >= 0 ==>
      curr as real <= rate <= (prev + curr) as real
  {
    var w := windowLength as real;
    var f := (windowLength - diff) as real / w;
    assert 0 <= diff < windowLength ==> 0.0 < f <= 1.0;
    (prev as real) * f + curr as real
  }

  /** Multiplying the estimate by the window length gives an integer. */
  lemma SlidingRateScaled(prev: int, curr: int, windowLength: int, diff: int)
    requires windowLength > 0
    ensures SlidingRate(prev, curr, windowLength, diff) * (windowLength as real)
      == (prev * (windowLength - diff) + curr * windowLength) as real
  {
    var w := windowLength as real;
    var f := (windowLength - diff) as real / w;
    assert f * w == (windowLength - diff) as real;
    calc {
      SlidingRate(prev, curr, windowLength, diff) * w;
      ((prev as real) * f + curr as real) * w;
      (prev as real) * (f * w) + (curr as real) * w;
      (prev as real) * ((windowLength - diff) as real) + (curr as real) * w;
    }
  }

  /** `math.Round`: to the nearest integer, halves away from zero. */
  function Round(x: real): (n: int)
    ensures x >= 0.0 ==> (n as real) - 0.5 <= x < (n as real) + 0.5
    ensures x < 0.0 ==> (n as real) - 0.5 < x <= (n as real) + 0.5
  {
    if x >= 0.0 then (x + 0.5).Floor else -((-x + 0.5).Floor)
  }

  /** Rounding a non-negative value reaches an integer bound exactly when the value is within half of it. */
  lemma RoundReaches(x: real, limit: int)
    requires x >= 0.0
    ensures Round(x) >= limit <==> x >= (limit as real) - 0.5
  {
  }

  /**
   * The rounded estimate reaches the limit exactly when
   * `2*(prev*(W-diff) + curr*W) >= (2*limit-1)*W`, a test on integers alone.
   */
  lemma RoundedRateReachesLimit(prev: int, curr: int, windowLength: int, diff: int, limit: int)
    requires windowLength > 0 && 0 <= diff < windowLength && prev >= 0 && curr >= 0
    ensures Round(SlidingRate(prev, curr, windowLength, diff)) >= limit
      <==> 2 * (prev * (windowLength - diff) + curr * windowLength) >= (2 * limit - 1) * windowLength
  {
    var x := SlidingRate(prev, curr, windowLength, diff);
    var num := prev * (windowLength - diff) + curr * windowLength;
    RoundReaches(x, limit);
    SlidingRateScaled(prev, curr, windowLength, diff);
    HalfBound(x, windowLength as real, num as real, limit as real);
    CastProduct(2 * limit - 1, windowLength);
  }

  lemma HalfBound(x: real, w: real, num: real, lim: real)
    requires w > 0.0 && x * w == num
    ensures x >= lim - 0.5 <==> 2.0 * num >= (2.0 * lim - 1.0) * w
  {
    var b := lim - 0.5;
    assert (2.0 * lim - 1.0) * w == 2.0 * (b * w);
    var d := x - b;
    assert x * w == d * w + b * w;
    SignOfProduct(d, w);
  }

  lemma SignOfProduct(d: real, w: real)
    requires w > 0.0
    ensures d >= 0.0 <==> d * w >= 0.0
  {
  }

  lemma CastProduct(a: int, b: int)
    ensures (a * b) as real == (a as real) * (b as real)
  {
  }

  /** The counts Get returned: current window first, as in the source. */
  datatype Counts = Counts(curr: int, prev: int)

  /** What Status returns besides its error: whether the rate is within the limit, and the rate. */
  datatype Verdict = Verdict(allowed: bool, rate: real)

  /** The windows Status asks the counter about at instant t. */
  function CurrentWindow(t: int, windowLength: int): int {
    Truncate(t, windowLength)
  }

  function PreviousWindow(t: int, windowLength: int): int {
    Truncate(t, windowLength) - windowLength
  }

  /**
   * Status at instant t, given what the counter's Get returned for the current and previous
   * windows: an error is passed on; otherwise the estimate, allowed when it is within the limit.
   */
  function StatusOf(requestLimit: int, windowLength: int, t: int, got: Result<Counts>): (r: Result<Verdict>)
    requires windowLength > 0
    ensures got.Err? ==> r == Err(got.error)
    ensures got.Ok? ==> r.Ok? && (r.value.allowed <==> r.value.rate <= requestLimit as real)
    ensures got.Ok? && got.value.prev >= 0 ==>
      got.value.curr as real <= r.value.rate <= (got.value.prev + got.value.curr) as real
    ensures got.Ok? ==> var diff := t - CurrentWindow(t, windowLength);
      r.value.rate * (windowLength as real)
        == (got.value.prev * (windowLength - diff) + got.value.curr * windowLength) as real
  {
    match got
    case Err(e) => Err(e)
    case Ok(c) =>
      var diff := t - CurrentWindow(t, windowLength);
      SlidingRateScaled(c.prev, c.curr, windowLength, diff);
      var rate := SlidingRate(c.prev, c.curr, windowLength, diff);
      Ok(Verdict(!(rate > requestLimit as real), rate))
  }

  /** A rate that rounds below the limit is one Status allows. */
  lemma RoundedBelowImpliesAllowed(rate: real, limit: int)
    requires rate >= 0.0 && Round(rate) < limit
    ensures rate <= limit as real
  {
  }

  /**
   * The converse fails: a rate of exactly limit - 1/2 is allowed by Status but rounds up to
   * the limit, so the handler rejects it (limit 5, one request in the previous window, four in
   * the current one, half-way through a window).
   */
  lemma AllowedYetRoundsToLimit()
    ensures var r := StatusOf(5, 2, 1, Ok(Counts(4, 1)));
      r.Ok? && r.value.allowed && Round(r.value.rate) == 5
  {
    assert SlidingRate(1, 4, 2, 1) == 4.5;
  }

  /** Five requests in the previous hour, none yet in this one, half an hour in: 2.5 rounds to 3. */
  lemma HalfHourExample()
    ensures Round(SlidingRate(5, 0, 3600 * NanosPerSecond, 1800 * NanosPerSecond)) == 3
  {
    assert SlidingRate(5, 0, 3600 * NanosPerSecond, 1800 * NanosPerSecond) == 2.5;
  }

  /** The estimate never falls as the current count grows, nor does its rounding. */
  lemma RoundedRateMonotoneInCount(prev: int, c1: int, c2: int, windowLength: int, diff: int)
    requires windowLength > 0 && 0 <= diff < windowLength && prev >= 0 && 0 <= c1 <= c2
    ensures Round(SlidingRate(prev, c1, windowLength, diff)) <= Round(SlidingRate(prev, c2, windowLength, diff))
  {
    var x1 := SlidingRate(prev, c1, windowLength, diff);
    var x2 := SlidingRate(prev, c2, windowLength, diff);
    assert x2 - x1 == (c2 - c1) as real;
    assert (x1 + 0.5).Floor <= (x2 + 0.5).Floor;
  }
}
