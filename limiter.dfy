/**
 * The rate limiter: construction from options with defaults, and the per-request Handler that
 * derives the key, sets the X-RateLimit-* headers and admits or rejects the request.
 */
module Limiter {
  import opened Base
  import opened GoFormat
  import opened GoTime
  import opened KeyDeriver
  import opened CounterStore
  import opened WindowEstimate

  /** Status codes the limiter writes: sections 3 and 4 of RFC 6585, and 500. */
  const StatusPreconditionRequired: int := 428
  const StatusTooManyRequests: int := 429
  const StatusInternalServerError: int := 500

  /** onRequestLimit: the default writes 429 with its status text; any other handler is opaque. */
  datatype LimitHandler = DefaultTooManyRequests | CustomHandler(name: string)

  /** How a request ends. Pending: nothing written yet. */
  datatype Outcome =
    | Pending
    | PreconditionRequired(msg: string)   // http.Error(w, err.Error(), 428)
    | LimitReached(handler: LimitHandler) // onRequestLimit(w, r) was called
    | InternalError(msg: string)          // http.Error(w, err.Error(), 500)
    | Forwarded                           // next.ServeHTTP(w, r) was called

  /** The status code the limiter itself writes; None where a handler it calls decides. */
  function StatusCode(o: Outcome): (code: Option<int>)
    ensures o.PreconditionRequired? ==> code == Some(428)
    ensures o == LimitReached(DefaultTooManyRequests) ==> code == Some(429)
    ensures o.InternalError? ==> code == Some(500)
    ensures o.Forwarded? || o.Pending? || (o.LimitReached? && o.handler.CustomHandler?) ==> code.None?
  {
    match o
    case PreconditionRequired(_) => Some(StatusPreconditionRequired)
    case LimitReached(DefaultTooManyRequests) => Some(StatusTooManyRequests)
    case InternalError(_) => Some(StatusInternalServerError)
    case _ => None
  }

  // ---------------------------------------------------------------------------------------
  // Key function of a limiter

  /** The limiter's keyFn: the default constant "*", or composedKeyFunc over a list. */
  datatype KeyFn = GlobalKey | ComposedKeys(funcs: seq<KeyFunc>)

  const GlobalKeyValue: string := "*"

  function DeriveSpec(fn: KeyFn, r: Request, net: NetLib): (res: Result<string>)
    ensures fn.GlobalKey? ==> res == Ok(GlobalKeyValue)
  {
    match fn
    case GlobalKey => Ok(GlobalKeyValue)
    case ComposedKeys(fs) => Composed(fs, r, net)
  }

  method DeriveKey(fn: KeyFn, r: Request, net: NetLib) returns (res: Result<string>)
    ensures res == DeriveSpec(fn, r, net)
  {
    match fn
    case GlobalKey =>
      res := Ok(GlobalKeyValue);
    case ComposedKeys(fs) =>
      res := ComposedKeyFunc(fs, r, net);
  }

  // ---------------------------------------------------------------------------------------
  // Options

  /** The library functions the model leaves uninterpreted: Go's net package and xxhash. */
  datatype Env = Env(net: NetLib, xxhash: string -> Hash64)

  /** An Option closure: WithKeyFuncs, WithLimitHandler or WithLimitCounter. */
  datatype LimiterOption =
    | WithKeyFuncs(funcs: seq<KeyFunc>)
    | WithLimitHandler(h: LimitHandler)
    | WithLimitCounter(c: LocalCounter)

  /** The fields options set, None while still nil. */
  datatype Settings = Settings(keyFn: Option<KeyFn>, counter: Option<LocalCounter>, onLimit: Option<LimitHandler>)

  const Unset: Settings := Settings(None, None, None)

  /** What running one option does to the fields. */
  function ApplyOption(s: Settings, o: LimiterOption): Settings {
    match o
    case WithKeyFuncs(fs) => if |fs| > 0 then s.(keyFn := Some(ComposedKeys(fs))) else s
    case WithLimitHandler(h) => s.(onLimit := Some(h))
    case WithLimitCounter(c) => s.(counter := Some(c))
  }

  /** Running the options in order. */
  function ApplyOptions(s: Settings, opts: seq<LimiterOption>): Settings {
    if opts == [] then s else ApplyOption(ApplyOptions(s, opts[..|opts| - 1]), opts[|opts| - 1])
  }

  /** WithKeyFuncs with no functions leaves keyFn as it was. */
  lemma EmptyKeyFuncsKeepsKey(s: Settings)
    ensures ApplyOption(s, WithKeyFuncs([])) == s
  {
  }

  lemma {:induction false} ApplyOptionsAppend(s: Settings, a: seq<LimiterOption>, b: seq<LimiterOption>)
    ensures ApplyOptions(s, a + b) == ApplyOptions(ApplyOptions(s, a), b)
    decreases |b|
  {
    if b == [] {
      assert a + b == a;
    } else {
      assert (a + b)[..|a + b| - 1] == a + b[..|b| - 1];
      ApplyOptionsAppend(s, a, b[..|b| - 1]);
    }
  }

  datatype Field = KeyField | CounterField | HandlerField

  /** The option writes the field. */
  predicate Touches(o: LimiterOption, f: Field) {
    match f
    case KeyField => o.WithKeyFuncs? && |o.funcs| > 0
    case CounterField => o.WithLimitCounter?
    case HandlerField => o.WithLimitHandler?
  }

  /** The field holds the same value in both. */
  ghost predicate Agree(a: Settings, b: Settings, f: Field) {
    match f
    case KeyField => a.keyFn == b.keyFn
    case CounterField => a.counter == b.counter
    case HandlerField => a.onLimit == b.onLimit
  }

  /** Options that do not write a field leave it as it was. */
  lemma {:induction false} UntouchedFieldKept(s: Settings, opts: seq<LimiterOption>, f: Field)
    requires forall i :: 0 <= i < |opts| ==> !Touches(opts[i], f)
    ensures Agree(ApplyOptions(s, opts), s, f)
  {
    if opts != [] {
      UntouchedFieldKept(s, opts[..|opts| - 1], f);
      assert !Touches(opts[|opts| - 1], f);
    }
  }

  /** A later option overrides an earlier one: the last option that writes a field decides it. */
  lemma LastWriterWins(s: Settings, before: seq<LimiterOption>, o: LimiterOption, after: seq<LimiterOption>, f: Field)
    requires Touches(o, f)
    requires forall i :: 0 <= i < |after| ==> !Touches(after[i], f)
    ensures Agree(ApplyOptions(s, before + [o] + after), ApplyOption(Unset, o), f)
  {
    ApplyOptionsAppend(s, before + [o], after);
    var mid := ApplyOptions(s, before + [o]);
    assert (before + [o])[..|before + [o]| - 1] == before;
    UntouchedFieldKept(mid, after, f);
  }

  // ---------------------------------------------------------------------------------------
  // The request decision

  /** `X-RateLimit-Remaining` for a rounded rate n. */
  function Remaining(limit: int, n: int): (rem: int)
    ensures rem >= 0 && rem >= limit - n
    ensures n >= 0 && limit >= 0 ==> rem <= limit
    ensures rem == 0 || rem == limit - n
  {
    if limit > n then limit - n else 0
  }

  /** The headers Handler sets, the way the request ends, and whether it called Increment. */
  datatype Reply = Reply(header: Header, outcome: Outcome, incremented: bool)

  /**
   * One run of Handler for a request, given: the headers already on the response, the key
   * derivation's result, the instant t Handler reads (line 215) and the instant ts Status
   * reads (line 189), what the counter's Get returned, and the error Increment would return.
   */
  function Serve(limit: int, windowLength: int, onLimit: LimitHandler, header: Header, keyRes: Result<string>,
                 t: int, ts: int, got: Result<Counts>, incErr: Option<string>): (r: Reply)
    requires windowLength > 0
    ensures keyRes.Err? ==> r == Reply(header, PreconditionRequired(keyRes.error), false)
    ensures keyRes.Ok? && got.Err? ==> r.outcome == PreconditionRequired(got.error) && !r.incremented
    ensures r.incremented <==> keyRes.Ok? && got.Ok? && RoundedRate(windowLength, ts, got.value) < limit
    ensures r.incremented ==> r.outcome == (if incErr.Some? then InternalError(incErr.value) else Forwarded)
    ensures keyRes.Ok? && got.Ok? && !r.incremented ==> r.outcome == LimitReached(onLimit)
  {
    match keyRes
    case Err(e) => Reply(header, PreconditionRequired(e), false)
    case Ok(_) =>
      var h1 := WindowHeaders(header, limit, windowLength, t);
      match StatusOf(limit, windowLength, ts, got)
      case Err(e) => Reply(h1, PreconditionRequired(e), false)
      case Ok(v) => Decide(limit, windowLength, onLimit, h1, Round(v.rate), incErr)
  }

  /** The three headers Handler sets before calling Status, Remaining still at 0. */
  function WindowHeaders(header: Header, limit: int, windowLength: int, t: int): (h: Header)
    ensures h.Keys == header.Keys + {"X-RateLimit-Limit", "X-RateLimit-Remaining", "X-RateLimit-Reset"}
    ensures h["X-RateLimit-Limit"] == Decimal(limit) && h["X-RateLimit-Remaining"] == Decimal(0)
    ensures h["X-RateLimit-Reset"] == Decimal(UnixSeconds(Truncate(t, windowLength) + windowLength))
    ensures forall k :: (k in header && k != "X-RateLimit-Limit" && k != "X-RateLimit-Remaining"
                         && k != "X-RateLimit-Reset") ==> h[k] == header[k]
  {
    header["X-RateLimit-Limit" := Decimal(limit)]
          ["X-RateLimit-Remaining" := Decimal(0)]
          ["X-RateLimit-Reset" := Decimal(UnixSeconds(Truncate(t, windowLength) + windowLength))]
  }

  /** Handler's steps after Status: raise Remaining, then reject or increment and forward. */
  function Decide(limit: int, windowLength: int, onLimit: LimitHandler, h1: Header, n: int, incErr: Option<string>): (r: Reply)
    requires windowLength > 0
    ensures r.incremented <==> n < limit
    ensures r.header.Keys == h1.Keys + (if limit > n then {"X-RateLimit-Remaining"} else {})
                                     + (if n >= limit then {"Retry-After"} else {})
    ensures limit > n ==> r.header["X-RateLimit-Remaining"] == Decimal(Remaining(limit, n))
    ensures forall k :: k in h1 && !(n >= limit && k == "Retry-After") && !(limit > n && k == "X-RateLimit-Remaining")
                        ==> r.header[k] == h1[k]
    ensures n >= limit ==> r.outcome == LimitReached(onLimit) && r.header["Retry-After"] == Decimal(WholeSeconds(windowLength))
    ensures n < limit ==> r.outcome == (if incErr.Some? then InternalError(incErr.value) else Forwarded)
  {
    var h2 := if limit > n then h1["X-RateLimit-Remaining" := Decimal(limit - n)] else h1;
    if n >= limit then
      Reply(h2["Retry-After" := Decimal(WholeSeconds(windowLength))], LimitReached(onLimit), false)
    else
      Reply(h2, if incErr.Some? then InternalError(incErr.value) else Forwarded, true)
  }

  /** The rounded rate Handler compares with the limit, when Get succeeded. */
  function RoundedRate(windowLength: int, ts: int, c: Counts): int
    requires windowLength > 0
  {
    Round(SlidingRate(c.prev, c.curr, windowLength, ts - CurrentWindow(ts, windowLength)))
  }

  /** Once the key and the counts are in hand, Serve is Decide on the rounded rate. */
  lemma ServeWithCounts(limit: int, windowLength: int, onLimit: LimitHandler, header: Header, key: string,
                        t: int, ts: int, c: Counts, rate: real)
    requires windowLength > 0
    requires StatusOf(limit, windowLength, ts, Ok(c)).Ok? && StatusOf(limit, windowLength, ts, Ok(c)).value.rate == rate
    ensures Serve(limit, windowLength, onLimit, header, Ok(key), t, ts, Ok(c), None)
      == Decide(limit, windowLength, onLimit, WindowHeaders(header, limit, windowLength, t), Round(rate), None)
  {
  }

  const RateLimitHeaders: set<string> := {"X-RateLimit-Limit", "X-RateLimit-Remaining", "X-RateLimit-Reset", "Retry-After"}

  /** A failed key derivation ends in 428; Handler itself sets no header and does not Increment. */
  lemma KeyFailureRejects(limit: int, windowLength: int, onLimit: LimitHandler, header: Header, keyRes: Result<string>,
                          t: int, ts: int, got: Result<Counts>, incErr: Option<string>)
    requires windowLength > 0 && keyRes.Err?
    ensures Serve(limit, windowLength, onLimit, header, keyRes, t, ts, got, incErr)
      == Reply(header, PreconditionRequired(keyRes.error), false)
    ensures StatusCode(PreconditionRequired(keyRes.error)) == Some(428)
  {
  }

  /**
   * Once a key is derived: X-RateLimit-Limit is the limit, X-RateLimit-Reset the Unix time of
   * the end of t's window, X-RateLimit-Remaining max(0, limit - rounded rate) (0 when Get
   * failed), and Handler itself sets no header other than these and Retry-After.
   */
  lemma HeadersOfEvaluatedRequest(limit: int, windowLength: int, onLimit: LimitHandler, header: Header, keyRes: Result<string>,
                                  t: int, ts: int, got: Result<Counts>, incErr: Option<string>)
    requires windowLength > 0 && keyRes.Ok?
    ensures var h := Serve(limit, windowLength, onLimit, header, keyRes, t, ts, got, incErr).header;
      && h["X-RateLimit-Limit"] == Decimal(limit)
      && h["X-RateLimit-Reset"] == Decimal(UnixSeconds(Truncate(t, windowLength) + windowLength))
      && h["X-RateLimit-Remaining"] == Decimal(if got.Ok? then Remaining(limit, RoundedRate(windowLength, ts, got.value)) else 0)
      && h.Keys == header.Keys + {"X-RateLimit-Limit", "X-RateLimit-Remaining", "X-RateLimit-Reset"}
           + (if "Retry-After" in h then {"Retry-After"} else {})
      && (forall k :: k in header && k !in RateLimitHeaders ==> h[k] == header[k])
  {
  }

  /** An error from the counter's Get ends in 428, without Increment and without Retry-After. */
  lemma GetFailureRejects(limit: int, windowLength: int, onLimit: LimitHandler, header: Header, keyRes: Result<string>,
                          t: int, ts: int, got: Result<Counts>, incErr: Option<string>)
    requires windowLength > 0 && keyRes.Ok? && got.Err?
    ensures var rep := Serve(limit, windowLength, onLimit, header, keyRes, t, ts, got, incErr);
      && rep.outcome == PreconditionRequired(got.error)
      && !rep.incremented
      && ("Retry-After" in rep.header <==> "Retry-After" in header)
  {
  }

  /**
   * The admission decision: with non-negative counts, Handler increments exactly when
   * `2*(prev*(W-diff) + curr*W) < (2*limit-1)*W`. An admitted request goes to next, or ends in
   * 500 if Increment fails; a rejected one gets Retry-After (the window in whole seconds) and
   * the limit handler, 429 by default.
   */
  lemma AdmissionDecision(limit: int, windowLength: int, onLimit: LimitHandler, header: Header, keyRes: Result<string>,
                          t: int, ts: int, c: Counts, incErr: Option<string>)
    requires windowLength > 0 && keyRes.Ok? && c.curr >= 0 && c.prev >= 0
    ensures var rep := Serve(limit, windowLength, onLimit, header, keyRes, t, ts, Ok(c), incErr);
      var diff := ts - Truncate(ts, windowLength);
      && (rep.incremented <==>
            2 * (c.prev * (windowLength - diff) + c.curr * windowLength) < (2 * limit - 1) * windowLength)
      && (rep.incremented ==> rep.outcome == (if incErr.Some? then InternalError(incErr.value) else Forwarded))
      && (rep.incremented ==> ("Retry-After" in rep.header <==> "Retry-After" in header))
      && (!rep.incremented ==> rep.outcome == LimitReached(onLimit))
      && (!rep.incremented ==> rep.header["Retry-After"] == Decimal(WholeSeconds(windowLength)))
      && (!rep.incremented && onLimit == DefaultTooManyRequests ==> StatusCode(rep.outcome) == Some(429))
  {
    var diff := ts - Truncate(ts, windowLength);
    RoundedRateReachesLimit(c.prev, c.curr, windowLength, diff, limit);
  }

  /** A window that already holds `limit` requests rejects every further one. */
  lemma FullWindowRejects(limit: int, windowLength: int, onLimit: LimitHandler, header: Header, keyRes: Result<string>,
                          t: int, ts: int, c: Counts, incErr: Option<string>)
    requires windowLength > 0 && keyRes.Ok? && c.prev >= 0 && c.curr >= 0 && c.curr >= limit
    ensures var rep := Serve(limit, windowLength, onLimit, header, keyRes, t, ts, Ok(c), incErr);
      !rep.incremented && rep.outcome == LimitReached(onLimit)
  {
    var diff := ts - Truncate(ts, windowLength);
    var x := SlidingRate(c.prev, c.curr, windowLength, diff);
    assert x >= c.curr as real;
    RoundReaches(x, limit);
  }

  /** With no requests in the previous window, a request is admitted exactly while fewer than `limit` were. */
  lemma QuietPreviousWindow(limit: int, windowLength: int, onLimit: LimitHandler, header: Header, keyRes: Result<string>,
                            t: int, ts: int, curr: int, incErr: Option<string>)
    requires windowLength > 0 && keyRes.Ok? && curr >= 0
    ensures Serve(limit, windowLength, onLimit, header, keyRes, t, ts, Ok(Counts(curr, 0)), incErr).incremented
      <==> curr < limit
  {
    var diff := ts - Truncate(ts, windowLength);
    assert SlidingRate(0, curr, windowLength, diff) == curr as real;
    RoundReaches(curr as real, limit);
  }

  /** The counts the local counter's Get reports for key at instant ts. */
  function LocalCounts(s: Store, hash: string -> Hash64, key: string, ts: int, windowLength: int): (c: Counts)
    ensures Positive(s) ==> c.curr >= 0 && c.prev >= 0
  {
    Counts(CountAt(s, LimitCounterKey(hash, key, CurrentWindow(ts, windowLength))),
           CountAt(s, LimitCounterKey(hash, key, PreviousWindow(ts, windowLength))))
  }

  lemma {:induction false} IncrementAllPositive(s: Store, windowLength: int, slot: Hash64, times: seq<int>)
    requires Positive(s)
    ensures Positive(IncrementAll(s, windowLength, slot, times))
  {
    if times != [] {
      IncrementAllPositive(s, windowLength, slot, times[..|times| - 1]);
      IncrementedPositive(IncrementAll(s, windowLength, slot, times[..|times| - 1]), windowLength, slot, times[|times| - 1]);
    }
  }

  /**
   * Sequentially, the request after `limit` admitted ones in the same window is rejected: once
   * a key's slot for a window has been incremented `limit` times (no two increments 3 windows
   * apart), a request in that window is rejected.
   */
  lemma LimitPlusOneRejected(s: Store, hash: string -> Hash64, limit: int, windowLength: int, key: string,
                             times: seq<int>, t: int, ts: int, onLimit: LimitHandler, header: Header)
    requires windowLength > 0 && Positive(s) && |times| >= limit
    requires LimitCounterKey(hash, key, CurrentWindow(ts, windowLength)) !in s.counters
    requires forall i :: 0 < i < |times| ==> times[i] - times[i - 1] < windowLength * StaleWindows
    ensures var slot := LimitCounterKey(hash, key, CurrentWindow(ts, windowLength));
      var s' := IncrementAll(s, windowLength, slot, times);
      var rep := Serve(limit, windowLength, onLimit, header, Ok(key), t, ts, Ok(LocalCounts(s', hash, key, ts, windowLength)), None);
      !rep.incremented && rep.outcome == LimitReached(onLimit)
  {
    var slot := LimitCounterKey(hash, key, CurrentWindow(ts, windowLength));
    var s' := IncrementAll(s, windowLength, slot, times);
    CountsIncrements(s, windowLength, slot, times);
    IncrementAllPositive(s, windowLength, slot, times);
    var c := LocalCounts(s', hash, key, ts, windowLength);
    FullWindowRejects(limit, windowLength, onLimit, header, Ok(key), t, ts, c, None);
  }

  /**
   * With no requests in the previous window and n in the current one, the reply in full:
   * below the limit the request is counted and forwarded with `limit - n` remaining; at or
   * above it, it is rejected with 0 remaining and Retry-After set.
   */
  lemma QuietWindowReply(limit: int, windowLength: int, onLimit: LimitHandler, header: Header, key: string,
                         t: int, ts: int, n: int)
    requires windowLength > 0 && n >= 0
    ensures RoundedRate(windowLength, ts, Counts(n, 0)) == n
    ensures var rep := Serve(limit, windowLength, onLimit, header, Ok(key), t, ts, Ok(Counts(n, 0)), None);
      && (n < limit ==> rep.incremented && rep.outcome == Forwarded
                        && rep.header["X-RateLimit-Remaining"] == Decimal(limit - n))
      && (n >= limit ==> !rep.incremented && rep.outcome == LimitReached(onLimit)
                         && rep.header["X-RateLimit-Remaining"] == Decimal(0)
                         && rep.header["Retry-After"] == Decimal(WholeSeconds(windowLength)))
  {
    var diff := ts - CurrentWindow(ts, windowLength);
    assert SlidingRate(0, n, windowLength, diff) == n as real;
    assert RoundedRate(windowLength, ts, Counts(n, 0)) == n;
    HeadersOfEvaluatedRequest(limit, windowLength, onLimit, header, Ok(key), t, ts, Ok(Counts(n, 0)), None);
  }

  /** The hash gives distinct values to the four texts the scenario below hashes. */
  ghost predicate SeparatesSlots(hash: string -> Hash64) {
    var W := 60 * NanosPerSecond;
    var texts := {KeyText("k", 0), KeyText("k", -W), KeyText("other", 0), KeyText("other", -W)};
    forall a, b :: a in texts && b in texts && a != b ==> hash(a) != hash(b)
  }

  /** Instants 0 s, 10 s and 20 s all fall in the one-minute window that starts at 0. */
  lemma MinuteScenarioWindows()
    ensures forall t :: t in {0, 10 * NanosPerSecond, 20 * NanosPerSecond} ==>
      CurrentWindow(t, 60 * NanosPerSecond) == 0 && PreviousWindow(t, 60 * NanosPerSecond) == -60 * NanosPerSecond
  {
  }

  /** The store after A and B: one entry, for "k" in the current window, holding 2. */
  lemma MinuteScenarioStores(k0: Hash64)
    ensures var W := 60 * NanosPerSecond;
      var s1 := Incremented(Store(map[], 0), W, k0, 0);
      s1 == Store(map[k0 := Count(1, 0)], 0)
      && Incremented(s1, W, k0, 10 * NanosPerSecond) == Store(map[k0 := Count(2, 10 * NanosPerSecond)], 0)
  {
    var W := 60 * NanosPerSecond;
    var s0 := Store(map[], 0);
    assert Evicted(s0, W, 0) == s0;
    var s1 := Incremented(s0, W, k0, 0);
    assert s1 == Store(map[k0 := Count(1, 0)], 0);
    assert Evicted(s1, W, 10 * NanosPerSecond) == s1;
  }

  /** The counts the local counter reports during the scenario below. */
  lemma MinuteScenarioCounts(hash: string -> Hash64)
    requires SeparatesSlots(hash)
    ensures var W := 60 * NanosPerSecond;
      var k0 := LimitCounterKey(hash, "k", 0);
      var s0 := Store(map[], 0);
      var s1 := Incremented(s0, W, k0, 0);
      var s2 := Incremented(s1, W, k0, 10 * NanosPerSecond);
      && LocalCounts(s0, hash, "k", 0, W) == Counts(0, 0)
      && LocalCounts(s1, hash, "k", 10 * NanosPerSecond, W) == Counts(1, 0)
      && LocalCounts(s2, hash, "k", 20 * NanosPerSecond, W) == Counts(2, 0)
      && LocalCounts(s2, hash, "other", 20 * NanosPerSecond, W) == Counts(0, 0)
  {
    var W := 60 * NanosPerSecond;
    MinuteScenarioWindows();
    MinuteScenarioStores(LimitCounterKey(hash, "k", 0));
    assert UnixSeconds(-W) != UnixSeconds(0);
    if KeyText("k", -W) == KeyText("k", 0) {
      KeyTextEqualLengthKeys("k", -W, "k", 0);
    }
    assert KeyText("other", 0)[0] == 'o' && KeyText("other", -W)[0] == 'o' && KeyText("k", 0)[0] == 'k';
  }

  /**
   * A request of the scenario below, limit 2 per minute, at instant t, for a key whose slots in
   * store s hold n < 2 requests in the current window and none in the previous one: admitted.
   */
  lemma MinuteScenarioAdmitted(hash: string -> Hash64, s: Store, key: string, t: int, n: int)
    requires 0 <= n < 2 && LocalCounts(s, hash, key, t, 60 * NanosPerSecond) == Counts(n, 0)
    ensures var r := Serve(2, 60 * NanosPerSecond, DefaultTooManyRequests, map[], Ok(key), t, t,
                           Ok(LocalCounts(s, hash, key, t, 60 * NanosPerSecond)), None);
      r.incremented && r.outcome == Forwarded && r.header["X-RateLimit-Remaining"] == Decimal(2 - n)
  {
    QuietWindowReply(2, 60 * NanosPerSecond, DefaultTooManyRequests, map[], key, t, t, n);
  }

  /** As above, with n >= 2 requests already in the current window: rejected with 429. */
  lemma MinuteScenarioRejected(hash: string -> Hash64, s: Store, key: string, t: int, n: int)
    requires n >= 2 && LocalCounts(s, hash, key, t, 60 * NanosPerSecond) == Counts(n, 0)
    ensures var r := Serve(2, 60 * NanosPerSecond, DefaultTooManyRequests, map[], Ok(key), t, t,
                           Ok(LocalCounts(s, hash, key, t, 60 * NanosPerSecond)), None);
      && !r.incremented && StatusCode(r.outcome) == Some(429)
      && r.header["X-RateLimit-Remaining"] == Decimal(0) && r.header["Retry-After"] == Decimal(60)
  {
    QuietWindowReply(2, 60 * NanosPerSecond, DefaultTooManyRequests, map[], key, t, t, n);
    assert WholeSeconds(60 * NanosPerSecond) == 60;
  }

  /** Request A of the scenario below: admitted, reading Remaining 2. */
  lemma MinuteScenarioA(hash: string -> Hash64)
    requires SeparatesSlots(hash)
    ensures var s := Store(map[], 0);
      var r := Serve(2, 60 * NanosPerSecond, DefaultTooManyRequests, map[], Ok("k"), 0, 0,
                     Ok(LocalCounts(s, hash, "k", 0, 60 * NanosPerSecond)), None);
      r.incremented && r.outcome == Forwarded && r.header["X-RateLimit-Remaining"] == Decimal(2)
  {
    var s := Store(map[], 0);
    MinuteScenarioCounts(hash);
    MinuteScenarioAdmitted(hash, s, "k", 0, 0);
  }

  /** Request B of the scenario below: admitted, reading Remaining 1. */
  lemma MinuteScenarioB(hash: string -> Hash64)
    requires SeparatesSlots(hash)
    ensures var s := Incremented(Store(map[], 0), 60 * NanosPerSecond, LimitCounterKey(hash, "k", 0), 0);
      var r := Serve(2, 60 * NanosPerSecond, DefaultTooManyRequests, map[], Ok("k"), 10 * NanosPerSecond, 10 * NanosPerSecond,
                     Ok(LocalCounts(s, hash, "k", 10 * NanosPerSecond, 60 * NanosPerSecond)), None);
      r.incremented && r.outcome == Forwarded && r.header["X-RateLimit-Remaining"] == Decimal(1)
  {
    var s := Incremented(Store(map[], 0), 60 * NanosPerSecond, LimitCounterKey(hash, "k", 0), 0);
    MinuteScenarioCounts(hash);
    MinuteScenarioAdmitted(hash, s, "k", 10 * NanosPerSecond, 1);
  }

  /** Request C of the scenario below: rejected with 429, Remaining 0 and Retry-After 60. */
  lemma MinuteScenarioC(hash: string -> Hash64)
    requires SeparatesSlots(hash)
    ensures var s := Incremented(Incremented(Store(map[], 0), 60 * NanosPerSecond, LimitCounterKey(hash, "k", 0), 0),
                         60 * NanosPerSecond, LimitCounterKey(hash, "k", 0), 10 * NanosPerSecond);
      var r := Serve(2, 60 * NanosPerSecond, DefaultTooManyRequests, map[], Ok("k"), 20 * NanosPerSecond, 20 * NanosPerSecond,
                     Ok(LocalCounts(s, hash, "k", 20 * NanosPerSecond, 60 * NanosPerSecond)), None);
      && !r.incremented && StatusCode(r.outcome) == Some(429)
      && r.header["X-RateLimit-Remaining"] == Decimal(0) && r.header["Retry-After"] == Decimal(60)
  {
    var s := Incremented(Incremented(Store(map[], 0), 60 * NanosPerSecond, LimitCounterKey(hash, "k", 0), 0),
                         60 * NanosPerSecond, LimitCounterKey(hash, "k", 0), 10 * NanosPerSecond);
    MinuteScenarioCounts(hash);
    MinuteScenarioRejected(hash, s, "k", 20 * NanosPerSecond, 2);
  }

  /** Request D of the scenario below: another key, admitted, reading Remaining 2. */
  lemma MinuteScenarioD(hash: string -> Hash64)
    requires SeparatesSlots(hash)
    ensures var s := Incremented(Incremented(Store(map[], 0), 60 * NanosPerSecond, LimitCounterKey(hash, "k", 0), 0),
                         60 * NanosPerSecond, LimitCounterKey(hash, "k", 0), 10 * NanosPerSecond);
      var r := Serve(2, 60 * NanosPerSecond, DefaultTooManyRequests, map[], Ok("other"), 20 * NanosPerSecond, 20 * NanosPerSecond,
                     Ok(LocalCounts(s, hash, "other", 20 * NanosPerSecond, 60 * NanosPerSecond)), None);
      r.incremented && r.outcome == Forwarded && r.header["X-RateLimit-Remaining"] == Decimal(2)
  {
    var s := Incremented(Incremented(Store(map[], 0), 60 * NanosPerSecond, LimitCounterKey(hash, "k", 0), 0),
                         60 * NanosPerSecond, LimitCounterKey(hash, "k", 0), 10 * NanosPerSecond);
    MinuteScenarioCounts(hash);
    MinuteScenarioAdmitted(hash, s, "other", 20 * NanosPerSecond, 0);
  }

  /**
   * Limit 2 per minute, an empty local counter, requests A, B and C for key "k" at 0 s, 10 s
   * and 20 s into a window and D for key "other" at 20 s: A and B are admitted, C is rejected
   * with Retry-After 60 and 429, D is admitted. Remaining is computed before the increment, so
   * A reads 2 and B reads 1. The hash is assumed to separate the slots involved.
   */
  lemma MinuteScenario(hash: string -> Hash64)
    requires SeparatesSlots(hash)
    ensures var W := 60 * NanosPerSecond;
      var k0 := LimitCounterKey(hash, "k", 0);
      var s0 := Store(map[], 0);
      var a := Serve(2, W, DefaultTooManyRequests, map[], Ok("k"), 0, 0, Ok(LocalCounts(s0, hash, "k", 0, W)), None);
      var s1 := Incremented(s0, W, k0, 0);
      var b := Serve(2, W, DefaultTooManyRequests, map[], Ok("k"), 10 * NanosPerSecond, 10 * NanosPerSecond,
                     Ok(LocalCounts(s1, hash, "k", 10 * NanosPerSecond, W)), None);
      var s2 := Incremented(s1, W, k0, 10 * NanosPerSecond);
      var c := Serve(2, W, DefaultTooManyRequests, map[], Ok("k"), 20 * NanosPerSecond, 20 * NanosPerSecond,
                     Ok(LocalCounts(s2, hash, "k", 20 * NanosPerSecond, W)), None);
      var d := Serve(2, W, DefaultTooManyRequests, map[], Ok("other"), 20 * NanosPerSecond, 20 * NanosPerSecond,
                     Ok(LocalCounts(s2, hash, "other", 20 * NanosPerSecond, W)), None);
      && a.incremented && a.outcome == Forwarded && a.header["X-RateLimit-Remaining"] == Decimal(2)
      && b.incremented && b.outcome == Forwarded && b.header["X-RateLimit-Remaining"] == Decimal(1)
      && !c.incremented && StatusCode(c.outcome) == Some(429)
      && c.header["X-RateLimit-Remaining"] == Decimal(0) && c.header["Retry-After"] == Decimal(60)
      && d.incremented && d.outcome == Forwarded && d.header["X-RateLimit-Remaining"] == Decimal(2)
  {
    MinuteScenarioA(hash);
    MinuteScenarioB(hash);
    MinuteScenarioC(hash);
    MinuteScenarioD(hash);
  }

  /** The hash gives "k" different slots in the one-minute windows starting at -1 min and 0. */
  ghost predicate KeySlotsDiffer(hash: string -> Hash64) {
    LimitCounterKey(hash, "k", -60 * NanosPerSecond) != LimitCounterKey(hash, "k", 0)
  }

  /** Instants 0 s and 30 s fall in the one-minute window that starts at 0. */
  lemma RemainingCanRiseWindows()
    ensures CurrentWindow(0, 60 * NanosPerSecond) == 0 && PreviousWindow(0, 60 * NanosPerSecond) == -60 * NanosPerSecond
    ensures CurrentWindow(30 * NanosPerSecond, 60 * NanosPerSecond) == 0
    ensures PreviousWindow(30 * NanosPerSecond, 60 * NanosPerSecond) == -60 * NanosPerSecond
  {
  }

  /**
   * The counts the local counter reports in the scenario below: a store holding four requests
   * of "k" in the previous one-minute window, before and after a request at the window's start.
   */
  lemma RemainingCanRiseCounts(hash: string -> Hash64)
    requires KeySlotsDiffer(hash)
    ensures var W := 60 * NanosPerSecond;
      var s0 := Store(map[LimitCounterKey(hash, "k", -W) := Count(4, -30 * NanosPerSecond)], 0);
      var s1 := Incremented(s0, W, LimitCounterKey(hash, "k", 0), 0);
      && LocalCounts(s0, hash, "k", 0, W) == Counts(0, 4)
      && LocalCounts(s1, hash, "k", 30 * NanosPerSecond, W) == Counts(1, 4)
  {
    var W := 60 * NanosPerSecond;
    RemainingCanRiseWindows();
    var s0 := Store(map[LimitCounterKey(hash, "k", -W) := Count(4, -30 * NanosPerSecond)], 0);
    assert Evicted(s0, W, 0) == s0;
  }

  /** An estimate whose scaled numerator is a whole multiple k of W is exactly k. */
  lemma WholeRate(prev: int, curr: int, windowLength: int, diff: int, k: int)
    requires windowLength > 0 && prev * (windowLength - diff) + curr * windowLength == k * windowLength
    ensures SlidingRate(prev, curr, windowLength, diff) == k as real
  {
    var x := SlidingRate(prev, curr, windowLength, diff);
    var w := windowLength as real;
    SlidingRateScaled(prev, curr, windowLength, diff);
    CastProduct(k, windowLength);
    assert (x - k as real) * w == 0.0;
  }

  /** The rounded rates of the scenario below: 4 at the window's start, 3 half-way through. */
  lemma RemainingCanRiseRates()
    ensures RoundedRate(60 * NanosPerSecond, 0, Counts(0, 4)) == 4
    ensures RoundedRate(60 * NanosPerSecond, 30 * NanosPerSecond, Counts(1, 4)) == 3
  {
    var W := 60 * NanosPerSecond;
    assert CurrentWindow(0, W) == 0 && CurrentWindow(30 * NanosPerSecond, W) == 0;
    WholeRate(4, 0, W, 0, 4);
    WholeRate(4, 1, W, 30 * NanosPerSecond, 3);
  }

  /** A request of "k" under limit 5 per minute, reading counts c from store s, that rounds below the limit. */
  lemma RemainingCanRiseReply(hash: string -> Hash64, s: Store, t: int, c: Counts)
    requires c.curr >= 0 && c.prev >= 0 && LocalCounts(s, hash, "k", t, 60 * NanosPerSecond) == c
    requires RoundedRate(60 * NanosPerSecond, t, c) < 5
    ensures var r := Serve(5, 60 * NanosPerSecond, DefaultTooManyRequests, map[], Ok("k"), t, t,
                           Ok(LocalCounts(s, hash, "k", t, 60 * NanosPerSecond)), None);
      r.incremented && r.header["X-RateLimit-Remaining"] == Decimal(5 - RoundedRate(60 * NanosPerSecond, t, c))
  {
    HeadersOfEvaluatedRequest(5, 60 * NanosPerSecond, DefaultTooManyRequests, map[], Ok("k"), t, t, Ok(c), None);
  }

  /**
   * X-RateLimit-Remaining is not monotone within a window, even for consecutive requests of one
   * key: with limit 5 per minute and four requests of the key in the previous window, a request
   * at the start of the window reads 1 and is counted; the next one, half-way through the
   * window, reads the store that request left, sees it in the current window, and still reads
   * 2, as the previous window's weight has halved. The hash is assumed to give the key's two
   * slots different values.
   */
  lemma RemainingCanRise(hash: string -> Hash64)
    requires KeySlotsDiffer(hash)
    ensures var W := 60 * NanosPerSecond;
      var s0 := Store(map[LimitCounterKey(hash, "k", -W) := Count(4, -30 * NanosPerSecond)], 0);
      var early := Serve(5, W, DefaultTooManyRequests, map[], Ok("k"), 0, 0, Ok(LocalCounts(s0, hash, "k", 0, W)), None);
      var s1 := Incremented(s0, W, LimitCounterKey(hash, "k", 0), 0);
      var later := Serve(5, W, DefaultTooManyRequests, map[], Ok("k"), 30 * NanosPerSecond, 30 * NanosPerSecond,
                         Ok(LocalCounts(s1, hash, "k", 30 * NanosPerSecond, W)), None);
      && early.incremented && early.header["X-RateLimit-Remaining"] == Decimal(1)
      && later.incremented && later.header["X-RateLimit-Remaining"] == Decimal(2)
  {
    var W := 60 * NanosPerSecond;
    var s0 := Store(map[LimitCounterKey(hash, "k", -W) := Count(4, -30 * NanosPerSecond)], 0);
    RemainingCanRiseCounts(hash);
    RemainingCanRiseRates();
    RemainingCanRiseReply(hash, s0, 0, Counts(0, 4));
    RemainingCanRiseReply(hash, Incremented(s0, W, LimitCounterKey(hash, "k", 0), 0), 30 * NanosPerSecond, Counts(1, 4));
  }

  // ---------------------------------------------------------------------------------------
  // The objects

  /** The response: its header map and how the request ended. */
  class ResponseWriter {
    var header: Header
    var outcome: Outcome

    constructor (header: Header)
      ensures this.header == header && outcome == Pending
    {
      this.header := header;
      outcome := Pending;
    }

    /** `w.Header().Set(name, value)` */
    method Set(name: string, value: string)
      modifies this
      ensures header == old(header)[name := value] && outcome == old(outcome)
    {
      header := header[name := value];
    }
  }

  /** rateLimiter: its limit and window, and the fields options fill in. */
  class RateLimiter {
    const requestLimit: int
    const windowLength: int
    const env: Env
    var keyFn: Option<KeyFn>
    var limitCounter: LocalCounter?
    var onRequestLimit: Option<LimitHandler>

    /** After construction every field is set. */
    ghost predicate Valid()
      reads this
    {
      windowLength > 0 && keyFn.Some? && limitCounter != null && onRequestLimit.Some?
    }

    function Configured(): Settings
      reads this
    {
      Settings(keyFn, if limitCounter == null then None else Some(limitCounter), onRequestLimit)
    }

    /** `&rateLimiter{requestLimit, windowLength}`: no option applied yet. */
    constructor (requestLimit: int, windowLength: int, env: Env)
      ensures this.requestLimit == requestLimit && this.windowLength == windowLength && this.env == env
      ensures Configured() == Unset
    {
      this.requestLimit := requestLimit;
      this.windowLength := windowLength;
      this.env := env;
      keyFn := None;
      limitCounter := null;
      onRequestLimit := None;
    }

    /** `opt(rl)` */
    method Apply(opt: LimiterOption)
      modifies this
      ensures Configured() == ApplyOption(old(Configured()), opt)
    {
      match opt
      case WithKeyFuncs(fs) =>
        if |fs| > 0 {
          keyFn := Some(ComposedKeys(fs));
        }
      case WithLimitHandler(h) =>
        onRequestLimit := Some(h);
      case WithLimitCounter(c) =>
        limitCounter := c;
    }

    /** Status, with the clock read as ts. */
    method Status(key: string, ts: int) returns (allowed: bool, rate: real)
      requires Valid()
      ensures StatusOf(requestLimit, windowLength, ts, Ok(LocalCounts(limitCounter.State(), limitCounter.hash, key, ts, windowLength)))
        == Ok(Verdict(allowed, rate))
    {
      var currentWindow := Truncate(ts, windowLength);
      var previousWindow := currentWindow - windowLength;
      var currCount, prevCount := limitCounter.Get(key, currentWindow, previousWindow);
      var diff := ts - currentWindow;
      rate := SlidingRate(prevCount, currCount, windowLength, diff);
      allowed := !(rate > requestLimit as real);
    }

    /**
     * The function Handler wraps around next, for one request. The clock is read three times:
     * t when Handler computes the window (line 215), ts inside Status, ti inside Increment.
     * The local counter's Get and Increment never fail, so the 428 after Status and the 500
     * after Increment are reached only with other counters; Serve covers them.
     */
    method Handler(w: ResponseWriter, r: Request, t: int, ts: int, ti: int)
      requires Valid()
      modifies w, limitCounter
      ensures var keyRes := DeriveSpec(keyFn.value, r, env.net);
        var c := if keyRes.Ok?
                 then LocalCounts(old(limitCounter.State()), limitCounter.hash, keyRes.value, ts, windowLength)
                 else Counts(0, 0);
        var rep := Serve(requestLimit, windowLength, onRequestLimit.value, old(w.header), keyRes, t, ts, Ok(c), None);
        && w.header == rep.header
        && w.outcome == rep.outcome
        && limitCounter.State() ==
             (if rep.incremented
              then Incremented(old(limitCounter.State()), limitCounter.windowLength,
                               LimitCounterKey(limitCounter.hash, keyRes.value, Truncate(t, windowLength)), ti)
              else old(limitCounter.State()))
    {
      var keyRes := DeriveKey(keyFn.value, r, env.net);
      if keyRes.Err? {
        w.outcome := PreconditionRequired(keyRes.error);
        return;
      }
      Admission(w, keyRes.value, t, ts, ti);
    }

    /** Handler once the key is known: headers, Status, then reject or increment and forward. */
    method Admission(w: ResponseWriter, key: string, t: int, ts: int, ti: int)
      requires Valid()
      modifies w, limitCounter
      ensures var c := LocalCounts(old(limitCounter.State()), limitCounter.hash, key, ts, windowLength);
        var rep := Serve(requestLimit, windowLength, onRequestLimit.value, old(w.header), Ok(key), t, ts, Ok(c), None);
        && w.header == rep.header
        && w.outcome == rep.outcome
        && limitCounter.State() ==
             (if rep.incremented
              then Incremented(old(limitCounter.State()), limitCounter.windowLength,
                               LimitCounterKey(limitCounter.hash, key, Truncate(t, windowLength)), ti)
              else old(limitCounter.State()))
    {
      ghost var c := LocalCounts(limitCounter.State(), limitCounter.hash, key, ts, windowLength);
      SetWindowHeaders(w, t);
      var _, rate := Status(key, ts);
      var nrate := Round(rate);
      ServeWithCounts(requestLimit, windowLength, onRequestLimit.value, old(w.header), key, t, ts, c, rate);
      Conclude(w, key, Truncate(t, windowLength), nrate, ti);
    }

    /** The three headers Handler sets once the key is known, Remaining still at 0. */
    method SetWindowHeaders(w: ResponseWriter, t: int)
      requires Valid()
      modifies w
      ensures w.header == WindowHeaders(old(w.header), requestLimit, windowLength, t)
      ensures w.outcome == old(w.outcome)
    {
      var currentWindow := Truncate(t, windowLength);
      w.Set("X-RateLimit-Limit", Decimal(requestLimit));
      w.Set("X-RateLimit-Remaining", Decimal(0));
      w.Set("X-RateLimit-Reset", Decimal(UnixSeconds(currentWindow + windowLength)));
    }

    /** Handler's steps after Status: raise Remaining, then reject, or count the request and forward it. */
    method Conclude(w: ResponseWriter, key: string, currentWindow: int, nrate: int, ti: int)
      requires Valid()
      modifies w, limitCounter
      ensures var rep := Decide(requestLimit, windowLength, onRequestLimit.value, old(w.header), nrate, None);
        && w.header == rep.header
        && w.outcome == rep.outcome
        && limitCounter.State() ==
             (if rep.incremented
              then Incremented(old(limitCounter.State()), limitCounter.windowLength,
                               LimitCounterKey(limitCounter.hash, key, currentWindow), ti)
              else old(limitCounter.State()))
    {
      if requestLimit > nrate {
        w.Set("X-RateLimit-Remaining", Decimal(requestLimit - nrate));
      }

      if nrate >= requestLimit {
        w.Set("Retry-After", Decimal(WholeSeconds(windowLength)));
        w.outcome := LimitReached(onRequestLimit.value);
        return;
      }

      limitCounter.Increment(key, currentWindow, ti);
      w.outcome := Forwarded;
    }
  }

  /**
   * newRateLimiter: apply the options in order, then default keyFn to the constant "*", the
   * counter to an empty localCounter with the same window length, and onRequestLimit to 429.
   */
  method NewRateLimiter(requestLimit: int, windowLength: int, options: seq<LimiterOption>, env: Env)
    returns (rl: RateLimiter)
    requires windowLength > 0
    ensures fresh(rl) && rl.Valid()
    ensures rl.requestLimit == requestLimit && rl.windowLength == windowLength && rl.env == env
    ensures var s := ApplyOptions(Unset, options);
      && rl.keyFn == Some(s.keyFn.GetOr(GlobalKey))
      && rl.onRequestLimit == Some(s.onLimit.GetOr(DefaultTooManyRequests))
      && (s.counter.Some? ==> rl.limitCounter == s.counter.value)
      && (s.counter.None? ==>
            fresh(rl.limitCounter) && rl.limitCounter.State() == Store(map[], 0)
            && rl.limitCounter.windowLength == windowLength && rl.limitCounter.hash == env.xxhash)
  {
    rl := new RateLimiter(requestLimit, windowLength, env);
    for i := 0 to |options|
      invariant fresh(rl)
      invariant rl.requestLimit == requestLimit && rl.windowLength == windowLength && rl.env == env
      invariant rl.Configured() == ApplyOptions(Unset, options[..i])
    {
      rl.Apply(options[i]);
      assert options[..i + 1][..i] == options[..i];
    }
    assert options[..|options|] == options;

    if rl.keyFn.None? {
      rl.keyFn := Some(GlobalKey);
    }
    if rl.limitCounter == null {
      rl.limitCounter := new LocalCounter(windowLength, env.xxhash);
    }
    if rl.onRequestLimit.None? {
      rl.onRequestLimit := Some(DefaultTooManyRequests);
    }
  }
}
