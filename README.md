# Sliding-window rate limiter — a Dafny model

This project models the HTTP rate-limiting middleware of `middleware/httprate.go` and proves
properties of it. The middleware admits or rejects each request by estimating the request rate
of the request's key over a sliding window. It has four parts:

- **Key derivation.** `KeyByIP` picks the client address by header precedence. `canonicalizeIP`
  reduces IPv6 addresses to their /64 prefix. `composedKeyFunc` concatenates the keys of
  several key functions.
- **Construction.** `newRateLimiter` applies the options in order, then fills in defaults: the
  constant key `"*"`, an in-memory counter, and a 429 handler (section 4 of RFC 6585).
- **The window estimate and the per-request decision.** `Status` computes
  `prev*(W-diff)/W + curr`. `Handler` rounds it, sets the `X-RateLimit-*` headers, and then:
  - rejects with `Retry-After` (section 7.1.3 of RFC 7231) and the limit handler, or
  - increments the counter and forwards the request, or
  - fails with 428 (section 3 of RFC 6585) or 500.
- **The in-memory counter.** `localCounter` keeps a map from hashed (key, window) slots to
  `{value, updatedAt}` entries. `Increment` and `Get` act on it. `evict` sweeps out entries
  idle for three window lengths, at most once per three window lengths.

Modules, one per part (plus two for Go library behaviour):

- `GoFormat` — `%d`.
- `GoTime` — `Truncate`, `Unix`, `Seconds`.
- `KeyDeriver` — `KeyByIP`, `canonicalizeIP`, `composedKeyFunc`.
- `CounterStore` — `LimitCounterKey`, and `localCounter` as the class `LocalCounter`.
- `WindowEstimate` — the rate formula, `math.Round`, and `Status` as a function of the counts.
- `Limiter` — options, `rateLimiter` as a class, `Handler`, `newRateLimiter`.
- `Base` — `Option` and `Result`.

The methods do what the Go code does step by step. Each one is proved equal to a specification
function: `CanonicalizeIP` to `CanonicalIP`, `ComposedKeyFunc` to `Composed`,
`LocalCounter.Evict` to `Evicted`, `LocalCounter.Increment` to `Incremented`,
`RateLimiter.Handler` to `Serve`. The properties are lemmas about those functions.

Time is an integer count of nanoseconds since Go's zero time, so `lastEvict`'s zero value is 0.
The clock is not read inside the model; each reading is a parameter:

- `t` is `Handler`'s reading (line 215).
- `ts` is `Status`'s reading (line 189).
- `ti` is the reading used by `Increment` and `evict`.

These three can differ. Go's `net` package (`SplitHostPort`, `ParseIP`, `IP.String`) and xxhash
are function-valued parameters (`NetLib`, `Env`). Where a lemma needs a property of `ParseIP`
and `String`, it states it as the requirement `Lawful`.

`Serve` describes one run of `Handler`. It takes as inputs what the counter's `Get` returned and
what `Increment` would return, so it also covers the 428 after a failed `Get` and the 500 after a
failed `Increment`. Neither failure can occur with the in-memory counter.

Three behaviours of the code differ from what a reader might expect, and the model follows
the code:

- `X-RateLimit-Remaining` can rise between consecutive requests of one key within a window,
  even when the earlier request was counted. The previous window's weight decays as the window
  advances (`Limiter.RemainingCanRise`).
- Under a limit of 2 per minute, the first two requests of a window read Remaining 2 and 1,
  not 1 and 0, because the rate is estimated before the request is counted
  (`Limiter.MinuteScenario`).
- The counter slot hashes the key with the window's Unix second only (line 172). With a window
  shorter than one second, consecutive windows in the same second share a slot, so the current
  slot is not fresh and `Get` can return more than the window's own requests.
  `CounterStore.CountsIncrements` assumes a fresh slot and so does not cover that case.

## Model

| member | source | states |
|---|---|---|
| GoFormat.DecimalRoundTrip | middleware/httprate.go:172 | `%d` prints an optional minus sign followed by digits, and reading that text back gives the number |
| GoFormat.DecimalInjective | middleware/httprate.go:172 | two numbers print alike only when they are equal |
| GoFormat.Decimal | middleware/httprate.go:172 | `%d` is non-empty, starts with a minus sign exactly for negative numbers, and is otherwise digits with no leading zero |
| GoTime.Truncate | middleware/httprate.go:190 | the window start is a multiple of the window length, at most t and less than one window length before it, so two instants of one window share a start; a non-positive length leaves t as it is |
| GoTime.UnixSeconds | middleware/httprate.go:219 | `Unix()` is the whole second since the Unix epoch that contains the instant |
| GoTime.WholeSeconds | middleware/httprate.go:233 | `int(W.Seconds())` is the whole number of seconds in W, with the fraction dropped |
| KeyDeriver.HeaderGet | middleware/httprate.go:33 | a present header reads as its value and an absent one as the empty string |
| KeyDeriver.IndexOf | middleware/httprate.go:38-41 | the result is -1 or an occurrence of the separator, and no occurrence comes earlier |
| KeyDeriver.FirstHop | middleware/httprate.go:37-42 | the X-Forwarded-For entry used is a prefix of the header with no ", " inside, followed by ", " unless it is the whole header |
| KeyDeriver.ClientAddressPrecedence | middleware/httprate.go:30-49 | the address is True-Client-IP if non-empty, else X-Real-IP, else the first X-Forwarded-For entry (the prefix up to the first ", ", or the whole header if it has none), else RemoteAddr's host, or all of RemoteAddr when it does not split |
| KeyDeriver.EmptyFirstHop | middleware/httprate.go:37-42 | an X-Forwarded-For starting with ", " yields the empty address, and RemoteAddr is not consulted |
| KeyDeriver.ClientAddress | middleware/httprate.go:31-49 | a non-empty True-Client-IP is the address; the address is always one of the headers, a prefix of X-Forwarded-For, RemoteAddr or its host |
| KeyDeriver.KeyByIP | middleware/httprate.go:30-52 | the key is the canonical form of the chosen address, and no error is possible |
| KeyDeriver.ClassifyMeaning | middleware/httprate.go:101-118 | the scan reports IPv6 exactly when a ':' comes before any '.', IPv4 exactly when a '.' comes before any ':', and neither when the text has no '.' or ':' |
| KeyDeriver.Mask64 | middleware/httprate.go:125 | the /64 mask keeps the upper eight bytes and zeroes the lower eight |
| KeyDeriver.Mask64SamePrefix | middleware/httprate.go:125 | two addresses mask alike exactly when their upper 64 bits agree, and masking twice is masking once |
| KeyDeriver.CanonicalizeIP | middleware/httprate.go:100-126 | the scanning loop with its isIPv6 flag returns what the specification function CanonicalIP gives |
| KeyDeriver.CanonicalIPCases | middleware/httprate.go:100-126 | the input is returned unchanged when a '.' comes before any ':', when there is no ':', or when ParseIP fails; otherwise the result is the text of the /64 prefix |
| KeyDeriver.SameSubnetSameKey | middleware/httprate.go:120-125 | IPv6 addresses that share their upper 64 bits get the same key |
| KeyDeriver.DifferentSubnetDifferentKey | middleware/httprate.go:120-125 | IPv6 addresses with different upper 64 bits get different keys, given that String and ParseIP invert each other on masked addresses |
| KeyDeriver.CanonicalIPIdempotent | middleware/httprate.go:100-126 | canonicalising a key again leaves it unchanged, under the same law |
| KeyDeriver.MappedIPv4SharesKey | middleware/httprate.go:120-125 | every IPv4-mapped address written in IPv6 text (::ffff:a.b.c.d) maps to the one key of the all-zero address |
| KeyDeriver.KeyOf | middleware/httprate.go:54-56 | KeyByEndpoint yields the URL path and KeyByIP yields the IP key, neither with an error |
| KeyDeriver.CallKeyFunc | middleware/httprate.go:87 | calling one key function gives its specified result |
| KeyDeriver.ComposedKeyFunc | middleware/httprate.go:83-95 | the builder loop returns what the specification function Composed gives for the list |
| KeyDeriver.ComposedStopsAtError | middleware/httprate.go:87-90 | once a prefix of the list fails, the whole list fails with the same error, whatever follows |
| KeyDeriver.ComposedConcatenates | middleware/httprate.go:85-93 | when every function succeeds, the key is their keys concatenated in list order |
| KeyDeriver.ComposedFirstError | middleware/httprate.go:86-90 | the first failing function's error is the composed error |
| KeyDeriver.ComposedFailsIff | middleware/httprate.go:83-95 | composition fails exactly when some function in the list fails |
| CounterStore.KeyText | middleware/httprate.go:170-172 | the hashed text starts with the key, and what follows is the window's Unix second in decimal with no leading zero, reading back as that second |
| CounterStore.LimitCounterKey | middleware/httprate.go:169-174 | the slot depends on the window only through its Unix second: every instant in that second gives the same hash |
| CounterStore.KeyTextEqualLengthKeys | middleware/httprate.go:169-174 | for keys of equal length, the hashed text is equal only for the same key and the same Unix second |
| CounterStore.KeyTextCollision | middleware/httprate.go:169-174 | the hashed text is not injective: ("k1", second 7) and ("k", second 17) give the same string |
| CounterStore.Sweep | middleware/httprate.go:308-312 | the sweep keeps exactly the entries updated less than 3W ago, unchanged |
| CounterStore.EvictedMeaning | middleware/httprate.go:297-313 | evict does nothing within 3W of the last sweep; otherwise it records now and deletes exactly the entries idle for 3W or more; surviving entries are unchanged |
| CounterStore.RecentEntrySurvives | middleware/httprate.go:301-311 | an entry updated less than 3W ago survives eviction unchanged |
| CounterStore.IncrementedMeaning | middleware/httprate.go:262-279 | Increment adds exactly one to its slot's count (from 0 when there is no entry), stamps it with now, and keeps every other surviving entry |
| CounterStore.IncrementedPositive | middleware/httprate.go:270-275 | every entry counts at least one request, and evict and Increment keep this so |
| CounterStore.CountsIncrements | middleware/httprate.go:262-295 | N increments of a fresh slot, each less than 3W after the previous one, leave Get reporting N |
| CounterStore.LocalCounter.constructor | middleware/httprate.go:154-157 | the default counter starts with an empty map, its last sweep at the zero time, and the limiter's window length |
| CounterStore.LocalCounter.Evict | middleware/httprate.go:297-313 | the delete-while-ranging loop leaves the state that Evicted specifies |
| CounterStore.LocalCounter.Increment | middleware/httprate.go:262-279 | the new state is the one Incremented specifies for the hashed slot of (key, window) |
| CounterStore.LocalCounter.Get | middleware/httprate.go:281-295 | Get returns the counts of the two slots (0 for a missing entry), changes nothing, and never returns a negative count from a well-formed store |
| WindowEstimate.SlidingRate | middleware/httprate.go:198-199 | with 0 <= diff < W and prev >= 0, the estimate lies between curr and prev + curr |
| WindowEstimate.SlidingRateScaled | middleware/httprate.go:199 | the estimate times W is the integer prev*(W-diff) + curr*W |
| WindowEstimate.Round | middleware/httprate.go:226 | math.Round returns the integer nearest the value, with halves rounded away from zero |
| WindowEstimate.RoundReaches | middleware/httprate.go:226-232 | a non-negative rate rounds to at least L exactly when it is at least L - 1/2 |
| WindowEstimate.RoundedRateReachesLimit | middleware/httprate.go:199-232 | the rounded rate reaches the limit exactly when 2*(prev*(W-diff) + curr*W) >= (2L-1)*W |
| WindowEstimate.StatusOf | middleware/httprate.go:188-205 | Status passes on Get's error; otherwise rate * W is prev*(W-diff) + curr*W for diff the time since the window start, the rate lies between curr and prev + curr, and Status reports allowed exactly when rate <= limit |
| WindowEstimate.RoundedBelowImpliesAllowed | middleware/httprate.go:201-232 | a rate that rounds below the limit is one Status allows |
| WindowEstimate.AllowedYetRoundsToLimit | middleware/httprate.go:201-232 | the converse fails: rate 4.5 with limit 5 is allowed by Status but rounds to 5, so Handler rejects it |
| WindowEstimate.HalfHourExample | middleware/httprate.go:199-226 | five requests in the previous hour and none since, half an hour in, give 2.5, which rounds to 3 |
| WindowEstimate.RoundedRateMonotoneInCount | middleware/httprate.go:199-226 | the rounded rate never falls as the current count grows |
| Limiter.StatusCode | middleware/httprate.go:160-240 | a key or Get failure writes 428, a default rejection 429, an Increment failure 500; forwarding or a custom handler leaves the code to others |
| Limiter.DeriveSpec | middleware/httprate.go:147-151 | the default key function yields "*" for every request |
| Limiter.DeriveKey | middleware/httprate.go:209 | calling keyFn gives the specified key or error |
| Limiter.EmptyKeyFuncsKeepsKey | middleware/httprate.go:63-69 | WithKeyFuncs with an empty list leaves every field as it was |
| Limiter.ApplyOptionsAppend | middleware/httprate.go:143-145 | applying a + b is applying a, then b |
| Limiter.UntouchedFieldKept | middleware/httprate.go:63-81 | options that do not set a field leave it as it was |
| Limiter.LastWriterWins | middleware/httprate.go:143-145 | the last option that sets a field decides its value |
| Limiter.Remaining | middleware/httprate.go:218-230 | X-RateLimit-Remaining is max(0, limit - n): never negative, at most the limit for n >= 0 |
| Limiter.Serve | middleware/httprate.go:207-246 | a key error gives 428 with the headers as they were; a Get error gives 428 without increment; the request is counted exactly when the key and Get succeed and the rounded rate is below the limit; a counted request is forwarded, or gets 500 if Increment fails; an uncounted one with counts gets the limit handler |
| Limiter.WindowHeaders | middleware/httprate.go:215-219 | exactly Limit, Remaining and Reset are added: Limit is the limit, Remaining 0, Reset the Unix time of the window's end; all other headers are kept |
| Limiter.Decide | middleware/httprate.go:226-244 | the request is counted exactly when the rounded rate is below the limit; then Remaining is raised to limit - n and the request is forwarded, or gets 500; otherwise Remaining keeps the "0" already set, Retry-After is the window in whole seconds and the limit handler runs; no other header changes |
| Limiter.KeyFailureRejects | middleware/httprate.go:209-213 | a failed key derivation ends in 428; Handler itself sets no header and does not increment |
| Limiter.HeadersOfEvaluatedRequest | middleware/httprate.go:215-233 | with a key, Limit is the limit, Reset is the Unix time of the window's end, Remaining is max(0, limit - rounded rate) (0 after a Get error), and Handler itself sets no other header than these and Retry-After |
| Limiter.GetFailureRejects | middleware/httprate.go:221-225 | a Get error ends in 428 with no increment, and Handler adds no Retry-After |
| Limiter.AdmissionDecision | middleware/httprate.go:226-244 | with non-negative counts, the request is counted exactly when 2*(prev*(W-diff) + curr*W) < (2L-1)*W; an admitted request is forwarded, or gets 500 if Increment fails; a rejected one gets Retry-After in whole seconds and the limit handler (429 by default) |
| Limiter.FullWindowRejects | middleware/httprate.go:199-236 | a window that already holds limit requests rejects every further one |
| Limiter.QuietPreviousWindow | middleware/httprate.go:199-244 | with an empty previous window, a request is admitted exactly while fewer than limit requests were counted |
| Limiter.QuietWindowReply | middleware/httprate.go:215-244 | with an empty previous window and n requests counted, the request is forwarded with limit - n remaining, or rejected with 0 remaining and Retry-After |
| Limiter.RemainingCanRise | middleware/httprate.go:199-238 | for a hash that gives the key's slots for the two windows different values, limit 5 per minute and a local counter holding four requests in the previous window: a request at the window's start reads Remaining 1 and is counted; the next request of the key, half-way through the window, reads the store that increment left and gets Remaining 2 |
| Limiter.LocalCounts | middleware/httprate.go:189-193 | the counts Status reads from a well-formed in-memory store are never negative |
| Limiter.IncrementAllPositive | middleware/httprate.go:262-279 | a run of increments keeps every entry positive |
| Limiter.LimitPlusOneRejected | middleware/httprate.go:188-295 | under sequential requests, once a key's slot holds limit increments, a request in that window is rejected |
| Limiter.MinuteScenario | middleware/httprate.go:207-246 | for a hash that separates the slots involved, limit 2 per minute: requests at 0 s and 10 s are admitted with Remaining 2 and 1, the one at 20 s is rejected with 429 and Retry-After 60, and another key at 20 s is admitted |
| Limiter.ResponseWriter.Set | middleware/httprate.go:217 | Header().Set replaces one header and leaves the rest |
| Limiter.RateLimiter.constructor | middleware/httprate.go:138-141 | the limit and window are set and no option has been applied yet |
| Limiter.RateLimiter.Apply | middleware/httprate.go:63-81 | running an option changes the fields as ApplyOption specifies |
| Limiter.RateLimiter.Status | middleware/httprate.go:188-205 | Status on the in-memory counter returns the verdict StatusOf gives for the counts in the store |
| Limiter.RateLimiter.Handler | middleware/httprate.go:207-246 | headers and outcome are Serve's, for the derived key and the store's counts; the store changes by exactly one Increment of the slot for t's window when Serve counts the request, and not at all otherwise |
| Limiter.RateLimiter.Admission | middleware/httprate.go:215-244 | the steps after a key is derived, with the same contract as Handler for that key |
| Limiter.RateLimiter.SetWindowHeaders | middleware/httprate.go:215-219 | the three Sets leave the response headers that WindowHeaders specifies |
| Limiter.RateLimiter.Conclude | middleware/httprate.go:228-244 | headers and outcome are Decide's for the rounded rate; the store changes by one Increment of the slot for the window exactly when Decide counts the request |
| Limiter.NewRateLimiter | middleware/httprate.go:137-167 | the options are applied in order; then a missing key function becomes "*", a missing counter a fresh empty local counter with the same window, and a missing limit handler the 429 default |

## Left out

- The mutex (lines 252, 265, 282, 298) and the check-then-increment race between concurrent requests: the model is sequential.
- The other constructors and accessors, `Limit`, `LimitAll`, `LimitByIP`, the exported wrapper `NewRateLimiter` (lines 133-135) and `Counter` (lines 15-28, 184-186), which only call the modelled functions.
- `KeyByFrom` (lines 58-61), because it reads a package-global decoded request. Any such function is covered only as a `Custom` key function.
- The headers and bodies that `http.Error`, the limit handler and `next` write (`http.Error` sets `Content-Type` and `X-Content-Type-Options`): the model records which one ends the request, and its header claims are about the headers Handler itself sets.
- `WithLimitCounter(nil)` and `WithLimitHandler(nil)`: in Go they reset the field to nil, so the default returns at lines 153 and 160. The model's options always carry a counter or a handler, so this reset is not modelled.
- xxhash, `net.SplitHostPort`, `net.ParseIP` and `IP.String` (the text form of section 2.2 of RFC 4291) are uninterpreted parameters.
- Go's canonicalisation of header names in `Header.Get` and `Header.Set`: names are compared exactly.
- Counter backends other than the local counter are represented only by `Serve`'s inputs (Get's result and Increment's error). The `LimitCounter` interface is not a type here.
- WindowEstimate.SlidingRate: computes with exact reals, not float64. So the rate, and the rounding at line 226, can differ from Go's in the last bits.
- GoTime.WholeSeconds: models `int(d.Seconds())` as integer division, ignoring the float64 rounding of `Seconds`. It requires a positive duration.
- Limiter.NewRateLimiter: requires a positive window length. With W = 0, line 199 computes 0/0 (NaN). With W < 0, `Truncate` leaves the time unchanged (lines 190, 215), so the rate is prev + curr, and `evict`'s threshold 3W is negative (line 301), so every entry is deleted on each Increment (lines 303-311).
- CounterStore.LocalCounter.Increment: reads the clock once (`ti`). It stands for `evict`'s `time.Since` calls and `time.Now` (lines 303, 306, 309) and the `updatedAt` stamp (line 276).
- Overflow of Go's 64-bit durations: time is an unbounded integer. The 3*W multiplication at line 301 and `time.Since` cannot overflow or saturate here, as Go's `Duration` arithmetic can.
