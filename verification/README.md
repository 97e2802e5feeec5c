# Verified models of the operational middleware

This project models five parts of a Go middleware layer for tool execution and proves their main properties:
the resilience layers (`resilience/`), the result cache (`cache/`), role-based authorization (`auth/rbac.go`),
composite authentication (`auth/composite.go`) and secret resolution (`secret/resolver.go`). One module stands
for one source file and has its name; `Concurrent` and `SharedBreaker` put many executor calls, each with its own
context, timing and jitter, on one bulkhead, one limiter and one breaker; `Texts` and `Wrappers` hold what several
modules share.

Components that update fields in place are classes whose methods are proved against a function of the old state.
The whole-run results are lemmas about those same functions, over every sequence of events. Where callers overlap,
a run is a sequence of the atomic steps that the locks and the channel leave, in any order. Times are integer
nanoseconds given by the caller, tokens and multipliers are reals, and texts are sequences of Unicode scalar values.

`dafny verify dfyconfig.toml` checks everything.

## What is established

- **Rate limiter.** The tokens are always the least credit over all windows since the last reset. So no window
  grants more than a burst plus what its length earns, and a request is refused exactly when some window forbids
  it. Polls and refused requests leave no trace in anything that follows. `WaitN` takes `n` tokens iff it returns nil.
- **Circuit breaker.** In every reachable state the half-open counter is the number of running probes of this
  half-open period, the failure counter is the length of the failing streak and trips exactly at the limit, and
  the notifications form a connected path. An open circuit lets nothing in before its time-out. A call begun before
  the trip can close the circuit; only probes can iff none was in flight when the half-open period opened.
- **Bulkhead.** In every interleaving at most `MaxConcurrent` callers hold a slot, and `Release` never finds the
  channel empty. The `active` counter can pass the limit; the exact condition is proved.
- **Retry and executor.** How many calls are made, which result is returned and how long the sleeps are; exactly when
  a call follows a context that is already done; and, for every subset of layers and whatever other callers do, what
  one call spends, holds, reports and starts.
- **Many executor calls.** In every interleaving the calls with a running operation that they have not abandoned hold
  a slot each, so there are at most `MaxConcurrent`. The bulkhead bounds the operations that may run iff no executor
  that uses it has a time-out. The calls that ever start the operation are no more than a burst plus what the limiter
  earns. What the breaker counts as running are exactly the admitted calls that have not reported.
- **Cache.** The canonical encoding can be read in one way only, so keys separate requests up to digest
  collisions. A hit is never older than the time-to-live, and caching is transparent in every interleaving. Exactly
  when the unlocked gap in `Get` costs a fresh entry is proved too.
- **Authorization.** The worklist returns each reachable role exactly once, nearest first, on any graph. Access
  is granted iff one reachable configured role grants it alone.
- **Composite authentication.** Nesting to any depth is the same as the flat list; when `StopOnFirst` matters is
  characterized exactly.
- **Secrets.** Splicing in place from the right is the left-to-right pass over the original text.

## Where the code and its documentation differ

The models follow the code.

- `resilience/doc.go:110` and `resilience/errors.go:10` say that exhausted retries return `ErrMaxRetriesExceeded`.
  The loop returns the last error instead (`Retry.CallsAndResult`).
- `docs/schemas.md:116` says that retry never continues after a cancelled context. The context is only looked at in
  the wait between two calls, and does not count if the timer is ready no later than it: `Retry.FollowsDoneIff` gives
  the exact condition, and `Retry.RetriesAfterDone` shows it met under every configuration that can retry at all.
- `docs/schemas.md:73` says that keys must pass `ValidateKey`. The middleware does not call it, and a generated key
  passes exactly if the tool name has at most 489 bytes and no line break (`Keyer.KeyValidIff`).
- The comment of `matchPattern` (`auth/rbac.go:173-174`) promises `*` as a wildcard. The code treats it as one only
  as the last character; `Rbac.MatchIsGlobIff` gives the patterns on which the two agree.
- Backoff has a cap, but the exponential product is converted to an integer before it is capped. With the default
  settings it leaves the range of int64 from attempt 38 on, and what the conversion then yields is up to the
  platform (`Retry.DefaultsFitUntilAttempt37`).
- With jitter, a base delay of one to three nanoseconds panics (`Retry.JitterBounds`, `Retry.PanicFreeIff`). Such a
  panic skips `afterRequest`, so an admitted probe is never reported (`Executor.EveryAdmissionReportedIff`), while the
  bulkhead slot is still released. With all probe places taken that way the circuit stays half-open and refuses every
  call until a reset (`CircuitBreaker.StuckUntilReported`).

## Assumptions

These are the conditions under which the code is meant to be used; they appear as `requires` or as the shape of a run.

- The clock never goes back, and no request for tokens is negative: a negative one would add tokens.
- Only a caller that acquired a slot releases it, and once.
- Operations and executors return and do not panic, except for the retry panic above.
- Supporting a request is a stable property of an authenticator, and a provider's answer depends on the ref alone.

## Model

| member | source | states |
|---|---|---|
| RateLimiter.Normalize | resilience/ratelimit.go:38-48 | each setting that is not positive gets its default, each that is positive is kept, and the result is valid |
| RateLimiter.RateLimiter.constructor | resilience/ratelimit.go:38-55 | a new limiter is full at the time of its construction |
| RateLimiter.RateLimiter.RefillLocked | resilience/ratelimit.go:131-144 | the in-place refill is the capped refill that all the run lemmas are about |
| RateLimiter.RateLimiter.AllowN | resilience/ratelimit.go:63-75 | the verdict, and the whole new state for a grant and for a refusal |
| RateLimiter.RateLimiter.Tokens | resilience/ratelimit.go:147-152 | polling refills, and reports the tokens after that |
| RateLimiter.RateLimiter.ResetTo | resilience/ratelimit.go:155-160 | a reset is a new construction at the current time |
| RateLimiter.RateLimiter.WaitN | resilience/ratelimit.go:83-116 | outcome, length of the sleep and new state, with arbitrary other callers at both points without the lock |
| RateLimiter.RateLimiter.Admit | resilience/ratelimit.go:119-129 | the operation starts iff the waiting or the immediate path acquired one token |
| RateLimiter.ClosedForm | resilience/ratelimit.go:63-75 | after every run the tokens are the minimum, over all events since the last reset, of burst plus earnings minus grants since then, and lie between zero and the burst |
| RateLimiter.WindowBound | resilience/ratelimit.go:131-144 | the grants in a window without a reset are at most the burst plus rate times length |
| RateLimiter.GrantedIffEveryWindowAllows | resilience/ratelimit.go:63-75 | a request is granted iff it keeps that bound for every window that ends now |
| RateLimiter.RefillComposes | resilience/ratelimit.go:131-144 | refilling twice is refilling once to the later time |
| RateLimiter.EssentialIsEnough | resilience/ratelimit.go:63-75 | a run without its polls and refused requests ends in a bucket that no later refill can tell apart |
| RateLimiter.PollingIsHarmless | resilience/ratelimit.go:147-152 | removing every poll and refused request from the past changes no later verdict and no later token count |
| RateLimiter.WaitDebitsIffNil | resilience/ratelimit.go:83-116 | the critical sections of a `WaitN`, with those of others between them, are one run in which its own take `n` iff it returns nil, and nothing otherwise |
| RateLimiter.WaitAnswers | resilience/ratelimit.go:83-116 | the context's error iff it is done before the first attempt or during the wait after a refusal, nil iff an attempt that is made succeeds, and a sleep only after a refusal |
| RateLimiter.CappedWaitIs | resilience/ratelimit.go:95-104 | the sleep is the time in which the missing tokens are earned, in whole nanoseconds, and MaxWait when that is longer |
| RateLimiter.LoneWaiterSucceedsIff | resilience/ratelimit.go:95-115 | undisturbed, the second attempt succeeds iff it comes no earlier than the untruncated wait |
| RateLimiter.LoneWaiterNearMiss | resilience/ratelimit.go:95-115 | after the truncated wait the tokens lack less than one nanosecond's worth, and the attempt succeeds iff nothing was truncated; one nanosecond more always suffices |
| RateLimiter.CappedWaiterFails | resilience/ratelimit.go:101-115 | a wait cut short by MaxWait always ends in a refusal |
| CircuitBreaker.Normalize | resilience/circuit.go:70-83 | each setting that is not positive gets its default, each that is positive is kept, and the result is valid |
| CircuitBreaker.CircuitBreaker.constructor | resilience/circuit.go:70-89 | a new circuit is closed with all counters zero and nothing notified |
| CircuitBreaker.CircuitBreaker.CurrentStateLocked | resilience/circuit.go:183-192 | looking turns an open circuit half-open once the time-out has passed, notifies that, and zeroes the probe counter |
| CircuitBreaker.CircuitBreaker.BeforeRequest | resilience/circuit.go:125-142 | the verdict and the whole new state; the verdict is pinned down by AdmittedIff |
| CircuitBreaker.AdmittedIff | resilience/circuit.go:125-142 | in every run a new call is let in iff the circuit is closed, or open with its time-out passed, or half-open with fewer probes than allowed |
| CircuitBreaker.HalfOpensIff | resilience/circuit.go:183-192 | a poll or an attempt turns the circuit half-open iff it is open and its time-out has passed, and changes the state in no other way |
| CircuitBreaker.CircuitBreaker.GetMetrics | resilience/circuit.go:202-212 | reports the state after the look and the three counters |
| CircuitBreaker.SuccessesAreZero | resilience/circuit.go:164-175 | the success count is never seen to be anything but zero |
| CircuitBreaker.FailureTime | resilience/circuit.go:144-181 | the failure time is that of the latest failing completion that did not find the circuit open |
| CircuitBreaker.CircuitBreaker.AfterRequest | resilience/circuit.go:144-181 | the whole new state in each of the three states, the notification included |
| CircuitBreaker.CircuitBreaker.SetState | resilience/circuit.go:194-199 | only the state changes, and the probe counter on entry to half-open |
| CircuitBreaker.CircuitBreaker.Reset | resilience/circuit.go:110-123 | everything but the failure time is cleared, with a notification iff the circuit was not closed |
| CircuitBreaker.LookKeeps | resilience/circuit.go:102-107 | a poll keeps the invariant: a half-open period that it opens has no probes |
| CircuitBreaker.BeginKeeps | resilience/circuit.go:125-142 | an admission keeps the invariant |
| CircuitBreaker.EndKeeps | resilience/circuit.go:144-181 | a completion, stale or not, keeps the invariant |
| CircuitBreaker.StepKeeps | resilience/circuit.go:110-199 | every event of a run keeps half-open accounting, trip exactness and the notification path |
| CircuitBreaker.EveryRun | resilience/circuit.go:110-199 | in every run with overlapping calls: while half-open, the counter is the number of running calls admitted in this period, within the limit; failures are the trailing failing streak, below the limit iff closed; notifications are a connected legal path from Closed to the current state |
| CircuitBreaker.HalfOpenRejection | resilience/circuit.go:125-142 | a half-open rejection means that all probes are taken, one is running, and any completion leaves the half-open state |
| CircuitBreaker.TripsExactly | resilience/circuit.go:144-161 | a completion opens a closed circuit iff the failing streak with it reaches MaxFailures |
| CircuitBreaker.FailuresAreConsecutive | resilience/circuit.go:144-161 | while the circuit is closed the failure counter is the length of the longest suffix of failing completions |
| CircuitBreaker.OpensOnConsecutiveFailures | resilience/circuit.go:144-161 | a completion opens a closed circuit iff it and the MaxFailures - 1 completions before it are failing ones of a closed circuit |
| CircuitBreaker.OpenRecordsEntry | resilience/circuit.go:153-168 | only a failing completion opens the circuit, and its time is what the cool-down counts from |
| CircuitBreaker.CoolDown | resilience/circuit.go:125-192 | until the time-out passes, polls, attempts and late completions change nothing about an open circuit and admit nobody |
| CircuitBreaker.NoEarlyAdmission | resilience/circuit.go:125-192 | in any run, the first call admitted after the circuit opened comes at least the time-out later, unless it was reset |
| CircuitBreaker.ChangesOfOneStep | resilience/circuit.go:110-123 | an event notifies at most once, only a reset goes from Open to Closed, and only a success or a reset from HalfOpen to Closed |
| CircuitBreaker.StaleCallCloses | resilience/circuit.go:164-175 | a run in which a call begun before the trip, not a probe, closes the circuit; the next row says when that is possible |
| CircuitBreaker.ClosersAreProbesIff | resilience/circuit.go:125-181 | throughout a half-open period the running calls that are no probes are exactly those in flight when it opened, any running call that succeeds closes the circuit, and so only probes can iff none was in flight |
| CircuitBreaker.PeriodMembers | resilience/circuit.go:125-181 | nobody leaves during a half-open period, and whoever joins is a probe of it |
| CircuitBreaker.StuckUntilReported | resilience/circuit.go:125-142 | with all probe places taken, any number of attempts and polls changes nothing; a reset or a completion ends it |
| Bulkhead.Bulkhead.constructor | resilience/bulkhead.go:32-42 | a new bulkhead is empty |
| Bulkhead.Bulkhead.TrySend | resilience/bulkhead.go:48-49 | the send succeeds iff the channel is not full |
| Bulkhead.Bulkhead.Count | resilience/bulkhead.go:50-55 | the counter and its maximum move together |
| Bulkhead.Bulkhead.TryReceive | resilience/bulkhead.go:94-95 | the receive succeeds iff the channel is not empty |
| Bulkhead.Bulkhead.Acquire | resilience/bulkhead.go:46-90 | the result and the new state on the fast path, without a wait, and for each arm of the wait, with other callers at every point between the atomic steps |
| Bulkhead.Bulkhead.Release | resilience/bulkhead.go:93-102 | one out of the channel and later one off the counter, other callers in between, or nothing on an empty channel |
| Bulkhead.Bulkhead.GetMetrics | resilience/bulkhead.go:115-126 | available and active add up to the limit, so available is negative iff the counter passes the limit |
| Bulkhead.MetricsInEveryRun | resilience/bulkhead.go:115-126 | in every interleaving, active is holders plus receivers, available is the limit less that, negative iff more callers are between receive and decrement than there are slots without a holder, the maximum is the highest count there was, and rejected is the number of refusals |
| Bulkhead.MaxActiveIsPeak | resilience/bulkhead.go:50-55 | the reported maximum is the highest value that the counter ever had |
| Bulkhead.Move | resilience/bulkhead.go:46-102 | a caller that moves between two places changes the population of exactly those |
| Bulkhead.StepKeeps | resilience/bulkhead.go:46-102 | every atomic step of every caller keeps the invariant |
| Bulkhead.EveryInterleaving | resilience/bulkhead.go:46-112 | in every interleaving the channel holds exactly senders and holders, within the limit; the counter is holders plus receivers, never above its maximum; rejections are counted exactly; and no release finds the channel empty |
| Bulkhead.HoldersAndOvershoot | resilience/bulkhead.go:46-112 | at most MaxConcurrent hold a slot; the counter passes the limit iff more callers are between receive and decrement than there are slots without a holder; with nobody mid-step counter, channel and holders agree |
| Bulkhead.ActiveCanExceedLimit | resilience/bulkhead.go:93-102 | an interleaving in which a limit of one shows two active |
| Bulkhead.RefusedOnlyWhenFull | resilience/bulkhead.go:48-67 | a newcomer gets in at once iff fewer callers than the limit have sent or hold, and else is refused or waits as MaxWait says |
| Bulkhead.WaitersEnd | resilience/bulkhead.go:70-89 | a waiter gets in iff there is room, is refused by its timer, and leaves uncounted with its context; only refused callers are counted as rejected |
| Retry.Normalize | resilience/retry.go:62-78 | each setting that is not positive gets its default, and each that is positive is kept |
| Retry.BaseIsCappedIff | resilience/retry.go:126-144 | the computed delay is the capped growth law iff that law fits int64 or what the machine computes instead reaches the cap: the wrapped product, or what the conversion yields; the first linear overflow is negative |
| Retry.IdealGrows | resilience/retry.go:126-144 | with a multiplier of at least one every strategy's growth law is monotone |
| Retry.DelaysNeverFall | resilience/retry.go:126-144 | so, without overflow, the delays before jitter never fall and never pass MaxDelay |
| Retry.DefaultsFitUntilAttempt37 | resilience/retry.go:62-78 | with the default delays the growth law fits int64 iff the attempt is at most 37 |
| Retry.JitterBounds | resilience/retry.go:146-152 | jitter adds less than a quarter of the base delay unless the sum leaves int64, and panics iff the base delay is one to three nanoseconds |
| Retry.EveryJitter | resilience/retry.go:146-152 | every amount of jitter below a quarter of the base delay is drawn |
| Retry.PanicFreeIff | resilience/retry.go:146-152 | with a multiplier of at least one and no overflow, some wait panics iff there is a wait, jitter is on, and the first delay or the cap is below 4 ns |
| Retry.ReturnsIffPanicFree | resilience/retry.go:84-155 | every run with a configuration returns iff no wait of that configuration can panic |
| Retry.Execute | resilience/retry.go:84-124 | the loop makes the calls, ends with the outcome and sleeps the time that the specification functions say, with a context that may be done at any instant |
| Retry.AfterCall | resilience/retry.go:91-120 | what follows one call: return, give up, panic, or a wait that the first ready arm ends |
| Retry.LastIsFirstStop | resilience/retry.go:84-124 | the last call is the first that is not followed by another |
| Retry.CallsAndResult | resilience/retry.go:84-124 | if no wait that is reached is cancelled or panics, the number of calls is the least of MaxAttempts and the first nil or non-retryable outcome, and the result is that outcome |
| Retry.ContextStopsIff | resilience/retry.go:113-120 | after a retryable failure below the limit the loop ends with the context's error iff the context is done before the timer fires, or at that instant and preferred |
| Retry.LateContextIsIgnored | resilience/retry.go:113-120 | a context that is done too late for every wait that is reached changes neither the calls nor the result |
| Retry.FollowsDoneIff | resilience/retry.go:113-120 | when the context is done by the time of the next call, that call is made iff the outcome asks for it, the timer does not run or fires no later than the context is done, and the select prefers the timer where both are ready |
| Retry.DoneInTimeStops | resilience/retry.go:113-120 | a context that is done before a running timer fires ends the loop with its error |
| Retry.RetriesAfterDone | resilience/retry.go:113-120 | under every configuration that can retry there is a run that calls again at or after the instant at which the context is done |
| Retry.TotalSleep | resilience/retry.go:106-121 | the sleep over `k` calls is at most `k - 1` times five quarters of MaxDelay |
| Retry.SleptOnTheClock | resilience/retry.go:106-121 | the sleep is what the clock goes on between the calls |
| Executor.Execute | resilience/executor.go:79-124 | the nest built by rebinding `execute` does exactly what the five layers do one inside the other |
| Executor.WithBreaker | resilience/executor.go:99-105 | wrapping the breaker around a core gives the breaker layer, or leaves the core alone |
| Executor.WithBulkhead | resilience/executor.go:107-113 | wrapping the bulkhead around what it was given adds the bulkhead layer, or nothing without one |
| Executor.WithLimiter | resilience/executor.go:115-121 | wrapping the limiter around what it was given adds the limiter layer, or nothing without one |
| Executor.OneAttempt | resilience/timeout.go:31-50 | an attempt starts the operation once and may abandon it only under a time-out |
| Executor.ManyAttempts | resilience/retry.go:84-124 | `k` attempts start the operation `k` times and do nothing else |
| Executor.CoreDoes | resilience/executor.go:79-98 | retry and time-out start the operation at least once and at most MaxAttempts times |
| Executor.BreakerDoes | resilience/circuit.go:92-100 | one question; if admitted, everything inside and then one report of its outcome, which a panic skips; if not, nothing |
| Executor.BulkheadDoes | resilience/bulkhead.go:105-112 | a refusal and nothing else, or a slot held around everything inside and freed at the end, after a panic too |
| Executor.LimiterDoes | resilience/ratelimit.go:119-129 | everything inside runs only after a granted attempt; each attempt is a step of the bucket it met |
| Executor.LimiterAccounts | resilience/executor.go:79-124 | counting what the limiter layer and everything inside it did gives the account of the whole call |
| Executor.EveryCall | resilience/executor.go:79-124 | for every subset of layers, a call spends at most one token, takes at most one slot and frees it, asks and reports at most once, starts the operation at most MaxAttempts times, and at least once iff every layer let it in |
| Executor.EveryRefusal | resilience/executor.go:79-124 | a limiter or bulkhead that refuses leaves every layer inside it untouched; any call that never starts the operation returns an error and reports nothing to the breaker |
| Executor.CallAnswers | resilience/executor.go:79-124 | a call that starts the operation returns what its last attempt yields, the operation's error, the time-out's or the context's, or what retry makes of it, unchanged through breaker, bulkhead and limiter; every earlier attempt was to be tried again |
| Executor.CallRefuses | resilience/executor.go:79-124 | a call that never starts the operation returns the error of the layer that refused it, or the context's |
| Executor.EveryAdmissionReportedIff | resilience/circuit.go:92-100 | every call returns and reports each admission iff no wait of its retry configuration can panic |
| Executor.ProbeThatPanics | resilience/circuit.go:92-100 | otherwise there is a call that was admitted and never reports |
| Concurrent.CallIsOrderly | resilience/executor.go:79-124 | a call takes at most one slot, frees it last, starts operations only in between, and abandons only what it has just started, under a time-out |
| Concurrent.HoldersMatch | resilience/bulkhead.go:105-112 | in every interleaving of many executor calls, each with its own layers and surroundings, a call holds a slot iff its own record says that it has taken one and not freed it |
| Concurrent.AttendedAreBounded | resilience/executor.go:107-113 | so every call with a running operation that it has not abandoned holds a slot, and there are at most MaxConcurrent |
| Concurrent.OnlyTimeoutsPass | resilience/executor.go:79-124 | the operations that may run are the attended ones, at most MaxConcurrent, and the abandoned ones, of which there are none without a time-out |
| Concurrent.TimeoutsPass | resilience/timeout.go:31-50 | one executor with a time-out is enough: for every limit and whatever the other layers are, a run in which more operations than the limit may be running |
| Concurrent.BoundedIffNoTimeout | resilience/executor.go:79-124 | the bulkhead bounds the operations that may run, in every interleaving, iff no executor that uses it has a time-out |
| Concurrent.SpendsFirst | resilience/executor.go:115-121 | with a limiter no call starts an operation before it has spent a token |
| Concurrent.SpentIsGranted | resilience/ratelimit.go:119-129 | the tokens that all calls spend are what the shared bucket grants |
| Concurrent.StartersAreLimited | resilience/executor.go:115-121 | in every interleaving the calls that start the operation are at most the burst plus the rate times the length of the run |
| SharedBreaker.CallAsks | resilience/circuit.go:92-100 | a call asks the breaker at most once, starts operations only after an admission, and reports at most once and after them |
| SharedBreaker.RunningAreUnreported | resilience/circuit.go:92-100 | in every interleaving of executor calls, polls and resets, the calls that the breaker counts as running are exactly the admitted ones without a report, panicked ones included |
| SharedBreaker.HalfOpenCalls | resilience/circuit.go:125-181 | so while half-open the counter is the number of admitted and unreported executor calls of the period, within the limit, and no more calls of the period than that attend an operation |
| Keyer.InsertKeepsOrder | cache/keyer.go:71 | inserting a new key into a sorted list gives the sorted list with that key |
| Keyer.SortEnumerates | cache/keyer.go:67-71 | sorting any enumeration of a key set gives its ordered enumeration |
| Keyer.EnumerationUnique | cache/keyer.go:71 | a set has only one ordered enumeration, so the iteration order of the map does not matter |
| Keyer.EscapeUnique | cache/keyer.go:48-63 | an escaped character followed by any text is read back in one way |
| Keyer.StringUnique | cache/keyer.go:48-63 | so is a string up to its closing quote |
| Keyer.QuoteUnique | cache/keyer.go:48-63 | so is a quoted string |
| Keyer.NumberUnique | cache/keyer.go:48-63 | number tokens delimit themselves before anything that may follow a value |
| Keyer.TextUnique | cache/keyer.go:48-116 | two values whose canonical texts, each followed by anything that may follow a value, are equal are the same value with the same rest |
| Keyer.ItemsUnique | cache/keyer.go:100-116 | the same for the rest of an array |
| Keyer.MembersUnique | cache/keyer.go:65-98 | the same for the rest of an object, keys included |
| Keyer.CanonicalInjective | cache/keyer.go:48-63 | equal canonical texts come from equal values |
| Keyer.TextIsJson | cache/keyer.go:48-116 | the canonical text is a JSON text of its value by RFC 8259, sections 3 to 7, without white space and with the members of every object in increasing order |
| Keyer.UnescapeEscapes | cache/keyer.go:48-63 | an escaped string stands for the string, by section 7 of RFC 8259 |
| Keyer.EscapesAreEmbeddable | cache/keyer.go:48-63 | an escaped string has no control character, no line separator and none of the characters special in HTML |
| Keyer.EscapeIsShortest | cache/keyer.go:48-63 | a character is written as it is where that is allowed, by a short escape where there is one, and by its code otherwise |
| Keyer.Canonicalize | cache/keyer.go:48-63 | yields the canonical text, or an error iff some part cannot be marshalled |
| Keyer.RangeKeys | cache/keyer.go:67-70 | the range loop collects each key once, in any order |
| Keyer.OrderedKeys | cache/keyer.go:67-71 | after the sort the keys are the one ordered enumeration |
| Keyer.CanonicalizeMap | cache/keyer.go:65-98 | the loop over the sorted keys writes the canonical object, or fails iff a member cannot be marshalled |
| Keyer.CanonicalizeSlice | cache/keyer.go:100-116 | the loop writes the canonical array, or fails iff an item cannot be marshalled |
| Keyer.HexEncodeUnique | cache/keyer.go:41-43 | hexadecimal digits determine the bytes |
| Keyer.Key | cache/keyer.go:32-44 | yields the key text of a tool and an input, or an error iff the input cannot be marshalled |
| Keyer.KeySeparates | cache/keyer.go:32-44 | keys are equal iff tool and truncated digest are, even for tool names with colons; without a collision of the two digests, iff the requests are |
| Keyer.KeyFormat | cache/keyer.go:32-44 | a key is "cache:", the tool, a colon, and two hexadecimal digits for each of the first eight digest bytes, the high one first |
| Keyer.ValidateKeyIff | cache/cache.go:38-50 | a key is valid iff it is not blank, has at most 512 bytes and no line break |
| Keyer.KeyValidIff | cache/cache.go:38-50 | a generated key passes validation iff the tool name has at most 489 bytes and no line break |
| Policy.EffectiveTTLBounds | cache/policy.go:39-57 | the time-to-live is positive iff asked for or caching is on, and within the maximum and the request |
| Policy.EffectiveTTLIs | cache/policy.go:44-57 | the time asked for, or the default without one, unless a positive maximum is less |
| MemoryCache.MemoryCache.constructor | cache/memory.go:22-27 | a new cache is empty |
| MemoryCache.MemoryCache.Get | cache/memory.go:30-49 | a hit iff present and not expired; an expired key is removed from whatever the cache has become by then |
| MemoryCache.MemoryCache.Set | cache/memory.go:52-66 | stores with its expiry time, or nothing for a time-to-live that is not positive |
| MemoryCache.MemoryCache.Delete | cache/memory.go:69-74 | removes exactly the key |
| Middleware.DefaultSkipRule | cache/middleware.go:20-30 | skips iff some tag, lower-cased, is one of the five unsafe ones |
| Middleware.Execute | cache/middleware.go:58-102 | a call that must not be cached, by the policy, the skip rule or a failing keyer, runs the executor and leaves the cache alone; otherwise the executor is called iff there is no fresh entry; what is returned and exactly what is stored, whatever others did meanwhile |
| Middleware.CacheKeyIff | cache/middleware.go:66-81 | the cache is used, under the keyer's key, iff the tool is not skipped or unsafe ones are allowed, the policy caches, and the keyer succeeds |
| Middleware.UncachedIsDirect | cache/middleware.go:66-81 | in every interleaving a call that must not be cached neither reads nor changes the cache and answers with the executor's own outcome |
| Middleware.AloneHit | cache/middleware.go:84-86 | without others a call with an unexpired entry under its key answers from it and leaves the cache alone |
| Middleware.AloneMiss | cache/middleware.go:88-101 | without others a call without one answers with the executor's outcome and stores it for the time-to-live iff it is a success |
| Middleware.CheckKeeps | cache/memory.go:30-49 | answering from a fetched entry, or finding it expired, keeps the invariant |
| Middleware.StoreKeeps | cache/memory.go:52-66 | storing keeps the invariant |
| Middleware.StepKeeps | cache/middleware.go:58-102 | every atomic step of every call keeps the invariant |
| Middleware.EveryInterleaving | cache/middleware.go:58-102 | in every interleaving every entry and every hit carries a value that a successful executor call made for the same key, a hit's stored at most the time-to-live before |
| Middleware.RunKnown | cache/middleware.go:58-102 | with a deterministic executor whatever was made, and every answer that is no hit, is what the executor returns directly |
| Middleware.CachingIsTransparent | cache/middleware.go:58-102 | with a deterministic executor and separating keys, every answer of every run is what the executor would have returned |
| Middleware.DefaultKeyerIsTransparent | cache/keyer.go:32-44 | for the default keyer it suffices that no two canonical inputs of the run collide in eight digest bytes |
| Middleware.LateDeleteDropsFreshEntry | cache/memory.go:30-49 | for every time-to-live, a run in which the second lock section of `Get` deletes a fresh entry |
| Middleware.LateDeleteDropsFreshIff | cache/memory.go:30-49 | the second section of `Get` deletes an unexpired entry iff since the first section there was a store under the key, after which nobody stored, deleted or evicted it and whose time-to-live has not passed |
| Middleware.WithoutPut | cache/memory.go:30-66 | without a store under a key its entry stays what it was or goes |
| Rbac.CloserIsMarked | auth/rbac.go:83-117 | whatever is closer to the seeds than all that is queued has been returned already |
| Rbac.VisitKeeps | auth/rbac.go:96-114 | dequeuing a new role and queueing its unseen parents keeps the breadth-first invariant |
| Rbac.DropKeeps | auth/rbac.go:98-102 | dropping a duplicate from the queue keeps the breadth-first invariant |
| Rbac.DrainIsExact | auth/rbac.go:83-117 | from any state of the worklist that keeps the invariant, the rest of the loop ends in the exact result |
| Rbac.AppendUnseen | auth/rbac.go:106-113 | the inner loop appends the parents not yet seen, in order |
| Rbac.CollectRoles | auth/rbac.go:83-117 | terminates on any graph and returns each role reachable from the seeds exactly once, in non-decreasing shortest distance |
| Rbac.ReachableIsLeast | auth/rbac.go:83-117 | the reachable roles are the least set with the seeds that contains what its configured roles inherit |
| Rbac.GlobOfSimple | auth/rbac.go:173-183 | for patterns with `*` at most at the end, matching is glob matching |
| Rbac.MatchIsGlobIff | auth/rbac.go:173-183 | matching agrees with glob matching on all values iff the pattern has `*` at most at the end |
| Rbac.MatchPatternIff | auth/rbac.go:173-183 | a last `*` stands for any rest, and every other pattern matches itself alone |
| Rbac.SplitJoin | auth/rbac.go:189 | splitting a permission at its colons loses nothing |
| Rbac.PermissionMeans | auth/rbac.go:185-214 | what a permission of one, two or three parts grants in terms of its type, resource and action, with the resource also matched without a leading "tool:"; more parts grant nothing |
| Rbac.RoleListByList | auth/rbac.go:119-171 | what each list of a role does: permissions add up, a denied tool takes its requests away, allowed actions keep only theirs, and allowed tools grant exactly theirs |
| Rbac.RolePermits | auth/rbac.go:119-171 | the search loops decide whether one role permits: no denied tool matches, allowed tools and actions restrict when given, and some permission or tool grants |
| Rbac.Authorize | auth/rbac.go:51-81 | allows iff some configured role reachable from the subject's roles, or from the default without any, permits alone; otherwise the error of each case |
| Rbac.ReachMonotone | auth/rbac.go:83-117 | more edges and more seeds reach no fewer roles |
| Rbac.AllowedMonotone | auth/rbac.go:51-117 | adding inheritance edges, or roles to a subject that has one, never withdraws access |
| Rbac.FirstRoleReplacesDefault | auth/rbac.go:90-93 | a subject whose only role is not configured is allowed nothing, whatever the default role |
| Rbac.FirstRoleWithdraws | auth/rbac.go:90-93 | for any roles there is a configuration in which a subject without roles is allowed what the same subject with these roles is not |
| Rbac.MoreRolesNeverWithdrawIff | auth/rbac.go:51-117 | adding roles never withdraws access, under any configuration, iff the subject had a role before or gets none |
| Resolver.ParseIff | secret/resolver.go:99-109 | a value parses to a provider and a ref iff it is composed of exactly those, both non-empty and the provider without a colon |
| Resolver.MatchesMeans | secret/resolver.go:132 | the pattern, on a text composed of a reference and its surroundings, holds iff provider and ref are non-empty, neither has ASCII white space, and the provider has no colon |
| Resolver.MatchAtExact | secret/resolver.go:132 | the matcher finds a match at a position iff the pattern has one there, and then the longest |
| Resolver.FindAllTiles | secret/resolver.go:135 | the matches found are ordered, disjoint and miss nothing between them |
| Resolver.SpliceIsExpand | secret/resolver.go:140-154 | splicing the remaining matches into the partly rewritten text gives what the left-to-right pass specifies |
| Resolver.InPlaceIsInline | secret/resolver.go:134-156 | so the whole in-place algorithm is the left-to-right pass |
| Resolver.ErrorWins | secret/resolver.go:141-151 | a failure further right ends the pass before anything to its left counts |
| Resolver.ExpandIsWeave | secret/resolver.go:134-156 | it succeeds iff every reference of the original text resolves, and gives the original gaps interleaved with the resolutions, which are never scanned again |
| Resolver.ErrorIsRightmost | secret/resolver.go:141-151 | a failure is that of the rightmost failing reference |
| Resolver.WholeIsInlineIff | secret/resolver.go:61-64 | a value that is one whole reference is resolved the same way inline if it has no ASCII white space; only then is it one inline match |
| Resolver.Resolver.constructor | secret/resolver.go:21-33 | the initial providers are registered one after the other |
| Resolver.RegisteredIs | secret/resolver.go:26-31 | nil providers are skipped, and of several with one name the last stays |
| Resolver.Resolver.Register | secret/resolver.go:36-44 | a nil provider changes nothing, and any other replaces the provider of its name and no other |
| Resolver.Resolver.ResolveSingle | secret/resolver.go:111-130 | the value, or the first error of blank name, blank ref, unknown provider, provider failure and, if strict, empty value |
| Resolver.SingleMeans | secret/resolver.go:111-130 | a value iff neither name is blank, the provider is registered and answers with it, and it is not empty under a strict resolver; which error is returned in each other case |
| Resolver.Resolver.SpliceInPlace | secret/resolver.go:140-155 | the backward loop over the text being rewritten is the splicing that the lemmas are about |
| Resolver.Resolver.SpliceMatch | secret/resolver.go:141-154 | one round reads provider and ref at the match's own indexes of the rewritten text and puts the resolution in place of the match, or fails as the resolution does |
| Resolver.Resolver.ResolveInline | secret/resolver.go:134-156 | yields what the left-to-right pass over the original text specifies |
| Resolver.Resolver.ResolveValue | secret/resolver.go:47-65 | a failed expansion fails, a nil resolver returns the expanded value, a whole reference is resolved as one, and any other value inline |
| Composite.AnySupports | auth/composite.go:30-37 | a composite supports a request iff some member does |
| Composite.RunMembers | auth/composite.go:40-83 | the loop with its early returns is the fold over the supporting members |
| Composite.ReturnedStays | auth/composite.go:52-75 | after an early return the remaining members do not matter |
| Composite.FlattenIsLeaves | auth/composite.go:30-37 | an authenticator supports a request iff one of its leaves does |
| Composite.NestedStep | auth/composite.go:40-83 | one step with the result of a nested composite is as good as the steps of all its leaves |
| Composite.LoopIsFold | auth/composite.go:40-83 | so the loop over members that may be composites is the fold over their leaves |
| Composite.AuthenticateIsFold | auth/composite.go:40-83 | and the result of a composite is read off that fold |
| Composite.FlatteningKeepsTheOutcome | auth/composite.go:30-83 | with one common StopOnFirst, nesting to any depth gives the result, the error and the support of the flat list |
| Composite.NobodySupports | auth/composite.go:82 | a composite none of whose leaves supports the request fails it for missing credentials |
| Composite.StopMattersIff | auth/composite.go:62-75 | with StopOnFirst the first success or error is returned; without it the outcome differs iff a success comes before every error and there is an error |
| Composite.DecisiveIsFirst | auth/composite.go:62-75 | the decisive outcome is the first error or success there is |
| Composite.CollectingReturns | auth/composite.go:62-82 | without StopOnFirst the first error is returned if there is one, and else the first success or the last failure |
| Composite.SettingMattersIff | auth/composite.go:40-83 | the same for nested composites |

## Left out

- Retry.Execute: does not model the `OnRetry` callback, which gets copies of its arguments.
- Retry.DelaysNeverFall: assumes that the growth law fits int64; `Retry.BaseIsCappedIff` says what happens beyond.
- Retry.BaseIsCappedIff: multiplier and products are reals, so the rounding of `math.Pow` and of the conversion of delays to floating point is not captured.
- Executor.EveryAdmissionReportedIff: the context of the retry loop, the context of the other layers and the clocks are separate parameters, so the model admits more runs than one clock and one context would.
- CircuitBreaker.CircuitBreaker.AfterRequest: the failure classification of `IsFailure` is a parameter, and the notification is recorded but its callback is not run, so callbacks that call back into the breaker are not covered.
- Bulkhead.Bulkhead.Acquire: a blocked sender is served by a receive and then a send, not by the direct hand-off of the Go runtime; the channel length is the same in both. In the class the steps of other callers are arbitrary functions; which states they can reach is said by `Bulkhead.EveryInterleaving`.
- RateLimiter.RateLimiter.AllowN: tokens are reals, so rounding of floating-point numbers is not captured.
- MemoryCache.MemoryCache.Get: values are immutable, so aliasing of byte slices between cache and caller is not captured.
- Middleware.DefaultSkipRule: lower-casing is an arbitrary function.
- Keyer.Canonicalize: inputs are JSON values, and `Unsupported` stands for those that `json.Marshal` rejects. Go structs, which are written in field order, other typed maps, and texts that are not valid UTF-8, whose bad bytes are written as an escape of their own, are outside the model.
- Keyer.KeySeparates: SHA-256 is an arbitrary function, so collision-freeness is a hypothesis.
- Resolver.Resolver.ResolveValue: the outcome of the environment expansion is a parameter.
- Resolver.Resolver.Register: a nil receiver, on which the Go method does nothing, is not modelled.
- Resolver.Resolver.ResolveInline: provider calls are functions of the ref, so side effects and their order are not captured.
- Composite.RunMembers: a nil result without an error, on which the Go code would dereference nil, is not modelled.
- Executor.Execute: a panic of the operation itself is not modelled; a timed-out operation is recorded as abandoned, and what it still does is not followed.
- HTTP, key sets, token verification and introspection (`auth/jwks.go`, `auth/jwt.go`, `auth/oauth2_introspection.go`): network and library code.
- `observe/` and `health/`: telemetry wrappers, a list of registered checks and the maximum of their states.
- `secret/expandenv.go`: rests on the process environment.
- Registries, factories, context helpers, option setters and error texts.
