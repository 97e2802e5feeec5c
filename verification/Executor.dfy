/** The nest of five optional layers of resilience/executor.go.

    Other callers share the limiter, the bulkhead and the breaker, so a call may find any state in them at each
    of its steps. The model therefore gives one call an environment that says what it finds, and records what
    the call itself does to each layer, in order. */
module Executor {
  import opened Wrappers
  import RateLimiter
  import Bulkhead
  import CircuitBreaker
  import opened Retry

  datatype Effect =
    | Took(granted: bool, before: RateLimiter.Bucket, now: int, after: RateLimiter.Bucket)   // one AllowN(1)
    | SlotTaken | SlotRefused | SlotFreed
    | Asked(admitted: bool, seen: CircuitBreaker.Circuit, askedAt: int, left: CircuitBreaker.Circuit)   // beforeRequest
    | Told(found: CircuitBreaker.Circuit, failed: bool, toldAt: int, made: CircuitBreaker.Circuit)      // afterRequest
    | Started      // the operation is called
    | Abandoned    // the timeout returns while the operation still runs

  type Trace = seq<Effect>

  datatype Race = Finished | DeadlinePassed | ContextDone(err: Err)

  /** What the call finds at each position of its trace. */
  datatype Env = Env(
    bucket: nat -> RateLimiter.Bucket, circuit: nat -> CircuitBreaker.Circuit, now: nat -> int,
    acquire: nat -> Bulkhead.AcquireOutcome,
    ctx: nat -> Option<Err>,   // `ctx.Err()`
    cause: nat -> Err,         // `ctx.Err()` after a wait for a slot that the context ended
    result: nat -> Option<Err>, race: nat -> Race)

  datatype Breaker = Breaker(c: CircuitBreaker.ValidConfig, isFailure: Option<Err> -> bool)

  datatype Layers = Layers(
    limiter: Option<RateLimiter.ValidConfig>, bulkhead: bool, breaker: Option<Breaker>,
    retry: Option<Setting>, timeout: bool)

  const LIMITED: Err := "resilience: rate limit exceeded"
  const FULL: Err := "resilience: bulkhead at capacity"
  const OPEN: Err := "resilience: circuit breaker is open"
  const TIMED_OUT: Err := "resilience: operation timed out"

  type Guarded = Trace -> (Trace, Outcome)

  function Call(env: Env): Operation<Trace> {
    (t: Trace) => (t + [Started], env.result(|t|))
  }

  function Timed(env: Env, inner: Operation<Trace>): Operation<Trace> {
    (t: Trace) =>
      var (u, e) := inner(t);
      match env.race(|u|)
      case Finished => (u, e)
      case DeadlinePassed => (u + [Abandoned], Some(TIMED_OUT))
      case ContextDone(err) => (u + [Abandoned], Some(err))
  }

  function Once(inner: Operation<Trace>, t: Trace): (Trace, Outcome) {
    var (u, e) := inner(t);
    (u, Returned(e))
  }

  function Retried(s: Setting, inner: Operation<Trace>, t: Trace): (Trace, Outcome) {
    (After(inner, t, Last(s, inner, t, 1)), Ending(s, inner, t))
  }

  /** A panic passes through without `afterRequest`, which is not deferred. */
  function Broken(env: Env, b: Breaker, inner: Guarded, t: Trace): (Trace, Outcome) {
    var ask := Ask(b, env.circuit(|t|), env.now(|t|));
    if !ask.admitted then (t + [ask], Returned(Some(OPEN)))
    else
      var (u, r) := inner(t + [ask]);
      if r.Panicked? then (u, r)
      else (u + [Telling(b, env.circuit(|u|), b.isFailure(r.err), env.now(|u|))], r)
  }

  function Ask(b: Breaker, seen: CircuitBreaker.Circuit, now: int): (e: Effect)
    ensures e.Asked?
  {
    Asked(CircuitBreaker.Admits(b.c, seen, now), seen, now, CircuitBreaker.Before(b.c, seen, now))
  }

  function Telling(b: Breaker, found: CircuitBreaker.Circuit, failed: bool, now: int): Effect {
    Told(found, failed, now, CircuitBreaker.After(b.c, found, failed, now))
  }

  /** `Release` is deferred, so it runs after a panic too. */
  function Slotted(env: Env, inner: Guarded, t: Trace): (Trace, Outcome) {
    match env.acquire(|t|)
    case Full => (t + [SlotRefused], Returned(Some(FULL)))
    case Cancelled => (t, Returned(Some(env.cause(|t|))))
    case Acquired => var (u, r) := inner(t + [SlotTaken]); (u + [SlotFreed], r)
  }

  function Take(c: RateLimiter.ValidConfig, env: Env, t: Trace): (bool, Trace) {
    var b, now := env.bucket(|t|), env.now(|t|);
    var ok := RateLimiter.Grants(c, b, 1, now);
    (ok, t + [Took(ok, b, now, RateLimiter.Step(c, b, RateLimiter.Allow(1, now)))])
  }

  /** The second attempt is made only by a limiter that waits. */
  function Metered(c: RateLimiter.ValidConfig, env: Env, inner: Guarded, t: Trace): (Trace, Outcome) {
    if c.waitOnLimit && env.ctx(|t|).Some? then (t, Returned(env.ctx(|t|)))
    else
      var (ok, u) := Take(c, env, t);
      if ok then inner(u)
      else if !c.waitOnLimit then (u, Returned(Some(LIMITED)))
      else if env.ctx(|u|).Some? then (u, Returned(env.ctx(|u|)))
      else
        var (again, v) := Take(c, env, u);
        if again then inner(v) else (v, Returned(Some(LIMITED)))
  }

  // The nest, layer by layer from the inside.

  function Attempt(l: Layers, env: Env): Operation<Trace> {
    if l.timeout then Timed(env, Call(env)) else Call(env)
  }

  function Core(l: Layers, env: Env, t: Trace): (Trace, Outcome) {
    if l.retry.Some? then Retried(l.retry.value, Attempt(l, env), t) else Once(Attempt(l, env), t)
  }

  function ToBreaker(l: Layers, env: Env, t: Trace): (Trace, Outcome) {
    if l.breaker.Some? then Broken(env, l.breaker.value, (x: Trace) => Core(l, env, x), t) else Core(l, env, t)
  }

  function ToBulkhead(l: Layers, env: Env, t: Trace): (Trace, Outcome) {
    if l.bulkhead then Slotted(env, (x: Trace) => ToBreaker(l, env, x), t) else ToBreaker(l, env, t)
  }

  function ToLimiter(l: Layers, env: Env, t: Trace): (Trace, Outcome) {
    if l.limiter.Some? then Metered(l.limiter.value, env, (x: Trace) => ToBulkhead(l, env, x), t)
    else ToBulkhead(l, env, t)
  }

  // ---------------------------------------------------------------------------
  // What a call does

  datatype Kind =
    Spend | Denial | SlotIn | SlotRefusal | SlotOut | Admission | Rejection | Report | Start | Abandon

  function KindOf(e: Effect): Kind {
    match e
    case Took(granted, _, _, _) => if granted then Spend else Denial
    case SlotTaken => SlotIn
    case SlotRefused => SlotRefusal
    case SlotFreed => SlotOut
    case Asked(admitted, _, _, _) => if admitted then Admission else Rejection
    case Told(_, _, _, _) => Report
    case Started => Start
    case Abandoned => Abandon
  }

  function Count(s: Trace, k: Kind): nat {
    if s == [] then 0 else (if KindOf(s[0]) == k then 1 else 0) + Count(s[1..], k)
  }

  lemma {:induction false} CountSnoc(s: Trace, z: Effect, k: Kind)
    ensures Count(s + [z], k) == Count(s, k) + if KindOf(z) == k then 1 else 0
  {
    if s == [] {
      assert s + [z] == [z];
    } else {
      assert (s + [z])[1..] == s[1..] + [z];
      CountSnoc(s[1..], z, k);
    }
  }

  lemma CountHead(s: Trace, k: Kind)
    requires 0 < |s|
    ensures Count(s, k) == Count(s[1..], k) + if KindOf(s[0]) == k then 1 else 0
  {}

  lemma CountEnds(s: Trace, k: Kind)
    requires 1 < |s|
    ensures Count(s, k) == Count(s[1..|s| - 1], k)
      + (if KindOf(s[0]) == k then 1 else 0) + (if KindOf(s[|s| - 1]) == k then 1 else 0)
  {
    assert s[1..] == s[1..|s| - 1] + [s[|s| - 1]];
    CountSnoc(s[1..|s| - 1], s[|s| - 1], k);
  }

  lemma {:induction false} CountNone(s: Trace, k: Kind)
    requires forall e :: e in s ==> KindOf(e) != k
    ensures Count(s, k) == 0
  {
    if s != [] { CountNone(s[1..], k); }
  }

  function Limit(l: Layers): int {
    if l.retry.Some? then l.retry.value.c.maxAttempts else 1
  }

  /** The calls of the operation, alone or retried: at least one, at most the limit, some abandoned. */
  ghost predicate Attempts(l: Layers, s: Trace) {
    && (forall e :: e in s ==> e.Started? || e.Abandoned?)
    && 1 <= Count(s, Start) <= Limit(l)
    && Count(s, Abandon) <= (if l.timeout then Count(s, Start) else 0)
  }

  predicate AskedWell(b: Breaker, e: Effect) {
    e.Asked? && e == Ask(b, e.seen, e.askedAt)
  }

  /** One question to the breaker, and exactly one report if it admitted the call and nothing panicked. */
  ghost predicate BreakerDeed(l: Layers, s: Trace, r: Outcome) {
    if l.breaker.None? then Attempts(l, s)
    else
      var b := l.breaker.value;
      0 < |s| && AskedWell(b, s[0]) &&
      if !s[0].admitted then |s| == 1 && r == Returned(Some(OPEN))
      else if r.Panicked? then Attempts(l, s[1..])
      else
        && 1 < |s|
        && var z := s[|s| - 1];
           && z.Told? && z == Telling(b, z.found, b.isFailure(r.err), z.toldAt)
           && Attempts(l, s[1..|s| - 1])
  }

  /** Nothing, one refusal, or one slot held around everything inside and freed at the end. */
  ghost predicate BulkheadDeed(l: Layers, s: Trace, r: Outcome) {
    if !l.bulkhead then BreakerDeed(l, s, r)
    else
      || (s == [] && r.Returned? && r.err.Some?)
      || (s == [SlotRefused] && r == Returned(Some(FULL)))
      || (1 < |s| && s[0] == SlotTaken && s[|s| - 1] == SlotFreed && BreakerDeed(l, s[1..|s| - 1], r))
  }

  predicate TookWell(c: RateLimiter.ValidConfig, e: Effect, granted: bool) {
    && e.Took?
    && e.granted == granted == RateLimiter.Grants(c, e.before, 1, e.now)
    && e.after == RateLimiter.Step(c, e.before, RateLimiter.Allow(1, e.now))
  }

  /** At most one denied attempt, two at the end of a failed wait, and everything inside only after a granted one. */
  ghost predicate LimiterDeed(l: Layers, s: Trace, r: Outcome) {
    if l.limiter.None? then BulkheadDeed(l, s, r)
    else
      var c := l.limiter.value;
      || (s == [] && c.waitOnLimit && r.Returned? && r.err.Some?)
      || (0 < |s| && TookWell(c, s[0], true) && BulkheadDeed(l, s[1..], r))
      || (|s| == 1 && TookWell(c, s[0], false)
          && r.Returned? && r.err.Some? && (c.waitOnLimit || r.err == Some(LIMITED)))
      || (|s| == 2 && c.waitOnLimit && TookWell(c, s[0], false) && TookWell(c, s[1], false)
          && r == Returned(Some(LIMITED)))
      || (1 < |s| && c.waitOnLimit && TookWell(c, s[0], false) && TookWell(c, s[1], true) && BulkheadDeed(l, s[2..], r))
  }

  lemma OneAttempt(l: Layers, env: Env, t: Trace)
    ensures var u := Attempt(l, env)(t).0;
            u == t + [Started] || (l.timeout && u == t + [Started, Abandoned])
  {
    if l.timeout && env.race(|t + [Started]|) != Finished {
      assert t + [Started] + [Abandoned] == t + [Started, Abandoned];
    }
  }

  /** `k` calls of the operation and what was abandoned among them. */
  ghost predicate Calls(l: Layers, s: Trace, k: nat) {
    && (forall e :: e in s ==> e.Started? || e.Abandoned?)
    && Count(s, Start) == k
    && Count(s, Abandon) <= (if l.timeout then k else 0)
  }

  lemma OneMoreCall(l: Layers, s: Trace, k: nat)
    requires Calls(l, s, k)
    ensures Calls(l, s + [Started], k + 1)
    ensures l.timeout ==> Calls(l, s + [Started] + [Abandoned], k + 1)
  {
    forall d { CountSnoc(s, Started, d); }
    forall d { CountSnoc(s + [Started], Abandoned, d); }
  }

  lemma OneMoreAttempt(l: Layers, env: Env, t: Trace, u: Trace, k: nat)
    requires t <= u && Calls(l, u[|t|..], k)
    ensures var v := Attempt(l, env)(u).0; t <= v && Calls(l, v[|t|..], k + 1)
  {
    OneAttempt(l, env, u);
    OneMoreCall(l, u[|t|..], k);
    assert (u + [Started])[|t|..] == u[|t|..] + [Started];
    assert (u + [Started, Abandoned])[|t|..] == u[|t|..] + [Started] + [Abandoned];
  }

  lemma {:induction false} ManyAttempts(l: Layers, env: Env, t: Trace, k: nat)
    ensures t <= After(Attempt(l, env), t, k)
    ensures Calls(l, After(Attempt(l, env), t, k)[|t|..], k)
  {
    if k == 0 {
      assert t[|t|..] == [];
    } else {
      ManyAttempts(l, env, t, k - 1);
      OneMoreAttempt(l, env, t, After(Attempt(l, env), t, k - 1), k - 1);
    }
  }

  lemma CoreDoes(l: Layers, env: Env, t: Trace)
    ensures t <= Core(l, env, t).0 && Attempts(l, Core(l, env, t).0[|t|..])
  {
    if l.retry.Some? {
      ManyAttempts(l, env, t, Last(l.retry.value, Attempt(l, env), t, 1));
    } else {
      ManyAttempts(l, env, t, 1);
      assert After(Attempt(l, env), t, 0) == t;
    }
  }

  lemma Follow(t: Trace, a: Effect, u: Trace)
    requires t + [a] <= u
    ensures t <= u && u[|t|] == a && u[|t|..][0] == a && u[|t|..][1..] == u[|t| + 1..]
  {}

  lemma Enclose(t: Trace, a: Effect, u: Trace, z: Effect)
    requires t + [a] <= u
    ensures t <= u + [z]
    ensures var s := (u + [z])[|t|..]; 1 < |s| && s[0] == a && s[|s| - 1] == z && s[1..|s| - 1] == u[|t| + 1..]
  {}

  lemma BreakerDoes(l: Layers, env: Env, t: Trace)
    ensures var (u, r) := ToBreaker(l, env, t); t <= u && BreakerDeed(l, u[|t|..], r)
  {
    if l.breaker.None? {
      CoreDoes(l, env, t);
    } else {
      var b := l.breaker.value;
      var ask := Ask(b, env.circuit(|t|), env.now(|t|));
      var (u, r) := Core(l, env, t + [ask]);
      CoreDoes(l, env, t + [ask]);
      Follow(t, ask, u);
      if !r.Panicked? {
        Enclose(t, ask, u, Telling(b, env.circuit(|u|), b.isFailure(r.err), env.now(|u|)));
      }
    }
  }

  lemma BulkheadDoes(l: Layers, env: Env, t: Trace)
    ensures var (u, r) := ToBulkhead(l, env, t); t <= u && BulkheadDeed(l, u[|t|..], r)
  {
    if !l.bulkhead {
      BreakerDoes(l, env, t);
    } else {
      BreakerDoes(l, env, t + [SlotTaken]);
      Enclose(t, SlotTaken, ToBreaker(l, env, t + [SlotTaken]).0, SlotFreed);
    }
  }

  lemma LimiterDoes(l: Layers, env: Env, t: Trace)
    ensures var (u, r) := ToLimiter(l, env, t); t <= u && LimiterDeed(l, u[|t|..], r)
  {
    BulkheadDoes(l, env, t);
    if l.limiter.Some? {
      var c := l.limiter.value;
      var (ok, u) := Take(c, env, t);
      BulkheadDoes(l, env, u);
      Follow(t, u[|t|], ToBulkhead(l, env, u).0);
      var (again, v) := Take(c, env, u);
      BulkheadDoes(l, env, v);
      var w := ToBulkhead(l, env, v).0;
      Follow(t, v[|t|], w);
      Follow(u, v[|u|], w);
      assert w[|t|..][2..] == w[|v|..];
    }
  }

  // ---------------------------------------------------------------------------
  // Accounts of one call

  /** What the breaker and everything inside it did. */
  ghost predicate BreakerAccount(l: Layers, s: Trace, r: Outcome) {
    && (forall k :: k in {Spend, Denial, SlotIn, SlotRefusal, SlotOut} ==> Count(s, k) == 0)
    && Count(s, Admission) <= 1 && Count(s, Start) <= Limit(l)
    && Count(s, Report) == (if r.Returned? then Count(s, Admission) else 0)
    && (0 < Count(s, Start) <==> l.breaker.None? || Count(s, Admission) == 1)
    && (Count(s, Start) == 0 ==> r == Returned(Some(OPEN)))
    && Count(s, Abandon) <= (if l.timeout then Count(s, Start) else 0)
  }

  lemma AttemptsAccount(l: Layers, s: Trace, k: Kind)
    requires Attempts(l, s) && k != Start && k != Abandon
    ensures Count(s, k) == 0
  {
    CountNone(s, k);
  }

  lemma BreakerAccounts(l: Layers, s: Trace, r: Outcome)
    requires BreakerDeed(l, s, r)
    ensures BreakerAccount(l, s, r)
  {
    if l.breaker.None? {
      forall k | k != Start && k != Abandon { AttemptsAccount(l, s, k); }
    } else if !s[0].admitted {
      assert s[1..] == [];
      forall k { CountHead(s, k); }
    } else if r.Panicked? {
      forall k { CountHead(s, k); }
      forall k | k != Start && k != Abandon { AttemptsAccount(l, s[1..], k); }
    } else {
      var calls := s[1..|s| - 1];
      forall k { CountEnds(s, k); }
      forall k | k != Start && k != Abandon { AttemptsAccount(l, calls, k); }
    }
  }

  /** What the bulkhead and everything inside it did. */
  ghost predicate BulkheadAccount(l: Layers, s: Trace, r: Outcome) {
    && Count(s, Spend) == Count(s, Denial) == 0
    && Count(s, SlotIn) == Count(s, SlotOut) <= 1
    && (l.bulkhead && Count(s, SlotIn) == 0 ==>
          (forall k :: k != SlotRefusal ==> Count(s, k) == 0) && r.Returned? && r.err.Some?)
    && Count(s, Admission) <= 1 && Count(s, Start) <= Limit(l)
    && Count(s, Report) == (if r.Returned? then Count(s, Admission) else 0)
    && (0 < Count(s, Start) <==>
          (!l.bulkhead || Count(s, SlotIn) == 1) && (l.breaker.None? || Count(s, Admission) == 1))
    && (Count(s, Start) == 0 ==> r.Returned? && r.err.Some?)
    && Count(s, Abandon) <= (if l.timeout then Count(s, Start) else 0)
  }

  lemma BulkheadAccounts(l: Layers, s: Trace, r: Outcome)
    requires BulkheadDeed(l, s, r)
    ensures BulkheadAccount(l, s, r)
  {
    if !l.bulkhead {
      BreakerAccounts(l, s, r);
    } else if |s| <= 1 {
      forall k | k != SlotRefusal { CountNone(s, k); }
    } else {
      BreakerAccounts(l, s[1..|s| - 1], r);
      forall k { CountEnds(s, k); }
    }
  }

  /** What the whole call did. */
  ghost predicate CallAccount(l: Layers, s: Trace, r: Outcome) {
    && Count(s, Spend) <= 1
    && Count(s, SlotIn) == Count(s, SlotOut) <= 1
    && Count(s, Report) == (if r.Returned? then Count(s, Admission) else 0)
    && Count(s, Admission) <= 1
    && Count(s, Start) <= Limit(l)
    && Count(s, Abandon) <= (if l.timeout then Count(s, Start) else 0)
    && (0 < Count(s, Start) <==>
          && (l.limiter.None? || Count(s, Spend) == 1)
          && (!l.bulkhead || Count(s, SlotIn) == 1)
          && (l.breaker.None? || Count(s, Admission) == 1))
  }

  /** A layer that refuses the call leaves every layer inside it untouched, and the call ends with an error. */
  ghost predicate RefusalStops(l: Layers, s: Trace, r: Outcome) {
    && (Count(s, Start) == 0 ==> r.Returned? && r.err.Some? && Count(s, Report) == 0)
    && (l.limiter.Some? && Count(s, Spend) == 0 ==> forall k :: k != Denial ==> Count(s, k) == 0)
    && (l.bulkhead && Count(s, SlotIn) == 0 ==>
          forall k :: k !in {Spend, Denial, SlotRefusal} ==> Count(s, k) == 0)
  }

  /** One spent token in front of what the inner layers did, and perhaps a denied attempt before it. */
  lemma AfterGrant(l: Layers, s: Trace, denials: Trace, z: Effect, m: Trace, r: Outcome)
    requires l.limiter.Some? && BulkheadAccount(l, m, r) && KindOf(z) == Spend
    requires denials == [] || (|denials| == 1 && KindOf(denials[0]) == Denial)
    requires s == denials + [z] + m
    ensures CallAccount(l, s, r) && RefusalStops(l, s, r)
  {
    forall k ensures Count(s, k)
      == Count(m, k) + (if k == Spend then 1 else 0) + (if k == Denial then |denials| else 0)
    {
      if denials != [] {
        CountHead(s, k);
        assert s[1..] == [z] + m;
      } else {
        assert s == [z] + m;
      }
      CountHead([z] + m, k);
      assert ([z] + m)[1..] == m;
    }
  }

  /** No token was spent, so nothing but denied attempts happened. */
  lemma OnlyDenials(l: Layers, s: Trace, r: Outcome)
    requires l.limiter.Some? && (forall e :: e in s ==> KindOf(e) == Denial) && r.Returned? && r.err.Some?
    ensures CallAccount(l, s, r) && RefusalStops(l, s, r)
  {
    forall k | k != Denial { CountNone(s, k); }
  }

  lemma LimiterAccounts(l: Layers, s: Trace, r: Outcome)
    requires LimiterDeed(l, s, r)
    ensures CallAccount(l, s, r) && RefusalStops(l, s, r)
  {
    if l.limiter.None? {
      BulkheadAccounts(l, s, r);
    } else if 0 < |s| && s[0].granted {
      BulkheadAccounts(l, s[1..], r);
      AfterGrant(l, s, [], s[0], s[1..], r);
    } else if 1 < |s| && s[1].granted {
      BulkheadAccounts(l, s[2..], r);
      AfterGrant(l, s, [s[0]], s[1], s[2..], r);
    } else {
      OnlyDenials(l, s, r);
    }
  }

  /** For every set of layers and whatever the other callers do: one call spends at most one token, takes at most
      one slot and frees it, reports at most one outcome to the breaker (exactly one if it was admitted and
      returns), and starts the operation at most MaxAttempts times; it starts it iff every layer let it in. */
  lemma {:induction false} EveryCall(l: Layers, env: Env)
    ensures var (s, r) := ToLimiter(l, env, []); CallAccount(l, s, r)
  {
    var (s, r) := ToLimiter(l, env, []);
    LimiterDoes(l, env, []);
    assert s[0..] == s;
    LimiterAccounts(l, s, r);
  }

  /** And a layer that refuses it leaves all layers inside untouched. */
  lemma {:induction false} EveryRefusal(l: Layers, env: Env)
    ensures var (s, r) := ToLimiter(l, env, []); RefusalStops(l, s, r)
  {
    var (s, r) := ToLimiter(l, env, []);
    LimiterDoes(l, env, []);
    assert s[0..] == s;
    LimiterAccounts(l, s, r);
  }

  // ---------------------------------------------------------------------------
  // What a call returns, read off its own record

  /** What the attempt that starts at place `i` of the record yields: the error of the operation if it finishes
      first, and that of the time-out or of the context if it does not. */
  function Answer(l: Layers, env: Env, i: nat): Option<Err> {
    if !l.timeout then env.result(i)
    else
      match env.race(i + 1)
      case Finished => env.result(i)
      case DeadlinePassed => Some(TIMED_OUT)
      case ContextDone(err) => Some(err)
  }

  /** The error is one that the retry layer is told to try again. */
  predicate TriedAgain(l: Layers, e: Option<Err>) {
    l.retry.Some? && e.Some? && l.retry.value.retryIf(e.value)
  }

  ghost predicate LastStart(s: Trace, i: nat) {
    i < |s| && s[i].Started? && forall j :: i < j < |s| ==> !s[j].Started?
  }

  /** What the call returns when its `k`-th and last start is at `i`. */
  ghost predicate Law(l: Layers, env: Env, k: nat, i: nat, r: Outcome)
    requires 1 <= k
  {
    var e := Answer(l, env, i);
    if !TriedAgain(l, e) || k >= l.retry.value.c.maxAttempts then r == Returned(e)
    else
      var s := l.retry.value;
      match CalculateDelay(s.c, k, s.draw(k))
      case None => r == Panicked
      case Some(_) => s.done.Some? && r == Returned(Some(s.done.value.err))
  }

  /** The result is that of the last attempt, and every attempt before it was to be tried again. */
  ghost predicate Answers(l: Layers, env: Env, s: Trace, r: Outcome) {
    && (forall i :: LastStart(s, i) ==> 1 <= Count(s, Start) && Law(l, env, Count(s, Start), i, r))
    && (forall i, j :: 0 <= i < j < |s| && s[i].Started? && s[j].Started? ==> TriedAgain(l, Answer(l, env, i)))
  }

  predicate NoStart(t: Trace) {
    forall i :: 0 <= i < |t| ==> !t[i].Started?
  }

  lemma NoStartAnswers(l: Layers, env: Env, t: Trace, r: Outcome)
    requires NoStart(t)
    ensures Answers(l, env, t, r) && Count(t, Start) == 0
  {
    CountNone(t, Start);
  }

  lemma AnswersSnoc(l: Layers, env: Env, s: Trace, z: Effect, r: Outcome)
    requires Answers(l, env, s, r) && !z.Started?
    ensures Answers(l, env, s + [z], r)
  {
    CountSnoc(s, z, Start);
    forall i | LastStart(s + [z], i) ensures LastStart(s, i) {
      assert forall j :: 0 <= j < |s| ==> (s + [z])[j] == s[j];
    }
  }

  /** `k` attempts from `t` on, all but the last to be tried again. */
  ghost predicate Attempted(l: Layers, env: Env, t: Trace, k: nat)
    requires 1 <= k
  {
    var op := Attempt(l, env);
    var v, u := After(op, t, k - 1), After(op, t, k);
    && Count(u, Start) == k && LastStart(u, |v|) && ErrorOf(op, t, k) == Answer(l, env, |v|)
    && (forall i :: 0 <= i < |v| && u[i].Started? ==> TriedAgain(l, Answer(l, env, i)))
  }

  lemma StartAfter(v: Trace, u: Trace)
    requires u == v + [Started] || u == v + [Started] + [Abandoned]
    ensures v <= u && LastStart(u, |v|) && Count(u, Start) == Count(v, Start) + 1
  {
    CountSnoc(v, Started, Start);
    CountSnoc(v + [Started], Abandoned, Start);
  }

  lemma AttemptAnswers(l: Layers, env: Env, v: Trace)
    ensures var (u, e) := Attempt(l, env)(v);
            (u == v + [Started] || u == v + [Started] + [Abandoned]) && e == Answer(l, env, |v|)
  {
    assert |v + [Started]| == |v| + 1;
  }

  lemma OneStart(l: Layers, env: Env, v: Trace)
    ensures var (u, e) := Attempt(l, env)(v);
            && v <= u && LastStart(u, |v|) && e == Answer(l, env, |v|) && Count(u, Start) == Count(v, Start) + 1
  {
    AttemptAnswers(l, env, v);
    StartAfter(v, Attempt(l, env)(v).0);
  }

  lemma FirstAttempt(l: Layers, env: Env, t: Trace)
    requires NoStart(t)
    ensures Attempted(l, env, t, 1)
  {
    assert After(Attempt(l, env), t, 0) == t;
    OneStart(l, env, t);
    CountNone(t, Start);
  }

  lemma NextAttempt(l: Layers, env: Env, t: Trace, k: nat)
    requires 1 <= k && Attempted(l, env, t, k) && TriedAgain(l, ErrorOf(Attempt(l, env), t, k))
    ensures Attempted(l, env, t, k + 1)
  {
    var op := Attempt(l, env);
    var v, u := After(op, t, k), After(op, t, k + 1);
    OneStart(l, env, v);
    forall i | 0 <= i < |v| && u[i].Started? ensures TriedAgain(l, Answer(l, env, i)) { assert v[i] == u[i]; }
  }

  lemma {:induction false} AttemptsAnswer(l: Layers, env: Env, t: Trace, k: nat)
    requires NoStart(t) && 1 <= k
    requires forall i :: 1 <= i < k ==> TriedAgain(l, ErrorOf(Attempt(l, env), t, i))
    ensures Attempted(l, env, t, k)
  {
    if k == 1 {
      FirstAttempt(l, env, t);
    } else {
      AttemptsAnswer(l, env, t, k - 1);
      NextAttempt(l, env, t, k - 1);
    }
  }

  lemma CoreAnswers(l: Layers, env: Env, t: Trace)
    requires NoStart(t)
    ensures Answers(l, env, Core(l, env, t).0, Core(l, env, t).1)
  {
    var op := Attempt(l, env);
    if l.retry.None? {
      AttemptsAnswer(l, env, t, 1);
      assert After(op, t, 0) == t && After(op, t, 1) == op(t).0;
    } else {
      var s := l.retry.value;
      var n := Last(s, op, t, 1);
      LastIsFirstStop(s, op, t, 1);
      forall i | 1 <= i < n ensures TriedAgain(l, ErrorOf(op, t, i)) { assert Continues(s, op, t, i); }
      AttemptsAnswer(l, env, t, n);
      assert !Continues(s, op, t, n);
    }
  }

  lemma BreakerAnswers(l: Layers, env: Env, t: Trace)
    requires NoStart(t)
    ensures Answers(l, env, ToBreaker(l, env, t).0, ToBreaker(l, env, t).1)
  {
    if l.breaker.None? {
      CoreAnswers(l, env, t);
    } else {
      var b := l.breaker.value;
      var ask := Ask(b, env.circuit(|t|), env.now(|t|));
      NoStartAnswers(l, env, t + [ask], Returned(Some(OPEN)));
      var (u, r) := Core(l, env, t + [ask]);
      CoreAnswers(l, env, t + [ask]);
      if r.Returned? {
        AnswersSnoc(l, env, u, Telling(b, env.circuit(|u|), b.isFailure(r.err), env.now(|u|)), r);
      }
    }
  }

  lemma BulkheadAnswers(l: Layers, env: Env, t: Trace)
    requires NoStart(t)
    ensures Answers(l, env, ToBulkhead(l, env, t).0, ToBulkhead(l, env, t).1)
  {
    if !l.bulkhead {
      BreakerAnswers(l, env, t);
    } else if env.acquire(|t|).Acquired? {
      BreakerAnswers(l, env, t + [SlotTaken]);
      var (u, r) := ToBreaker(l, env, t + [SlotTaken]);
      AnswersSnoc(l, env, u, SlotFreed, r);
    } else {
      NoStartAnswers(l, env, ToBulkhead(l, env, t).0, ToBulkhead(l, env, t).1);
    }
  }

  /** The result of the last attempt passes unchanged through the breaker, the bulkhead and the limiter. */
  lemma {:induction false} CallAnswers(l: Layers, env: Env)
    ensures var (s, r) := ToLimiter(l, env, []); Answers(l, env, s, r)
  {
    BulkheadAnswers(l, env, []);
    NoStartAnswers(l, env, [], ToLimiter(l, env, []).1);
    if l.limiter.Some? {
      var u := Take(l.limiter.value, env, []).1;
      var v := Take(l.limiter.value, env, u).1;
      BulkheadAnswers(l, env, u);
      BulkheadAnswers(l, env, v);
      NoStartAnswers(l, env, u, ToLimiter(l, env, []).1);
      NoStartAnswers(l, env, v, ToLimiter(l, env, []).1);
    }
  }

  /** The error of a call that never starts the operation, read off its record: the breaker's if it was asked, the
      bulkhead's if it refused, the limiter's after a denied attempt, and otherwise that of the context. */
  function Refusal(l: Layers, env: Env, s: Trace): Outcome {
    var n := |s|;
    if 0 < n && (s[n - 1].Asked? || s[n - 1].SlotFreed?) then Returned(Some(OPEN))
    else if 0 < n && s[n - 1].SlotRefused? then Returned(Some(FULL))
    else if 0 < n && s[n - 1].Took? && !s[n - 1].granted then
      if l.limiter.Some? && l.limiter.value.waitOnLimit && n == 1 && env.ctx(1).Some? then Returned(env.ctx(1))
      else Returned(Some(LIMITED))
    else if n == 0 && l.limiter.Some? then Returned(env.ctx(0))
    else Returned(Some(env.cause(n)))
  }

  lemma BulkheadRefuses(l: Layers, env: Env, t: Trace)
    requires if l.limiter.Some? then 0 < |t| && t[|t| - 1].Took? && t[|t| - 1].granted else t == []
    requires NoStart(t) && NoStart(ToBulkhead(l, env, t).0)
    ensures ToBulkhead(l, env, t).1 == Refusal(l, env, ToBulkhead(l, env, t).0)
  {
    BreakerStartsOrRefuses(l, env, t);
    BreakerStartsOrRefuses(l, env, t + [SlotTaken]);
    if l.bulkhead && env.acquire(|t|).Acquired? {
      var u := ToBreaker(l, env, t + [SlotTaken]).0;
      assert forall i :: 0 <= i < |u| ==> (u + [SlotFreed])[i] == u[i];
    }
  }

  lemma {:induction false} CountedHasStart(s: Trace)
    requires 1 <= Count(s, Start)
    ensures !NoStart(s)
  {
    if NoStart(s) { CountNone(s, Start); }
  }

  lemma CoreHasStart(l: Layers, env: Env, t: Trace)
    ensures !NoStart(Core(l, env, t).0)
  {
    CoreDoes(l, env, t);
    var u := Core(l, env, t).0;
    CountedHasStart(u[|t|..]);
    var i :| 0 <= i < |u[|t|..]| && u[|t|..][i].Started?;
    assert u[|t| + i].Started?;
  }

  lemma NoStartPrefix(u: Trace, v: Trace)
    requires u <= v && NoStart(v)
    ensures NoStart(u)
  {
    assert forall i :: 0 <= i < |u| ==> u[i] == v[i];
  }

  lemma BreakerStartsOrRefuses(l: Layers, env: Env, t: Trace)
    ensures var (u, r) := ToBreaker(l, env, t);
            NoStart(u) ==> r == Returned(Some(OPEN)) && 0 < |u| && u[|u| - 1].Asked?
  {
    var u := ToBreaker(l, env, t).0;
    if NoStart(u) {
      if l.breaker.None? {
        CoreHasStart(l, env, t);
      } else {
        var asked := t + [Ask(l.breaker.value, env.circuit(|t|), env.now(|t|))];
        CoreHasStart(l, env, asked);
        var core := Core(l, env, asked).0;
        if core <= u { NoStartPrefix(core, u); }
      }
    }
  }

  lemma {:induction false} CallRefuses(l: Layers, env: Env)
    ensures var (s, r) := ToLimiter(l, env, []); NoStart(s) ==> r == Refusal(l, env, s)
  {
    if NoStart(ToLimiter(l, env, []).0) {
      if l.limiter.None? {
        BulkheadRefuses(l, env, []);
      } else {
        var (ok, u) := Take(l.limiter.value, env, []);
        var (again, v) := Take(l.limiter.value, env, u);
        if ok && !(l.limiter.value.waitOnLimit && env.ctx(0).Some?) {
          BulkheadRefuses(l, env, u);
        } else if l.limiter.value.waitOnLimit && env.ctx(0).None? && env.ctx(|u|).None? && again {
          BulkheadRefuses(l, env, v);
        }
      }
    }
  }

  /** Only the retry loop can panic, and every layer around it passes the panic on. */
  lemma NestReturns(l: Layers, env: Env, t: Trace)
    requires l.retry.Some? ==> PanicFree(l.retry.value.c)
    ensures ToBulkhead(l, env, t).1.Returned?
  {
    forall u ensures Core(l, env, u).1.Returned? {
      if l.retry.Some? { PanicFreeReturns(l.retry.value, Attempt(l, env), u); }
    }
  }

  /** Every call returns, and every admission is reported to the breaker, iff no wait of the retry configuration
      can panic. */
  lemma {:induction false} EveryAdmissionReportedIff(c: ValidConfig)
    ensures PanicFree(c) <==>
      forall l: Layers, env: Env | l.retry.Some? && l.retry.value.c == c ::
        var (s, r) := ToLimiter(l, env, []);
        r.Returned? && Count(s, Report) == Count(s, Admission)
  {
    if PanicFree(c) {
      forall l: Layers, env: Env | l.retry.Some? && l.retry.value.c == c
        ensures var (s, r) := ToLimiter(l, env, []);
                r.Returned? && Count(s, Report) == Count(s, Admission)
      {
        EveryCall(l, env);
        forall u { NestReturns(l, env, u); }
      }
    } else {
      var l, env := ProbeThatPanics(c);
    }
  }

  lemma {:induction false} ProbeThatPanics(c: ValidConfig) returns (l: Layers, env: Env)
    requires !PanicFree(c)
    ensures l.retry.Some? && l.retry.value.c == c
    ensures var (s, r) := ToLimiter(l, env, []);
            r == Panicked && Count(s, Admission) == 1 && Count(s, Report) == 0
  {
    var breaker := Breaker(CircuitBreaker.Config(5, 1, 1), (e: Option<Err>) => e.Some?);
    l := Layers(None, false, Some(breaker), Some(Persistent(c)), false);
    env := Env(n => RateLimiter.Bucket(0.0, 0), n => CircuitBreaker.Fresh(), n => 0, n => Bulkhead.Acquired,
               n => None, n => "", n => Some("failed"), n => Finished);
    var op := Attempt(l, env);
    var ask := Ask(l.breaker.value, CircuitBreaker.Fresh(), 0);
    forall k | 1 <= k ensures ErrorOf(op, [ask], k).Some? {}
    AlwaysFailingPanics(c, op, [ask]);
    assert [] + [ask] == [ask];
    EveryCall(l, env);
    EveryRefusal(l, env);
  }

  /** Two operations with the same effects make the same layer around them. */
  ghost predicate Same(f: Guarded, g: Guarded) {
    forall x: Trace :: f(x) == g(x)
  }

  lemma BrokenSame(l: Layers, env: Env, f: Guarded, x: Trace)
    requires l.breaker.Some? && Same(f, (y: Trace) => Core(l, env, y))
    ensures Broken(env, l.breaker.value, f, x) == ToBreaker(l, env, x)
  {
    var asked := x + [Ask(l.breaker.value, env.circuit(|x|), env.now(|x|))];
    assert f(asked) == Core(l, env, asked);
  }

  lemma SlottedSame(l: Layers, env: Env, f: Guarded, x: Trace)
    requires l.bulkhead && Same(f, (y: Trace) => ToBreaker(l, env, y))
    ensures Slotted(env, f, x) == ToBulkhead(l, env, x)
  {
    assert f(x + [SlotTaken]) == ToBreaker(l, env, x + [SlotTaken]);
  }

  lemma MeteredSame(l: Layers, env: Env, f: Guarded, x: Trace)
    requires l.limiter.Some? && Same(f, (y: Trace) => ToBulkhead(l, env, y))
    ensures Metered(l.limiter.value, env, f, x) == ToLimiter(l, env, x)
  {
    var u := Take(l.limiter.value, env, x).1;
    var v := Take(l.limiter.value, env, u).1;
    assert f(u) == ToBulkhead(l, env, u) && f(v) == ToBulkhead(l, env, v);
  }

  method WithBreaker(l: Layers, env: Env, inner: Guarded) returns (execute: Guarded)
    requires Same(inner, (y: Trace) => Core(l, env, y))
    ensures Same(execute, (y: Trace) => ToBreaker(l, env, y))
  {
    execute := inner;
    if l.breaker.Some? {
      execute := (x: Trace) => Broken(env, l.breaker.value, inner, x);
      forall x: Trace ensures execute(x) == ToBreaker(l, env, x) { BrokenSame(l, env, inner, x); }
    }
  }

  method WithBulkhead(l: Layers, env: Env, inner: Guarded) returns (execute: Guarded)
    requires Same(inner, (y: Trace) => ToBreaker(l, env, y))
    ensures Same(execute, (y: Trace) => ToBulkhead(l, env, y))
  {
    execute := inner;
    if l.bulkhead {
      execute := (x: Trace) => Slotted(env, inner, x);
      forall x: Trace ensures execute(x) == ToBulkhead(l, env, x) { SlottedSame(l, env, inner, x); }
    }
  }

  method WithLimiter(l: Layers, env: Env, inner: Guarded) returns (execute: Guarded)
    requires Same(inner, (y: Trace) => ToBulkhead(l, env, y))
    ensures Same(execute, (y: Trace) => ToLimiter(l, env, y))
  {
    execute := inner;
    if l.limiter.Some? {
      execute := (x: Trace) => Metered(l.limiter.value, env, inner, x);
      forall x: Trace ensures execute(x) == ToLimiter(l, env, x) { MeteredSame(l, env, inner, x); }
    }
  }

  /** Builds the nest from the inside out by rebinding `execute`, and runs it. */
  method Execute(l: Layers, env: Env) returns (t: Trace, r: Outcome)
    ensures (t, r) == ToLimiter(l, env, [])
  {
    var attempt := Call(env);
    if l.timeout {
      var inner := attempt;
      attempt := Timed(env, inner);
    }
    var execute: Guarded := (x: Trace) => Once(attempt, x);
    if l.retry.Some? {
      execute := (x: Trace) => Retried(l.retry.value, attempt, x);
    }
    execute := WithBreaker(l, env, execute);
    execute := WithBulkhead(l, env, execute);
    execute := WithLimiter(l, env, execute);
    return execute([]).0, execute([]).1;
  }
}
