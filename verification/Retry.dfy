/** Retry with backoff, from resilience/retry.go. Delays are integer nanoseconds in the range of int64. */
module Retry {
  import opened Wrappers

  type Err = string

  const TWO_63: int := 0x8000_0000_0000_0000

  type int64 = x: int | -TWO_63 <= x < TWO_63

  datatype Strategy = Exponential | Linear | Constant

  /** `outOfRange` is what the platform's float-to-integer conversion yields for a value outside int64,
      which the language leaves to the implementation. */
  datatype Config = Config(
    maxAttempts: int64, initialDelay: int64, maxDelay: int64, multiplier: real, strategy: Strategy, jitter: bool,
    outOfRange: int64)
  {
    predicate Valid() {
      maxAttempts > 0 && initialDelay > 0 && maxDelay > 0 && multiplier > 0.0
    }
  }

  type ValidConfig = c: Config | c.Valid()
    witness Config(3, 100_000_000, 30_000_000_000, 2.0, Exponential, false, -TWO_63)

  /** Each setting that is not positive falls back to its default, and each that is positive is kept. */
  function Normalize(c: Config): (r: ValidConfig)
    ensures c.Valid() ==> r == c
    ensures r.maxAttempts in {c.maxAttempts, 3} && (c.maxAttempts > 0 ==> r.maxAttempts == c.maxAttempts)
    ensures r.initialDelay in {c.initialDelay, 100_000_000} && (c.initialDelay > 0 ==> r.initialDelay == c.initialDelay)
    ensures r.maxDelay in {c.maxDelay, 30_000_000_000} && (c.maxDelay > 0 ==> r.maxDelay == c.maxDelay)
    ensures r.multiplier in {c.multiplier, 2.0} && (c.multiplier > 0.0 ==> r.multiplier == c.multiplier)
    ensures (r.strategy, r.jitter, r.outOfRange) == (c.strategy, c.jitter, c.outOfRange)
  {
    c.(maxAttempts := if c.maxAttempts <= 0 then 3 else c.maxAttempts,
       initialDelay := if c.initialDelay <= 0 then 100_000_000 else c.initialDelay,
       maxDelay := if c.maxDelay <= 0 then 30_000_000_000 else c.maxDelay,
       multiplier := if c.multiplier <= 0.0 then 2.0 else c.multiplier)
  }

  // ---------------------------------------------------------------------------
  // Delays

  function Pow(m: real, k: nat): real {
    if k == 0 then 1.0 else m * Pow(m, k - 1)
  }

  /** Two's complement wrap-around of a 64-bit product. */
  function Wrap(x: int): int {
    (x + TWO_63) % (2 * TWO_63) - TWO_63
  }

  lemma WrapLaw(x: nat)
    ensures x < TWO_63 ==> Wrap(x) == x
    ensures TWO_63 <= x < 2 * TWO_63 ==> Wrap(x) == x - 2 * TWO_63
  {}

  function Convert(c: Config, x: real): int {
    if x < TWO_63 as real then x.Floor else c.outOfRange
  }

  /** The delay before jitter. */
  function Base(c: Config, attempt: nat): int
    requires 1 <= attempt
  {
    var delay :=
      match c.strategy
      case Constant => c.initialDelay
      case Linear => Wrap(c.initialDelay * attempt)
      case Exponential => Convert(c, c.initialDelay as real * Pow(c.multiplier, attempt - 1));
    if delay > c.maxDelay then c.maxDelay else delay
  }

  /** `rand.Int64N(n)` yields some value in `[0, n)`, here `draw % n`, and panics unless `n` is positive:
      `None` is that panic. */
  function CalculateDelay(c: Config, attempt: nat, draw: nat): Option<int>
    requires 1 <= attempt
  {
    var delay := Base(c, attempt);
    if c.jitter && delay > 0 then
      if delay / 4 <= 0 then None else Some(Wrap(delay + draw % (delay / 4)))
    else Some(delay)
  }

  /** The growth law without machine integers. */
  function Ideal(c: Config, attempt: nat): int
    requires 1 <= attempt
  {
    match c.strategy
    case Constant => c.initialDelay
    case Linear => c.initialDelay * attempt
    case Exponential => (c.initialDelay as real * Pow(c.multiplier, attempt - 1)).Floor
  }

  function Capped(c: Config, attempt: nat): int
    requires 1 <= attempt
  {
    if Ideal(c, attempt) > c.maxDelay then c.maxDelay else Ideal(c, attempt)
  }

  lemma {:induction false} PowPositive(m: real, k: nat)
    requires m > 0.0
    ensures Pow(m, k) > 0.0
  {
    if k > 0 { PowPositive(m, k - 1); }
  }

  lemma {:induction false} PowGrows(m: real, j: nat, k: nat)
    requires m >= 1.0 && j <= k
    ensures 1.0 <= Pow(m, j) <= Pow(m, k)
    decreases k
  {
    if j < k {
      PowGrows(m, j, k - 1);
      Scale(m, 1.0, Pow(m, k - 1));
    } else if 0 < k {
      PowGrows(m, j - 1, k - 1);
      Scale(m, 1.0, Pow(m, k - 1));
    }
  }

  lemma Scale(x: real, y: real, z: real)
    requires x >= y && z >= 0.0
    ensures x * z >= y * z
  {}

  lemma ScaleInt(x: nat, y: nat, z: nat)
    requires x >= y
    ensures z * x >= z * y >= 0
  {
    assert z * x == z * y + z * (x - y);
  }

  /** What the machine computes instead once the growth law has left int64. */
  function Overflowed(c: Config, k: nat): int
    requires 1 <= k
  {
    match c.strategy
    case Constant => c.initialDelay
    case Linear => Wrap(Ideal(c, k))
    case Exponential => c.outOfRange
  }

  /** The delay is the capped growth law iff that law fits int64 or what replaces it reaches the cap, as a
      saturating conversion does. The first linear overflow is negative. */
  lemma {:induction false} BaseIsCappedIff(c: ValidConfig, k: nat)
    requires 1 <= k
    ensures Ideal(c, k) < TWO_63 ==> 0 <= Base(c, k) <= c.maxDelay
    ensures Base(c, k) == Capped(c, k) <==> Ideal(c, k) < TWO_63 || Overflowed(c, k) >= c.maxDelay
    ensures c.strategy == Linear && TWO_63 <= Ideal(c, k) < 2 * TWO_63 ==> Base(c, k) < 0
  {
    match c.strategy
    case Constant =>
    case Linear =>
      ScaleInt(k, 0, c.initialDelay);
      WrapLaw(c.initialDelay * k);
    case Exponential =>
      PowPositive(c.multiplier, k - 1);
      Scale(c.initialDelay as real, 0.0, Pow(c.multiplier, k - 1));
  }

  lemma IdealGrows(c: ValidConfig, j: nat, k: nat)
    requires 1 <= j <= k && c.multiplier >= 1.0
    ensures Ideal(c, j) <= Ideal(c, k)
  {
    match c.strategy
    case Constant =>
    case Linear =>
      ScaleInt(k, j, c.initialDelay);
    case Exponential =>
      PowGrows(c.multiplier, j - 1, k - 1);
      Scale(Pow(c.multiplier, k - 1), Pow(c.multiplier, j - 1), c.initialDelay as real);
      assert Pow(c.multiplier, k - 1) * c.initialDelay as real == c.initialDelay as real * Pow(c.multiplier, k - 1);
  }

  /** For a multiplier of at least one the delays before jitter never fall and never pass the cap. */
  lemma {:induction false} DelaysNeverFall(c: ValidConfig, j: nat, k: nat)
    requires 1 <= j <= k && c.multiplier >= 1.0
    requires Ideal(c, k) < TWO_63
    ensures 0 <= Base(c, j) <= Base(c, k) <= c.maxDelay
  {
    IdealGrows(c, j, k);
    BaseIsCappedIff(c, j);
    BaseIsCappedIff(c, k);
  }

  lemma {:induction false} PowAdds(m: real, j: nat, k: nat)
    ensures Pow(m, j + k) == Pow(m, j) * Pow(m, k)
  {
    if j > 0 { PowAdds(m, j - 1, k); }
  }

  lemma PowersOfTwo()
    ensures Pow(2.0, 36) == 68_719_476_736.0 && Pow(2.0, 37) == 137_438_953_472.0
  {
    assert Pow(2.0, 0) == 1.0 && Pow(2.0, 1) == 2.0 && Pow(2.0, 2) == 4.0 && Pow(2.0, 3) == 8.0;
    PowAdds(2.0, 3, 3);
    PowAdds(2.0, 6, 6);
    PowAdds(2.0, 12, 12);
    PowAdds(2.0, 24, 12);
    PowAdds(2.0, 1, 36);
  }

  /** With the default delays and multiplier the growth law fits int64 exactly up to attempt 37, so that from
      attempt 38 on the cap no longer applies where the conversion yields a negative number. */
  lemma DefaultsFitUntilAttempt37(k: nat, outOfRange: int64)
    requires 1 <= k && outOfRange < 0
    ensures var c := Normalize(Config(0, 0, 0, 0.0, Exponential, false, outOfRange));
            && (Ideal(c, k) < TWO_63 <==> k <= 37)
            && (Base(c, k) < 0 <==> k > 37)
  {
    var c := Normalize(Config(0, 0, 0, 0.0, Exponential, false, outOfRange));
    PowersOfTwo();
    if k <= 37 {
      PowGrows(2.0, k - 1, 36);
      Scale(Pow(2.0, 36), Pow(2.0, k - 1), c.initialDelay as real);
    } else {
      PowGrows(2.0, 37, k - 1);
      Scale(Pow(2.0, k - 1), Pow(2.0, 37), c.initialDelay as real);
    }
    BaseIsCappedIff(c, k);
  }

  /** Jitter adds less than a quarter unless the sum leaves int64, and panics exactly on a base delay of one to
      three nanoseconds. */
  lemma JitterBounds(c: ValidConfig, k: nat, draw: nat)
    requires 1 <= k
    ensures CalculateDelay(c, k, draw) == None <==> c.jitter && 0 < Base(c, k) < 4
    ensures match CalculateDelay(c, k, draw)
            case None => true
            case Some(d) =>
              && (Base(c, k) <= 0 || !c.jitter ==> d == Base(c, k))
              && (0 < Base(c, k) && c.jitter ==>
                    (d >= Base(c, k) <==> Base(c, k) + draw % (Base(c, k) / 4) < TWO_63))
              && (d >= Base(c, k) > 0 && c.jitter ==> 4 * (d - Base(c, k)) < Base(c, k))
              && 4 * d <= 5 * (if d > 0 then c.maxDelay else 0)
  {}

  /** Every amount of jitter below a quarter of the base delay is drawn. */
  lemma EveryJitter(c: ValidConfig, k: nat, extra: nat)
    requires 1 <= k && c.jitter && extra < Base(c, k) / 4 && Base(c, k) + extra < TWO_63
    ensures exists draw: nat :: CalculateDelay(c, k, draw) == Some(Base(c, k) + extra)
  {
    assert extra % (Base(c, k) / 4) == extra;
    WrapLaw(Base(c, k) + extra);
    assert CalculateDelay(c, k, extra) == Some(Base(c, k) + extra);
  }

  /** No wait of a run with this configuration can panic. */
  predicate PanicFree(c: Config) {
    forall k :: 1 <= k < c.maxAttempts ==> !(c.jitter && 0 < Base(c, k) < 4)
  }

  /** In terms of the settings alone: with a multiplier of at least one, and a growth law that fits int64 for all
      waits, some wait panics iff there is one, jitter is on, and the first delay or the cap is below 4 ns. */
  lemma {:induction false} PanicFreeIff(c: ValidConfig)
    requires c.multiplier >= 1.0 && (1 < c.maxAttempts ==> Ideal(c, c.maxAttempts - 1) < TWO_63)
    ensures PanicFree(c) <==> !(c.jitter && 1 < c.maxAttempts && (c.initialDelay < 4 || c.maxDelay < 4))
  {
    if 1 < c.maxAttempts {
      assert Ideal(c, 1) == c.initialDelay by { assert Pow(c.multiplier, 0) == 1.0; }
      BaseIsCappedIff(c, 1);
      forall k: nat | 1 <= k < c.maxAttempts ensures Base(c, 1) <= Base(c, k) {
        IdealGrows(c, k, c.maxAttempts - 1);
        DelaysNeverFall(c, 1, k);
      }
    }
  }

  // ---------------------------------------------------------------------------
  // The retry loop

  /** The context is done from `at` on, with `err` as its error. */
  datatype Done = Done(at: int, err: Err)

  /** One `Execute`: it begins at `begin`, call `k` takes `takes(k)`, and after the wait that follows it the next
      call starts `lag(k)` later. When both arms of that wait are ready at the same instant, `ctxFirst(k)` says
      whether the select takes the context's. */
  datatype Setting = Setting(
    c: ValidConfig, retryIf: Err -> bool, draw: nat -> nat,
    begin: int, takes: nat -> nat, lag: nat -> nat, done: Option<Done>, ctxFirst: nat -> bool)

  datatype Outcome = Returned(err: Option<Err>) | Panicked

  /** An operation acts on a state and returns its error, if any. */
  type Operation<!W> = W -> (W, Option<Err>)

  /** The state after `k` calls. */
  function After<W>(op: Operation<W>, w: W, k: nat): W {
    if k == 0 then w else op(After(op, w, k - 1)).0
  }

  function ErrorOf<W>(op: Operation<W>, w: W, k: nat): Option<Err>
    requires 1 <= k
  {
    op(After(op, w, k - 1)).1
  }

  function Positive(d: int): nat {
    if d > 0 then d else 0
  }

  function Delay(s: Setting, k: nat): Option<int>
    requires 1 <= k
  {
    CalculateDelay(s.c, k, s.draw(k))
  }

  /** How long the timer of the wait after call `k` runs. */
  function Sleep(s: Setting, k: nat): nat
    requires 1 <= k
  {
    match Delay(s, k) case Some(d) => Positive(d) case None => 0
  }

  /** When call `k` starts, given that it is made. */
  function StartOf(s: Setting, k: nat): int
    requires 1 <= k
  {
    if k == 1 then s.begin else StartOf(s, k - 1) + s.takes(k - 1) + Sleep(s, k - 1) + s.lag(k - 1)
  }

  /** When the wait after call `k` begins, and when its timer fires. */
  function WaitStart(s: Setting, k: nat): int
    requires 1 <= k
  {
    StartOf(s, k) + s.takes(k)
  }

  function FiresAt(s: Setting, k: nat): int
    requires 1 <= k
  {
    WaitStart(s, k) + Sleep(s, k)
  }

  /** The first arm that is ready wins. */
  predicate ContextWins(s: Setting, k: nat)
    requires 1 <= k
  {
    && s.done.Some?
    && var ready := if s.done.value.at > WaitStart(s, k) then s.done.value.at else WaitStart(s, k);
       ready < FiresAt(s, k) || (ready == FiresAt(s, k) && s.ctxFirst(k))
  }

  predicate Retryable(s: Setting, e: Option<Err>) {
    e.Some? && s.retryIf(e.value)
  }

  /** How the loop ends after call `k` with outcome `e`, if it ends there. */
  function Stop(s: Setting, k: nat, e: Option<Err>): Option<Outcome>
    requires 1 <= k
  {
    if !Retryable(s, e) || k >= s.c.maxAttempts then Some(Returned(e))
    else if Delay(s, k).None? then Some(Panicked)
    else if ContextWins(s, k) then Some(Returned(Some(s.done.value.err)))
    else None
  }

  /** Call `k` is followed by another. */
  predicate Continues<W>(s: Setting, op: Operation<W>, w: W, k: nat)
    requires 1 <= k
  {
    Stop(s, k, ErrorOf(op, w, k)).None?
  }

  /** The number of the last call, given that call `k` is made. */
  function Last<W>(s: Setting, op: Operation<W>, w: W, k: nat): (n: nat)
    requires 1 <= k <= s.c.maxAttempts
    ensures k <= n <= s.c.maxAttempts
    decreases s.c.maxAttempts - k
  {
    if Continues(s, op, w, k) then Last(s, op, w, k + 1) else k
  }

  function Ending<W>(s: Setting, op: Operation<W>, w: W): Outcome {
    var n := Last(s, op, w, 1);
    LastIsFirstStop(s, op, w, 1);
    Stop(s, n, ErrorOf(op, w, n)).value
  }

  /** The sleep between the first `k` calls. */
  function Slept(s: Setting, k: nat): nat {
    if k <= 1 then 0 else Slept(s, k - 1) + Sleep(s, k - 1)
  }

  method Execute<W>(s: Setting, op: Operation<W>, start: W) returns (r: Outcome, w: W, calls: nat, slept: nat)
    ensures calls == Last(s, op, start, 1) && w == After(op, start, calls)
    ensures r == Ending(s, op, start)
    ensures slept == Slept(s, calls)
  {
    w, calls, slept := start, 0, 0;
    var now := s.begin;
    var attempt := 1;
    while attempt <= s.c.maxAttempts
      invariant 1 <= attempt <= s.c.maxAttempts && calls == attempt - 1
      invariant w == After(op, start, calls) && slept == Slept(s, attempt) && now == StartOf(s, attempt)
      invariant forall i :: 1 <= i < attempt ==> Continues(s, op, start, i)
    {
      var (v, err) := op(w);
      w, calls := v, attempt;
      var stop, sleep := AfterCall(s, attempt, now + s.takes(attempt), err);
      if stop.Some? {
        LastIs(s, op, start, 1, attempt);
        return stop.value, w, calls, slept;
      }
      slept, now := slept + sleep, now + s.takes(attempt) + sleep + s.lag(attempt);
      attempt := attempt + 1;
    }
    assert false;
  }

  lemma {:induction false} LastIs<W>(s: Setting, op: Operation<W>, w: W, k: nat, n: nat)
    requires 1 <= k <= n <= s.c.maxAttempts && !Continues(s, op, w, n)
    requires forall i :: k <= i < n ==> Continues(s, op, w, i)
    ensures Last(s, op, w, k) == n
    decreases n - k
  {
    if k < n { LastIs(s, op, w, k + 1, n); }
  }

  /** The rest of the loop's body after call `attempt` has returned `err` at `now`. */
  method AfterCall(s: Setting, attempt: nat, now: int, err: Option<Err>) returns (stop: Option<Outcome>, sleep: nat)
    requires 1 <= attempt && now == WaitStart(s, attempt)
    ensures stop == Stop(s, attempt, err)
    ensures stop == None ==> sleep == Sleep(s, attempt)
  {
    sleep := 0;
    if err == None || !s.retryIf(err.value) || attempt >= s.c.maxAttempts {
      return Some(Returned(err)), sleep;
    }
    var delay := CalculateDelay(s.c, attempt, s.draw(attempt));
    if delay == None {
      return Some(Panicked), sleep;
    }
    sleep := Positive(delay.value);
    if s.done.Some? {
      var ready := if s.done.value.at > now then s.done.value.at else now;
      if ready < now + sleep || (ready == now + sleep && s.ctxFirst(attempt)) {
        return Some(Returned(Some(s.done.value.err))), sleep;
      }
    }
    return None, sleep;
  }

  lemma {:induction false} LastIsFirstStop<W>(s: Setting, op: Operation<W>, w: W, k: nat)
    requires 1 <= k <= s.c.maxAttempts
    ensures !Continues(s, op, w, Last(s, op, w, k))
    ensures forall i :: k <= i < Last(s, op, w, k) ==> Continues(s, op, w, i)
    decreases s.c.maxAttempts - k
  {
    if Continues(s, op, w, k) { LastIsFirstStop(s, op, w, k + 1); }
  }

  /** The outcome of call `k` is an error that the configuration says to try again. */
  predicate Failing<W>(s: Setting, op: Operation<W>, w: W, k: nat)
    requires 1 <= k
  {
    ErrorOf(op, w, k).Some? && s.retryIf(ErrorOf(op, w, k).value)
  }

  /** All outcomes up to call `k` are to be retried. */
  predicate AsksForMore<W>(s: Setting, op: Operation<W>, w: W, k: nat) {
    forall i :: 1 <= i <= k ==> Failing(s, op, w, i)
  }

  /** The context is done before the timer of the wait after call `k` fires, or at that instant and preferred. A timer
      that does not run fires when the wait begins. */
  predicate Interrupts(s: Setting, k: nat)
    requires 1 <= k
  {
    && s.done.Some?
    && ((s.done.value.at < FiresAt(s, k) && 0 < Sleep(s, k)) || (s.done.value.at <= FiresAt(s, k) && s.ctxFirst(k)))
  }

  /** After a retryable failure below the limit whose delay does not panic, the loop ends with the error of the
      context iff the context is done in time, however much later it may be done otherwise. */
  lemma {:induction false} ContextStopsIff<W>(s: Setting, op: Operation<W>, w: W, k: nat)
    requires 1 <= k <= Last(s, op, w, 1) && k < s.c.maxAttempts && Failing(s, op, w, k)
    requires CalculateDelay(s.c, k, s.draw(k)).Some?
    ensures Interrupts(s, k) <==> k == Last(s, op, w, 1)
    ensures Interrupts(s, k) ==> Ending(s, op, w) == Returned(Some(s.done.value.err))
  {
    LastIsFirstStop(s, op, w, 1);
    assert k < Last(s, op, w, 1) <==> Continues(s, op, w, k);
  }

  function WithoutContext(s: Setting): Setting {
    s.(done := None)
  }

  lemma {:induction false} SameClock(s: Setting, k: nat)
    requires 1 <= k
    ensures StartOf(s, k) == StartOf(WithoutContext(s), k) && Sleep(s, k) == Sleep(WithoutContext(s), k)
  {
    if 1 < k { SameClock(s, k - 1); }
  }

  /** No wait that is reached is ended by the context. */
  ghost predicate NeverInterrupted<W>(s: Setting, op: Operation<W>, w: W) {
    forall k :: 1 <= k < s.c.maxAttempts && AsksForMore(s, op, w, k) ==> !Interrupts(s, k)
  }

  lemma {:induction false} SameLast<W>(s: Setting, op: Operation<W>, w: W, n: nat)
    requires 1 <= n <= s.c.maxAttempts && NeverInterrupted(s, op, w)
    requires forall i :: 1 <= i < n ==> Continues(s, op, w, i)
    ensures Last(s, op, w, n) == Last(WithoutContext(s), op, w, n)
    decreases s.c.maxAttempts - n
  {
    SameStop(s, op, w, n);
    if Continues(s, op, w, n) {
      SameLast(s, op, w, n + 1);
    }
  }

  /** A context that is done too late for every wait that is reached changes neither the calls nor the result. */
  lemma LateContextIsIgnored<W>(s: Setting, op: Operation<W>, w: W)
    requires NeverInterrupted(s, op, w)
    ensures Last(s, op, w, 1) == Last(WithoutContext(s), op, w, 1)
    ensures Ending(s, op, w) == Ending(WithoutContext(s), op, w)
  {
    SameLast(s, op, w, 1);
    LastIsFirstStop(s, op, w, 1);
    SameStop(s, op, w, Last(s, op, w, 1));
  }

  lemma SameStop<W>(s: Setting, op: Operation<W>, w: W, n: nat)
    requires 1 <= n <= s.c.maxAttempts && NeverInterrupted(s, op, w)
    requires forall i :: 1 <= i < n ==> Continues(s, op, w, i)
    ensures Stop(s, n, ErrorOf(op, w, n)) == Stop(WithoutContext(s), n, ErrorOf(op, w, n))
  {
    SameClock(s, n);
    if Failing(s, op, w, n) && n < s.c.maxAttempts {
      forall i | 1 <= i <= n ensures Failing(s, op, w, i) {
        if i < n { assert Continues(s, op, w, i); }
      }
      assert AsksForMore(s, op, w, n);
    }
  }

  /** If no wait that is reached is cancelled or panics, the calls stop at the first nil or non-retryable outcome or
      at MaxAttempts, whichever is first, and the result is that last outcome. */
  lemma CallsAndResult<W>(s: Setting, op: Operation<W>, w: W, n: nat)
    requires 1 <= n
    requires forall k :: 1 <= k < s.c.maxAttempts && AsksForMore(s, op, w, k) ==>
               !Interrupts(s, k) && CalculateDelay(s.c, k, s.draw(k)).Some?
    ensures n == Last(s, op, w, 1) <==>
            && n <= s.c.maxAttempts
            && (forall i :: 1 <= i < n ==> Failing(s, op, w, i))
            && (n == s.c.maxAttempts || !Failing(s, op, w, n))
    ensures n == Last(s, op, w, 1) ==> Ending(s, op, w) == Returned(ErrorOf(op, w, n))
  {
    var m := Last(s, op, w, 1);
    LastIsFirstStop(s, op, w, 1);
    assert !Continues(s, op, w, m);
    forall i | 1 <= i < m ensures Failing(s, op, w, i) { assert Continues(s, op, w, i); }
    if m < s.c.maxAttempts && Failing(s, op, w, m) {
      assert AsksForMore(s, op, w, m);
      assert false;
    }
    if n < m { assert Continues(s, op, w, n); }
  }

  /** Retry does not stop at a done context as such: given that call `k` is made and that the context is done by the
      time a call `k + 1` would start, that call is made iff the outcome asks for it, the timer is ready no later than
      the context, that is, it does not run at all or fires no later than the context is done, and the select
      takes the timer where both are ready at once. */
  lemma {:induction false} FollowsDoneIff<W>(s: Setting, op: Operation<W>, w: W, k: nat)
    requires 1 <= k <= Last(s, op, w, 1)
    requires s.done.Some? && s.done.value.at <= StartOf(s, k + 1)
    ensures k < Last(s, op, w, 1) <==>
            && Retryable(s, ErrorOf(op, w, k)) && k < s.c.maxAttempts && Delay(s, k).Some?
            && (Sleep(s, k) == 0 || FiresAt(s, k) <= s.done.value.at)
            && (s.done.value.at <= FiresAt(s, k) ==> !s.ctxFirst(k))
  {
    LastIsFirstStop(s, op, w, 1);
    assert k < Last(s, op, w, 1) <==> Continues(s, op, w, k);
  }

  /** So a timer that runs is outrun by every context that is done before it fires, and the call ends with the
      error of the context. */
  lemma {:induction false} DoneInTimeStops<W>(s: Setting, op: Operation<W>, w: W, k: nat)
    requires 1 <= k <= Last(s, op, w, 1) && k < s.c.maxAttempts
    requires Retryable(s, ErrorOf(op, w, k)) && Delay(s, k).Some? && Sleep(s, k) > 0
    requires s.done.Some? && s.done.value.at < FiresAt(s, k)
    ensures k == Last(s, op, w, 1) && Ending(s, op, w) == Returned(Some(s.done.value.err))
  {
    LastIsFirstStop(s, op, w, 1);
    assert !Continues(s, op, w, k);
  }

  /** An operation that counts its calls and always fails. */
  function AlwaysFails(): Operation<int> {
    (calls: int) => (calls + 1, Some("failed"))
  }

  /** No configuration that retries at all excludes it: here the context is done at the instant at which the
      first wait ends, and the operation is called again after that. */
  lemma RetriesAfterDone(c: ValidConfig) returns (s: Setting)
    requires 1 < c.maxAttempts && CalculateDelay(c, 1, 0).Some?
    ensures s.c == c && 1 < Last(s, AlwaysFails(), 0, 1)
    ensures s.done.Some? && s.done.value.at <= StartOf(s, 2)
  {
    var d := Positive(CalculateDelay(c, 1, 0).value);
    s := Setting(c, e => true, n => 0, 0, n => 0, n => 0, Some(Done(d, "context canceled")), n => false);
    assert Continues(s, AlwaysFails(), 0, 1);
  }

  /** The configuration decides whether a run can panic. */
  lemma ReturnsIffPanicFree(c: ValidConfig)
    ensures (forall s: Setting, op: Operation<int>, w: int | s.c == c :: Ending(s, op, w).Returned?) <==> PanicFree(c)
  {
    if PanicFree(c) {
      forall s: Setting, op: Operation<int>, w: int | s.c == c ensures Ending(s, op, w).Returned? {
        PanicFreeReturns(s, op, w);
      }
    } else {
      var s := Persistent(c);
      AlwaysFailingPanics(c, AlwaysFails(), 0);
      assert Ending(s, AlwaysFails(), 0).Panicked?;
    }
  }

  lemma PanicFreeReturns<W>(s: Setting, op: Operation<W>, w: W)
    requires PanicFree(s.c)
    ensures Ending(s, op, w).Returned?
  {
    var n := Last(s, op, w, 1);
    LastIsFirstStop(s, op, w, 1);
    assert !Continues(s, op, w, n);
    JitterBounds(s.c, n, s.draw(n));
    assert n < s.c.maxAttempts ==> Delay(s, n).Some?;
  }

  /** A retry of every error, under a context that is never done. */
  function Persistent(c: ValidConfig): Setting {
    Setting(c, e => true, n => 0, 0, n => 0, n => 0, None, n => false)
  }

  lemma AlwaysFailingPanics<W>(c: ValidConfig, op: Operation<W>, w: W)
    requires !PanicFree(c)
    requires forall k :: 1 <= k ==> ErrorOf(op, w, k).Some?
    ensures Ending(Persistent(c), op, w) == Panicked
  {
    var s := Persistent(c);
    var n := Last(s, op, w, 1);
    LastIsFirstStop(s, op, w, 1);
    var k :| 1 <= k < c.maxAttempts && c.jitter && 0 < Base(c, k) < 4;
    JitterBounds(c, k, 0);
    assert !Continues(s, op, w, k) && !Continues(s, op, w, n) && ErrorOf(op, w, n).Some?;
  }

  /** All the sleep of `k` calls, jitter included, is at most five quarters of MaxDelay for each wait. */
  lemma {:induction false} TotalSleep(s: Setting, k: nat)
    requires 1 <= k
    ensures 4 * Slept(s, k) <= 5 * ((k - 1) * s.c.maxDelay)
  {
    if k > 1 {
      TotalSleep(s, k - 1);
      OneSleep(s, k - 1);
      Distribute(k - 2, s.c.maxDelay);
    }
  }

  /** The sleep is what the clock has gone on between the calls, apart from the calls themselves and the lag. */
  lemma {:induction false} SleptOnTheClock(s: Setting, k: nat)
    requires 1 <= k && forall i :: s.takes(i) == s.lag(i) == 0
    ensures StartOf(s, k) == s.begin + Slept(s, k)
  {
    if 1 < k { SleptOnTheClock(s, k - 1); }
  }

  lemma OneSleep(s: Setting, k: nat)
    requires 1 <= k
    ensures Slept(s, k + 1) >= Slept(s, k)
    ensures 4 * (Slept(s, k + 1) - Slept(s, k)) <= 5 * s.c.maxDelay
  {
    JitterBounds(s.c, k, s.draw(k));
  }

  lemma Distribute(k: int, m: int)
    ensures (k + 1) * m == k * m + m
  {}
}
