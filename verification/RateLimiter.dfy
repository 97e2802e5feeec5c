/** The token bucket of resilience/ratelimit.go. Times are integer nanoseconds, tokens are reals. */
module RateLimiter {

  const SECOND: int := 1_000_000_000

  datatype Config = Config(rate: real, burst: int, waitOnLimit: bool, maxWait: int) {
    predicate Valid() {
      rate > 0.0 && burst > 0 && maxWait > 0
    }
  }

  /** Each setting that is not positive falls back to its default, and each that is positive is kept. */
  function Normalize(c: Config): (r: Config)
    ensures r.Valid() && (c.Valid() ==> r == c) && r.waitOnLimit == c.waitOnLimit
    ensures r.rate in {c.rate, 100.0} && (c.rate > 0.0 ==> r.rate == c.rate)
    ensures r.burst in {c.burst, 10} && (c.burst > 0 ==> r.burst == c.burst)
    ensures r.maxWait in {c.maxWait, SECOND} && (c.maxWait > 0 ==> r.maxWait == c.maxWait)
  {
    c.(rate := if c.rate <= 0.0 then 100.0 else c.rate,
       burst := if c.burst <= 0 then 10 else c.burst,
       maxWait := if c.maxWait <= 0 then SECOND else c.maxWait)
  }

  type ValidConfig = c: Config | c.Valid() witness Config(100.0, 10, false, SECOND)

  datatype Bucket = Bucket(tokens: real, lastRefresh: int)

  /** What one critical section of the limiter does: a request, a `Tokens` poll, or a `Reset`. */
  datatype Event = Allow(n: int, now: int) | Poll(now: int) | Reset(now: int)

  function Seconds(d: int): real {
    d as real / 1_000_000_000.0
  }

  function Earned(c: Config, d: int): real {
    Seconds(d) * c.rate
  }

  function Min(x: real, y: real): real {
    if x > y then y else x
  }

  function Refill(c: Config, b: Bucket, now: int): Bucket {
    Bucket(Min(b.tokens + Earned(c, now - b.lastRefresh), c.burst as real), now)
  }

  predicate Grants(c: Config, b: Bucket, n: int, now: int) {
    Refill(c, b, now).tokens >= n as real
  }

  function Debit(b: Bucket, n: int): Bucket {
    b.(tokens := b.tokens - n as real)
  }

  function Step(c: Config, b: Bucket, e: Event): Bucket {
    match e
    case Allow(n, now) => if Grants(c, b, n, now) then Debit(Refill(c, b, now), n) else Refill(c, b, now)
    case Poll(now) => Refill(c, b, now)
    case Reset(now) => Bucket(c.burst as real, now)
  }

  function Run(c: Config, b: Bucket, es: seq<Event>): Bucket {
    if es == [] then b else Step(c, Run(c, b, es[..|es| - 1]), es[|es| - 1])
  }

  /** The tokens event `i` of the run takes away. */
  function GrantAt(c: Config, b: Bucket, es: seq<Event>, i: nat): int
    requires i < |es|
  {
    if es[i].Allow? && Grants(c, Run(c, b, es[..i]), es[i].n, es[i].now) then es[i].n else 0
  }

  /** The tokens taken by the events from index `j` on. */
  function Granted(c: Config, b: Bucket, es: seq<Event>, j: nat): int {
    if |es| <= j then 0
    else Granted(c, b, es[..|es| - 1], j) + GrantAt(c, b, es, |es| - 1)
  }

  // ---------------------------------------------------------------------------
  // The limiter itself

  datatype WaitEnv = WaitEnv(
    cancelledBefore: bool,   // ctx.Done() is ready at the entry check
    firstNow: int,           // clock at the first attempt
    between: seq<Event>,     // other callers, before the wait time is computed
    asleep: seq<Event>,      // other callers, while this one sleeps
    cancelledAsleep: bool,   // ctx.Done() wins the select
    secondNow: int)          // clock at the second attempt

  datatype WaitOutcome = Acquired | Cancelled | LimitExceeded

  class RateLimiter {
    const config: ValidConfig
    var tokens: real
    var lastRefresh: int

    function View(): Bucket
      reads this
    {
      Bucket(tokens, lastRefresh)
    }

    constructor (config: Config, now: int)
      ensures this.config == Normalize(config)
      ensures View() == Bucket(Normalize(config).burst as real, now)
    {
      this.config := Normalize(config);
      tokens := Normalize(config).burst as real;
      lastRefresh := now;
    }

    method RefillLocked(now: int)
      modifies this
      ensures View() == Refill(config, old(View()), now)
    {
      var elapsed := now - lastRefresh;
      lastRefresh := now;
      tokens := tokens + Seconds(elapsed) * config.rate;
      if tokens > config.burst as real {
        tokens := config.burst as real;
      }
    }

    method AllowN(n: int, now: int) returns (ok: bool)
      modifies this
      ensures ok == Grants(config, old(View()), n, now)
      ensures View() == Step(config, old(View()), Allow(n, now))
    {
      RefillLocked(now);
      if tokens >= n as real {
        tokens := tokens - n as real;
        return true;
      }
      return false;
    }

    method Tokens(now: int) returns (t: real)
      modifies this
      ensures View() == Step(config, old(View()), Poll(now)) && t == tokens
    {
      RefillLocked(now);
      t := tokens;
    }

    method ResetTo(now: int)
      modifies this
      ensures View() == Step(config, old(View()), Reset(now))
    {
      tokens := config.burst as real;
      lastRefresh := now;
    }

    /** Other callers' critical sections, run while this caller does not hold the lock. */
    method Others(es: seq<Event>)
      modifies this
      ensures View() == Run(config, old(View()), es)
    {
      var i := 0;
      while i < |es|
        invariant 0 <= i <= |es|
        invariant View() == Run(config, old(View()), es[..i])
      {
        assert es[..i + 1][..i] == es[..i];
        match es[i] {
          case Allow(n, now) => var _ := AllowN(n, now);
          case Poll(now) => var _ := Tokens(now);
          case Reset(now) => ResetTo(now);
        }
        i := i + 1;
      }
      assert es[..i] == es;
    }

    /** `WaitN`, with the other callers' critical sections at both points where it does not hold the lock. */
    method WaitN(n: int, w: WaitEnv) returns (r: WaitOutcome, slept: int)
      modifies this
      ensures Wait(config, old(View()), n, w) == (r, slept, View())
    {
      slept := 0;
      if w.cancelledBefore {
        return Cancelled, slept;
      }
      var ok := AllowN(n, w.firstNow);
      if ok {
        return Acquired, slept;
      }
      Others(w.between);
      var tokensNeeded := n as real - tokens;
      slept := Truncate(tokensNeeded / config.rate * 1_000_000_000.0);
      if slept > config.maxWait {
        slept := config.maxWait;
      }
      Others(w.asleep);
      if w.cancelledAsleep {
        return Cancelled, slept;
      }
      ok := AllowN(n, w.secondNow);
      r := if ok then Acquired else LimitExceeded;
    }

    /** `Execute` up to the call of the operation: `Acquired` means that the operation starts. */
    method Admit(w: WaitEnv) returns (r: WaitOutcome)
      modifies this
      ensures config.waitOnLimit ==>
        exists slept :: Wait(config, old(View()), 1, w) == (r, slept, View())
      ensures !config.waitOnLimit ==>
        && r == (if Grants(config, old(View()), 1, w.firstNow) then Acquired else LimitExceeded)
        && View() == Step(config, old(View()), Allow(1, w.firstNow))
    {
      if config.waitOnLimit {
        var slept: int;
        r, slept := WaitN(1, w);
      } else {
        var ok := AllowN(1, w.firstNow);
        r := if ok then Acquired else LimitExceeded;
      }
    }
  }

  /** Conversion to `time.Duration` rounds toward zero. */
  function Truncate(x: real): int {
    if x >= 0.0 then x.Floor else -((-x).Floor)
  }

  function FullWait(c: Config, n: int, tokens: real): real
    requires c.rate != 0.0
  {
    (n as real - tokens) / c.rate * 1_000_000_000.0
  }

  function CappedWait(c: Config, n: int, tokens: real): int
    requires c.rate != 0.0
  {
    var d := Truncate(FullWait(c, n, tokens));
    if d > c.maxWait then c.maxWait else d
  }

  function Wait(c: ValidConfig, b: Bucket, n: int, w: WaitEnv): (WaitOutcome, int, Bucket) {
    if w.cancelledBefore then (Cancelled, 0, b)
    else
      var first := Step(c, b, Allow(n, w.firstNow));
      if Grants(c, b, n, w.firstNow) then (Acquired, 0, first)
      else
        var atWait := Run(c, first, w.between);
        var slept := CappedWait(c, n, atWait.tokens);
        var awake := Run(c, atWait, w.asleep);
        if w.cancelledAsleep then (Cancelled, slept, awake)
        else if Grants(c, awake, n, w.secondNow) then (Acquired, slept, Debit(Refill(c, awake, w.secondNow), n))
        else (LimitExceeded, slept, Refill(c, awake, w.secondNow))
  }

  /** The critical sections that run from the start of a `WaitN` to its return, its own first and last. */
  function WaitEvents(c: Config, b: Bucket, n: int, w: WaitEnv): seq<Event> {
    if w.cancelledBefore then []
    else if Grants(c, b, n, w.firstNow) then [Allow(n, w.firstNow)]
    else [Allow(n, w.firstNow)] + w.between + w.asleep
         + if w.cancelledAsleep then [] else [Allow(n, w.secondNow)]
  }

  /** The part of those grants that is the waiter's own. */
  function OwnGrants(c: Config, b: Bucket, n: int, w: WaitEnv): int {
    var es := WaitEvents(c, b, n, w);
    (if es == [] then 0 else GrantAt(c, b, es, 0))
    + (if |es| <= 1 || w.cancelledAsleep then 0 else GrantAt(c, b, es, |es| - 1))
  }

  /** `WaitN` is one run of the bucket in which its own sections take `n` if it returns nil, and nothing otherwise. */
  lemma WaitDebitsIffNil(c: ValidConfig, b: Bucket, n: nat, w: WaitEnv)
    ensures Wait(c, b, n, w).2 == Run(c, b, WaitEvents(c, b, n, w))
    ensures OwnGrants(c, b, n, w) == if Wait(c, b, n, w).0 == Acquired then n else 0
  {
    var es := WaitEvents(c, b, n, w);
    if es != [] {
      var own := [Allow(n, w.firstNow)];
      assert Run(c, b, own) == Step(c, b, own[0]);
      assert es[..0] == [];
      if |es| > 1 || !Grants(c, b, n, w.firstNow) {
        RunConcat(c, b, own, w.between);
        RunConcat(c, b, own + w.between, w.asleep);
        if w.cancelledAsleep {
          assert es == own + w.between + w.asleep;
        } else {
          assert es[..|es| - 1] == own + w.between + w.asleep;
        }
      }
    }
  }

  /** What the caller of `WaitN` gets: the context's error if it is done before the first attempt or while waiting,
      nil if an attempt that was made succeeded, and a sleep only after a refusal. */
  lemma WaitAnswers(c: ValidConfig, b: Bucket, n: int, w: WaitEnv)
    ensures var (r, slept, _) := Wait(c, b, n, w);
            var granted := Grants(c, b, n, w.firstNow);
            var shared := Run(c, Refill(c, b, w.firstNow), w.between);
            && (r == Cancelled <==> w.cancelledBefore || (!granted && w.cancelledAsleep))
            && (r == Acquired <==>
                  && !w.cancelledBefore
                  && (granted || (!w.cancelledAsleep && Grants(c, Run(c, shared, w.asleep), n, w.secondNow))))
            && slept == (if w.cancelledBefore || granted then 0 else CappedWait(c, n, shared.tokens))
  {}

  /** The sleep is the time in which the missing tokens are earned, in whole nanoseconds, but never more than
      MaxWait. */
  lemma CappedWaitIs(c: Config, n: int, tokens: real)
    requires c.Valid() && tokens < n as real
    ensures var full, d := FullWait(c, n, tokens), CappedWait(c, n, tokens);
            && full / 1_000_000_000.0 * c.rate == n as real - tokens
            && (full < (c.maxWait + 1) as real ==> d as real <= full < (d + 1) as real)
            && (full >= (c.maxWait + 1) as real ==> d == c.maxWait)
  {
    FullWaitPositive(c, n, tokens);
    var q := (n as real - tokens) / c.rate;
    assert q * c.rate == n as real - tokens;
    assert FullWait(c, n, tokens) / 1_000_000_000.0 == q;
  }

  // ---------------------------------------------------------------------------
  // Whole runs

  /** A run of a limiter: construction (a `Reset`) first, a clock that never goes back, no negative request. */
  ghost predicate Timeline(es: seq<Event>) {
    && 0 < |es| && es[0].Reset?
    && (forall i, j :: 0 <= i < j < |es| ==> es[i].now <= es[j].now)
    && (forall i :: 0 <= i < |es| && es[i].Allow? ==> 0 <= es[i].n)
  }

  /** The latest construction or `Reset` of the run. */
  function LastReset(es: seq<Event>): (k: nat)
    requires 0 < |es| && es[0].Reset?
    ensures k < |es| && es[k].Reset?
    ensures forall i :: k < i < |es| ==> !es[i].Reset?
  {
    if es[|es| - 1].Reset? then |es| - 1
    else LastReset(es[..|es| - 1])
  }

  /** What the window that opens at event `j` still allows: a burst, plus its length, minus what it granted. */
  ghost function Credit(c: Config, b: Bucket, es: seq<Event>, j: nat): real
    requires j < |es|
  {
    c.burst as real + Earned(c, es[|es| - 1].now - es[j].now) - Granted(c, b, es, j) as real
  }

  lemma EarnedAdds(c: Config, d: int, e: int)
    ensures Earned(c, d + e) == Earned(c, d) + Earned(c, e)
  {
    assert Seconds(d + e) == Seconds(d) + Seconds(e);
    Distribute(Seconds(d), Seconds(e), c.rate);
  }

  lemma Distribute(x: real, y: real, z: real)
    ensures (x + y) * z == x * z + y * z
  {}

  lemma EarnedGrows(c: Config, d: int)
    requires c.Valid() && 0 <= d
    ensures 0.0 <= Earned(c, d)
    ensures 0 < d ==> 0.0 < Earned(c, d)
  {}

  lemma {:induction false} RunLastRefresh(c: Config, b: Bucket, es: seq<Event>)
    requires 0 < |es|
    ensures Run(c, b, es).lastRefresh == es[|es| - 1].now
  {}

  /** How one more event moves every open window. */
  lemma CreditStep(c: Config, b: Bucket, es: seq<Event>, j: nat)
    requires 1 < |es| && j < |es| - 1
    ensures Credit(c, b, es, j)
         == Credit(c, b, es[..|es| - 1], j)
            + Earned(c, es[|es| - 1].now - es[|es| - 2].now)
            - GrantAt(c, b, es, |es| - 1) as real
  {
    EarnedAdds(c, es[|es| - 2].now - es[j].now, es[|es| - 1].now - es[|es| - 2].now);
  }

  lemma CreditLast(c: Config, b: Bucket, es: seq<Event>)
    requires 0 < |es|
    ensures Credit(c, b, es, |es| - 1) == c.burst as real - GrantAt(c, b, es, |es| - 1) as real
  {
    var init := es[..|es| - 1];
    assert Granted(c, b, init, |es| - 1) == 0;
    assert Earned(c, 0) == 0.0;
  }

  /** The closed form: after every run the tokens are the least credit over all windows since the last reset. */
  lemma {:induction false} ClosedForm(c: Config, b: Bucket, es: seq<Event>)
    requires c.Valid() && Timeline(es)
    ensures 0.0 <= Run(c, b, es).tokens <= c.burst as real
    ensures forall j :: LastReset(es) <= j < |es| ==> Run(c, b, es).tokens <= Credit(c, b, es, j)
    ensures exists j :: LastReset(es) <= j < |es| && Run(c, b, es).tokens == Credit(c, b, es, j)
  {
    var k := |es| - 1;
    CreditLast(c, b, es);
    if es[k].Reset? {
      assert Run(c, b, es).tokens == Credit(c, b, es, k);
    } else {
      var init := es[..k];
      ClosedForm(c, b, init);
      var s := Run(c, b, init);
      RunLastRefresh(c, b, init);
      var dt := es[k].now - es[k - 1].now;
      EarnedGrows(c, dt);
      var g := GrantAt(c, b, es, k) as real;
      assert Run(c, b, es).tokens == Min(s.tokens + Earned(c, dt), c.burst as real) - g;
      forall j | LastReset(es) <= j < |es|
        ensures Run(c, b, es).tokens <= Credit(c, b, es, j)
      {
        if j < k { CreditStep(c, b, es, j); }
      }
      if s.tokens + Earned(c, dt) > c.burst as real {
        assert Run(c, b, es).tokens == Credit(c, b, es, k);
      } else {
        var j :| LastReset(init) <= j < |init| && s.tokens == Credit(c, b, init, j);
        CreditStep(c, b, es, j);
        assert Run(c, b, es).tokens == Credit(c, b, es, j);
      }
    }
  }

  /** The rate bound: no window without a reset grants more than a burst plus what its length earns. */
  lemma WindowBound(c: Config, b: Bucket, es: seq<Event>, i: nat, k: nat)
    requires c.Valid() && Timeline(es) && i < k <= |es|
    requires forall m :: i < m < k ==> !es[m].Reset?
    ensures Granted(c, b, es[..k], i) as real <= c.burst as real + Earned(c, es[k - 1].now - es[i].now)
  {
    var run := es[..k];
    assert Timeline(run);
    ClosedForm(c, b, run);
    assert LastReset(run) <= i;
    assert Run(c, b, run).tokens <= Credit(c, b, run, i);
  }

  /** Verdicts are exact: a request is granted iff no window, the empty one included, would break the rate bound. */
  lemma {:induction false} GrantedIffEveryWindowAllows(c: Config, b: Bucket, es: seq<Event>, n: nat, now: int)
    requires c.Valid() && Timeline(es) && es[|es| - 1].now <= now
    ensures Grants(c, Run(c, b, es), n, now) <==>
            && n <= c.burst
            && forall j :: LastReset(es) <= j < |es| ==>
                 Granted(c, b, es, j) as real + n as real <= c.burst as real + Earned(c, now - es[j].now)
  {
    ClosedForm(c, b, es);
    RunLastRefresh(c, b, es);
    var s := Run(c, b, es);
    var last := es[|es| - 1].now;
    forall j | LastReset(es) <= j < |es|
      ensures Credit(c, b, es, j) + Earned(c, now - last)
           == c.burst as real + Earned(c, now - es[j].now) - Granted(c, b, es, j) as real
    {
      EarnedAdds(c, last - es[j].now, now - last);
    }
    var j :| LastReset(es) <= j < |es| && s.tokens == Credit(c, b, es, j);
    assert s.tokens + Earned(c, now - last)
        == c.burst as real + Earned(c, now - es[j].now) - Granted(c, b, es, j) as real;
  }

  // ---------------------------------------------------------------------------
  // Polling

  /** Capped refill composes over split intervals. */
  lemma RefillComposes(c: Config, b: Bucket, t: int, u: int)
    requires c.Valid() && b.lastRefresh <= t <= u
    ensures Refill(c, Refill(c, b, t), u) == Refill(c, b, u)
  {
    EarnedAdds(c, t - b.lastRefresh, u - t);
    EarnedGrows(c, u - t);
  }

  /** The run without its `Tokens` polls and denied requests. */
  function Essential(c: Config, b: Bucket, es: seq<Event>): (kept: seq<Event>) {
    if es == [] then []
    else
      var init := es[..|es| - 1];
      var e := es[|es| - 1];
      Essential(c, b, init)
      + (if e.Reset? || (e.Allow? && Grants(c, Run(c, b, init), e.n, e.now)) then [e] else [])
  }

  /** Two buckets no later refill can tell apart. */
  ghost predicate SameFrom(c: Config, x: Bucket, y: Bucket, t: int) {
    forall u :: t <= u ==> Refill(c, x, u) == Refill(c, y, u)
  }

  lemma {:induction false} EssentialIsEnough(c: Config, b: Bucket, es: seq<Event>)
    requires c.Valid() && Timeline(es)
    ensures SameFrom(c, Run(c, b, es), Run(c, b, Essential(c, b, es)), es[|es| - 1].now)
    ensures forall e :: e in Essential(c, b, es) ==> e in es
  {
    var k := |es| - 1;
    var e := es[k];
    var init := es[..k];
    if k == 0 {
      assert Essential(c, b, init) == [];
      assert Essential(c, b, es) == [e];
      assert Run(c, b, [e]) == Step(c, b, e);
    } else {
      EssentialIsEnough(c, b, init);
      RunLastRefresh(c, b, init);
      var x, y := Run(c, b, init), Run(c, b, Essential(c, b, init));
      assert Refill(c, x, e.now) == Refill(c, y, e.now);
      assert SameFrom(c, x, y, e.now);
      if e.Reset? || (e.Allow? && Grants(c, x, e.n, e.now)) {
        var kept := Essential(c, b, es);
        assert kept[..|kept| - 1] == Essential(c, b, init);
        assert Run(c, b, kept) == Step(c, y, e);
        assert Step(c, x, e) == Step(c, y, e);
      } else {
        assert Essential(c, b, es) == Essential(c, b, init);
        forall u | e.now <= u ensures Refill(c, Refill(c, x, e.now), u) == Refill(c, y, u) {
          RefillComposes(c, x, e.now, u);
        }
      }
    }
  }

  lemma {:induction false} RunConcat(c: Config, b: Bucket, es: seq<Event>, next: seq<Event>)
    ensures Run(c, b, es + next) == Run(c, Run(c, b, es), next)
  {
    if next == [] {
      assert es + next == es;
    } else {
      assert (es + next)[..|es + next| - 1] == es + next[..|next| - 1];
      RunConcat(c, b, es, next[..|next| - 1]);
    }
  }

  /** Whatever follows, starting no earlier than `t`, cannot tell two such buckets apart. */
  lemma {:induction false} SameFuture(c: Config, x: Bucket, y: Bucket, t: int, next: seq<Event>)
    requires SameFrom(c, x, y, t)
    requires forall i :: 0 <= i < |next| ==> t <= next[i].now
    ensures next != [] ==> Run(c, x, next) == Run(c, y, next)
    ensures SameFrom(c, Run(c, x, next), Run(c, y, next), t)
  {
    if next != [] {
      var k := |next| - 1;
      SameFuture(c, x, y, t, next[..k]);
      var p, q := Run(c, x, next[..k]), Run(c, y, next[..k]);
      assert Refill(c, p, next[k].now) == Refill(c, q, next[k].now);
    }
  }

  /** Polling is harmless: with every poll and denied request removed from the past, whatever follows
      sees the same tokens and the same verdicts. */
  lemma {:induction false} PollingIsHarmless(c: Config, b: Bucket, es: seq<Event>, next: seq<Event>)
    requires c.Valid() && Timeline(es)
    requires forall i :: 0 <= i < |next| ==> es[|es| - 1].now <= next[i].now
    ensures next != [] ==> Run(c, b, es + next) == Run(c, b, Essential(c, b, es) + next)
    ensures forall n, now :: es[|es| - 1].now <= now ==>
      Grants(c, Run(c, b, es + next), n, now) == Grants(c, Run(c, b, Essential(c, b, es) + next), n, now)
  {
    var kept := Essential(c, b, es);
    EssentialIsEnough(c, b, es);
    RunConcat(c, b, es, next);
    RunConcat(c, b, kept, next);
    SameFuture(c, Run(c, b, es), Run(c, b, kept), es[|es| - 1].now, next);
  }

  // ---------------------------------------------------------------------------
  // Waiting alone

  lemma MulDiv(a: real, r: real, d: real)
    requires r > 0.0
    ensures d / 1_000_000_000.0 * r >= a <==> d >= a / r * 1_000_000_000.0
    ensures d / 1_000_000_000.0 * r > a <==> d > a / r * 1_000_000_000.0
  {
    var q := a / r;
    assert q * r == a;
    var s := d / 1_000_000_000.0;
    assert d == s * 1_000_000_000.0;
    if s > q {
      assert (s - q) * r > 0.0;
    } else if s < q {
      assert (q - s) * r > 0.0;
    }
  }

  /** A lone waiter's second attempt succeeds iff it comes at or after the untruncated wait. */
  lemma LoneWaiterSucceedsIff(c: Config, b: Bucket, n: nat, t: int, u: int)
    requires c.Valid() && n <= c.burst && t <= u && !Grants(c, b, n, t)
    ensures Grants(c, Refill(c, b, t), n, u) <==> (u - t) as real >= FullWait(c, n, Refill(c, b, t).tokens)
  {
    var s := Refill(c, b, t);
    MulDiv(n as real - s.tokens, c.rate, (u - t) as real);
  }

  /** After sleeping the truncated wait the tokens are short of `n` by less than one nanosecond's worth,
      and one nanosecond more is enough. */
  lemma LoneWaiterNearMiss(c: Config, b: Bucket, n: nat, t: int)
    requires c.Valid() && n <= c.burst && !Grants(c, b, n, t)
    requires Truncate(FullWait(c, n, Refill(c, b, t).tokens)) <= c.maxWait
    ensures var s := Refill(c, b, t);
            var d := CappedWait(c, n, s.tokens);
            && 0 <= d
            && Refill(c, s, t + d).tokens > n as real - c.rate / 1_000_000_000.0
            && (Grants(c, s, n, t + d) <==> d as real == FullWait(c, n, s.tokens))
            && Grants(c, s, n, t + d + 1)
  {
    var s := Refill(c, b, t);
    var full := FullWait(c, n, s.tokens);
    FullWaitPositive(c, n, s.tokens);
    var d := full.Floor;
    assert d as real <= full < (d + 1) as real;
    LoneWaiterSucceedsIff(c, b, n, t, t + d);
    LoneWaiterSucceedsIff(c, b, n, t, t + d + 1);
    MulDiv(n as real - s.tokens, c.rate, (d + 1) as real);
    OneNanosecond(c, d);
  }

  lemma FullWaitPositive(c: Config, n: int, tokens: real)
    requires c.Valid() && tokens < n as real
    ensures FullWait(c, n, tokens) > 0.0
  {
    var q := (n as real - tokens) / c.rate;
    assert q * c.rate == n as real - tokens;
    assert q > 0.0;
  }

  lemma OneNanosecond(c: Config, d: int)
    ensures Earned(c, d + 1) == Earned(c, d) + c.rate / 1_000_000_000.0
  {
    EarnedAdds(c, d, 1);
  }

  /** A capped wait fails: the retry at the end of the sleep is refused. */
  lemma CappedWaiterFails(c: Config, b: Bucket, n: nat, t: int)
    requires c.Valid() && n <= c.burst && !Grants(c, b, n, t)
    requires Truncate(FullWait(c, n, Refill(c, b, t).tokens)) > c.maxWait
    ensures !Grants(c, Refill(c, b, t), n, t + c.maxWait)
  {
    var s := Refill(c, b, t);
    FullWaitPositive(c, n, s.tokens);
    LoneWaiterSucceedsIff(c, b, n, t, t + c.maxWait);
  }
}
