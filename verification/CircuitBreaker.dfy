/** The circuit breaker of resilience/circuit.go, and every run of it with calls that overlap. */
module CircuitBreaker {

  datatype State = Closed | Open | HalfOpen

  datatype Config = Config(maxFailures: int, resetTimeout: int, halfOpenMaxRequests: int) {
    predicate Valid() {
      maxFailures > 0 && resetTimeout > 0 && halfOpenMaxRequests > 0
    }
  }

  type ValidConfig = c: Config | c.Valid() witness Config(5, 30_000_000_000, 1)

  /** Each setting that is not positive falls back to its default, and each that is positive is kept. */
  function Normalize(c: Config): (r: Config)
    ensures r.Valid() && (c.Valid() ==> r == c)
    ensures r.maxFailures in {c.maxFailures, 5} && (c.maxFailures > 0 ==> r.maxFailures == c.maxFailures)
    ensures r.resetTimeout in {c.resetTimeout, 30_000_000_000}
            && (c.resetTimeout > 0 ==> r.resetTimeout == c.resetTimeout)
    ensures r.halfOpenMaxRequests in {c.halfOpenMaxRequests, 1}
            && (c.halfOpenMaxRequests > 0 ==> r.halfOpenMaxRequests == c.halfOpenMaxRequests)
  {
    Config(if c.maxFailures <= 0 then 5 else c.maxFailures,
           if c.resetTimeout <= 0 then 30_000_000_000 else c.resetTimeout,
           if c.halfOpenMaxRequests <= 0 then 1 else c.halfOpenMaxRequests)
  }

  /** One `OnStateChange` notification. */
  datatype Change = Change(from: State, to: State)

  datatype Circuit = Circuit(
    state: State, failures: int, successes: int, lastFailure: int, halfOpenCount: int,
    changes: seq<Change>)

  /** `currentStateLocked`: an open circuit whose time-out has passed turns half-open when looked at. */
  function Look(c: Config, b: Circuit, now: int): Circuit {
    if b.state == Open && now - b.lastFailure >= c.resetTimeout
    then b.(state := HalfOpen, halfOpenCount := 0, changes := b.changes + [Change(Open, HalfOpen)])
    else b
  }

  predicate Admits(c: Config, b: Circuit, now: int) {
    var s := Look(c, b, now);
    s.state == Closed || (s.state == HalfOpen && s.halfOpenCount < c.halfOpenMaxRequests)
  }

  function Before(c: Config, b: Circuit, now: int): Circuit {
    var s := Look(c, b, now);
    if s.state == HalfOpen && Admits(c, b, now) then s.(halfOpenCount := s.halfOpenCount + 1) else s
  }

  function After(c: Config, b: Circuit, failed: bool, now: int): Circuit {
    match b.state
    case Open => b
    case Closed =>
      if !failed then b.(failures := 0)
      else if b.failures + 1 >= c.maxFailures
      then b.(state := Open, failures := b.failures + 1, lastFailure := now,
              changes := b.changes + [Change(Closed, Open)])
      else b.(failures := b.failures + 1, lastFailure := now)
    case HalfOpen =>
      if failed
      then b.(state := Open, lastFailure := now, changes := b.changes + [Change(HalfOpen, Open)])
      else b.(state := Closed, failures := 0, successes := 0, changes := b.changes + [Change(HalfOpen, Closed)])
  }

  function ToClosed(b: Circuit): Circuit {
    Circuit(Closed, 0, 0, b.lastFailure, 0,
            if b.state == Closed then b.changes else b.changes + [Change(b.state, Closed)])
  }

  datatype Metrics = Metrics(state: State, failures: int, successes: int, lastFailure: int)

  class CircuitBreaker {
    const config: ValidConfig
    var state: State
    var failures: int
    var successes: int
    var lastFailure: int
    var halfOpenCount: int
    var changes: seq<Change>   // the notifications sent so far

    function View(): Circuit
      reads this
    {
      Circuit(state, failures, successes, lastFailure, halfOpenCount, changes)
    }

    constructor (config: Config)
      ensures this.config == Normalize(config)
      ensures View() == Fresh()
    {
      this.config := Normalize(config);
      state, failures, successes, lastFailure, halfOpenCount := Closed, 0, 0, 0, 0;
      changes := [];
    }

    method CurrentStateLocked(now: int) returns (s: State)
      modifies this
      ensures View() == Look(config, old(View()), now) && s == state
    {
      if state == Open && now - lastFailure >= config.resetTimeout {
        state := HalfOpen;
        halfOpenCount := 0;
        changes := changes + [Change(Open, HalfOpen)];
      }
      s := state;
    }

    method GetMetrics(now: int) returns (m: Metrics)
      modifies this
      ensures View() == Look(config, old(View()), now)
      ensures m == Metrics(state, failures, successes, lastFailure)
      ensures m.state == HalfOpen && old(state) == Open ==> old(lastFailure) + config.resetTimeout <= now
    {
      var s := CurrentStateLocked(now);
      m := Metrics(s, failures, successes, lastFailure);
    }

    method BeforeRequest(now: int) returns (admitted: bool)
      modifies this
      ensures admitted == Admits(config, old(View()), now)
      ensures View() == Before(config, old(View()), now)
    {
      var s := CurrentStateLocked(now);
      match s {
        case Open => return false;
        case HalfOpen =>
          if halfOpenCount >= config.halfOpenMaxRequests {
            return false;
          }
          halfOpenCount := halfOpenCount + 1;
        case Closed =>
      }
      return true;
    }

    method SetState(s: State)
      modifies this
      ensures View() == old(View()).(state := s, halfOpenCount := if s == HalfOpen then 0 else old(halfOpenCount))
    {
      state := s;
      if s == HalfOpen {
        halfOpenCount := 0;
      }
    }

    method AfterRequest(failed: bool, now: int)
      modifies this
      ensures View() == After(config, old(View()), failed, now)
    {
      var oldState := state;
      match state {
        case Closed =>
          if failed {
            failures := failures + 1;
            lastFailure := now;
            if failures >= config.maxFailures {
              SetState(Open);
            }
          } else {
            failures := 0;
          }
        case HalfOpen =>
          if failed {
            lastFailure := now;
            SetState(Open);
          } else {
            successes := successes + 1;
            SetState(Closed);
            failures := 0;
            successes := 0;
          }
        case Open =>
      }
      if oldState != state {
        changes := changes + [Change(oldState, state)];
      }
    }

    method Reset()
      modifies this
      ensures View() == ToClosed(old(View()))
    {
      var oldState := state;
      state, failures, successes, halfOpenCount := Closed, 0, 0, 0;
      if oldState != Closed {
        changes := changes + [Change(oldState, Closed)];
      }
    }
  }

  function Fresh(): Circuit {
    Circuit(Closed, 0, 0, 0, 0, [])
  }

  // ---------------------------------------------------------------------------
  // Runs with overlapping calls

  /** `End` is the completion of a call begun earlier, however much later and in whatever state. */
  datatype Event = Begin(id: int, now: int) | End(id: int, failed: bool, now: int) | Peek(now: int) | Clear

  /** What an observer of the notifications and of the completions writes down. */
  datatype Mark = Completed(at: State, failed: bool) | Cleared

  /** `running` maps each call in flight to the half-open period that admitted it, 0 for a closed circuit. */
  datatype World = World(b: Circuit, running: map<int, nat>, period: nat, marks: seq<Mark>)

  function Start(): World {
    World(Fresh(), map[], 0, [])
  }

  function Step(c: Config, w: World, e: Event): World {
    match e
    case Begin(id, now) =>
      if id in w.running then w
      else
        var b := Before(c, w.b, now);
        var p := if Look(c, w.b, now).state != w.b.state then w.period + 1 else w.period;
        if Admits(c, w.b, now)
        then w.(b := b, period := p, running := w.running[id := if b.state == HalfOpen then p else 0])
        else w.(b := b, period := p)
    case End(id, failed, now) =>
      if id !in w.running then w
      else w.(b := After(c, w.b, failed, now), running := w.running - {id},
              marks := w.marks + [Completed(w.b.state, failed)])
    case Peek(now) =>
      w.(b := Look(c, w.b, now),
         period := if Look(c, w.b, now).state != w.b.state then w.period + 1 else w.period)
    case Clear => w.(b := ToClosed(w.b), marks := w.marks + [Cleared])
  }

  function Run(c: Config, w: World, es: seq<Event>): World {
    if es == [] then w else Step(c, Run(c, w, es[..|es| - 1]), es[|es| - 1])
  }

  /** The calls of the current half-open period that are still running. */
  ghost function Probes(w: World): set<int> {
    set id | id in w.running && w.running[id] == w.period
  }

  /** The failing completions since the last success, reset or recovery; completions in Open do not count. */
  function Streak(marks: seq<Mark>): nat {
    if marks == [] then 0
    else
      var rest := Streak(marks[..|marks| - 1]);
      match marks[|marks| - 1]
      case Cleared => 0
      case Completed(Closed, failed) => if failed then rest + 1 else 0
      case Completed(HalfOpen, failed) => if failed then rest else 0
      case Completed(Open, _) => rest
  }

  ghost predicate HalfOpenAccounting(c: Config, w: World) {
    && (forall id :: id in w.running ==> w.running[id] <= w.period)
    && (w.b.state == HalfOpen ==>
          && 0 < w.period
          && w.b.halfOpenCount == |Probes(w)|
          && w.b.halfOpenCount <= c.halfOpenMaxRequests)
  }

  ghost predicate TripExact(c: Config, w: World) {
    && w.b.failures == Streak(w.marks)
    && (w.b.state == Closed ==> w.b.failures < c.maxFailures)
    && (w.b.state != Closed ==> w.b.failures == c.maxFailures)
  }

  predicate Legal(h: Change) {
    h in {Change(Closed, Open), Change(Open, HalfOpen), Change(HalfOpen, Open),
          Change(HalfOpen, Closed), Change(Open, Closed)}
  }

  /** A connected path of legal changes from Closed to `s`. */
  ghost predicate Path(hs: seq<Change>, s: State) {
    && (forall i :: 0 <= i < |hs| ==> Legal(hs[i]))
    && (forall i :: 0 < i < |hs| ==> hs[i].from == hs[i - 1].to)
    && (hs != [] ==> hs[0].from == Closed)
    && s == (if hs == [] then Closed else hs[|hs| - 1].to)
  }

  ghost predicate Inv(c: Config, w: World) {
    HalfOpenAccounting(c, w) && TripExact(c, w) && Path(w.b.changes, w.b.state)
  }

  lemma StreakSnoc(marks: seq<Mark>, m: Mark)
    ensures Streak(marks + [m]) ==
      match m {
        case Cleared => 0
        case Completed(Closed, failed) => if failed then Streak(marks) + 1 else 0
        case Completed(HalfOpen, failed) => if failed then Streak(marks) else 0
        case Completed(Open, _) => Streak(marks)
      }
  {
    assert (marks + [m])[..|marks|] == marks;
  }

  /** A look changes nothing that has been counted; a period it opens starts without probes. */
  lemma LookKeeps(c: Config, w: World, now: int)
    requires c.Valid() && Inv(c, w)
    ensures Inv(c, Step(c, w, Peek(now)))
  {
    var v := Step(c, w, Peek(now));
    if v.b != w.b {
      forall id | id in v.running ensures v.running[id] != v.period {
        assert w.running[id] <= w.period;
      }
      assert Probes(v) == {};
    }
  }

  lemma BeginKeeps(c: Config, w: World, id: int, now: int)
    requires c.Valid() && Inv(c, w) && id !in w.running
    ensures Inv(c, Step(c, w, Begin(id, now)))
  {
    LookKeeps(c, w, now);
    var m := Step(c, w, Peek(now));
    var v := Step(c, w, Begin(id, now));
    assert v.period == m.period;
    if v.b.state == HalfOpen {
      if Admits(c, w.b, now) {
        assert Probes(v) == Probes(m) + {id};
      } else {
        assert Probes(v) == Probes(m);
      }
    }
  }

  /** A completion never leaves the circuit half-open, and moves the failure count as its mark moves the streak. */
  lemma EndKeeps(c: Config, w: World, id: int, failed: bool, now: int)
    requires c.Valid() && Inv(c, w) && id in w.running
    ensures Inv(c, Step(c, w, End(id, failed, now)))
  {
    var v := Step(c, w, End(id, failed, now));
    assert HalfOpenAccounting(c, v);
    EndTrips(c, w, id, failed, now);
    AfterPath(c, w.b, failed, now);
  }

  lemma EndTrips(c: Config, w: World, id: int, failed: bool, now: int)
    requires c.Valid() && TripExact(c, w) && id in w.running
    ensures TripExact(c, Step(c, w, End(id, failed, now)))
  {
    StreakSnoc(w.marks, Completed(w.b.state, failed));
  }

  lemma AfterPath(c: Config, b: Circuit, failed: bool, now: int)
    requires Path(b.changes, b.state)
    ensures Path(After(c, b, failed, now).changes, After(c, b, failed, now).state)
  {}

  lemma StepKeeps(c: Config, w: World, e: Event)
    requires c.Valid() && Inv(c, w)
    ensures Inv(c, Step(c, w, e))
  {
    match e
    case Begin(id, now) => if id !in w.running { BeginKeeps(c, w, id, now); }
    case Peek(now) => LookKeeps(c, w, now);
    case Clear => StreakSnoc(w.marks, Cleared);
    case End(id, failed, now) => if id in w.running { EndKeeps(c, w, id, failed, now); }
  }

  /** In every reachable state: half-open accounting, trip exactness, and a connected notification path. */
  lemma {:induction false} EveryRun(c: Config, es: seq<Event>)
    requires c.Valid()
    ensures Inv(c, Run(c, Start(), es))
  {
    if es != [] {
      EveryRun(c, es[..|es| - 1]);
      StepKeeps(c, Run(c, Start(), es[..|es| - 1]), es[|es| - 1]);
    }
  }

  lemma SomeMember(s: set<int>)
    requires |s| > 0
    ensures exists x :: x in s
  {
    if forall x :: x !in s {
      assert false;
    }
  }

  /** A half-open rejection always has a running probe, and every completion while half-open leaves the state. */
  lemma HalfOpenRejection(c: Config, es: seq<Event>, now: int)
    requires c.Valid()
    ensures var w := Run(c, Start(), es);
            var looked := Step(c, w, Peek(now));
            !Admits(c, w.b, now) && looked.b.state == HalfOpen ==>
              && |Probes(looked)| == c.halfOpenMaxRequests
              && (exists id :: id in Probes(looked))
              && forall id, failed, t :: id in looked.running ==>
                   Step(c, looked, End(id, failed, t)).b.state == (if failed then Open else Closed)
  {
    EveryRun(c, es);
    var w := Run(c, Start(), es);
    LookKeeps(c, w, now);
    var looked := Step(c, w, Peek(now));
    if !Admits(c, w.b, now) && looked.b.state == HalfOpen {
      var probes := Probes(looked);
      SomeMember(probes);
    }
  }

  /** A closed circuit opens on a completion iff that is the MaxFailures-th failing one in a row. */
  lemma TripsExactly(c: Config, es: seq<Event>, id: int, failed: bool, now: int)
    requires c.Valid()
    requires id in Run(c, Start(), es).running && Run(c, Start(), es).b.state == Closed
    ensures var v := Run(c, Start(), es + [End(id, failed, now)]);
            && (v.b.state == Open <==> Streak(v.marks) == c.maxFailures)
            && (v.b.state == Closed <==> Streak(v.marks) < c.maxFailures)
            && (v.b.state == Open ==> failed && v.b.lastFailure == now)
  {
    var e := End(id, failed, now);
    assert (es + [e])[..|es|] == es;
    EveryRun(c, es);
    EveryRun(c, es + [e]);
  }

  /** An attempt joins the running calls iff the circuit is closed, or open with its time-out passed, or half-open
      with a free place; whatever the failures counted so far. */
  lemma AdmittedIff(c: Config, es: seq<Event>, id: int, now: int)
    requires c.Valid() && id !in Run(c, Start(), es).running
    ensures var w := Run(c, Start(), es);
            id in Run(c, Start(), es + [Begin(id, now)]).running <==>
              || w.b.state == Closed
              || (w.b.state == Open && w.b.lastFailure + c.resetTimeout <= now)
              || (w.b.state == HalfOpen && |Probes(w)| < c.halfOpenMaxRequests)
  {
    EveryRun(c, es);
    assert (es + [Begin(id, now)])[..|es|] == es;
  }

  /** A poll or an attempt turns the circuit half-open iff it is open and its time-out has passed, and changes the
      state in no other way. */
  lemma HalfOpensIff(c: Config, w: World, e: Event)
    requires c.Valid() && (e.Peek? || (e.Begin? && e.id !in w.running))
    ensures Step(c, w, e).b.state ==
      if w.b.state == Open && w.b.lastFailure + c.resetTimeout <= e.now then HalfOpen else w.b.state
    ensures (Step(c, w, e).b.failures, Step(c, w, e).b.lastFailure) == (w.b.failures, w.b.lastFailure)
  {}

  /** The failure time is that of the latest failing completion that did not find the circuit open, a reset or not;
      nothing else moves it. */
  lemma FailureTime(c: Config, w: World, e: Event)
    ensures Step(c, w, e).b.lastFailure ==
      if e.End? && e.id in w.running && e.failed && w.b.state != Open then e.now else w.b.lastFailure
  {}

  /** The success count is never seen to be anything but zero: the first success of a half-open circuit closes it. */
  lemma {:induction false} SuccessesAreZero(c: Config, es: seq<Event>)
    ensures Run(c, Start(), es).b.successes == 0
  {
    if es != [] { SuccessesAreZero(c, es[..|es| - 1]); }
  }

  predicate FailedClosed(m: Mark) {
    m == Completed(Closed, true)
  }

  /** The last `n` marks, and not the one before them, are failing completions of a closed circuit. */
  ghost predicate FailingSuffix(marks: seq<Mark>, n: int) {
    && 0 <= n <= |marks|
    && (forall i :: |marks| - n <= i < |marks| ==> FailedClosed(marks[i]))
    && (n < |marks| ==> !FailedClosed(marks[|marks| - n - 1]))
  }

  lemma SuffixGrows(marks: seq<Mark>, n: int, m: Mark)
    requires FailingSuffix(marks, n)
    ensures FailingSuffix(marks + [m], if FailedClosed(m) then n + 1 else 0)
  {
    var more := marks + [m];
    assert forall i :: 0 <= i < |marks| ==> more[i] == marks[i];
  }

  /** While the circuit is closed the failure counter is the length of the longest suffix of failing completions. */
  lemma {:induction false} FailuresAreConsecutive(c: Config, es: seq<Event>)
    requires c.Valid()
    ensures var w := Run(c, Start(), es);
            w.b.state == Closed ==> FailingSuffix(w.marks, w.b.failures)
  {
    if es != [] {
      var v, e := Run(c, Start(), es[..|es| - 1]), es[|es| - 1];
      FailuresAreConsecutive(c, es[..|es| - 1]);
      EveryRun(c, es[..|es| - 1]);
      if Step(c, v, e).b.state == Closed { ClosedSuffix(c, v, e); }
    }
  }

  lemma ClosedSuffix(c: Config, v: World, e: Event)
    requires v.b.state == Closed ==> FailingSuffix(v.marks, v.b.failures)
    requires Step(c, v, e).b.state == Closed
    ensures FailingSuffix(Step(c, v, e).marks, Step(c, v, e).b.failures)
  {
    if v.b.state == Closed && e.End? && e.id in v.running {
      SuffixGrows(v.marks, v.b.failures, Completed(Closed, e.failed));
    }
  }

  /** A closed circuit opens on a completion iff the last MaxFailures marks are then failing completions of a closed
      circuit. */
  lemma OpensOnConsecutiveFailures(c: Config, es: seq<Event>, id: int, failed: bool, now: int)
    requires c.Valid()
    requires id in Run(c, Start(), es).running && Run(c, Start(), es).b.state == Closed
    ensures var v := Run(c, Start(), es + [End(id, failed, now)]);
            v.b.state == Open <==>
              && c.maxFailures <= |v.marks|
              && forall i :: |v.marks| - c.maxFailures <= i < |v.marks| ==> FailedClosed(v.marks[i])
  {
    var e := End(id, failed, now);
    assert (es + [e])[..|es|] == es;
    var w := Run(c, Start(), es);
    FailuresAreConsecutive(c, es);
    EveryRun(c, es);
    SuffixGrows(w.marks, w.b.failures, Completed(Closed, failed));
    var v := Run(c, Start(), es + [e]);
    if v.b.state != Open && c.maxFailures <= |v.marks| {
      var n := if failed then w.b.failures + 1 else 0;
      assert FailingSuffix(v.marks, n) && n < c.maxFailures;
      assert !FailedClosed(v.marks[|v.marks| - n - 1]);
    }
  }

  /** Entering Open records the time of entry, whoever the entering call is. */
  lemma OpenRecordsEntry(c: Config, w: World, e: Event)
    requires w.b.state != Open && Step(c, w, e).b.state == Open
    ensures e.End? && e.failed && Step(c, w, e).b.lastFailure == e.now
  {}

  /** Cool-down: while the time-out of an open circuit has not passed, no event but a reset admits a call or
      changes the circuit, late completions and polls included. */
  lemma {:induction false} CoolDown(c: Config, w: World, es: seq<Event>)
    requires w.b.state == Open
    requires forall i :: 0 <= i < |es| ==> !es[i].Clear? && es[i].now < w.b.lastFailure + c.resetTimeout
    ensures Run(c, w, es).b == w.b
    ensures Run(c, w, es).running.Keys <= w.running.Keys
  {
    if es != [] {
      CoolDown(c, w, es[..|es| - 1]);
    }
  }

  lemma {:induction false} RunConcat(c: Config, w: World, es: seq<Event>, fs: seq<Event>)
    ensures Run(c, w, es + fs) == Run(c, Run(c, w, es), fs)
  {
    if fs == [] {
      assert es + fs == es;
    } else {
      assert (es + fs)[..|es + fs| - 1] == es + fs[..|fs| - 1];
      RunConcat(c, w, es, fs[..|fs| - 1]);
    }
  }

  lemma RunSnoc(c: Config, es: seq<Event>, i: nat)
    requires i < |es|
    ensures Run(c, Start(), es[..i + 1]) == Step(c, Run(c, Start(), es[..i]), es[i])
  {
    assert es[..i + 1][..i] == es[..i];
  }

  /** On any run with a clock that never goes back: between the event that opens the circuit and the next
      admitted call at least the reset time-out passes, unless a reset comes between. */
  lemma NoEarlyAdmission(c: Config, es: seq<Event>, i: nat, j: nat)
    requires i < j < |es| && es[j].Begin?
    requires forall k :: i <= k <= j ==> !es[k].Clear?
    requires forall k :: i <= k <= j ==> es[k].now <= es[j].now
    requires Run(c, Start(), es[..i]).b.state != Open && Run(c, Start(), es[..i + 1]).b.state == Open
    requires es[j].id !in Run(c, Start(), es[..j]).running && es[j].id in Run(c, Start(), es[..j + 1]).running
    ensures es[i].now + c.resetTimeout <= es[j].now
  {
    RunSnoc(c, es, i);
    RunSnoc(c, es, j);
    OpenRecordsEntry(c, Run(c, Start(), es[..i]), es[i]);
    if es[j].now < es[i].now + c.resetTimeout {
      var mid := es[i + 1..j];
      forall k | 0 <= k < |mid| ensures !mid[k].Clear? && mid[k].now <= es[j].now {
        assert mid[k] == es[i + 1 + k];
      }
      assert es[..j] == es[..i + 1] + mid by { assert es[..j][..i + 1] == es[..i + 1]; }
      RunConcat(c, Start(), es[..i + 1], mid);
      CoolDown(c, Run(c, Start(), es[..i + 1]), mid);
    }
  }

  /** An event notifies at most once, and only a reset closes an open circuit. */
  lemma ChangesOfOneStep(c: Config, w: World, e: Event)
    ensures var hs := Step(c, w, e).b.changes;
            && |w.b.changes| <= |hs| <= |w.b.changes| + 1
            && hs[..|w.b.changes|] == w.b.changes
            && (|hs| > |w.b.changes| && hs[|hs| - 1] == Change(Open, Closed) ==> e.Clear?)
            && (|hs| > |w.b.changes| && hs[|hs| - 1] == Change(HalfOpen, Closed) ==> e.Clear? || (e.End? && !e.failed))
  {}

  /** Nobody has gone, and whoever is new belongs to the period of `w`. */
  ghost predicate OnlyProbesJoined(v: World, w: World) {
    && v.running.Keys <= w.running.Keys
    && forall id :: id in w.running ==> w.running[id] == if id in v.running then v.running[id] else w.period
  }

  lemma OpeningStep(c: Config, w: World, e: Event)
    requires w.b.state == Open && Step(c, w, e).b.state == HalfOpen
    ensures Step(c, w, e).period == w.period + 1 && OnlyProbesJoined(w, Step(c, w, e))
  {}

  lemma StayingStep(c: Config, w: World, e: Event)
    requires w.b.state == HalfOpen && Step(c, w, e).b.state == HalfOpen
    ensures Step(c, w, e).period == w.period && OnlyProbesJoined(w, Step(c, w, e))
  {}

  lemma JoinedTwice(u: World, v: World, w: World)
    requires OnlyProbesJoined(u, v) && OnlyProbesJoined(v, w) && v.period == w.period
    ensures OnlyProbesJoined(u, w)
  {}

  predicate HalfOpenAfter(c: Config, es: seq<Event>, k: nat)
    requires k < |es|
  {
    Run(c, Start(), es[..k + 1]).b.state == HalfOpen
  }

  /** What runs in a half-open period that event `i` opens: the calls in flight then, all of them still, and probes. */
  lemma {:induction false} PeriodMembers(c: Config, es: seq<Event>, i: nat, k: nat)
    requires i <= k < |es|
    requires Run(c, Start(), es[..i]).b.state == Open
    requires forall m :: i <= m <= k ==> HalfOpenAfter(c, es, m)
    ensures var v, w := Run(c, Start(), es[..i]), Run(c, Start(), es[..k + 1]);
            w.period == v.period + 1 && OnlyProbesJoined(v, w)
    decreases k
  {
    var w := Run(c, Start(), es[..k]);
    RunSnoc(c, es, k);
    assert HalfOpenAfter(c, es, k);
    if i == k {
      OpeningStep(c, w, es[k]);
    } else {
      var h := k - 1;
      PeriodMembers(c, es, i, h);
      assert es[..h + 1] == es[..k] && HalfOpenAfter(c, es, h);
      StayingStep(c, w, es[k]);
      JoinedTwice(Run(c, Start(), es[..i]), w, Run(c, Start(), es[..k + 1]));
    }
  }

  /** Every call that can close the circuit in a half-open period is a probe of that period iff no call was in flight
      when the period opened: throughout the period, the running calls that are no probes are exactly those. */
  lemma ClosersAreProbesIff(c: Config, es: seq<Event>, i: nat, k: nat)
    requires c.Valid() && i <= k < |es|
    requires Run(c, Start(), es[..i]).b.state == Open
    requires forall m :: i <= m <= k ==> HalfOpenAfter(c, es, m)
    ensures var v, w := Run(c, Start(), es[..i]), Run(c, Start(), es[..k + 1]);
            && (forall id :: id in w.running && id !in Probes(w) <==> id in v.running)
            && (forall id, t :: id in w.running ==> Step(c, w, End(id, false, t)).b.state == Closed)
            && ((forall id :: id in w.running ==> id in Probes(w)) <==> v.running == map[])
  {
    var v, w := Run(c, Start(), es[..i]), Run(c, Start(), es[..k + 1]);
    PeriodMembers(c, es, i, k);
    assert HalfOpenAfter(c, es, k);
    EveryRun(c, es[..i]);
    assert forall id :: id in w.running && id !in Probes(w) <==> id in v.running;
    if forall id :: id in w.running ==> id in Probes(w) {
      assert forall id :: id !in v.running;
    }
  }

  /** A probe that is never reported keeps its place: with all places taken, attempts and polls alone, however many
      and however late, change nothing, and a reset or any completion ends it. */
  lemma {:induction false} StuckUntilReported(c: Config, w: World, es: seq<Event>)
    requires w.b.state == HalfOpen && w.b.halfOpenCount >= c.halfOpenMaxRequests
    requires forall e :: e in es ==> e.Begin? || e.Peek?
    ensures Run(c, w, es) == w
    ensures forall e: Event :: (e.Clear? || (e.End? && e.id in w.running)) ==> Step(c, w, e).b.state != HalfOpen
  {
    if es != [] {
      var k := |es| - 1;
      assert es[k] in es && forall e :: e in es[..k] ==> e in es;
      StuckUntilReported(c, w, es[..k]);
    }
  }

  /** A success that closes the circuit need not be a probe's: here call 2, begun before the trip, closes it. */
  lemma StaleCallCloses(now: int)
    ensures var c := Config(1, 10, 1);
            var es := [Begin(1, now), Begin(2, now), End(1, true, now), Peek(now + 10)];
            var w := Run(c, Start(), es);
            && w.b.state == HalfOpen && Probes(w) == {} && w.running == map[2 := 0]
            && Step(c, w, End(2, false, now + 11)).b.state == Closed
  {
    var c := Config(1, 10, 1);
    var e1, e2, e3, e4 := Begin(1, now), Begin(2, now), End(1, true, now), Peek(now + 10);
    assert [e1, e2, e3, e4][..3] == [e1, e2, e3] && [e1, e2, e3][..2] == [e1, e2] && [e1, e2][..1] == [e1];
    var w1 := Step(c, Start(), e1);
    assert Run(c, Start(), [e1]) == w1;
    var w2 := Step(c, w1, e2);
    assert Run(c, Start(), [e1, e2]) == w2;
    var w3 := Step(c, w2, e3);
    assert Run(c, Start(), [e1, e2, e3]) == w3;
    assert w3.running == map[2 := 0];
  }
}
