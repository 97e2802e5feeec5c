/** Many calls of one executor at once: the layers of resilience/executor.go around one bulkhead of
    resilience/bulkhead.go, whose atomic steps interleave with everything else that the calls do. */
module Concurrent {
  import opened Wrappers
  import opened Executor
  import opened Retry
  import Bulkhead
  import CircuitBreaker
  import RateLimiter

  /** An atomic step of the bulkhead, an effect of a call on anything else, or a poll or a reset of the breaker by
      anyone. Each call has its own id. */
  datatype Event = Slot(e: Bulkhead.Event) | Does(id: int, effect: Effect) | Aside(look: CircuitBreaker.Event)

  /** `did` records what each call has done so far. */
  datatype World = World(slots: Bulkhead.World, did: map<int, Trace>)

  function Did(w: World, id: int): Trace {
    if id in w.did then w.did[id] else []
  }

  function Note(w: World, id: int, effect: Effect): World {
    w.(did := w.did[id := Did(w, id) + [effect]])
  }

  predicate Holds(b: Bulkhead.World, id: int) {
    id in b.at && b.at[id] == Bulkhead.Holding
  }

  /** What a bulkhead step means for the call that takes it: `Acquire` has returned, or `Release` has begun. */
  function Meaning(b: Bulkhead.World, e: Bulkhead.Event): Option<Effect> {
    if e.id !in b.at then None
    else match (e.act, b.at[e.id])
      case (CountSend, Sent) => Some(SlotTaken)
      case (CountReject, Refused) => Some(SlotRefused)
      case (Receive, Holding) => Some(SlotFreed)
      case _ => None
  }

  predicate OnSlots(effect: Effect) {
    effect.SlotTaken? || effect.SlotRefused? || effect.SlotFreed?
  }

  function Step(c: Bulkhead.Config, w: World, ev: Event): World {
    match ev
    case Slot(e) =>
      var v := w.(slots := Bulkhead.Step(c, w.slots, e));
      var m := Meaning(w.slots, e);
      if m.Some? then Note(v, e.id, m.value) else v
    case Does(id, effect) => if OnSlots(effect) then w else Note(w, id, effect)
    case Aside(_) => w
  }

  function Run(c: Bulkhead.Config, es: seq<Event>): World {
    if es == [] then World(Bulkhead.Start(), map[]) else Step(c, Run(c, es[..|es| - 1]), es[|es| - 1])
  }

  /** Every call has done what an executor with its layers does, up to some point of it. What differs between the
      calls of one executor, such as their contexts, their timing and their jitter, is part of their layers and
      environments, so each call has its own. */
  ghost predicate Executed(ls: int -> Layers, envs: int -> Env, w: World) {
    forall id :: Did(w, id) <= ToLimiter(ls(id), envs(id), []).0
  }

  /** The executors of all calls use the bulkhead. */
  ghost predicate Guarding(ls: int -> Layers) {
    forall id :: ls(id).bulkhead
  }

  // ---------------------------------------------------------------------------
  // The shape of one call

  /** A call takes at most one slot, frees it last, starts operations only in between, and abandons only the
      operation it has just started, under a time-out. */
  ghost predicate Orderly(l: Layers, t: Trace) {
    && (forall i, j :: 0 <= i < j < |t| && t[i].SlotTaken? ==> !t[j].SlotTaken?)
    && (forall i :: 0 <= i < |t| - 1 ==> !t[i].SlotFreed?)
    && (forall i :: 0 <= i < |t| && t[i].SlotFreed? ==> exists a :: 0 <= a < i && t[a].SlotTaken?)
    && (forall i :: 0 <= i < |t| && t[i].Started? ==> exists a :: 0 <= a < i && t[a].SlotTaken?)
    && AbandonsInTurn(l, t)
  }

  /** An abandonment comes right after a start, and only under a time-out. */
  ghost predicate AbandonsInTurn(l: Layers, s: Trace) {
    forall i :: 0 <= i < |s| && s[i].Abandoned? ==> 0 < i && s[i - 1].Started? && l.timeout
  }

  /** What happens while a slot is held. */
  ghost predicate Inner(l: Layers, s: Trace) {
    (forall i :: 0 <= i < |s| ==> !OnSlots(s[i])) && AbandonsInTurn(l, s)
  }

  lemma InnerSnoc(l: Layers, s: Trace, e: Effect)
    requires Inner(l, s) && !OnSlots(e)
    requires e.Abandoned? ==> s != [] && s[|s| - 1].Started? && l.timeout
    ensures Inner(l, s + [e])
  {}

  lemma InnerCons(l: Layers, e: Effect, s: Trace)
    requires Inner(l, s) && !OnSlots(e) && !e.Abandoned?
    ensures Inner(l, [e] + s)
  {
    var t := [e] + s;
    assert forall i :: 0 < i < |t| ==> t[i] == s[i - 1];
    forall i | 0 <= i < |t| ensures !OnSlots(t[i]) && (t[i].Abandoned? ==> 1 < i && t[i - 1].Started? && l.timeout) {
      if 0 < i { assert !OnSlots(s[i - 1]) && (s[i - 1].Abandoned? ==> t[i - 1] == s[i - 2]); }
    }
  }

  lemma {:induction false} AttemptsInTurn(l: Layers, env: Env, t: Trace, k: nat)
    ensures t <= After(Attempt(l, env), t, k) && Inner(l, After(Attempt(l, env), t, k)[|t|..])
  {
    if 0 < k {
      AttemptsInTurn(l, env, t, k - 1);
      var u := After(Attempt(l, env), t, k - 1);
      OneAttempt(l, env, u);
      AttemptInTurn(l, t, u);
    }
  }

  lemma AttemptInTurn(l: Layers, t: Trace, u: Trace)
    requires t <= u && Inner(l, u[|t|..])
    ensures Inner(l, (u + [Started])[|t|..])
    ensures l.timeout ==> Inner(l, (u + [Started, Abandoned])[|t|..])
  {
    var s := u[|t|..];
    assert (u + [Started])[|t|..] == s + [Started];
    InnerSnoc(l, s, Started);
    if l.timeout {
      assert (u + [Started, Abandoned])[|t|..] == s + [Started] + [Abandoned];
      InnerSnoc(l, s + [Started], Abandoned);
    }
  }

  lemma CoreInTurn(l: Layers, env: Env, t: Trace)
    ensures t <= Core(l, env, t).0 && Inner(l, Core(l, env, t).0[|t|..])
  {
    if l.retry.Some? {
      AttemptsInTurn(l, env, t, Last(l.retry.value, Attempt(l, env), t, 1));
    } else {
      AttemptsInTurn(l, env, t, 1);
      assert After(Attempt(l, env), t, 0) == t;
    }
  }

  lemma BreakerInTurn(l: Layers, env: Env, t: Trace)
    ensures t <= ToBreaker(l, env, t).0 && Inner(l, ToBreaker(l, env, t).0[|t|..])
  {
    if l.breaker.None? {
      CoreInTurn(l, env, t);
    } else {
      var b := l.breaker.value;
      var ask := Ask(b, env.circuit(|t|), env.now(|t|));
      CoreInTurn(l, env, t + [ask]);
      var (u, r) := Core(l, env, t + [ask]);
      var s := u[|t + [ask]|..];
      InnerCons(l, ask, s);
      assert u[|t|..] == [ask] + s;
      InnerCons(l, ask, []);
      assert (t + [ask])[|t|..] == [ask] + [];
      if r.Returned? {
        var z := Telling(b, env.circuit(|u|), b.isFailure(r.err), env.now(|u|));
        InnerSnoc(l, [ask] + s, z);
        assert (u + [z])[|t|..] == [ask] + s + [z];
      }
    }
  }

  /** What a call does before it asks the bulkhead, and what it may do there. */
  lemma OrderlyAround(l: Layers, front: Trace, s: Trace)
    requires forall e :: e in front ==> e.Took?
    requires |s| <= 1 ==> forall e :: e in s ==> e.SlotRefused?
    requires 1 < |s| ==> s[0].SlotTaken? && s[|s| - 1].SlotFreed? && Inner(l, s[1..|s| - 1])
    ensures Orderly(l, front + s)
  {
    var t, n := front + s, |front|;
    forall i | 0 <= i < |t|
      ensures t[i].SlotTaken? ==> i == n && 1 < |s|
      ensures t[i].SlotFreed? ==> i == |t| - 1 && 1 < |s|
      ensures t[i].Started? ==> n < i && 1 < |s|
      ensures t[i].Abandoned? ==> n < i < |t| - 1 && 1 < |s|
    {
      if i < n {
        assert t[i] in front;
      } else if |s| <= 1 {
        assert t[i] in s;
      } else if n < i < |t| - 1 {
        assert t[i] == s[1..|s| - 1][i - n - 1] && !OnSlots(t[i]);
      }
    }
    forall i | 0 <= i < |t| && t[i].Abandoned? ensures 0 < i && t[i - 1].Started? && l.timeout {
      var inner, k := s[1..|s| - 1], i - n - 1;
      assert t[i] == inner[k] && inner[k].Abandoned?;
      assert t[i - 1] == inner[k - 1];
    }
    assert 1 < |s| ==> t[n].SlotTaken?;
  }

  lemma BulkheadInTurn(l: Layers, env: Env, t: Trace)
    requires l.bulkhead && forall e :: e in t ==> e.Took?
    ensures Orderly(l, ToBulkhead(l, env, t).0)
  {
    BreakerInTurn(l, env, t + [SlotTaken]);
    var u := ToBreaker(l, env, t + [SlotTaken]).0;
    Enclose(t, SlotTaken, u, SlotFreed);
    var v := ToBulkhead(l, env, t).0;
    var s := if env.acquire(|t|).Full? then [SlotRefused] else if env.acquire(|t|).Cancelled? then []
             else (u + [SlotFreed])[|t|..];
    assert v == t + s;
    OrderlyAround(l, t, s);
  }

  lemma {:induction false} CallIsOrderly(l: Layers, env: Env)
    requires l.bulkhead
    ensures Orderly(l, ToLimiter(l, env, []).0)
  {
    if l.limiter.None? {
      BulkheadInTurn(l, env, []);
    } else {
      var u := Take(l.limiter.value, env, []).1;
      var v := Take(l.limiter.value, env, u).1;
      BulkheadInTurn(l, env, u);
      BulkheadInTurn(l, env, v);
    }
  }

  // ---------------------------------------------------------------------------
  // Calls and slots

  /** The call has a slot as far as its own record says. */
  predicate Inside(t: Trace) {
    SlotTaken in t && SlotFreed !in t
  }

  ghost predicate HoldersAreInside(w: World) {
    forall id :: Holds(w.slots, id) <==> Inside(Did(w, id))
  }

  lemma DidGrows(c: Bulkhead.Config, w: World, ev: Event, id: int)
    ensures Did(w, id) <= Did(Step(c, w, ev), id)
  {}

  lemma NextInOrder(l: Layers, t: Trace, p: Trace, e: Effect)
    requires Orderly(l, t) && p + [e] <= t
    ensures SlotFreed !in p
    ensures e == SlotTaken ==> SlotTaken !in p
    ensures e == Started || e == SlotFreed ==> SlotTaken in p
  {
    assert forall i :: 0 <= i < |p| ==> p[i] == t[i];
    assert t[|p|] == e;
  }

  lemma CallMatches(l: Layers, t: Trace, c: Bulkhead.ValidConfig, w: World, ev: Event, id: int)
    requires Orderly(l, t) && Did(Step(c, w, ev), id) <= t
    requires Holds(w.slots, id) <==> Inside(Did(w, id))
    ensures Holds(Step(c, w, ev).slots, id) <==> Inside(Did(Step(c, w, ev), id))
  {
    var v := Step(c, w, ev);
    if Did(v, id) != Did(w, id) {
      var e := Did(v, id)[|Did(w, id)|];
      assert Did(v, id) == Did(w, id) + [e];
      NextInOrder(l, t, Did(w, id), e);
    }
  }

  lemma StepMatches(ls: int -> Layers, envs: int -> Env, c: Bulkhead.ValidConfig, w: World, ev: Event)
    requires Guarding(ls) && HoldersAreInside(w) && Executed(ls, envs, Step(c, w, ev))
    ensures HoldersAreInside(Step(c, w, ev))
  {
    var v := Step(c, w, ev);
    forall id ensures Holds(v.slots, id) <==> Inside(Did(v, id)) {
      CallIsOrderly(ls(id), envs(id));
      CallMatches(ls(id), ToLimiter(ls(id), envs(id), []).0, c, w, ev, id);
    }
  }

  lemma {:induction false} HoldersMatch(ls: int -> Layers, envs: int -> Env, c: Bulkhead.ValidConfig, es: seq<Event>)
    requires Guarding(ls) && Executed(ls, envs, Run(c, es))
    ensures HoldersAreInside(Run(c, es))
  {
    if es != [] {
      var w, ev := Run(c, es[..|es| - 1]), es[|es| - 1];
      forall id ensures Did(w, id) <= ToLimiter(ls(id), envs(id), []).0 { DidGrows(c, w, ev, id); }
      HoldersMatch(ls, envs, c, es[..|es| - 1]);
      StepMatches(ls, envs, c, w, ev);
    }
  }

  /** The bulkhead's own run inside this one. */
  function SlotEvents(es: seq<Event>): seq<Bulkhead.Event> {
    if es == [] then []
    else SlotEvents(es[..|es| - 1]) + if es[|es| - 1].Slot? then [es[|es| - 1].e] else []
  }

  lemma {:induction false} SlotsRun(c: Bulkhead.Config, es: seq<Event>)
    ensures Run(c, es).slots == Bulkhead.Run(c, SlotEvents(es))
  {
    if es != [] {
      SlotsRun(c, es[..|es| - 1]);
      if es[|es| - 1].Slot? {
        Bulkhead.Extend(c, SlotEvents(es[..|es| - 1]), es[|es| - 1].e);
      } else {
        assert SlotEvents(es) == SlotEvents(es[..|es| - 1]);
      }
    }
  }

  // ---------------------------------------------------------------------------
  // Operations

  /** The calls that have started an operation and have not gone on since. */
  ghost function Attending(w: World): set<int> {
    set id | id in w.did && w.did[id] != [] && w.did[id][|w.did[id]| - 1] == Started
  }

  /** The operations that may still run, by call and place in its record: those attended, and those abandoned. */
  ghost function Attended(w: World): set<(int, nat)> {
    set id | id in Attending(w) :: (id, |w.did[id]| - 1)
  }

  ghost function AbandonedOnes(w: World): set<(int, nat)> {
    set id, n | id in w.did && 0 <= n < |w.did[id]| - 1 && w.did[id][n] == Started && w.did[id][n + 1] == Abandoned
      :: (id, n)
  }

  ghost function Unfinished(w: World): set<(int, nat)> {
    Attended(w) + AbandonedOnes(w)
  }

  lemma AttendedIsInside(l: Layers, t: Trace, p: Trace)
    requires Orderly(l, t) && p <= t && p != [] && p[|p| - 1] == Started
    ensures Inside(p)
  {
    var front := p[..|p| - 1];
    assert p == front + [Started];
    NextInOrder(l, t, front, Started);
  }

  /** In every interleaving each call with an attended operation holds a slot, so there are at most MaxConcurrent. */
  lemma {:induction false} AttendedAreBounded(ls: int -> Layers, envs: int -> Env, c: Bulkhead.ValidConfig,
                                              es: seq<Event>)
    requires Guarding(ls) && Executed(ls, envs, Run(c, es))
    ensures Attending(Run(c, es)) <= Bulkhead.In(Run(c, es).slots.at, Bulkhead.Holding)
    ensures |Attending(Run(c, es))| <= c.maxConcurrent
  {
    var w := Run(c, es);
    var holders := Bulkhead.In(w.slots.at, Bulkhead.Holding);
    HoldersMatch(ls, envs, c, es);
    forall id | id in Attending(w) ensures id in holders {
      CallIsOrderly(ls(id), envs(id));
      AttendedIsInside(ls(id), ToLimiter(ls(id), envs(id), []).0, Did(w, id));
      assert Holds(w.slots, id);
    }
    SlotsRun(c, es);
    Bulkhead.HoldersAndOvershoot(c, SlotEvents(es));
    Fewer(Attending(w), holders);
  }

  lemma Fewer(s: set<int>, t: set<int>)
    requires s <= t
    ensures |s| <= |t|
  {
    assert t == s + (t - s);
  }

  function Pairs(ids: set<int>, f: map<int, nat>): set<(int, nat)>
    requires ids <= f.Keys
  {
    set id | id in ids :: (id, f[id])
  }

  lemma {:induction false} OneEach(ids: set<int>, f: map<int, nat>)
    requires ids <= f.Keys
    ensures |Pairs(ids, f)| == |ids|
  {
    if |ids| == 0 {
      assert Pairs(ids, f) == {};
    } else {
      CircuitBreaker.SomeMember(ids);
      var x :| x in ids;
      OneEach(ids - {x}, f);
      assert Pairs(ids, f) == Pairs(ids - {x}, f) + {(x, f[x])};
    }
  }

  lemma UnfinishedCount(w: World)
    ensures |Unfinished(w)| == |Attending(w)| + |AbandonedOnes(w)|
  {
    var last := map id | id in Attending(w) :: |w.did[id]| - 1;
    OneEach(Attending(w), last);
    assert Attended(w) == Pairs(Attending(w), last);
    assert Attended(w) !! AbandonedOnes(w);
  }

  /** The operations that may still run are the attended ones, of which there are at most MaxConcurrent, and the
      abandoned ones, of which there are none without a time-out. */
  lemma {:induction false} OnlyTimeoutsPass(ls: int -> Layers, envs: int -> Env, c: Bulkhead.ValidConfig,
                                            es: seq<Event>)
    requires Guarding(ls) && Executed(ls, envs, Run(c, es))
    ensures var w := Run(c, es);
            && |Unfinished(w)| == |Attending(w)| + |AbandonedOnes(w)| <= c.maxConcurrent + |AbandonedOnes(w)|
            && ((forall id :: !ls(id).timeout) ==> AbandonedOnes(w) == {} && |Unfinished(w)| <= c.maxConcurrent)
  {
    var w := Run(c, es);
    AttendedAreBounded(ls, envs, c, es);
    UnfinishedCount(w);
    if forall id :: !ls(id).timeout {
      forall id, n | (id, n) in AbandonedOnes(w) ensures false {
        CallIsOrderly(ls(id), envs(id));
        NeverAbandons(ls(id), ToLimiter(ls(id), envs(id), []).0, Did(w, id));
      }
    }
  }

  lemma NeverAbandons(l: Layers, t: Trace, p: Trace)
    requires Orderly(l, t) && p <= t && !l.timeout
    ensures forall i :: 0 <= i < |p| ==> !p[i].Abandoned?
  {
    assert forall i :: 0 <= i < |p| ==> p[i] == t[i];
  }

  // ---------------------------------------------------------------------------
  // Time-outs do pass

  /** Every layer lets the call in, and every operation outlasts its deadline. */
  function Permissive(l: Layers): Env {
    var tokens := if l.limiter.Some? then l.limiter.value.burst as real else 0.0;
    Env(n => RateLimiter.Bucket(tokens, 0), n => CircuitBreaker.Fresh(), n => 0, n => Bulkhead.Acquired,
        n => None, n => "", n => None, n => DeadlinePassed)
  }

  lemma {:induction false} AfterGrows(op: Operation<Trace>, t: Trace, k: nat)
    requires 1 <= k && forall u: Trace :: u <= op(u).0
    ensures After(op, t, 1) <= After(op, t, k)
  {
    if 1 < k { AfterGrows(op, t, k - 1); }
  }

  lemma CoreStarts(l: Layers, t: Trace)
    ensures var u := Core(l, Permissive(l), t).0;
            t + (if l.timeout then [Started, Abandoned] else [Started]) <= u
  {
    var env := Permissive(l);
    var op := Attempt(l, env);
    forall u: Trace ensures u <= op(u).0 { OneAttempt(l, env, u); }
    assert After(op, t, 0) == t;
    assert After(op, t, 1) == t + (if l.timeout then [Started, Abandoned] else [Started]);
    if l.retry.Some? {
      AfterGrows(op, t, Last(l.retry.value, op, t, 1));
    }
  }

  /** At `n` an operation starts, which is abandoned if there is a time-out, and the slot is freed at the end. */
  ghost predicate StartsAt(l: Layers, t: Trace, n: nat) {
    && n < |t| - 1 && t[n] == Started && t[|t| - 1] == SlotFreed
    && (l.timeout ==> n < |t| - 2 && t[n + 1] == Abandoned)
  }

  ghost predicate Playable(l: Layers, t: Trace) {
    Orderly(l, t) && SlotRefused !in t && exists n: nat :: StartsAt(l, t, n)
  }

  lemma PermissiveBreaker(l: Layers, t: Trace) returns (n: nat)
    ensures var v := ToBreaker(l, Permissive(l), t).0;
            && t <= v && |t| <= n < |v| && v[n] == Started && (l.timeout ==> n < |v| - 1 && v[n + 1] == Abandoned)
  {
    var env := Permissive(l);
    var asked := if l.breaker.Some? then t + [Ask(l.breaker.value, CircuitBreaker.Fresh(), 0)] else t;
    CoreStarts(l, asked);
    assert Core(l, env, asked).0 <= ToBreaker(l, env, t).0;
    n := |asked|;
    FirstOf(asked, if l.timeout then [Started, Abandoned] else [Started], ToBreaker(l, env, t).0);
  }

  lemma FirstOf(t: Trace, s: Trace, v: Trace)
    requires t + s <= v
    ensures forall i :: 0 <= i < |s| ==> v[|t| + i] == s[i]
  {
    forall i | 0 <= i < |s| ensures v[|t| + i] == s[i] { assert v[|t| + i] == (t + s)[|t| + i]; }
  }

  lemma NoRefusal(l: Layers, t: Trace, v: Trace)
    requires t <= v && Inner(l, v[|t|..]) && SlotRefused !in t
    ensures SlotRefused !in v
  {
    assert v == t + v[|t|..];
    forall i | |t| <= i < |v| ensures v[i] != SlotRefused { assert v[i] == v[|t|..][i - |t|]; }
  }

  lemma PermissiveBulkhead(l: Layers, t: Trace)
    requires l.bulkhead && forall e :: e in t ==> e.Took?
    ensures Playable(l, ToBulkhead(l, Permissive(l), t).0)
  {
    var env := Permissive(l);
    var v := ToBreaker(l, env, t + [SlotTaken]).0;
    BulkheadInTurn(l, env, t);
    BreakerInTurn(l, env, t + [SlotTaken]);
    NoRefusal(l, t + [SlotTaken], v);
    var n := PermissiveBreaker(l, t + [SlotTaken]);
    assert ToBulkhead(l, env, t).0 == v + [SlotFreed];
    assert StartsAt(l, v + [SlotFreed], n);
  }

  lemma PermissiveCall(l: Layers)
    requires l.bulkhead
    ensures Playable(l, ToLimiter(l, Permissive(l), []).0)
  {
    if l.limiter.None? {
      PermissiveBulkhead(l, []);
    } else {
      var c := l.limiter.value;
      assert RateLimiter.Earned(c, 0) == 0.0;
      PermissiveBulkhead(l, Take(c, Permissive(l), []).1);
    }
  }

  /** Some run goes on with this event. */
  lemma Next(c: Bulkhead.Config, es: seq<Event>, e: Event) returns (more: seq<Event>)
    ensures Run(c, more) == Step(c, Run(c, es), e)
  {
    more := es + [e];
    assert more[..|es|] == es;
  }

  /** From `w` on only call `id`, which was not there, has done anything, namely `p`. */
  ghost predicate Played(w: World, v: World, id: int, p: Trace) {
    && id !in w.slots.at && id !in w.did
    && v.did - {id} == w.did && Did(v, id) == p
    && v.slots.at == (if Inside(p) then w.slots.at[id := Bulkhead.Holding] else w.slots.at)
    && v.slots.s.queued == w.slots.s.queued + if Inside(p) then 1 else 0
  }

  lemma PlaySlotTaken(c: Bulkhead.Config, w: World, es: seq<Event>, id: int, p: Trace) returns (more: seq<Event>)
    requires Played(w, Run(c, es), id, p) && w.slots.s.queued < c.maxConcurrent
    requires SlotTaken !in p && SlotFreed !in p
    ensures Played(w, Run(c, more), id, p + [SlotTaken])
  {
    more := Next(c, es, Slot(Bulkhead.Event(id, Bulkhead.Enter)));
    more := Next(c, more, Slot(Bulkhead.Event(id, Bulkhead.CountSend)));
  }

  lemma PlaySlotFreed(c: Bulkhead.Config, w: World, es: seq<Event>, id: int, p: Trace) returns (more: seq<Event>)
    requires Played(w, Run(c, es), id, p) && Inside(p)
    ensures Played(w, Run(c, more), id, p + [SlotFreed])
  {
    more := Next(c, es, Slot(Bulkhead.Event(id, Bulkhead.Receive)));
    var u := Run(c, more);
    assert u.slots.at == w.slots.at[id := Bulkhead.Received];
    more := Next(c, more, Slot(Bulkhead.Event(id, Bulkhead.CountReceive)));
    var v := Run(c, more);
    assert v.slots.at == w.slots.at && v.did == u.did;
    assert Did(u, id) == p + [SlotFreed] && !Inside(p + [SlotFreed]);
  }

  lemma PlayOther(c: Bulkhead.Config, w: World, es: seq<Event>, id: int, p: Trace, e: Effect)
    returns (more: seq<Event>)
    requires Played(w, Run(c, es), id, p) && !OnSlots(e)
    ensures Played(w, Run(c, more), id, p + [e])
  {
    more := Next(c, es, Does(id, e));
    assert Inside(p + [e]) <==> Inside(p);
  }

  /** A call that finds a free slot can be played, event by event, up to any point of its record. */
  lemma {:induction false} Play(c: Bulkhead.Config, l: Layers, es: seq<Event>, id: int, t: Trace, k: nat)
    returns (more: seq<Event>)
    requires Orderly(l, t) && SlotRefused !in t && k <= |t|
    requires var w := Run(c, es); id !in w.slots.at && id !in w.did && w.slots.s.queued < c.maxConcurrent
    ensures Played(Run(c, es), Run(c, more), id, t[..k])
  {
    if k == 0 {
      more := es;
    } else {
      var w, p, e := Run(c, es), t[..k - 1], t[k - 1];
      more := Play(c, l, es, id, t, k - 1);
      assert t[..k] == p + [e] && e in t;
      NextInOrder(l, t, p, e);
      if e == SlotTaken {
        more := PlaySlotTaken(c, w, more, id, p);
      } else if e == SlotFreed {
        more := PlaySlotFreed(c, w, more, id, p);
      } else {
        more := PlayOther(c, w, more, id, p, e);
      }
    }
  }

  /** Every call has played its record up to some point; `first` has abandoned an operation and is gone, and the next
      `m` calls have each started one. */
  ghost predicate Crowd(ts: int -> Trace, w: World, first: int, m: nat) {
    && w.slots.s.queued == m
    && (forall id :: id in w.slots.at || id in w.did ==> first <= id <= first + m)
    && AbandonedOnes(w) != {}
    && (forall id :: first < id <= first + m ==> id in Attending(w))
    && (forall id :: Did(w, id) <= ts(id))
  }

  lemma FirstLeaves(l: Layers, ts: int -> Trace, c: Bulkhead.ValidConfig, first: int) returns (es: seq<Event>)
    requires l.timeout && Playable(l, ts(first))
    ensures Crowd(ts, Run(c, es), first, 0)
  {
    var t := ts(first);
    var n: nat :| StartsAt(l, t, n);
    es := Play(c, l, [], first, t, |t|);
    assert t[..|t|] == t && SlotFreed in t;
    assert (first, n) in AbandonedOnes(Run(c, es));
    OthersUntouched(Run(c, []), Run(c, es), first, t);
  }

  lemma OneMoreComes(l: Layers, ts: int -> Trace, c: Bulkhead.ValidConfig, es: seq<Event>, first: int, m: nat)
    returns (more: seq<Event>)
    requires Playable(l, ts(first + m + 1)) && Crowd(ts, Run(c, es), first, m) && m < c.maxConcurrent
    ensures Crowd(ts, Run(c, more), first, m + 1)
  {
    var w, id := Run(c, es), first + m + 1;
    var t := ts(id);
    var n: nat :| StartsAt(l, t, n);
    more := Play(c, l, es, id, t, n + 1);
    var p := t[..n + 1];
    assert p[|p| - 1] == Started;
    AttendedIsInside(l, t, p);
    OthersUntouched(w, Run(c, more), id, p);
  }

  lemma OthersUntouched(w: World, v: World, id: int, p: Trace)
    requires Played(w, v, id, p)
    ensures forall x :: x != id ==> Did(v, x) == Did(w, x) && (x in v.did <==> x in w.did)
    ensures Attending(w) <= Attending(v) && AbandonedOnes(w) <= AbandonedOnes(v)
    ensures p != [] && p[|p| - 1] == Started ==> id in Attending(v)
  {
    forall x | x != id ensures Did(v, x) == Did(w, x) && (x in v.did <==> x in w.did) {
      assert x in v.did - {id} <==> x in w.did;
    }
    forall x | x in Attending(w) ensures x in Attending(v) { assert Did(v, x) == Did(w, x); }
    forall x, n | (x, n) in AbandonedOnes(w) ensures (x, n) in AbandonedOnes(v) { assert Did(v, x) == Did(w, x); }
  }

  lemma {:induction false} Crowded(ls: int -> Layers, ts: int -> Trace, c: Bulkhead.ValidConfig, first: int, m: nat)
    returns (es: seq<Event>)
    requires ls(first).timeout && m <= c.maxConcurrent && forall id :: Playable(ls(id), ts(id))
    ensures Crowd(ts, Run(c, es), first, m)
  {
    if m == 0 {
      es := FirstLeaves(ls(first), ts, c, first);
    } else {
      es := Crowded(ls, ts, c, first, m - 1);
      es := OneMoreComes(ls(first + m), ts, c, es, first, m - 1);
    }
  }

  lemma {:induction false} AtLeast(s: set<int>, low: int, m: nat)
    requires forall x :: low < x <= low + m ==> x in s
    ensures m <= |s|
  {
    if 0 < m {
      var top := low + m;
      AtLeast(s - {top}, low, m - 1);
      assert s == (s - {top}) + {top};
    }
  }

  /** One executor with a time-out is enough to go past any limit, whatever the other layers are. */
  lemma {:induction false} TimeoutsPass(ls: int -> Layers, c: Bulkhead.ValidConfig, first: int)
    returns (envs: int -> Env, es: seq<Event>)
    requires Guarding(ls) && ls(first).timeout
    ensures Executed(ls, envs, Run(c, es)) && |Unfinished(Run(c, es))| > c.maxConcurrent
  {
    envs := id => Permissive(ls(id));
    var ts: int -> Trace := id => ToLimiter(ls(id), Permissive(ls(id)), []).0;
    forall id ensures Playable(ls(id), ts(id)) { PermissiveCall(ls(id)); }
    es := Crowded(ls, ts, c, first, c.maxConcurrent);
    TooMany(ts, c, Run(c, es), first);
    forall id ensures Did(Run(c, es), id) <= ToLimiter(ls(id), envs(id), []).0 {
      assert Did(Run(c, es), id) <= ts(id);
    }
  }

  lemma TooMany(ts: int -> Trace, c: Bulkhead.ValidConfig, w: World, first: int)
    requires Crowd(ts, w, first, c.maxConcurrent)
    ensures |Unfinished(w)| > c.maxConcurrent
  {
    AtLeast(Attending(w), first, c.maxConcurrent);
    UnfinishedCount(w);
    assert |AbandonedOnes(w)| > 0;
  }

  /** The bulkhead bounds the operations that may run, in every interleaving, iff no executor that uses it has a
      time-out. */
  lemma {:induction false} BoundedIffNoTimeout(ls: int -> Layers, c: Bulkhead.ValidConfig)
    requires Guarding(ls)
    ensures (forall envs: int -> Env, es: seq<Event> | Executed(ls, envs, Run(c, es)) ::
               |Unfinished(Run(c, es))| <= c.maxConcurrent)
            <==> forall id :: !ls(id).timeout
  {
    if forall id :: !ls(id).timeout {
      forall envs: int -> Env, es: seq<Event> | Executed(ls, envs, Run(c, es))
        ensures |Unfinished(Run(c, es))| <= c.maxConcurrent
      {
        OnlyTimeoutsPass(ls, envs, c, es);
      }
    } else {
      var first :| ls(first).timeout;
      var envs, es := TimeoutsPass(ls, c, first);
      assert Executed(ls, envs, Run(c, es));
    }
  }

  // ---------------------------------------------------------------------------
  // Calls and tokens

  predicate Takes(ev: Event) {
    ev.Does? && ev.effect.Took?
  }

  /** The run of the limiter that all the calls share, from its construction at `start`. */
  function LimiterEvents(start: int, es: seq<Event>): seq<RateLimiter.Event> {
    if es == [] then [RateLimiter.Reset(start)]
    else
      LimiterEvents(start, es[..|es| - 1])
      + if Takes(es[|es| - 1]) then [RateLimiter.Allow(1, es[|es| - 1].effect.now)] else []
  }

  /** Every verdict that a call got is that of the shared bucket at that point. */
  ghost predicate OnOneBucket(c: RateLimiter.ValidConfig, b: RateLimiter.Bucket, start: int, es: seq<Event>) {
    forall k :: 0 <= k < |es| && Takes(es[k]) ==>
      es[k].effect.granted
      == RateLimiter.Grants(c, RateLimiter.Run(c, b, LimiterEvents(start, es[..k])), 1, es[k].effect.now)
  }

  predicate Spends(ev: Event) {
    Takes(ev) && ev.effect.granted
  }

  function Spent(es: seq<Event>): nat {
    if es == [] then 0 else Spent(es[..|es| - 1]) + if Spends(es[|es| - 1]) then 1 else 0
  }

  predicate HasSpent(t: Trace) {
    exists e :: e in t && e.Took? && e.granted
  }

  ghost function Spenders(w: World): set<int> {
    set id | id in w.did && HasSpent(w.did[id])
  }

  ghost function Starters(w: World): set<int> {
    set id | id in w.did && Started in w.did[id]
  }

  lemma {:induction false} SpendersSpend(c: Bulkhead.Config, es: seq<Event>)
    ensures |Spenders(Run(c, es))| <= Spent(es)
  {
    if es != [] {
      SpendersSpend(c, es[..|es| - 1]);
      OneMoreSpender(c, Run(c, es[..|es| - 1]), es[|es| - 1]);
    } else {
      assert Spenders(Run(c, es)) == {};
    }
  }

  lemma OneMoreSpender(c: Bulkhead.Config, w: World, ev: Event)
    ensures |Spenders(Step(c, w, ev))| <= |Spenders(w)| + if Spends(ev) then 1 else 0
  {
    var v := Step(c, w, ev);
    if Spends(ev) {
      assert Spenders(v) <= Spenders(w) + {ev.id};
      Fewer(Spenders(v), Spenders(w) + {ev.id});
    } else {
      Fewer(Spenders(v), Spenders(w));
    }
  }

  lemma {:induction false} SpentIsGranted(c: RateLimiter.ValidConfig, b: RateLimiter.Bucket, start: int, es: seq<Event>)
    requires OnOneBucket(c, b, start, es)
    ensures Spent(es) == RateLimiter.Granted(c, b, LimiterEvents(start, es), 0)
  {
    if es == [] {
      assert RateLimiter.Granted(c, b, LimiterEvents(start, es)[..0], 0) == 0;
    } else {
      var init, ev := es[..|es| - 1], es[|es| - 1];
      assert forall k :: 0 <= k < |init| ==> init[k] == es[k] && init[..k] == es[..k];
      SpentIsGranted(c, b, start, init);
      var fs := LimiterEvents(start, init);
      if Takes(ev) {
        var gs := fs + [RateLimiter.Allow(1, ev.effect.now)];
        assert gs[..|gs| - 1] == fs;
      } else {
        assert LimiterEvents(start, es) == fs;
      }
    }
  }

  lemma SpendsFirst(l: Layers, env: Env, p: Trace)
    requires l.limiter.Some? && p <= ToLimiter(l, env, []).0 && Started in p
    ensures HasSpent(p)
  {
    var c, t := l.limiter.value, ToLimiter(l, env, []).0;
    var (ok, u) := Take(c, env, []);
    var (again, v) := Take(c, env, u);
    BulkheadDoes(l, env, u);
    BulkheadDoes(l, env, v);
    var i :| 0 <= i < |p| && p[i] == Started;
    assert t[i] == Started;
    var n := if ok then 0 else 1;
    assert forall k :: 0 <= k <= n && k < |t| ==> t[k].Took?;
    assert n < i && p[n] == t[n] && t[n].Took? && t[n].granted;
  }

  /** However many calls there are and however they interleave, those that start the operation are no more than a
      burst plus what the limiter earns over the run. */
  lemma {:induction false} StartersAreLimited(ls: int -> Layers, envs: int -> Env, bc: Bulkhead.Config,
                                              c: RateLimiter.ValidConfig, b: RateLimiter.Bucket, start: int,
                                              es: seq<Event>)
    requires (forall id :: ls(id).limiter == Some(c)) && Executed(ls, envs, Run(bc, es))
    requires OnOneBucket(c, b, start, es) && RateLimiter.Timeline(LimiterEvents(start, es))
    ensures var fs := LimiterEvents(start, es);
            |Starters(Run(bc, es))| as real <= c.burst as real + RateLimiter.Earned(c, fs[|fs| - 1].now - start)
  {
    var w, fs := Run(bc, es), LimiterEvents(start, es);
    forall id | id in Starters(w) ensures id in Spenders(w) { SpendsFirst(ls(id), envs(id), Did(w, id)); }
    Fewer(Starters(w), Spenders(w));
    SpendersSpend(bc, es);
    SpentIsGranted(c, b, start, es);
    FirstEvent(start, es);
    NoResets(start, es);
    RateLimiter.WindowBound(c, b, fs, 0, |fs|);
    assert fs[..|fs|] == fs;
  }

  lemma {:induction false} FirstEvent(start: int, es: seq<Event>)
    ensures 0 < |LimiterEvents(start, es)| && LimiterEvents(start, es)[0] == RateLimiter.Reset(start)
  {
    if es != [] { FirstEvent(start, es[..|es| - 1]); }
  }

  lemma {:induction false} NoResets(start: int, es: seq<Event>)
    ensures forall k :: 0 < k < |LimiterEvents(start, es)| ==> !LimiterEvents(start, es)[k].Reset?
  {
    if es != [] { NoResets(start, es[..|es| - 1]); }
  }
}
