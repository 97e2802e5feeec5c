/** Many executor calls over one circuit breaker: what the breaker of resilience/circuit.go counts as running is
    exactly what the calls of resilience/executor.go have asked and not yet reported. */
module SharedBreaker {
  import opened Wrappers
  import opened Executor
  import opened Concurrent
  import Bulkhead
  import CircuitBreaker

  predicate AsksOrTells(e: Effect) {
    e.Asked? || e.Told?
  }

  // ---------------------------------------------------------------------------
  // The shape of one call

  /** Neither a question, nor a report, nor a start. */
  predicate Quiet(e: Effect) {
    !AsksOrTells(e) && !e.Started?
  }

  /** The only question is at `a`; starts and the only report come after it, the report last of them, and only after
      an admission. */
  ghost predicate AsksAt(t: Trace, a: nat) {
    && a < |t| && t[a].Asked?
    && (forall i :: 0 <= i < |t| && t[i].Asked? ==> i == a)
    && (forall i :: 0 <= i < |t| && (t[i].Started? || t[i].Told?) ==> a < i && t[a].admitted)
    && (forall i, j :: 0 <= i < j < |t| && t[i].Told? ==> !t[j].Told? && !t[j].Started?)
  }

  ghost predicate Asking(t: Trace) {
    (forall i :: 0 <= i < |t| ==> Quiet(t[i])) || exists a: nat :: AsksAt(t, a)
  }

  lemma AsksAround(front: Trace, ask: Effect, core: Trace, back: Trace)
    requires forall e :: e in front ==> Quiet(e)
    requires ask.Asked? && forall e :: e in core ==> e.Started? || e.Abandoned?
    requires forall i :: 0 <= i < |back| ==> Quiet(back[i]) || (i == 0 && back[0].Told?)
    requires !ask.admitted ==> core == [] && forall e :: e in back ==> Quiet(e)
    ensures AsksAt(front + [ask] + core + back, |front|)
  {
    var t, a := front + [ask] + core + back, |front|;
    var b := a + 1 + |core|;
    forall i | 0 <= i < |t|
      ensures i < a ==> Quiet(t[i])
      ensures a < i < b ==> t[i].Started? || t[i].Abandoned?
      ensures b < i ==> Quiet(t[i])
      ensures i == b ==> Quiet(t[i]) || t[i].Told?
      ensures a < i && !ask.admitted ==> Quiet(t[i])
    {
      if i < a {
        assert t[i] == front[i];
      } else if a < i < b {
        assert t[i] == core[i - a - 1];
      } else if b <= i {
        assert t[i] == back[i - b] && back[i - b] in back;
      }
    }
  }

  lemma BreakerAsks(l: Layers, env: Env, front: Trace, last: Trace)
    requires l.breaker.Some? && forall e :: e in front || e in last ==> Quiet(e)
    ensures AsksAt(ToBreaker(l, env, front).0 + last, |front|)
  {
    var b := l.breaker.value;
    var ask := Ask(b, env.circuit(|front|), env.now(|front|));
    if !ask.admitted {
      assert ToBreaker(l, env, front).0 + last == front + [ask] + [] + last;
      AsksAround(front, ask, [], last);
    } else {
      CoreDoes(l, env, front + [ask]);
      var (u, r) := Core(l, env, front + [ask]);
      var core := u[|front + [ask]|..];
      var told := if r.Returned? then [Telling(b, env.circuit(|u|), b.isFailure(r.err), env.now(|u|))] else [];
      assert u == front + [ask] + core;
      assert ToBreaker(l, env, front).0 + last == front + [ask] + core + (told + last);
      AsksAround(front, ask, core, told + last);
    }
  }

  lemma BulkheadAsks(l: Layers, env: Env, front: Trace)
    requires l.breaker.Some? && forall e :: e in front ==> Quiet(e)
    ensures Asking(ToBulkhead(l, env, front).0)
  {
    var t := ToBulkhead(l, env, front).0;
    if !l.bulkhead {
      BreakerAsks(l, env, front, []);
      assert t == t + [];
    } else if env.acquire(|front|).Acquired? {
      BreakerAsks(l, env, front + [SlotTaken], [SlotFreed]);
    } else {
      assert forall i :: 0 <= i < |t| ==> t[i] in front || t[i] == SlotRefused;
    }
  }

  /** A call asks at most once, reports at most once and only after an admission, and starts operations only between
      the two. */
  lemma {:induction false} CallAsks(l: Layers, env: Env)
    requires l.breaker.Some?
    ensures Asking(ToLimiter(l, env, []).0)
  {
    if l.limiter.None? {
      BulkheadAsks(l, env, []);
    } else {
      var u := Take(l.limiter.value, env, []).1;
      var v := Take(l.limiter.value, env, u).1;
      BulkheadAsks(l, env, u);
      BulkheadAsks(l, env, v);
    }
  }

  // ---------------------------------------------------------------------------
  // Calls and the breaker

  /** The call was admitted and has not reported, as far as its own record says. */
  ghost predicate Unreported(t: Trace) {
    && (exists i :: 0 <= i < |t| && t[i].Asked? && t[i].admitted)
    && (forall i :: 0 <= i < |t| ==> !t[i].Told?)
  }

  lemma NextAsk(t: Trace, p: Trace, e: Effect)
    requires Asking(t) && p + [e] <= t
    ensures e.Asked? ==> (forall i :: 0 <= i < |p| ==> !AsksOrTells(p[i]))
    ensures e.Told? || e.Started? ==> Unreported(p)
  {
    assert forall i :: 0 <= i < |p| ==> p[i] == t[i];
    assert t[|p|] == e;
    if !Quiet(e) {
      var a: nat :| AsksAt(t, a);
      if !e.Asked? { assert p[a] == t[a]; }
    }
  }

  ghost function UnreportedCalls(w: World): set<int> {
    set id | id in w.did && Unreported(w.did[id])
  }

  /** What an event does to the breaker. */
  function OnBreaker(ev: Event): seq<CircuitBreaker.Event> {
    match ev
    case Does(id, Asked(_, _, askedAt, _)) => [CircuitBreaker.Begin(id, askedAt)]
    case Does(id, Told(_, failed, toldAt, _)) => [CircuitBreaker.End(id, failed, toldAt)]
    case Aside(look) => if look.Peek? || look.Clear? then [look] else []
    case _ => []
  }

  /** The breaker's own run inside this one. */
  function CircuitEvents(es: seq<Event>): seq<CircuitBreaker.Event> {
    if es == [] then [] else CircuitEvents(es[..|es| - 1]) + OnBreaker(es[|es| - 1])
  }

  function Circuit(c: CircuitBreaker.Config, es: seq<Event>): CircuitBreaker.World {
    CircuitBreaker.Run(c, CircuitBreaker.Start(), CircuitEvents(es))
  }

  /** Every answer that a call got is that of the shared circuit at that point. */
  ghost predicate OnOneCircuit(c: CircuitBreaker.Config, es: seq<Event>) {
    forall k :: 0 <= k < |es| && es[k].Does? && es[k].effect.Asked? ==>
      es[k].effect.admitted == CircuitBreaker.Admits(c, Circuit(c, es[..k]).b, es[k].effect.askedAt)
  }

  /** The executors of all calls use the breaker. */
  ghost predicate Breaking(ls: int -> Layers) {
    forall id :: ls(id).breaker.Some?
  }

  lemma CircuitStep(c: CircuitBreaker.Config, es: seq<Event>)
    requires es != []
    ensures var on, w := OnBreaker(es[|es| - 1]), Circuit(c, es[..|es| - 1]);
            Circuit(c, es) == if on == [] then w else CircuitBreaker.Step(c, w, on[0])
  {
    var init, on := CircuitEvents(es[..|es| - 1]), OnBreaker(es[|es| - 1]);
    if on == [] {
      assert init + on == init;
    } else {
      assert (init + on)[..|init|] == init;
    }
  }

  /** One event moves a call in or out of the breaker's running calls as its own record says. */
  lemma CallStays(c: CircuitBreaker.Config, bc: Bulkhead.Config, w: World, ev: Event, x: CircuitBreaker.World,
                  id: int, t: Trace)
    requires Asking(t) && Did(Step(bc, w, ev), id) <= t
    requires id in x.running <==> Unreported(Did(w, id))
    requires ev.Does? && ev.effect.Asked? ==>
               ev.effect.admitted == CircuitBreaker.Admits(c, x.b, ev.effect.askedAt)
    ensures var on := OnBreaker(ev);
            var y := if on == [] then x else CircuitBreaker.Step(c, x, on[0]);
            id in y.running <==> Unreported(Did(Step(bc, w, ev), id))
  {
    var p, q := Did(w, id), Did(Step(bc, w, ev), id);
    if p != q {
      var e := q[|p|];
      assert q == p + [e];
      NextAsk(t, p, e);
      SameOrChanged(p, e);
    }
  }

  lemma SameOrChanged(p: Trace, e: Effect)
    ensures !AsksOrTells(e) ==> (Unreported(p + [e]) <==> Unreported(p))
    ensures e.Asked? && (forall i :: 0 <= i < |p| ==> !AsksOrTells(p[i])) ==>
              !Unreported(p) && (Unreported(p + [e]) <==> e.admitted)
    ensures e.Told? ==> !Unreported(p + [e])
  {
    var q := p + [e];
    assert q[|p|] == e && forall i :: 0 <= i < |p| ==> q[i] == p[i];
  }

  /** In every interleaving the calls that the breaker counts as running are exactly the admitted calls that have not
      reported, those included whose report a panic has skipped. */
  lemma {:induction false} RunningAreUnreported(ls: int -> Layers, envs: int -> Env, c: CircuitBreaker.Config,
                                                bc: Bulkhead.Config, es: seq<Event>)
    requires Breaking(ls) && Executed(ls, envs, Concurrent.Run(bc, es)) && OnOneCircuit(c, es)
    ensures forall id :: id in Circuit(c, es).running <==> Unreported(Did(Concurrent.Run(bc, es), id))
  {
    if es != [] {
      var init, ev := es[..|es| - 1], es[|es| - 1];
      var w := Concurrent.Run(bc, init);
      forall id ensures Did(w, id) <= ToLimiter(ls(id), envs(id), []).0 { DidGrows(bc, w, ev, id); }
      EarlierCircuit(c, es);
      RunningAreUnreported(ls, envs, c, bc, init);
      CircuitStep(c, es);
      forall id ensures id in Circuit(c, es).running <==> Unreported(Did(Concurrent.Run(bc, es), id)) {
        CallAsks(ls(id), envs(id));
        CallStays(c, bc, w, ev, Circuit(c, init), id, ToLimiter(ls(id), envs(id), []).0);
      }
    }
  }

  lemma EarlierCircuit(c: CircuitBreaker.Config, es: seq<Event>)
    requires es != [] && OnOneCircuit(c, es)
    ensures OnOneCircuit(c, es[..|es| - 1])
    ensures var ev := es[|es| - 1];
            ev.Does? && ev.effect.Asked? ==>
              ev.effect.admitted == CircuitBreaker.Admits(c, Circuit(c, es[..|es| - 1]).b, ev.effect.askedAt)
  {
    var init := es[..|es| - 1];
    assert forall k :: 0 <= k < |init| ==> init[k] == es[k] && init[..k] == es[..k];
  }

  lemma AttendedIsUnreported(t: Trace, p: Trace)
    requires Asking(t) && p <= t && p != [] && p[|p| - 1] == Started
    ensures Unreported(p)
  {
    var front := p[..|p| - 1];
    assert p == front + [Started];
    NextAsk(t, front, Started);
    SameOrChanged(front, Started);
  }

  lemma AttendingAreUnreported(ls: int -> Layers, envs: int -> Env, w: World)
    requires Breaking(ls) && Executed(ls, envs, w)
    ensures Attending(w) <= UnreportedCalls(w)
  {
    forall id | id in Attending(w) ensures id in UnreportedCalls(w) {
      CallAsks(ls(id), envs(id));
      AttendedIsUnreported(ToLimiter(ls(id), envs(id), []).0, Did(w, id));
    }
  }

  lemma SameCalls(w: World, x: CircuitBreaker.World)
    requires forall id :: id in x.running <==> Unreported(Did(w, id))
    ensures x.running.Keys == UnreportedCalls(w)
  {
    forall id ensures id in x.running <==> id in UnreportedCalls(w) {
      assert id in x.running <==> Unreported(Did(w, id));
    }
  }

  /** So half-open accounting is about executor calls: the count is the number of admitted and unreported calls of
      the period, within the limit, and no more calls of the period than that attend an operation. */
  lemma {:induction false} HalfOpenCalls(ls: int -> Layers, envs: int -> Env, c: CircuitBreaker.Config,
                                         bc: Bulkhead.Config, es: seq<Event>)
    requires c.Valid() && Breaking(ls) && Executed(ls, envs, Concurrent.Run(bc, es)) && OnOneCircuit(c, es)
    ensures var w, x := Concurrent.Run(bc, es), Circuit(c, es);
            && x.running.Keys == UnreportedCalls(w)
            && Attending(w) <= UnreportedCalls(w)
            && (x.b.state == CircuitBreaker.HalfOpen ==>
                  && x.b.halfOpenCount == |CircuitBreaker.Probes(x)| <= c.halfOpenMaxRequests
                  && CircuitBreaker.Probes(x) <= UnreportedCalls(w)
                  && |Attending(w) * CircuitBreaker.Probes(x)| <= c.halfOpenMaxRequests)
  {
    var w, x := Concurrent.Run(bc, es), Circuit(c, es);
    RunningAreUnreported(ls, envs, c, bc, es);
    CircuitBreaker.EveryRun(c, CircuitEvents(es));
    AttendingAreUnreported(ls, envs, w);
    SameCalls(w, x);
    var probes := CircuitBreaker.Probes(x);
    assert probes <= x.running.Keys;
    Fewer(Attending(w) * probes, probes);
  }
}
