/** The bulkhead of resilience/bulkhead.go: a channel used as a semaphore, and counters kept under a lock,
    updated in separate atomic steps. */
module Bulkhead {

  datatype Config = Config(maxConcurrent: int, maxWait: int)

  type ValidConfig = c: Config | c.maxConcurrent > 0 witness Config(10, 0)

  /** A non-positive limit falls back to ten. */
  function Normalize(c: Config): (r: ValidConfig)
    ensures c.maxConcurrent > 0 ==> r == c
    ensures r.maxConcurrent in {c.maxConcurrent, 10} && r.maxWait == c.maxWait
  {
    c.(maxConcurrent := if c.maxConcurrent <= 0 then 10 else c.maxConcurrent)
  }

  /** `queued` is the length of the channel. */
  datatype Slots = Slots(queued: nat, active: int, maxActive: int, rejected: int)

  // The effects of the atomic steps, shared by the methods below and by the interleavings.

  function SendIn(s: Slots): Slots {
    s.(queued := s.queued + 1)
  }

  function CountIn(s: Slots): Slots {
    s.(active := s.active + 1, maxActive := if s.active + 1 > s.maxActive then s.active + 1 else s.maxActive)
  }

  function RejectIn(s: Slots): Slots {
    s.(rejected := s.rejected + 1)
  }

  function TakeOut(s: Slots): Slots
    requires 0 < s.queued
  {
    s.(queued := s.queued - 1)
  }

  function CountOut(s: Slots): Slots {
    s.(active := s.active - 1)
  }

  function Snapshot(c: Config, s: Slots): Metrics {
    Metrics(s.active, s.maxActive, c.maxConcurrent - s.active, c.maxConcurrent, s.rejected)
  }

  /** What one `Acquire` meets: the arm of its wait that fires, and what the other callers do to the shared state
      while it is blocked and between its two atomic steps. */
  datatype AcquireEnv = AcquireEnv(arm: Arm, blocked: Slots -> Slots, between: Slots -> Slots)

  datatype Arm = SlotFree | TimerFired | ContextDone

  datatype AcquireOutcome = Acquired | Full | Cancelled

  datatype Metrics = Metrics(active: int, maxActive: int, available: int, maxConcurrent: int, rejected: int)

  class Bulkhead {
    const config: ValidConfig
    var queued: nat
    var active: int
    var maxActive: int
    var rejected: int

    function View(): Slots
      reads this
    {
      Slots(queued, active, maxActive, rejected)
    }

    constructor (config: Config)
      ensures this.config == Normalize(config)
      ensures View() == Slots(0, 0, 0, 0)
    {
      this.config := Normalize(config);
      queued, active, maxActive, rejected := 0, 0, 0, 0;
    }

    /** The non-blocking send. */
    method TrySend() returns (ok: bool)
      modifies this`queued
      ensures ok == (old(queued) < config.maxConcurrent)
      ensures View() == if ok then SendIn(old(View())) else old(View())
    {
      ok := queued < config.maxConcurrent;
      if ok {
        queued := queued + 1;
      }
    }

    method Count()
      modifies this
      ensures View() == CountIn(old(View()))
    {
      active := active + 1;
      if active > maxActive {
        maxActive := active;
      }
    }

    method Reject()
      modifies this`rejected
      ensures View() == RejectIn(old(View()))
    {
      rejected := rejected + 1;
    }

    /** The non-blocking receive. */
    method TryReceive() returns (ok: bool)
      modifies this`queued
      ensures ok == (0 < old(queued))
      ensures View() == if ok then TakeOut(old(View())) else old(View())
    {
      ok := 0 < queued;
      if ok {
        queued := queued - 1;
      }
    }

    method Uncount()
      modifies this`active
      ensures View() == CountOut(old(View()))
    {
      active := active - 1;
    }

    /** The atomic steps of other callers. */
    method Others(steps: Slots -> Slots)
      modifies this
      ensures View() == steps(old(View()))
    {
      var later := steps(View());
      queued, active, maxActive, rejected := later.queued, later.active, later.maxActive, later.rejected;
    }

    method Acquire(w: AcquireEnv) returns (r: AcquireOutcome)
      requires config.maxConcurrent <= queued && 0 < config.maxWait && w.arm == SlotFree ==>
        w.blocked(View()).queued < config.maxConcurrent
      modifies this
      ensures old(queued) < config.maxConcurrent ==>
        r == Acquired && View() == CountIn(w.between(SendIn(old(View()))))
      ensures old(queued) >= config.maxConcurrent && config.maxWait <= 0 ==>
        r == Full && View() == RejectIn(w.between(old(View())))
      ensures old(queued) >= config.maxConcurrent && config.maxWait > 0 ==>
        match w.arm
        case SlotFree => r == Acquired && View() == CountIn(w.between(SendIn(w.blocked(old(View())))))
        case TimerFired => r == Full && View() == RejectIn(w.between(w.blocked(old(View()))))
        case ContextDone => r == Cancelled && View() == w.blocked(old(View()))
    {
      var ok := TrySend();
      if ok {
        Others(w.between);
        Count();
        return Acquired;
      }
      if config.maxWait <= 0 {
        Others(w.between);
        Reject();
        return Full;
      }
      Others(w.blocked);
      match w.arm {
        case SlotFree =>
          ok := TrySend();
          Others(w.between);
          Count();
          r := Acquired;
        case TimerFired =>
          Others(w.between);
          Reject();
          r := Full;
        case ContextDone =>
          r := Cancelled;
      }
    }

    method Release(between: Slots -> Slots)
      modifies this
      ensures View() == if 0 < old(queued) then CountOut(between(TakeOut(old(View())))) else old(View())
    {
      var ok := TryReceive();
      if ok {
        Others(between);
        Uncount();
      }
    }

    method GetMetrics() returns (m: Metrics)
      ensures m == Snapshot(config, View())
      ensures m.active + m.available == m.maxConcurrent
      ensures m.available < 0 <==> m.active > m.maxConcurrent
    {
      m := Metrics(active, maxActive, config.maxConcurrent - active, config.maxConcurrent, rejected);
    }
  }

  // ---------------------------------------------------------------------------
  // Every interleaving

  /** Where a caller stands between two atomic steps; a caller not in the map is outside the bulkhead. */
  datatype Place =
    | Sent        // in the channel, not yet counted
    | Waiting     // in the slow path's select
    | Refused     // about to count its rejection
    | Holding     // Acquire has returned nil
    | Received    // out of the channel, not yet uncounted

  datatype Action = Enter | SendWaiting | TimerFires | CtxDone | CountSend | CountReject | Receive | CountReceive

  datatype Event = Event(id: int, act: Action)

  /** `defaulted` counts the calls of Release that found the channel empty. */
  datatype World = World(s: Slots, at: map<int, Place>, refusals: nat, defaulted: nat)

  function Start(): World {
    World(Slots(0, 0, 0, 0), map[], 0, 0)
  }

  /** One atomic step; an event that is not enabled changes nothing. Only a holder releases. */
  function Step(c: Config, w: World, e: Event): World {
    var id := e.id;
    if e.act == Enter then
      if id in w.at then w
      else if w.s.queued < c.maxConcurrent
      then w.(s := SendIn(w.s), at := w.at[id := Sent])
      else w.(at := w.at[id := if c.maxWait <= 0 then Refused else Waiting])
    else if id !in w.at then w
    else match (e.act, w.at[id])
      case (SendWaiting, Waiting) =>
        if w.s.queued < c.maxConcurrent
        then w.(s := SendIn(w.s), at := w.at[id := Sent])
        else w
      case (TimerFires, Waiting) => w.(at := w.at[id := Refused])
      case (CtxDone, Waiting) => w.(at := w.at - {id})
      case (CountSend, Sent) => w.(s := CountIn(w.s), at := w.at[id := Holding])
      case (CountReject, Refused) =>
        w.(s := RejectIn(w.s), at := w.at - {id}, refusals := w.refusals + 1)
      case (Receive, Holding) =>
        if 0 < w.s.queued
        then w.(s := TakeOut(w.s), at := w.at[id := Received])
        else w.(at := w.at - {id}, defaulted := w.defaulted + 1)
      case (CountReceive, Received) => w.(s := CountOut(w.s), at := w.at - {id})
      case _ => w
  }

  function Run(c: Config, es: seq<Event>): World {
    if es == [] then Start() else Step(c, Run(c, es[..|es| - 1]), es[|es| - 1])
  }

  ghost function In(at: map<int, Place>, p: Place): set<int> {
    set id | id in at && at[id] == p
  }

  ghost predicate Inv(c: Config, w: World) {
    && w.s.queued == |In(w.at, Sent)| + |In(w.at, Holding)| <= c.maxConcurrent
    && w.s.active == |In(w.at, Holding)| + |In(w.at, Received)|
    && w.s.active <= w.s.maxActive
    && w.s.rejected == w.refusals
    && w.defaulted == 0
  }

  /** The callers at `q`, apart from one. */
  ghost function Rest(at: map<int, Place>, id: int, q: Place): set<int> {
    In(at, q) - {id}
  }

  lemma WithAndWithout(at: map<int, Place>, id: int, q: Place)
    ensures |In(at, q)| == |Rest(at, id, q)| + if id in at && at[id] == q then 1 else 0
  {
    WithOrWithout(In(at, q), id);
  }

  lemma WithOrWithout(s: set<int>, x: int)
    ensures |s| == |s - {x}| + if x in s then 1 else 0
  {
    if x in s {
      assert s == (s - {x}) + {x};
    } else {
      assert s == s - {x};
    }
  }

  /** Moving one caller moves one member. */
  lemma Move(at: map<int, Place>, id: int, p: Place, q: Place)
    ensures |In(at[id := p], q)| ==
      |In(at, q)| + (if q == p then 1 else 0) - (if id in at && at[id] == q then 1 else 0)
  {
    WithAndWithout(at, id, q);
    WithAndWithout(at[id := p], id, q);
    assert Rest(at[id := p], id, q) == Rest(at, id, q);
  }

  lemma Leave(at: map<int, Place>, id: int, q: Place)
    requires id in at
    ensures |In(at - {id}, q)| == |In(at, q)| - if at[id] == q then 1 else 0
  {
    WithAndWithout(at, id, q);
    WithAndWithout(at - {id}, id, q);
    assert Rest(at - {id}, id, q) == Rest(at, id, q);
  }

  lemma StepKeeps(c: ValidConfig, w: World, e: Event)
    requires Inv(c, w)
    ensures Inv(c, Step(c, w, e))
  {
    var v := Step(c, w, e);
    if e.id in v.at {
      assert v.at == w.at[e.id := v.at[e.id]];
      forall q {
        Move(w.at, e.id, v.at[e.id], q);
      }
    } else if e.id in w.at {
      forall q {
        Leave(w.at, e.id, q);
      }
      if w.at[e.id] == Holding {
        assert e.id in In(w.at, Holding);
      }
    }
  }

  /** Under every interleaving the channel holds exactly the senders and holders, never more than the limit;
      the counter holds exactly the holders and the receivers; and Release never finds the channel empty. */
  lemma {:induction false} EveryInterleaving(c: ValidConfig, es: seq<Event>)
    ensures Inv(c, Run(c, es))
  {
    if es == [] {
      forall p ensures In(map[], p) == {} {}
    } else {
      EveryInterleaving(c, es[..|es| - 1]);
      StepKeeps(c, Run(c, es[..|es| - 1]), es[|es| - 1]);
    }
  }

  /** At most MaxConcurrent callers hold a slot, and the counter exceeds the limit iff more callers stand
      between their receive and their decrement than slots are free of holders. */
  lemma HoldersAndOvershoot(c: ValidConfig, es: seq<Event>)
    ensures var w := Run(c, es);
            && |In(w.at, Holding)| <= c.maxConcurrent
            && w.s.active - w.s.queued == |In(w.at, Received)| - |In(w.at, Sent)|
            && (w.s.active > c.maxConcurrent <==>
                  |In(w.at, Received)| > c.maxConcurrent - |In(w.at, Holding)|)
            && (In(w.at, Sent) == {} && In(w.at, Received) == {} ==>
                  w.s.active == w.s.queued == |In(w.at, Holding)|)
  {
    EveryInterleaving(c, es);
  }

  /** The reported maximum is the highest count there ever was. */
  lemma {:induction false} MaxActiveIsPeak(c: ValidConfig, es: seq<Event>)
    ensures forall k :: 0 <= k <= |es| ==> Run(c, es[..k]).s.active <= Run(c, es).s.maxActive
    ensures exists k :: 0 <= k <= |es| && Run(c, es[..k]).s.active == Run(c, es).s.maxActive
  {
    assert es[..|es|] == es;
    EveryInterleaving(c, es);
    if es == [] {
      assert Run(c, es[..0]).s.active == 0;
    } else {
      var init := es[..|es| - 1];
      MaxActiveIsPeak(c, init);
      var v, w := Run(c, init).s, Run(c, es).s;
      assert w.maxActive == (if w.active > v.maxActive then w.active else v.maxActive);
      forall k | 0 <= k <= |es| ensures Run(c, es[..k]).s.active <= w.maxActive {
        if k < |es| { assert es[..k] == init[..k]; }
      }
      if w.active > v.maxActive {
        assert Run(c, es[..|es|]).s.active == w.maxActive;
      } else {
        var k :| 0 <= k <= |init| && Run(c, init[..k]).s.active == v.maxActive;
        assert es[..k] == init[..k];
      }
    }
  }

  /** What a caller of Metrics learns, in every interleaving: the available slots are negative iff more callers are
      between their receive and their decrement than there are slots without a holder; the rejections are those
      that were counted, and the maximum is one. */
  lemma MetricsInEveryRun(c: ValidConfig, es: seq<Event>)
    ensures var w := Run(c, es);
            var m := Snapshot(c, w.s);
            && m.active == |In(w.at, Holding)| + |In(w.at, Received)|
            && m.maxConcurrent == c.maxConcurrent && m.available == c.maxConcurrent - m.active
            && (m.available < 0 <==> |In(w.at, Received)| > c.maxConcurrent - |In(w.at, Holding)|)
            && m.rejected == w.refusals
            && (forall k :: 0 <= k <= |es| ==> Run(c, es[..k]).s.active <= m.maxActive)
            && (exists k :: 0 <= k <= |es| && Run(c, es[..k]).s.active == m.maxActive)
  {
    EveryInterleaving(c, es);
    MaxActiveIsPeak(c, es);
  }

  lemma Extend(c: Config, es: seq<Event>, e: Event)
    ensures Run(c, es + [e]) == Step(c, Run(c, es), e)
  {
    assert (es + [e])[..|es|] == es;
  }

  /** Some run goes on with this event. */
  lemma Next(c: Config, es: seq<Event>, e: Event) returns (more: seq<Event>)
    ensures Run(c, more) == Step(c, Run(c, es), e)
  {
    more := es + [e];
    Extend(c, es, e);
  }

  /** Caller 1 holds the slot. */
  lemma FirstEnters(c: Config) returns (es: seq<Event>)
    requires c == Config(1, 0)
    ensures Run(c, es) == World(Slots(1, 1, 1, 0), map[1 := Holding], 0, 0)
  {
    es := Next(c, [], Event(1, Enter));
    assert Run(c, es) == World(Slots(1, 0, 0, 0), map[1 := Sent], 0, 0);
    es := Next(c, es, Event(1, CountSend));
  }

  /** Caller 1 has taken its slot out of the channel, and is still counted. */
  lemma FirstLeaves(c: Config) returns (es: seq<Event>)
    requires c == Config(1, 0)
    ensures Run(c, es) == World(Slots(0, 1, 1, 0), map[1 := Received], 0, 0)
  {
    es := FirstEnters(c);
    es := Next(c, es, Event(1, Receive));
  }

  /** The overshoot happens: with a limit of one, the counter reads two. */
  lemma ActiveCanExceedLimit() returns (es: seq<Event>)
    ensures Run(Config(1, 0), es).s == Slots(1, 2, 2, 0)
  {
    var c := Config(1, 0);
    es := FirstLeaves(c);
    es := Next(c, es, Event(2, Enter));
    es := Next(c, es, Event(2, CountSend));
  }

  /** A caller is refused without a wait only at an instant when the channel is full, that is, when MaxConcurrent
      callers have been let in and have not yet started to leave. */
  lemma RefusedOnlyWhenFull(c: ValidConfig, es: seq<Event>, id: int)
    requires id !in Run(c, es).at
    ensures var w := Run(c, es);
            Step(c, w, Event(id, Enter)).at[id] ==
              if |In(w.at, Sent)| + |In(w.at, Holding)| < c.maxConcurrent then Sent
              else if c.maxWait <= 0 then Refused else Waiting
  {
    EveryInterleaving(c, es);
  }

  /** A waiting caller gets in when there is room, is refused by its timer, and leaves uncounted with its context; only
      a refused caller is counted as rejected. */
  lemma WaitersEnd(c: ValidConfig, es: seq<Event>, id: int)
    requires id in Run(c, es).at
    ensures var w := Run(c, es);
            && (w.at[id] == Waiting ==>
                  && (Step(c, w, Event(id, SendWaiting)).at[id] == Sent <==>
                        |In(w.at, Sent)| + |In(w.at, Holding)| < c.maxConcurrent)
                  && Step(c, w, Event(id, TimerFires)) == w.(at := w.at[id := Refused])
                  && Step(c, w, Event(id, CtxDone)) == w.(at := w.at - {id}))
            && Step(c, w, Event(id, CountReject)).s.rejected == w.s.rejected + (if w.at[id] == Refused then 1 else 0)
            && forall a :: a != CountReject ==> Step(c, w, Event(id, a)).s.rejected == w.s.rejected
  {
    EveryInterleaving(c, es);
  }
}
