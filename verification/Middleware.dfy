/** The caching middleware of cache/middleware.go, alone and in every interleaving of many callers. */
module Middleware {
  import opened Wrappers
  import opened MemoryCache
  import Keyer
  import Policy

  type Err = string

  type Outcome = Result<Bytes, Err>

  /** What a tool execution depends on. */
  datatype Request = Request(tool: string, input: Keyer.Value)

  datatype Setting = Setting(
    policy: Policy.Policy, keyOf: Request -> Option<string>, skip: (string, seq<string>) -> bool)
  {
    function TTL(): int {
      policy.EffectiveTTL(0)
    }

    /** The key under which a request is looked up and stored; `None` means that the cache is not used. */
    function CacheKey(q: Request, tags: seq<string>): Option<string> {
      if !policy.allowUnsafe && skip(q.tool, tags) then None
      else if !policy.ShouldCache() then None
      else keyOf(q)
    }
  }

  const UNSAFE_TAGS: seq<string> := ["write", "danger", "unsafe", "mutation", "delete"]

  /** `DefaultSkipRule`, for any lower-casing. */
  method DefaultSkipRule(lower: string -> string, tags: seq<string>) returns (skip: bool)
    ensures skip <==> exists t :: t in tags && lower(t) in UNSAFE_TAGS
  {
    for i := 0 to |tags|
      invariant forall k :: 0 <= k < i ==> lower(tags[k]) !in UNSAFE_TAGS
    {
      var tagLower := lower(tags[i]);
      for j := 0 to |UNSAFE_TAGS|
        invariant forall k :: 0 <= k < j ==> tagLower != UNSAFE_TAGS[k]
      {
        if tagLower == UNSAFE_TAGS[j] {
          assert tags[i] in tags;
          return true;
        }
      }
    }
    return false;
  }

  /** The call is one that the cache must leave alone: a skipped tool under a policy that does not allow unsafe ones,
      a policy without caching, or a request without a key. */
  predicate Uncached(s: Setting, q: Request, tags: seq<string>) {
    (!s.policy.allowUnsafe && s.skip(q.tool, tags)) || s.policy.defaultTTL <= 0 || s.keyOf(q) == None
  }

  lemma CacheKeyIff(s: Setting, q: Request, tags: seq<string>)
    ensures Uncached(s, q, tags) <==> s.CacheKey(q, tags) == None
    ensures !Uncached(s, q, tags) ==> s.CacheKey(q, tags) == s.keyOf(q) && 0 < s.TTL()
  {}

  /** What one `Execute` finds: the clock and the other callers' changes around each of its critical sections,
      and what the executor returns if it is called. */
  datatype Env = Env(readNow: int, later: Entries, outcome: Outcome, meanwhile: Entries, storeNow: int)

  method Execute(s: Setting, cache: MemoryCache, q: Request, tags: seq<string>, w: Env)
    returns (r: Outcome, called: bool)
    modifies cache
    ensures Uncached(s, q, tags) ==> called && r == w.outcome && cache.entries == old(cache.entries)
    ensures var key := s.CacheKey(q, tags);
            var hit := key.Some? && key.value in old(cache.entries)
                       && !Expired(old(cache.entries)[key.value], w.readNow);
            && called == !hit
            && r == (if hit then Ok(old(cache.entries)[key.value].value) else w.outcome)
            && cache.entries ==
                 (if key.None? || hit then old(cache.entries)
                  else if w.outcome.Ok? && 0 < s.TTL()
                  then w.meanwhile[key.value := Entry(w.outcome.value, w.storeNow + s.TTL())]
                  else w.meanwhile)
  {
    if !s.policy.allowUnsafe && s.skip(q.tool, tags) {
      return w.outcome, true;
    }
    if !s.policy.ShouldCache() {
      return w.outcome, true;
    }
    var key := s.keyOf(q);
    if key == None {
      return w.outcome, true;
    }
    var cached := cache.Get(key.value, w.readNow, w.later);
    if cached.Some? {
      return Ok(cached.value), false;
    }
    cache.Others(w.meanwhile);
    if w.outcome.Ok? {
      var ttl := s.policy.EffectiveTTL(0);
      if ttl > 0 {
        cache.Set(key.value, w.outcome.value, ttl, w.storeNow);
      }
    }
    return w.outcome, true;
  }

  // ---------------------------------------------------------------------------
  // Every interleaving

  /** Where a call stands between two atomic steps. */
  datatype Stage =
    | Reading(q: Request, key: string)
    | Fetched(q: Request, key: string, entry: Option<Entry>)
    | Evicting(q: Request, key: string)
    | Running(q: Request, caching: Option<string>)
    | Storing(q: Request, key: string, value: Bytes, madeAt: int)

  datatype Event =
    | Tick(d: nat)
    | Begin(id: int, q: Request, tags: seq<string>)
    | Read(id: int)
    | Check(id: int)
    | Evict(id: int)
    | Finish(id: int, outcome: Outcome)     // the executor returns
    | Store(id: int)
    | Delete(key: string)

  /** A successful executor call, and when. */
  datatype Made = Made(q: Request, value: Bytes, at: int)

  /** A value put into the cache, and when. */
  datatype Stored = Stored(made: Made, at: int)

  datatype Reply = Reply(q: Request, outcome: Outcome, hit: bool, at: int)

  datatype World = World(
    entries: Entries, stages: map<int, Stage>, now: int, made: set<Made>, stored: set<Stored>, replies: seq<Reply>)

  function Start(): World {
    World(map[], map[], 0, {}, {}, [])
  }

  function Answer(w: World, id: int, q: Request, outcome: Outcome, hit: bool): World {
    w.(stages := w.stages - {id}, replies := w.replies + [Reply(q, outcome, hit, w.now)])
  }

  function Go(w: World, id: int, s: Stage): World {
    w.(stages := w.stages[id := s])
  }

  /** One atomic step; an event that is not enabled changes nothing. */
  function Step(s: Setting, w: World, e: Event): World {
    match e
    case Tick(d) => w.(now := w.now + d)
    case Delete(key) => w.(entries := w.entries - {key})
    case Begin(id, q, tags) =>
      if id in w.stages then w
      else
        var key := s.CacheKey(q, tags);
        Go(w, id, if key.Some? then Reading(q, key.value) else Running(q, None))
    case Read(id) =>
      if id in w.stages && w.stages[id].Reading?
      then
        var Reading(q, key) := w.stages[id];
        Go(w, id, Fetched(q, key, if key in w.entries then Some(w.entries[key]) else None))
      else w
    case Check(id) =>
      if id in w.stages && w.stages[id].Fetched?
      then
        var Fetched(q, key, entry) := w.stages[id];
        if entry.None? then Go(w, id, Running(q, Some(key)))
        else if Expired(entry.value, w.now) then Go(w, id, Evicting(q, key))
        else Answer(w, id, q, Ok(entry.value.value), true)
      else w
    case Evict(id) =>
      if id in w.stages && w.stages[id].Evicting?
      then
        var Evicting(q, key) := w.stages[id];
        Go(w.(entries := w.entries - {key}), id, Running(q, Some(key)))
      else w
    case Finish(id, outcome) =>
      if id in w.stages && w.stages[id].Running?
      then
        var Running(q, key) := w.stages[id];
        if outcome.Err? then Answer(w, id, q, outcome, false)
        else
          var v := w.(made := w.made + {Made(q, outcome.value, w.now)});
          if key.Some? && 0 < s.TTL() then Go(v, id, Storing(q, key.value, outcome.value, w.now))
          else Answer(v, id, q, outcome, false)
      else w
    case Store(id) =>
      if id in w.stages && w.stages[id].Storing?
      then
        var Storing(q, key, value, madeAt) := w.stages[id];
        Answer(w.(entries := w.entries[key := Entry(value, w.now + s.TTL())],
                  stored := w.stored + {Stored(Made(q, value, madeAt), w.now)}),
               id, q, Ok(value), false)
      else w
  }

  function Run(s: Setting, es: seq<Event>): World {
    if es == [] then Start() else Step(s, Run(s, es[..|es| - 1]), es[|es| - 1])
  }

  /** The entry was put there by a store of a value that the executor had made for this very key. */
  ghost predicate Backed(s: Setting, w: World, key: string, e: Entry) {
    exists r :: r in w.stored && s.keyOf(r.made.q) == Some(key)
                && e == Entry(r.made.value, r.at + s.TTL())
  }

  ghost predicate StageOk(s: Setting, w: World, g: Stage) {
    match g
    case Reading(q, key) => s.keyOf(q) == Some(key)
    case Fetched(q, key, entry) => s.keyOf(q) == Some(key) && (entry.Some? ==> Backed(s, w, key, entry.value))
    case Evicting(q, key) => s.keyOf(q) == Some(key)
    case Running(q, key) => key.Some? ==> s.keyOf(q) == key
    case Storing(q, key, value, at) => s.keyOf(q) == Some(key) && Made(q, value, at) in w.made
  }

  /** A hit answers with a value made for the same key and stored at most the time-to-live ago. */
  ghost predicate FreshHit(s: Setting, w: World, p: Reply) {
    exists r :: r in w.stored
      && p.outcome == Ok(r.made.value) && s.keyOf(r.made.q) == s.keyOf(p.q) && s.keyOf(p.q).Some?
      && r.at <= p.at <= r.at + s.TTL()
  }

  ghost predicate Inv(s: Setting, w: World) {
    && (forall r :: r in w.stored ==> r.made in w.made && r.made.at <= r.at <= w.now)
    && (forall m :: m in w.made ==> m.at <= w.now)
    && (forall key :: key in w.entries ==> Backed(s, w, key, w.entries[key]))
    && (forall id :: id in w.stages ==> StageOk(s, w, w.stages[id]))
    && (forall p :: p in w.replies && p.hit ==> FreshHit(s, w, p))
  }

  /** The records only grow, so what they back stays backed. */
  lemma BackedStays(s: Setting, w: World, v: World, key: string, e: Entry)
    requires w.stored <= v.stored && Backed(s, w, key, e)
    ensures Backed(s, v, key, e)
  {
    var r :| r in w.stored && s.keyOf(r.made.q) == Some(key) && e == Entry(r.made.value, r.at + s.TTL());
    assert r in v.stored;
  }

  lemma StageOkStays(s: Setting, w: World, v: World, g: Stage)
    requires w.stored <= v.stored && w.made <= v.made && StageOk(s, w, g)
    ensures StageOk(s, v, g)
  {
    if g.Fetched? && g.entry.Some? {
      BackedStays(s, w, v, g.key, g.entry.value);
    }
  }

  /** A step that adds only sound things to the records, the cache, the stages and the replies keeps the invariant. */
  lemma Grows(s: Setting, w: World, v: World)
    requires Inv(s, w) && w.now <= v.now && w.made <= v.made && w.stored <= v.stored
    requires forall r :: r in v.stored ==> r in w.stored || (r.made in v.made && r.made.at <= r.at <= v.now)
    requires forall m :: m in v.made ==> m in w.made || m.at <= v.now
    requires forall key :: key in v.entries ==>
               (key in w.entries && v.entries[key] == w.entries[key]) || Backed(s, v, key, v.entries[key])
    requires forall id :: id in v.stages ==>
               (id in w.stages && v.stages[id] == w.stages[id]) || StageOk(s, v, v.stages[id])
    requires forall p :: p in v.replies && p.hit ==> p in w.replies || FreshHit(s, v, p)
    ensures Inv(s, v)
  {
    forall key | key in v.entries ensures Backed(s, v, key, v.entries[key]) {
      if key in w.entries && v.entries[key] == w.entries[key] { BackedStays(s, w, v, key, w.entries[key]); }
    }
    forall id | id in v.stages ensures StageOk(s, v, v.stages[id]) {
      if id in w.stages && v.stages[id] == w.stages[id] { StageOkStays(s, w, v, w.stages[id]); }
    }
    forall p | p in v.replies && p.hit ensures FreshHit(s, v, p) {
      if p in w.replies && FreshHit(s, w, p) {
        var r :| r in w.stored
          && p.outcome == Ok(r.made.value) && s.keyOf(r.made.q) == s.keyOf(p.q) && s.keyOf(p.q).Some?
          && r.at <= p.at <= r.at + s.TTL();
        assert r in v.stored;
      }
    }
  }

  lemma CheckKeeps(s: Setting, w: World, id: int)
    requires Inv(s, w)
    ensures Inv(s, Step(s, w, Check(id)))
  {
    var v := Step(s, w, Check(id));
    if id in w.stages && w.stages[id].Fetched? {
      var Fetched(q, key, entry) := w.stages[id];
      assert StageOk(s, w, w.stages[id]);
      if entry.Some? && !Expired(entry.value, w.now) {
        var r :| r in w.stored && s.keyOf(r.made.q) == Some(key)
                 && entry.value == Entry(r.made.value, r.at + s.TTL());
        assert r in v.stored && r.at <= w.now;
        assert FreshHit(s, v, Reply(q, Ok(entry.value.value), true, w.now));
      }
    }
    Grows(s, w, v);
  }

  lemma StoreKeeps(s: Setting, w: World, id: int)
    requires Inv(s, w)
    ensures Inv(s, Step(s, w, Store(id)))
  {
    var v := Step(s, w, Store(id));
    if id in w.stages && w.stages[id].Storing? {
      var Storing(q, key, value, madeAt) := w.stages[id];
      assert StageOk(s, w, w.stages[id]);
      var r := Stored(Made(q, value, madeAt), w.now);
      assert r in v.stored;
      assert Backed(s, v, key, v.entries[key]);
    }
    Grows(s, w, v);
  }

  lemma FinishKeeps(s: Setting, w: World, id: int, outcome: Outcome)
    requires Inv(s, w)
    ensures Inv(s, Step(s, w, Finish(id, outcome)))
  {
    if id in w.stages { assert StageOk(s, w, w.stages[id]); }
    Grows(s, w, Step(s, w, Finish(id, outcome)));
  }

  /** The steps that touch neither the records nor the replies. */
  lemma QuietStepKeeps(s: Setting, w: World, e: Event)
    requires Inv(s, w) && (e.Tick? || e.Delete? || e.Begin? || e.Read? || e.Evict?)
    ensures Inv(s, Step(s, w, e))
  {
    if (e.Read? || e.Evict?) && e.id in w.stages {
      assert StageOk(s, w, w.stages[e.id]);
    }
    Grows(s, w, Step(s, w, e));
  }

  lemma StepKeeps(s: Setting, w: World, e: Event)
    requires Inv(s, w)
    ensures Inv(s, Step(s, w, e))
  {
    match e
    case Check(id) => CheckKeeps(s, w, id);
    case Finish(id, outcome) => FinishKeeps(s, w, id, outcome);
    case Store(id) => StoreKeeps(s, w, id);
    case _ => QuietStepKeeps(s, w, e);
  }

  /** In every run and every interleaving: whatever is in the cache was made by a successful executor call for the
      same key, and every hit answers with such a value, stored at most the time-to-live ago. */
  lemma {:induction false} EveryInterleaving(s: Setting, es: seq<Event>)
    ensures Inv(s, Run(s, es))
  {
    if es != [] {
      EveryInterleaving(s, es[..|es| - 1]);
      StepKeeps(s, Run(s, es[..|es| - 1]), es[|es| - 1]);
    }
  }

  // ---------------------------------------------------------------------------
  // One call in a run

  /** The steps of one call, each of which is skipped where it is not enabled. */
  function Alone(s: Setting, w: World, id: int, q: Request, tags: seq<string>, outcome: Outcome): World {
    Step(s, Step(s, Lookup(s, w, id, q, tags), Finish(id, outcome)), Store(id))
  }

  function Lookup(s: Setting, w: World, id: int, q: Request, tags: seq<string>): World {
    var read := Step(s, Step(s, w, Begin(id, q, tags)), Read(id));
    Step(s, Step(s, read, Check(id)), Evict(id))
  }

  /** It must not be cached: the executor's outcome, and an untouched cache. */
  lemma AloneUncached(s: Setting, w: World, id: int, q: Request, tags: seq<string>, outcome: Outcome)
    requires id !in w.stages && Uncached(s, q, tags)
    ensures var v := Alone(s, w, id, q, tags, outcome);
            v.entries == w.entries && v.replies == w.replies + [Reply(q, outcome, false, w.now)]
  {
    CacheKeyIff(s, q, tags);
  }

  /** There is an entry under its key that has not expired: that entry, and an untouched cache. */
  lemma AloneHit(s: Setting, w: World, id: int, q: Request, tags: seq<string>, outcome: Outcome)
    requires id !in w.stages && !Uncached(s, q, tags)
    requires s.keyOf(q).value in w.entries && w.now <= w.entries[s.keyOf(q).value].expiresAt
    ensures var v := Alone(s, w, id, q, tags, outcome);
            && v.entries == w.entries
            && v.replies == w.replies + [Reply(q, Ok(w.entries[s.keyOf(q).value].value), true, w.now)]
  {
    CacheKeyIff(s, q, tags);
  }

  lemma LookupMisses(s: Setting, w: World, id: int, q: Request, tags: seq<string>)
    requires id !in w.stages && !Uncached(s, q, tags)
    requires s.keyOf(q).value in w.entries ==> w.entries[s.keyOf(q).value].expiresAt < w.now
    ensures Lookup(s, w, id, q, tags) ==
      w.(entries := w.entries - {s.keyOf(q).value}, stages := w.stages[id := Running(q, s.keyOf(q))])
  {
    CacheKeyIff(s, q, tags);
    var key := s.keyOf(q).value;
    var v := Lookup(s, w, id, q, tags);
    assert key !in w.entries ==> w.entries - {key} == w.entries;
    assert v.stages == w.stages[id := Running(q, s.keyOf(q))];
  }

  /** There is no such entry: the executor's outcome, stored for the time-to-live if it is a success. */
  lemma AloneMiss(s: Setting, w: World, id: int, q: Request, tags: seq<string>, outcome: Outcome)
    requires id !in w.stages && !Uncached(s, q, tags)
    requires s.keyOf(q).value in w.entries ==> w.entries[s.keyOf(q).value].expiresAt < w.now
    ensures var v, key := Alone(s, w, id, q, tags, outcome), s.keyOf(q).value;
            && v.replies == w.replies + [Reply(q, outcome, false, w.now)]
            && v.entries == (if outcome.Ok? then w.entries[key := Entry(outcome.value, w.now + s.TTL())]
                             else w.entries - {key})
  {
    CacheKeyIff(s, q, tags);
    LookupMisses(s, w, id, q, tags);
    var key := s.keyOf(q).value;
    if outcome.Ok? {
      var e := Entry(outcome.value, w.now + s.TTL());
      assert (w.entries - {key})[key := e] == w.entries[key := e];
    }
  }

  /** Call `id` begins at event `i`. */
  predicate Begins(es: seq<Event>, i: nat, id: int)
    requires i < |es|
  {
    es[i].Begin? && es[i].id == id
  }

  /** From its beginning on a call that must not be cached only runs the executor. */
  lemma {:induction false} UncachedOnlyRuns(s: Setting, es: seq<Event>, i: nat, j: nat)
    requires i < j <= |es| && es[i].Begin? && es[i].id !in Run(s, es[..i]).stages && Uncached(s, es[i].q, es[i].tags)
    requires forall k :: i < k < j ==> !Begins(es, k, es[i].id)
    ensures var stages := Run(s, es[..j]).stages;
            es[i].id in stages ==> stages[es[i].id] == Running(es[i].q, None)
    decreases j
  {
    var h := j - 1;
    RunSnoc(s, es, h);
    if i == h {
      CacheKeyIff(s, es[i].q, es[i].tags);
    } else {
      UncachedOnlyRuns(s, es, i, h);
      assert !Begins(es, h, es[i].id);
    }
  }

  /** So, in every interleaving, none of its events reads or changes the cache, and when the executor returns the call
      answers with that very outcome. */
  lemma UncachedIsDirect(s: Setting, es: seq<Event>, i: nat, e: Event)
    requires i < |es| && es[i].Begin? && es[i].id !in Run(s, es[..i]).stages && Uncached(s, es[i].q, es[i].tags)
    requires forall k :: i < k < |es| ==> !Begins(es, k, es[i].id)
    requires (e.Read? || e.Check? || e.Evict? || e.Finish? || e.Store?) && e.id == es[i].id
    ensures var w := Run(s, es);
            var v := Step(s, w, e);
            && v.entries == w.entries && v.stored == w.stored
            && v.replies == (if e.Finish? && e.id in w.stages
                             then w.replies + [Reply(es[i].q, e.outcome, false, w.now)] else w.replies)
  {
    assert es[..|es|] == es;
    UncachedOnlyRuns(s, es, i, |es|);
  }

  // ---------------------------------------------------------------------------
  // Refinement of direct execution

  /** Every call of the executor in the run returned what `direct` says. */
  ghost predicate Deterministic(s: Setting, es: seq<Event>, direct: Request -> Outcome) {
    forall i :: 0 <= i < |es| && es[i].Finish? ==>
      var stages := Run(s, es[..i]).stages;
      es[i].id in stages && stages[es[i].id].Running? ==> es[i].outcome == direct(stages[es[i].id].q)
  }

  /** The requests that began in the run. */
  ghost function Requests(es: seq<Event>): set<Request> {
    set e | e in es && e.Begin? :: e.q
  }

  ghost predicate Known(w: World, qs: set<Request>, direct: Request -> Outcome) {
    && (forall m :: m in w.made ==> m.q in qs && direct(m.q) == Ok(m.value))
    && (forall id :: id in w.stages ==> w.stages[id].q in qs)
    && (forall p :: p in w.replies ==> p.q in qs && (p.hit || p.outcome == direct(p.q)))
  }

  lemma StepKnown(s: Setting, w: World, e: Event, qs: set<Request>, direct: Request -> Outcome)
    requires Inv(s, w) && Known(w, qs, direct)
    requires e.Begin? ==> e.q in qs
    requires e.Finish? && e.id in w.stages && w.stages[e.id].Running? ==> e.outcome == direct(w.stages[e.id].q)
    ensures Known(Step(s, w, e), qs, direct)
  {
    if e.Store? && e.id in w.stages && w.stages[e.id].Storing? {
      assert StageOk(s, w, w.stages[e.id]);
    }
  }

  lemma EarlierToo(s: Setting, es: seq<Event>, direct: Request -> Outcome)
    requires es != [] && Deterministic(s, es, direct)
    ensures Deterministic(s, es[..|es| - 1], direct) && Requests(es[..|es| - 1]) <= Requests(es)
  {
    var init := es[..|es| - 1];
    assert forall i :: 0 <= i < |init| ==> init[i] == es[i] && init[..i] == es[..i];
    assert forall e :: e in init ==> e in es;
  }

  lemma {:induction false} RunKnown(s: Setting, es: seq<Event>, qs: set<Request>, direct: Request -> Outcome)
    requires Deterministic(s, es, direct) && Requests(es) <= qs
    ensures Known(Run(s, es), qs, direct)
  {
    if es != [] {
      var k := |es| - 1;
      var init := es[..k];
      EarlierToo(s, es, direct);
      RunKnown(s, init, qs, direct);
      EveryInterleaving(s, init);
      assert es[k] in es;
      StepKnown(s, Run(s, init), es[k], qs, direct);
    }
  }

  /** Caching refines direct execution: with a deterministic executor and keys that separate the requests of the
      run, every call returns exactly what the executor would have returned, in every interleaving. */
  lemma CachingIsTransparent(s: Setting, es: seq<Event>, direct: Request -> Outcome)
    requires Deterministic(s, es, direct)
    requires forall a, b :: a in Requests(es) && b in Requests(es) && s.keyOf(a).Some? && s.keyOf(a) == s.keyOf(b)
               ==> a == b
    ensures forall p :: p in Run(s, es).replies ==> p.outcome == direct(p.q)
  {
    var w := Run(s, es);
    RunKnown(s, es, Requests(es), direct);
    EveryInterleaving(s, es);
    forall p | p in w.replies ensures p.outcome == direct(p.q) {
      if p.hit {
        assert FreshHit(s, w, p);
        var r :| r in w.stored
          && p.outcome == Ok(r.made.value) && s.keyOf(r.made.q) == s.keyOf(p.q) && s.keyOf(p.q).Some?
          && r.at <= p.at <= r.at + s.TTL();
        assert r.made in w.made;
      }
    }
  }

  /** The default keyer as the key function of a middleware. */
  ghost predicate UsesDefaultKeyer(s: Setting, digest: string -> Keyer.Digest) {
    forall q: Request :: s.keyOf(q) ==
      if Keyer.Encodable(q.input) then Some(Keyer.KeyOf(digest, q.tool, q.input)) else None
  }

  /** With the default keyer it is enough that no two canonical inputs of the run collide in eight digest bytes. */
  lemma {:induction false} DefaultKeyerIsTransparent(s: Setting, es: seq<Event>, direct: Request -> Outcome,
                                  digest: string -> Keyer.Digest)
    requires Deterministic(s, es, direct) && UsesDefaultKeyer(s, digest)
    requires forall a, b :: a in Requests(es) && b in Requests(es)
               && Keyer.Encodable(a.input) && Keyer.Encodable(b.input)
               && digest(Keyer.Text(a.input))[..8] == digest(Keyer.Text(b.input))[..8]
               ==> Keyer.Text(a.input) == Keyer.Text(b.input)
    ensures forall p :: p in Run(s, es).replies ==> p.outcome == direct(p.q)
  {
    forall a, b | a in Requests(es) && b in Requests(es) && s.keyOf(a).Some? && s.keyOf(a) == s.keyOf(b)
      ensures a == b
    {
      Keyer.KeySeparates(digest, a.tool, b.tool, a.input, b.input);
    }
    CachingIsTransparent(s, es, direct);
  }

  lemma Extend(s: Setting, es: seq<Event>, e: Event)
    ensures Run(s, es + [e]) == Step(s, Run(s, es), e)
  {
    assert (es + [e])[..|es|] == es;
  }

  // ---------------------------------------------------------------------------
  // The unlocked gap in `Get`

  function Found(w: World, key: string): Option<Entry> {
    if key in w.entries then Some(w.entries[key]) else None
  }

  /** Event `k` is the first critical section of a `Get` by call `id`. */
  predicate Reads(s: Setting, es: seq<Event>, k: nat, id: int)
    requires k < |es|
  {
    es[k] == Read(id) && var stages := Run(s, es[..k]).stages; id in stages && stages[id].Reading?
  }

  /** Event `k` stores an entry under `key`. */
  predicate Puts(s: Setting, es: seq<Event>, k: nat, key: string)
    requires k < |es|
  {
    && es[k].Store?
    && var stages := Run(s, es[..k]).stages;
       es[k].id in stages && stages[es[k].id].Storing? && stages[es[k].id].key == key
  }

  lemma RunSnoc(s: Setting, es: seq<Event>, k: nat)
    requires k < |es|
    ensures Run(s, es[..k + 1]) == Step(s, Run(s, es[..k]), es[k])
  {
    assert es[..k + 1][..k] == es[..k];
  }

  lemma StepWithoutPut(s: Setting, w: World, e: Event, key: string)
    requires !(e.Store? && e.id in w.stages && w.stages[e.id].Storing? && w.stages[e.id].key == key)
    ensures w.now <= Step(s, w, e).now && Found(Step(s, w, e), key) in {None, Found(w, key)}
  {}

  /** Without a store under the key its entry stays what it was or goes, and time does not go back. */
  lemma {:induction false} WithoutPut(s: Setting, es: seq<Event>, i: nat, j: nat, key: string)
    requires i <= j <= |es|
    requires forall k :: i <= k < j ==> !Puts(s, es, k, key)
    ensures Run(s, es[..i]).now <= Run(s, es[..j]).now
    ensures Found(Run(s, es[..j]), key) in {None, Found(Run(s, es[..i]), key)}
    decreases j
  {
    if i < j {
      var h := j - 1;
      WithoutPut(s, es, i, h, key);
      RunSnoc(s, es, h);
      assert !Puts(s, es, h, key);
      StepWithoutPut(s, Run(s, es[..h]), es[h], key);
    }
  }

  /** What call `id` still knows of its last read: the entry it fetched, or that this entry has expired. */
  ghost predicate Remembers(w: World, id: int, key: string, fetched: Option<Entry>) {
    id in w.stages ==>
      match w.stages[id]
      case Fetched(_, k, e) => k == key && e == fetched
      case Evicting(_, k) => k == key && fetched.Some? && Expired(fetched.value, w.now)
      case _ => true
  }

  lemma RememberStep(s: Setting, w: World, e: Event, id: int, key: string, fetched: Option<Entry>)
    requires Remembers(w, id, key, fetched)
    requires !(e == Read(id) && id in w.stages && w.stages[id].Reading?)
    ensures Remembers(Step(s, w, e), id, key, fetched)
  {}

  lemma {:induction false} RememberRun(s: Setting, es: seq<Event>, i: nat, j: nat, id: int)
    requires i < j <= |es| && Reads(s, es, i, id)
    requires forall k :: i < k < j ==> !Reads(s, es, k, id)
    ensures var v := Run(s, es[..i]);
            Remembers(Run(s, es[..j]), id, v.stages[id].key, Found(v, v.stages[id].key))
    decreases j
  {
    var h := j - 1;
    RunSnoc(s, es, h);
    if i < h {
      RememberRun(s, es, i, h, id);
      var v := Run(s, es[..i]);
      assert !Reads(s, es, h, id);
      RememberStep(s, Run(s, es[..h]), es[h], id, v.stages[id].key, Found(v, v.stages[id].key));
    }
  }

  lemma {:induction false} LastPut(s: Setting, es: seq<Event>, i: nat, j: nat, key: string) returns (k: nat)
    requires i <= j <= |es|
    requires exists p :: i <= p < j && Puts(s, es, p, key)
    ensures i <= k < j && Puts(s, es, k, key)
    ensures forall p :: k < p < j ==> !Puts(s, es, p, key)
    decreases j
  {
    if Puts(s, es, j - 1, key) {
      k := j - 1;
    } else {
      k := LastPut(s, es, i, j - 1, key);
    }
  }

  /** Event `k` takes the entry under `key` away, if there is one. */
  predicate Removes(s: Setting, es: seq<Event>, k: nat, key: string)
    requires k < |es|
  {
    es[k] == Event.Delete(key)
    || (&& es[k].Evict?
        && var stages := Run(s, es[..k]).stages;
           es[k].id in stages && stages[es[k].id].Evicting? && stages[es[k].id].key == key)
  }

  /** No event from `i` on and before `j` stores or removes an entry under `key`. */
  predicate Untouched(s: Setting, es: seq<Event>, i: nat, j: nat, key: string)
    requires j <= |es|
  {
    forall k :: i <= k < j ==> !Puts(s, es, k, key) && !Removes(s, es, k, key)
  }

  lemma {:induction false} UntouchedStays(s: Setting, es: seq<Event>, i: nat, j: nat, key: string)
    requires i <= j <= |es| && Untouched(s, es, i, j, key)
    ensures Found(Run(s, es[..j]), key) == Found(Run(s, es[..i]), key)
    decreases j
  {
    if i < j {
      var h := j - 1;
      UntouchedStays(s, es, i, h, key);
      RunSnoc(s, es, h);
      assert !Puts(s, es, h, key) && !Removes(s, es, h, key);
    }
  }

  lemma RemovedIsGone(s: Setting, es: seq<Event>, k: nat, key: string)
    requires k < |es| && Removes(s, es, k, key)
    ensures Found(Run(s, es[..k + 1]), key) == None
  {
    RunSnoc(s, es, k);
  }

  function PutAt(s: Setting, es: seq<Event>, k: nat): int
    requires k < |es|
  {
    Run(s, es[..k]).now
  }

  function PutValue(s: Setting, es: seq<Event>, k: nat): Bytes
    requires k < |es|
  {
    var stages := Run(s, es[..k]).stages;
    if es[k].Store? && es[k].id in stages && stages[es[k].id].Storing? then stages[es[k].id].value else []
  }

  /** The second critical section of `Get` removes the key, whatever is under it by then. That is an unexpired entry
      iff since this call's read there was a store under the key after which nobody has stored, deleted or evicted
      the key, and its time-to-live has not passed. */
  lemma {:induction false} LateDeleteDropsFreshIff(s: Setting, es: seq<Event>, id: int, i: nat)
    requires i < |es| && Reads(s, es, i, id) && forall k :: i < k < |es| ==> !Reads(s, es, k, id)
    requires var w := Run(s, es); id in w.stages && w.stages[id].Evicting?
    ensures var w := Run(s, es);
            var key := w.stages[id].key;
            && key !in Step(s, w, Evict(id)).entries
            && (key in w.entries && !Expired(w.entries[key], w.now) <==>
                  exists k :: i < k < |es| && Puts(s, es, k, key) && Untouched(s, es, k + 1, |es|, key)
                              && w.now <= PutAt(s, es, k) + s.TTL())
  {
    var w, n := Run(s, es), |es|;
    var key := w.stages[id].key;
    assert es[..n] == es;
    RememberRun(s, es, i, n, id);
    if key in w.entries && !Expired(w.entries[key], w.now) {
      assert !Puts(s, es, i, key);
      if forall p :: i <= p < n ==> !Puts(s, es, p, key) {
        WithoutPut(s, es, i, n, key);
        assert false;
      }
      var k := LastPut(s, es, i, n, key);
      PutStays(s, es, k, key);
    }
    forall k | i < k < n && Puts(s, es, k, key) && Untouched(s, es, k + 1, n, key)
      ensures Found(w, key) == Some(Entry(PutValue(s, es, k), PutAt(s, es, k) + s.TTL()))
    {
      PutLands(s, es, k, key);
      UntouchedStays(s, es, k + 1, n, key);
    }
  }

  lemma PutLands(s: Setting, es: seq<Event>, k: nat, key: string)
    requires k < |es| && Puts(s, es, k, key)
    ensures Found(Run(s, es[..k + 1]), key) == Some(Entry(PutValue(s, es, k), PutAt(s, es, k) + s.TTL()))
  {
    RunSnoc(s, es, k);
  }

  /** An entry that is there in the end has not been touched since the last store. */
  lemma PutStays(s: Setting, es: seq<Event>, k: nat, key: string)
    requires k < |es| && key in Run(s, es).entries
    requires forall p :: k < p < |es| ==> !Puts(s, es, p, key)
    ensures Untouched(s, es, k + 1, |es|, key)
  {
    assert es[..|es|] == es;
    forall m | k < m < |es| ensures !Removes(s, es, m, key) {
      if Removes(s, es, m, key) {
        RemovedIsGone(s, es, m, key);
        WithoutPut(s, es, m + 1, |es|, key);
        assert false;
      }
    }
  }

  /** Some run goes on with this event. */
  lemma Next(s: Setting, es: seq<Event>, e: Event) returns (more: seq<Event>)
    ensures Run(s, more) == Step(s, Run(s, es), e)
  {
    more := es + [e];
    Extend(s, es, e);
  }

  /** It happens for every positive time-to-live, that is, whenever the cache is used at all: call 2 fetches an
      expired entry, call 3 stores a fresh one, and call 2 then deletes it. The next call only has to execute again. */
  lemma LateDeleteDropsFreshEntry(s: Setting, q: Request, v: Bytes) returns (es: seq<Event>)
    requires s.CacheKey(q, []).Some?
    ensures var key := s.CacheKey(q, []).value;
      && key in Run(s, es).entries && !Expired(Run(s, es).entries[key], Run(s, es).now)
      && key !in Run(s, es + [Evict(2)]).entries
  {
    var key := s.CacheKey(q, []).value;
    es := MissTwice(s, q);
    es := StoreAndExpire(s, q, v, es);
    es := FetchExpired(s, q, v, es);
    es := StoreAfterExpiry(s, q, v, es);
    es := Next(s, es, Check(2));
    Extend(s, es, Evict(2));
  }

  /** Calls 1 and 3 find the cache empty. */
  lemma MissTwice(s: Setting, q: Request) returns (es: seq<Event>)
    requires s.CacheKey(q, []).Some?
    ensures var key := s.CacheKey(q, []);
      Run(s, es) == World(map[], map[1 := Running(q, key), 3 := Running(q, key)], 0, {}, {}, [])
  {
    es := Next(s, [], Begin(1, q, []));
    es := Next(s, es, Read(1));
    es := Next(s, es, Check(1));
    es := Next(s, es, Begin(3, q, []));
    es := Next(s, es, Read(3));
    es := Next(s, es, Check(3));
  }

  /** Call 1 stores, and its entry expires. */
  lemma StoreAndExpire(s: Setting, q: Request, v: Bytes, before: seq<Event>) returns (es: seq<Event>)
    requires s.CacheKey(q, []).Some?
    requires var key := s.CacheKey(q, []);
      Run(s, before) == World(map[], map[1 := Running(q, key), 3 := Running(q, key)], 0, {}, {}, [])
    ensures var key, w := s.CacheKey(q, []), Run(s, es);
      w.now == s.TTL() + 1 && w.entries == map[key.value := Entry(v, s.TTL())] && w.stages == map[3 := Running(q, key)]
  {
    es := Next(s, before, Finish(1, Ok(v)));
    es := Next(s, es, Store(1));
    es := Next(s, es, Tick(s.TTL() + 1));
  }

  /** After that call 2 fetches the expired entry. */
  lemma FetchExpired(s: Setting, q: Request, v: Bytes, before: seq<Event>) returns (es: seq<Event>)
    requires s.CacheKey(q, []).Some?
    requires var key, w := s.CacheKey(q, []), Run(s, before);
      w.now == s.TTL() + 1 && w.entries == map[key.value := Entry(v, s.TTL())] && w.stages == map[3 := Running(q, key)]
    ensures var key, w := s.CacheKey(q, []), Run(s, es);
      && w.now == s.TTL() + 1 && w.entries == map[key.value := Entry(v, s.TTL())]
      && w.stages == map[3 := Running(q, key)][2 := Fetched(q, key.value, Some(Entry(v, s.TTL())))]
  {
    es := Next(s, before, Begin(2, q, []));
    es := Next(s, es, Read(2));
  }

  /** And then call 3 stores a fresh one. */
  lemma StoreAfterExpiry(s: Setting, q: Request, v: Bytes, before: seq<Event>) returns (es: seq<Event>)
    requires s.CacheKey(q, []).Some?
    requires var key, w := s.CacheKey(q, []), Run(s, before);
      && w.now == s.TTL() + 1 && w.entries == map[key.value := Entry(v, s.TTL())]
      && w.stages == map[3 := Running(q, key)][2 := Fetched(q, key.value, Some(Entry(v, s.TTL())))]
    ensures var key, w := s.CacheKey(q, []).value, Run(s, es);
      && w.now == s.TTL() + 1 && w.entries == map[key := Entry(v, 2 * s.TTL() + 1)]
      && w.stages == map[2 := Fetched(q, key, Some(Entry(v, s.TTL())))]
  {
    es := Next(s, before, Finish(3, Ok(v)));
    es := Next(s, es, Store(3));
  }
}
