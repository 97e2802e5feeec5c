/** Composite authentication, from auth/composite.go, for one request. */
module Composite {
  import opened Wrappers

  /** `detail` stands for the identity or the error, and the method name. */
  datatype AuthResult = AuthResult(authenticated: bool, detail: string)

  type InfraError = string

  /** What `Authenticate` returns: a result, or an infrastructure error. */
  type Outcome = Result<AuthResult, InfraError>

  /** An authenticator as one request sees it. A leaf supports the request or not, and has one outcome; both are
      taken to be the same whenever they are asked for. */
  datatype Authenticator =
    | Leaf(supports: bool, outcome: Outcome)
    | Composite(stopOnFirst: bool, members: seq<Authenticator>)

  const MISSING: AuthResult := AuthResult(false, "missing credentials")

  predicate Supports(a: Authenticator) {
    match a
    case Leaf(supports, _) => supports
    case Composite(_, members) => exists m :: m in members && Supports(m)
  }

  /** The state of the loop: an early return, or the last result and the first success so far. */
  datatype Progress =
    | Returned(outcome: Outcome)
    | Going(lastResult: Option<AuthResult>, firstSuccess: Option<AuthResult>)

  function Step(stop: bool, p: Progress, outcome: Outcome): Progress {
    match p
    case Returned(_) => p
    case Going(_, first) =>
      match outcome
      case Err(_) => Returned(outcome)
      case Ok(r) =>
        if r.authenticated && stop then Returned(outcome)
        else Going(Some(r), if r.authenticated && first.None? then Some(r) else first)
  }

  function Finish(p: Progress): Outcome {
    match p
    case Returned(outcome) => outcome
    case Going(last, first) =>
      if first.Some? then Ok(first.value) else if last.Some? then Ok(last.value) else Ok(MISSING)
  }

  function Authenticate(a: Authenticator): Outcome
    decreases a, 1
  {
    match a
    case Leaf(_, outcome) => outcome
    case Composite(stop, members) => Finish(Loop(stop, members))
  }

  function Loop(stop: bool, ms: seq<Authenticator>): Progress
    decreases ms, 0
  {
    if ms == [] then Going(None, None)
    else
      var m := ms[|ms| - 1];
      var p := Loop(stop, ms[..|ms| - 1]);
      if Supports(m) then Step(stop, p, Authenticate(m)) else p
  }

  // ---------------------------------------------------------------------------
  // The loops

  method AnySupports(members: seq<Authenticator>) returns (s: bool)
    ensures s <==> exists m :: m in members && Supports(m)
    decreases members, 0
  {
    for i := 0 to |members|
      invariant forall k :: 0 <= k < i ==> !Supports(members[k])
    {
      var one := CheckSupports(members[i]);
      if one {
        assert members[i] in members;
        return true;
      }
    }
    return false;
  }

  method CheckSupports(a: Authenticator) returns (s: bool)
    ensures s == Supports(a)
    decreases a, 1
  {
    match a {
      case Leaf(supports, _) => s := supports;
      case Composite(_, members) => s := AnySupports(members);
    }
  }

  method RunAuthenticate(a: Authenticator) returns (r: Outcome)
    ensures r == Authenticate(a)
    decreases a, 1
  {
    match a {
      case Leaf(_, outcome) => r := outcome;
      case Composite(stop, members) => r := RunMembers(stop, members);
    }
  }

  method RunMembers(stop: bool, members: seq<Authenticator>) returns (r: Outcome)
    ensures r == Finish(Loop(stop, members))
    decreases members, 0
  {
    if |members| == 0 {
      return Ok(MISSING);
    }
    var lastResult: Option<AuthResult> := None;
    var firstSuccess: Option<AuthResult> := None;
    for i := 0 to |members|
      invariant Loop(stop, members[..i]) == Going(lastResult, firstSuccess)
    {
      assert members[..i + 1][..i] == members[..i];
      var supported := CheckSupports(members[i]);
      if !supported {
        continue;
      }
      var outcome := RunAuthenticate(members[i]);
      if outcome.Err? {
        ReturnedStays(stop, members, i + 1);
        return outcome;
      }
      lastResult := Some(outcome.value);
      if outcome.value.authenticated {
        if stop {
          ReturnedStays(stop, members, i + 1);
          return outcome;
        }
        if firstSuccess == None {
          firstSuccess := Some(outcome.value);
        }
      }
    }
    assert members[..|members|] == members;
    if firstSuccess != None {
      return Ok(firstSuccess.value);
    }
    if lastResult != None {
      return Ok(lastResult.value);
    }
    return Ok(MISSING);
  }

  lemma {:induction false} ReturnedStays(stop: bool, ms: seq<Authenticator>, i: nat)
    requires i <= |ms| && Loop(stop, ms[..i]).Returned?
    ensures Loop(stop, ms) == Loop(stop, ms[..i])
    decreases |ms|
  {
    if i == |ms| {
      assert ms[..i] == ms;
    } else {
      assert ms[..|ms| - 1][..i] == ms[..i];
      ReturnedStays(stop, ms[..|ms| - 1], i);
    }
  }

  // ---------------------------------------------------------------------------
  // Flattening

  /** The leaves of an authenticator from left to right. */
  function Flatten(a: Authenticator): seq<Authenticator>
    decreases a, 1
  {
    match a
    case Leaf(_, _) => [a]
    case Composite(_, members) => FlattenAll(members)
  }

  function FlattenAll(ms: seq<Authenticator>): seq<Authenticator>
    decreases ms, 0
  {
    if ms == [] then [] else FlattenAll(ms[..|ms| - 1]) + Flatten(ms[|ms| - 1])
  }

  /** The outcomes of the leaves that support the request, in order. */
  function Outcomes(ls: seq<Authenticator>): seq<Outcome> {
    if ls == [] then []
    else
      var l := ls[|ls| - 1];
      Outcomes(ls[..|ls| - 1]) + if l.Leaf? && l.supports then [l.outcome] else []
  }

  lemma {:induction false} OutcomesConcat(ls: seq<Authenticator>, more: seq<Authenticator>)
    ensures Outcomes(ls + more) == Outcomes(ls) + Outcomes(more)
  {
    if more == [] {
      assert ls + more == ls;
    } else {
      assert (ls + more)[..|ls + more| - 1] == ls + more[..|more| - 1];
      OutcomesConcat(ls, more[..|more| - 1]);
    }
  }

  lemma {:induction false} FlattenIsLeaves(a: Authenticator)
    ensures forall l :: l in Flatten(a) ==> l.Leaf?
    ensures Supports(a) <==> Outcomes(Flatten(a)) != []
    decreases a, 1
  {
    match a
    case Leaf(_, _) => assert [a][..0] == [];
    case Composite(_, members) => FlattenAllIsLeaves(members);
  }

  lemma SupportedByOne(ms: seq<Authenticator>)
    requires ms != []
    ensures (exists m :: m in ms && Supports(m)) <==>
      (exists m :: m in ms[..|ms| - 1] && Supports(m)) || Supports(ms[|ms| - 1])
  {
    assert forall m :: m in ms <==> m in ms[..|ms| - 1] || m == ms[|ms| - 1];
  }

  lemma {:induction false} FlattenAllIsLeaves(ms: seq<Authenticator>)
    ensures forall l :: l in FlattenAll(ms) ==> l.Leaf?
    ensures (exists m :: m in ms && Supports(m)) <==> Outcomes(FlattenAll(ms)) != []
    decreases ms, 0
  {
    if ms != [] {
      var k := |ms| - 1;
      FlattenAllIsLeaves(ms[..k]);
      FlattenIsLeaves(ms[k]);
      OutcomesConcat(FlattenAll(ms[..k]), Flatten(ms[k]));
      SupportedByOne(ms);
    }
  }

  /** Every composite at any depth has this setting. */
  predicate AllStop(a: Authenticator, stop: bool) {
    a.Composite? ==> a.stopOnFirst == stop && forall m :: m in a.members ==> AllStop(m, stop)
  }

  /** The loop over a list of outcomes. */
  function Fold(stop: bool, p: Progress, os: seq<Outcome>): Progress {
    if os == [] then p else Step(stop, Fold(stop, p, os[..|os| - 1]), os[|os| - 1])
  }

  const FRESH: Progress := Going(None, None)

  lemma {:induction false} FoldConcat(stop: bool, p: Progress, os: seq<Outcome>, more: seq<Outcome>)
    ensures Fold(stop, p, os + more) == Fold(stop, Fold(stop, p, os), more)
  {
    if more == [] {
      assert os + more == os;
    } else {
      assert (os + more)[..|os + more| - 1] == os + more[..|more| - 1];
      FoldConcat(stop, p, os, more[..|more| - 1]);
    }
  }

  /** The same as far as any later step or the final choice can tell: the last result only matters without a success. */
  predicate Alike(p: Progress, q: Progress) {
    if p.Returned? || q.Returned? then p == q
    else p.firstSuccess == q.firstSuccess && (p.firstSuccess.None? ==> p.lastResult == q.lastResult)
  }

  /** Folding from any point is folding afresh and joining. */
  function Join(p: Progress, q: Progress): Progress {
    if p.Returned? then p
    else if q.Returned? then q
    else Going(if q.lastResult.Some? then q.lastResult else p.lastResult,
               if p.firstSuccess.Some? then p.firstSuccess else q.firstSuccess)
  }

  lemma {:induction false} FoldFrom(stop: bool, p: Progress, os: seq<Outcome>)
    ensures Fold(stop, p, os) == Join(p, Fold(stop, FRESH, os))
  {
    if os != [] { FoldFrom(stop, p, os[..|os| - 1]); }
  }

  /** With the early stop a running loop has seen no success; a success is authenticated; any outcome leaves
      a result. */
  lemma {:induction false} FoldShape(stop: bool, os: seq<Outcome>)
    ensures var p := Fold(stop, FRESH, os);
      p.Going? ==>
        && (p.lastResult.Some? <==> os != [])
        && (p.firstSuccess.Some? ==> !stop && os != [] && p.firstSuccess.value.authenticated)
        && (p.firstSuccess.None? && os != [] ==> !p.lastResult.value.authenticated)
  {
    if os != [] { FoldShape(stop, os[..|os| - 1]); }
  }

  /** One step with a nested result is as good as the steps of everything nested. */
  lemma NestedStep(stop: bool, p: Progress, q: Progress, os: seq<Outcome>)
    requires Alike(p, q) && os != []
    ensures Alike(Step(stop, p, Finish(Fold(stop, FRESH, os))), Fold(stop, q, os))
  {
    FoldFrom(stop, q, os);
    FoldShape(stop, os);
  }

  lemma FoldMembers(stop: bool, ms: seq<Authenticator>)
    requires ms != []
    ensures Fold(stop, FRESH, Outcomes(FlattenAll(ms)))
         == Fold(stop, Fold(stop, FRESH, Outcomes(FlattenAll(ms[..|ms| - 1]))), Outcomes(Flatten(ms[|ms| - 1])))
  {
    var front, last := FlattenAll(ms[..|ms| - 1]), Flatten(ms[|ms| - 1]);
    OutcomesConcat(front, last);
    FoldConcat(stop, FRESH, Outcomes(front), Outcomes(last));
  }

  lemma {:induction false} LoopIsFold(stop: bool, ms: seq<Authenticator>)
    requires forall m :: m in ms ==> AllStop(m, stop)
    ensures Alike(Loop(stop, ms), Fold(stop, FRESH, Outcomes(FlattenAll(ms))))
    decreases ms, 0
  {
    if ms != [] {
      var k := |ms| - 1;
      var m := ms[k];
      assert m in ms && forall x :: x in ms[..k] ==> x in ms;
      LoopIsFold(stop, ms[..k]);
      FoldMembers(stop, ms);
      FlattenIsLeaves(m);
      if Supports(m) {
        AuthenticateIsFold(stop, m);
        var before := Fold(stop, FRESH, Outcomes(FlattenAll(ms[..k])));
        NestedStep(stop, Loop(stop, ms[..k]), before, Outcomes(Flatten(m)));
      }
    }
  }

  lemma {:induction false} AuthenticateIsFold(stop: bool, a: Authenticator)
    requires AllStop(a, stop) && Supports(a)
    ensures Authenticate(a) == Finish(Fold(stop, FRESH, Outcomes(Flatten(a))))
    decreases a, 1
  {
    match a
    case Leaf(_, outcome) =>
      assert [a][..0] == [];
      assert Outcomes([a]) == [outcome] && [outcome][..0] == [];
      assert Fold(stop, FRESH, [outcome]) == Step(stop, FRESH, outcome);
    case Composite(_, members) => LoopIsFold(stop, members);
  }

  /** Nesting composites with one common StopOnFirst, to any depth, is the same as the flat list of their leaves. */
  lemma FlatteningKeepsTheOutcome(a: Authenticator, stop: bool)
    requires a.Composite? && AllStop(a, stop)
    ensures Authenticate(a) == Authenticate(Composite(stop, FlattenAll(a.members)))
    ensures Supports(a) == Supports(Composite(stop, FlattenAll(a.members)))
  {
    var ls := FlattenAll(a.members);
    LoopIsFold(stop, a.members);
    FlattenAllIsLeaves(a.members);
    FlatFlattens(ls);
    LoopIsFold(stop, ls);
    FlattenAllIsLeaves(ls);
  }

  /** When no leaf supports the request, a composite fails it for missing credentials. */
  lemma NobodySupports(a: Authenticator, stop: bool)
    requires a.Composite? && AllStop(a, stop) && Outcomes(Flatten(a)) == []
    ensures Authenticate(a) == Ok(AuthResult(false, "missing credentials")) && !Supports(a)
  {
    LoopIsFold(stop, a.members);
    FlattenIsLeaves(a);
  }

  lemma {:induction false} FlatFlattens(ls: seq<Authenticator>)
    requires forall l :: l in ls ==> l.Leaf?
    ensures FlattenAll(ls) == ls
  {
    if ls != [] {
      var front, last := ls[..|ls| - 1], ls[|ls| - 1];
      assert last in ls && Flatten(last) == [last];
      FlatFlattens(front);
      assert ls == front + [last];
    }
  }

  // ---------------------------------------------------------------------------
  // When StopOnFirst matters

  /** The first outcome that is an infrastructure error or a success. */
  function Decisive(os: seq<Outcome>): Option<Outcome> {
    if os == [] then None
    else
      var d, o := Decisive(os[..|os| - 1]), os[|os| - 1];
      if d.Some? then d else if o.Err? || o.value.authenticated then Some(o) else None
  }

  predicate HasError(os: seq<Outcome>) {
    exists o :: o in os && o.Err?
  }

  /** The declarative meaning of a composite: an error or a success if there is one, else the last failure. */
  function Pick(os: seq<Outcome>): Outcome {
    var d := Decisive(os);
    if d.Some? then d.value else if os == [] then Ok(MISSING) else os[|os| - 1]
  }

  lemma {:induction false} StoppingPicks(os: seq<Outcome>)
    ensures var p, d := Fold(true, FRESH, os), Decisive(os);
      if d.Some? then p == Returned(d.value)
      else p.Going? && p.firstSuccess.None?
           && (os != [] ==> os[|os| - 1].Ok? && p.lastResult == Some(os[|os| - 1].value))
           && (os == [] ==> p.lastResult.None?)
  {
    if os != [] { StoppingPicks(os[..|os| - 1]); }
  }

  lemma {:induction false} CollectingPicks(os: seq<Outcome>)
    ensures var p, d := Fold(false, FRESH, os), Decisive(os);
      && (p.Returned? <==> HasError(os))
      && (p.Returned? ==> p.outcome.Err? && (d == Some(p.outcome) || (d.Some? && d.value.Ok?)))
      && (p.Going? ==>
            && (p.firstSuccess.Some? <==> d.Some?)
            && (d.Some? ==> d.value == Ok(p.firstSuccess.value))
            && (os != [] ==> os[|os| - 1].Ok? && p.lastResult == Some(os[|os| - 1].value))
            && (os == [] ==> p.lastResult.None?))
      && (d.Some? && d.value.Err? ==> HasError(os))
  {
    if os != [] {
      var init, o := os[..|os| - 1], os[|os| - 1];
      CollectingPicks(init);
      assert os == init + [o];
      assert HasError(os) <==> HasError(init) || o.Err? by {
        assert forall x :: x in os <==> x in init || x == o;
      }
    }
  }

  /** The early stop returns the first success or error; without it the two settings differ iff a success comes
      first and some later member fails with an infrastructure error. */
  lemma StopMattersIff(os: seq<Outcome>)
    ensures Finish(Fold(true, FRESH, os)) == Pick(os)
    ensures Finish(Fold(false, FRESH, os)) != Pick(os) <==>
            Decisive(os).Some? && Decisive(os).value.Ok? && HasError(os)
  {
    StoppingPicks(os);
    CollectingPicks(os);
  }

  predicate IsDecisive(o: Outcome) {
    o.Err? || o.value.authenticated
  }

  ghost predicate FirstDecisive(os: seq<Outcome>, i: nat) {
    i < |os| && IsDecisive(os[i]) && forall j :: 0 <= j < i ==> !IsDecisive(os[j])
  }

  ghost predicate FirstError(os: seq<Outcome>, i: nat) {
    i < |os| && os[i].Err? && forall j :: 0 <= j < i ==> !os[j].Err?
  }

  /** The decisive outcome is the first error or success there is. */
  lemma {:induction false} DecisiveIsFirst(os: seq<Outcome>)
    ensures Decisive(os).None? ==> forall o :: o in os ==> !IsDecisive(o)
    ensures Decisive(os).Some? ==>
      exists i: nat :: FirstDecisive(os, i) && os[i] == Decisive(os).value
  {
    if os != [] {
      var init, last := os[..|os| - 1], os[|os| - 1];
      DecisiveIsFirst(init);
      assert os == init + [last];
      if Decisive(init).Some? {
        var i: nat :| FirstDecisive(init, i) && init[i] == Decisive(init).value;
        assert FirstDecisive(os, i);
      } else if IsDecisive(last) {
        assert forall j :: 0 <= j < |init| ==> init[j] in init;
        assert FirstDecisive(os, |init|);
      }
    }
  }

  /** Without the early stop the first error is returned if there is one, and else the first success or last failure. */
  lemma {:induction false} CollectingReturns(os: seq<Outcome>)
    ensures HasError(os) ==>
      exists i: nat :: FirstError(os, i) && Fold(false, FRESH, os) == Returned(os[i])
    ensures !HasError(os) ==> Finish(Fold(false, FRESH, os)) == Pick(os)
  {
    StopMattersIff(os);
    if os != [] {
      var init, last := os[..|os| - 1], os[|os| - 1];
      CollectingReturns(init);
      CollectingPicks(init);
      assert os == init + [last];
      if HasError(init) {
        var i: nat :| FirstError(init, i) && Fold(false, FRESH, init) == Returned(init[i]);
        assert FirstError(os, i);
      } else if last.Err? {
        assert forall j :: 0 <= j < |init| ==> init[j] in init;
        assert FirstError(os, |init|);
      } else {
        assert !HasError(os) by { assert forall o :: o in os ==> o in init || o == last; }
      }
    }
  }

  /** The same for composites: with one common setting at every depth, the setting matters iff the first decisive
      member succeeds and some supporting member fails with an infrastructure error. */
  lemma SettingMattersIff(a: Authenticator, b: Authenticator)
    requires a.Composite? && AllStop(a, true) && b.Composite? && AllStop(b, false)
    requires FlattenAll(a.members) == FlattenAll(b.members)
    ensures var os := Outcomes(FlattenAll(a.members));
      && Authenticate(a) == Pick(os)
      && (Authenticate(b) != Authenticate(a) <==> Decisive(os).Some? && Decisive(os).value.Ok? && HasError(os))
  {
    LoopIsFold(true, a.members);
    LoopIsFold(false, b.members);
    StopMattersIff(Outcomes(FlattenAll(a.members)));
  }
}
