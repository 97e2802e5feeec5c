/** Role closure and authorization, from auth/rbac.go. */
module Rbac {
  import opened Wrappers

  datatype Role = Role(
    permissions: seq<string>, inherits: seq<string>,
    allowedTools: seq<string>, deniedTools: seq<string>, allowedActions: seq<string>)

  datatype Config = Config(roles: map<string, Role>, defaultRole: string)

  datatype Request = Request(subject: Option<Identity>, resource: string, action: string, resourceType: string)

  datatype Identity = Identity(principal: string, roles: seq<string>)

  // ---------------------------------------------------------------------------
  // The inheritance graph

  function Inherits(c: Config, r: string): seq<string> {
    if r in c.roles then c.roles[r].inherits else []
  }

  /** Where the closure starts: the subject's roles, or the default role when there are none. */
  function Seeds(c: Config, roles: seq<string>): seq<string> {
    if roles == [] && c.defaultRole != "" then [c.defaultRole] else roles
  }

  /** `r` is reached from the seeds along exactly `n` inheritance edges. */
  ghost predicate ReachedIn(c: Config, seeds: seq<string>, r: string, n: nat)
    decreases n
  {
    if n == 0 then r in seeds
    else exists q :: ReachedIn(c, seeds, q, n - 1) && r in Inherits(c, q)
  }

  ghost predicate Reachable(c: Config, seeds: seq<string>, r: string) {
    exists n: nat :: ReachedIn(c, seeds, r, n)
  }

  /** `d` is the shortest inheritance distance of `r`. */
  ghost predicate Distance(c: Config, seeds: seq<string>, r: string, d: nat) {
    ReachedIn(c, seeds, r, d) && forall n: nat :: n < d ==> !ReachedIn(c, seeds, r, n)
  }

  /** The set has the seeds and whatever its configured roles inherit. */
  ghost predicate Inherited(c: Config, seeds: seq<string>, all: set<string>) {
    && (forall x :: x in seeds ==> x in all)
    && (forall q, x :: q in all && q in c.roles && x in c.roles[q].inherits ==> x in all)
  }

  /** The reachable roles are the least such set. */
  lemma ReachableIsLeast(c: Config, seeds: seq<string>)
    ensures forall r :: r in seeds ==> Reachable(c, seeds, r)
    ensures forall q, r :: Reachable(c, seeds, q) && q in c.roles && r in c.roles[q].inherits ==> Reachable(c, seeds, r)
    ensures forall all, r :: Inherited(c, seeds, all) && Reachable(c, seeds, r) ==> r in all
  {
    forall r | r in seeds ensures Reachable(c, seeds, r) { assert ReachedIn(c, seeds, r, 0); }
    forall q, r | Reachable(c, seeds, q) && q in c.roles && r in c.roles[q].inherits ensures Reachable(c, seeds, r) {
      var n: nat :| ReachedIn(c, seeds, q, n);
      var m := n + 1;
      assert ReachedIn(c, seeds, q, m - 1) && r in Inherits(c, q);
      assert ReachedIn(c, seeds, r, m);
    }
    forall all, r | Inherited(c, seeds, all) && Reachable(c, seeds, r) ensures r in all {
      var n: nat :| ReachedIn(c, seeds, r, n);
      StaysInside(c, seeds, all, r, n);
    }
  }

  lemma {:induction false} StaysInside(c: Config, seeds: seq<string>, all: set<string>, r: string, n: nat)
    requires Inherited(c, seeds, all) && ReachedIn(c, seeds, r, n)
    ensures r in all
    decreases n
  {
    if 0 < n {
      var q :| ReachedIn(c, seeds, q, n - 1) && r in Inherits(c, q);
      StaysInside(c, seeds, all, q, n - 1);
    }
  }

  /** The finitely many roles a closure can meet. */
  lemma Universe(c: Config, seeds: seq<string>) returns (all: set<string>)
    ensures forall r :: r in seeds ==> r in all
    ensures forall q, r :: r in Inherits(c, q) ==> r in all
  {
    all := (set r | r in seeds) + (set q, r | q in c.roles && r in c.roles[q].inherits :: r);
  }

  // ---------------------------------------------------------------------------
  // The worklist

  /** The marked roles in order; `level` gives the distance at which each was marked. */
  ghost predicate Marked(c: Config, seeds: seq<string>, result: seq<string>, level: map<string, nat>) {
    && (forall r :: r in result <==> r in level)
    && (forall i, j :: 0 <= i < j < |result| ==> result[i] != result[j])
    && (forall i, j :: 0 <= i <= j < |result| ==> level[result[i]] <= level[result[j]])
    && (forall r :: r in level ==> ReachedIn(c, seeds, r, level[r]))
  }

  /** The queued roles; `due` gives the distance at which each was found, which never falls and spreads by one. */
  ghost predicate Queued(c: Config, seeds: seq<string>, queue: seq<string>, due: seq<nat>) {
    && |due| == |queue|
    && (forall i, j :: 0 <= i <= j < |due| ==> due[i] <= due[j] <= due[i] + 1)
    && (forall i :: 0 <= i < |queue| ==> ReachedIn(c, seeds, queue[i], due[i]))
  }

  ghost predicate NoLater(level: map<string, nat>, due: seq<nat>) {
    0 < |due| ==> forall r :: r in level ==> level[r] <= due[0]
  }

  /** Found at distance `n` at the latest: marked, or waiting in the queue. */
  ghost predicate Covered(queue: seq<string>, level: map<string, nat>, due: seq<nat>, r: string, n: int)
    requires |due| == |queue|
  {
    (r in level && level[r] <= n) || exists i :: 0 <= i < |queue| && queue[i] == r && due[i] <= n
  }

  ghost predicate Complete(c: Config, seeds: seq<string>, queue: seq<string>, level: map<string, nat>, due: seq<nat>)
    requires |due| == |queue|
  {
    && (forall r :: r in seeds ==> Covered(queue, level, due, r, 0))
    && (forall q, r :: q in level && r in Inherits(c, q) ==> Covered(queue, level, due, r, level[q] + 1))
  }

  ghost predicate Inv(c: Config, seeds: seq<string>, result: seq<string>, queue: seq<string>,
                      level: map<string, nat>, due: seq<nat>) {
    && Marked(c, seeds, result, level) && Queued(c, seeds, queue, due) && NoLater(level, due)
    && Complete(c, seeds, queue, level, due)
  }

  /** Whatever is closer than everything queued is already marked, no later than its distance. */
  lemma {:induction false} CloserIsMarked(c: Config, seeds: seq<string>, queue: seq<string>, level: map<string, nat>,
                                          due: seq<nat>, r: string, n: nat)
    requires |due| == |queue| && Complete(c, seeds, queue, level, due)
    requires forall i :: 0 <= i < |due| ==> n < due[i]
    requires ReachedIn(c, seeds, r, n)
    ensures r in level && level[r] <= n
    decreases n
  {
    if n == 0 {
      assert Covered(queue, level, due, r, 0);
    } else {
      var q :| ReachedIn(c, seeds, q, n - 1) && r in Inherits(c, q);
      CloserIsMarked(c, seeds, queue, level, due, q, n - 1);
      assert Covered(queue, level, due, r, level[q] + 1);
    }
  }

  ghost function Repeat(n: nat, d: nat): (ds: seq<nat>)
    ensures |ds| == n && forall i :: 0 <= i < n ==> ds[i] == d
  {
    seq(n, _ => d)
  }

  /** The roles not yet marked, in order. */
  function Unseen(rs: seq<string>, seen: set<string>): seq<string> {
    if rs == [] then []
    else Unseen(rs[..|rs| - 1], seen) + (if rs[|rs| - 1] !in seen then [rs[|rs| - 1]] else [])
  }

  lemma {:induction false} UnseenMembers(rs: seq<string>, seen: set<string>)
    ensures forall r :: r in Unseen(rs, seen) <==> r in rs && r !in seen
  {
    if rs != [] {
      UnseenMembers(rs[..|rs| - 1], seen);
      assert rs == rs[..|rs| - 1] + [rs[|rs| - 1]];
    }
  }

  /** What was covered stays so when the head of the queue is marked and the rest stays queued. */
  lemma StillCovered(queue: seq<string>, level: map<string, nat>, due: seq<nat>,
                     queue': seq<string>, level': map<string, nat>, due': seq<nat>, r: string, n: int)
    requires |due| == |queue| && |due'| == |queue'| && 0 < |queue|
    requires queue[1..] <= queue' && due[1..] <= due'
    requires forall q :: q in level ==> q in level' && level'[q] <= level[q]
    requires queue[0] in level' && level'[queue[0]] <= due[0]
    requires Covered(queue, level, due, r, n)
    ensures Covered(queue', level', due', r, n)
  {
    if !(r in level && level[r] <= n) {
      var i :| 0 <= i < |queue| && queue[i] == r && due[i] <= n;
      if i > 0 {
        assert queue'[i - 1] == queue[1..][i - 1] && due'[i - 1] == due[1..][i - 1];
      }
    }
  }

  /** Dropping a role that was marked since it was queued. */
  lemma DropKeeps(c: Config, seeds: seq<string>, result: seq<string>,
                  queue: seq<string>, level: map<string, nat>, due: seq<nat>)
    requires Inv(c, seeds, result, queue, level, due)
    requires 0 < |queue| && queue[0] in level
    ensures Inv(c, seeds, result, queue[1..], level, due[1..])
  {
    forall r, n: int | Covered(queue, level, due, r, n) ensures Covered(queue[1..], level, due[1..], r, n) {
      StillCovered(queue, level, due, queue[1..], level, due[1..], r, n);
    }
  }

  lemma VisitMarked(c: Config, seeds: seq<string>, result: seq<string>, level: map<string, nat>, r: string, d: nat)
    requires Marked(c, seeds, result, level) && ReachedIn(c, seeds, r, d) && r !in level
    requires forall q :: q in level ==> level[q] <= d
    ensures Marked(c, seeds, result + [r], level[r := d])
  {
    var done, level' := result + [r], level[r := d];
    forall i, j | 0 <= i <= j < |done| ensures level'[done[i]] <= level'[done[j]] {
      assert i < |result| ==> done[i] in level;
      assert j < |result| ==> done[j] in level;
    }
    forall i, j | 0 <= i < j < |done| ensures done[i] != done[j] {
      assert done[i] in result;
    }
  }

  lemma VisitQueued(c: Config, seeds: seq<string>, queue: seq<string>, due: seq<nat>, kids: seq<string>)
    requires Queued(c, seeds, queue, due) && 0 < |queue|
    requires forall k :: k in kids ==> k in Inherits(c, queue[0])
    ensures Queued(c, seeds, queue[1..] + kids, due[1..] + Repeat(|kids|, due[0] + 1))
  {
    var current, d := queue[0], due[0];
    var queue', due' := queue[1..] + kids, due[1..] + Repeat(|kids|, d + 1);
    assert ReachedIn(c, seeds, current, d);
    forall i | 0 <= i < |queue'| ensures ReachedIn(c, seeds, queue'[i], due'[i]) && d <= due'[i] <= d + 1 {
      if i < |queue| - 1 {
        assert queue'[i] == queue[i + 1] && due'[i] == due[i + 1];
      } else {
        assert queue'[i] in kids && due'[i] == d + 1;
      }
    }
    forall i, j | 0 <= i <= j < |due'| ensures due'[i] <= due'[j] <= due'[i] + 1 {
      if j < |queue| - 1 {
        assert due'[i] == due[i + 1] && due'[j] == due[j + 1];
      }
    }
  }

  /** Marking the head of the queue at its distance `d` and queueing its unmarked heirs at `d + 1`. */
  lemma VisitKeeps(c: Config, seeds: seq<string>, result: seq<string>,
                   queue: seq<string>, level: map<string, nat>, due: seq<nat>, kids: seq<string>)
    requires Inv(c, seeds, result, queue, level, due)
    requires 0 < |queue| && queue[0] !in level
    requires kids == Unseen(Inherits(c, queue[0]), level.Keys + {queue[0]})
    ensures Inv(c, seeds, result + [queue[0]], queue[1..] + kids,
                level[queue[0] := due[0]], due[1..] + Repeat(|kids|, due[0] + 1))
  {
    UnseenMembers(Inherits(c, queue[0]), level.Keys + {queue[0]});
    assert ReachedIn(c, seeds, queue[0], due[0]);
    VisitMarked(c, seeds, result, level, queue[0], due[0]);
    VisitQueued(c, seeds, queue, due, kids);
    VisitComplete(c, seeds, queue, level, due, kids);
    var due' := due[1..] + Repeat(|kids|, due[0] + 1);
    if 0 < |due'| {
      assert due'[0] == if 1 < |due| then due[1] else due[0] + 1;
    }
  }

  lemma VisitComplete(c: Config, seeds: seq<string>, queue: seq<string>, level: map<string, nat>, due: seq<nat>,
                      kids: seq<string>)
    requires |due| == |queue| && 0 < |queue| && queue[0] !in level
    requires Complete(c, seeds, queue, level, due) && NoLater(level, due)
    requires forall r :: r in kids <==> r in Inherits(c, queue[0]) && r !in level.Keys + {queue[0]}
    ensures Complete(c, seeds, queue[1..] + kids, level[queue[0] := due[0]], due[1..] + Repeat(|kids|, due[0] + 1))
  {
    var current, d := queue[0], due[0];
    var queue', level', due' := queue[1..] + kids, level[current := d], due[1..] + Repeat(|kids|, d + 1);
    forall r, n: int | Covered(queue, level, due, r, n) ensures Covered(queue', level', due', r, n) {
      StillCovered(queue, level, due, queue', level', due', r, n);
    }
    forall r | r in Inherits(c, current) ensures Covered(queue', level', due', r, d + 1) {
      if r !in level' {
        assert r in kids;
        var i :| 0 <= i < |kids| && kids[i] == r;
        assert queue'[|queue| - 1 + i] == r && due'[|queue| - 1 + i] == d + 1;
      }
    }
  }

  /** The shortest distances of a sequence of roles never fall. */
  ghost predicate NearestFirst(c: Config, seeds: seq<string>, result: seq<string>) {
    forall i, j, d: nat, e: nat | 0 <= i <= j < |result|
      && Distance(c, seeds, result[i], d) && Distance(c, seeds, result[j], e) :: d <= e
  }

  /** Each reachable role exactly once, nearest first. */
  ghost predicate Exact(c: Config, seeds: seq<string>, result: seq<string>) {
    && (forall i, j :: 0 <= i < j < |result| ==> result[i] != result[j])
    && (forall r :: r in result <==> Reachable(c, seeds, r))
    && NearestFirst(c, seeds, result)
  }

  lemma ClosureIsExact(c: Config, seeds: seq<string>, result: seq<string>, level: map<string, nat>)
    requires Inv(c, seeds, result, [], level, [])
    ensures Exact(c, seeds, result)
  {
    forall r | Reachable(c, seeds, r) ensures r in result {
      var n: nat :| ReachedIn(c, seeds, r, n);
      CloserIsMarked(c, seeds, [], level, [], r, n);
    }
    forall r, d: nat | r in result && Distance(c, seeds, r, d) ensures d == level[r] {
      CloserIsMarked(c, seeds, [], level, [], r, d);
    }
  }

  lemma StartInv(c: Config, seeds: seq<string>)
    ensures Inv(c, seeds, [], seeds, map[], Repeat(|seeds|, 0))
  {
    var due := Repeat(|seeds|, 0);
    forall r | r in seeds ensures Covered(seeds, map[], due, r, 0) {
      var i :| 0 <= i < |seeds| && seeds[i] == r;
      assert due[i] == 0;
    }
  }

  /** No edge leaves the set. */
  ghost predicate Closed(c: Config, all: set<string>) {
    forall q, r :: r in Inherits(c, q) ==> r in all
  }

  /** The worklist as a function. It ends on every graph, cyclic ones included: each step marks a new role or
      shortens the queue. */
  ghost function Drain(c: Config, all: set<string>, queue: seq<string>, seen: set<string>,
                       result: seq<string>): seq<string>
    requires Closed(c, all) && forall r :: r in queue ==> r in all
    decreases all - seen, |queue|
  {
    if queue == [] then result
    else if queue[0] in seen then Drain(c, all, queue[1..], seen, result)
    else
      var kids := Unseen(Inherits(c, queue[0]), seen + {queue[0]});
      UnseenMembers(Inherits(c, queue[0]), seen + {queue[0]});
      Drain(c, all, queue[1..] + kids, seen + {queue[0]}, result + [queue[0]])
  }

  lemma DrainVisit(c: Config, all: set<string>, queue: seq<string>, seen: set<string>, result: seq<string>)
    requires Closed(c, all) && forall r :: r in queue ==> r in all
    requires queue != [] && queue[0] !in seen
    ensures var next := queue[1..] + Unseen(Inherits(c, queue[0]), seen + {queue[0]});
            && (forall r :: r in next ==> r in all)
            && Drain(c, all, queue, seen, result) == Drain(c, all, next, seen + {queue[0]}, result + [queue[0]])
  {
    UnseenMembers(Inherits(c, queue[0]), seen + {queue[0]});
  }

  lemma {:induction false} DrainIsExact(c: Config, all: set<string>, seeds: seq<string>, queue: seq<string>,
                                        seen: set<string>, result: seq<string>, level: map<string, nat>, due: seq<nat>)
    requires Closed(c, all) && forall r :: r in queue ==> r in all
    requires Inv(c, seeds, result, queue, level, due) && seen == level.Keys
    ensures Exact(c, seeds, Drain(c, all, queue, seen, result))
    decreases all - seen, |queue|
  {
    if queue == [] {
      ClosureIsExact(c, seeds, result, level);
    } else if queue[0] in seen {
      DropKeeps(c, seeds, result, queue, level, due);
      DrainIsExact(c, all, seeds, queue[1..], seen, result, level, due[1..]);
    } else {
      var kids := Unseen(Inherits(c, queue[0]), seen + {queue[0]});
      DrainVisit(c, all, queue, seen, result);
      UnseenMembers(Inherits(c, queue[0]), seen + {queue[0]});
      VisitKeeps(c, seeds, result, queue, level, due, kids);
      var marked := level[queue[0] := due[0]];
      assert seen + {queue[0]} == marked.Keys;
      DrainIsExact(c, all, seeds, queue[1..] + kids, seen + {queue[0]}, result + [queue[0]],
                   marked, due[1..] + Repeat(|kids|, due[0] + 1));
    }
  }

  lemma ClosureFromSeeds(c: Config, all: set<string>, seeds: seq<string>)
    requires Closed(c, all) && forall r :: r in seeds ==> r in all
    ensures Exact(c, seeds, Drain(c, all, seeds, {}, []))
  {
    StartInv(c, seeds);
    DrainIsExact(c, all, seeds, seeds, {}, [], map[], Repeat(|seeds|, 0));
  }

  /** The inner loop of `collectRoles`. */
  method AppendUnseen(inherits: seq<string>, seen: set<string>, queue: seq<string>) returns (longer: seq<string>)
    ensures longer == queue + Unseen(inherits, seen)
  {
    longer := queue;
    for i := 0 to |inherits|
      invariant longer == queue + Unseen(inherits[..i], seen)
    {
      assert inherits[..i + 1][..i] == inherits[..i];
      if inherits[i] !in seen {
        longer := longer + [inherits[i]];
      }
    }
    assert inherits[..|inherits|] == inherits;
  }

  /** `collectRoles`: each role reachable from the seeds exactly once, nearest first. */
  method CollectRoles(c: Config, roles: seq<string>) returns (result: seq<string>)
    ensures Exact(c, Seeds(c, roles), result)
  {
    ghost var all: set<string>;
    all := Universe(c, Seeds(c, roles));
    var seen: set<string> := {};
    result := [];
    var rolesToProcess := roles;
    if |rolesToProcess| == 0 && c.defaultRole != "" {
      rolesToProcess := rolesToProcess + [c.defaultRole];
    }
    assert rolesToProcess == Seeds(c, roles);
    ClosureFromSeeds(c, all, rolesToProcess);
    while |rolesToProcess| > 0
      invariant forall r :: r in rolesToProcess ==> r in all
      invariant Drain(c, all, rolesToProcess, seen, result) == Drain(c, all, Seeds(c, roles), {}, [])
      decreases all - seen, |rolesToProcess|
    {
      var current := rolesToProcess[0];
      ghost var rest := rolesToProcess[1..];
      rolesToProcess := rolesToProcess[1..];
      if current in seen {
        continue;
      }
      seen := seen + {current};
      result := result + [current];
      UnseenMembers(Inherits(c, current), seen);
      if current in c.roles {
        rolesToProcess := AppendUnseen(c.roles[current].inherits, seen, rolesToProcess);
      }
      assert rolesToProcess == rest + Unseen(Inherits(c, current), seen);
    }
  }

  // ---------------------------------------------------------------------------
  // Patterns and permissions

  predicate EndsInStar(s: string) {
    s != [] && s[|s| - 1] == '*'
  }

  /** `matchPattern`. */
  predicate MatchPattern(pattern: string, value: string) {
    if pattern == "*" then true
    else if EndsInStar(pattern) then pattern[..|pattern| - 1] <= value
    else pattern == value
  }

  /** Matching in which every `*` stands for any characters. */
  predicate Glob(pattern: string, value: string)
    decreases |pattern| + |value|
  {
    if pattern == [] then value == []
    else if pattern[0] == '*' then Glob(pattern[1..], value) || (value != [] && Glob(pattern, value[1..]))
    else value != [] && value[0] == pattern[0] && Glob(pattern[1..], value[1..])
  }

  /** No `*` except perhaps the last character. */
  predicate StarOnlyLast(pattern: string) {
    forall i :: 0 <= i < |pattern| - 1 ==> pattern[i] != '*'
  }

  lemma {:induction false} GlobStar(value: string)
    ensures Glob("*", value)
  {
    assert "*"[1..] == [];
    if value != [] { GlobStar(value[1..]); }
  }

  lemma {:induction false} GlobOfSimple(pattern: string, value: string)
    requires StarOnlyLast(pattern)
    ensures Glob(pattern, value) <==> MatchPattern(pattern, value)
  {
    if pattern == [] {
    } else if |pattern| == 1 && pattern[0] == '*' {
      assert pattern == "*";
      GlobStar(value);
    } else {
      assert pattern[0] != '*';
      if value != [] && value[0] == pattern[0] {
        GlobOfSimple(pattern[1..], value[1..]);
        assert pattern == [pattern[0]] + pattern[1..] && value == [value[0]] + value[1..];
        if EndsInStar(pattern) {
          var p := pattern[..|pattern| - 1];
          assert p == [pattern[0]] + pattern[1..][..|pattern| - 2];
          assert pattern[1..] == "*" ==> pattern[1..][..|pattern| - 2] == [];
          assert p <= value <==> pattern[1..][..|pattern| - 2] <= value[1..];
        }
      } else if EndsInStar(pattern) {
        assert pattern[..|pattern| - 1][0] == pattern[0];
      }
    }
  }

  function DropStars(s: string): string {
    if s == [] then [] else (if s[0] == '*' then [] else [s[0]]) + DropStars(s[1..])
  }

  lemma {:induction false} GlobDropStars(pattern: string)
    ensures Glob(pattern, DropStars(pattern))
    ensures |DropStars(pattern)| <= |pattern|
    ensures '*' in pattern ==> |DropStars(pattern)| < |pattern|
    ensures !StarOnlyLast(pattern) && EndsInStar(pattern) ==> |DropStars(pattern)| < |pattern| - 1
  {
    if pattern != [] {
      GlobDropStars(pattern[1..]);
      assert pattern == [pattern[0]] + pattern[1..];
      if pattern[0] != '*' {
        assert DropStars(pattern)[1..] == DropStars(pattern[1..]);
        if !StarOnlyLast(pattern) {
          var i :| 0 <= i < |pattern| - 1 && pattern[i] == '*';
          assert pattern[1..][i - 1] == '*';
        }
      } else {
        assert DropStars(pattern) == DropStars(pattern[1..]);
        if 1 < |pattern| && EndsInStar(pattern) {
          assert pattern[1..][|pattern| - 2] == '*';
        }
      }
    }
  }

  /** The comment promises `*` as a wildcard for any characters; the code keeps that promise for a pattern, on all
      values, iff the pattern has no `*` before its last character. */
  lemma MatchIsGlobIff(pattern: string)
    ensures (forall value :: MatchPattern(pattern, value) == Glob(pattern, value)) <==> StarOnlyLast(pattern)
  {
    if StarOnlyLast(pattern) {
      forall value ensures MatchPattern(pattern, value) == Glob(pattern, value) { GlobOfSimple(pattern, value); }
    } else {
      var i :| 0 <= i < |pattern| - 1 && pattern[i] == '*';
      GlobDropStars(pattern);
      assert !MatchPattern(pattern, DropStars(pattern));
    }
  }

  /** `strings.Split(s, ":")`. */
  function Split(s: string): (parts: seq<string>)
    ensures 0 < |parts|
  {
    if s == [] then [""]
    else
      var rest := Split(s[1..]);
      if s[0] == ':' then [""] + rest else [[s[0]] + rest[0]] + rest[1..]
  }

  function Join(parts: seq<string>): string
    requires 0 < |parts|
  {
    if |parts| == 1 then parts[0] else parts[0] + ":" + Join(parts[1..])
  }

  lemma JoinCons(c: char, parts: seq<string>)
    requires 0 < |parts|
    ensures Join([[c] + parts[0]] + parts[1..]) == [c] + Join(parts)
  {
    var first, rest := [c] + parts[0], parts[1..];
    var longer := [first] + rest;
    assert longer[0] == first && longer[1..] == rest;
    if |parts| > 1 {
      Regroup([c], parts[0], ":", Join(rest));
      assert Join(longer) == first + ":" + Join(rest);
    }
  }

  lemma Regroup(a: string, b: string, c: string, d: string)
    ensures a + b + c + d == a + (b + c + d)
  {}

  /** Splitting cuts at every colon and loses nothing else. */
  lemma {:induction false} SplitJoin(s: string)
    ensures Join(Split(s)) == s
    ensures forall p :: p in Split(s) ==> ':' !in p
  {
    if s != [] {
      SplitJoin(s[1..]);
      var rest := Split(s[1..]);
      assert s == [s[0]] + s[1..];
      if s[0] == ':' {
        assert ([""] + rest)[1..] == rest;
        assert "" + ":" + Join(rest) == s;
      } else {
        JoinCons(s[0], rest);
        assert rest[0] in rest && forall p :: p in rest[1..] ==> p in rest;
      }
    }
  }

  /** `ToolName`: the resource without a leading "tool:". */
  function ToolName(q: Request): string {
    if "tool:" <= q.resource then q.resource[5..] else q.resource
  }

  predicate ActionMatches(action: string, q: Request) {
    action == "*" || action == q.action
  }

  predicate ResourceMatches(resource: string, q: Request) {
    resource == "*" || resource == q.resource || MatchPattern(resource, ToolName(q))
  }

  predicate MatchPermission(perm: string, q: Request) {
    var parts := Split(perm);
    match |parts|
    case 1 => ActionMatches(parts[0], q)
    case 2 => ResourceMatches(parts[0], q) && ActionMatches(parts[1], q)
    case 3 =>
      && (parts[0] == "*" || parts[0] == q.resourceType)
      && ResourceMatches(parts[1], q) && ActionMatches(parts[2], q)
    case _ => false
  }

  /** The pattern language: a last `*` stands for any rest, and every other character for itself. */
  lemma MatchPatternIff(p: string, value: string)
    ensures MatchPattern(p + "*", value) <==> p <= value
    ensures !EndsInStar(p) ==> (MatchPattern(p, value) <==> value == p)
  {
    assert (p + "*")[..|p|] == p;
  }

  /** `name` is the resource without one leading "tool:". */
  ghost predicate NameOf(q: Request, name: string) {
    q.resource == "tool:" + name || (q.resource == name && !("tool:" <= name))
  }

  lemma NameIsToolName(q: Request, name: string)
    requires NameOf(q, name)
    ensures ToolName(q) == name
  {}

  lemma {:induction false} SplitPlain(s: string)
    requires ':' !in s
    ensures Split(s) == [s]
  {
    if s != [] {
      assert s[0] in s && forall c :: c in s[1..] ==> c in s;
      SplitPlain(s[1..]);
      assert [s[0]] + s[1..] == s && [s[1..]][1..] == [];
    }
  }

  lemma {:induction false} SplitFirst(a: string, rest: string)
    requires ':' !in a
    ensures Split(a + ":" + rest) == [a] + Split(rest)
  {
    var s := a + ":" + rest;
    if a == [] {
      assert s[1..] == rest;
    } else {
      assert a[0] in a && forall c :: c in a[1..] ==> c in a;
      SplitFirst(a[1..], rest);
      assert s[1..] == a[1..] + ":" + rest;
      var parts := [a[1..]] + Split(rest);
      assert [a[0]] + a[1..] == a && parts[1..] == Split(rest);
    }
  }

  /** What the resource part of a permission grants. */
  ghost predicate Covers(r: string, q: Request, name: string) {
    r == "*" || r == q.resource || MatchPattern(r, name)
  }

  /** What a permission of one, two or three parts means; one of more parts grants nothing. */
  lemma PermissionMeans(t: string, r: string, a: string, more: string, q: Request, name: string)
    requires ':' !in t && ':' !in r && ':' !in a && NameOf(q, name)
    ensures MatchPermission(a, q) <==> a == "*" || a == q.action
    ensures MatchPermission(r + ":" + a, q) <==> Covers(r, q, name) && (a == "*" || a == q.action)
    ensures MatchPermission(t + ":" + (r + ":" + a), q) <==>
              (t == "*" || t == q.resourceType) && Covers(r, q, name) && (a == "*" || a == q.action)
    ensures !MatchPermission(t + ":" + (r + ":" + (a + ":" + more)), q)
  {
    NameIsToolName(q, name);
    SplitPlain(a);
    SplitFirst(r, a);
    SplitFirst(t, r + ":" + a);
    SplitFirst(a, more);
    SplitFirst(r, a + ":" + more);
    SplitFirst(t, r + ":" + (a + ":" + more));
  }

  // ---------------------------------------------------------------------------
  // Authorization

  /** What a role permits on its own: a denied tool wins, restrictions must be met, and then some permission must
      match unless the tool itself was listed. */
  ghost predicate Permits(role: Role, q: Request) {
    && !(exists d :: d in role.deniedTools && MatchPattern(d, ToolName(q)))
    && (role.allowedTools == [] || exists t :: t in role.allowedTools && MatchPattern(t, ToolName(q)))
    && (role.allowedActions == [] || exists a :: a in role.allowedActions && ActionMatches(a, q))
    && (role.allowedTools != [] || exists p :: p in role.permissions && MatchPermission(p, q))
  }

  method RolePermits(role: Role, q: Request) returns (ok: bool)
    ensures ok <==> Permits(role, q)
  {
    var toolName := ToolName(q);
    for i := 0 to |role.deniedTools|
      invariant forall k :: 0 <= k < i ==> !MatchPattern(role.deniedTools[k], toolName)
    {
      if MatchPattern(role.deniedTools[i], toolName) {
        assert role.deniedTools[i] in role.deniedTools;
        return false;
      }
    }
    if |role.allowedTools| > 0 {
      var allowed := false;
      for i := 0 to |role.allowedTools|
        invariant !allowed && forall k :: 0 <= k < i ==> !MatchPattern(role.allowedTools[k], toolName)
      {
        if MatchPattern(role.allowedTools[i], toolName) {
          assert role.allowedTools[i] in role.allowedTools;
          allowed := true;
          break;
        }
      }
      if !allowed {
        return false;
      }
    }
    if |role.allowedActions| > 0 {
      var allowed := false;
      for i := 0 to |role.allowedActions|
        invariant !allowed && forall k :: 0 <= k < i ==> !ActionMatches(role.allowedActions[k], q)
      {
        if ActionMatches(role.allowedActions[i], q) {
          assert role.allowedActions[i] in role.allowedActions;
          allowed := true;
          break;
        }
      }
      if !allowed {
        return false;
      }
    }
    for i := 0 to |role.permissions|
      invariant forall k :: 0 <= k < i ==> !MatchPermission(role.permissions[k], q)
    {
      if MatchPermission(role.permissions[i], q) {
        assert role.permissions[i] in role.permissions;
        return true;
      }
    }
    ok := |role.allowedTools| > 0;
  }

  /** What each list of a role does to the decision: permissions add up; a denied tool takes exactly the requests on
      it away; allowed actions keep exactly the requests for one of them; and allowed tools grant exactly the
      requests on one of them, whatever the permissions are. */
  lemma RoleListByList(ps: seq<string>, allowed: seq<string>, denied: seq<string>, actions: seq<string>,
                       inherits: seq<string>, q: Request, name: string)
    requires NameOf(q, name)
    ensures Permits(Role(ps, inherits, [], [], []), q) <==> exists p :: p in ps && MatchPermission(p, q)
    ensures Permits(Role(ps, inherits, allowed, denied, actions), q) <==>
              && Permits(Role(ps, inherits, allowed, [], actions), q)
              && forall d :: d in denied ==> !MatchPattern(d, name)
    ensures Permits(Role(ps, inherits, allowed, denied, actions), q) <==>
              && Permits(Role(ps, inherits, allowed, denied, []), q)
              && (actions == [] || "*" in actions || q.action in actions)
    ensures allowed != [] ==>
              (Permits(Role(ps, inherits, allowed, [], []), q) <==> exists t :: t in allowed && MatchPattern(t, name))
  {
    NameIsToolName(q, name);
  }

  datatype AuthzError = AuthzError(subject: string, resource: string, action: string, reason: string)

  /** Some configured role reachable from the subject's roles permits the request on its own. */
  ghost predicate Allowed(c: Config, roles: seq<string>, q: Request) {
    exists r :: Reachable(c, Seeds(c, roles), r) && r in c.roles && Permits(c.roles[r], q)
  }

  method Authorize(c: Config, q: Request) returns (r: Result<(), AuthzError>)
    ensures q.subject.None? ==> r == Err(AuthzError("", q.resource, q.action, "no identity provided"))
    ensures q.subject.Some? ==>
      r == if Allowed(c, q.subject.value.roles, q) then Ok(())
           else Err(AuthzError(q.subject.value.principal, q.resource, q.action, "no role permits this action"))
  {
    if q.subject.None? {
      return Err(AuthzError("", q.resource, q.action, "no identity provided"));
    }
    var roles := CollectRoles(c, q.subject.value.roles);
    for i := 0 to |roles|
      invariant forall k :: 0 <= k < i && roles[k] in c.roles ==> !Permits(c.roles[roles[k]], q)
    {
      if roles[i] in c.roles {
        var ok := RolePermits(c.roles[roles[i]], q);
        if ok {
          assert roles[i] in roles;
          return Ok(());
        }
      }
    }
    r := Err(AuthzError(q.subject.value.principal, q.resource, q.action, "no role permits this action"));
  }

  /** `d` is `c` with inheritance edges added. */
  ghost predicate MoreEdges(c: Config, d: Config) {
    && d.defaultRole == c.defaultRole && d.roles.Keys == c.roles.Keys
    && forall r :: r in c.roles ==>
         && d.roles[r].(inherits := c.roles[r].inherits) == c.roles[r]
         && forall q :: q in c.roles[r].inherits ==> q in d.roles[r].inherits
  }

  lemma {:induction false} ReachMonotone(c: Config, d: Config, seeds: seq<string>, more: seq<string>, r: string, n: nat)
    requires MoreEdges(c, d) && (forall s :: s in seeds ==> s in more) && ReachedIn(c, seeds, r, n)
    ensures ReachedIn(d, more, r, n)
    decreases n
  {
    if n > 0 {
      var q :| ReachedIn(c, seeds, q, n - 1) && r in Inherits(c, q);
      ReachMonotone(c, d, seeds, more, q, n - 1);
      assert r in Inherits(d, q);
    }
  }

  /** Adding inheritance edges, or roles to a subject that has one, never takes an authorization away. */
  lemma AllowedMonotone(c: Config, d: Config, roles: seq<string>, more: seq<string>, q: Request)
    requires MoreEdges(c, d) && Allowed(c, roles, q)
    requires roles == more || (roles != [] && forall r :: r in roles ==> r in more)
    ensures Allowed(d, more, q)
  {
    var r :| Reachable(c, Seeds(c, roles), r) && r in c.roles && Permits(c.roles[r], q);
    var n: nat :| ReachedIn(c, Seeds(c, roles), r, n);
    assert forall s :: s in Seeds(c, roles) ==> s in Seeds(d, more);
    ReachMonotone(c, d, Seeds(c, roles), Seeds(d, more), r, n);
    assert Permits(d.roles[r], q);
  }

  /** Growing the roles of a subject never takes an authorization away, whatever the configuration and the request,
      iff the subject had a role before or still has none: a first role replaces the default role. */
  lemma MoreRolesNeverWithdrawIff(roles: seq<string>, more: seq<string>)
    requires forall r :: r in roles ==> r in more
    ensures (forall c, q :: Allowed(c, roles, q) ==> Allowed(c, more, q)) <==> roles != [] || more == []
  {
    if roles != [] || more == [] {
      assert roles != [] ==> roles[0] in more;
      forall c, q | Allowed(c, roles, q) ensures Allowed(c, more, q) { AllowedMonotone(c, c, roles, more, q); }
    } else {
      var c, q := FirstRoleWithdraws(more);
    }
  }

  function LongerThanAll(names: seq<string>): (s: string)
    ensures forall n :: n in names ==> |n| < |s|
    ensures 0 < |s|
  {
    if names == [] then "*" else
      assert names == [names[0]] + names[1..];
      names[0] + LongerThanAll(names[1..])
  }

  /** The only role of the configuration is the default role, and it permits everything; none of the given roles,
      of which there is at least one, is that role. */
  lemma FirstRoleWithdraws(more: seq<string>) returns (c: Config, q: Request)
    requires more != []
    ensures Allowed(c, [], q) && !Allowed(c, more, q)
  {
    var d := LongerThanAll(more);
    c := Config(map[d := Role(["*"], [], [], [], [])], d);
    q := Request(None, "", "", "");
    assert Split("*") == ["*"] by {
      assert "*"[1..] == "" && Split("") == [""];
      assert ['*'] + "" == "*" && [""][1..] == [];
    }
    var role := c.roles[d];
    assert role.permissions[0] == "*" && MatchPermission("*", q);
    assert Permits(role, q);
    assert ReachedIn(c, [d], d, 0);
    forall r | Reachable(c, more, r) ensures r in more {
      var n: nat :| ReachedIn(c, more, r, n);
    }
  }

  /** Nor does the default role help a subject whose only role is not configured: it is allowed nothing. */
  lemma FirstRoleReplacesDefault(c: Config, role: string, q: Request)
    requires role !in c.roles
    ensures !Allowed(c, [role], q)
  {
    forall r | Reachable(c, [role], r) ensures r == role {
      var n: nat :| ReachedIn(c, [role], r, n);
      OnlySeed(c, role, r, n);
    }
  }

  lemma {:induction false} OnlySeed(c: Config, role: string, r: string, n: nat)
    requires role !in c.roles && ReachedIn(c, [role], r, n)
    ensures r == role
    decreases n
  {
    if n > 0 {
      var q :| ReachedIn(c, [role], q, n - 1) && r in Inherits(c, q);
      OnlySeed(c, role, q, n - 1);
    }
  }
}
