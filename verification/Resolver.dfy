/** Secret references, from secret/resolver.go. The value is taken after environment expansion. */
module Resolver {
  import opened Wrappers
  import opened Texts

  const PREFIX: string := "secretref:"

  /** `\s` of the regular expression: ASCII white space only. */
  predicate White(c: char) {
    c in "\t\n\r " || c == '\U{000C}'
  }

  // ---------------------------------------------------------------------------
  // Whole references

  /** The index of the first colon, or the length. */
  function Colon(s: string): (i: nat)
    ensures i <= |s| && ':' !in s[..i] && (i < |s| ==> s[i] == ':')
  {
    if s == [] || s[0] == ':' then 0
    else
      var i := 1 + Colon(s[1..]);
      assert s[..i] == [s[0]] + s[1..][..i - 1];
      i
  }

  lemma {:induction false} FirstColon(s: string, i: nat)
    requires i < |s| && ':' !in s[..i] && s[i] == ':'
    ensures Colon(s) == i
  {
    if i > 0 {
      assert s[..i] == [s[0]] + s[1..][..i - 1];
      FirstColon(s[1..], i - 1);
    }
  }

  /** `ParseSecretRef`. */
  function ParseSecretRef(value: string): Option<(string, string)> {
    if !(PREFIX <= value) then None
    else
      var rest := value[|PREFIX|..];
      var i := Colon(rest);
      if i == |rest| || i == 0 || i + 1 == |rest| then None
      else Some((rest[..i], rest[i + 1..]))
  }

  /** Parsing inverts composition, and nothing else parses. */
  lemma ParseIff(value: string, provider: string, ref: string)
    ensures ParseSecretRef(value) == Some((provider, ref)) <==>
            && value == PREFIX + provider + ":" + ref
            && provider != "" && ':' !in provider && ref != ""
  {
    if value == PREFIX + provider + ":" + ref && provider != "" && ':' !in provider && ref != "" {
      var rest := value[|PREFIX|..];
      assert rest == provider + ":" + ref;
      var i := Colon(rest);
      assert rest[..|provider|] == provider;
      FirstColon(rest, |provider|);
      assert rest[..i] == provider && rest[i + 1..] == ref;
    }
    if ParseSecretRef(value) == Some((provider, ref)) {
      var rest := value[|PREFIX|..];
      var i := Colon(rest);
      assert rest == rest[..i] + ":" + rest[i + 1..];
      assert value == PREFIX + rest;
    }
  }

  // ---------------------------------------------------------------------------
  // The inline pattern

  /** The submatch indexes: the reference is `[start, end)`, its provider `[name, colon)`, and its ref
      `[colon + 1, end)`. */
  datatype Match = Match(start: nat, name: nat, colon: nat, end: nat)

  predicate ProviderChar(c: char) {
    c != ':' && !White(c)
  }

  /** The text of the match is one the regular expression describes. */
  ghost predicate Matches(s: string, m: Match) {
    && m.name == m.start + |PREFIX| < m.colon && m.colon + 1 < m.end <= |s|
    && s[m.start..m.name] == PREFIX
    && (forall i :: m.name <= i < m.colon ==> ProviderChar(s[i]))
    && s[m.colon] == ':'
    && (forall i :: m.colon < i < m.end ==> !White(s[i]))
  }

  const WHITE := " \t\n\r\U{000C}"

  lemma SliceCharacters(s: string, i: nat, j: nat, t: string)
    requires i <= j <= |s| && s[i..j] == t
    ensures (forall k :: i <= k < j ==> !White(s[k])) <==> forall c :: c in t ==> c !in WHITE
    ensures (forall k :: i <= k < j ==> ProviderChar(s[k])) <==> forall c :: c in t ==> c != ':' && c !in WHITE
  {
    assert forall c :: White(c) <==> c in WHITE;
    forall k | i <= k < j ensures s[k] == t[k - i] && s[k] in t {}
    forall c | c in t ensures exists k :: i <= k < j && s[k] == c {
      var n :| 0 <= n < |t| && t[n] == c;
      assert s[i + n] == c;
    }
  }

  /** The pattern, on a text composed of what is before the reference, its parts and what is after it. */
  lemma MatchesMeans(before: string, provider: string, ref: string, after: string)
    ensures var name := |before| + |"secretref:"|;
            var colon := name + |provider|;
            Matches(before + "secretref:" + provider + ":" + ref + after,
                    Match(|before|, name, colon, colon + 1 + |ref|)) <==>
              && provider != "" && ref != ""
              && (forall c :: c in provider ==> c != ':' && c !in WHITE)
              && (forall c :: c in ref ==> c !in WHITE)
  {
    var s := before + "secretref:" + provider + ":" + ref + after;
    var name := |before| + |"secretref:"|;
    var colon := name + |provider|;
    var end := colon + 1 + |ref|;
    assert s[|before|..name] == "secretref:" && s[name..colon] == provider && s[colon] == ':';
    assert s[colon + 1..end] == ref;
    SliceCharacters(s, name, colon, provider);
    SliceCharacters(s, colon + 1, end, ref);
    assert (forall i :: colon < i < end ==> !White(s[i])) <==> (forall i :: colon + 1 <= i < end ==> !White(s[i]));
  }

  function ProviderEnd(s: string, i: nat): (e: nat)
    requires i <= |s|
    ensures i <= e <= |s| && (e < |s| ==> !ProviderChar(s[e]))
    ensures forall k :: i <= k < e ==> ProviderChar(s[k])
    decreases |s| - i
  {
    if i == |s| || !ProviderChar(s[i]) then i else ProviderEnd(s, i + 1)
  }

  function RefEnd(s: string, i: nat): (e: nat)
    requires i <= |s|
    ensures i <= e <= |s| && (e < |s| ==> White(s[e]))
    ensures forall k :: i <= k < e ==> !White(s[k])
    decreases |s| - i
  {
    if i == |s| || White(s[i]) then i else RefEnd(s, i + 1)
  }

  /** The match the search finds when it tries position `i`: both repetitions are greedy. */
  function MatchAt(s: string, i: nat): Option<Match>
    requires i <= |s|
  {
    if !(PREFIX <= s[i..]) then None
    else
      var colon := ProviderEnd(s, i + |PREFIX|);
      if colon == i + |PREFIX| || colon == |s| || s[colon] != ':' then None
      else
        var end := RefEnd(s, colon + 1);
        if end == colon + 1 then None else Some(Match(i, i + |PREFIX|, colon, end))
  }

  /** A position either has no match of the pattern, or exactly one longest match, which ends at white space or at
      the end of the text. */
  lemma MatchAtExact(s: string, i: nat)
    requires i <= |s|
    ensures MatchAt(s, i) == None <==> !(exists m: Match :: m.start == i && Matches(s, m))
    ensures MatchAt(s, i).Some? ==>
      var m := MatchAt(s, i).value;
      && m.start == i && Matches(s, m) && (m.end == |s| || White(s[m.end]))
      && forall n: Match :: n.start == i && Matches(s, n) ==> n.colon == m.colon && n.end <= m.end
  {
    forall n: Match | n.start == i && Matches(s, n)
      ensures MatchAt(s, i).Some? && n.colon == MatchAt(s, i).value.colon && n.end <= MatchAt(s, i).value.end
    {
      Greedy(s, n);
    }
    if MatchAt(s, i).Some? {
      assert Matches(s, MatchAt(s, i).value);
    }
  }

  lemma Greedy(s: string, n: Match)
    requires Matches(s, n)
    ensures MatchAt(s, n.start).Some?
    ensures n.colon == MatchAt(s, n.start).value.colon && n.end <= MatchAt(s, n.start).value.end
  {
    var i := n.start;
    assert s[i..][..|PREFIX|] == s[i..i + |PREFIX|];
    ProviderEndIs(s, i + |PREFIX|, n.colon);
    RefEndAtLeast(s, n.colon + 1, n.end);
  }

  lemma {:induction false} ProviderEndIs(s: string, i: nat, e: nat)
    requires i <= e < |s| && !ProviderChar(s[e])
    requires forall k :: i <= k < e ==> ProviderChar(s[k])
    ensures ProviderEnd(s, i) == e
    decreases |s| - i
  {
    if i < e { ProviderEndIs(s, i + 1, e); }
  }

  lemma {:induction false} RefEndAtLeast(s: string, i: nat, e: nat)
    requires i <= e <= |s| && forall k :: i <= k < e ==> !White(s[k])
    ensures e <= RefEnd(s, i)
    decreases |s| - i
  {
    if i < e { RefEndAtLeast(s, i + 1, e); }
  }

  // ---------------------------------------------------------------------------
  // The search

  /** The match at each position of a text, if there is one. */
  type Table = seq<Option<Match>>

  function TableOf(s: string): Table {
    seq(|s|, i requires 0 <= i < |s| => MatchAt(s, i))
  }

  /** Each match lies within the text and in the order of its parts. */
  ghost predicate Sane(t: Table) {
    forall i :: 0 <= i < |t| && t[i].Some? ==>
      var m := t[i].value;
      m.start == i <= m.name <= m.colon < m.end <= |t|
  }

  lemma TableIsSane(s: string)
    ensures Sane(TableOf(s)) && |TableOf(s)| == |s|
  {
    forall i | 0 <= i < |s| { MatchAtExact(s, i); }
  }

  /** `FindAllStringSubmatchIndex`: leftmost first, each search resuming at the end of the last match. */
  function FindAll(t: Table, pos: nat): seq<Match>
    requires Sane(t) && pos <= |t|
    decreases |t| - pos
  {
    if pos == |t| then []
    else
      match t[pos]
      case None => FindAll(t, pos + 1)
      case Some(m) => [m] + FindAll(t, m.end)
  }

  ghost predicate NoMatchIn(t: Table, from: nat, to: nat) {
    to <= |t| && forall i :: from <= i < to ==> t[i] == None
  }

  /** Matches from `pos` on are ordered and disjoint, and no match starts in the gaps around them. */
  ghost predicate Tiles(t: Table, ms: seq<Match>, pos: nat) {
    pos <= |t| &&
    if ms == [] then NoMatchIn(t, pos, |t|)
    else
      && pos <= ms[0].start < |t| && NoMatchIn(t, pos, ms[0].start)
      && t[ms[0].start] == Some(ms[0])
      && Tiles(t, ms[1..], ms[0].end)
  }

  lemma {:induction false} FindAllTiles(t: Table, pos: nat)
    requires Sane(t) && pos <= |t|
    ensures Tiles(t, FindAll(t, pos), pos)
    decreases |t| - pos
  {
    if pos < |t| {
      match t[pos]
      case None => FindAllTiles(t, pos + 1);
      case Some(m) =>
        FindAllTiles(t, m.end);
        assert ([m] + FindAll(t, m.end))[1..] == FindAll(t, m.end);
    }
  }

  /** Where the text before match `k` starts. */
  function GapStart(ms: seq<Match>, k: nat): nat
    requires k <= |ms|
  {
    if k == 0 then 0 else ms[k - 1].end
  }

  lemma {:induction false} TilesFrom(t: Table, ms: seq<Match>, k: nat)
    requires Tiles(t, ms, 0) && k <= |ms|
    ensures Tiles(t, ms[k..], GapStart(ms, k))
  {
    if k > 0 {
      TilesFrom(t, ms, k - 1);
      assert ms[k - 1..][1..] == ms[k..];
    } else {
      assert ms[0..] == ms;
    }
  }

  // ---------------------------------------------------------------------------
  // Resolution

  datatype SecretError =
    | ExpansionFailed(err: string) | ProviderRequired | RefRequired
    | NotRegistered(name: string) | Failed(err: string) | EmptyValue(name: string)

  type Resolved = Result<string, SecretError>

  type Lookup = string -> Result<string, string>

  type Providers = map<string, Lookup>

  datatype Provider = Provider(name: string, lookup: Lookup)

  /** The provider at `i` of the list is not nil, has this name, and no later one has it. */
  ghost predicate LastNamed(ps: seq<Option<Provider>>, i: nat, name: string) {
    && i < |ps| && ps[i].Some? && ps[i].value.name == name
    && forall j :: i < j < |ps| && ps[j].Some? ==> ps[j].value.name != name
  }

  function Registered(ps: seq<Option<Provider>>): Providers {
    if ps == [] then map[]
    else
      var before, p := Registered(ps[..|ps| - 1]), ps[|ps| - 1];
      if p.Some? then before[p.value.name := p.value.lookup] else before
  }

  /** Nil providers are skipped, and of several with one name the last one stays. */
  lemma {:induction false} RegisteredIs(ps: seq<Option<Provider>>, name: string)
    ensures name in Registered(ps) <==> exists i: nat :: LastNamed(ps, i, name)
    ensures forall i: nat :: LastNamed(ps, i, name) ==> Registered(ps)[name] == ps[i].value.lookup
  {
    if ps != [] {
      var n := |ps| - 1;
      var before := ps[..n];
      RegisteredIs(before, name);
      if ps[n].Some? && ps[n].value.name == name {
        assert LastNamed(ps, n, name);
      } else {
        forall i: nat ensures LastNamed(ps, i, name) <==> LastNamed(before, i, name) {
          assert forall j :: 0 <= j < n ==> before[j] == ps[j];
        }
      }
    }
  }

  function Single(providers: Providers, strict: bool, name: string, ref: string): Resolved {
    if Blank(name) then Err(ProviderRequired)
    else if Blank(ref) then Err(RefRequired)
    else if name !in providers then Err(NotRegistered(name))
    else
      match providers[name](ref)
      case Err(e) => Err(Failed(e))
      case Ok(v) => if strict && v == "" then Err(EmptyValue(name)) else Ok(v)
  }

  /** A reference resolves to a value iff its provider and its ref are not blank, that provider is registered and
      answers with the value, and a strict resolver is not given an empty one. The first of these that fails is the
      error. */
  lemma SingleMeans(providers: Providers, strict: bool, name: string, ref: string)
    ensures var r := Single(providers, strict, name, ref);
            var named := exists c :: c in name && !IsSpace(c);
            var given := exists c :: c in ref && !IsSpace(c);
            && (forall v :: r == Ok(v) <==>
                  && named && given && name in providers && providers[name](ref) == Ok(v)
                  && (v == "" ==> !strict))
            && (r == Err(ProviderRequired) <==> !named)
            && (r == Err(RefRequired) <==> named && !given)
            && (r == Err(NotRegistered(name)) <==> named && given && name !in providers)
            && (forall e :: r == Err(Failed(e)) <==>
                  named && given && name in providers && providers[name](ref) == Err(e))
            && (r == Err(EmptyValue(name)) <==>
                  named && given && name in providers && providers[name](ref) == Ok("") && strict)
  {}

  /** How one reference resolves, by provider and ref. */
  type OneRef = (string, string) -> Resolved

  function Singles(providers: Providers, strict: bool): OneRef {
    (name, ref) => Single(providers, strict, name, ref)
  }

  function ResolveMatch(one: OneRef, s: string, m: Match): Resolved
    requires m.name <= m.colon < m.end <= |s|
  {
    one(s[m.name..m.colon], s[m.colon + 1..m.end])
  }

  /** The specification: one pass over the original text from left to right that copies what is not a reference and
      puts each resolution in the place of its reference. Of several failures the rightmost one is reported. */
  function Expand(one: OneRef, t: Table, s: string, pos: nat): Resolved
    requires Sane(t) && |t| == |s| && pos <= |s|
    decreases |s| - pos
  {
    if pos == |s| then Ok("")
    else
      match t[pos]
      case None => Prefixed([s[pos]], Expand(one, t, s, pos + 1))
      case Some(m) =>
        var rest := Expand(one, t, s, m.end);
        if rest.Err? then rest
        else
          match ResolveMatch(one, s, m)
          case Ok(v) => Ok(v + rest.value)
          case Err(e) => Err(e)
  }

  function Prefixed(s: string, r: Resolved): Resolved {
    match r case Ok(u) => Ok(s + u) case Err(e) => Err(e)
  }

  /** A stretch without references is copied. */
  lemma {:induction false} ExpandGap(one: OneRef, t: Table, s: string, from: nat, to: nat)
    requires Sane(t) && |t| == |s| && from <= to && NoMatchIn(t, from, to)
    ensures Expand(one, t, s, from) == Prefixed(s[from..to], Expand(one, t, s, to))
    decreases |s| - from
  {
    if from < to {
      ExpandGap(one, t, s, from + 1, to);
      assert s[from..to] == [s[from]] + s[from + 1..to];
      PrefixedTwice([s[from]], s[from + 1..to], Expand(one, t, s, to));
    } else {
      assert s[from..to] == [];
      PrefixedByNothing(Expand(one, t, s, to));
    }
  }

  lemma PrefixedTwice(a: string, b: string, r: Resolved)
    ensures Prefixed(a, Prefixed(b, r)) == Prefixed(a + b, r)
  {
    if r.Ok? { assert a + (b + r.value) == a + b + r.value; }
  }

  lemma PrefixedByNothing(r: Resolved)
    ensures Prefixed([], r) == r
  {
    if r.Ok? { assert [] + r.value == r.value; }
  }

  /** A failure to the right is the result of the whole. */
  lemma {:induction false} ErrorWins(one: OneRef, t: Table, s: string, ms: seq<Match>, i: nat, e: SecretError)
    requires Sane(t) && |t| == |s| && Tiles(t, ms, 0) && i < |ms| && ms[i].start <= |s|
    requires Expand(one, t, s, ms[i].start) == Err(e)
    ensures Expand(one, t, s, 0) == Err(e)
  {
    TilesFrom(t, ms, i);
    ExpandGap(one, t, s, GapStart(ms, i), ms[i].start);
    if i > 0 {
      TilesFrom(t, ms, i - 1);
      ErrorWins(one, t, s, ms, i - 1, e);
    }
  }

  // ---------------------------------------------------------------------------
  // In place

  function Replace(out: string, m: Match, v: string): (next: string)
    requires m.start <= m.end <= |out|
    ensures m.start <= |next|
  {
    out[..m.start] + v + out[m.end..]
  }

  /** The matches before `i` lie one after the other within the first `n` characters. */
  predicate Fits(ms: seq<Match>, i: nat, n: nat)
    requires i <= |ms|
  {
    i == 0 ||
    var m := ms[i - 1];
    m.start <= m.name <= m.colon < m.end <= n && Fits(ms, i - 1, m.start)
  }

  lemma FitsMore(ms: seq<Match>, i: nat, n: nat, more: nat)
    requires i <= |ms| && n <= more && Fits(ms, i, n)
    ensures Fits(ms, i, more)
  {}

  /** The in-place algorithm: the matches before `i` are spliced into `out`, the last one first. */
  function SpliceAll(one: OneRef, ms: seq<Match>, i: nat, out: string): Resolved
    requires i <= |ms| && Fits(ms, i, |out|)
  {
    if i == 0 then Ok(out)
    else
      var m := ms[i - 1];
      match ResolveMatch(one, out, m)
      case Err(e) => Err(e)
      case Ok(v) =>
        FitsMore(ms, i - 1, m.start, |Replace(out, m, v)|);
        SpliceAll(one, ms, i - 1, Replace(out, m, v))
  }

  /** The text after one round, or its failure. */
  function NextText(one: OneRef, out: string, m: Match): Resolved
    requires m.start <= m.name <= m.colon < m.end <= |out|
  {
    match ResolveMatch(one, out, m)
    case Err(e) => Err(e)
    case Ok(v) => Ok(Replace(out, m, v))
  }

  lemma SpliceRound(one: OneRef, ms: seq<Match>, i: nat, out: string)
    requires 0 < i <= |ms| && Fits(ms, i, |out|)
    ensures var m := ms[i - 1];
      && m.start <= m.name <= m.colon < m.end <= |out|
      && match NextText(one, out, m)
         case Err(e) => SpliceAll(one, ms, i, out) == Err(e)
         case Ok(next) => Fits(ms, i - 1, |next|) && SpliceAll(one, ms, i, out) == SpliceAll(one, ms, i - 1, next)
  {
    var m := ms[i - 1];
    var r := ResolveMatch(one, out, m);
    if r.Ok? { FitsMore(ms, i - 1, m.start, |Replace(out, m, r.value)|); }
  }

  /** Where the part of the text that is still original ends when the matches from `i` on have been spliced. */
  ghost function Done(t: Table, ms: seq<Match>, i: nat): nat
    requires i <= |ms|
  {
    if i == |ms| then |t| else ms[i].start
  }

  lemma NextMatch(t: Table, ms: seq<Match>, i: nat)
    requires Sane(t) && Tiles(t, ms, 0) && 0 < i <= |ms|
    ensures var m, done := ms[i - 1], Done(t, ms, i);
      && m.start < |t| && t[m.start] == Some(m) && NoMatchIn(t, m.end, done)
      && m.start <= m.name <= m.colon < m.end <= done <= |t|
  {
    TilesFrom(t, ms, i);
    TilesFrom(t, ms, i - 1);
  }

  lemma {:induction false} TilesFit(t: Table, ms: seq<Match>, i: nat)
    requires Sane(t) && Tiles(t, ms, 0) && i <= |ms|
    ensures Fits(ms, i, Done(t, ms, i))
  {
    if i > 0 {
      NextMatch(t, ms, i);
      TilesFit(t, ms, i - 1);
    }
  }

  /** `out` is the original text up to `done`, and from there on its expansion. */
  ghost predicate Spliced(one: OneRef, t: Table, s: string, out: string, done: nat)
    requires Sane(t) && |t| == |s|
  {
    && done <= |s| && done <= |out| && out[..done] == s[..done]
    && Expand(one, t, s, done) == Ok(out[done..])
  }

  /** The indexes of an earlier match are still good after the splices behind it. */
  lemma SameSlice(out: string, s: string, done: nat, i: nat, j: nat)
    requires done <= |s| && done <= |out| && out[..done] == s[..done] && i <= j <= done
    ensures out[i..j] == s[i..j]
  {
    assert out[i..j] == out[..done][i..j] && s[i..j] == s[..done][i..j];
  }

  lemma ReplaceParts(out: string, s: string, done: nat, m: Match, v: string)
    requires done <= |s| && done <= |out| && out[..done] == s[..done] && m.start <= m.end <= done
    ensures Replace(out, m, v)[..m.start] == s[..m.start]
    ensures Replace(out, m, v)[m.start..] == v + (s[m.end..done] + out[done..])
  {
    SameSlice(out, s, done, m.end, done);
    SameSlice(out, s, done, 0, m.start);
    assert out[m.end..] == out[m.end..done] + out[done..];
    assert Replace(out, m, v)[m.start..] == v + out[m.end..];
  }

  lemma SpliceOne(one: OneRef, t: Table, s: string, m: Match, out: string, done: nat) returns (r: Resolved)
    requires Sane(t) && |t| == |s| && Spliced(one, t, s, out, done)
    requires m.start < |t| && t[m.start] == Some(m) && m.end <= done && NoMatchIn(t, m.end, done)
    ensures r == ResolveMatch(one, out, m)
    ensures r.Err? ==> Expand(one, t, s, m.start) == Err(r.error)
    ensures r.Ok? ==> Spliced(one, t, s, Replace(out, m, r.value), m.start)
  {
    ExpandGap(one, t, s, m.end, done);
    SameSlice(out, s, done, m.name, m.colon);
    SameSlice(out, s, done, m.colon + 1, m.end);
    r := ResolveMatch(one, s, m);
    if r.Ok? { ReplaceParts(out, s, done, m, r.value); }
  }

  /** Splicing from right to left computes what the left-to-right pass specifies. */
  lemma {:induction false} SpliceIsExpand(one: OneRef, t: Table, s: string, ms: seq<Match>, i: nat, out: string)
    requires Sane(t) && |t| == |s| && Tiles(t, ms, 0) && i <= |ms| && Fits(ms, i, |out|)
    requires Spliced(one, t, s, out, Done(t, ms, i))
    ensures SpliceAll(one, ms, i, out) == Expand(one, t, s, 0)
  {
    var done := Done(t, ms, i);
    if i == 0 {
      TilesFrom(t, ms, 0);
      ExpandGap(one, t, s, 0, done);
      assert out == s[..done] + out[done..] && s[0..done] == s[..done];
    } else {
      var m := ms[i - 1];
      NextMatch(t, ms, i);
      var r := SpliceOne(one, t, s, m, out, done);
      if r.Err? {
        ErrorWins(one, t, s, ms, i - 1, r.error);
      } else {
        FitsMore(ms, i - 1, m.start, |Replace(out, m, r.value)|);
        SpliceIsExpand(one, t, s, ms, i - 1, Replace(out, m, r.value));
      }
    }
  }

  /** What inline resolution of a text means. */
  function Inline(providers: Providers, strict: bool, s: string): Resolved {
    TableIsSane(s);
    Expand(Singles(providers, strict), TableOf(s), s, 0)
  }

  lemma {:induction false} InPlaceIsInline(providers: Providers, strict: bool, s: string) returns (ms: seq<Match>)
    ensures Sane(TableOf(s)) && ms == FindAll(TableOf(s), 0)
    ensures Fits(ms, |ms|, |s|) && SpliceAll(Singles(providers, strict), ms, |ms|, s) == Inline(providers, strict, s)
  {
    TableIsSane(s);
    var t := TableOf(s);
    ms := FindAll(t, 0);
    FindAllTiles(t, 0);
    TilesFit(t, ms, |ms|);
    assert s[|s|..] == "";
    SpliceIsExpand(Singles(providers, strict), t, s, ms, |ms|, s);
  }

  // ---------------------------------------------------------------------------
  // What the result looks like

  ghost predicate Ordered(ms: seq<Match>, pos: nat, n: nat) {
    pos <= n &&
    (ms == [] ||
     (pos <= ms[0].start <= ms[0].name <= ms[0].colon < ms[0].end && Ordered(ms[1..], ms[0].end, n)))
  }

  ghost predicate Resolves(one: OneRef, s: string, m: Match) {
    m.name <= m.colon < m.end <= |s| && ResolveMatch(one, s, m).Ok?
  }

  /** The gaps of the text, interleaved with the resolutions of its references. */
  ghost function Weave(one: OneRef, s: string, ms: seq<Match>, pos: nat): string
    requires Ordered(ms, pos, |s|) && forall k :: 0 <= k < |ms| ==> Resolves(one, s, ms[k])
  {
    if ms == [] then s[pos..]
    else
      assert Resolves(one, s, ms[0]);
      s[pos..ms[0].start] + ResolveMatch(one, s, ms[0]).value + Weave(one, s, ms[1..], ms[0].end)
  }

  lemma {:induction false} TilesOrdered(t: Table, ms: seq<Match>, pos: nat)
    requires Sane(t) && Tiles(t, ms, pos)
    ensures Ordered(ms, pos, |t|)
  {
    if ms != [] { TilesOrdered(t, ms[1..], ms[0].end); }
  }

  /** The pass from one reference to the next. */
  lemma ExpandFirst(one: OneRef, t: Table, s: string, ms: seq<Match>, pos: nat)
    requires Sane(t) && |t| == |s| && Tiles(t, ms, pos) && ms != []
    ensures var m, rest := ms[0], Expand(one, t, s, ms[0].end);
      && m.name <= m.colon < m.end <= |s| && pos <= m.start <= |s|
      && Expand(one, t, s, pos) ==
           if rest.Err? then rest
           else if ResolveMatch(one, s, m).Err? then ResolveMatch(one, s, m)
           else Ok(s[pos..m.start] + ResolveMatch(one, s, m).value + rest.value)
  {
    var m := ms[0];
    ExpandGap(one, t, s, pos, m.start);
    var r, rest := ResolveMatch(one, s, m), Expand(one, t, s, m.end);
    if r.Ok? && rest.Ok? {
      assert s[pos..m.start] + (r.value + rest.value) == s[pos..m.start] + r.value + rest.value;
    }
  }

  /** Resolution succeeds iff every reference of the original text resolves, and then puts the resolutions in their
      places. */
  lemma {:induction false} ExpandIsWeave(one: OneRef, t: Table, s: string, ms: seq<Match>, pos: nat)
    requires Sane(t) && |t| == |s| && Tiles(t, ms, pos)
    ensures Ordered(ms, pos, |s|)
    ensures Expand(one, t, s, pos).Ok? <==> forall k :: 0 <= k < |ms| ==> Resolves(one, s, ms[k])
    ensures Expand(one, t, s, pos).Ok? ==>
      Expand(one, t, s, pos) == Ok(Weave(one, s, ms, pos))
  {
    TilesOrdered(t, ms, pos);
    if ms == [] {
      ExpandGap(one, t, s, pos, |s|);
      assert s[pos..|s|] + "" == s[pos..];
    } else {
      ExpandFirst(one, t, s, ms, pos);
      ExpandIsWeave(one, t, s, ms[1..], ms[0].end);
      if Expand(one, t, s, pos).Ok? {
        forall k | 0 <= k < |ms| ensures Resolves(one, s, ms[k]) {
          if k > 0 { assert ms[k] == ms[1..][k - 1]; }
        }
      } else if Resolves(one, s, ms[0]) {
        var k :| 0 <= k < |ms[1..]| && !Resolves(one, s, ms[1..][k]);
        assert ms[k + 1] == ms[1..][k];
      }
    }
  }

  /** A failure is that of the rightmost reference that fails. */
  lemma {:induction false} ErrorIsRightmost(one: OneRef, t: Table, s: string, ms: seq<Match>, pos: nat) returns (k: nat)
    requires Sane(t) && |t| == |s| && Tiles(t, ms, pos)
    requires Expand(one, t, s, pos).Err?
    ensures k < |ms| && ms[k].name <= ms[k].colon < ms[k].end <= |s|
    ensures Expand(one, t, s, pos) == ResolveMatch(one, s, ms[k])
    ensures forall j :: k < j < |ms| ==> Resolves(one, s, ms[j])
  {
    if ms == [] {
      ExpandGap(one, t, s, pos, |s|);
      assert false;
    } else {
      ExpandFirst(one, t, s, ms, pos);
      if Expand(one, t, s, ms[0].end).Err? {
        k := ErrorIsRightmost(one, t, s, ms[1..], ms[0].end);
        k := k + 1;
        forall j | k < j < |ms| ensures Resolves(one, s, ms[j]) { assert ms[j] == ms[1..][j - 1]; }
      } else {
        k := 0;
        ExpandIsWeave(one, t, s, ms[1..], ms[0].end);
        forall j | 0 < j < |ms| ensures Resolves(one, s, ms[j]) { assert ms[j] == ms[1..][j - 1]; }
      }
    }
  }

  ghost predicate NoWhite(s: string) {
    forall i :: 0 <= i < |s| ==> !White(s[i])
  }

  /** The parts of a whole reference, as a match of the pattern. */
  function WholeMatch(provider: string, ref: string): Match {
    Match(0, |PREFIX|, |PREFIX| + |provider|, |PREFIX| + |provider| + 1 + |ref|)
  }

  lemma WholeMatches(value: string, provider: string, ref: string)
    requires ParseSecretRef(value) == Some((provider, ref))
    ensures var m := WholeMatch(provider, ref);
      && m.end == |value| && value[m.name..m.colon] == provider && value[m.colon + 1..m.end] == ref
      && (Matches(value, m) <==> NoWhite(value))
  {
    var m := WholeMatch(provider, ref);
    ParseIff(value, provider, ref);
    assert value[m.name..m.colon] == provider && value[m.colon + 1..m.end] == ref;
    assert value[0..m.name] == PREFIX && value[m.colon] == ':';
    forall i | m.name <= i < m.colon ensures value[i] != ':' { assert value[i] == provider[i - m.name]; }
    if Matches(value, m) {
      forall i | 0 <= i < |value| ensures !White(value[i]) {
        if i < |PREFIX| { PrefixNotWhite(i); }
      }
    }
  }

  /** A whole reference is also the one inline match of its own text iff it contains no ASCII white space; only
      then does inline resolution ask the same provider for the same ref. */
  lemma WholeIsInlineIff(value: string, provider: string, ref: string)
    requires ParseSecretRef(value) == Some((provider, ref))
    ensures Sane(TableOf(value))
    ensures FindAll(TableOf(value), 0) == [WholeMatch(provider, ref)] <==> NoWhite(value)
    ensures NoWhite(value) ==>
      forall providers, strict :: Inline(providers, strict, value) == Single(providers, strict, provider, ref)
  {
    TableIsSane(value);
    var t := TableOf(value);
    var m := WholeMatch(provider, ref);
    WholeMatches(value, provider, ref);
    MatchAtExact(value, 0);
    FindAllTiles(t, 0);
    assert t[0] == MatchAt(value, 0);
    if NoWhite(value) {
      assert t[0] == Some(m);
      assert FindAll(t, |value|) == [];
      forall providers, strict
        ensures Inline(providers, strict, value) == Single(providers, strict, provider, ref)
      {
        InlineOneMatch(providers, strict, value, m);
      }
    }
  }

  lemma InlineOneMatch(providers: Providers, strict: bool, value: string, m: Match)
    requires 0 < |value| && m.name <= m.colon < m.end == |value|
    requires TableOf(value)[0] == Some(m)
    ensures Inline(providers, strict, value)
         == Single(providers, strict, value[m.name..m.colon], value[m.colon + 1..m.end])
  {
    TableIsSane(value);
    OneMatch(Singles(providers, strict), TableOf(value), value, m);
  }

  lemma PrefixNotWhite(i: nat)
    requires i < |PREFIX|
    ensures !White(PREFIX[i])
  {
    assert PREFIX == ['s', 'e', 'c', 'r', 'e', 't', 'r', 'e', 'f', ':'];
  }

  lemma OneMatch(one: OneRef, t: Table, s: string, m: Match)
    requires Sane(t) && |t| == |s| && 0 < |s| && t[0] == Some(m) && m.end == |s|
    ensures Expand(one, t, s, 0) == ResolveMatch(one, s, m)
  {
    var r := ResolveMatch(one, s, m);
    if r.Ok? { assert r.value + "" == r.value; }
  }

  class Resolver {
    var providers: Providers
    const strict: bool

    constructor (strict: bool, initial: seq<Option<Provider>>)
      ensures this.strict == strict && providers == Registered(initial)
    {
      this.strict := strict;
      providers := map[];
      new;
      for k := 0 to |initial|
        invariant providers == Registered(initial[..k])
      {
        assert initial[..k + 1][..k] == initial[..k];
        if initial[k].Some? {
          providers := providers[initial[k].value.name := initial[k].value.lookup];
        }
      }
      assert initial[..|initial|] == initial;
    }

    method Register(provider: Option<Provider>)
      modifies this
      ensures provider == None ==> providers == old(providers)
      ensures provider.Some? ==> providers == old(providers)[provider.value.name := provider.value.lookup]
    {
      if provider == None {
        return;
      }
      providers := providers[provider.value.name := provider.value.lookup];
    }

    method ResolveSingle(name: string, ref: string) returns (r: Resolved)
      ensures r == Single(providers, strict, name, ref)
    {
      if Blank(name) {
        return Err(ProviderRequired);
      }
      if Blank(ref) {
        return Err(RefRequired);
      }
      if name !in providers {
        return Err(NotRegistered(name));
      }
      var resolved := providers[name](ref);
      if resolved.Err? {
        return Err(Failed(resolved.error));
      }
      if strict && resolved.value == "" {
        return Err(EmptyValue(name));
      }
      r := Ok(resolved.value);
    }

    method ResolveInline(value: string) returns (r: Resolved)
      ensures r == Inline(providers, strict, value)
    {
      TableIsSane(value);
      var matches := FindAll(TableOf(value), 0);
      ghost var ms := InPlaceIsInline(providers, strict, value);
      r := SpliceInPlace(value, matches);
    }

    /** The loop of `resolveInline`, from the last match to the first. */
    method SpliceInPlace(value: string, matches: seq<Match>) returns (r: Resolved)
      requires Fits(matches, |matches|, |value|)
      ensures r == SpliceAll(Singles(providers, strict), matches, |matches|, value)
    {
      ghost var one := Singles(providers, strict);
      ghost var goal := SpliceAll(one, matches, |matches|, value);
      var out := value;
      var i := |matches|;
      while i > 0
        invariant 0 <= i <= |matches| && Fits(matches, i, |out|)
        invariant SpliceAll(one, matches, i, out) == goal
      {
        SpliceRound(one, matches, i, out);
        i := i - 1;
        var next := SpliceMatch(out, matches[i]);
        if next.Err? {
          return next;
        }
        out := next.value;
      }
      r := Ok(out);
    }

    /** The body of that loop. */
    method SpliceMatch(out: string, m: Match) returns (r: Resolved)
      requires m.start <= m.name <= m.colon < m.end <= |out|
      ensures r == NextText(Singles(providers, strict), out, m)
    {
      var name := out[m.name..m.colon];
      var ref := out[m.colon + 1..m.end];
      var resolved := ResolveSingle(name, ref);
      if resolved.Err? {
        return Err(resolved.error);
      }
      r := Ok(out[..m.start] + resolved.value + out[m.end..]);
    }

    /** `ResolveValue`, given what the environment expansion of the value yields; the receiver may be nil. */
    static method ResolveValue(resolver: Resolver?, expansion: Result<string, string>) returns (r: Resolved)
      ensures expansion.Err? ==> r == Err(ExpansionFailed(expansion.error))
      ensures expansion.Ok? && resolver == null ==> r == Ok(expansion.value)
      ensures expansion.Ok? && resolver != null ==>
        r == match ParseSecretRef(expansion.value)
             case Some((name, ref)) => Single(resolver.providers, resolver.strict, name, ref)
             case None => Inline(resolver.providers, resolver.strict, expansion.value)
    {
      if expansion.Err? {
        return Err(ExpansionFailed(expansion.error));
      }
      if resolver == null {
        return Ok(expansion.value);
      }
      var parsed := ParseSecretRef(expansion.value);
      if parsed.Some? {
        r := resolver.ResolveSingle(parsed.value.0, parsed.value.1);
      } else {
        r := resolver.ResolveInline(expansion.value);
      }
    }
  }
}
