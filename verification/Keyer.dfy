/** Cache keys: the canonical JSON of cache/keyer.go and its unique readability.

    Texts are sequences of Unicode scalar values; their UTF-8 bytes agree with them on equality and on order. */
module Keyer {
  import opened Wrappers
  import opened Texts

  /** A number token of RFC 8259 section 6: its first character and its characters, all that reading it needs. */
  predicate IsNumber(t: string) {
    0 < |t| && t[0] in "-0123456789" && forall c :: c in t ==> NumberChar(c)
  }

  predicate NumberChar(c: char) {
    c in "-+.eE0123456789"
  }

  type Number = t: string | IsNumber(t) witness "0"

  /** A JSON value. `Unsupported` stands for any value that `json.Marshal` rejects. */
  datatype Value =
    | Null
    | Bool(b: bool)
    | Num(token: Number)
    | Str(s: string)
    | Arr(items: seq<Value>)
    | Obj(fields: map<string, Value>)
    | Unsupported

  predicate Encodable(v: Value) {
    match v
    case Arr(items) => forall x :: x in items ==> Encodable(x)
    case Obj(fields) => forall k :: k in fields ==> Encodable(fields[k])
    case Unsupported => false
    case _ => true
  }

  // ---------------------------------------------------------------------------
  // Sorted keys

  predicate Less(a: string, b: string) {
    b != [] && (a == [] || a[0] < b[0] || (a[0] == b[0] && Less(a[1..], b[1..])))
  }

  lemma {:induction false} LessTotal(a: string, b: string)
    ensures a == b || Less(a, b) || Less(b, a)
    ensures !(Less(a, b) && Less(b, a)) && !Less(a, a)
  {
    if a != [] && b != [] && a[0] == b[0] {
      LessTotal(a[1..], b[1..]);
      assert a == [a[0]] + a[1..] && b == [b[0]] + b[1..];
    }
    if a != [] { LessTotal(a[1..], a[1..]); }
  }

  lemma {:induction false} LessTransitive(a: string, b: string, c: string)
    requires Less(a, b) && Less(b, c)
    ensures Less(a, c)
  {
    if a != [] && a[0] == b[0] == c[0] {
      LessTransitive(a[1..], b[1..], c[1..]);
    }
  }

  ghost predicate Increasing(ks: seq<string>) {
    forall i, j :: 0 <= i < j < |ks| ==> Less(ks[i], ks[j])
  }

  ghost predicate Enumerates(ks: seq<string>, s: set<string>) {
    Increasing(ks) && forall k :: k in ks <==> k in s
  }

  /** Insertion sort stands in for the library's sort; there is only one possible result. */
  function Insert(k: string, ks: seq<string>): seq<string> {
    if ks == [] || Less(k, ks[0]) then [k] + ks else [ks[0]] + Insert(k, ks[1..])
  }

  function SortStrings(ks: seq<string>): seq<string> {
    if ks == [] then [] else Insert(ks[0], SortStrings(ks[1..]))
  }

  lemma {:induction false} InsertKeepsOrder(k: string, ks: seq<string>)
    requires Increasing(ks) && k !in ks
    ensures Increasing(Insert(k, ks))
    ensures forall x :: x in Insert(k, ks) <==> x == k || x in ks
  {
    if ks == [] {
    } else if Less(k, ks[0]) {
      forall j | 0 < j < |ks| ensures Less(k, ks[j]) { LessTransitive(k, ks[0], ks[j]); }
    } else {
      LessTotal(k, ks[0]);
      assert ks == [ks[0]] + ks[1..];
      InsertKeepsOrder(k, ks[1..]);
      var rest := Insert(k, ks[1..]);
      forall j | 0 <= j < |rest| ensures Less(ks[0], rest[j]) {
        assert rest[j] in rest;
        if rest[j] != k {
          var i :| 0 <= i < |ks[1..]| && ks[1..][i] == rest[j];
          assert Less(ks[0], ks[i + 1]);
        }
      }
    }
  }

  lemma {:induction false} SortEnumerates(ks: seq<string>, s: set<string>)
    requires forall i, j :: 0 <= i < j < |ks| ==> ks[i] != ks[j]
    requires forall k :: k in ks <==> k in s
    ensures Enumerates(SortStrings(ks), s)
  {
    if ks != [] {
      assert ks == [ks[0]] + ks[1..];
      SortEnumerates(ks[1..], s - {ks[0]});
      InsertKeepsOrder(ks[0], SortStrings(ks[1..]));
    }
  }

  lemma EmptyEnumeration(ks: seq<string>, s: set<string>)
    requires Enumerates(ks, s)
    ensures ks == [] <==> s == {}
  {
    if ks != [] { assert ks[0] in s; }
  }

  /** A set of keys has only one increasing enumeration. */
  lemma {:induction false} EnumerationUnique(ks: seq<string>, ls: seq<string>, s: set<string>)
    requires Enumerates(ks, s) && Enumerates(ls, s)
    ensures ks == ls
  {
    if ks == [] {
      EmptyEnumeration(ks, s);
      EmptyEnumeration(ls, s);
    } else {
      assert ks[0] in s;
      var i :| 0 <= i < |ls| && ls[i] == ks[0];
      assert ls[0] in s;
      var j :| 0 <= j < |ks| && ks[j] == ls[0];
      LessTotal(ks[0], ls[0]);
      assert ks[0] == ls[0];
      LessTotal(ks[0], ks[0]);
      assert ks == [ks[0]] + ks[1..] && ls == [ls[0]] + ls[1..];
      EnumerationUnique(ks[1..], ls[1..], s - {ks[0]});
    }
  }

  lemma {:induction false} EnumerationExists(s: set<string>)
    ensures exists ks :: Enumerates(ks, s)
  {
    if s == {} {
      assert Enumerates([], s);
    } else {
      var k :| k in s;
      EnumerationExists(s - {k});
      var ks :| Enumerates(ks, s - {k});
      InsertKeepsOrder(k, ks);
      assert Enumerates(Insert(k, ks), s);
    }
  }

  ghost function SortedKeys(s: set<string>): (ks: seq<string>)
    ensures Enumerates(ks, s)
  {
    EnumerationExists(s);
    var ks :| Enumerates(ks, s);
    ks
  }

  // ---------------------------------------------------------------------------
  // The canonical text

  function Hex(n: int): char
    requires 0 <= n < 16
  {
    "0123456789abcdef"[n]
  }

  /** One character of a string as `json.Marshal` writes it, HTML characters and line separators escaped. */
  function Escape(c: char): string {
    if c == '\"' then "\\\""
    else if c == '\\' then "\\\\"
    else if c == '\U{0008}' then "\\b"
    else if c == '\U{000C}' then "\\f"
    else if c == '\n' then "\\n"
    else if c == '\r' then "\\r"
    else if c == '\t' then "\\t"
    else if c < ' ' || c in "<>&" then "\\u00" + [Hex(c as int / 16), Hex(c as int % 16)]
    else if c == '\U{2028}' || c == '\U{2029}' then "\\u202" + [Hex(c as int % 16)]
    else [c]
  }

  function Escapes(s: string): string {
    if s == [] then [] else Escape(s[0]) + Escapes(s[1..])
  }

  function Quote(s: string): string {
    "\"" + Escapes(s) + "\""
  }

  ghost function Text(v: Value): string
    requires Encodable(v)
    decreases v, 1
  {
    match v
    case Null => "null"
    case Bool(b) => if b then "true" else "false"
    case Num(t) => t
    case Str(s) => Quote(s)
    case Arr(items) => "[" + Items(items, true)
    case Obj(fields) => "{" + Members(v, SortedKeys(fields.Keys), true)
  }

  /** The items from here on, up to and including the closing bracket. */
  ghost function Items(xs: seq<Value>, first: bool): string
    requires forall x :: x in xs ==> Encodable(x)
    decreases xs, 0
  {
    if xs == [] then "]"
    else (if first then "" else ",") + Text(xs[0]) + Items(xs[1..], false)
  }

  /** The members of `v` from here on, up to and including the closing brace. */
  ghost function Members(v: Value, ks: seq<string>, first: bool): string
    requires v.Obj? && Encodable(v)
    requires forall k :: k in ks ==> k in v.fields
    decreases v, 0, ks
  {
    if ks == [] then "}"
    else
      (if first then "" else ",") + Quote(ks[0]) + ":" + Text(v.fields[ks[0]])
      + Members(v, ks[1..], false)
  }

  // ---------------------------------------------------------------------------
  // Unique readability

  /** What may follow a value: nothing, or a character no token contains. */
  predicate Stops(p: string) {
    p == [] || p[0] in ",]}"
  }

  lemma Cancel(a: string, p: string, q: string)
    requires a + p == a + q
    ensures p == q
  {
    assert p == (a + p)[|a|..] && q == (a + q)[|a|..];
  }

  function UnHex(h: char): int {
    if h <= '9' then h as int - '0' as int else h as int - 'a' as int + 10
  }

  lemma UnHexHex(n: int)
    requires 0 <= n < 16
    ensures UnHex(Hex(n)) == n
  {}

  /** Reads the first, perhaps escaped, character. */
  function Read(x: string): int
    requires 0 < |x|
  {
    if x[0] != '\\' || |x| < 2 then x[0] as int
    else match x[1]
      case 'b' => 8
      case 'f' => 12
      case 'n' => 10
      case 'r' => 13
      case 't' => 9
      case 'u' => if |x| < 6 then 0 else ((UnHex(x[2]) * 16 + UnHex(x[3])) * 16 + UnHex(x[4])) * 16 + UnHex(x[5])
      case c => c as int
  }

  lemma ReadEscape(c: char, p: string)
    ensures 0 < |Escape(c)| && Escape(c)[0] != '\"'
    ensures Read(Escape(c) + p) == c as int
  {
    var e, x := Escape(c), Escape(c) + p;
    assert forall i :: 0 <= i < |e| ==> x[i] == e[i];
    UnHexHex(c as int % 16);
    if c as int < 256 { UnHexHex(c as int / 16); }
    assert UnHex('0') == 0 && UnHex('2') == 2;
  }

  lemma EscapeUnique(c: char, d: char, p: string, q: string)
    requires Escape(c) + p == Escape(d) + q
    ensures c == d && p == q
  {
    ReadEscape(c, p);
    ReadEscape(d, q);
    Cancel(Escape(c), p, q);
  }

  lemma Regroup(a: string, b: string, c: string, d: string)
    ensures a + b + c + d == a + (b + (c + d)) && a + b + c + d == a + (b + c + d)
  {}

  lemma RegroupFive(a: string, b: string, c: string, d: string, e: string, f: string)
    ensures a + b + c + d + e + f == a + (b + (c + (d + (e + f))))
  {
    Regroup(a, b, c, d + e + f);
    Regroup(a + b + c, d, e, f);
  }

  lemma EscapesStart(s: string, p: string)
    ensures s == [] ==> Escapes(s) + "\"" + p == "\"" + p
    ensures s != [] ==> Escapes(s) + "\"" + p == Escape(s[0]) + (Escapes(s[1..]) + "\"" + p)
    ensures (Escapes(s) + "\"" + p)[0] == '\"' <==> s == []
  {
    if s != [] {
      ReadEscape(s[0], []);
      Regroup(Escape(s[0]), Escapes(s[1..]), "\"", p);
    }
  }

  lemma {:induction false} StringUnique(s: string, t: string, p: string, q: string)
    requires Escapes(s) + "\"" + p == Escapes(t) + "\"" + q
    ensures s == t && p == q
  {
    EscapesStart(s, p);
    EscapesStart(t, q);
    if s == [] {
      Cancel("\"", p, q);
    } else {
      EscapeUnique(s[0], t[0], Escapes(s[1..]) + "\"" + p, Escapes(t[1..]) + "\"" + q);
      StringUnique(s[1..], t[1..], p, q);
      assert s == [s[0]] + s[1..] && t == [t[0]] + t[1..];
    }
  }

  lemma QuoteUnique(s: string, t: string, p: string, q: string)
    requires Quote(s) + p == Quote(t) + q
    ensures s == t && p == q
  {
    Regroup("\"", Escapes(s), "\"", p);
    Regroup("\"", Escapes(t), "\"", q);
    Cancel("\"", Escapes(s) + "\"" + p, Escapes(t) + "\"" + q);
    StringUnique(s, t, p, q);
  }

  /** The length of the longest prefix of number characters. */
  function Munch(x: string): nat {
    if x == [] || !NumberChar(x[0]) then 0 else 1 + Munch(x[1..])
  }

  lemma {:induction false} MunchToken(t: string, p: string)
    requires (forall c :: c in t ==> NumberChar(c)) && Stops(p)
    ensures Munch(t + p) == |t|
  {
    if t == [] {
      assert t + p == p;
    } else {
      assert (t + p)[0] == t[0] && t[0] in t && (t + p)[1..] == t[1..] + p;
      MunchToken(t[1..], p);
    }
  }

  lemma NumberUnique(s: Number, t: Number, p: string, q: string)
    requires s + p == t + q && Stops(p) && Stops(q)
    ensures s == t && p == q
  {
    MunchToken(s, p);
    MunchToken(t, q);
    assert s == (s + p)[..|s|] && t == (t + q)[..|t|];
    Cancel(s, p, q);
  }

  /** The first character tells the kinds of value apart. */
  lemma TextStart(v: Value)
    requires Encodable(v)
    ensures 0 < |Text(v)|
    ensures var c := Text(v)[0];
      && (v.Null? <==> c == 'n')
      && (v.Bool? <==> c in "tf")
      && (v.Num? <==> c in "-0123456789")
      && (v.Str? <==> c == '\"')
      && (v.Arr? <==> c == '[')
      && (v.Obj? <==> c == '{')
  {}

  function Comma(first: bool): string {
    if first then "" else ","
  }

  /** What follows an item, a member or the opening bracket. */
  lemma ItemsSplit(xs: seq<Value>, first: bool, p: string)
    requires forall x :: x in xs ==> Encodable(x)
    ensures var l := Items(xs, first) + p;
      && 0 < |l| && (l[0] == ']' <==> xs == [])
      && (!first ==> l[0] in ",]")
      && l == (if xs == [] then "]" + p else Comma(first) + (Text(xs[0]) + (Items(xs[1..], false) + p)))
  {
    if xs != [] {
      TextStart(xs[0]);
      Regroup(Comma(first), Text(xs[0]), Items(xs[1..], false), p);
    }
  }

  lemma MembersSplit(v: Value, ks: seq<string>, first: bool, p: string)
    requires v.Obj? && Encodable(v) && forall k :: k in ks ==> k in v.fields
    ensures var l := Members(v, ks, first) + p;
      && 0 < |l| && (l[0] == '}' <==> ks == [])
      && (!first ==> l[0] in ",}")
      && l == (if ks == [] then "}" + p
               else Comma(first) + (Quote(ks[0]) + (":" + (Text(v.fields[ks[0]]) + (Members(v, ks[1..], false) + p)))))
  {
    if ks != [] {
      RegroupFive(Comma(first), Quote(ks[0]), ":", Text(v.fields[ks[0]]), Members(v, ks[1..], false), p);
    }
  }

  lemma TextSplit(v: Value, p: string)
    requires Encodable(v)
    ensures v.Arr? ==> Text(v) + p == "[" + (Items(v.items, true) + p)
    ensures v.Obj? ==> Text(v) + p == "{" + (Members(v, SortedKeys(v.fields.Keys), true) + p)
    ensures (Text(v) + p)[0] == Text(v)[0]
  {
    TextStart(v);
  }

  /** Reading is unique: a canonical text followed by anything that may follow it can be read in one way only. */
  lemma {:induction false} TextUnique(v: Value, w: Value, p: string, q: string)
    requires Encodable(v) && Encodable(w) && Stops(p) && Stops(q)
    requires Text(v) + p == Text(w) + q
    ensures v == w && p == q
    decreases v, 1
  {
    TextStart(v);
    TextStart(w);
    TextSplit(v, p);
    TextSplit(w, q);
    match v {
      case Null => Cancel("null", p, q);
      case Bool(b) => BoolUnique(b, w.b, p, q);
      case Num(t) => NumberUnique(t, w.token, p, q);
      case Str(s) => QuoteUnique(s, w.s, p, q);
      case Arr(items) =>
        Cancel("[", Items(items, true) + p, Items(w.items, true) + q);
        ItemsUnique(items, w.items, true, p, q);
      case Obj(fields) =>
        var ks, ls := SortedKeys(fields.Keys), SortedKeys(w.fields.Keys);
        Cancel("{", Members(v, ks, true) + p, Members(w, ls, true) + q);
        MembersUnique(v, w, ks, ls, true, p, q);
        SameFields(fields, w.fields, ks);
    }
  }

  lemma BoolUnique(b: bool, c: bool, p: string, q: string)
    requires (if b then "true" else "false") + p == (if c then "true" else "false") + q
    ensures b == c && p == q
  {
    var x, y := (if b then "true" else "false") + p, (if c then "true" else "false") + q;
    assert x[0] == (if b then 't' else 'f') && y[0] == (if c then 't' else 'f');
    Cancel(if b then "true" else "false", p, q);
  }

  lemma SameFields(m: map<string, Value>, n: map<string, Value>, ks: seq<string>)
    requires Enumerates(ks, m.Keys) && Enumerates(ks, n.Keys)
    requires forall k :: k in ks ==> m[k] == n[k]
    ensures m == n
  {
    assert forall k :: k in m.Keys <==> k in ks;
    assert m.Keys == n.Keys;
  }

  lemma {:induction false} ItemsUnique(xs: seq<Value>, ys: seq<Value>, first: bool, p: string, q: string)
    requires forall x :: x in xs ==> Encodable(x)
    requires forall y :: y in ys ==> Encodable(y)
    requires Items(xs, first) + p == Items(ys, first) + q
    ensures xs == ys && p == q
    decreases xs, 0
  {
    ItemsSplit(xs, first, p);
    ItemsSplit(ys, first, q);
    if xs == [] {
      Cancel("]", p, q);
    } else {
      var l, r := Items(xs[1..], false) + p, Items(ys[1..], false) + q;
      ItemsSplit(xs[1..], false, p);
      ItemsSplit(ys[1..], false, q);
      Cancel(Comma(first), Text(xs[0]) + l, Text(ys[0]) + r);
      TextUnique(xs[0], ys[0], l, r);
      ItemsUnique(xs[1..], ys[1..], false, p, q);
      assert xs == [xs[0]] + xs[1..] && ys == [ys[0]] + ys[1..];
    }
  }

  lemma {:induction false} MembersUnique(v: Value, w: Value, ks: seq<string>, ls: seq<string>, first: bool,
                                         p: string, q: string)
    requires v.Obj? && Encodable(v) && w.Obj? && Encodable(w)
    requires forall k :: k in ks ==> k in v.fields
    requires forall k :: k in ls ==> k in w.fields
    requires Members(v, ks, first) + p == Members(w, ls, first) + q
    ensures ks == ls && p == q
    ensures forall k :: k in ks ==> v.fields[k] == w.fields[k]
    decreases v, 0, ks
  {
    MembersSplit(v, ks, first, p);
    MembersSplit(w, ls, first, q);
    if ks == [] {
      Cancel("}", p, q);
    } else {
      var k, k' := ks[0], ls[0];
      var l, r := Members(v, ks[1..], false) + p, Members(w, ls[1..], false) + q;
      MembersSplit(v, ks[1..], false, p);
      MembersSplit(w, ls[1..], false, q);
      var body, body' := Text(v.fields[k]) + l, Text(w.fields[k']) + r;
      Cancel(Comma(first), Quote(k) + (":" + body), Quote(k') + (":" + body'));
      QuoteUnique(k, k', ":" + body, ":" + body');
      Cancel(":", body, body');
      TextUnique(v.fields[k], w.fields[k'], l, r);
      MembersUnique(v, w, ks[1..], ls[1..], false, p, q);
      assert ks == [k] + ks[1..] && ls == [k'] + ls[1..];
    }
  }

  /** The canonical encoding is injective. */
  lemma CanonicalInjective(v: Value, w: Value)
    requires Encodable(v) && Encodable(w) && Text(v) == Text(w)
    ensures v == w
  {
    assert Text(v) + [] == Text(v) && Text(w) + [] == Text(w);
    TextUnique(v, w, [], []);
  }

  // ---------------------------------------------------------------------------
  // The encoder

  /** Writing one more item keeps what is written and what is left equal to the whole text. */
  lemma WriteItem(text: string, before: string, xs: seq<Value>, i: nat)
    requires i < |xs| && forall x :: x in xs ==> Encodable(x)
    requires text == before + Items(xs[i..], i == 0)
    ensures text == before + Comma(i == 0) + Text(xs[i]) + Items(xs[i + 1..], false)
  {
    assert xs[i..][0] == xs[i] && xs[i..][1..] == xs[i + 1..];
    var c, t, rest := Comma(i == 0), Text(xs[i]), Items(xs[i + 1..], false);
    assert before + (c + t + rest) == before + c + t + rest;
  }

  lemma WriteMember(text: string, before: string, v: Value, ks: seq<string>, i: nat)
    requires i < |ks| && v.Obj? && Encodable(v) && forall k :: k in ks ==> k in v.fields
    requires text == before + Members(v, ks[i..], i == 0)
    ensures text == before + Comma(i == 0) + Quote(ks[i]) + ":" + Text(v.fields[ks[i]]) + Members(v, ks[i + 1..], false)
  {
    assert ks[i..][0] == ks[i] && ks[i..][1..] == ks[i + 1..];
    var c, k, t, rest := Comma(i == 0), Quote(ks[i]), Text(v.fields[ks[i]]), Members(v, ks[i + 1..], false);
    assert before + (c + k + ":" + t + rest) == before + c + k + ":" + t + rest;
  }

  lemma AllEncodable(v: Value, ks: seq<string>)
    requires v.Obj? && (forall k :: k in ks <==> k in v.fields)
    requires forall j :: 0 <= j < |ks| ==> Encodable(v.fields[ks[j]])
    ensures Encodable(v)
  {
    forall k | k in v.fields ensures Encodable(v.fields[k]) {
      var j :| 0 <= j < |ks| && ks[j] == k;
    }
  }

  /** `canonicalize`: the canonical text, or an error iff some part of the value cannot be marshalled. */
  method Canonicalize(v: Value) returns (r: Result<string, ()>)
    ensures r == if Encodable(v) then Ok(Text(v)) else Err(())
    decreases v, 1
  {
    match v {
      case Null => r := Ok("null");
      case Bool(b) => r := Ok(if b then "true" else "false");
      case Num(t) => r := Ok(t);
      case Str(s) => r := Ok(Quote(s));
      case Arr(items) => r := CanonicalizeSlice(v);
      case Obj(fields) => r := CanonicalizeMap(v);
      case Unsupported => r := Err(());
    }
  }

  /** The keys in the order in which the map happens to be ranged over. */
  method RangeKeys(m: map<string, Value>) returns (keys: seq<string>)
    ensures forall i, j :: 0 <= i < j < |keys| ==> keys[i] != keys[j]
    ensures forall k :: k in keys <==> k in m.Keys
  {
    keys := [];
    var rest := m.Keys;
    while rest != {}
      invariant forall i, j :: 0 <= i < j < |keys| ==> keys[i] != keys[j]
      invariant forall k :: k in keys <==> k in m.Keys - rest
      invariant rest <= m.Keys
      decreases rest
    {
      var k :| k in rest;
      assert k !in keys;
      keys := keys + [k];
      rest := rest - {k};
    }
  }

  method OrderedKeys(m: map<string, Value>) returns (keys: seq<string>)
    ensures keys == SortedKeys(m.Keys)
    ensures forall k :: k in keys <==> k in m
  {
    var unsorted := RangeKeys(m);
    keys := SortStrings(unsorted);
    SortEnumerates(unsorted, m.Keys);
    EnumerationUnique(keys, SortedKeys(m.Keys), m.Keys);
    assert forall k :: k in keys <==> k in m.Keys;
  }

  /** `canonicalizeMap`: the result does not depend on the order of the range. */
  method CanonicalizeMap(v: Value) returns (r: Result<string, ()>)
    requires v.Obj?
    ensures r == if Encodable(v) then Ok(Text(v)) else Err(())
    decreases v, 0
  {
    var m := v.fields;
    var keys := OrderedKeys(m);
    var result := "{";
    var i := 0;
    while i < |keys|
      invariant 0 <= i <= |keys|
      invariant forall j :: 0 <= j < i ==> Encodable(m[keys[j]])
      invariant Encodable(v) ==> Text(v) == result + Members(v, keys[i..], i == 0)
    {
      assert keys[i] in keys;
      ghost var before := result;
      if i > 0 {
        result := result + ",";
      }
      assert result == before + Comma(i == 0);
      result := result + Quote(keys[i]);
      result := result + ":";
      var valBytes := Canonicalize(m[keys[i]]);
      if valBytes.Err? {
        return Err(());
      }
      result := result + valBytes.value;
      if Encodable(v) {
        WriteMember(Text(v), before, v, keys, i);
      }
      i := i + 1;
    }
    AllEncodable(v, keys);
    result := result + "}";
    r := Ok(result);
  }

  method CanonicalizeSlice(v: Value) returns (r: Result<string, ()>)
    requires v.Arr?
    ensures r == if Encodable(v) then Ok(Text(v)) else Err(())
    decreases v, 0
  {
    var s := v.items;
    var result := "[";
    var i := 0;
    while i < |s|
      invariant 0 <= i <= |s|
      invariant forall j :: 0 <= j < i ==> Encodable(s[j])
      invariant Encodable(v) ==> Text(v) == result + Items(s[i..], i == 0)
    {
      ghost var before := result;
      if i > 0 {
        result := result + ",";
      }
      assert result == before + Comma(i == 0);
      var valBytes := Canonicalize(s[i]);
      if valBytes.Err? {
        return Err(());
      }
      result := result + valBytes.value;
      if Encodable(v) {
        WriteItem(Text(v), before, s, i);
      }
      i := i + 1;
    }
    result := result + "]";
    r := Ok(result);
  }

  // ---------------------------------------------------------------------------
  // The canonical text is JSON

  predicate HexDigit(c: char) {
    '0' <= c <= '9' || 'a' <= c <= 'f'
  }

  /** What a `\\` in a string stands for, by section 7 of RFC 8259: how long the escape is, and its character. */
  function Escaped(x: string): Option<(nat, char)> {
    if |x| < 2 then None
    else match x[1]
      case '\"' => Some((2, '\"'))
      case '\\' => Some((2, '\\'))
      case '/' => Some((2, '/'))
      case 'b' => Some((2, '\U{0008}'))
      case 'f' => Some((2, '\U{000C}'))
      case 'n' => Some((2, '\n'))
      case 'r' => Some((2, '\r'))
      case 't' => Some((2, '\t'))
      case 'u' =>
        if |x| < 6 || !HexDigit(x[2]) || !HexDigit(x[3]) || !HexDigit(x[4]) || !HexDigit(x[5]) then None
        else
          var n := ((UnHex(x[2]) * 16 + UnHex(x[3])) * 16 + UnHex(x[4])) * 16 + UnHex(x[5]);
          if 0xD800 <= n < 0xE000 then None else Some((6, n as char))
      case _ => None
  }

  /** The string that the text between two quotes stands for, if it is one. */
  function Unescape(x: string): Option<string>
    decreases |x|
  {
    if x == [] then Some("")
    else if x[0] == '\"' || x[0] < ' ' then None
    else if x[0] != '\\' then
      match Unescape(x[1..]) case Some(s) => Some([x[0]] + s) case None => None
    else
      match Escaped(x)
      case None => None
      case Some((n, c)) => match Unescape(x[n..]) case Some(s) => Some([c] + s) case None => None
  }

  lemma UnescapeOne(c: char, p: string)
    ensures Unescape(Escape(c) + p) == match Unescape(p) case Some(s) => Some([c] + s) case None => None
  {
    var e, x := Escape(c), Escape(c) + p;
    assert x[|e|..] == p && forall i :: 0 <= i < |e| ==> x[i] == e[i];
    if |e| == 6 {
      EscapedByCode(c, p);
    } else if |e| == 2 {
      assert Escaped(x) == Some((2, c));
    }
  }

  lemma EscapedByCode(c: char, p: string)
    requires |Escape(c)| == 6
    ensures Escaped(Escape(c) + p) == Some((6, c))
  {
    var e, x := Escape(c), Escape(c) + p;
    assert forall i :: 0 <= i < 6 ==> x[i] == e[i];
    HexIsDigit(c as int % 16);
    UnHexHex(c as int % 16);
    assert UnHex('0') == 0 && UnHex('2') == 2;
    if c as int < 256 {
      HexIsDigit(c as int / 16);
      UnHexHex(c as int / 16);
    }
  }

  lemma HexIsDigit(n: int)
    requires 0 <= n < 16
    ensures HexDigit(Hex(n))
  {}

  /** Every string is what its escaped form stands for. */
  lemma {:induction false} UnescapeEscapes(s: string)
    ensures Unescape(Escapes(s)) == Some(s)
  {
    if s != [] {
      UnescapeOne(s[0], Escapes(s[1..]));
      UnescapeEscapes(s[1..]);
      assert s == [s[0]] + s[1..];
    }
  }

  predicate Embeddable(c: char) {
    ' ' <= c && c !in "<>&" && c != '\U{2028}' && c != '\U{2029}'
  }

  /** An escaped string can be embedded in HTML and in scripts, and contains no control character. */
  lemma {:induction false} EscapesAreEmbeddable(s: string)
    ensures forall c :: c in Escapes(s) ==> Embeddable(c)
  {
    if s != [] {
      EscapeIsEmbeddable(s[0]);
      EscapesAreEmbeddable(s[1..]);
    }
  }

  lemma EscapeIsEmbeddable(c: char)
    ensures forall d :: d in Escape(c) ==> Embeddable(d)
  {
    assert forall n :: 0 <= n < 16 ==> Embeddable(Hex(n)) by {
      forall n | 0 <= n < 16 ensures Embeddable(Hex(n)) { HexIsDigit(n); }
    }
  }

  /** One character where a string may contain it as it is, two where a short escape exists, and six otherwise. */
  lemma EscapeIsShortest(c: char)
    ensures |Escape(c)| == (if c in "\"\\\n\r\t" || c == '\U{0008}' || c == '\U{000C}' then 2
                            else if Embeddable(c) then 1 else 6)
  {}

  function Commas(ts: seq<string>): string {
    if ts == [] then "" else if |ts| == 1 then ts[0] else ts[0] + "," + Commas(ts[1..])
  }

  ghost predicate JsonString(s: string, t: string) {
    exists b :: t == "\"" + b + "\"" && Unescape(b) == Some(s)
  }

  /** `t` is a JSON text of the value by sections 3 to 7 of RFC 8259, without white space and with the members of every
      object in increasing order of their names. */
  ghost predicate Json(v: Value, t: string)
    decreases v
  {
    match v
    case Null => t == "null"
    case Bool(b) => t == if b then "true" else "false"
    case Num(token) => t == token
    case Str(s) => JsonString(s, t)
    case Arr(items) =>
      exists ts: seq<string> :: |ts| == |items| && t == "[" + Commas(ts) + "]"
        && forall i :: 0 <= i < |items| ==> Json(items[i], ts[i])
    case Obj(fields) =>
      exists ks: seq<string>, ms: seq<string> :: |ms| == |ks| && t == "{" + Commas(ms) + "}"
        && Enumerates(ks, fields.Keys)
        && forall i :: 0 <= i < |ks| ==> ks[i] in fields && Member(v, ks[i], ms[i])
    case Unsupported => false
  }

  /** `m` is the text of the member `k` of the object. */
  ghost predicate Member(v: Value, k: string, m: string)
    requires v.Obj? && k in v.fields
    decreases v, 0
  {
    exists n: string, t: string :: m == n + ":" + t && JsonString(k, n) && Json(v.fields[k], t)
  }

  lemma QuoteIsJson(s: string)
    ensures JsonString(s, Quote(s))
  {
    UnescapeEscapes(s);
  }

  ghost function ItemTexts(xs: seq<Value>): (ts: seq<string>)
    requires forall x :: x in xs ==> Encodable(x)
    ensures |ts| == |xs| && forall i :: 0 <= i < |xs| ==> ts[i] == Text(xs[i])
  {
    if xs == [] then [] else [Text(xs[0])] + ItemTexts(xs[1..])
  }

  ghost function MemberTexts(v: Value, ks: seq<string>): (ms: seq<string>)
    requires v.Obj? && Encodable(v) && forall k :: k in ks ==> k in v.fields
    ensures |ms| == |ks| && forall i :: 0 <= i < |ks| ==> ms[i] == Quote(ks[i]) + ":" + Text(v.fields[ks[i]])
  {
    if ks == [] then [] else [Quote(ks[0]) + ":" + Text(v.fields[ks[0]])] + MemberTexts(v, ks[1..])
  }

  function Separator(first: bool, empty: bool): string {
    if first || empty then "" else ","
  }

  lemma CommasCons(t: string, ts: seq<string>)
    ensures Commas([t] + ts) == t + (Separator(false, ts == []) + Commas(ts))
  {
    assert ([t] + ts)[1..] == ts;
  }

  lemma {:induction false} ItemsAreCommas(xs: seq<Value>, first: bool)
    requires forall x :: x in xs ==> Encodable(x)
    ensures Items(xs, first) == Separator(first, xs == []) + Commas(ItemTexts(xs)) + "]"
  {
    if xs != [] {
      var rest := Separator(false, xs[1..] == []) + Commas(ItemTexts(xs[1..]));
      ItemsAreCommas(xs[1..], false);
      CommasCons(Text(xs[0]), ItemTexts(xs[1..]));
      assert Items(xs, first) == Comma(first) + Text(xs[0]) + (rest + "]");
      GlueItem(Comma(first), Text(xs[0]), rest);
    }
  }

  lemma GlueItem(a: string, t: string, rest: string)
    ensures a + t + (rest + "]") == a + (t + rest) + "]"
  {
    Regroup(a, t, rest, "]");
    assert a + t + (rest + "]") == a + t + rest + "]";
  }

  lemma {:induction false} MembersAreCommas(v: Value, ks: seq<string>, first: bool)
    requires v.Obj? && Encodable(v) && forall k :: k in ks ==> k in v.fields
    ensures Members(v, ks, first) == Separator(first, ks == []) + Commas(MemberTexts(v, ks)) + "}"
  {
    if ks != [] {
      var m := Quote(ks[0]) + ":" + Text(v.fields[ks[0]]);
      MembersAreCommas(v, ks[1..], false);
      CommasCons(m, MemberTexts(v, ks[1..]));
      Glue(Comma(first), Quote(ks[0]), Text(v.fields[ks[0]]),
           Separator(false, ks[1..] == []) + Commas(MemberTexts(v, ks[1..])));
    }
  }

  lemma Glue(a: string, k: string, t: string, rest: string)
    ensures a + k + ":" + t + (rest + "}") == a + ((k + ":" + t) + rest) + "}"
  {
    Regroup(a, k, ":", t);
    var m := k + ":" + t;
    assert a + k + ":" + t == a + m;
    Regroup(a, m, rest, "}");
    assert a + m + (rest + "}") == a + m + rest + "}";
  }

  lemma ArrayIsJson(v: Value)
    requires v.Arr? && Encodable(v) && forall x :: x in v.items ==> Json(x, Text(x))
    ensures Json(v, Text(v))
  {
    var ts := ItemTexts(v.items);
    ArrayText(v);
    forall i | 0 <= i < |v.items| ensures Json(v.items[i], ts[i]) { assert v.items[i] in v.items; }
  }

  lemma ArrayText(v: Value)
    requires v.Arr? && Encodable(v)
    ensures Text(v) == "[" + Commas(ItemTexts(v.items)) + "]"
  {
    ItemsAreCommas(v.items, true);
    var cs := Commas(ItemTexts(v.items));
    assert "" + cs + "]" == cs + "]";
    assert "[" + (cs + "]") == "[" + cs + "]";
  }

  lemma ObjectText(v: Value, ks: seq<string>)
    requires v.Obj? && Encodable(v) && ks == SortedKeys(v.fields.Keys)
    ensures Text(v) == "{" + Commas(MemberTexts(v, ks)) + "}"
  {
    MembersAreCommas(v, ks, true);
    var cs := Commas(MemberTexts(v, ks));
    assert "" + cs + "}" == cs + "}";
    assert "{" + (cs + "}") == "{" + cs + "}";
  }

  lemma MemberIsJson(v: Value, k: string)
    requires v.Obj? && k in v.fields && Encodable(v) && Json(v.fields[k], Text(v.fields[k]))
    ensures Member(v, k, Quote(k) + ":" + Text(v.fields[k]))
  {
    QuoteIsJson(k);
  }

  lemma ObjectIsJson(v: Value)
    requires v.Obj? && Encodable(v) && forall k :: k in v.fields ==> Json(v.fields[k], Text(v.fields[k]))
    ensures Json(v, Text(v))
  {
    var ks := SortedKeys(v.fields.Keys);
    var ms := MemberTexts(v, ks);
    ObjectText(v, ks);
    forall i | 0 <= i < |ks| ensures ks[i] in v.fields && Member(v, ks[i], ms[i]) {
      assert ks[i] in ks;
      MemberIsJson(v, ks[i]);
    }
  }

  /** The canonical text is a JSON text of its value. */
  lemma {:induction false} TextIsJson(v: Value)
    requires Encodable(v)
    ensures Json(v, Text(v))
    decreases v
  {
    match v {
      case Str(s) => QuoteIsJson(s);
      case Arr(items) =>
        forall x | x in items ensures Json(x, Text(x)) { TextIsJson(x); }
        ArrayIsJson(v);
      case Obj(fields) =>
        forall k | k in fields ensures Json(fields[k], Text(fields[k])) { TextIsJson(fields[k]); }
        ObjectIsJson(v);
      case _ =>
    }
  }

  // ---------------------------------------------------------------------------
  // Keys

  newtype Byte = n: int | 0 <= n < 256

  type Digest = d: seq<Byte> | |d| == 32 witness seq(32, _ => 0)

  function HexEncode(bytes: seq<Byte>): (h: string)
    ensures |h| == 2 * |bytes|
  {
    if bytes == [] then []
    else [Hex(bytes[0] as int / 16), Hex(bytes[0] as int % 16)] + HexEncode(bytes[1..])
  }

  lemma {:induction false} HexEncodeUnique(x: seq<Byte>, y: seq<Byte>)
    requires HexEncode(x) == HexEncode(y)
    ensures x == y
  {
    assert |x| == |y|;
    if x != [] {
      var l, r := HexEncode(x), HexEncode(y);
      assert l[2..] == HexEncode(x[1..]) && r[2..] == HexEncode(y[1..]);
      UnHexHex(x[0] as int / 16);
      UnHexHex(x[0] as int % 16);
      UnHexHex(y[0] as int / 16);
      UnHexHex(y[0] as int % 16);
      HexEncodeUnique(x[1..], y[1..]);
      assert x == [x[0]] + x[1..] && y == [y[0]] + y[1..];
    }
  }

  /** `digest` is SHA-256, left uninterpreted. */
  ghost function KeyOf(digest: string -> Digest, tool: string, v: Value): string
    requires Encodable(v)
  {
    "cache:" + tool + ":" + HexEncode(digest(Text(v))[..8])
  }

  method Key(digest: string -> Digest, tool: string, v: Value) returns (r: Result<string, ()>)
    ensures r == if Encodable(v) then Ok(KeyOf(digest, tool, v)) else Err(())
  {
    var canonical := Canonicalize(v);
    if canonical.Err? {
      return Err(());
    }
    var hash := digest(canonical.value);
    r := Ok("cache:" + tool + ":" + HexEncode(hash[..8]));
  }

  /** A key is "cache:", the tool, a colon, and sixteen lower-case hexadecimal digits, two for each of the first eight
      bytes of the digest, the high one first. */
  lemma KeyFormat(digest: string -> Digest, tool: string, v: Value) returns (h: string)
    requires Encodable(v)
    ensures KeyOf(digest, tool, v) == "cache:" + tool + ":" + h && |h| == 16
    ensures forall i :: 0 <= i < 8 ==>
      && HexDigit(h[2 * i]) && HexDigit(h[2 * i + 1])
      && UnHex(h[2 * i]) * 16 + UnHex(h[2 * i + 1]) == digest(Text(v))[i] as int
  {
    h := HexEncode(digest(Text(v))[..8]);
    forall i | 0 <= i < 8
      ensures HexDigit(h[2 * i]) && HexDigit(h[2 * i + 1])
      ensures UnHex(h[2 * i]) * 16 + UnHex(h[2 * i + 1]) == digest(Text(v))[i] as int
    {
      HexDigitsOf(digest(Text(v))[..8], i);
    }
  }

  lemma {:induction false} HexDigitsOf(bytes: seq<Byte>, i: nat)
    requires i < |bytes|
    ensures var h := HexEncode(bytes);
            && HexDigit(h[2 * i]) && HexDigit(h[2 * i + 1])
            && UnHex(h[2 * i]) * 16 + UnHex(h[2 * i + 1]) == bytes[i] as int
  {
    var h := HexEncode(bytes);
    if i == 0 {
      HexIsDigit(bytes[0] as int / 16);
      HexIsDigit(bytes[0] as int % 16);
      UnHexHex(bytes[0] as int / 16);
      UnHexHex(bytes[0] as int % 16);
    } else {
      HexDigitsOf(bytes[1..], i - 1);
      var rest := HexEncode(bytes[1..]);
      assert h[2 * i] == rest[2 * (i - 1)] && h[2 * i + 1] == rest[2 * (i - 1) + 1];
    }
  }

  lemma SplitAtEnd(a: string, b: string, p: string, q: string)
    requires a + p == b + q && |p| == |q|
    ensures a == b && p == q
  {
    assert a == (a + p)[..|a|] && b == (b + q)[..|b|];
    assert p == (a + p)[|a|..] && q == (b + q)[|b|..];
  }

  /** Equal keys have the same tool, even one with colons in its name, and the same eight digest bytes; so they
      have the same input unless the two canonical texts collide in those bytes. */
  lemma KeySeparates(digest: string -> Digest, tool: string, tool': string, v: Value, w: Value)
    requires Encodable(v) && Encodable(w)
    ensures KeyOf(digest, tool, v) == KeyOf(digest, tool', w) <==>
            tool == tool' && digest(Text(v))[..8] == digest(Text(w))[..8]
    ensures KeyOf(digest, tool, v) == KeyOf(digest, tool', w)
            && (digest(Text(v))[..8] == digest(Text(w))[..8] ==> Text(v) == Text(w))
            ==> tool == tool' && v == w
  {
    if KeyOf(digest, tool, v) == KeyOf(digest, tool', w) {
      var p, q := HexEncode(digest(Text(v))[..8]), HexEncode(digest(Text(w))[..8]);
      SplitAtEnd("cache:" + tool + ":", "cache:" + tool' + ":", p, q);
      SplitAtEnd("cache:" + tool, "cache:" + tool', ":", ":");
      Cancel("cache:", tool, tool');
      HexEncodeUnique(digest(Text(v))[..8], digest(Text(w))[..8]);
      if Text(v) == Text(w) { CanonicalInjective(v, w); }
    }
  }

  const MAX_KEY_LENGTH: nat := 512

  datatype KeyError = InvalidKey | KeyTooLong

  /** `ValidateKey` of cache/cache.go. */
  function ValidateKey(key: string): Option<KeyError> {
    if Blank(key) then Some(InvalidKey)
    else if ByteLength(key) > MAX_KEY_LENGTH then Some(KeyTooLong)
    else if '\n' in key || '\r' in key then Some(InvalidKey)
    else None
  }

  /** A key is valid iff it has a character that is not white space, at most 512 bytes and no line break; a key that
      is not blank and too long is called that. */
  lemma ValidateKeyIff(key: string)
    ensures ValidateKey(key) == None <==>
            (exists c :: c in key && !IsSpace(c)) && ByteLength(key) <= 512 && !exists c :: c in key && c in "\n\r"
    ensures ValidateKey(key) == Some(KeyTooLong) <==> (exists c :: c in key && !IsSpace(c)) && ByteLength(key) > 512
  {
    assert '\n' in "\n\r" && '\r' in "\n\r";
  }

  /** A hexadecimal digit is one byte and no line break. */
  lemma {:induction false} HexEncodePlain(bytes: seq<Byte>)
    ensures ByteLength(HexEncode(bytes)) == 2 * |bytes|
    ensures '\n' !in HexEncode(bytes) && '\r' !in HexEncode(bytes)
  {
    if bytes != [] {
      var h, l := Hex(bytes[0] as int / 16), Hex(bytes[0] as int % 16);
      HexEncodePlain(bytes[1..]);
      ByteLengthConcat([h, l], HexEncode(bytes[1..]));
      assert [h, l][1..] == [l] && [l][1..] == [];
      assert ByteLength([h, l]) == 2;
    }
  }

  /** The contract that keys pass validation holds of the default keyer iff the tool's name has at most 489 bytes
      and no line break; nothing in the middleware checks that. */
  lemma {:induction false} KeyValidIff(digest: string -> Digest, tool: string, v: Value)
    requires Encodable(v)
    ensures ValidateKey(KeyOf(digest, tool, v)) == None <==>
            ByteLength(tool) <= 489 && '\n' !in tool && '\r' !in tool
  {
    var h := HexEncode(digest(Text(v))[..8]);
    HexEncodePlain(digest(Text(v))[..8]);
    KeyLength(tool, h);
    KeyCharacters(tool, h);
  }

  lemma KeyLength(tool: string, h: string)
    ensures ByteLength("cache:" + tool + ":" + h) == 7 + ByteLength(tool) + ByteLength(h)
  {
    ByteLengthConcat("cache:" + tool + ":", h);
    ByteLengthConcat("cache:" + tool, ":");
    ByteLengthConcat("cache:", tool);
    CacheColonLength();
  }

  lemma KeyCharacters(tool: string, h: string)
    ensures var key := "cache:" + tool + ":" + h;
      && !Blank(key)
      && forall c :: c == '\n' || c == '\r' ==> (c in key <==> c in tool || c in h)
  {
    var key := "cache:" + tool + ":" + h;
    assert key[0] == 'c' && 'c' in key;
    assert forall c :: c in key <==> c in "cache:" || c in tool || c in ":" || c in h;
  }

  lemma CacheColonLength()
    ensures ByteLength("cache:") == 6 && ByteLength(":") == 1
  {
    ByteLengthConcat("cac", "he:");
    assert "cac" + "he:" == "cache:";
    assert "cac"[1..] == "ac" && "ac"[1..] == "c" && "he:"[1..] == "e:" && "e:"[1..] == ":";
  }
}
