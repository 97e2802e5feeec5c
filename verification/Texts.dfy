/** The library text functions the models share. Texts are sequences of Unicode scalar values. */
module Texts {

  /** `unicode.IsSpace`. */
  predicate IsSpace(c: char) {
    || '\t' <= c <= '\r' || c == ' ' || c == '\U{0085}' || c == '\U{00A0}' || c == '\U{1680}'
    || '\U{2000}' <= c <= '\U{200A}' || c == '\U{2028}' || c == '\U{2029}' || c == '\U{202F}'
    || c == '\U{205F}' || c == '\U{3000}'
  }

  /** `strings.TrimSpace(s) == ""`. */
  predicate Blank(s: string) {
    forall c :: c in s ==> IsSpace(c)
  }

  /** The bytes of a character in UTF-8. */
  function Width(c: char): nat {
    if c < '\U{0080}' then 1 else if c < '\U{0800}' then 2 else if c < '\U{10000}' then 3 else 4
  }

  /** One byte carries 7 bits of the code point, two carry 11, three carry 16, and four the rest; the fewest are
      used. */
  lemma WidthIsLeast(c: char)
    ensures 1 <= Width(c) <= 4 && (c as int < 0x80 <==> Width(c) == 1)
    ensures Width(c) == 2 <==> 0x80 <= c as int < 0x800
    ensures Width(c) == 3 <==> 0x800 <= c as int < 0x1_0000
  {}

  function ByteLength(s: string): nat {
    if s == [] then 0 else Width(s[0]) + ByteLength(s[1..])
  }

  lemma {:induction false} ByteLengthConcat(s: string, t: string)
    ensures ByteLength(s + t) == ByteLength(s) + ByteLength(t)
  {
    if s == [] {
      assert s + t == t;
    } else {
      assert (s + t)[1..] == s[1..] + t;
      ByteLengthConcat(s[1..], t);
    }
  }
}
