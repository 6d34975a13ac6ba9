// Character classes and the few text operations the search and speech code share.
module Text {

  /** The Unicode White_Space property, as `char::is_whitespace` tests it. */
  predicate IsWhitespace(c: char) {
    var n := c as int;
    || 0x09 <= n <= 0x0D || n == 0x20 || n == 0x85 || n == 0xA0 || n == 0x1680
    || 0x2000 <= n <= 0x200A || n == 0x2028 || n == 0x2029 || n == 0x202F || n == 0x205F || n == 0x3000
  }

  /** The Unicode category Cc, as `char::is_control` tests it. */
  predicate IsControl(c: char) {
    var n := c as int;
    n <= 0x1F || 0x7F <= n <= 0x9F
  }

  /** `split_whitespace`: the maximal runs of other characters, in order. */
  function Words(s: string): (ws: seq<string>)
    ensures s != [] && !IsWhitespace(s[0]) ==> ws != [] && ws[0] != [] && ws[0][0] == s[0]
  {
    if s == [] then []
    else if IsWhitespace(s[0]) then Words(s[1..])
    else if |s| == 1 || IsWhitespace(s[1]) then [[s[0]]] + Words(s[1..])
    else
      var rest := Words(s[1..]);
      [[s[0]] + rest[0]] + rest[1..]
  }

  function Join(parts: seq<string>, sep: string): string {
    if parts == [] then "" else if |parts| == 1 then parts[0] else parts[0] + sep + Join(parts[1..], sep)
  }

  /** The characters of `s` that pass, in order. */
  function Keep(s: string, pass: char -> bool): string {
    if s == [] then [] else (if pass(s[0]) then [s[0]] else []) + Keep(s[1..], pass)
  }

  function Concat(parts: seq<string>): string {
    if parts == [] then "" else parts[0] + Concat(parts[1..])
  }

  lemma {:induction false} KeepAppend(a: string, b: string, pass: char -> bool)
    ensures Keep(a + b, pass) == Keep(a, pass) + Keep(b, pass)
  {
    if a == [] {
      assert a + b == b;
    } else {
      KeepAppend(a[1..], b, pass);
      assert (a + b)[1..] == a[1..] + b;
      var head: string := if pass(a[0]) then [a[0]] else [];
      assert Keep(a, pass) == head + Keep(a[1..], pass);
      assert head + (Keep(a[1..], pass) + Keep(b, pass)) == head + Keep(a[1..], pass) + Keep(b, pass);
    }
  }

  /** No word is empty or holds whitespace. */
  lemma {:induction false} WordsAreWords(s: string)
    ensures forall i :: 0 <= i < |Words(s)| ==>
      Words(s)[i] != [] && forall j :: 0 <= j < |Words(s)[i]| ==> !IsWhitespace(Words(s)[i][j])
  {
    if s != [] {
      WordsAreWords(s[1..]);
    }
  }

  /** The 25 whitespace code points. */
  lemma WhitespaceCodes(c: char)
    ensures IsWhitespace(c) <==> c as int in {
      0x09, 0x0A, 0x0B, 0x0C, 0x0D, 0x20, 0x85, 0xA0, 0x1680, 0x2000, 0x2001, 0x2002, 0x2003, 0x2004, 0x2005,
      0x2006, 0x2007, 0x2008, 0x2009, 0x200A, 0x2028, 0x2029, 0x202F, 0x205F, 0x3000}
  {
  }
}
