// The LIKE fallback of message search: the escaped pattern against LIKE itself.
module LikeSearch {

  const ESCAPE: char := '\\'

  /** `str::replace` of one character by a string. */
  function Replace(s: string, from: char, to: string): string {
    if s == [] then [] else (if s[0] == from then to else [s[0]]) + Replace(s[1..], from, to)
  }

  /** `like_pattern`: three replacements one after the other, then the wildcards. */
  function LikePattern(query: string): string {
    "%" + Replace(Replace(Replace(query, '\\', "\\\\"), '%', "\\%"), '_', "\\_") + "%"
  }

  predicate IsSpecial(c: char) {
    c == '\\' || c == '%' || c == '_'
  }

  function Escaped(c: char): string {
    if IsSpecial(c) then [ESCAPE, c] else [c]
  }

  function EscapeEach(s: string): string {
    if s == [] then [] else Escaped(s[0]) + EscapeEach(s[1..])
  }

  lemma {:induction false} ReplaceAppend(a: string, b: string, from: char, to: string)
    ensures Replace(a + b, from, to) == Replace(a, from, to) + Replace(b, from, to)
  {
    if a == [] {
      assert a + b == b;
    } else {
      ReplaceAppend(a[1..], b, from, to);
      assert (a + b)[1..] == a[1..] + b;
    }
  }

  /** The three passes do not touch each other's output: together they are one
      pass that escapes each special character once. */
  lemma {:induction false} ReplacesAreOneMap(s: string)
    ensures Replace(Replace(Replace(s, '\\', "\\\\"), '%', "\\%"), '_', "\\_") == EscapeEach(s)
  {
    if s != [] {
      ReplacesAreOneMap(s[1..]);
      var head := if s[0] == '\\' then "\\\\" else [s[0]];
      var tail := Replace(s[1..], '\\', "\\\\");
      ReplaceAppend(head, tail, '%', "\\%");
      ReplaceAppend(Replace(head, '%', "\\%"), Replace(tail, '%', "\\%"), '_', "\\_");
      HeadReplaced(s[0]);
    }
  }

  lemma HeadReplaced(c: char)
    ensures Replace(Replace(if c == '\\' then "\\\\" else [c], '%', "\\%"), '_', "\\_") == Escaped(c)
  {
    var head := if c == '\\' then "\\\\" else [c];
    if c == '\\' {
      assert Replace("\\\\"[1..], '%', "\\%") == "\\";
      assert Replace("\\\\", '%', "\\%") == "\\\\";
      assert Replace("\\\\"[1..], '_', "\\_") == "\\";
    } else if c == '%' {
      assert Replace("%", '%', "\\%") == "\\%";
      assert Replace("\\%"[1..], '_', "\\_") == "%";
    } else {
      assert Replace([c], '%', "\\%") == [c];
    }
  }

  // ---- LIKE with an escape character ----

  /** `body LIKE pattern ESCAPE '\'`, where `same` is the character equality of
      the dialect. A pattern that ends in the escape character matches nothing. */
  ghost predicate Like(pattern: string, body: string, same: (char, char) -> bool)
    decreases |pattern|
  {
    if pattern == [] then body == []
    else if pattern[0] == ESCAPE then
      |pattern| >= 2 && body != [] && same(pattern[1], body[0]) && Like(pattern[2..], body[1..], same)
    else if pattern[0] == '%' then exists k :: 0 <= k <= |body| && Like(pattern[1..], body[k..], same)
    else if pattern[0] == '_' then body != [] && Like(pattern[1..], body[1..], same)
    else body != [] && same(pattern[0], body[0]) && Like(pattern[1..], body[1..], same)
  }

  /** In a well-formed pattern the escape character only stands before a special one. */
  predicate WellFormed(pattern: string)
    decreases |pattern|
  {
    pattern == [] ||
    (if pattern[0] == ESCAPE then |pattern| >= 2 && IsSpecial(pattern[1]) && WellFormed(pattern[2..])
     else WellFormed(pattern[1..]))
  }

  /** The characters of `q` are those of `body` from position `k`, as the dialect compares. */
  ghost predicate FoundAt(q: string, body: string, k: nat, same: (char, char) -> bool) {
    k + |q| <= |body| && forall i :: 0 <= i < |q| ==> same(q[i], body[k + i])
  }

  lemma {:induction false} LikeEscaped(q: string, rest: string, body: string, same: (char, char) -> bool)
    ensures Like(EscapeEach(q) + rest, body, same) <==> FoundAt(q, body, 0, same) && Like(rest, body[|q|..], same)
    decreases |q|
  {
    hide Like, FoundAt;
    if q == [] {
      assert EscapeEach(q) + rest == rest && body[0..] == body;
      NothingFound(body, same);
    } else {
      var tail := EscapeEach(q[1..]) + rest;
      assert EscapeEach(q) + rest == Escaped(q[0]) + tail;
      LikeHead(q[0], tail, body, same);
      if body == [] {
        NotFoundInNothing(q, same);
      } else {
        LikeEscaped(q[1..], rest, body[1..], same);
        FoundStep(q, body, same);
        assert |q| <= |body| ==> body[1..][|q[1..]|..] == body[|q|..];
        FoundFits(q, body, same);
      }
    }
  }

  /** An escaped character stands for itself and nothing else. */
  lemma LikeHead(c: char, tail: string, body: string, same: (char, char) -> bool)
    ensures Like(Escaped(c) + tail, body, same) <==> body != [] && same(c, body[0]) && Like(tail, body[1..], same)
  {
    var p := Escaped(c) + tail;
    assert p[|Escaped(c)|..] == tail;
  }

  lemma NothingFound(body: string, same: (char, char) -> bool)
    ensures FoundAt([], body, 0, same)
  {
  }

  lemma NotFoundInNothing(q: string, same: (char, char) -> bool)
    requires q != []
    ensures !FoundAt(q, [], 0, same)
  {
  }

  lemma FoundFits(q: string, body: string, same: (char, char) -> bool)
    ensures FoundAt(q, body, 0, same) ==> |q| <= |body|
  {
  }

  lemma FoundStep(q: string, body: string, same: (char, char) -> bool)
    requires q != [] && body != []
    ensures FoundAt(q, body, 0, same) <==> same(q[0], body[0]) && FoundAt(q[1..], body[1..], 0, same)
  {
    if same(q[0], body[0]) && FoundAt(q[1..], body[1..], 0, same) {
      forall i | 0 <= i < |q|
        ensures same(q[i], body[i])
      {
        if i > 0 {
          assert same(q[1..][i - 1], body[1..][i - 1]);
        }
      }
    }
  }

  /** A message matches the pattern built for a query iff the query occurs in
      it, every character taken literally, whatever the query holds. */
  lemma LikePatternIsSubstring(q: string, body: string, same: (char, char) -> bool)
    ensures Like(LikePattern(q), body, same) <==> exists k :: 0 <= k <= |body| && FoundAt(q, body, k, same)
  {
    ReplacesAreOneMap(q);
    var p := LikePattern(q);
    assert p[0] == '%' && p[1..] == EscapeEach(q) + "%";
    forall k | 0 <= k <= |body|
      ensures Like(p[1..], body[k..], same) <==> FoundAt(q, body, k, same)
    {
      var b := body[k..];
      LikeEscaped(q, "%", b, same);
      assert FoundAt(q, b, 0, same) <==> FoundAt(q, body, k, same) by {
        assert forall i :: 0 <= i < |b| ==> b[i] == body[k + i];
      }
      if FoundAt(q, b, 0, same) {
        var left := b[|q|..];
        assert "%"[1..] == "" && left[|left|..] == [];
        assert Like("%"[1..], left[|left|..], same);
        assert Like("%", left, same);
      }
    }
  }

  lemma {:induction false} EscapedWellFormed(q: string, rest: string)
    requires WellFormed(rest)
    ensures WellFormed(EscapeEach(q) + rest)
  {
    hide WellFormed, Escaped;
    if q == [] {
      assert EscapeEach(q) + rest == rest;
    } else {
      EscapedWellFormed(q[1..], rest);
      var tail := EscapeEach(q[1..]) + rest;
      assert EscapeEach(q) + rest == Escaped(q[0]) + tail;
      HeadWellFormed(q[0], tail);
    }
  }

  lemma HeadWellFormed(c: char, tail: string)
    requires WellFormed(tail)
    ensures WellFormed(Escaped(c) + tail)
  {
    assert (Escaped(c) + tail)[|Escaped(c)|..] == tail;
  }

  /** The pattern never makes the database reject it: each escape character stands before a special one. */
  lemma PatternWellFormed(q: string)
    ensures WellFormed(LikePattern(q))
  {
    ReplacesAreOneMap(q);
    assert WellFormed("%");
    EscapedWellFormed(q, "%");
    assert LikePattern(q)[1..] == EscapeEach(q) + "%";
  }

  /** What the escaping is for: unescaped, the two wildcards match any one character
      and any body. */
  lemma WildcardsMatchAnything(c: char, body: string, same: (char, char) -> bool)
    ensures Like("_", [c], same) && Like("%", body, same)
  {
    assert "_"[1..] == "" && [c][1..] == [];
    assert "%"[1..] == "" && body[|body|..] == [];
  }
}
