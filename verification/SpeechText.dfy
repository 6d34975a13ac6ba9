// Preparing text for speech markup: what is dropped, escaped and collapsed, and
// what an XML parser reads back.
module SpeechText {
  import opened Wrappers
  import opened Text

  /** Not a byte-order mark and not a control character, except newline, return and tab. */
  predicate Spoken(c: char) {
    c as int != 0xFEFF && (!IsControl(c) || c == '\n' || c == '\r' || c == '\t')
  }

  /** Which single characters survive, by their code points. */
  lemma KeptIff(c: char)
    ensures Keep([c], Spoken) == [c] <==>
      c as int in {9, 10, 13} || 0x20 <= c as int < 0x7F || (c as int > 0x9F && c as int != 0xFEFF)
  {
    assert [c][1..] == [];
  }

  /** The predefined entity of a markup character. */
  function Entity(c: char): Option<string> {
    if c == '<' then Some("&lt;")
    else if c == '>' then Some("&gt;")
    else if c == '&' then Some("&amp;")
    else if c == '"' then Some("&quot;")
    else if c == '\'' then Some("&apos;")
    else None
  }

  function TrimStart(s: string): string {
    if s != [] && IsWhitespace(s[0]) then TrimStart(s[1..]) else s
  }

  function TrimEnd(s: string): string {
    if s != [] && IsWhitespace(s[|s| - 1]) then TrimEnd(s[..|s| - 1]) else s
  }

  function Trim(s: string): string {
    TrimEnd(TrimStart(s))
  }

  /** What one character adds to the output, given whether a space was just written. */
  function Piece(c: char, lastWasSpace: bool): string {
    if !Spoken(c) then []
    else if Entity(c).Some? then Entity(c).value
    else if IsWhitespace(c) then (if lastWasSpace then [] else " ")
    else [c]
  }

  predicate SpaceAfter(c: char, lastWasSpace: bool) {
    if !Spoken(c) then lastWasSpace else IsWhitespace(c)
  }

  /** What the loop has still to write for the rest of the text. */
  function Remaining(text: string, lastWasSpace: bool): string {
    if text == [] then [] else Piece(text[0], lastWasSpace) + Remaining(text[1..], SpaceAfter(text[0], lastWasSpace))
  }

  /** `sanitize_ssml_text`. Read back as XML, the result is the text without the
      dropped characters, with every run of whitespace one space and none at the ends. */
  method SanitizeSsmlText(text: string) returns (clean: string)
    ensures clean == Trim(Remaining(text, false))
    ensures ReadXml(clean) == Some(Join(Words(Keep(text, Spoken)), " "))
  {
    hide Trim, ReadXml, Words, Join, Keep, Remaining, IsControl;
    var out := "";
    var lastWasSpace := false;
    for i := 0 to |text|
      invariant out + Remaining(text[i..], lastWasSpace) == Remaining(text, false)
    {
      var ch := text[i];
      WriteOne(out, text, i, lastWasSpace);
      if ch as int == 0xFEFF || (IsControl(ch) && ch != '\n' && ch != '\r' && ch != '\t') {
        assert out + [] == out;
        continue;
      }
      var mapped := Entity(ch);
      if mapped.Some? {
        out := out + mapped.value;
        lastWasSpace := false;
      } else if IsWhitespace(ch) {
        if !lastWasSpace {
          out := out + " ";
          lastWasSpace := true;
        } else {
          assert out + [] == out;
        }
      } else {
        out := out + [ch];
        lastWasSpace := false;
      }
    }
    assert text[|text|..] == [] && out + [] == out && Remaining([], lastWasSpace) == [] by {
      NothingRemains(lastWasSpace);
    }
    clean := Trim(out);
    SanitizedReadsBack(text);
  }

  lemma NothingRemains(last: bool)
    ensures Remaining([], last) == []
  {
  }

  lemma WriteOne(out: string, text: string, i: nat, last: bool)
    requires i < |text|
    ensures out + Remaining(text[i..], last) ==
      out + Piece(text[i], last) + Remaining(text[i + 1..], SpaceAfter(text[i], last))
  {
    var rest := text[i..];
    assert rest[0] == text[i] && rest[1..] == text[i + 1..];
    assert out + (Piece(text[i], last) + Remaining(rest[1..], SpaceAfter(text[i], last)))
        == out + Piece(text[i], last) + Remaining(rest[1..], SpaceAfter(text[i], last));
  }

  // ---- Reading character data back ----

  predicate Starts(s: string, prefix: string) {
    |prefix| <= |s| && s[..|prefix|] == prefix
  }

  /** The entity a string starts with: its character and its length. */
  function EntityAt(s: string): Option<(char, nat)> {
    if Starts(s, "&lt;") then Some(('<', 4))
    else if Starts(s, "&gt;") then Some(('>', 4))
    else if Starts(s, "&amp;") then Some(('&', 5))
    else if Starts(s, "&quot;") then Some(('"', 6))
    else if Starts(s, "&apos;") then Some(('\'', 6))
    else None
  }

  /** The characters the text stands for; nothing when it holds a raw `<`, `>`,
      `"` or `'`, or an `&` that does not start one of the five predefined
      entities (sections 2.4 and 4.6 of XML 1.0). */
  function ReadXml(s: string): Option<string>
    decreases |s|
  {
    if s == [] then Some([])
    else if s[0] == '&' then
      match EntityAt(s)
      case None => None
      case Some((c, n)) =>
        match ReadXml(s[n..])
        case None => None
        case Some(rest) => Some([c] + rest)
    else if Entity(s[0]).Some? then None
    else
      match ReadXml(s[1..])
      case None => None
      case Some(rest) => Some([s[0]] + rest)
  }

  function EscapeChar(c: char): (r: string)
    ensures r != []
  {
    if Entity(c).Some? then Entity(c).value else [c]
  }

  function EscapeAll(s: string): string {
    if s == [] then [] else EscapeChar(s[0]) + EscapeAll(s[1..])
  }

  lemma EntityReadsBack(c: char, rest: string)
    requires Entity(c).Some?
    ensures EntityAt(Entity(c).value + rest) == Some((c, |Entity(c).value|))
  {
    var s := Entity(c).value + rest;
    assert s[..|Entity(c).value|] == Entity(c).value;
    if c == '<' {
      assert Starts(s, "&lt;");
    } else if c == '>' {
      assert s[..4] == "&gt;" && s[..4] != "&lt;";
    } else if c == '&' {
      assert s[..5] == "&amp;" && s[1] == 'a' && s[2] == 'm';
      assert !Starts(s, "&lt;") && !Starts(s, "&gt;") by {
        assert "&lt;"[1] == 'l' && "&gt;"[1] == 'g';
      }
    } else if c == '"' {
      assert s[..6] == "&quot;" && s[1] == 'q';
      assert !Starts(s, "&lt;") && !Starts(s, "&gt;") && !Starts(s, "&amp;") by {
        assert "&lt;"[1] == 'l' && "&gt;"[1] == 'g' && "&amp;"[1] == 'a';
      }
    } else {
      assert s[..6] == "&apos;" && s[1] == 'a' && s[2] == 'p';
      assert !Starts(s, "&lt;") && !Starts(s, "&gt;") && !Starts(s, "&amp;") && !Starts(s, "&quot;") by {
        assert "&lt;"[1] == 'l' && "&gt;"[1] == 'g' && "&amp;"[2] == 'm' && "&quot;"[1] == 'q';
      }
    }
  }

  lemma {:induction false} EscapedReadsBack(s: string)
    ensures ReadXml(EscapeAll(s)) == Some(s)
  {
    if s != [] {
      var e := EscapeAll(s);
      EscapedReadsBack(s[1..]);
      assert e[|EscapeChar(s[0])|..] == EscapeAll(s[1..]);
      if Entity(s[0]).Some? {
        EntityReadsBack(s[0], EscapeAll(s[1..]));
      }
      assert [s[0]] + s[1..] == s;
    }
  }

  // ---- Collapsing whitespace ----

  function Collapse(s: string, lastWasSpace: bool): string {
    if s == [] then []
    else if IsWhitespace(s[0]) then (if lastWasSpace then [] else " ") + Collapse(s[1..], true)
    else [s[0]] + Collapse(s[1..], false)
  }

  /** What one character writes is the escape of what it collapses to. */
  lemma PieceIsEscaped(c: char, last: bool)
    requires Spoken(c)
    ensures Piece(c, last) == EscapeAll(if IsWhitespace(c) then (if last then [] else " ") else [c])
  {
    SpaceIsItself();
    if !IsWhitespace(c) {
      assert EscapeAll([c]) == EscapeChar(c) + EscapeAll([]);
    }
  }

  /** The loop escapes what collapsing leaves of the kept characters. */
  lemma {:induction false} RemainingIsEscaped(text: string, last: bool)
    ensures Remaining(text, last) == EscapeAll(Collapse(Keep(text, Spoken), last))
  {
    hide IsWhitespace, Spoken, Piece, EscapeAll, EscapeChar, Entity;
    if text == [] {
      SpaceIsItself();
    } else {
      var c, rest := text[0], text[1..];
      var last' := SpaceAfter(c, last);
      RemainingIsEscaped(rest, last');
      if Spoken(c) {
        var kept := Keep(text, Spoken);
        assert kept[0] == c && kept[1..] == Keep(rest, Spoken);
        PieceIsEscaped(c, last);
        EscapedAppend(if IsWhitespace(c) then (if last then [] else " ") else [c], Collapse(kept[1..], last'));
      } else {
        NotSpoken(c, last);
        assert [] + Keep(rest, Spoken) == Keep(rest, Spoken);
      }
    }
  }

  lemma NotSpoken(c: char, last: bool)
    requires !Spoken(c)
    ensures Piece(c, last) == []
  {
  }

  /** The words joined, with a space after them if the text ends in whitespace. */
  function Body(s: string): string {
    Join(Words(s), " ") + (if s != [] && IsWhitespace(s[|s| - 1]) && Words(s) != [] then " " else "")
  }

  lemma {:induction false} CollapseIsBody(s: string, last: bool)
    ensures Collapse(s, last) == (if !last && s != [] && IsWhitespace(s[0]) then " " else "") + Body(s)
  {
    hide Body, IsWhitespace;
    if s == [] {
      EmptyBody();
    } else {
      var rest := s[1..];
      if IsWhitespace(s[0]) {
        CollapseIsBody(rest, true);
        BodySkip(s);
      } else {
        CollapseIsBody(rest, false);
        BodyStep(s);
      }
    }
  }

  lemma EmptyBody()
    ensures Body("") == ""
  {
  }

  lemma BodySkip(s: string)
    requires s != [] && IsWhitespace(s[0])
    ensures Body(s) == Body(s[1..])
  {
    hide IsWhitespace, Join;
    var rest := s[1..];
    assert rest != [] ==> rest[|rest| - 1] == s[|s| - 1];
  }

  lemma BodyStep(s: string)
    requires s != [] && !IsWhitespace(s[0])
    ensures Body(s) == [s[0]] + (if |s| > 1 && IsWhitespace(s[1]) then " " else "") + Body(s[1..])
  {
    hide IsWhitespace, Join;
    var rest := s[1..];
    var ws := Words(rest);
    JoinFirst([s[0]], ws);
    if rest == [] {
      assert Words(s) == [[s[0]]] + ws;
    } else if IsWhitespace(s[1]) {
      assert Words(s) == [[s[0]]] + ws;
      NoWordsEndsInSpace(rest);
    } else {
      assert Words(s) == [[s[0]] + ws[0]] + ws[1..];
      JoinGrows(s[0], ws);
    }
  }

  lemma JoinFirst(word: string, ws: seq<string>)
    ensures Join([word] + ws, " ") == word + (if ws == [] then "" else " " + Join(ws, " "))
    ensures Join([], " ") == ""
  {
    assert ([word] + ws)[1..] == ws;
  }

  lemma JoinGrows(c: char, ws: seq<string>)
    requires ws != []
    ensures Join([[c] + ws[0]] + ws[1..], " ") == [c] + Join(ws, " ")
  {
    assert ([[c] + ws[0]] + ws[1..])[1..] == ws[1..];
  }

  lemma {:induction false} NoWordsEndsInSpace(s: string)
    ensures s != [] && Words(s) == [] ==> IsWhitespace(s[|s| - 1])
  {
    if |s| > 1 {
      NoWordsEndsInSpace(s[1..]);
    }
  }

  // ---- Trimming ----

  predicate InkedEnds(s: string) {
    s == [] || (!IsWhitespace(s[0]) && !IsWhitespace(s[|s| - 1]))
  }

  lemma {:induction false} JoinedEnds(words: seq<string>)
    requires forall i :: 0 <= i < |words| ==> words[i] != [] && InkedEnds(words[i])
    ensures InkedEnds(Join(words, " ")) && (words != [] ==> Join(words, " ") != [])
  {
    if |words| > 1 {
      JoinedEnds(words[1..]);
    }
  }

  lemma {:induction false} EscapedAppend(a: string, b: string)
    ensures EscapeAll(a + b) == EscapeAll(a) + EscapeAll(b)
  {
    hide EscapeChar, Entity;
    if a == [] {
      assert a + b == b;
    } else {
      EscapedAppend(a[1..], b);
      assert (a + b)[1..] == a[1..] + b;
      var head := EscapeChar(a[0]);
      assert EscapeAll(a) == head + EscapeAll(a[1..]);
      assert head + (EscapeAll(a[1..]) + EscapeAll(b)) == head + EscapeAll(a[1..]) + EscapeAll(b);
    }
  }

  lemma EscapeCharEnds(c: char)
    requires !IsWhitespace(c)
    ensures InkedEnds(EscapeChar(c))
  {
  }

  lemma {:induction false} EscapedEnds(s: string)
    requires InkedEnds(s)
    ensures InkedEnds(EscapeAll(s)) && (s != [] ==> EscapeAll(s) != [])
  {
    if s != [] {
      var n := |s| - 1;
      EscapeCharEnds(s[0]);
      EscapeCharEnds(s[n]);
      EscapedAppend(s[..n], [s[n]]);
      assert s == s[..n] + [s[n]];
      assert EscapeAll([s[n]]) == EscapeChar(s[n]) + EscapeAll([]) == EscapeChar(s[n]);
    }
  }

  lemma TrimmedAway(before: string, core: string, after: string)
    requires InkedEnds(core) && before in {"", " "} && after in {"", " "}
    requires core == [] ==> after == ""
    ensures Trim(before + core + after) == core
  {
    var s := before + core + after;
    if before == " " {
      assert s[1..] == core + after;
    } else {
      assert s == core + after;
    }
    assert TrimStart(s) == core + after;
    if after == " " {
      var t := core + after;
      assert t[|t| - 1] == ' ' && t[..|t| - 1] == core;
      assert TrimEnd(t) == TrimEnd(core) == core;
    } else {
      assert core + after == core;
    }
  }

  /** Read back as XML, the sanitised text is the original without the dropped
      characters, with every run of whitespace one space and none at the ends. */
  lemma SanitizedReadsBack(text: string)
    ensures ReadXml(Trim(Remaining(text, false))) == Some(Join(Words(Keep(text, Spoken)), " "))
  {
    hide Keep, Words, Join, IsWhitespace, ReadXml, EscapeAll, Collapse, Remaining, Trim, EscapeChar;
    var kept := Keep(text, Spoken);
    var core := Join(Words(kept), " ");
    var before := if kept != [] && IsWhitespace(kept[0]) then " " else "";
    var after := if kept != [] && IsWhitespace(kept[|kept| - 1]) && Words(kept) != [] then " " else "";
    RemainingIsEscaped(text, false);
    CollapseIsBody(kept, false);
    assert Collapse(kept, false) == before + core + after;
    WordsAreWords(kept);
    JoinedEnds(Words(kept));
    EscapedEnds(core);
    EscapedAppend(before + core, after);
    EscapedAppend(before, core);
    SpaceIsItself();
    assert core == [] ==> after == "";
    TrimmedAway(before, EscapeAll(core), after);
    EscapedReadsBack(core);
  }

  lemma SpaceIsItself()
    ensures EscapeAll(" ") == " " && EscapeAll("") == ""
  {
    assert " "[1..] == "";
  }

  // ---- No markup is left ----

  /** Text that reads back holds no raw markup character, and each `&` starts an entity. */
  lemma {:induction false} ReadableHasNoMarkup(s: string, i: nat)
    requires ReadXml(s).Some? && i < |s|
    ensures s[i] != '<' && s[i] != '>' && s[i] != '"' && s[i] != '\''
    ensures s[i] == '&' ==> EntityAt(s[i..]).Some?
    decreases |s|
  {
    if s[0] == '&' {
      var n := EntityAt(s).value.1;
      if i >= n {
        ReadableHasNoMarkup(s[n..], i - n);
        assert s[n..][i - n..] == s[i..];
      } else {
        InsideEntity(s, i);
        assert s[0..] == s;
      }
    } else if i > 0 {
      ReadableHasNoMarkup(s[1..], i - 1);
      assert s[1..][i - 1..] == s[i..];
    }
  }

  lemma InsideEntity(s: string, i: nat)
    requires EntityAt(s).Some? && i < EntityAt(s).value.1
    ensures i < |s| && s[i] != '<' && s[i] != '>' && s[i] != '"' && s[i] != '\'' && (i > 0 ==> s[i] != '&')
  {
    var n := EntityAt(s).value.1;
    assert s[i] == s[..n][i];
  }
}
