// The FTS5 match expression built from a free-form query, against the FTS5
// syntax of quoted strings.
module FtsQuery {
  import opened Wrappers
  import opened Text

  const QUOTE: char := '"'

  predicate NotQuote(c: char) {
    c != QUOTE
  }

  /** The tokens that survive: words without their double quotes, the empty ones dropped. */
  function Stripped(words: seq<string>): seq<string> {
    if words == [] then []
    else
      var token := Keep(words[0], NotQuote);
      (if token != [] then [token] else []) + Stripped(words[1..])
  }

  function Tokens(query: string): seq<string> {
    Stripped(Words(query))
  }

  function QuoteAll(tokens: seq<string>): (r: seq<string>)
    ensures |r| == |tokens|
  {
    if tokens == [] then [] else [[QUOTE] + tokens[0] + [QUOTE]] + QuoteAll(tokens[1..])
  }

  /** `fts5_match_query`. */
  function MatchQuery(query: string): string {
    Join(QuoteAll(Tokens(query)), " ")
  }

  // ---- Reading an FTS5 expression made of strings ----

  /** Reads a string after its opening quote: the content, where a doubled quote
      stands for one, and what follows the closing quote. */
  function ReadString(s: string): Option<(string, string)> {
    if s == [] then None
    else if s[0] != QUOTE then
      match ReadString(s[1..])
      case None => None
      case Some((content, rest)) => Some(([s[0]] + content, rest))
    else if |s| >= 2 && s[1] == QUOTE then
      match ReadString(s[2..])
      case None => None
      case Some((content, rest)) => Some(([QUOTE] + content, rest))
    else Some(("", s[1..]))
  }

  lemma {:induction false} ReadStringShortens(s: string)
    ensures ReadString(s).Some? ==> |ReadString(s).value.1| < |s|
  {
    if s != [] {
      ReadStringShortens(s[1..]);
      if |s| >= 2 {
        ReadStringShortens(s[2..]);
      }
    }
  }

  /** A whole expression as strings separated by spaces; anything else is not one. */
  function ReadPhrases(s: string): Option<seq<string>>
    decreases |s|
  {
    if s == [] then Some([])
    else if s[0] == ' ' then ReadPhrases(s[1..])
    else if s[0] != QUOTE then None
    else
      ReadStringShortens(s[1..]);
      match ReadString(s[1..])
      case None => None
      case Some((content, rest)) =>
        match ReadPhrases(rest)
        case None => None
        case Some(more) => Some([content] + more)
  }

  predicate Clean(token: string) {
    token != [] && forall i :: 0 <= i < |token| ==> token[i] != QUOTE && !IsWhitespace(token[i])
  }

  lemma {:induction false} ReadToken(token: string, rest: string)
    requires forall i :: 0 <= i < |token| ==> token[i] != QUOTE
    requires rest == [] || rest[0] != QUOTE
    ensures ReadString(token + [QUOTE] + rest) == Some((token, rest))
  {
    var s := token + [QUOTE] + rest;
    if token == [] {
      assert s[1..] == rest;
    } else {
      ReadToken(token[1..], rest);
      assert s[1..] == token[1..] + [QUOTE] + rest;
      assert [token[0]] + token[1..] == token;
    }
  }

  lemma {:induction false} ReadJoined(tokens: seq<string>)
    requires forall i :: 0 <= i < |tokens| ==> Clean(tokens[i])
    ensures ReadPhrases(Join(QuoteAll(tokens), " ")) == Some(tokens)
  {
    if tokens != [] {
      var s := Join(QuoteAll(tokens), " ");
      var after := Join(QuoteAll(tokens[1..]), " ");
      var rest := if |tokens| == 1 then "" else " " + after;
      ReadJoined(tokens[1..]);
      ReadToken(tokens[0], rest);
      assert QuoteAll(tokens)[1..] == QuoteAll(tokens[1..]);
      assert s == [QUOTE] + tokens[0] + [QUOTE] + rest;
      assert s[1..] == tokens[0] + [QUOTE] + rest;
      if |tokens| > 1 {
        assert rest[1..] == after;
      } else {
        assert tokens[1..] == [];
      }
      assert ReadPhrases(rest) == Some(tokens[1..]);
      assert [tokens[0]] + tokens[1..] == tokens;
    }
  }

  lemma {:induction false} KeptCharsPass(s: string, pass: char -> bool)
    ensures forall i :: 0 <= i < |Keep(s, pass)| ==> pass(Keep(s, pass)[i]) && Keep(s, pass)[i] in s
  {
    if s != [] {
      KeptCharsPass(s[1..], pass);
    }
  }

  lemma {:induction false} StrippedClean(words: seq<string>)
    requires forall i :: 0 <= i < |words| ==> forall j :: 0 <= j < |words[i]| ==> !IsWhitespace(words[i][j])
    ensures forall i :: 0 <= i < |Stripped(words)| ==> Clean(Stripped(words)[i])
  {
    if words != [] {
      StrippedClean(words[1..]);
      KeptCharsPass(words[0], NotQuote);
    }
  }

  /** Whatever the query, the expression reads back as exactly its tokens, in
      order: nothing the user types is taken for FTS5 syntax. */
  lemma MatchQueryReadsBack(query: string)
    ensures ReadPhrases(MatchQuery(query)) == Some(Tokens(query))
    ensures forall i :: 0 <= i < |Tokens(query)| ==> Clean(Tokens(query)[i])
  {
    WordsAreWords(query);
    StrippedClean(Words(query));
    ReadJoined(Tokens(query));
  }

  // ---- What the tokens are ----

  predicate Searchable(c: char) {
    c != QUOTE && !IsWhitespace(c)
  }

  predicate Inked(c: char) {
    !IsWhitespace(c)
  }

  lemma {:induction false} WordsKeepText(s: string)
    ensures Concat(Words(s)) == Keep(s, Inked)
  {
    if s != [] {
      WordsKeepText(s[1..]);
      var ws := Words(s[1..]);
      if !IsWhitespace(s[0]) && |s| > 1 && !IsWhitespace(s[1]) {
        assert Words(s)[1..] == ws[1..];
        assert Concat(Words(s)) == [s[0]] + ws[0] + Concat(ws[1..]);
      } else if !IsWhitespace(s[0]) {
        assert Words(s) == [[s[0]]] + ws && Words(s)[1..] == ws;
      }
    }
  }

  lemma {:induction false} StrippedKeepText(words: seq<string>)
    ensures Concat(Stripped(words)) == Keep(Concat(words), NotQuote)
  {
    if words != [] {
      StrippedKeepText(words[1..]);
      KeepAppend(words[0], Concat(words[1..]), NotQuote);
      var token := Keep(words[0], NotQuote);
      if token != [] {
        assert Stripped(words)[1..] == Stripped(words[1..]);
      } else {
        assert Stripped(words) == Stripped(words[1..]);
      }
    }
  }

  lemma {:induction false} KeepTwice(s: string)
    ensures Keep(Keep(s, Inked), NotQuote) == Keep(s, Searchable)
  {
    if s != [] {
      KeepTwice(s[1..]);
      KeepAppend(if Inked(s[0]) then [s[0]] else [], Keep(s[1..], Inked), NotQuote);
    }
  }

  /** The tokens hold every character of the query but whitespace and quotes, in
      order, and the expression is empty iff the query has no other character. */
  lemma TokensKeepText(query: string)
    ensures Concat(Tokens(query)) == Keep(query, Searchable)
    ensures MatchQuery(query) == "" <==> Keep(query, Searchable) == ""
  {
    WordsKeepText(query);
    StrippedKeepText(Words(query));
    KeepTwice(query);
    MatchQueryReadsBack(query);
    var tokens := Tokens(query);
    if tokens != [] {
      assert Clean(tokens[0]) && QuoteAll(tokens)[0] != [];
    }
  }

  // ---- Where the tokens end ----

  predicate NoWhitespace(s: string) {
    forall i :: 0 <= i < |s| ==> !IsWhitespace(s[i])
  }

  lemma {:induction false} WordsOfOne(s: string)
    requires NoWhitespace(s)
    ensures Words(s) == if s == [] then [] else [s]
  {
    if s != [] {
      WordsOfOne(s[1..]);
      if |s| == 1 {
        assert s[1..] == [] && [s[0]] == s;
      } else {
        assert [s[0]] + s[1..] == s;
      }
    }
  }

  lemma {:induction false} WordsSplit(a: string, w: char, b: string)
    requires IsWhitespace(w)
    ensures Words(a + [w] + b) == Words(a) + Words(b)
  {
    var s := a + [w] + b;
    if a == [] {
      assert s[1..] == b;
    } else {
      WordsSplit(a[1..], w, b);
      assert s[1..] == a[1..] + [w] + b && s[0] == a[0];
      if |a| == 1 {
        assert a[1..] == [] && a == [a[0]];
        WordsOfOne(a[1..]);
      } else {
        assert s[1] == a[1];
      }
    }
  }

  lemma {:induction false} StrippedAppend(v: seq<string>, w: seq<string>)
    ensures Stripped(v + w) == Stripped(v) + Stripped(w)
  {
    if v == [] {
      assert v + w == w;
    } else {
      assert (v + w)[1..] == v[1..] + w;
      StrippedAppend(v[1..], w);
    }
  }

  /** Every whitespace character ends a token, and nothing else does: a query
      without whitespace is one token at most, its characters but the quotes. */
  lemma {:induction false} TokensSplitAtWhitespace(a: string, w: char, b: string)
    ensures IsWhitespace(w) ==> Tokens(a + [w] + b) == Tokens(a) + Tokens(b)
    ensures NoWhitespace(a) ==> Tokens(a) == if Keep(a, NotQuote) == "" then [] else [Keep(a, NotQuote)]
  {
    if IsWhitespace(w) {
      WordsSplit(a, w, b);
      StrippedAppend(Words(a), Words(b));
    }
    if NoWhitespace(a) {
      WordsOfOne(a);
      if a != [] {
        assert Stripped([a][1..]) == [];
      }
    }
  }

  lemma {:induction false} JoinAppend(v: seq<string>, w: seq<string>, sep: string)
    requires v != [] && w != []
    ensures Join(v + w, sep) == Join(v, sep) + sep + Join(w, sep)
  {
    assert (v + w)[1..] == v[1..] + w;
    if |v| > 1 {
      JoinAppend(v[1..], w, sep);
    } else {
      assert v[1..] + w == w;
    }
  }

  lemma {:induction false} QuoteAllAppend(v: seq<string>, w: seq<string>)
    ensures QuoteAll(v + w) == QuoteAll(v) + QuoteAll(w)
  {
    if v == [] {
      assert v + w == w;
    } else {
      assert (v + w)[1..] == v[1..] + w;
      QuoteAllAppend(v[1..], w);
    }
  }

  /** The expression itself: a query without whitespace is put between quotes,
      less its own quotes, and whitespace joins two expressions by one space. */
  lemma {:induction false} MatchQueryIs(a: string, w: char, b: string)
    ensures NoWhitespace(a) ==>
      MatchQuery(a) == if Keep(a, NotQuote) == "" then "" else "\"" + Keep(a, NotQuote) + "\""
    ensures IsWhitespace(w) ==>
      var x, y := MatchQuery(a), MatchQuery(b);
      MatchQuery(a + [w] + b) == if x == "" then y else if y == "" then x else x + " " + y
  {
    TokensSplitAtWhitespace(a, w, b);
    if NoWhitespace(a) && Tokens(a) != [] {
      assert Tokens(a)[1..] == [];
    }
    if IsWhitespace(w) {
      var v, u := Tokens(a), Tokens(b);
      QuoteAllAppend(v, u);
      EmptyIffNoTokens(v);
      EmptyIffNoTokens(u);
      if v != [] && u != [] {
        JoinAppend(QuoteAll(v), QuoteAll(u), " ");
      } else {
        assert v + u == if v == [] then u else v;
      }
    }
  }

  lemma EmptyIffNoTokens(tokens: seq<string>)
    ensures Join(QuoteAll(tokens), " ") == "" <==> tokens == []
  {
    if tokens != [] {
      assert QuoteAll(tokens)[0] != [];
    }
  }

  /** What the quoting is for: outside a string any other character is syntax, and
      inside one a doubled quote stands for a quote. */
  lemma {:induction false} QuotesAreSyntax(c: char, s: string)
    ensures c != QUOTE && c != ' ' ==> ReadPhrases([c] + s).None?
    ensures ReadString([QUOTE, QUOTE] + s) ==
      match ReadString(s)
      case None => None
      case Some((content, rest)) => Some(([QUOTE] + content, rest))
  {
    assert ([QUOTE, QUOTE] + s)[2..] == s;
  }
}
