/** Removing comments from JSON settings before they are parsed. */
module StripComments {
  /* ---------- the scanner ---------- */

  function SkipLine(s: string): (rest: string)
    ensures |rest| <= |s| && rest == s[|s| - |rest|..]
  {
    if s == "" || s[0] == '\n' then s else SkipLine(s[1..])
  }

  function SkipBlock(s: string): (rest: string)
    ensures |rest| <= |s| && rest == s[|s| - |rest|..]
  {
    if |s| < 2 then "" else if s[0] == '*' && s[1] == '/' then s[2..] else SkipBlock(s[1..])
  }

  predicate Comment2(s: string, second: char) { |s| >= 2 && s[0] == '/' && s[1] == second }

  /** The output for the rest of a text, inside or outside a string. */
  function Scan(s: string, inString: bool, escape: bool): string
    decreases |s|
  {
    if s == "" then ""
    else if inString then
      [s[0]] + Scan(s[1..], s[0] != '"' || escape, s[0] == '\\' && !escape)
    else if s[0] == '"' then [s[0]] + Scan(s[1..], true, escape)
    else if Comment2(s, '/') then Scan(SkipLine(s[1..]), false, escape)
    else if Comment2(s, '*') then Scan(SkipBlock(s[2..]), false, escape)
    else [s[0]] + Scan(s[1..], false, escape)
  }

  function Stripped(s: string): string { Scan(s, false, false) }

  method StripJsonComments(input: string) returns (out: string)
    ensures out == Stripped(input)
  {
    hide Scan;
    out := "";
    var i, inString, escape := 0, false, false;
    while i < |input|
      invariant 0 <= i <= |input|
      invariant out + Scan(input[i..], inString, escape) == Stripped(input)
      decreases |input| - i
    {
      ghost var before, rest := out, Scan(input[i..], inString, escape);
      var emitted: string;
      emitted, i, inString, escape := Advance(input, i, inString, escape);
      out := out + emitted;
      assert before + (emitted + Scan(input[i..], inString, escape)) == out + Scan(input[i..], inString, escape);
    }
    ScanNothing(inString, escape);
    assert input[|input|..] == "" && out + "" == out;
  }

  lemma ScanNothing(inString: bool, escape: bool)
    ensures Scan("", inString, escape) == ""
  {}

  /** One turn of the loop: what is written, and where the scanner goes. */
  method Advance(input: string, at: nat, was: bool, escaped: bool)
      returns (emitted: string, i: nat, inString: bool, escape: bool)
    requires at < |input|
    ensures at < i <= |input|
    ensures Scan(input[at..], was, escaped) == emitted + Scan(input[i..], inString, escape)
  {
    hide Scan, SkipLine, SkipBlock;
    ScanStep(input, at, was, escaped);
    emitted, i, inString, escape := [input[at]], at + 1, was, escaped;
    if was {
      inString := input[at] != '"' || escaped;
      escape := input[at] == '\\' && !escaped;
    } else if input[at] == '"' {
      inString := true;
    } else if input[at] == '/' && at + 1 < |input| && input[at + 1] == '/' {
      emitted := "";
      i := LineEnd(input, at);
    } else if input[at] == '/' && at + 1 < |input| && input[at + 1] == '*' {
      emitted := "";
      i := BlockEnd(input, at + 2);
    }
  }

  lemma ScanStep(s: string, i: nat, inString: bool, escape: bool)
    requires i < |s|
    ensures var rest := Scan(s[i..], inString, escape);
            if inString then rest == [s[i]] + Scan(s[i + 1..], s[i] != '"' || escape, s[i] == '\\' && !escape)
            else if s[i] == '"' then rest == [s[i]] + Scan(s[i + 1..], true, escape)
            else if s[i] == '/' && i + 1 < |s| && s[i + 1] == '/' then rest == Scan(SkipLine(s[i + 1..]), false, escape)
            else if s[i] == '/' && i + 1 < |s| && s[i + 1] == '*' then rest == Scan(SkipBlock(s[i + 2..]), false, escape)
            else rest == [s[i]] + Scan(s[i + 1..], false, escape)
  {
    hide SkipLine, SkipBlock;
    assert s[i..][1..] == s[i + 1..];
    if i + 2 <= |s| { assert s[i..][2..] == s[i + 2..]; }
  }

  lemma SkipLineStep(s: string, i: nat)
    requires i <= |s|
    ensures SkipLine(s[i..]) == if i < |s| && s[i] != '\n' then SkipLine(s[i + 1..]) else s[i..]
  {
    assert i < |s| ==> s[i..][1..] == s[i + 1..];
  }

  method LineEnd(input: string, start: nat) returns (i: nat)
    requires start + 1 < |input| && input[start] == '/' && input[start + 1] == '/'
    ensures start < i <= |input| && input[i..] == SkipLine(input[start + 1..])
  {
    hide SkipLine;
    i := start;
    SkipLineStep(input, start);
    while i < |input| && input[i] != '\n'
      invariant start <= i <= |input| && SkipLine(input[i..]) == SkipLine(input[start + 1..])
    {
      SkipLineStep(input, i);
      i := i + 1;
    }
    SkipLineStep(input, i);
  }

  /** The two characters at the cursor close a comment. */
  predicate ClosesAt(s: string, i: nat) { i + 1 < |s| && s[i] == '*' && s[i + 1] == '/' }

  lemma SkipBlockGoesOn(s: string, i: nat)
    requires i + 1 < |s| && !ClosesAt(s, i)
    ensures SkipBlock(s[i..]) == SkipBlock(s[i + 1..])
  {
    assert s[i..][1..] == s[i + 1..];
  }

  lemma SkipBlockEnds(s: string, i: nat)
    requires i <= |s| && (i + 1 < |s| ==> ClosesAt(s, i))
    ensures SkipBlock(s[i..]) == s[if i + 2 <= |s| then i + 2 else |s|..]
  {
    if i + 1 < |s| { assert s[i..][2..] == s[i + 2..]; }
  }

  method BlockEnd(input: string, start: nat) returns (i: nat)
    requires start <= |input|
    ensures start <= i <= |input| && input[i..] == SkipBlock(input[start..])
  {
    hide SkipBlock;
    i := start;
    while i + 1 < |input| && !(input[i] == '*' && input[i + 1] == '/')
      invariant start <= i <= |input| && SkipBlock(input[i..]) == SkipBlock(input[start..])
    {
      SkipBlockGoesOn(input, i);
      i := i + 1;
    }
    SkipBlockEnds(input, i);
    i := if i + 2 <= |input| then i + 2 else |input|;
  }

  /* ---------- what a text is made of ---------- */

  datatype Token = Literal(text: string) | Comment(text: string) | Other(c: char)

  /** The characters of a string literal after its opening quote. */
  function LiteralRest(s: string, escape: bool): (n: nat)
    ensures n <= |s|
  {
    if s == "" then 0
    else if s[0] == '"' && !escape then 1
    else 1 + LiteralRest(s[1..], s[0] == '\\' && !escape)
  }

  /** String literals, comments, and all other characters. */
  function Lex(s: string): seq<Token>
    decreases |s|
  {
    if s == "" then []
    else if s[0] == '"' then
      var n := 1 + LiteralRest(s[1..], false);
      [Literal(s[..n])] + Lex(s[n..])
    else if Comment2(s, '/') then
      var rest := SkipLine(s[1..]);
      [Comment(s[..|s| - |rest|])] + Lex(rest)
    else if Comment2(s, '*') then
      var rest := SkipBlock(s[2..]);
      [Comment(s[..|s| - |rest|])] + Lex(rest)
    else [Other(s[0])] + Lex(s[1..])
  }

  function TextOf(tokens: seq<Token>): string {
    if tokens == [] then ""
    else (if tokens[0].Other? then [tokens[0].c] else tokens[0].text) + TextOf(tokens[1..])
  }

  function WithoutComments(tokens: seq<Token>): seq<Token> {
    if tokens == [] then []
    else (if tokens[0].Comment? then [] else [tokens[0]]) + WithoutComments(tokens[1..])
  }

  function Literals(tokens: seq<Token>): seq<string> {
    if tokens == [] then []
    else (if tokens[0].Literal? then [tokens[0].text] else []) + Literals(tokens[1..])
  }

  lemma TokensStep(t: Token, tokens: seq<Token>)
    ensures TextOf([t] + tokens) == (if t.Other? then [t.c] else t.text) + TextOf(tokens)
    ensures WithoutComments([t] + tokens) == (if t.Comment? then [] else [t]) + WithoutComments(tokens)
    ensures Literals([t] + tokens) == (if t.Literal? then [t.text] else []) + Literals(tokens)
  {
    assert ([t] + tokens)[1..] == tokens;
  }

  lemma LexStep(s: string) returns (first: Token, n: nat)
    requires s != ""
    ensures 0 < n <= |s| && Lex(s) == [first] + Lex(s[n..])
    ensures (if first.Other? then [first.c] else first.text) == s[..n]
    ensures first.Literal? <==> s[0] == '"'
    ensures first.Comment? <==> Comment2(s, '/') || Comment2(s, '*')
    ensures first.Literal? ==> n == 1 + LiteralRest(s[1..], false)
    ensures Comment2(s, '/') ==> s[n..] == SkipLine(s[1..])
    ensures Comment2(s, '*') ==> s[n..] == SkipBlock(s[2..])
    ensures first.Other? ==> n == 1
  {
    if s[0] == '"' {
      n := 1 + LiteralRest(s[1..], false);
      first := Literal(s[..n]);
    } else if Comment2(s, '/') {
      n := |s| - |SkipLine(s[1..])|;
      first := Comment(s[..n]);
    } else if Comment2(s, '*') {
      n := |s| - |SkipBlock(s[2..])|;
      first := Comment(s[..n]);
    } else {
      n := 1;
      first := Other(s[0]);
    }
    hide SkipLine, SkipBlock, LiteralRest;
  }

  lemma NothingLexed()
    ensures TextOf(Lex("")) == "" && Lex(Stripped("")) == WithoutComments(Lex(""))
    ensures Stripped("") == TextOf(WithoutComments(Lex("")))
  {}

  lemma NoLiteralRest(escape: bool)
    ensures LiteralRest("", escape) == 0
  {}

  /* ---------- the scanner removes the comments ---------- */

  lemma LiteralStep(s: string, escape: bool)
    requires s != ""
    ensures LiteralRest(s, escape) ==
            if s[0] == '"' && !escape then 1 else 1 + LiteralRest(s[1..], s[0] == '\\' && !escape)
  {}

  lemma {:induction false} ScanLiteral(s: string, escape: bool)
    ensures Scan(s, true, escape) == s[..LiteralRest(s, escape)] + Scan(s[LiteralRest(s, escape)..], false, false)
  {
    hide *;
    if s == "" {
      ScanNothing(true, escape);
      ScanNothing(false, false);
      NoLiteralRest(escape);
    } else {
      var n := LiteralRest(s, escape);
      LiteralStep(s, escape);
      ScanStep(s, 0, true, escape);
      assert s[0..] == s;
      if s[0] == '"' && !escape {
        assert s[..1] == [s[0]];
      } else {
        ScanLiteral(s[1..], s[0] == '\\' && !escape);
        HeadAndRest(s, n, Scan(s[n..], false, false));
      }
    }
  }

  lemma HeadAndRest(s: string, n: nat, x: string)
    requires 0 < n <= |s|
    ensures s[1..][n - 1..] == s[n..] && [s[0]] + (s[1..][..n - 1] + x) == s[..n] + x
  {}

  lemma ScanToken(s: string, first: Token, n: nat)
    requires s != "" && 0 < n <= |s|
    requires first.Literal? <==> s[0] == '"'
    requires first.Comment? <==> Comment2(s, '/') || Comment2(s, '*')
    requires first.Literal? ==> n == 1 + LiteralRest(s[1..], false)
    requires Comment2(s, '/') ==> s[n..] == SkipLine(s[1..])
    requires Comment2(s, '*') ==> s[n..] == SkipBlock(s[2..])
    requires first.Other? ==> n == 1
    ensures Stripped(s) == (if first.Comment? then "" else s[..n]) + Stripped(s[n..])
  {
    hide Scan, SkipLine, SkipBlock, LiteralRest;
    ScanStep(s, 0, false, false);
    assert s[0..] == s;
    if first.Literal? {
      ScanLiteral(s[1..], false);
      HeadAndRest(s, n, Scan(s[n..], false, false));
    } else if first.Other? {
      assert s[..1] == [s[0]];
    } else {
      assert "" + Stripped(s[n..]) == Stripped(s[n..]);
    }
  }

  /** Stripping a text spells its tokens without the comments. */
  lemma {:induction false} StrippedSpells(s: string)
    ensures TextOf(Lex(s)) == s
    ensures Stripped(s) == TextOf(WithoutComments(Lex(s)))
    decreases |s|
  {
    hide *;
    if s == "" {
      NothingLexed();
    } else {
      var first, n := LexStep(s);
      ScanToken(s, first, n);
      StrippedSpells(s[n..]);
      TokensStep(first, Lex(s[n..]));
      TokensStep(first, WithoutComments(Lex(s[n..])));
      assert s[..n] + s[n..] == s;
      assert "" + Stripped(s[n..]) == Stripped(s[n..]);
      assert [] + WithoutComments(Lex(s[n..])) == WithoutComments(Lex(s[n..]));
    }
  }

  /* ---------- the output read again ---------- */

  /** A literal that ends before the rest of the text ends there whatever follows. */
  lemma {:induction false} LiteralEnds(s: string, escape: bool, other: string)
    requires LiteralRest(s, escape) < |s|
    ensures LiteralRest(s[..LiteralRest(s, escape)] + other, escape) == LiteralRest(s, escape)
  {
    var n := LiteralRest(s, escape);
    var again := s[..n] + other;
    assert again[0] == s[0];
    if s[0] != '"' || escape {
      LiteralEnds(s[1..], s[0] == '\\' && !escape, other);
      assert again[1..] == s[1..][..n - 1] + other;
    }
  }

  /** The first character that is kept is the first of the text, unless a comment
      opens the text. */
  lemma KeptHead(s: string)
    requires s != "" && s[0] != '/'
    ensures Stripped(s) != "" && Stripped(s)[0] == s[0]
  {
    hide SkipLine, SkipBlock, LiteralRest;
  }

  /** The stripped text has the same literals and other characters, in order,
      and no comment. */
  lemma {:induction false} LexOfStripped(s: string)
    ensures Lex(Stripped(s)) == WithoutComments(Lex(s))
    decreases |s|
  {
    hide *;
    if s == "" {
      NothingLexed();
    } else {
      var first, n := LexStep(s);
      ScanToken(s, first, n);
      LexOfStripped(s[n..]);
      TokensStep(first, Lex(s[n..]));
      assert "" + Stripped(s[n..]) == Stripped(s[n..]);
      assert [] + WithoutComments(Lex(s[n..])) == WithoutComments(Lex(s[n..]));
      if !first.Comment? { KeptToken(s, first, n); }
    }
  }

  lemma KeptToken(s: string, first: Token, n: nat)
    requires s != "" && 0 < n <= |s| && Lex(s) == [first] + Lex(s[n..]) && !first.Comment?
    requires (if first.Other? then [first.c] else first.text) == s[..n]
    requires first.Literal? <==> s[0] == '"'
    requires first.Literal? ==> n == 1 + LiteralRest(s[1..], false)
    requires first.Other? ==> n == 1 && !Comment2(s, '/') && !Comment2(s, '*')
    ensures Lex(s[..n] + Stripped(s[n..])) == [first] + Lex(Stripped(s[n..]))
  {
    hide *;
    var rest := Stripped(s[n..]);
    var all := s[..n] + rest;
    assert all[0] == s[0] && all[n..] == rest && all[..n] == s[..n];
    if n == |s| {
      NothingStripped();
      assert s[n..] == "" && all == s;
    } else {
      var again, m := LexStep(all);
      if first.Literal? { KeptLiteralEnds(s, n, rest); } else { StillNoComment(s, all); }
    }
  }

  lemma KeptLiteralEnds(s: string, n: nat, rest: string)
    requires 1 < |s| && n == 1 + LiteralRest(s[1..], false) && n < |s|
    ensures LiteralRest((s[..n] + rest)[1..], false) == LiteralRest(s[1..], false)
  {
    LiteralEnds(s[1..], false, rest);
    assert (s[..n] + rest)[1..] == s[1..][..n - 1] + rest;
  }

  /** A slash that is kept is not put in front of a slash or a star. */
  lemma StillNoComment(s: string, all: string)
    requires |s| > 1 && !Comment2(s, '/') && !Comment2(s, '*') && all == s[..1] + Stripped(s[1..])
    ensures !Comment2(all, '/') && !Comment2(all, '*')
  {
    hide Stripped;
    assert all[0] == s[0];
    if s[0] == '/' {
      KeptHead(s[1..]);
      assert all[1] == s[1];
    }
  }

  lemma NothingStripped()
    ensures Stripped("") == ""
  {}

  /** Stripping twice is stripping once. */
  lemma StrippedTwice(s: string)
    ensures Stripped(Stripped(s)) == Stripped(s)
  {
    hide *;
    StrippedSpells(Stripped(s));
    LexOfStripped(s);
    StrippedSpells(s);
    WithoutTwice(Lex(s));
  }

  lemma {:induction false} WithoutTwice(tokens: seq<Token>)
    ensures WithoutComments(WithoutComments(tokens)) == WithoutComments(tokens)
    ensures forall t :: t in WithoutComments(tokens) ==> !t.Comment?
    ensures Literals(WithoutComments(tokens)) == Literals(tokens)
  {
    if tokens != [] {
      var kept := WithoutComments(tokens[1..]);
      WithoutTwice(tokens[1..]);
      TokensStep(tokens[0], kept);
      assert [] + kept == kept;
    }
  }

  /** The output has no comment outside its literals, and the literals of the
      input, unchanged and in order. */
  lemma LiteralsKept(s: string)
    ensures forall t :: t in Lex(Stripped(s)) ==> !t.Comment?
    ensures Literals(Lex(Stripped(s))) == Literals(Lex(s))
  {
    hide *;
    LexOfStripped(s);
    WithoutTwice(Lex(s));
  }
}
