/** What a file's checksum depends on: line endings and the spacing of settings
    files do not count. */
module Checksums {
  import opened Text
  import opened StripComments
  import FileSystem

  /* ---------- line endings ---------- */

  /** Every "\r\n" becomes "\n". */
  function ToLf(s: string): string {
    if s == "" then ""
    else if |s| >= 2 && s[0] == '\r' && s[1] == '\n' then "\n" + ToLf(s[2..])
    else [s[0]] + ToLf(s[1..])
  }

  /** Every "\n" becomes "\r\n". */
  function ToCrlf(s: string): string {
    if s == "" then "" else (if s[0] == '\n' then "\r\n" else [s[0]]) + ToCrlf(s[1..])
  }

  lemma {:induction false} LineEndingsReturn(s: string)
    requires '\r' !in s
    ensures ToLf(ToCrlf(s)) == s && ToLf(s) == s
  {
    if s != "" {
      LineEndingsReturn(s[1..]);
      assert s[0] in s && s == [s[0]] + s[1..];
      var c := ToCrlf(s);
      if s[0] == '\n' {
        assert c[2..] == ToCrlf(s[1..]);
      } else {
        assert c[1..] == ToCrlf(s[1..]) && c[0] != '\r';
      }
    }
  }

  /* ---------- spacing ---------- */

  predicate IsSpacing(c: char) { c == ' ' || c == '\n' }

  function ScanJson(s: string, inString: bool, wasBackslash: bool): string {
    if s == "" then ""
    else
      var now := if s[0] == '"' && !wasBackslash then !inString else inString;
      (if !now && IsSpacing(s[0]) then "" else [s[0]]) + ScanJson(s[1..], now, s[0] == '\\' && !wasBackslash)
  }

  function Normalized(s: string): string { ScanJson(s, false, false) }

  lemma ScanJsonStep(c: char, rest: string, inString: bool, wasBackslash: bool)
    ensures var now := if c == '"' && !wasBackslash then !inString else inString;
            ScanJson([c] + rest, inString, wasBackslash)
            == (if !now && IsSpacing(c) then "" else [c]) + ScanJson(rest, now, c == '\\' && !wasBackslash)
  {
    assert ([c] + rest)[1..] == rest;
  }

  lemma ScanJsonNothing(inString: bool, wasBackslash: bool)
    ensures ScanJson("", inString, wasBackslash) == ""
  {}

  lemma Regroup(a: string, b: string, c: string)
    ensures a + (b + c) == (a + b) + c
  {}

  method NormalizeJson(json: string) returns (formatted: string)
    ensures formatted == Normalized(json)
  {
    hide ScanJson, IsSpacing;
    var inStr, wasBackslash := false, false;
    formatted := "";
    assert json[0..] == json;
    for i := 0 to |json|
      invariant formatted + ScanJson(json[i..], inStr, wasBackslash) == Normalized(json)
    {
      var ch := json[i];
      assert json[i..] == [ch] + json[i + 1..];
      ScanJsonStep(ch, json[i + 1..], inStr, wasBackslash);
      if ch == '"' && !wasBackslash { inStr := !inStr; }
      ghost var before := formatted;
      var kept := if inStr || !IsSpacing(ch) then [ch] else "";
      formatted := formatted + kept;
      wasBackslash := ch == '\\' && !wasBackslash;
      Regroup(before, kept, ScanJson(json[i + 1..], inStr, wasBackslash));
    }
    assert json[|json|..] == "";
    ScanJsonNothing(inStr, wasBackslash);
  }

  /** String literals and all other characters. */
  function LexJson(s: string): seq<Token>
    decreases |s|
  {
    if s == "" then []
    else if s[0] == '"' then
      var n := 1 + LiteralRest(s[1..], false);
      [Literal(s[..n])] + LexJson(s[n..])
    else [Other(s[0])] + LexJson(s[1..])
  }

  function WithoutSpacing(tokens: seq<Token>): seq<Token> {
    if tokens == [] then []
    else (if tokens[0].Other? && IsSpacing(tokens[0].c) then [] else [tokens[0]]) + WithoutSpacing(tokens[1..])
  }

  /** No backslash stands outside a string. */
  predicate BackslashesInStrings(s: string) { Other('\\') !in LexJson(s) }

  lemma {:induction false} ScanJsonLiteral(s: string, escape: bool)
    ensures ScanJson(s, true, escape) == s[..LiteralRest(s, escape)] + ScanJson(s[LiteralRest(s, escape)..], false, false)
  {
    if s != "" {
      var n := LiteralRest(s, escape);
      LiteralStep(s, escape);
      hide LiteralRest;
      if s[0] == '"' && !escape {
        assert s[..1] == [s[0]];
      } else {
        ScanJsonLiteral(s[1..], s[0] == '\\' && !escape);
        HeadAndRest(s, n, ScanJson(s[n..], false, false));
      }
    }
  }

  lemma LexJsonStep(s: string) returns (first: Token, n: nat)
    requires s != ""
    ensures 0 < n <= |s| && LexJson(s) == [first] + LexJson(s[n..])
    ensures first == if s[0] == '"' then Literal(s[..n]) else Other(s[0])
    ensures s[0] == '"' ==> n == 1 + LiteralRest(s[1..], false)
    ensures s[0] != '"' ==> n == 1
    ensures BackslashesInStrings(s) ==> BackslashesInStrings(s[n..]) && s[0] != '\\'
  {
    n := if s[0] == '"' then 1 + LiteralRest(s[1..], false) else 1;
    first := LexJson(s)[0];
    hide LiteralRest;
    assert first in LexJson(s);
  }

  lemma WithoutStep(first: Token, tokens: seq<Token>)
    ensures WithoutSpacing([first] + tokens)
            == (if first.Other? && IsSpacing(first.c) then [] else [first]) + WithoutSpacing(tokens)
  {
    assert ([first] + tokens)[1..] == tokens;
  }

  lemma ScanFirst(s: string, n: nat)
    requires s != "" && 0 < n <= |s|
    requires s[0] == '"' ==> n == 1 + LiteralRest(s[1..], false)
    requires s[0] != '"' ==> n == 1 && s[0] != '\\'
    ensures Normalized(s) == (if IsSpacing(s[0]) then "" else s[..n]) + Normalized(s[n..])
  {
    hide LiteralRest;
    if s[0] == '"' {
      ScanJsonLiteral(s[1..], false);
      HeadAndRest(s, n, Normalized(s[n..]));
    }
  }

  /** Normalizing drops the spacing outside strings and nothing else: the output is
      made of the same literals and other characters, in order. */
  lemma {:induction false} NormalizedTokens(s: string)
    requires BackslashesInStrings(s)
    ensures LexJson(Normalized(s)) == WithoutSpacing(LexJson(s))
    decreases |s|
  {
    hide *;
    if s == "" {
      NothingNormalized();
    } else {
      var first, n := LexJsonStep(s);
      ScanFirst(s, n);
      NormalizedTokens(s[n..]);
      WithoutStep(first, LexJson(s[n..]));
      assert "" + Normalized(s[n..]) == Normalized(s[n..]);
      assert [] + WithoutSpacing(LexJson(s[n..])) == WithoutSpacing(LexJson(s[n..]));
      if !IsSpacing(s[0]) { KeptJsonToken(s, first, n); }
      QuoteIsNoSpacing();
    }
  }

  lemma NothingNormalized()
    ensures LexJson(Normalized("")) == WithoutSpacing(LexJson("")) && TextOf(LexJson("")) == ""
  {}

  lemma QuoteIsNoSpacing()
    ensures !IsSpacing('"')
  {}

  lemma KeptJsonToken(s: string, first: Token, n: nat)
    requires s != "" && 0 < n <= |s|
    requires first == if s[0] == '"' then Literal(s[..n]) else Other(s[0])
    requires s[0] == '"' ==> n == 1 + LiteralRest(s[1..], false)
    requires s[0] != '"' ==> n == 1
    ensures LexJson(s[..n] + Normalized(s[n..])) == [first] + LexJson(Normalized(s[n..]))
  {
    var rest := Normalized(s[n..]);
    var all := s[..n] + rest;
    assert all[0] == s[0] && all[n..] == rest && all[..n] == s[..n];
    if n == |s| {
      assert s[n..] == "" && rest == "" && all == s;
    } else if s[0] == '"' {
      hide ScanJson, LiteralRest;
      LiteralEnds(s[1..], false, rest);
      assert all[1..] == s[1..][..n - 1] + rest;
    }
  }

  lemma {:induction false} SpacingGone(tokens: seq<Token>)
    ensures WithoutSpacing(WithoutSpacing(tokens)) == WithoutSpacing(tokens)
    ensures forall t :: t in WithoutSpacing(tokens) ==> t in tokens
  {
    if tokens != [] {
      SpacingGone(tokens[1..]);
      WithoutStep(tokens[0], WithoutSpacing(tokens[1..]));
      assert tokens == [tokens[0]] + tokens[1..];
      assert [] + WithoutSpacing(tokens[1..]) == WithoutSpacing(tokens[1..]);
    }
  }

  lemma {:induction false} LexJsonSpells(s: string)
    ensures TextOf(LexJson(s)) == s
    decreases |s|
  {
    hide *;
    if s == "" {
      NothingNormalized();
    } else {
      var first, n := LexJsonStep(s);
      LexJsonSpells(s[n..]);
      TokensStep(first, LexJson(s[n..]));
      assert s[..n] + s[n..] == s && [s[0]] == s[..1];
    }
  }

  lemma StaysInStrings(s: string, t: string)
    requires BackslashesInStrings(s) && LexJson(t) == WithoutSpacing(LexJson(s))
    ensures BackslashesInStrings(t)
  {
    SpacingGone(LexJson(s));
  }

  /** Normalizing again changes nothing, when every backslash is in a string. */
  lemma NormalizedTwice(s: string)
    requires BackslashesInStrings(s)
    ensures Normalized(Normalized(s)) == Normalized(s)
  {
    hide *;
    NormalizedTokens(s);
    SpacingGone(LexJson(s));
    StaysInStrings(s, Normalized(s));
    NormalizedTokens(Normalized(s));
    LexJsonSpells(Normalized(Normalized(s)));
    LexJsonSpells(Normalized(s));
  }

  /* ---------- normalizing again, whatever the text ---------- */

  /** The scanner's flags after a text. */
  function FlagsAfter(s: string, inString: bool, wasBackslash: bool): (bool, bool) {
    if s == "" then (inString, wasBackslash)
    else
      var now := if s[0] == '"' && !wasBackslash then !inString else inString;
      FlagsAfter(s[1..], now, s[0] == '\\' && !wasBackslash)
  }

  /** The text ends inside a string. */
  predicate Inside(s: string) { FlagsAfter(s, false, false).0 }

  /** The text ends in a backslash that escapes the next character. */
  predicate Escapes(s: string) { FlagsAfter(s, false, false).1 }

  /** The same, as if the spacing at the end were not there. */
  predicate EscapesUnspaced(s: string) {
    s != "" &&
    var front, last := s[..|s| - 1], s[|s| - 1];
    if IsSpacing(last) then EscapesUnspaced(front) else last == '\\' && !EscapesUnspaced(front)
  }

  /** An odd number of quotes stand outside strings where it matters for their meaning
      whether the spacing between backslashes and quote counts. */
  predicate Turned(s: string) {
    s != "" &&
    var front, last := s[..|s| - 1], s[|s| - 1];
    if last == '"' && !Inside(front) && Escapes(front) != EscapesUnspaced(front) then !Turned(front) else Turned(front)
  }

  lemma {:induction false} ScanLast(s: string, c: char, inString: bool, wasBackslash: bool)
    ensures var flags := FlagsAfter(s, inString, wasBackslash);
            var now := if c == '"' && !flags.1 then !flags.0 else flags.0;
            && FlagsAfter(s + [c], inString, wasBackslash) == (now, c == '\\' && !flags.1)
            && ScanJson(s + [c], inString, wasBackslash)
               == ScanJson(s, inString, wasBackslash) + (if !now && IsSpacing(c) then "" else [c])
  {
    hide FlagsAfter, ScanJson, IsSpacing;
    FlagsNothing();
    if s == "" {
      assert s + [c] == [c] + "";
      FlagsStep(c, "", inString, wasBackslash);
      ScanJsonStep(c, "", inString, wasBackslash);
    } else {
      var d, rest := s[0], s[1..];
      var now := if d == '"' && !wasBackslash then !inString else inString;
      assert s == [d] + rest && s + [c] == [d] + (rest + [c]);
      FlagsStep(d, rest, inString, wasBackslash);
      FlagsStep(d, rest + [c], inString, wasBackslash);
      ScanJsonStep(d, rest, inString, wasBackslash);
      ScanJsonStep(d, rest + [c], inString, wasBackslash);
      ScanLast(rest, c, now, d == '\\' && !wasBackslash);
    }
  }

  lemma FlagsNothing()
    ensures forall i, w :: FlagsAfter("", i, w) == (i, w) && ScanJson("", i, w) == ""
  {}

  lemma FlagsStep(c: char, rest: string, inString: bool, wasBackslash: bool)
    ensures FlagsAfter([c] + rest, inString, wasBackslash)
            == FlagsAfter(rest, if c == '"' && !wasBackslash then !inString else inString, c == '\\' && !wasBackslash)
  {
    assert ([c] + rest)[1..] == rest;
  }

  lemma OneLonger(s: string)
    requires s != ""
    ensures s == s[..|s| - 1] + [s[|s| - 1]]
  {}

  /** One more character, read for the first time. */
  lemma LastRead(front: string, c: char)
    ensures var now := if c == '"' && !Escapes(front) then !Inside(front) else Inside(front);
            && Inside(front + [c]) == now && Escapes(front + [c]) == (c == '\\' && !Escapes(front))
            && Normalized(front + [c]) == Normalized(front) + (if !now && IsSpacing(c) then "" else [c])
  {
    ScanLast(front, c, false, false);
  }

  lemma NoText()
    ensures Normalized("") == "" && !Inside("") && !Escapes("") && !Turned("") && SpacingSafe("")
  {}

  /** The flags of the second pass: outside strings the spacing before a quote is gone. */
  lemma {:induction false} FlagsAgain(s: string)
    ensures Escapes(Normalized(s)) == if Inside(s) then Escapes(s) else EscapesUnspaced(s)
    ensures Inside(Normalized(s)) == (Inside(s) != Turned(s))
    decreases |s|
  {
    hide FlagsAfter, ScanJson, Normalized, Inside, Escapes;
    if s == "" {
      NoText();
    } else {
      var front, c := s[..|s| - 1], s[|s| - 1];
      FlagsAgain(front);
      OneLonger(s);
      LastRead(front, c);
      LastRead(Normalized(front), c);
      assert Normalized(front) + "" == Normalized(front);
    }
  }

  lemma {:induction false} NotLonger(s: string)
    ensures |Normalized(s)| <= |s|
    decreases |s|
  {
    if s != "" {
      NotLonger(s[..|s| - 1]);
      OneLonger(s);
      LastRead(s[..|s| - 1], s[|s| - 1]);
      hide ScanJson, FlagsAfter;
    }
  }

  /** No spacing in a string after an odd number of ambiguous quotes. */
  predicate SpacingSafe(s: string) {
    forall i :: 0 <= i < |s| && IsSpacing(s[i]) && Inside(s[..i]) ==> !Turned(s[..i])
  }

  lemma SafeLast(front: string, c: char)
    ensures SpacingSafe(front + [c]) <==> SpacingSafe(front) && (IsSpacing(c) && Inside(front) ==> !Turned(front))
  {
    hide IsSpacing, Inside, Turned;
    var s := front + [c];
    assert forall i :: 0 <= i < |front| ==> s[i] == front[i] && s[..i] == front[..i];
    assert s[|front|] == c && s[..|front|] == front;
  }

  lemma SameLast(a: string, b: string, c: char)
    ensures a + [c] == b + [c] <==> a == b
    ensures |a| <= |b| ==> a != b + [c]
  {
    assert (a + [c])[..|a|] == a && (b + [c])[..|b|] == b;
  }

  /** Normalizing again changes nothing exactly when no string with spacing comes after an
      odd number of quotes that only spacing keeps from, or makes, being escaped. */
  lemma {:induction false} NormalizedTwiceExactly(s: string)
    ensures Normalized(Normalized(s)) == Normalized(s) <==> SpacingSafe(s)
    decreases |s|
  {
    hide FlagsAfter, ScanJson, Turned, Inside, Escapes, Normalized, SpacingSafe;
    if s == "" {
      NoText();
    } else {
      var front, c := s[..|s| - 1], s[|s| - 1];
      var once := Normalized(front);
      NormalizedTwiceExactly(front);
      OneLonger(s);
      SafeLast(front, c);
      LastRead(front, c);
      LastRead(once, c);
      assert once + "" == once && Normalized(once) + "" == Normalized(once);
      FlagsAgain(front);
      NotLonger(once);
      SameLast(Normalized(once), once, c);
    }
  }

  /** A backslash and a space before a string: the second pass takes the string for plain
      text. */
  lemma BackslashHidesString()
    ensures Normalized("\\ \" \"") == "\\\" \"" && Normalized("\\\" \"") == "\\\"\""
  {
    hide ScanJson;
    LastQuote();
    assert [' '] + "\"" == " \"" && ['"'] + " \"" == "\" \"" && [' '] + "\" \"" == " \" \"";
    assert ['\\'] + " \" \"" == "\\ \" \"" && ['\\'] + "\" \"" == "\\\" \"";
    assert "" + "\" \"" == "\" \"" && ['\\'] + "\"\"" == "\\\"\"" && ['"'] + "\"" == "\"\"" && "" + "\"" == "\"";
    ScanJsonStep(' ', "\"", true, false);
    ScanJsonStep('"', " \"", false, false);
    ScanJsonStep(' ', "\" \"", false, true);
    ScanJsonStep('\\', " \" \"", false, false);
    ScanJsonStep(' ', "\"", false, false);
    ScanJsonStep('"', " \"", false, true);
    ScanJsonStep('\\', "\" \"", false, false);
  }

  lemma LastQuote()
    ensures ScanJson("\"", true, false) == "\"" && ScanJson("\"", false, false) == "\""
  {}

  /** Texts that differ only in the spacing outside their strings normalize to
      the same text. */
  lemma SpacingIgnored(a: string, b: string)
    requires BackslashesInStrings(a) && BackslashesInStrings(b)
    requires WithoutSpacing(LexJson(a)) == WithoutSpacing(LexJson(b))
    ensures Normalized(a) == Normalized(b)
  {
    hide *;
    NormalizedTokens(a);
    NormalizedTokens(b);
    LexJsonSpells(Normalized(a));
    LexJsonSpells(Normalized(b));
  }

  /* ---------- the checksum ---------- */

  datatype Content = TextFile(text: string) | Binary(bytes: string)

  /** The hexadecimal MD5 sum of the bytes of a text. */
  type Sum = string -> string

  predicate IsSettingsData(path: string) {
    path == "config/settings_data.json" || EndsWith(path, "/settings_data.json")
  }

  function Find(s: string, part: string): (i: Option<nat>)
    ensures i.Some? ==> i.value + |part| <= |s|
  {
    if StartsWith(s, part) then Some(0)
    else if s == "" then None
    else
      match Find(s[1..], part)
      case None => None
      case Some(i) => Some(i + 1)
  }

  function WithoutFirstBlock(s: string): string {
    match Find(s, "/*")
    case None => s
    case Some(start) =>
      match Find(s[start + 2..], "*/")
      case None => s
      case Some(end) => s[..start] + s[start + 2 + end + 2..]
  }

  function Minified(s: string): string { Normalized(WithoutFirstBlock(ToLf(s))) }

  function Calculate(key: string, content: Option<Content>, sum: Sum): string {
    match content
    case None => ""
    case Some(Binary(bytes)) => sum(bytes)
    case Some(TextFile(text)) =>
      if IsSettingsData(key) then sum(Minified(text))
      else if FileSystem.IsTextFile(key) then sum(ToLf(text))
      else sum(text)
  }

  /** What is summed: the bytes of a binary file, the text of a text file with plain line
      ends, and of settings data the text without the spacing outside strings. */
  lemma WhatIsSummed(key: string, text: string, bytes: string, sum: Sum)
    requires '\r' !in text
    ensures Calculate(key, Some(Binary(bytes)), sum) == sum(bytes)
    ensures !IsSettingsData(key) ==> Calculate(key, Some(TextFile(text)), sum) == sum(text)
    ensures IsSettingsData(key) && !Contains(text, "/*") ==>
              Calculate(key, Some(TextFile(text)), sum) == sum(Normalized(text))
  {
    hide IsSettingsData, FileSystem.IsTextFile, Normalized, Find, Contains, ToLf;
    LineEndingsReturn(text);
    NotFound(text, "/*");
  }

  lemma {:induction false} NotFound(s: string, part: string)
    ensures Find(s, part).Some? ==> Contains(s, part)
  {
    if StartsWith(s, part) {
      assert s[0..] == s;
    } else if s != "" {
      NotFound(s[1..], part);
      if Find(s, part).Some? {
        var i :| 0 <= i <= |s[1..]| - |part| && StartsWith(s[1..][i..], part);
        assert s[1..][i..] == s[i + 1..];
      }
    }
  }

  /** Text files have one checksum whatever their line endings. */
  lemma LineEndingsIgnored(key: string, text: string, sum: Sum)
    requires '\r' !in text && (IsSettingsData(key) || FileSystem.IsTextFile(key))
    ensures Calculate(key, Some(TextFile(ToCrlf(text))), sum) == Calculate(key, Some(TextFile(text)), sum)
  {
    hide ToLf, ToCrlf, IsSettingsData, FileSystem.IsTextFile, WithoutFirstBlock, Normalized;
    LineEndingsReturn(text);
  }

  lemma {:induction false} FindClose(comment: string, rest: string)
    requires Find(comment, "*/") == None
    ensures Find(comment + ("*/" + rest), "*/") == Some(|comment|)
  {
    var s := comment + ("*/" + rest);
    if comment == "" {
      assert s == "*/" + rest && s[..2] == "*/";
    } else {
      assert s[1..] == comment[1..] + ("*/" + rest);
      FindClose(comment[1..], rest);
      TwoChars(s, "*/");
      TwoChars(comment, "*/");
    }
  }

  lemma TwoChars(s: string, pair: string)
    requires |pair| == 2
    ensures StartsWith(s, pair) <==> |s| >= 2 && s[0] == pair[0] && s[1] == pair[1]
  {
    if |s| >= 2 { assert s[..2] == [s[0], s[1]] && pair == [pair[0], pair[1]]; }
  }

  /** A comment put before a settings file that has no block comment of its own
      leaves its checksum as it was. */
  lemma HeaderIgnored(key: string, comment: string, json: string, sum: Sum)
    requires IsSettingsData(key) && '\r' !in comment && '\r' !in json
    requires Find(comment, "*/") == None && WithoutFirstBlock(json) == json
    ensures Calculate(key, Some(TextFile("/*" + (comment + ("*/" + json)))), sum)
            == Calculate(key, Some(TextFile(json)), sum)
  {
    var s := "/*" + (comment + ("*/" + json));
    assert forall c :: c in s ==> c in "/*" || c in comment || c in json;
    hide ToLf, ToCrlf, IsSettingsData, FileSystem.IsTextFile, Normalized;
    LineEndingsReturn(s);
    LineEndingsReturn(json);
    HeaderRemoved(comment, json);
  }

  lemma FindAtOnce(s: string, part: string)
    requires StartsWith(s, part)
    ensures Find(s, part) == Some(0)
  {}

  lemma HeaderRemoved(comment: string, json: string)
    requires Find(comment, "*/") == None
    ensures WithoutFirstBlock("/*" + (comment + ("*/" + json))) == json
  {
    hide *;
    var s := "/*" + (comment + ("*/" + json));
    Spelled(comment, json, s);
    FindAtOnce(s, "/*");
    FindClose(comment, json);
    BlockCut(s, |comment|, json);
  }

  lemma Spelled(comment: string, json: string, s: string)
    requires s == "/*" + (comment + ("*/" + json))
    ensures StartsWith(s, "/*") && s[2..] == comment + ("*/" + json) && s[2 + |comment| + 2..] == json
  {}

  lemma BlockCut(s: string, n: nat, json: string)
    requires Find(s, "/*") == Some(0) && |s| >= 2 && Find(s[2..], "*/") == Some(n)
    requires |s| >= n + 4 && s[2 + n + 2..] == json
    ensures WithoutFirstBlock(s) == json
  {
    hide Find;
    assert s[..0] + json == json;
  }
}
