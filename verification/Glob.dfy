/** Theme file patterns: their meaning, the regular expression text they are
    compiled to, and the proof that the text means the pattern. */
module Glob {
  import opened Text

  /* ---------- the pattern language ---------- */

  datatype Token =
    | Directories               // `**` and a slash: any leading directories
    | Anything                  // `**`
    | Segment                   // `*`: any text within one path segment
    | OneCharacter              // `?`
    | Choice(options: seq<string>)
    | EmptyBraces               // braces with nothing in them stand for themselves
    | Literal(c: char)

  function BraceEnd(p: string): (n: nat)
    ensures n <= |p| && (n < |p| ==> p[n] == '}') && '}' !in p[..n]
  {
    if p == "" || p[0] == '}' then 0
    else
      var n := BraceEnd(p[1..]);
      assert p[..n + 1] == [p[0]] + p[1..][..n];
      1 + n
  }

  /** The first token of a pattern and the pattern after it. */
  function Next(p: string): (r: (Token, string))
    requires p != ""
    ensures |r.1| < |p|
  {
    if StartsWith(p, "**/") then (Directories, p[3..])
    else if StartsWith(p, "**") then (Anything, p[2..])
    else if p[0] == '*' then (Segment, p[1..])
    else if p[0] == '?' then (OneCharacter, p[1..])
    else if p[0] == '{' then
      var n := BraceEnd(p[1..]);
      var rest := if n < |p[1..]| then p[1..][n + 1..] else "";
      (if n == 0 then EmptyBraces else Choice(Split(p[1..][..n], ',')), rest)
    else (Literal(p[0]), p[1..])
  }

  /** The texts a token stands for.  `**` never crosses a line break. */
  predicate Takes(token: Token, u: string) {
    match token
    case Directories => u == "" || (u[|u| - 1] == '/' && '\n' !in u[..|u| - 1])
    case Anything => '\n' !in u
    case Segment => '/' !in u
    case OneCharacter => |u| == 1 && u[0] != '/'
    case Choice(options) => u in options
    case EmptyBraces => u == "{}"
    case Literal(c) => u == [c]
  }

  /** Whether a pattern stands for a text, by the pattern's tokens alone. */
  predicate Accepts(p: string, s: string)
    decreases |p|, 1
  {
    if p == "" then s == "" else exists n :: 0 <= n <= |s| && AcceptsAt(p, s, n)
  }

  predicate AcceptsAt(p: string, s: string, n: nat)
    requires p != "" && n <= |s|
    decreases |p|, 0
  {
    Takes(Next(p).0, s[..n]) && Accepts(Next(p).1, s[n..])
  }

  /* ---------- the compiled text ---------- */

  predicate Special(c: char) {
    c == '.' || c == '+' || c == '(' || c == ')' || c == '|' || c == '^' || c == '$' || c == '[' || c == ']'
    || c == '\\'
  }

  function EscapeChar(c: char): string {
    if Special(c) || c == '*' || c == '?' || c == '{' || c == '}' then ['\\', c] else [c]
  }

  function Escape(value: string): string {
    if value == "" then "" else EscapeChar(value[0]) + Escape(value[1..])
  }

  function EscapeAll(values: seq<string>): (r: seq<string>)
    ensures |r| == |values|
  {
    if values == [] then [] else [Escape(values[0])] + EscapeAll(values[1..])
  }

  function TokenText(token: Token): string {
    match token
    case Directories => "(?:.*/)?"
    case Anything => ".*"
    case Segment => "[^/]*"
    case OneCharacter => "[^/]"
    case Choice(options) => "(" + Join(EscapeAll(options), "|") + ")"
    case EmptyBraces => "\\{\\}"
    case Literal(c) => if Special(c) then ['\\', c] else [c]
  }

  function PatternText(p: string): string
    decreases |p|
  {
    if p == "" then "" else TokenText(Next(p).0) + PatternText(Next(p).1)
  }

  /** The whole regular expression of a pattern. */
  function RegexText(p: string): string { "^" + PatternText(p) + "$" }

  method RegexEscape(value: string) returns (output: string)
    ensures output == Escape(value)
  {
    hide EscapeChar;
    output := "";
    for i := 0 to |value|
      invariant output + Escape(value[i..]) == Escape(value)
    {
      EscapeStep(value, i);
      output := output + EscapeChar(value[i]);
    }
  }

  lemma EscapeStep(value: string, i: nat)
    requires i < |value|
    ensures Escape(value[i..]) == EscapeChar(value[i]) + Escape(value[i + 1..])
  {
    hide EscapeChar;
    assert value[i..][1..] == value[i + 1..];
  }

  method EscapeOptions(options: seq<string>) returns (escaped: seq<string>)
    ensures escaped == EscapeAll(options)
  {
    hide Escape;
    escaped := [];
    for i := 0 to |options|
      invariant escaped + EscapeAll(options[i..]) == EscapeAll(options)
    {
      assert options[i..][0] == options[i] && options[i..][1..] == options[i + 1..];
      var one := RegexEscape(options[i]);
      escaped := escaped + [one];
    }
  }

  method ReadOptions(pattern: string, start: nat) returns (options: string, i: nat)
    requires start <= |pattern|
    ensures start <= i <= |pattern|
    ensures var n := BraceEnd(pattern[start..]);
            && options == pattern[start..][..n]
            && pattern[i..] == if n < |pattern[start..]| then pattern[start..][n + 1..] else ""
  {
    options := "";
    i := start;
    while i < |pattern|
      invariant start <= i <= |pattern| && options == pattern[start..i]
      invariant i - start + BraceEnd(pattern[i..]) == BraceEnd(pattern[start..])
    {
      var next := pattern[i];
      i := i + 1;
      if next == '}' {
        return;
      }
      options := options + [next];
    }
  }

  /** The piece of regular expression for the pattern at `start`. */
  method NextPiece(pattern: string, start: nat) returns (piece: string, i: nat)
    requires start < |pattern|
    ensures start < i <= |pattern| && pattern[i..] == Next(pattern[start..]).1
    ensures piece == TokenText(Next(pattern[start..]).0)
  {
    hide Split, EscapeAll, BraceEnd, StartsWith, Join, Special;
    Lookahead(pattern, start);
    var ch := pattern[start];
    i := start + 1;
    if ch == '*' && i < |pattern| && pattern[i] == '*' {
      i := i + 1;
      if i < |pattern| && pattern[i] == '/' {
        return "(?:.*/)?", i + 1;
      }
      return ".*", i;
    }
    if ch == '*' {
      return "[^/]*", i;
    }
    if ch == '?' {
      return "[^/]", i;
    }
    if ch == '{' {
      var options;
      options, i := ReadOptions(pattern, i);
      if options == "" {
        return "\\{\\}", i;
      }
      var escaped := EscapeOptions(Split(options, ','));
      return "(" + Join(escaped, "|") + ")", i;
    }
    return if Special(ch) then ['\\', ch] else [ch], i;
  }

  method GlobRegex(pattern: string) returns (regex: string)
    ensures regex == RegexText(pattern)
  {
    hide Next, TokenText;
    regex := "^";
    var i := 0;
    assert pattern[0..] == pattern;
    while i < |pattern|
      invariant i <= |pattern| && regex + PatternText(pattern[i..]) == "^" + PatternText(pattern)
      decreases |pattern| - i
    {
      var piece, next := NextPiece(pattern, i);
      assert PatternText(pattern[i..]) == piece + PatternText(pattern[next..]);
      assert regex + (piece + PatternText(pattern[next..])) == regex + piece + PatternText(pattern[next..]);
      regex := regex + piece;
      i := next;
    }
    regex := regex + "$";
  }

  lemma Lookahead(pattern: string, i: nat)
    requires i < |pattern|
    ensures var here := pattern[i..];
            && (StartsWith(here, "**") <==> pattern[i] == '*' && i + 1 < |pattern| && pattern[i + 1] == '*')
            && (StartsWith(here, "**/") <==> StartsWith(here, "**") && i + 2 < |pattern| && pattern[i + 2] == '/')
  {
    var here := pattern[i..];
    if |here| >= 2 { assert here[..2] == [pattern[i], pattern[i + 1]]; }
    if |here| >= 3 { assert here[..3] == [pattern[i], pattern[i + 1], pattern[i + 2]]; }
  }

  /* ---------- line breaks ---------- */

  /** The texts a token would stand for if `**` crossed line breaks too. */
  predicate TakesAnyText(token: Token, u: string) {
    match token
    case Directories => u == "" || u[|u| - 1] == '/'
    case Anything => true
    case _ => Takes(token, u)
  }

  predicate AcceptsAnyText(p: string, s: string)
    decreases |p|, 1
  {
    if p == "" then s == "" else exists n :: 0 <= n <= |s| && AcceptsAnyTextAt(p, s, n)
  }

  predicate AcceptsAnyTextAt(p: string, s: string, n: nat)
    requires p != "" && n <= |s|
    decreases |p|, 0
  {
    TakesAnyText(Next(p).0, s[..n]) && AcceptsAnyText(Next(p).1, s[n..])
  }

  /** On keys without a line break, `**` stands for any text at all. */
  lemma {:induction false} WithoutLineBreaks(p: string, s: string)
    requires '\n' !in s
    ensures Accepts(p, s) <==> AcceptsAnyText(p, s)
    decreases |p|
  {
    hide Next;
    if p != "" {
      forall n | 0 <= n <= |s|
        ensures AcceptsAt(p, s, n) <==> AcceptsAnyTextAt(p, s, n)
      {
        WithoutLineBreaks(Next(p).1, s[n..]);
        assert '\n' !in s[..n];
      }
    }
  }

  /** `**` alone stands for a key exactly when the key has no line break, while
      the other reading would take every key. */
  lemma StarsStopAtLineBreaks(s: string)
    ensures Accepts("**", s) <==> '\n' !in s
    ensures AcceptsAnyText("**", s)
  {
    assert "**"[2..] == "" && s[..|s|] == s && s[|s|..] == "";
    assert Next("**") == (Anything, "");
    assert AcceptsAnyTextAt("**", s, |s|);
    if '\n' !in s { assert AcceptsAt("**", s, |s|); }
    forall n | 0 <= n <= |s| && AcceptsAt("**", s, n) ensures n == |s| {}
  }
}
