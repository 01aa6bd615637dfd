/** How patterns are read: printing tokens and reading the text gives the tokens back,
    every pattern is the print of such tokens, and it stands for the keys that split
    into one piece for each of them. */
module GlobTokens {
  import opened Text
  import opened Glob

  /** A token as it is written in a pattern. */
  function Spelled(token: Token): string {
    match token
    case Directories => "**/"
    case Anything => "**"
    case Segment => "*"
    case OneCharacter => "?"
    case Choice(options) => "{" + (Join(options, ",") + "}")
    case EmptyBraces => "{}"
    case Literal(c) => [c]
  }

  function Print(tokens: seq<Token>): string {
    if tokens == [] then "" else Spelled(tokens[0]) + Print(tokens[1..])
  }

  /** The token can be told apart from what follows it. */
  predicate Clear(token: Token, rest: string) {
    match token
    case Anything => !(rest != "" && rest[0] == '/')
    case Segment => !(rest != "" && rest[0] == '*')
    case Choice(options) =>
      options != [] && options != [""] && forall o :: o in options ==> ',' !in o && '}' !in o
    case Literal(c) => c != '*' && c != '?' && c != '{'
    case _ => true
  }

  predicate Printable(tokens: seq<Token>) {
    tokens != [] ==> Clear(tokens[0], Print(tokens[1..])) && Printable(tokens[1..])
  }

  /** The text is made of one piece for each token, in order. */
  ghost predicate Splits(tokens: seq<Token>, s: string) {
    exists pieces: seq<string> :: IsSplit(tokens, pieces, s)
  }

  predicate IsSplit(tokens: seq<Token>, pieces: seq<string>, s: string) {
    |pieces| == |tokens| && Concat(pieces) == s && forall i :: 0 <= i < |tokens| ==> Takes(tokens[i], pieces[i])
  }

  /* ---------- printed tokens ---------- */

  lemma {:induction false} JoinedHasNone(options: seq<string>, c: char)
    requires c != ',' && forall o :: o in options ==> c !in o
    ensures c !in Join(options, ",")
    ensures Join(options, ",") == "" <==> options == [] || options == [""]
  {
    if |options| > 1 {
      JoinedHasNone(options[1..], c);
    } else if |options| == 1 {
      assert options == [options[0]];
    }
  }

  lemma {:induction false} BraceEndAt(inside: string, rest: string)
    requires '}' !in inside
    ensures BraceEnd(inside + ("}" + rest)) == |inside|
  {
    var all := inside + ("}" + rest);
    if inside == "" {
      assert all == "}" + rest;
    } else {
      assert all[1..] == inside[1..] + ("}" + rest) && all[0] == inside[0];
      BraceEndAt(inside[1..], rest);
    }
  }

  lemma ChoiceRead(options: seq<string>, rest: string)
    requires Clear(Choice(options), rest)
    ensures Next("{" + (Join(options, ",") + "}") + rest) == (Choice(options), rest)
  {
    hide Join, Split, BraceEnd;
    var inside := Join(options, ",");
    JoinedHasNone(options, '}');
    BraceEndAt(inside, rest);
    SplitJoin(options, ',');
    var p := "{" + (inside + "}") + rest;
    assert p == "{" + (inside + ("}" + rest)) && p[1..] == inside + ("}" + rest);
    assert p[1..][..|inside|] == inside && p[1..][|inside| + 1..] == rest;
    PrefixHead(p, "**/");
    PrefixHead(p, "**");
  }

  /** A clear token is read back. */
  lemma NextRead(token: Token, rest: string)
    requires Clear(token, rest)
    ensures Spelled(token) + rest != "" && Next(Spelled(token) + rest) == (token, rest)
  {
    match token
    case Choice(options) => ChoiceRead(options, rest);
    case EmptyBraces =>
      BraceEndAt("", rest);
      assert "" + ("}" + rest) == "}" + rest && ("{}" + rest)[1..] == "}" + rest && ("}" + rest)[1..] == rest;
      PrefixHead("{}" + rest, "**/");
      PrefixHead("{}" + rest, "**");
    case Literal(c) =>
      assert ([c] + rest)[1..] == rest;
      PrefixHead([c] + rest, "**/");
      PrefixHead([c] + rest, "**");
    case OneCharacter =>
      assert ("?" + rest)[1..] == rest;
      PrefixHead("?" + rest, "**/");
      PrefixHead("?" + rest, "**");
    case Segment =>
      assert ("*" + rest)[1..] == rest;
      Lookahead("*" + rest, 0);
      assert ("*" + rest)[0..] == "*" + rest;
    case Anything =>
      assert ("**" + rest)[2..] == rest;
      Lookahead("**" + rest, 0);
      assert ("**" + rest)[0..] == "**" + rest;
    case Directories =>
      assert ("**/" + rest)[3..] == rest && ("**/" + rest)[..3] == "**/";
  }

  lemma FirstPiece(token: Token, tokens: seq<Token>, s: string)
    ensures Splits([token] + tokens, s) <==>
            exists n :: 0 <= n <= |s| && Takes(token, s[..n]) && Splits(tokens, s[n..])
  {
    hide Takes;
    var all := [token] + tokens;
    assert all[1..] == tokens;
    if pieces: seq<string> :| IsSplit(all, pieces, s) {
      var n := |pieces[0]|;
      assert s[..n] == pieces[0] && s[n..] == Concat(pieces[1..]);
      assert forall i :: 0 <= i < |tokens| ==> tokens[i] == all[i + 1] && pieces[1..][i] == pieces[i + 1];
      assert IsSplit(tokens, pieces[1..], s[n..]);
    }
    if n :| 0 <= n <= |s| && Takes(token, s[..n]) && Splits(tokens, s[n..]) {
      var pieces: seq<string> :| IsSplit(tokens, pieces, s[n..]);
      var more := [s[..n]] + pieces;
      assert more[1..] == pieces && s[..n] + s[n..] == s;
      assert IsSplit(all, more, s);
    }
  }

  lemma NoPieces(s: string)
    ensures Splits([], s) <==> s == ""
  {
    assert s == "" ==> IsSplit([], [], s);
  }

  /** A printed pattern stands for exactly the texts that split into pieces for its
      tokens. */
  lemma {:induction false} PrintedAccepts(tokens: seq<Token>, s: string)
    requires Printable(tokens)
    ensures Accepts(Print(tokens), s) <==> Splits(tokens, s)
    decreases |tokens|
  {
    hide Next, Takes, Splits, Clear, Spelled;
    if tokens == [] {
      NoPieces(s);
    } else {
      var token, rest := tokens[0], tokens[1..];
      assert tokens == [token] + rest;
      NextRead(token, Print(rest));
      FirstPiece(token, rest, s);
      forall n | 0 <= n <= |s| ensures Accepts(Print(rest), s[n..]) <==> Splits(rest, s[n..]) {
        PrintedAccepts(rest, s[n..]);
      }
      AcceptsStep(Print(tokens), s);
    }
  }

  lemma AcceptsStep(p: string, s: string)
    requires p != ""
    ensures Accepts(p, s) <==>
            exists n :: 0 <= n <= |s| && Takes(Next(p).0, s[..n]) && Accepts(Next(p).1, s[n..])
  {
    hide Next, Takes;
    if n :| 0 <= n <= |s| && AcceptsAt(p, s, n) {
      assert Takes(Next(p).0, s[..n]) && Accepts(Next(p).1, s[n..]);
    }
    if n :| 0 <= n <= |s| && Takes(Next(p).0, s[..n]) && Accepts(Next(p).1, s[n..]) { assert AcceptsAt(p, s, n); }
  }

  /* ---------- every pattern ---------- */

  function TokensOf(p: string): seq<Token>
    decreases |p|
  {
    if p == "" then [] else [Next(p).0] + TokensOf(Next(p).1)
  }

  /** The last brace of the text is open: what follows it has no closing one. */
  ghost predicate EndsOpen(p: string) {
    exists i :: 0 <= i < |p| && p[i] == '{' && '}' !in p[i + 1..]
  }

  lemma {:induction false} SplitParts(s: string, sep: char, c: char)
    requires c !in s
    ensures forall o :: o in Split(s, sep) ==> c !in o
  {
    if s != "" { SplitParts(s[1..], sep, c); }
  }

  /** The first token of a pattern is clear of what follows, and its print is what was
      read; a brace that is never closed reads as if it were closed at the end. */
  lemma NextPrints(p: string)
    requires p != ""
    ensures var (token, rest) := Next(p);
            && (Spelled(token) + rest == p || (rest == "" && Spelled(token) == p + "}" && p[0] == '{' && '}' !in p[1..]))
            && Clear(token, rest)
  {
    Lookahead(p, 0);
    assert p[0..] == p && p == [p[0]] + p[1..];
    if StartsWith(p, "**/") {
      assert p == "**/" + p[3..];
    } else if StartsWith(p, "**") {
      assert p == "**" + p[2..];
    } else if p[0] == '{' {
      BracesPrint(p);
    }
  }

  lemma BracesPrint(p: string)
    requires p != "" && p[0] == '{' && !StartsWith(p, "**/") && !StartsWith(p, "**")
    ensures var (token, rest) := Next(p);
            && (Spelled(token) + rest == p || (rest == "" && Spelled(token) == p + "}" && '}' !in p[1..]))
            && Clear(token, rest)
  {
    var n := BraceEnd(p[1..]);
    var inside := p[1..][..n];
    NextBraces(p);
    hide Next, BraceEnd, Split, Join, StartsWith, Print;
    JoinSplit(inside, ',');
    SplitParts(inside, ',', '}');
    OnlyEmpty(inside);
    InsideBraces(p, inside, n);
  }

  lemma NextBraces(p: string)
    requires p != "" && p[0] == '{' && !StartsWith(p, "**/") && !StartsWith(p, "**")
    ensures var n := BraceEnd(p[1..]);
            && Next(p).0 == (if n == 0 then EmptyBraces else Choice(Split(p[1..][..n], ',')))
            && Next(p).1 == if n < |p[1..]| then p[1..][n + 1..] else ""
  {
    hide BraceEnd, Split;
  }

  lemma InsideBraces(p: string, inside: string, n: nat)
    requires p != "" && p[0] == '{' && n <= |p[1..]| && inside == p[1..][..n] && '}' !in inside
    requires n < |p[1..]| ==> p[1..][n] == '}'
    ensures n < |p[1..]| ==> "{" + (inside + "}") + p[1..][n + 1..] == p
    ensures n == |p[1..]| ==> "{" + (inside + "}") == p + "}" && '}' !in p[1..]
    ensures n == 0 ==> "{" + (inside + "}") == "{}"
  {
    if n < |p[1..]| {
      assert p[1..] == inside + (['}'] + p[1..][n + 1..]);
    } else {
      assert p[1..] == inside;
    }
  }

  lemma OnlyEmpty(s: string)
    ensures Split(s, ',') == [""] ==> s == ""
    ensures forall o :: o in Split(s, ',') ==> ',' !in o
  {
    JoinSplit(s, ',');
    var parts := Split(s, ',');
    forall o | o in parts ensures ',' !in o {
      var i :| 0 <= i < |parts| && parts[i] == o;
    }
  }

  /** Every pattern is the print of tokens that are clear of each other, with a closing
      brace added when the last one is open, and stands for exactly the texts that
      split into pieces for these tokens. */
  lemma {:induction false} EveryPattern(p: string)
    ensures Printable(TokensOf(p))
    ensures Print(TokensOf(p)) == p || (EndsOpen(p) && Print(TokensOf(p)) == p + "}")
    ensures forall s :: Accepts(p, s) <==> Splits(TokensOf(p), s)
    decreases |p|
  {
    hide Next, Takes, Splits, Clear, Spelled, Accepts;
    if p == "" {
      forall s ensures Accepts(p, s) <==> Splits(TokensOf(p), s) { NoPieces(s); EmptyAccepts(s); }
    } else {
      var (token, rest) := Next(p);
      NextPrints(p);
      EveryPattern(rest);
      var tokens := TokensOf(p);
      assert tokens[0] == token && tokens[1..] == TokensOf(rest) && tokens == [token] + TokensOf(rest);
      ClearStill(token, rest, Print(TokensOf(rest)));
      PrintStep(p, token, rest, Print(TokensOf(rest)));
      forall s ensures Accepts(p, s) <==> Splits(tokens, s) {
        FirstPiece(token, TokensOf(rest), s);
        AcceptsStep(p, s);
      }
    }
  }

  lemma EmptyAccepts(s: string)
    ensures Accepts("", s) <==> s == ""
  {}

  lemma ClearStill(token: Token, rest: string, printed: string)
    requires Clear(token, rest) && (printed == rest || printed == rest + "}")
    ensures Clear(token, printed)
  {}

  lemma PrintStep(p: string, token: Token, rest: string, printed: string)
    requires p != ""
    requires Spelled(token) + rest == p
             || (rest == "" && Spelled(token) == p + "}" && p[0] == '{' && '}' !in p[1..])
    requires printed == rest || (EndsOpen(rest) && printed == rest + "}")
    ensures Spelled(token) + printed == p || (EndsOpen(p) && Spelled(token) + printed == p + "}")
  {
    hide Spelled;
    if Spelled(token) + rest == p {
      if printed != rest {
        var i :| 0 <= i < |rest| && rest[i] == '{' && '}' !in rest[i + 1..];
        var k := |Spelled(token)|;
        assert p[k + i] == '{' && p[k + i + 1..] == rest[i + 1..];
        assert Spelled(token) + (rest + "}") == p + "}";
      }
    } else {
      assert printed == "" && Spelled(token) + "" == p + "}";
      assert p[0] == '{' && p[0 + 1..] == p[1..];
    }
  }
}
