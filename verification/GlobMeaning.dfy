/** The compiled text of every pattern is a regular expression that matches
    exactly the texts the pattern stands for. */
module GlobMeaning {
  import opened Text
  import opened Regex
  import G = Glob

  /* ---------- the text reads as the intended expression ---------- */

  function Literals(text: string): (nodes: seq<Node>)
    ensures |nodes| == |text|
  {
    if text == "" then [] else [Lit(text[0])] + Literals(text[1..])
  }

  function Branches(options: seq<string>): seq<Branch> {
    if options == [] then [] else [Branch(Literals(options[0]))] + Branches(options[1..])
  }

  function TokenNodes(token: G.Token): seq<Node> {
    match token
    case Directories => [Opt(Group([Branch([Star(NotNewline), Lit('/')])]))]
    case Anything => [Star(NotNewline)]
    case Segment => [Star(NotSlash)]
    case OneCharacter => [NotSlash]
    case Choice(options) => [Group(Branches(options))]
    case EmptyBraces => [Lit('{'), Lit('}')]
    case Literal(c) => [Lit(c)]
  }

  function PatternNodes(p: string): seq<Node>
    decreases |p|
  {
    if p == "" then [] else TokenNodes(G.Next(p).0) + PatternNodes(G.Next(p).1)
  }

  /** Text that can follow a piece without changing how the piece is read. */
  predicate NoPostfix(k: string) { !At(k, '*') && !At(k, '?') }

  lemma SequenceStep(t: string, atom: Node, k: string)
    requires t != "" && t[0] != '|' && t[0] != ')' && ReadAtom(t) == Ok(atom, k)
    requires NoPostfix(k) && ReadSequence(k).Ok?
    ensures ReadSequence(t) == Ok([atom] + ReadSequence(k).value, ReadSequence(k).rest)
  {
    hide ReadAtom;
  }

  lemma PostfixStep(t: string, atom: Node, mark: char, k: string)
    requires t != "" && t[0] != '|' && t[0] != ')' && ReadAtom(t) == Ok(atom, [mark] + k)
    requires (mark == '*' || mark == '?') && ReadSequence(k).Ok?
    ensures ReadSequence(t)
            == Ok([if mark == '*' then Star(atom) else Opt(atom)] + ReadSequence(k).value, ReadSequence(k).rest)
  {
    hide ReadAtom;
    assert ([mark] + k)[1..] == k;
  }

  /** A character of a pattern that is written as itself or escaped. */
  lemma CharRead(c: char, escaped: bool, k: string)
    requires if escaped then IsEscapable(c) else !IsMeta(c)
    ensures var text := if escaped then ['\\', c] else [c];
            text + k != "" && (text + k)[0] != '|' && (text + k)[0] != ')'
            && ReadAtom(text + k) == Ok(Lit(c), k)
  {
    hide ReadAlternatives;
    var text := if escaped then ['\\', c] else [c];
    assert (text + k)[|text|..] == k;
  }

  lemma {:induction false} LiteralsRead(text: string, k: string)
    requires k != "" && (k[0] == '|' || k[0] == ')')
    ensures ReadSequence(G.Escape(text) + k) == Ok(Literals(text), k)
    decreases |text|
  {
    hide IsMeta, ReadAtom, ReadSequence, G.EscapeChar;
    if text == "" {
      assert "" + k == k;
      SequenceEnd(k);
    } else {
      var tail := G.Escape(text[1..]) + k;
      LiteralsRead(text[1..], k);
      EscapedCharRead(text[0], tail);
      EscapeHead(text[1..], k);
      assert G.Escape(text) + k == G.EscapeChar(text[0]) + tail;
      SequenceStep(G.Escape(text) + k, Lit(text[0]), tail);
    }
  }

  lemma SequenceEnd(k: string)
    requires k == "" || k[0] == '|' || k[0] == ')'
    ensures ReadSequence(k) == Ok([], k)
  {
    hide ReadAtom;
  }

  lemma EscapedCharRead(c: char, k: string)
    ensures var t := G.EscapeChar(c) + k;
            t != "" && t[0] != '|' && t[0] != ')' && ReadAtom(t) == Ok(Lit(c), k)
  {
    hide ReadAtom;
    CharRead(c, |G.EscapeChar(c)| == 2, k);
  }

  lemma EscapeHead(text: string, k: string)
    requires NoPostfix(k)
    ensures NoPostfix(G.Escape(text) + k)
  {
    if text == "" { assert G.Escape(text) + k == k; }
  }

  lemma {:induction false} BranchesRead(options: seq<string>, k: string)
    requires options != []
    ensures ReadAlternatives(Join(G.EscapeAll(options), "|") + (")" + k)) == Ok(Branches(options), ")" + k)
    decreases |options|
  {
    hide ReadSequence, G.Escape;
    var first := G.Escape(options[0]);
    if |options| == 1 {
      LiteralsRead(options[0], ")" + k);
      assert G.EscapeAll(options) == [first];
      assert options[1..] == [] && Branches(options) == [Branch(Literals(options[0]))];
      assert (")" + k)[0] == ')';
    } else {
      var tail := Join(G.EscapeAll(options[1..]), "|") + (")" + k);
      LiteralsRead(options[0], "|" + tail);
      BranchesRead(options[1..], k);
      assert G.EscapeAll(options)[1..] == G.EscapeAll(options[1..]);
      assert Join(G.EscapeAll(options), "|") + (")" + k) == first + ("|" + tail);
      assert ("|" + tail)[1..] == tail;
    }
  }

  lemma GroupRead(options: seq<string>, k: string)
    requires options != []
    ensures var t := "(" + Join(G.EscapeAll(options), "|") + ")" + k;
            ReadAtom(t) == Ok(Group(Branches(options)), k)
  {
    hide ReadAlternatives;
    var body := Join(G.EscapeAll(options), "|");
    var t := "(" + body + ")" + k;
    BranchesRead(options, k);
    assert t[1..] == body + (")" + k);
    BodyHead(options);
    assert !At(t[1..], '?');
    if |t| >= 3 { assert t[..3][1] == t[1]; }
    assert (")" + k)[1..] == k;
  }

  lemma {:induction false} BodyHead(options: seq<string>)
    requires options != []
    ensures NoPostfix(Join(G.EscapeAll(options), "|"))
  {
    var first := G.Escape(options[0]);
    EscapeHead(options[0], "");
    assert first + "" == first;
    assert G.EscapeAll(options)[0] == first;
  }

  lemma DirectoriesRead(k: string)
    ensures ReadAtom("(?:.*/)" + k) == Ok(Group([Branch([Star(NotNewline), Lit('/')])]), k)
  {
    hide ReadSequence;
    var t := "(?:.*/)" + k;
    var tail := "/)" + k;
    assert t[..3] == "(?:" && t[3..] == ".*" + tail;
    SequenceEnd(")" + k);
    assert tail[1..] == ")" + k;
    SequenceStep(tail, Lit('/'), ")" + k);
    assert (".*" + tail)[1..] == "*" + tail;
    PostfixStep(".*" + tail, NotNewline, '*', tail);
    assert [Star(NotNewline)] + ([Lit('/')] + []) == [Star(NotNewline), Lit('/')];
    assert (")" + k)[1..] == k;
  }

  /** A token's text, in front of text that is read already. */
  lemma TokenRead(p: string, k: string)
    requires p != "" && NoPostfix(k) && ReadSequence(k).Ok?
    ensures ReadSequence(G.TokenText(G.Next(p).0) + k)
            == Ok(TokenNodes(G.Next(p).0) + ReadSequence(k).value, ReadSequence(k).rest)
  {
    hide ReadSequence, ReadAtom, IsMeta, Split, G.EscapeAll, StartsWith, G.BraceEnd;
    match G.Next(p).0
    case Directories =>
      assert "(?:.*/)?" + k == "(?:.*/)" + ("?" + k);
      DirectoriesRead("?" + k);
      PostfixStep("(?:.*/)?" + k, Group([Branch([Star(NotNewline), Lit('/')])]), '?', k);
    case Anything =>
      DotRead("*" + k);
      assert ".*" + k == "." + ("*" + k);
      PostfixStep(".*" + k, NotNewline, '*', k);
    case Segment =>
      SlashClassRead("*" + k);
      assert "[^/]*" + k == "[^/]" + ("*" + k);
      PostfixStep("[^/]*" + k, NotSlash, '*', k);
    case OneCharacter =>
      SlashClassRead(k);
      SequenceStep("[^/]" + k, NotSlash, k);
    case Choice(options) =>
      GroupRead(options, k);
      SequenceStep("(" + Join(G.EscapeAll(options), "|") + ")" + k, Group(Branches(options)), k);
    case EmptyBraces =>
      var tail := "\\}" + k;
      BracesRead(k);
      SequenceStep(tail, Lit('}'), k);
      assert "\\{\\}" + k == "\\{" + tail;
      SequenceStep("\\{" + tail, Lit('{'), tail);
      assert [Lit('{')] + ([Lit('}')] + ReadSequence(k).value) == [Lit('{'), Lit('}')] + ReadSequence(k).value;
    case Literal(c) =>
      LiteralCharacter(p);
      CharRead(c, G.Special(c), k);
      SequenceStep(G.TokenText(G.Literal(c)) + k, Lit(c), k);
  }

  lemma DotRead(k: string)
    ensures ReadAtom("." + k) == Ok(NotNewline, k)
  {
    hide ReadAlternatives;
    assert ("." + k)[1..] == k;
  }

  lemma SlashClassRead(k: string)
    ensures ReadAtom("[^/]" + k) == Ok(NotSlash, k)
  {
    hide ReadAlternatives;
    assert ("[^/]" + k)[..4] == "[^/]" && ("[^/]" + k)[4..] == k;
  }

  lemma BracesRead(k: string)
    ensures ReadAtom("\\{" + ("\\}" + k)) == Ok(Lit('{'), "\\}" + k)
    ensures ReadAtom("\\}" + k) == Ok(Lit('}'), k)
  {
    hide ReadAtom;
    CharRead('{', true, "\\}" + k);
    CharRead('}', true, k);
  }

  lemma LiteralCharacter(p: string)
    requires p != "" && G.Next(p).0.Literal?
    ensures var c := G.Next(p).0.c; if G.Special(c) then IsEscapable(c) else !IsMeta(c)
  {
    hide StartsWith, Split, G.BraceEnd;
  }

  lemma PatternHead(p: string, k: string)
    requires NoPostfix(k)
    ensures NoPostfix(G.PatternText(p) + k)
  {
    hide StartsWith, Split, G.BraceEnd, G.EscapeAll, Join;
    if p == "" { assert G.PatternText(p) + k == k; }
  }

  lemma {:induction false} PatternRead(p: string)
    ensures ReadSequence(G.PatternText(p) + "$") == Ok(PatternNodes(p) + [End], "")
    decreases |p|
  {
    hide ReadSequence, G.Next, G.TokenText, TokenNodes;
    if p == "" {
      EndRead();
      assert [] + [End] == [End];
      assert "" + "$" == "$";
    } else {
      var rest := G.Next(p).1;
      PatternRead(rest);
      PatternHead(rest, "$");
      TokenRead(p, G.PatternText(rest) + "$");
      assert G.PatternText(p) + "$" == G.TokenText(G.Next(p).0) + (G.PatternText(rest) + "$");
      assert PatternNodes(p) + [End] == TokenNodes(G.Next(p).0) + (PatternNodes(rest) + [End]);
    }
  }

  lemma EndRead()
    ensures ReadSequence("$") == Ok([End], "")
  {
    SequenceEnd("");
    assert "$"[1..] == "";
    SequenceStep("$", End, "");
    assert [End] + [] == [End];
  }

  /** The compiled text is well formed, and what it denotes. */
  lemma RegexTextCompiles(p: string)
    ensures Compile(G.RegexText(p)) == Some(Group([Branch([Start] + (PatternNodes(p) + [End]))]))
  {
    hide ReadSequence, G.PatternText, PatternNodes;
    PatternRead(p);
    PatternHead(p, "$");
    var tail := G.PatternText(p) + "$";
    assert G.RegexText(p) == "^" + tail;
    StartRead(tail);
    SequenceStep("^" + tail, Start, tail);
  }

  lemma StartRead(k: string)
    ensures ReadAtom("^" + k) == Ok(Start, k)
  {
    hide ReadAlternatives;
    assert ("^" + k)[1..] == k;
  }

  /* ---------- the expression matches what the pattern stands for ---------- */

  lemma {:induction false} StarMatches(inner: Node, s: string, i: nat, j: nat)
    requires (inner == NotNewline || inner == NotSlash) && i <= j <= |s|
    ensures MatchNode(Star(inner), s, i, j) <==> (if inner == NotNewline then '\n' else '/') !in s[i..j]
    decreases j - i
  {
    if i < j {
      var c := if inner == NotNewline then '\n' else '/';
      assert s[i..j] == [s[i]] + s[i + 1..j];
      StarMatches(inner, s, i + 1, j);
      if MatchNode(Star(inner), s, i, j) {
        var k := FirstTurn(inner, s, i, j);
        assert k == i + 1;
      }
      if c !in s[i..j] {
        assert Turn(Star(inner), s, i, i + 1, j);
      }
    }
  }

  lemma FirstTurn(inner: Node, s: string, i: nat, j: nat) returns (k: nat)
    requires i < j <= |s| && MatchNode(Star(inner), s, i, j)
    ensures i < k <= j && MatchNode(inner, s, i, k) && MatchNode(Star(inner), s, k, j)
  {
    k :| i < k <= j && Turn(Star(inner), s, i, k, j);
  }

  lemma {:induction false} LiteralsMatch(text: string, s: string, i: nat, j: nat)
    requires i <= j <= |s|
    ensures MatchAll(Literals(text), s, i, j) <==> s[i..j] == text
    decreases |text|
  {
    if text != "" {
      var nodes := Literals(text);
      if MatchAll(nodes, s, i, j) {
        var k := FirstCut(nodes, s, i, j);
        LiteralsMatch(text[1..], s, k, j);
        assert k == i + 1;
        assert s[i..j] == [s[i]] + s[k..j];
      }
      if s[i..j] == text {
        assert s[i] == text[0];
        assert s[i + 1..j] == text[1..];
        LiteralsMatch(text[1..], s, i + 1, j);
        assert Cut(nodes, s, i, i + 1, j);
      }
    }
  }

  lemma {:induction false} BranchOf(options: seq<string>, branch: Branch) returns (option: string)
    requires branch in Branches(options)
    ensures option in options && branch == Branch(Literals(option))
  {
    if branch == Branch(Literals(options[0])) {
      option := options[0];
    } else {
      option := BranchOf(options[1..], branch);
    }
  }

  lemma {:induction false} BranchFor(options: seq<string>, option: string)
    requires option in options
    ensures Branch(Literals(option)) in Branches(options)
  {
    if option != options[0] { BranchFor(options[1..], option); }
  }

  lemma ChoiceMatches(options: seq<string>, s: string, i: nat, j: nat)
    requires i <= j <= |s|
    ensures MatchNode(Group(Branches(options)), s, i, j) <==> s[i..j] in options
  {
    if MatchNode(Group(Branches(options)), s, i, j) {
      var b := SomeBranch(Branches(options), s, i, j);
      var option := BranchOf(options, b);
      LiteralsMatch(option, s, i, j);
    }
    if s[i..j] in options {
      BranchFor(options, s[i..j]);
      LiteralsMatch(s[i..j], s, i, j);
      BranchMatches(Branch(Literals(s[i..j])), Branches(options), s, i, j);
    }
  }

  lemma SomeBranch(branches: seq<Branch>, s: string, i: nat, j: nat) returns (b: Branch)
    requires i <= j <= |s| && MatchNode(Group(branches), s, i, j)
    ensures b in branches && MatchAll(b.nodes, s, i, j)
  {
    b :| b in branches && MatchAll(b.nodes, s, i, j);
  }

  lemma BranchMatches(b: Branch, branches: seq<Branch>, s: string, i: nat, j: nat)
    requires i <= j <= |s| && b in branches && MatchAll(b.nodes, s, i, j)
    ensures MatchNode(Group(branches), s, i, j)
  {}

  lemma DirectoriesMatch(s: string, i: nat, j: nat)
    requires i <= j <= |s|
    ensures MatchAll(TokenNodes(G.Directories), s, i, j) <==> G.Takes(G.Directories, s[i..j])
  {
    var path := [Star(NotNewline), Lit('/')];
    var group := Group([Branch(path)]);
    MatchOne(Opt(group), s, i, j);
    if i < j {
      PathMatches(s, i, j);
      if MatchNode(group, s, i, j) { var b := SomeBranch([Branch(path)], s, i, j); }
      if MatchAll(path, s, i, j) { BranchMatches(Branch(path), [Branch(path)], s, i, j); }
      assert s[i..j] != "";
      OptMatches(group, s, i, j);
    } else {
      assert s[i..j] == "";
      OptMatches(group, s, i, j);
    }
  }

  lemma OptMatches(node: Node, s: string, i: nat, j: nat)
    requires i <= j <= |s|
    ensures MatchNode(Opt(node), s, i, j) <==> i == j || MatchNode(node, s, i, j)
  {}

  lemma PathMatches(s: string, i: nat, j: nat)
    requires i < j <= |s|
    ensures MatchAll([Star(NotNewline), Lit('/')], s, i, j) <==> s[j - 1] == '/' && '\n' !in s[i..j - 1]
    ensures s[i..j][|s[i..j]| - 1] == s[j - 1] && s[i..j][..|s[i..j]| - 1] == s[i..j - 1]
  {
    var path := [Star(NotNewline), Lit('/')];
    assert path[1..] == [Lit('/')];
    if MatchAll(path, s, i, j) {
      var k := FirstCut(path, s, i, j);
      MatchOne(Lit('/'), s, k, j);
      StarMatches(NotNewline, s, i, k);
    }
    if s[j - 1] == '/' && '\n' !in s[i..j - 1] {
      StarMatches(NotNewline, s, i, j - 1);
      MatchOne(Lit('/'), s, j - 1, j);
      assert Cut(path, s, i, j - 1, j);
    }
  }

  lemma BracesMatch(s: string, i: nat, j: nat)
    requires i <= j <= |s|
    ensures MatchAll([Lit('{'), Lit('}')], s, i, j) <==> s[i..j] == "{}"
  {
    assert Literals("{}") == [Lit('{'), Lit('}')] by {
      assert "{}"[1..] == "}" && "}"[1..] == "";
      assert Literals("}") == [Lit('}')];
    }
    LiteralsMatch("{}", s, i, j);
  }

  lemma TokenMatches(token: G.Token, s: string, i: nat, j: nat)
    requires i <= j <= |s|
    ensures MatchAll(TokenNodes(token), s, i, j) <==> G.Takes(token, s[i..j])
  {
    hide MatchAll, MatchNode;
    match token
    case Directories => DirectoriesMatch(s, i, j);
    case Anything => MatchOne(Star(NotNewline), s, i, j); StarMatches(NotNewline, s, i, j);
    case Segment => MatchOne(Star(NotSlash), s, i, j); StarMatches(NotSlash, s, i, j);
    case OneCharacter => MatchOne(NotSlash, s, i, j); CharMatches(NotSlash, s, i, j);
    case Choice(options) => MatchOne(Group(Branches(options)), s, i, j); ChoiceMatches(options, s, i, j);
    case EmptyBraces => BracesMatch(s, i, j);
    case Literal(c) => MatchOne(Lit(c), s, i, j); CharMatches(Lit(c), s, i, j);
  }

  lemma CharMatches(node: Node, s: string, i: nat, j: nat)
    requires i <= j <= |s| && (node == NotSlash || node.Lit?)
    ensures MatchNode(node, s, i, j) <==>
            |s[i..j]| == 1 && if node.Lit? then s[i..j] == [node.c] else s[i..j][0] != '/'
  {}

  /** From any position to the end of the text. */
  lemma {:induction false} PatternMatches(p: string, s: string, i: nat)
    requires i <= |s|
    ensures MatchAll(PatternNodes(p), s, i, |s|) <==> G.Accepts(p, s[i..])
    decreases |p|
  {
    hide MatchAll, MatchNode, TokenNodes, G.Next, G.Takes;
    if p == "" {
      NothingMatches(s, i);
    } else {
      var (token, rest) := G.Next(p);
      MatchAppend(TokenNodes(token), PatternNodes(rest), s, i, |s|);
      if MatchAll(PatternNodes(p), s, i, |s|) {
        var k :| i <= k <= |s| && SplitAt(TokenNodes(token), PatternNodes(rest), s, i, k, |s|);
        PatternCut(p, s, i, k);
        assert G.AcceptsAt(p, s[i..], k - i);
      }
      if G.Accepts(p, s[i..]) {
        var n := AcceptsCut(p, s[i..]);
        PatternCut(p, s, i, i + n);
        assert SplitAt(TokenNodes(token), PatternNodes(rest), s, i, i + n, |s|);
      }
    }
  }

  lemma AcceptsCut(p: string, s: string) returns (n: nat)
    requires p != "" && G.Accepts(p, s)
    ensures n <= |s| && G.AcceptsAt(p, s, n)
  {
    n :| 0 <= n <= |s| && G.AcceptsAt(p, s, n);
  }

  lemma NothingMatches(s: string, i: nat)
    requires i <= |s|
    ensures MatchAll([], s, i, |s|) <==> s[i..] == ""
  {}

  lemma {:induction false} PatternCut(p: string, s: string, i: nat, k: nat)
    requires p != "" && i <= k <= |s|
    ensures SplitAt(TokenNodes(G.Next(p).0), PatternNodes(G.Next(p).1), s, i, k, |s|)
            <==> G.AcceptsAt(p, s[i..], k - i)
    decreases |p|, 0
  {
    hide MatchAll, MatchNode, TokenNodes, G.Next, G.Takes;
    TokenMatches(G.Next(p).0, s, i, k);
    PatternMatches(G.Next(p).1, s, k);
    assert s[i..][..k - i] == s[i..k] && s[i..][k - i..] == s[k..];
  }

  /** The regular expression text compiled from a pattern compiles, and its
      unanchored search succeeds on exactly the texts the pattern stands for. */
  lemma GlobMeansItsRegex(p: string, s: string)
    ensures Compile(G.RegexText(p)).Some?
    ensures IsMatch(Compile(G.RegexText(p)).value, s) <==> G.Accepts(p, s)
  {
    hide MatchAll, MatchNode, Compile, G.RegexText, PatternNodes, G.Accepts;
    RegexTextCompiles(p);
    var nodes := [Start] + (PatternNodes(p) + [End]);
    var node := Group([Branch(nodes)]);
    PatternMatches(p, s, 0);
    assert s[0..] == s;
    if IsMatch(node, s) {
      var i: nat, j: nat :| i <= j <= |s| && MatchNode(node, s, i, j);
      var b := SomeBranch([Branch(nodes)], s, i, j);
      Anchored(PatternNodes(p), s, i, j);
    }
    if MatchAll(PatternNodes(p), s, 0, |s|) {
      Anchored(PatternNodes(p), s, 0, |s|);
      BranchMatches(Branch(nodes), [Branch(nodes)], s, 0, |s|);
    }
  }

  lemma Anchored(nodes: seq<Node>, s: string, i: nat, j: nat)
    requires i <= j <= |s|
    ensures MatchAll([Start] + (nodes + [End]), s, i, j) <==> i == 0 && j == |s| && MatchAll(nodes, s, 0, |s|)
  {
    hide MatchAll;
    MatchAppend([Start], nodes + [End], s, i, j);
    MatchOne(Start, s, i, i);
    forall k | i <= k <= j ensures MatchAll([Start], s, i, k) <==> i == k == 0 { MatchOne(Start, s, i, k); }
    MatchAppend(nodes, [End], s, i, j);
    forall k | i <= k <= j ensures MatchAll([End], s, k, j) <==> k == j == |s| { MatchOne(End, s, k, j); }
    if MatchAll([Start] + (nodes + [End]), s, i, j) {
      var k :| i <= k <= j && SplitAt([Start], nodes + [End], s, i, k, j);
    }
    if MatchAll(nodes + [End], s, i, j) {
      var k :| i <= k <= j && SplitAt(nodes, [End], s, i, k, j);
    }
    if i == 0 && j == |s| {
      assert SplitAt(nodes, [End], s, 0, |s|, |s|) <==> MatchAll(nodes, s, 0, |s|);
      assert SplitAt([Start], nodes + [End], s, 0, 0, |s|) <==> MatchAll(nodes + [End], s, 0, |s|);
    }
  }
}
