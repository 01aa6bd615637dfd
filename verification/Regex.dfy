/** The fragment of regular expressions the glob compiler writes: anchors,
    escapes, `.`, `[^/]`, groups with alternatives, and the postfix `*` and `?`.
    The text is read by the usual precedence rules and matched by positions. */
module Regex {
  import opened Text

  datatype Node =
    | Lit(c: char)
    | NotNewline
    | NotSlash
    | Start
    | End
    | Star(node: Node)
    | Opt(node: Node)
    | Group(branches: seq<Branch>)

  datatype Branch = Branch(nodes: seq<Node>)

  /* ---------- reading ---------- */

  datatype Read<+T> = Ok(value: T, rest: string) | Bad

  predicate At(s: string, c: char) { s != "" && s[0] == c }

  /** The characters that mean something when they are not escaped. */
  predicate IsMeta(c: char) {
    c == '.' || c == '+' || c == '(' || c == ')' || c == '|' || c == '^' || c == '$' || c == '[' || c == ']'
    || c == '\\' || c == '*' || c == '?' || c == '{'
  }

  predicate IsEscapable(c: char) { IsMeta(c) || c == '}' }

  function ReadAtom(t: string): (r: Read<Node>)
    requires t != ""
    ensures r.Ok? ==> |r.rest| < |t|
    decreases |t|, 0
  {
    if t[0] == '^' then Ok(Start, t[1..])
    else if t[0] == '$' then Ok(End, t[1..])
    else if t[0] == '.' then Ok(NotNewline, t[1..])
    else if t[0] == '\\' then
      if |t| > 1 && IsEscapable(t[1]) then Ok(Lit(t[1]), t[2..]) else Bad
    else if t[0] == '[' then
      if StartsWith(t, "[^/]") then Ok(NotSlash, t[4..]) else Bad
    else if t[0] == '(' then
      if At(t[1..], '?') && !StartsWith(t, "(?:") then Bad
      else
        match ReadAlternatives(if StartsWith(t, "(?:") then t[3..] else t[1..])
        case Ok(alternatives, rest) => if At(rest, ')') then Ok(Group(alternatives), rest[1..]) else Bad
        case Bad => Bad
    else if IsMeta(t[0]) then Bad
    else Ok(Lit(t[0]), t[1..])
  }

  function ReadSequence(t: string): (r: Read<seq<Node>>)
    ensures r.Ok? ==> |r.rest| <= |t|
    decreases |t|, 1
  {
    if t == "" || t[0] == '|' || t[0] == ')' then Ok([], t)
    else
      match ReadAtom(t)
      case Bad => Bad
      case Ok(atom, rest) =>
        var node := if At(rest, '*') then Star(atom) else if At(rest, '?') then Opt(atom) else atom;
        match ReadSequence(if At(rest, '*') || At(rest, '?') then rest[1..] else rest)
        case Ok(nodes, end) => Ok([node] + nodes, end)
        case Bad => Bad
  }

  function ReadAlternatives(t: string): (r: Read<seq<Branch>>)
    ensures r.Ok? ==> |r.rest| <= |t|
    decreases |t|, 2
  {
    match ReadSequence(t)
    case Bad => Bad
    case Ok(nodes, rest) =>
      if At(rest, '|') then
        match ReadAlternatives(rest[1..])
        case Ok(more, end) => Ok([Branch(nodes)] + more, end)
        case Bad => Bad
      else Ok([Branch(nodes)], rest)
  }

  /** The expression a whole text denotes, or nothing when it is not one. */
  function Compile(t: string): Option<Node> {
    match ReadAlternatives(t)
    case Ok(alternatives, rest) => if rest == "" then Some(Group(alternatives)) else None
    case Bad => None
  }

  /* ---------- matching ---------- */

  /** `node` matches `s` from position `i` up to position `j`. */
  ghost predicate MatchNode(node: Node, s: string, i: nat, j: nat)
    requires i <= j <= |s|
    decreases node, j - i, 1
  {
    match node
    case Lit(c) => j == i + 1 && s[i] == c
    case NotNewline => j == i + 1 && s[i] != '\n'
    case NotSlash => j == i + 1 && s[i] != '/'
    case Start => i == j == 0
    case End => i == j == |s|
    case Star(inner) => i == j || exists k :: i < k <= j && Turn(node, s, i, k, j)
    case Opt(inner) => i == j || MatchNode(inner, s, i, j)
    case Group(branches) => exists b :: b in branches && MatchAll(b.nodes, s, i, j)
  }

  /** One turn of a star, up to position `k`, and the turns after it. */
  ghost predicate Turn(star: Node, s: string, i: nat, k: nat, j: nat)
    requires star.Star? && i < k <= j <= |s|
    decreases star, j - i, 0
  {
    MatchNode(star.node, s, i, k) && MatchNode(star, s, k, j)
  }

  ghost predicate MatchAll(nodes: seq<Node>, s: string, i: nat, j: nat)
    requires i <= j <= |s|
    decreases nodes, j - i, 2
  {
    if nodes == [] then i == j else exists k :: i <= k <= j && Cut(nodes, s, i, k, j)
  }

  /** The first node up to position `k`, and the nodes after it. */
  ghost predicate Cut(nodes: seq<Node>, s: string, i: nat, k: nat, j: nat)
    requires nodes != [] && i <= k <= j <= |s|
    decreases nodes, j - i, 1
  {
    MatchNode(nodes[0], s, i, k) && MatchAll(nodes[1..], s, k, j)
  }

  /** The unanchored search `is_match`. */
  ghost predicate IsMatch(node: Node, s: string) {
    exists i, j :: 0 <= i <= j <= |s| && MatchNode(node, s, i, j)
  }

  lemma FirstCut(nodes: seq<Node>, s: string, i: nat, j: nat) returns (k: nat)
    requires nodes != [] && i <= j <= |s| && MatchAll(nodes, s, i, j)
    ensures i <= k <= j && Cut(nodes, s, i, k, j)
  {
    k :| i <= k <= j && Cut(nodes, s, i, k, j);
  }

  lemma MatchOne(node: Node, s: string, i: nat, j: nat)
    requires i <= j <= |s|
    ensures MatchAll([node], s, i, j) <==> MatchNode(node, s, i, j)
  {
    assert [node][1..] == [];
    if MatchAll([node], s, i, j) {
      var k := FirstCut([node], s, i, j);
    }
    assert Cut([node], s, i, j, j) <==> MatchNode(node, s, i, j);
  }

  /** Two sequences one after the other, split at position `k`. */
  ghost predicate SplitAt(left: seq<Node>, right: seq<Node>, s: string, i: nat, k: nat, j: nat)
    requires i <= k <= j <= |s|
  {
    MatchAll(left, s, i, k) && MatchAll(right, s, k, j)
  }

  lemma {:induction false} MatchAppend(left: seq<Node>, right: seq<Node>, s: string, i: nat, j: nat)
    requires i <= j <= |s|
    ensures MatchAll(left + right, s, i, j) <==> exists k :: i <= k <= j && SplitAt(left, right, s, i, k, j)
    decreases |left|
  {
    if MatchAll(left + right, s, i, j) {
      var k := MatchSplit(left, right, s, i, j);
    }
    if k :| i <= k <= j && SplitAt(left, right, s, i, k, j) {
      MatchJoin(left, right, s, i, k, j);
    }
  }

  lemma {:induction false} MatchSplit(left: seq<Node>, right: seq<Node>, s: string, i: nat, j: nat) returns (k: nat)
    requires i <= j <= |s| && MatchAll(left + right, s, i, j)
    ensures i <= k <= j && SplitAt(left, right, s, i, k, j)
    decreases |left|
  {
    if left == [] {
      assert left + right == right;
      k := i;
    } else {
      var both := left + right;
      assert both[0] == left[0] && both[1..] == left[1..] + right;
      var m := FirstCut(both, s, i, j);
      k := MatchSplit(left[1..], right, s, m, j);
      assert Cut(left, s, i, m, k);
    }
  }

  lemma {:induction false} MatchJoin(left: seq<Node>, right: seq<Node>, s: string, i: nat, k: nat, j: nat)
    requires i <= k <= j <= |s| && SplitAt(left, right, s, i, k, j)
    ensures MatchAll(left + right, s, i, j)
    decreases |left|
  {
    if left == [] {
      assert left + right == right;
    } else {
      var both := left + right;
      assert both[0] == left[0] && both[1..] == left[1..] + right;
      var m := FirstCut(left, s, i, k);
      MatchJoin(left[1..], right, s, m, k, j);
      assert Cut(both, s, i, m, j);
    }
  }
}
