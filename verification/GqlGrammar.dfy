/** What the reader of GraphQL operation files accepts, on the text that is left.
    Characters stand for bytes. */
module GqlGrammar {
  import opened Text

  datatype Variable = Variable(name: string, gqlType: string, nonNull: bool)

  datatype Operation = Operation(isQuery: bool, name: string, raw: string, variables: seq<Variable>)

  predicate IsBlank(c: char) { c == ' ' || c == '\t' || c == '\n' || c == '\r' || c == ',' }

  predicate IsNameChar(c: char) { IsAlphanumeric(c) || c == '_' }

  predicate At(s: string, c: char) { s != "" && s[0] == c }

  function SkipBlank(s: string): (rest: string)
    ensures |rest| <= |s| && (rest != "" ==> !IsBlank(rest[0]))
  {
    if s != "" && IsBlank(s[0]) then SkipBlank(s[1..]) else s
  }

  function LineEnd(s: string): (rest: string)
    ensures |rest| <= |s|
  {
    if s == "" || s[0] == '\n' then s else LineEnd(s[1..])
  }

  /** Blanks and comments; a `#` that is the last byte is not a comment. */
  function SkipWs(s: string): (rest: string)
    ensures |rest| <= |s|
    decreases |s|
  {
    var t := SkipBlank(s);
    if |t| >= 2 && t[0] == '#' then SkipWs(LineEnd(t[1..])) else t
  }

  function NameLength(s: string): (n: nat)
    ensures n <= |s|
  {
    if s != "" && IsNameChar(s[0]) then 1 + NameLength(s[1..]) else 0
  }

  function Drop(s: string, c: char): (rest: string)
    ensures |rest| <= |s|
  {
    if At(s, c) then s[1..] else s
  }

  /** A type and the text after it; marks inside lists are dropped. */
  function ReadType(s: string): (r: (string, string))
    ensures |r.1| <= |s|
    decreases |s|
  {
    if At(s, '[') then
      var inner := ReadType(s[1..]);
      ("[" + inner.0 + "]", Drop(Drop(inner.1, '!'), ']'))
    else (s[..NameLength(s)], s[NameLength(s)..])
  }

  /** One variable, or where the list stops. */
  datatype Step = Next(variable: Variable, rest: string) | Stop(rest: string)

  function ReadVariable(s: string): (step: Step)
    ensures step.Next? ==> |step.rest| < |s|
  {
    var t := SkipWs(s);
    if t == "" || t[0] == ')' then Stop(Drop(t, ')'))
    else
      var u := Drop(t, '$');
      var n := NameLength(u);
      if n == 0 then Stop(u)
      else
        var v := SkipWs(u[n..]);
        if !At(v, ':') then Stop(v)
        else
          var typ := ReadType(SkipWs(v[1..]));
          if typ.0 == "" then Stop(typ.1)
          else Next(Variable(u[..n], typ.0, At(typ.1, '!')), Drop(typ.1, '!'))
  }

  function Variables(s: string): (seq<Variable>, string)
    decreases |s|
  {
    match ReadVariable(s)
    case Stop(rest) => ([], rest)
    case Next(v, rest) => ([v] + Variables(rest).0, Variables(rest).1)
  }

  /** The braces come to balance, `depth` of them being open before the text. */
  predicate Closes(s: string, depth: nat) {
    if s == "" then false
    else if s[0] == '{' then Closes(s[1..], depth + 1)
    else if s[0] == '}' then depth == 1 || (depth > 1 && Closes(s[1..], depth - 1))
    else Closes(s[1..], depth)
  }

  predicate IsSpace(c: char) { c == ' ' || '\t' <= c <= '\r' }

  function TrimStart(s: string): string { if s != "" && IsSpace(s[0]) then TrimStart(s[1..]) else s }

  function TrimEnd(s: string): string {
    if s != "" && IsSpace(s[|s| - 1]) then TrimEnd(s[..|s| - 1]) else s
  }

  function Trim(s: string): string { TrimEnd(TrimStart(s)) }

  /** What follows the keyword. */
  function AfterKeyword(isQuery: bool, s: string, content: string): Option<Operation> {
    var t := SkipWs(s);
    var n := NameLength(t);
    if n == 0 then None
    else
      var u := SkipWs(t[n..]);
      var list := if At(u, '(') then Variables(u[1..]) else ([], u);
      var body := SkipWs(list.1);
      if At(body, '{') && Closes(body, 0) then Some(Operation(isQuery, t[..n], Trim(content), list.0)) else None
  }

  function Parse(content: string): Option<Operation> {
    var s := SkipWs(content);
    if StartsWith(s, "query") then AfterKeyword(true, s[5..], content)
    else if StartsWith(s, "mutation") then AfterKeyword(false, s[8..], content)
    else None
  }
}
