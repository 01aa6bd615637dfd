/** Operations read back from their printed form, and what the brace count means. */
module GqlRoundTrip {
  import opened Text
  import opened GqlGrammar

  /** A GraphQL type; `required` marks the elements of a list. */
  datatype GqlType = Name(name: string) | List(element: GqlType, required: bool)

  datatype Declared = Declared(name: string, gqlType: GqlType, nonNull: bool)

  predicate IsName(s: string) { s != "" && forall c :: c in s ==> IsNameChar(c) }

  predicate WellNamed(t: GqlType) {
    match t
    case Name(name) => IsName(name)
    case List(element, _) => WellNamed(element)
  }

  predicate Ends(k: string) { k == "" || !IsNameChar(k[0]) }

  function Mark(required: bool): string { if required then "!" else "" }

  /** The printed type, and then other text. */
  function TypeText(t: GqlType, k: string): string {
    match t
    case Name(name) => name + k
    case List(element, required) => "[" + TypeText(element, Mark(required) + "]" + k)
  }

  /** The type as the reader keeps it: without the marks inside lists. */
  function Kept(t: GqlType): string {
    match t
    case Name(name) => name
    case List(element, _) => "[" + Kept(element) + "]"
  }

  function VariableText(v: Declared, k: string): string {
    "$" + v.name + (": " + TypeText(v.gqlType, Mark(v.nonNull) + k))
  }

  function VariablesText(vars: seq<Declared>, k: string): string {
    if vars == [] then ")" + k
    else VariableText(vars[0], (if |vars| == 1 then "" else ", ") + VariablesText(vars[1..], k))
  }

  function KeptVariables(vars: seq<Declared>): seq<Variable> {
    if vars == [] then []
    else [Variable(vars[0].name, Kept(vars[0].gqlType), vars[0].nonNull)] + KeptVariables(vars[1..])
  }

  function OperationText(isQuery: bool, name: string, vars: seq<Declared>, body: string): string {
    (if isQuery then "query" else "mutation") + (" " + (name + Rest(vars, body)))
  }

  function Rest(vars: seq<Declared>, body: string): string {
    if vars == [] then " " + body else "(" + VariablesText(vars, " " + body)
  }

  lemma {:induction false} NameReads(name: string, k: string)
    requires (forall c :: c in name ==> IsNameChar(c)) && Ends(k)
    ensures NameLength(name + k) == |name| && (name + k)[..|name|] == name && (name + k)[|name|..] == k
  {
    if name == "" {
      assert name + k == k;
    } else {
      assert name[0] in name && (name + k)[1..] == name[1..] + k;
      NameReads(name[1..], k);
    }
  }

  lemma MarkReads(required: bool, k: string)
    ensures Ends(Mark(required) + "]" + k)
    ensures Drop(Drop(Mark(required) + "]" + k, '!'), ']') == k
  {}

  /** A printed type is read up to its end, and kept without the marks inside. */
  lemma {:induction false} TypeReads(t: GqlType, k: string)
    requires WellNamed(t) && Ends(k)
    ensures ReadType(TypeText(t, k)).0 == Kept(t) && ReadType(TypeText(t, k)).1 == k
    ensures Kept(t) != "" && TypeText(t, k) != ""
    ensures TypeText(t, k)[0] == '[' || IsNameChar(TypeText(t, k)[0])
  {
    match t
    case Name(name) =>
      NameReads(name, k);
      assert name[0] in name && (name + k)[0] == name[0];
    case List(element, required) =>
      var inner := Mark(required) + "]" + k;
      MarkReads(required, k);
      TypeReads(element, inner);
      assert TypeText(t, k)[1..] == TypeText(element, inner);
  }

  lemma NothingSkipped(s: string)
    requires s != "" && !IsBlank(s[0]) && s[0] != '#'
    ensures SkipWs(s) == s
  {}

  lemma BlankSkipped(c: char, s: string)
    requires IsBlank(c)
    ensures SkipWs([c] + s) == SkipWs(s)
  {
    assert ([c] + s)[1..] == s;
  }

  /** A printed variable is read as itself. */
  lemma VariableReads(v: Declared, k: string)
    requires IsName(v.name) && WellNamed(v.gqlType) && Ends(k) && !At(k, '!')
    ensures ReadVariable(VariableText(v, k)) == Next(Variable(v.name, Kept(v.gqlType), v.nonNull), k)
  {
    hide SkipWs, NameLength, ReadType, WellNamed, Kept, TypeText, IsNameChar;
    var after := Mark(v.nonNull) + k;
    var typ := TypeText(v.gqlType, after);
    var s := VariableText(v, k);
    var u := v.name + (": " + typ);
    assert s[0] == '$' && s[1..] == u;
    NothingSkipped(s);
    TypeEnds(v.nonNull, k);
    NameReads(v.name, ": " + typ);
    NothingSkipped(": " + typ);
    assert (": " + typ)[1..] == " " + typ;
    BlankSkipped(' ', typ);
    TypeReads(v.gqlType, after);
    TypeStarts(typ);
  }

  lemma TypeEnds(nonNull: bool, k: string)
    requires Ends(k) && !At(k, '!')
    ensures Ends(Mark(nonNull) + k)
    ensures At(Mark(nonNull) + k, '!') == nonNull && Drop(Mark(nonNull) + k, '!') == k
    ensures !IsNameChar(':')
  {
    if !nonNull { assert Mark(nonNull) + k == k; }
  }

  lemma TypeStarts(typ: string)
    requires typ != "" && (typ[0] == '[' || IsNameChar(typ[0]))
    ensures SkipWs(typ) == typ
  {}

  predicate Printable(v: Declared) { IsName(v.name) && WellNamed(v.gqlType) }

  lemma PrintableParts(v: Declared)
    requires Printable(v)
    ensures IsName(v.name) && WellNamed(v.gqlType)
  {}

  lemma NothingKept()
    ensures KeptVariables([]) == []
  {}

  lemma ListEnds(k: string)
    ensures ReadVariable(")" + k) == Stop(k)
  {
    NothingSkipped(")" + k);
  }

  lemma SeparatorSkipped(s: string)
    ensures Variables(", " + s) == Variables(s)
  {
    hide SkipWs;
    assert ", " + s == [','] + ([' '] + s);
    BlankSkipped(',', [' '] + s);
    BlankSkipped(' ', s);
    assert ReadVariable(", " + s) == ReadVariable(s);
  }

  lemma VariablesStep(s: string)
    ensures ReadVariable(s).Stop? ==> Variables(s) == ([], ReadVariable(s).rest)
    ensures ReadVariable(s).Next? ==>
              && Variables(s).0 == [ReadVariable(s).variable] + Variables(ReadVariable(s).rest).0
              && Variables(s).1 == Variables(ReadVariable(s).rest).1
  {
    hide ReadVariable;
  }

  /** A printed variable list is read up to its parenthesis. */
  lemma {:induction false} VariablesRead(vars: seq<Declared>, k: string)
    requires forall v :: v in vars ==> Printable(v)
    ensures Variables(VariablesText(vars, k)).0 == KeptVariables(vars)
    ensures Variables(VariablesText(vars, k)).1 == k
    decreases |vars|
  {
    hide Variables, ReadVariable, VariableText, Printable, IsNameChar;
    VariablesStep(VariablesText(vars, k));
    if vars == [] {
      ListEnds(k);
    } else {
      var tail := VariablesText(vars[1..], k);
      var rest := (if |vars| == 1 then "" else ", ") + tail;
      TailEnds(vars, k);
      assert Printable(vars[0]);
      PrintableParts(vars[0]);
      VariableReads(vars[0], rest);
      VariablesRead(vars[1..], k);
      SeparatorSkipped(tail);
      assert |vars| == 1 ==> rest == tail;
    }
  }

  lemma TailEnds(vars: seq<Declared>, k: string)
    requires vars != []
    ensures var rest := (if |vars| == 1 then "" else ", ") + VariablesText(vars[1..], k); Ends(rest) && !At(rest, '!')
  {
    hide VariableText;
    if |vars| == 1 { assert VariablesText(vars[1..], k) == ")" + k; }
  }

  /** Printing an operation and reading it gives it back, with the types as they
      are kept. */
  lemma OperationReads(isQuery: bool, name: string, vars: seq<Declared>, body: string)
    requires IsName(name) && (forall v :: v in vars ==> Printable(v)) && At(body, '{') && Closes(body, 0)
    ensures var content := OperationText(isQuery, name, vars, body);
            Parse(content) == Some(Operation(isQuery, name, Trim(content), KeptVariables(vars)))
  {
    hide SkipWs, Closes, Trim, AfterKeyword, Variables, Printable, VariablesText, KeptVariables, IsName;
    var content := OperationText(isQuery, name, vars, body);
    var tail := " " + (name + Rest(vars, body));
    NothingSkipped(content);
    if isQuery {
      assert content == "query" + tail;
      assert content[..5] == "query" && content[5..] == tail;
    } else {
      assert content == "mutation" + tail;
      assert content[..8] == "mutation" && content[8..] == tail && content[0] == 'm';
      assert !StartsWith(content, "query") by { PrefixHead(content, "query"); }
    }
    HeadReads(isQuery, name, vars, body, content);
  }

  lemma HeadReads(isQuery: bool, name: string, vars: seq<Declared>, body: string, content: string)
    requires IsName(name) && (forall v :: v in vars ==> Printable(v)) && At(body, '{') && Closes(body, 0)
    ensures AfterKeyword(isQuery, " " + (name + Rest(vars, body)), content)
            == Some(Operation(isQuery, name, Trim(content), KeptVariables(vars)))
  {
    hide SkipWs, Closes, Trim, Variables, Printable, VariablesText, KeptVariables, NameLength, IsNameChar;
    var rest := Rest(vars, body);
    assert " " + (name + rest) == [' '] + (name + rest);
    BlankSkipped(' ', name + rest);
    NameStarts(name, rest);
    HeadEnds(vars, body);
    NameReads(name, rest);
    NothingSkipped(body);
    BlankSkipped(' ', body);
    assert [' '] + body == " " + body;
    if vars == [] {
      NothingKept();
    } else {
      NothingSkipped(rest);
      assert rest[1..] == VariablesText(vars, " " + body);
      VariablesRead(vars, " " + body);
    }
  }

  lemma NameStarts(name: string, k: string)
    requires IsName(name)
    ensures name + k != "" && SkipWs(name + k) == name + k && forall c :: c in name ==> IsNameChar(c)
  {
    assert name[0] in name && (name + k)[0] == name[0];
  }

  lemma HeadEnds(vars: seq<Declared>, body: string)
    ensures Ends(Rest(vars, body))
  {
    hide VariablesText;
  }

  /** A variable list up to a variable with a default value, which may come after any
      other variables; `more` is the value and all that follows. */
  function DefaultText(before: seq<Declared>, v: Declared, more: string): string {
    if before == [] then VariableText(v, " =" + more)
    else VariableText(before[0], ", " + DefaultText(before[1..], v, more))
  }

  /** An operation with a default value on any of its variables is not read at all. */
  lemma DefaultValueRejected(isQuery: bool, name: string, before: seq<Declared>, v: Declared, more: string)
    requires IsName(name) && Printable(v) && forall w :: w in before ==> Printable(w)
    ensures Parse((if isQuery then "query" else "mutation") + (" " + (name + ("(" + DefaultText(before, v, more)))))
            == None
  {
    hide SkipWs, Closes, Trim, Variables, DefaultText, NameLength, IsNameChar, AfterKeyword, WellNamed;
    var list := DefaultText(before, v, more);
    var rest := "(" + list;
    var tail := " " + (name + rest);
    var content := (if isQuery then "query" else "mutation") + tail;
    NothingSkipped(content);
    if isQuery {
      assert content[..5] == "query" && content[5..] == tail;
    } else {
      assert content[..8] == "mutation" && content[8..] == tail && content[0] == 'm';
      assert !StartsWith(content, "query") by { PrefixHead(content, "query"); }
    }
    StopsAtDefault(before, v, more);
    NothingAfterDefault(isQuery, name, list, more, content);
  }

  lemma NothingAfterDefault(isQuery: bool, name: string, list: string, more: string, content: string)
    requires IsName(name) && Variables(list).1 == "=" + more
    ensures AfterKeyword(isQuery, " " + (name + ("(" + list)), content) == None
  {
    hide SkipWs, Closes, Trim, Variables, NameLength, WellNamed;
    var rest := "(" + list;
    assert " " + (name + rest) == [' '] + (name + rest);
    BlankSkipped(' ', name + rest);
    NameStarts(name, rest);
    NameReads(name, rest);
    NothingSkipped(rest);
    assert rest[1..] == list;
    NothingSkipped("=" + more);
  }

  lemma {:induction false} StopsAtDefault(before: seq<Declared>, v: Declared, more: string)
    requires Printable(v) && forall w :: w in before ==> Printable(w)
    ensures Variables(DefaultText(before, v, more)).1 == "=" + more
    decreases |before|
  {
    hide SkipWs, Variables, VariableText, WellNamed, ReadType, ReadVariable, Printable, IsNameChar;
    VariablesStep(DefaultText(before, v, more));
    if before == [] {
      PrintableParts(v);
      EqualsStops(more);
      VariableReads(v, " =" + more);
    } else {
      var tail := DefaultText(before[1..], v, more);
      assert Printable(before[0]);
      PrintableParts(before[0]);
      CommaEnds(tail);
      VariableReads(before[0], ", " + tail);
      SeparatorSkipped(tail);
      StopsAtDefault(before[1..], v, more);
    }
  }

  lemma CommaEnds(tail: string)
    ensures Ends(", " + tail) && !At(", " + tail, '!')
  {}

  lemma EqualsStops(more: string)
    ensures Variables(" =" + more).1 == "=" + more
    ensures Ends(" =" + more) && !At(" =" + more, '!')
  {
    hide SkipWs, Variables;
    VariablesStep(" =" + more);
    assert " =" + more == [' '] + ("=" + more);
    BlankSkipped(' ', "=" + more);
    NothingSkipped("=" + more);
  }

  /* ---------- comments and trimming ---------- */

  lemma {:induction false} LineRead(line: string, s: string)
    requires '\n' !in line
    ensures LineEnd(line + ("\n" + s)) == "\n" + s
  {
    var all := line + ("\n" + s);
    if line == "" {
      assert all == "\n" + s;
    } else {
      assert all[1..] == line[1..] + ("\n" + s) && all[0] == line[0];
      LineRead(line[1..], s);
    }
  }

  /** A comment in front of an operation or of a variable changes nothing that is read. */
  lemma CommentSkipped(line: string, s: string)
    requires '\n' !in line
    ensures SkipWs("#" + (line + ("\n" + s))) == SkipWs(s)
    ensures Variables("#" + (line + ("\n" + s))) == Variables(s)
  {
    hide LineEnd;
    var rest := line + ("\n" + s);
    assert ("#" + rest)[1..] == rest && ("#" + rest)[0] == '#';
    LineRead(line, s);
    BlankSkipped('\n', s);
    assert ['\n'] + s == "\n" + s;
    hide SkipWs;
    assert ReadVariable("#" + rest) == ReadVariable(s);
  }

  lemma {:induction false} StartTrimmed(s: string) returns (n: nat)
    ensures n <= |s| && TrimStart(s) == s[n..] && forall i :: 0 <= i < n ==> IsSpace(s[i])
    ensures n < |s| ==> !IsSpace(s[n])
  {
    n := 0;
    if s != "" && IsSpace(s[0]) {
      var m := StartTrimmed(s[1..]);
      n := m + 1;
      assert s[1..][m..] == s[n..];
      assert forall i :: 0 < i < n ==> s[i] == s[1..][i - 1];
    }
  }

  lemma {:induction false} EndTrimmed(s: string) returns (n: nat)
    ensures n <= |s| && TrimEnd(s) == s[..n] && forall i :: n <= i < |s| ==> IsSpace(s[i])
    ensures n > 0 ==> !IsSpace(s[n - 1])
    decreases |s|
  {
    n := |s|;
    if s != "" && IsSpace(s[|s| - 1]) {
      var front := s[..|s| - 1];
      n := EndTrimmed(front);
      assert front[..n] == s[..n];
      assert forall i :: 0 <= i < |front| ==> s[i] == front[i];
    }
  }

  /** Trimming takes the white space at both ends, and no more. */
  lemma TrimMeaning(s: string) returns (a: nat, b: nat)
    ensures a <= b <= |s| && Trim(s) == s[a..b]
    ensures forall i :: 0 <= i < a || b <= i < |s| ==> IsSpace(s[i])
    ensures a < b ==> !IsSpace(s[a]) && !IsSpace(s[b - 1])
  {
    hide TrimStart, TrimEnd, IsSpace;
    a := StartTrimmed(s);
    var t := s[a..];
    var n := EndTrimmed(t);
    b := a + n;
    assert t[..n] == s[a..b];
    assert forall i :: a <= i < |s| ==> s[i] == t[i - a];
  }

  /* ---------- braces ---------- */

  function Count(s: string, c: char): nat {
    if s == "" then 0 else (if s[0] == c then 1 else 0) + Count(s[1..], c)
  }

  /** Up to position `n` the text closes as many braces as it opens, and `depth` more. */
  predicate BalancedAt(s: string, depth: nat, n: nat) {
    n <= |s| && Count(s[..n], '}') == Count(s[..n], '{') + depth
  }

  lemma CountStep(s: string, n: nat, c: char)
    requires 0 < n <= |s|
    ensures Count(s[..n], c) == (if s[0] == c then 1 else 0) + Count(s[1..][..n - 1], c)
  {
    assert s[..n][1..] == s[1..][..n - 1];
  }

  /** The count of open braces comes down to zero exactly when some prefix closes
      all of them. */
  lemma {:induction false} ClosesMeaning(s: string, depth: nat)
    requires depth > 0
    ensures Closes(s, depth) <==> exists n: nat :: BalancedAt(s, depth, n)
    decreases |s|
  {
    if s == "" {
      forall n: nat ensures !BalancedAt(s, depth, n) { if n == 0 { assert s[..n] == ""; } }
    } else {
      var next := if s[0] == '{' then depth + 1 else if s[0] == '}' then depth - 1 else depth;
      if next > 0 { ClosesMeaning(s[1..], next); }
      assert s[..0] == "" && s[1..][..0] == "";
      forall n: nat | 0 < n <= |s| ensures BalancedAt(s, depth, n) <==> BalancedAt(s[1..], next, n - 1) {
        CountStep(s, n, '{');
        CountStep(s, n, '}');
      }
      if Closes(s, depth) {
        if next == 0 {
          assert BalancedAt(s[1..], next, 0);
          assert BalancedAt(s, depth, 1);
        } else {
          var n: nat :| BalancedAt(s[1..], next, n);
          assert BalancedAt(s, depth, n + 1);
        }
      } else if exists n: nat :: BalancedAt(s, depth, n) {
        var n: nat :| BalancedAt(s, depth, n);
        assert n > 0;
        assert BalancedAt(s[1..], next, n - 1);
      }
    }
  }
}
