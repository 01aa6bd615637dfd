/** The cursor loops of the operation file reader.  A method takes the position
    where the reader uses its cursor; after a variable list that is cut off the
    cursor may stand one past the end. */
module GqlParser {
  import opened Text
  import opened GqlGrammar

  /** The text from a position on, which may lie past the end. */
  function From(bytes: string, pos: nat): string {
    if pos <= |bytes| then bytes[pos..] else ""
  }

  lemma FromStep(bytes: string, pos: nat)
    ensures From(bytes, pos) == "" <==> pos >= |bytes|
    ensures pos < |bytes| ==> From(bytes, pos)[0] == bytes[pos] && From(bytes, pos)[1..] == From(bytes, pos + 1)
    ensures |From(bytes, pos)| == if pos <= |bytes| then |bytes| - pos else 0
  {}

  method SkipBlanks(bytes: string, start: nat) returns (pos: nat)
    ensures start <= pos && (pos <= |bytes| || pos == start)
    ensures From(bytes, pos) == SkipBlank(From(bytes, start))
  {
    hide From;
    pos := start;
    FromStep(bytes, pos);
    while pos < |bytes| && IsBlank(bytes[pos])
      invariant start <= pos && (pos <= |bytes| || pos == start)
      invariant SkipBlank(From(bytes, pos)) == SkipBlank(From(bytes, start))
    {
      FromStep(bytes, pos);
      pos := pos + 1;
    }
    FromStep(bytes, pos);
  }

  method SkipLine(bytes: string, start: nat) returns (pos: nat)
    requires start < |bytes| && bytes[start] == '#'
    ensures start < pos <= |bytes|
    ensures From(bytes, pos) == LineEnd(From(bytes, start + 1))
  {
    hide From;
    pos := start + 1;
    while pos < |bytes| && bytes[pos] != '\n'
      invariant start < pos <= |bytes|
      invariant LineEnd(From(bytes, pos)) == LineEnd(From(bytes, start + 1))
    {
      FromStep(bytes, pos);
      pos := pos + 1;
    }
    FromStep(bytes, pos);
  }

  lemma SkipWsStep(s: string)
    ensures var t := SkipBlank(s);
            && (|t| >= 2 && t[0] == '#' ==> SkipWs(s) == SkipWs(LineEnd(t[1..])))
            && (!(|t| >= 2 && t[0] == '#') ==> SkipWs(s) == t)
  {}

  lemma BlankTwice(s: string)
    ensures SkipBlank(SkipBlank(s)) == SkipBlank(s) && SkipWs(SkipBlank(s)) == SkipWs(s)
  {}

  lemma {:induction false} SkippedStays(s: string)
    ensures SkipBlank(SkipWs(s)) == SkipWs(s)
    ensures !(|SkipWs(s)| >= 2 && SkipWs(s)[0] == '#')
    decreases |s|
  {
    var t := SkipBlank(s);
    if |t| >= 2 && t[0] == '#' { SkippedStays(LineEnd(t[1..])); }
  }

  method SkipSpace(bytes: string, start: nat) returns (pos: nat)
    ensures start <= pos && (pos <= |bytes| || pos == start)
    ensures From(bytes, pos) == SkipWs(From(bytes, start))
    decreases if start <= |bytes| then |bytes| - start else 0
  {
    hide From, SkipBlank, SkipWs, LineEnd;
    pos := SkipBlanks(bytes, start);
    BlankTwice(From(bytes, start));
    while pos + 1 < |bytes| && bytes[pos] == '#'
      invariant start <= pos && (pos <= |bytes| || pos == start)
      invariant SkipBlank(From(bytes, pos)) == From(bytes, pos)
      invariant SkipWs(From(bytes, pos)) == SkipWs(From(bytes, start))
      decreases if pos <= |bytes| then |bytes| - pos else 0
    {
      FromStep(bytes, pos);
      SkipWsStep(From(bytes, pos));
      var line := SkipLine(bytes, pos);
      pos := SkipSpace(bytes, line);
      SkippedStays(From(bytes, line));
      SkipWsStep(SkipWs(From(bytes, line)));
    }
    FromStep(bytes, pos);
    SkipWsStep(From(bytes, pos));
  }

  lemma FromSlice(bytes: string, start: nat, pos: nat)
    requires start <= pos <= |bytes|
    ensures pos - start <= |From(bytes, start)| && bytes[start..pos] == From(bytes, start)[..pos - start]
  {}

  method ReadName(bytes: string, start: nat) returns (name: string, pos: nat)
    requires start <= |bytes|
    ensures start <= pos <= |bytes| && pos == start + NameLength(From(bytes, start))
    ensures name == From(bytes, start)[..pos - start]
  {
    hide From, IsNameChar;
    pos := start;
    while pos < |bytes| && IsNameChar(bytes[pos])
      invariant start <= pos <= |bytes|
      invariant pos - start + NameLength(From(bytes, pos)) == NameLength(From(bytes, start))
    {
      FromStep(bytes, pos);
      pos := pos + 1;
    }
    FromStep(bytes, pos);
    name := bytes[start..pos];
    FromSlice(bytes, start, pos);
  }

  method DropChar(bytes: string, start: nat, c: char) returns (pos: nat)
    requires start <= |bytes|
    ensures start <= pos <= |bytes| && From(bytes, pos) == Drop(From(bytes, start), c)
  {
    pos := if start < |bytes| && bytes[start] == c then start + 1 else start;
  }

  method ReadGqlType(bytes: string, start: nat) returns (text: string, pos: nat)
    requires start <= |bytes|
    ensures start <= pos <= |bytes|
    ensures ReadType(From(bytes, start)).0 == text
    ensures ReadType(From(bytes, start)).1 == From(bytes, pos)
    decreases |bytes| - start
  {
    hide NameLength, Drop;
    FromStep(bytes, start);
    if start < |bytes| && bytes[start] == '[' {
      var inner, after := ReadGqlType(bytes, start + 1);
      pos := DropChar(bytes, after, '!');
      pos := DropChar(bytes, pos, ']');
      text := "[" + inner + "]";
    } else {
      text, pos := ReadName(bytes, start);
    }
  }

  method ReadVariableAt(bytes: string, start: nat) returns (step: Option<Variable>, pos: nat)
    requires start <= |bytes|
    ensures start <= pos <= |bytes| + 1 && (step.Some? ==> start < pos <= |bytes|)
    ensures ReadVariable(From(bytes, start)) ==
            if step.Some? then Next(step.value, From(bytes, pos)) else Stop(From(bytes, pos))
  {
    hide From, SkipWs, NameLength, ReadType, IsNameChar;
    pos := SkipSpace(bytes, start);
    FromStep(bytes, pos);
    FromStep(bytes, pos + 1);
    if pos >= |bytes| || bytes[pos] == ')' { return None, pos + 1; }
    pos := DropChar(bytes, pos, '$');
    var name;
    name, pos := ReadName(bytes, pos);
    NameSplit(bytes, pos - |name|, pos);
    if name == "" { return None, pos; }
    pos := SkipSpace(bytes, pos);
    FromStep(bytes, pos);
    if pos >= |bytes| || bytes[pos] != ':' { return None, pos; }
    pos := SkipSpace(bytes, pos + 1);
    var typ;
    typ, pos := ReadGqlType(bytes, pos);
    if typ == "" { return None, pos; }
    FromStep(bytes, pos);
    var nonNull := pos < |bytes| && bytes[pos] == '!';
    if nonNull { pos := pos + 1; }
    return Some(Variable(name, typ, nonNull)), pos;
  }

  lemma NameSplit(bytes: string, start: nat, pos: nat)
    requires start <= pos <= |bytes|
    ensures From(bytes, start)[pos - start..] == From(bytes, pos)
  {}

  method ParseVariables(bytes: string, start: nat) returns (vars: seq<Variable>, pos: nat)
    requires start <= |bytes|
    ensures start <= pos <= |bytes| + 1
    ensures Variables(From(bytes, start)).0 == vars && Variables(From(bytes, start)).1 == From(bytes, pos)
  {
    hide From, ReadVariable;
    vars, pos := [], start;
    while true
      invariant start <= pos <= |bytes|
      invariant vars + Variables(From(bytes, pos)).0 == Variables(From(bytes, start)).0
      invariant Variables(From(bytes, pos)).1 == Variables(From(bytes, start)).1
      decreases |bytes| - pos
    {
      ghost var here := From(bytes, pos);
      var step;
      step, pos := ReadVariableAt(bytes, pos);
      if step.None? {
        assert Variables(here).0 == [];
        return;
      }
      vars := vars + [step.value];
    }
  }

  method BracesClose(bytes: string, start: nat) returns (closed: bool)
    requires start < |bytes| && bytes[start] == '{'
    ensures closed == Closes(From(bytes, start), 0)
  {
    hide From;
    var depth := 0;
    var queryEnd := start;
    while queryEnd < |bytes|
      invariant start <= queryEnd <= |bytes| && 0 <= depth && (depth == 0 ==> queryEnd == start)
      invariant Closes(From(bytes, queryEnd), depth) == Closes(From(bytes, start), 0)
    {
      FromStep(bytes, queryEnd);
      if bytes[queryEnd] == '{' {
        depth := depth + 1;
      } else if bytes[queryEnd] == '}' {
        depth := depth - 1;
        if depth == 0 { break; }
      }
      queryEnd := queryEnd + 1;
    }
    FromStep(bytes, queryEnd);
    closed := depth == 0;
  }

  method FinishOperation(bytes: string, start: nat, isQuery: bool) returns (operation: Option<Operation>)
    requires start <= |bytes|
    ensures operation == AfterKeyword(isQuery, From(bytes, start), bytes)
  {
    hide From, SkipWs, NameLength, Variables, Closes, Trim;
    var pos := SkipSpace(bytes, start);
    var name, after := ReadName(bytes, pos);
    NameSplit(bytes, pos, after);
    FromStep(bytes, pos);
    if name == "" { return None; }
    pos := SkipSpace(bytes, after);
    var variables: seq<Variable> := [];
    FromStep(bytes, pos);
    if pos < |bytes| && bytes[pos] == '(' {
      variables, pos := ParseVariables(bytes, pos + 1);
    }
    pos := SkipSpace(bytes, pos);
    FromStep(bytes, pos);
    if pos >= |bytes| || bytes[pos] != '{' { return None; }
    var closed := BracesClose(bytes, pos);
    if !closed { return None; }
    return Some(Operation(isQuery, name, Trim(bytes), variables));
  }

  /** The reader is total: for every text it ends, stays in range, and computes
      the grammar's result. */
  method ParseGraphql(content: string) returns (operation: Option<Operation>)
    ensures operation == Parse(content)
  {
    hide SkipWs, AfterKeyword, StartsWith;
    assert content[0..] == content;
    var pos := SkipSpace(content, 0);
    if StartsWith(content[pos..], "query") {
      WordAt(content, pos, "query");
      operation := FinishOperation(content, pos + 5, true);
    } else if StartsWith(content[pos..], "mutation") {
      WordAt(content, pos, "mutation");
      operation := FinishOperation(content, pos + 8, false);
    } else {
      operation := None;
    }
  }

  lemma WordAt(bytes: string, pos: nat, word: string)
    requires pos <= |bytes| && StartsWith(bytes[pos..], word)
    ensures pos + |word| <= |bytes| && From(bytes, pos)[|word|..] == From(bytes, pos + |word|)
  {}
}
