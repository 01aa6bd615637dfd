/** The cursor loops of the TypeScript reader.  A method takes the position where
    the cursor stands and returns the position where it leaves it, which is how
    the reader uses its shared cursor.  Every method is proved to compute the
    function of `TsGrammar` with its name: the value it returns and the text it
    leaves unread, also when it fails. */
module TsParser {
  import opened Text
  import opened TsAst
  import G = TsGrammar

  method SkipWs(bytes: string, start: nat) returns (pos: nat)
    ensures start <= pos && (pos <= |bytes| || pos == start)
    ensures start <= |bytes| ==> pos <= |bytes| && bytes[pos..] == G.SkipWs(bytes[start..])
  {
    pos := start;
    while pos < |bytes| && G.IsWs(bytes[pos])
      invariant start <= pos && (pos <= |bytes| || pos == start)
      invariant start <= |bytes| ==> pos <= |bytes| && G.SkipWs(bytes[pos..]) == G.SkipWs(bytes[start..])
    {
      pos := pos + 1;
    }
  }

  method SkipLine(bytes: string, start: nat) returns (pos: nat)
    requires start <= |bytes|
    ensures start <= pos <= |bytes| && bytes[pos..] == G.LineEnd(bytes[start..])
  {
    pos := start;
    while pos < |bytes| && bytes[pos] != '\n'
      invariant start <= pos <= |bytes|
      invariant G.LineEnd(bytes[pos..]) == G.LineEnd(bytes[start..])
    {
      pos := pos + 1;
    }
  }

  method SkipBlock(bytes: string, start: nat) returns (pos: nat)
    requires start <= |bytes|
    ensures start <= pos <= |bytes| && bytes[pos..] == G.BlockEnd(bytes[start..])
  {
    pos := start;
    while pos + 1 < |bytes| && !(bytes[pos] == '*' && bytes[pos + 1] == '/')
      invariant start <= pos <= |bytes|
      invariant G.BlockEnd(bytes[pos..]) == G.BlockEnd(bytes[start..])
    {
      pos := pos + 1;
    }
    if pos + 1 < |bytes| {
      pos := pos + 2;
    }
  }

  method SkipToQuote(bytes: string, start: nat, quote: char) returns (pos: nat)
    requires start <= |bytes|
    ensures start <= pos <= |bytes| && pos - start == G.QuoteIndex(bytes[start..], quote)
    ensures bytes[start..pos] == bytes[start..][..pos - start]
  {
    pos := start;
    while pos < |bytes| && bytes[pos] != quote
      invariant start <= pos <= |bytes|
      invariant pos - start + G.QuoteIndex(bytes[pos..], quote) == G.QuoteIndex(bytes[start..], quote)
    {
      pos := pos + 1;
    }
  }

  /** A two-character test at the cursor is the prefix test on the unread text. */
  lemma TwoAhead(bytes: string, pos: nat, pair: string)
    requires pos <= |bytes| && |pair| == 2
    ensures StartsWith(bytes[pos..], pair) <==>
            pos + 1 < |bytes| && bytes[pos] == pair[0] && bytes[pos + 1] == pair[1]
  {
    if pos + 1 < |bytes| {
      assert bytes[pos..][..2] == [bytes[pos], bytes[pos + 1]];
    }
  }

  lemma TriviaStep(s: string)
    ensures StartsWith(G.SkipWs(s), "//") ==> G.SkipTrivia(s) == G.SkipTrivia(G.LineEnd(G.SkipWs(s)[2..]))
    ensures StartsWith(G.SkipWs(s), "/*") ==> G.SkipTrivia(s) == G.SkipTrivia(G.BlockEnd(G.SkipWs(s)[2..]))
    ensures !StartsWith(G.SkipWs(s), "//") && !StartsWith(G.SkipWs(s), "/*") ==> G.SkipTrivia(s) == G.SkipWs(s)
  {}

  lemma AtCursor(bytes: string, pos: nat, c: char)
    requires pos <= |bytes|
    ensures G.At(bytes[pos..], c) <==> pos < |bytes| && bytes[pos] == c
  {}

  /** Comparing a slice at the cursor is the prefix test on the unread text. */
  lemma PrefixAt(bytes: string, pos: nat, word: string)
    requires pos <= |bytes|
    ensures StartsWith(bytes[pos..], word) <==>
            pos + |word| <= |bytes| && bytes[pos..pos + |word|] == word
    ensures pos + |word| < |bytes| ==> bytes[pos..][|word|] == bytes[pos + |word|]
  {
    if pos + |word| <= |bytes| {
      assert bytes[pos..][..|word|] == bytes[pos..pos + |word|];
    }
  }

  lemma FirstKeywordStep(s: string, i: nat)
    requires i < |G.Keywords|
    ensures G.FirstKeyword(s, G.Keywords[i..]) ==
            if G.KeywordAt(s, G.Keywords[i].0) then Some(G.Keywords[i])
            else G.FirstKeyword(s, G.Keywords[i + 1..])
  {
    assert G.Keywords[i..][1..] == G.Keywords[i + 1..];
  }

  method SkipTrivia(bytes: string, start: nat) returns (pos: nat)
    requires start <= |bytes|
    ensures start <= pos <= |bytes| && bytes[pos..] == G.SkipTrivia(bytes[start..])
  {
    hide *;
    pos := start;
    while true
      invariant start <= pos <= |bytes|
      invariant G.SkipTrivia(bytes[pos..]) == G.SkipTrivia(bytes[start..])
      decreases |bytes| - pos
    {
      TriviaStep(bytes[pos..]);
      pos := SkipWs(bytes, pos);
      TwoAhead(bytes, pos, "//");
      TwoAhead(bytes, pos, "/*");
      if pos + 1 < |bytes| && bytes[pos] == '/' {
        if bytes[pos + 1] == '/' {
          pos := SkipLine(bytes, pos + 2);
          continue;
        }
        if bytes[pos + 1] == '*' {
          pos := SkipBlock(bytes, pos + 2);
          continue;
        }
      }
      break;
    }
  }

  method ReadName(bytes: string, start: nat) returns (name: string, pos: nat)
    requires start <= |bytes|
    ensures pos == start + G.NameLength(bytes[start..]) && pos <= |bytes|
    ensures name == bytes[start..][..pos - start]
  {
    pos := start;
    while pos < |bytes| && G.IsNameChar(bytes[pos])
      invariant start <= pos <= |bytes|
      invariant pos - start + G.NameLength(bytes[pos..]) == G.NameLength(bytes[start..])
    {
      pos := pos + 1;
    }
    name := bytes[start..pos];
    assert name == bytes[start..][..pos - start];
  }

  method TryPrimitive(bytes: string, start: nat) returns (r: Option<TsType>, pos: nat)
    requires start <= |bytes|
    ensures start <= pos <= |bytes|
    ensures G.Parsed(r, bytes[pos..]) == G.TryPrimitive(bytes[start..])
  {
    hide G.SkipWs, StartsWith, G.FirstKeyword, IsAlphanumeric;
    pos := SkipWs(bytes, start);
    PrefixAt(bytes, pos, G.NullWord);
    if pos + 4 <= |bytes| && bytes[pos..pos + 4] == G.NullWord {
      var next := pos + 4;
      if next >= |bytes| || !IsAlphanumeric(bytes[next]) {
        return Some(Primitive(AnyType)), next;
      }
    }
    for i := 0 to |G.Keywords|
      invariant G.FirstKeyword(bytes[pos..], G.Keywords[i..]) == G.FirstKeyword(bytes[pos..], G.Keywords)
    {
      var word := G.Keywords[i].0;
      FirstKeywordStep(bytes[pos..], i);
      PrefixAt(bytes, pos, word);
      if pos + |word| <= |bytes| && bytes[pos..pos + |word|] == word {
        if pos + |word| < |bytes|
          && (IsAlphanumeric(bytes[pos + |word|]) || bytes[pos + |word|] == '.') {
          continue;
        }
        return Some(Primitive(G.Keywords[i].1)), pos + |word|;
      }
    }
    FirstKeywordNone(bytes[pos..]);
    return None, start;
  }

  /** One `['key']`; `next` is 0 when the brackets do not hold a quoted key. */
  method ReadKey(bytes: string, start: nat) returns (key: string, next: nat)
    requires start < |bytes| && bytes[start] == '[' && !StartsWith(bytes[start..], "[]")
    ensures next == 0 ==> G.IndexKeys(bytes[start..]) == G.BadKey
    ensures next != 0 ==> start < next <= |bytes|
    ensures next != 0 ==> G.IndexKeys(bytes[start..]) == G.Prepend([key], G.IndexKeys(bytes[next..]))
  {
    hide G.SkipWs, G.QuoteIndex, StartsWith, G.IndexKeys;
    G.KeysStep(bytes[start..]);
    key := "";
    var pos := SkipWs(bytes, start + 1);
    if pos < |bytes| && (bytes[pos] == '\'' || bytes[pos] == '"') {
      var from := pos + 1;
      var close := SkipToQuote(bytes, from, bytes[pos]);
      key := bytes[from..close];
      pos := SkipWs(bytes, close + 1);
      if pos < |bytes| && bytes[pos] == ']' {
        next := pos + 1;
        return;
      }
    }
    next := 0;
  }

  method TryReference(bytes: string, start: nat) returns (r: Option<TsType>, pos: nat)
    requires start <= |bytes|
    ensures start <= pos <= |bytes|
    ensures G.Parsed(r, bytes[pos..]) == G.TryReference(bytes[start..])
  {
    hide G.SkipWs, G.NameLength, Split, StartsWith, G.IndexKeys;
    pos := SkipWs(bytes, start);
    var name;
    name, pos := ReadName(bytes, pos);
    if name == "" {
      return None, start;
    }
    var base := Split(name, '.');
    var keys: seq<string> := [];
    ghost var all := G.IndexKeys(bytes[pos..]);
    while pos < |bytes| && bytes[pos] == '['
      invariant start <= pos <= |bytes|
      invariant all == G.Prepend(keys, G.IndexKeys(bytes[pos..]))
      decreases |bytes| - pos
    {
      TwoAhead(bytes, pos, "[]");
      if pos + 1 < |bytes| && bytes[pos + 1] == ']' {
        break;
      }
      var key, next := ReadKey(bytes, pos);
      if next == 0 {
        return None, start;
      }
      PrependStep(keys, key, G.IndexKeys(bytes[next..]));
      keys := keys + [key];
      pos := next;
    }
    NoMoreKeys(bytes[pos..]);
    assert keys + [] == keys;
    return Some(Reference(if keys == [] then Named(base) else Indexed(base, keys))), pos;
  }

  lemma PrependStep(keys: seq<string>, key: string, list: G.KeyList)
    ensures G.Prepend(keys, G.Prepend([key], list)) == G.Prepend(keys + [key], list)
  {
    if list.Keys? { assert keys + ([key] + list.keys) == keys + [key] + list.keys; }
  }

  lemma NoMoreKeys(s: string)
    requires !G.At(s, '[') || StartsWith(s, "[]")
    ensures G.IndexKeys(s) == G.Keys([], s)
  {}

  lemma FirstKeywordNone(s: string)
    ensures G.FirstKeyword(s, G.Keywords[|G.Keywords|..]) == None
  {}

  /** One literal and the `|` after it, if there is one. */
  method ReadLiteral(bytes: string, start: nat) returns (value: Option<string>, more: bool, pos: nat)
    requires start <= |bytes|
    ensures start <= pos <= |bytes| && (more ==> value.Some? && start < pos)
    ensures value.None? ==> G.Literals(bytes[start..]).0 == [] && G.Literals(bytes[start..]).1 == bytes[pos..]
    ensures value.Some? && !more ==>
              G.Literals(bytes[start..]).0 == [value.value] && G.Literals(bytes[start..]).1 == bytes[pos..]
    ensures value.Some? && more ==>
              && G.Literals(bytes[start..]).0 == [value.value] + G.Literals(bytes[pos..]).0
              && G.Literals(bytes[start..]).1 == G.Literals(bytes[pos..]).1
  {
    hide *;
    G.LiteralsStep(bytes[start..]);
    pos := SkipWs(bytes, start);
    AtCursor(bytes, pos, '\'');
    if pos >= |bytes| || bytes[pos] != '\'' {
      return None, false, pos;
    }
    var from := pos + 1;
    assert bytes[pos..][1..] == bytes[from..];
    var close := SkipToQuote(bytes, from, '\'');
    if close >= |bytes| {
      return None, false, close;
    }
    assert bytes[from..][close - from + 1..] == bytes[close + 1..];
    value := Some(bytes[from..close]);
    pos := SkipWs(bytes, close + 1);
    AtCursor(bytes, pos, '|');
    more := pos < |bytes| && bytes[pos] == '|';
    if more {
      pos := pos + 1;
    }
  }

  method TryStringLiteral(bytes: string, start: nat) returns (r: Option<TsType>, pos: nat)
    requires start <= |bytes|
    ensures start <= pos <= |bytes|
    ensures G.Parsed(r, bytes[pos..]) == G.TryStringLiteral(bytes[start..])
  {
    hide G.SkipWs, G.Literals;
    pos := SkipWs(bytes, start);
    if pos >= |bytes| || bytes[pos] != '\'' {
      return None, start;
    }
    var values: seq<string> := [];
    ghost var all := G.Literals(bytes[pos..]);
    var more := true;
    while more
      invariant start <= pos <= |bytes|
      invariant var later := G.Literals(bytes[pos..]);
                if more then all.0 == values + later.0 && all.1 == later.1
                else all.0 == values && all.1 == bytes[pos..]
      decreases |bytes| - pos, more
    {
      var value;
      value, more, pos := ReadLiteral(bytes, pos);
      if value.Some? {
        values := values + [value.value];
      }
    }
    if values == [] {
      return None, start;
    }
    return Some(StringUnion(values)), pos;
  }

  /** One field up to and including its separator: the field, or why there is
      no further one. */
  datatype FieldStep = Field(field: TsField) | End | Failed | Stuck

  /** A field up to its colon, the closing brace, or neither. */
  datatype HeadStep = Head(name: string, optional: bool) | HeadEnd | NoHead

  method ReadHead(bytes: string, start: nat) returns (step: HeadStep, pos: nat)
    requires start <= |bytes|
    ensures start <= pos <= |bytes| && (!step.NoHead? ==> start < pos)
    ensures G.ReadHead(bytes[start..]) ==
            match step
            case Head(name, optional) => G.Opened(name, optional, bytes[pos..])
            case HeadEnd => G.Ends(bytes[pos..])
            case NoHead => G.NoField
  {
    hide G.SkipTrivia, G.NameLength;
    pos := SkipTrivia(bytes, start);
    if pos >= |bytes| {
      return NoHead, pos;
    }
    if bytes[pos] == '}' {
      return HeadEnd, pos + 1;
    }
    var name;
    name, pos := ReadName(bytes, pos);
    if name == "" {
      return NoHead, pos;
    }
    var optional := pos < |bytes| && bytes[pos] == '?';
    if optional {
      pos := pos + 1;
    }
    pos := SkipTrivia(bytes, pos);
    if pos >= |bytes| || bytes[pos] != ':' {
      return NoHead, pos;
    }
    return Head(name, optional), pos + 1;
  }

  method ReadField(bytes: string, start: nat) returns (step: FieldStep, pos: nat)
    requires start <= |bytes|
    ensures start <= pos <= |bytes|
    ensures step.Field? || step.End? ==> start < pos
    ensures G.ParseFields(bytes[start..]) ==
            match step
            case Field(field) => G.PrependField([field], G.ParseFields(bytes[pos..]))
            case End => G.Closed([], bytes[pos..])
            case Failed => G.TypeFailed(bytes[pos..])
            case Stuck => G.Abandoned
    decreases |bytes| - start, 0
  {
    hide *;
    G.FieldsByHead(bytes[start..]);
    var head;
    head, pos := ReadHead(bytes, start);
    match head
    case NoHead => return Stuck, pos;
    case HeadEnd => return End, pos;
    case Head(name, optional) =>
      var fieldType;
      fieldType, pos := ParseType(bytes, pos);
      if fieldType.None? {
        return Failed, pos;
      }
      pos := SkipTrivia(bytes, pos);
      AtCursor(bytes, pos, ';');
      AtCursor(bytes, pos, ',');
      if pos < |bytes| && (bytes[pos] == ';' || bytes[pos] == ',') {
        pos := pos + 1;
      }
      return Field(TsField(name, optional, fieldType.value)), pos;
  }

  lemma PrependFieldStep(fields: seq<TsField>, field: TsField, list: G.FieldList)
    ensures G.PrependField(fields, G.PrependField([field], list)) == G.PrependField(fields + [field], list)
  {
    if list.Closed? { assert fields + ([field] + list.fields) == fields + [field] + list.fields; }
  }

  method TryObject(bytes: string, start: nat) returns (r: Option<TsType>, pos: nat)
    requires start <= |bytes|
    ensures start <= pos <= |bytes|
    ensures G.Parsed(r, bytes[pos..]) == G.TryObject(bytes[start..])
    decreases |bytes| - start, 1
  {
    hide G.SkipWs, G.ParseFields;
    pos := SkipWs(bytes, start);
    if pos >= |bytes| || bytes[pos] != '{' {
      return None, start;
    }
    pos := pos + 1;
    var fields: seq<TsField> := [];
    ghost var all := G.ParseFields(bytes[pos..]);
    while true
      invariant start < pos <= |bytes|
      invariant all == G.PrependField(fields, G.ParseFields(bytes[pos..]))
      decreases |bytes| - pos
    {
      var step;
      step, pos := ReadField(bytes, pos);
      match step {
        case Field(field) =>
          PrependFieldStep(fields, field, G.ParseFields(bytes[pos..]));
          fields := fields + [field];
        case End =>
          assert fields + [] == fields;
          return Some(Object(fields)), pos;
        case Failed =>
          return None, pos;
        case Stuck =>
          return None, start;
      }
    }
  }

  method FindWrapper(bytes: string, pos: nat) returns (name: Option<string>)
    requires pos <= |bytes|
    ensures name == G.FirstPrefix(bytes[pos..], G.Wrappers)
  {
    hide StartsWith, G.FirstPrefix;
    for i := 0 to |G.Wrappers|
      invariant G.FirstPrefix(bytes[pos..], G.Wrappers[i..]) == G.FirstPrefix(bytes[pos..], G.Wrappers)
    {
      var full := G.Wrappers[i];
      FirstPrefixStep(bytes[pos..], i);
      PrefixAt(bytes, pos, full);
      if pos + |full| <= |bytes| && bytes[pos..pos + |full|] == full {
        return Some(full);
      }
    }
    FirstPrefixNone(bytes[pos..]);
    return None;
  }

  method TryWrapped(bytes: string, start: nat) returns (r: Option<TsType>, pos: nat)
    requires start <= |bytes|
    ensures start <= pos <= |bytes|
    ensures G.Parsed(r, bytes[pos..]) == G.TryWrapped(bytes[start..])
    decreases |bytes| - start, 1
  {
    hide G.SkipWs, G.ParseType, G.FirstPrefix;
    pos := SkipWs(bytes, start);
    var name := FindWrapper(bytes, pos);
    if name.None? {
      return None, start;
    }
    pos := SkipWs(bytes, pos + |name.value|);
    if pos >= |bytes| || bytes[pos] != '<' {
      return None, start;
    }
    r, pos := ParseType(bytes, pos + 1);
    if r.None? {
      return;
    }
    pos := SkipWs(bytes, pos);
    if pos < |bytes| && bytes[pos] == '>' {
      pos := pos + 1;
    }
    return Some(Wrapped(name.value, r.value)), pos;
  }

  lemma FirstPrefixStep(s: string, i: nat)
    requires i < |G.Wrappers|
    ensures G.FirstPrefix(s, G.Wrappers[i..]) ==
            if StartsWith(s, G.Wrappers[i]) then Some(G.Wrappers[i])
            else G.FirstPrefix(s, G.Wrappers[i + 1..])
  {
    assert G.Wrappers[i..][1..] == G.Wrappers[i + 1..];
  }

  lemma FirstPrefixNone(s: string)
    ensures G.FirstPrefix(s, G.Wrappers[|G.Wrappers|..]) == None
  {}

  method ParseSingle(bytes: string, start: nat) returns (r: Option<TsType>, pos: nat)
    requires start <= |bytes|
    ensures start <= pos <= |bytes|
    ensures G.Parsed(r, bytes[pos..]) == G.ParseSingle(bytes[start..])
    decreases |bytes| - start, 2
  {
    hide G.SkipWs, StartsWith, IsAlphanumeric, G.TryObject, G.TryStringLiteral, G.TryWrapped, G.TryPrimitive,
         G.TryReference;
    pos := SkipWs(bytes, start);
    if pos >= |bytes| {
      return None, pos;
    }
    PrefixAt(bytes, pos, G.NullWord);
    if pos + 4 <= |bytes| && bytes[pos..pos + 4] == G.NullWord {
      var next := pos + 4;
      if next >= |bytes| || !IsAlphanumeric(bytes[next]) {
        return Some(Primitive(AnyType)), next;
      }
    }
    r, pos := TryObject(bytes, pos);
    if r.Some? { return; }
    r, pos := TryStringLiteral(bytes, pos);
    if r.Some? { return; }
    r, pos := TryWrapped(bytes, pos);
    if r.Some? { return; }
    r, pos := TryPrimitive(bytes, pos);
    if r.Some? { return; }
    r, pos := TryReference(bytes, pos);
  }

  /** One alternative with its `[]`, and the `|` after it, if there is one. */
  method ReadAlternative(bytes: string, start: nat, first: bool)
      returns (alternative: Option<TsType>, more: bool, pos: nat)
    requires start <= |bytes|
    ensures start <= pos <= |bytes| && (more ==> alternative.Some? && start < pos)
    ensures var read := if alternative.Some? then [alternative.value] else [];
            var later := G.ParseAlternatives(bytes[pos..], false);
            var all := G.ParseAlternatives(bytes[start..], first);
            if more then all.0 == read + later.0 && all.1 == later.1
            else all.0 == read && all.1 == bytes[pos..]
    decreases |bytes| - start, 3
  {
    hide G.SkipTrivia, StartsWith, G.ParseSingle, G.ParseAlternatives;
    G.AlternativesStep(bytes[start..], first);
    pos := SkipTrivia(bytes, start);
    if first && pos < |bytes| && bytes[pos] == '|' {
      pos := pos + 1;
    }
    alternative, pos := ParseSingle(bytes, pos);
    if alternative.None? {
      return None, false, pos;
    }
    pos := SkipTrivia(bytes, pos);
    TwoAhead(bytes, pos, "[]");
    if pos + 1 < |bytes| && bytes[pos] == '[' && bytes[pos + 1] == ']' {
      pos := pos + 2;
      alternative := Some(Array(alternative.value));
    }
    pos := SkipTrivia(bytes, pos);
    more := pos < |bytes| && bytes[pos] == '|';
    if more {
      pos := pos + 1;
    }
  }

  method ParseType(bytes: string, start: nat) returns (r: Option<TsType>, pos: nat)
    requires start <= |bytes|
    ensures start <= pos <= |bytes|
    ensures G.Parsed(r, bytes[pos..]) == G.ParseType(bytes[start..])
    decreases |bytes| - start, 4
  {
    hide G.ParseAlternatives, G.Merge;
    pos := start;
    var alternatives: seq<TsType> := [];
    var first, more := true, true;
    ghost var all := G.ParseAlternatives(bytes[pos..], true);
    while more
      invariant start <= pos <= |bytes|
      invariant var later := G.ParseAlternatives(bytes[pos..], first);
                if more then all.0 == alternatives + later.0 && all.1 == later.1
                else all.0 == alternatives && all.1 == bytes[pos..]
      decreases |bytes| - pos, more
    {
      var alternative;
      alternative, more, pos := ReadAlternative(bytes, pos, first);
      first := false;
      if alternative.Some? {
        alternatives := alternatives + [alternative.value];
      }
    }
    if alternatives == [] {
      return None, pos;
    }
    var merged := Merge(alternatives);
    return Some(merged), pos;
  }

  method SortAlternatives(alternatives: seq<TsType>)
      returns (variants: seq<TsObjectVariant>, strings: seq<string>, hasNull: bool, allStrings: bool)
    ensures variants == G.VariantsOf(alternatives) && strings == G.StringsOf(alternatives)
    ensures hasNull <==> Primitive(AnyType) in alternatives
    ensures allStrings <==> G.AllStrings(alternatives)
  {
    hide G.HasTypeName, G.TypeNameOf, G.WithoutTypeName, G.VariantsOf, G.StringsOf;
    variants, strings, hasNull, allStrings := [], [], false, true;
    assert alternatives[0..] == alternatives;
    for i := 0 to |alternatives|
      invariant variants + G.VariantsOf(alternatives[i..]) == G.VariantsOf(alternatives)
      invariant strings + G.StringsOf(alternatives[i..]) == G.StringsOf(alternatives)
      invariant hasNull <==> Primitive(AnyType) in alternatives[..i]
      invariant allStrings <==> G.AllStrings(alternatives[..i])
    {
      var alternative := alternatives[i];
      SortStep(alternatives, i);
      if alternative.Object? {
        if G.HasTypeName(alternative) {
          variants := variants
            + [TsObjectVariant(G.TypeNameOf(alternative.fields), G.WithoutTypeName(alternative.fields))];
        }
        allStrings := false;
      } else if alternative.StringUnion? {
        strings := strings + alternative.values;
      } else if alternative == Primitive(AnyType) {
        hasNull := true;
      } else {
        allStrings := false;
      }
    }
    assert alternatives[..|alternatives|] == alternatives;
    SortEnd(alternatives);
  }

  lemma SortStep(alternatives: seq<TsType>, i: nat)
    requires i < |alternatives|
    ensures var t := alternatives[i];
            && (G.HasTypeName(t) ==> t.Object?)
            && alternatives[..i + 1] == alternatives[..i] + [t]
            && G.StringsOf(alternatives[i..])
               == (if t.StringUnion? then t.values else []) + G.StringsOf(alternatives[i + 1..])
            && G.VariantsOf(alternatives[i..])
               == (if G.HasTypeName(t) then [TsObjectVariant(G.TypeNameOf(t.fields), G.WithoutTypeName(t.fields))]
                   else []) + G.VariantsOf(alternatives[i + 1..])
  {
    hide G.TypeNameOf, G.WithoutTypeName;
    assert alternatives[i..][1..] == alternatives[i + 1..];
  }

  lemma SortEnd(alternatives: seq<TsType>)
    ensures G.VariantsOf(alternatives[|alternatives|..]) == []
    ensures G.StringsOf(alternatives[|alternatives|..]) == []
  {}

  method Merge(alternatives: seq<TsType>) returns (merged: TsType)
    requires alternatives != []
    ensures merged == G.Merge(alternatives)
  {
    hide G.VariantsOf, G.StringsOf, G.AllStrings, G.FirstNonNull;
    if |alternatives| == 1 {
      return alternatives[0];
    }
    var variants, strings, hasNull, allStrings := SortAlternatives(alternatives);
    if variants != [] {
      merged := DiscriminatedUnion(G.TypeNameField, variants);
      return if hasNull then Nullable(merged) else merged;
    }
    if allStrings && strings != [] {
      return if hasNull then Nullable(StringUnion(strings)) else StringUnion(strings);
    }
    if hasNull && |alternatives| == 2 {
      var other := G.FirstNonNull(alternatives);
      if other.Some? {
        return Nullable(other.value);
      }
    }
    return Union(alternatives);
  }

  method ParseDeclaration(bytes: string, start: nat) returns (r: Option<TsDefinition>, pos: nat)
    requires start <= |bytes| && StartsWith(bytes[start..], G.ExportType)
    ensures start < pos <= |bytes|
    ensures G.Parsed(r, bytes[pos..]) == G.ParseDeclaration(bytes[start..])
  {
    hide G.SkipTrivia, G.NameLength, G.ParseType;
    var named := start + |G.ExportType|;
    assert bytes[start..][|G.ExportType|..] == bytes[named..];
    hide StartsWith;
    var name;
    name, pos := ReadName(bytes, named);
    if name == "" {
      return None, pos;
    }
    pos := SkipTrivia(bytes, pos);
    if pos >= |bytes| || bytes[pos] != '=' {
      return None, pos;
    }
    var typeExpr;
    typeExpr, pos := ParseType(bytes, pos + 1);
    if typeExpr.None? {
      return None, pos;
    }
    pos := SkipTrivia(bytes, pos);
    if pos < |bytes| && bytes[pos] == ';' {
      pos := pos + 1;
    }
    return Some(TsDefinition(name, typeExpr.value)), pos;
  }

  method ParseFile(content: string) returns (defs: seq<TsDefinition>)
    ensures defs == G.ParseFile(content)
  {
    hide G.SkipTrivia, StartsWith, G.ParseDeclaration;
    defs := [];
    var pos := 0;
    assert content[0..] == content;
    while pos < |content|
      invariant pos <= |content| && defs + G.ParseFile(content[pos..]) == G.ParseFile(content)
      decreases |content| - pos
    {
      pos := SkipTrivia(content, pos);
      if pos >= |content| {
        break;
      }
      if StartsWith(content[pos..], G.ExportType) {
        var def;
        def, pos := ParseDeclaration(content, pos);
        if def.Some? {
          defs := defs + [def.value];
        }
      } else {
        pos := pos + 1;
      }
    }
  }
}
