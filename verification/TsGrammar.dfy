/** What the TypeScript reader computes, as functions of the text that is still
    unread.  A character stands for one byte of the file: every character the
    reader looks for is ASCII, so the other bytes are only skipped or copied.
    `TsParser` holds the cursor loops that are proved to compute these functions. */
module TsGrammar {
  import opened Text
  import opened TsAst

  /** What a reader returned, and the text left unread: a failing reader may
      have moved the cursor too. */
  datatype Parsed<+T> = Parsed(value: Option<T>, rest: string)

  datatype FieldList =
    | Closed(fields: seq<TsField>, rest: string)
    | TypeFailed(rest: string)
    | Abandoned

  datatype KeyList = Keys(keys: seq<string>, rest: string) | BadKey

  predicate IsWs(c: char) { c == ' ' || c == '\t' || c == '\n' || c == '\r' }

  predicate IsNameChar(c: char) { IsAlphanumeric(c) || c == '_' || c == '$' || c == '.' }

  predicate At(s: string, c: char) { s != "" && s[0] == c }

  function SkipWs(s: string): (r: string)
    ensures |r| <= |s|
  {
    if s != "" && IsWs(s[0]) then SkipWs(s[1..]) else s
  }

  function LineEnd(s: string): (r: string)
    ensures |r| <= |s|
  {
    if s == "" || s[0] == '\n' then s else LineEnd(s[1..])
  }

  /** The text after the first comment close; when there is none, the last
      character (if any) is left over. */
  function BlockEnd(s: string): (r: string)
    ensures |r| <= |s|
  {
    if |s| < 2 then s
    else if s[0] == '*' && s[1] == '/' then s[2..]
    else BlockEnd(s[1..])
  }

  function SkipTrivia(s: string): (r: string)
    ensures |r| <= |s|
    decreases |s|
  {
    var s1 := SkipWs(s);
    if StartsWith(s1, "//") then SkipTrivia(LineEnd(s1[2..]))
    else if StartsWith(s1, "/*") then SkipTrivia(BlockEnd(s1[2..]))
    else s1
  }

  function NameLength(s: string): (n: nat)
    ensures n <= |s|
  {
    if s != "" && IsNameChar(s[0]) then 1 + NameLength(s[1..]) else 0
  }

  /** Position of the first `quote`, or the length of the text. */
  function QuoteIndex(s: string, quote: char): (n: nat)
    ensures n <= |s|
    ensures n < |s| ==> s[n] == quote
  {
    if s == "" || s[0] == quote then 0 else 1 + QuoteIndex(s[1..], quote)
  }

  const NullWord := "null"

  predicate NullAt(s: string) {
    StartsWith(s, NullWord) && (|s| == 4 || !IsAlphanumeric(s[4]))
  }

  const Keywords: seq<(string, TsPrimitive)> :=
    [("string", StringType), ("number", NumberType), ("boolean", BooleanType),
     ("any", AnyType), ("unknown", AnyType)]

  predicate KeywordAt(s: string, word: string) {
    StartsWith(s, word) && (|s| == |word| || !(IsAlphanumeric(s[|word|]) || s[|word|] == '.'))
  }

  function FirstKeyword(s: string, words: seq<(string, TsPrimitive)>): (r: Option<(string, TsPrimitive)>)
    ensures r.Some? ==> StartsWith(s, r.value.0)
  {
    if words == [] then None
    else if KeywordAt(s, words[0].0) then Some(words[0])
    else FirstKeyword(s, words[1..])
  }

  const Wrappers: seq<string> :=
    ["Maybe", "Types.Maybe", "InputMaybe", "Types.InputMaybe", "Exact", "Types.Exact",
     "Pick", "Types.Pick", "Partial", "Types.Partial"]

  function FirstPrefix(s: string, words: seq<string>): (r: Option<string>)
    ensures r.Some? ==> StartsWith(s, r.value) && r.value in words
  {
    if words == [] then None
    else if StartsWith(s, words[0]) then Some(words[0])
    else FirstPrefix(s, words[1..])
  }

  function TryPrimitive(s: string): (r: Parsed<TsType>)
    ensures |r.rest| <= |s|
  {
    var s1 := SkipWs(s);
    if NullAt(s1) then Parsed(Some(Primitive(AnyType)), s1[4..])
    else
      match FirstKeyword(s1, Keywords)
      case Some(word) => Parsed(Some(Primitive(word.1)), s1[|word.0|..])
      case None => Parsed(None, s)
  }

  function IndexKeys(s: string): (r: KeyList)
    ensures r.Keys? ==> |r.rest| <= |s|
    decreases |s|
  {
    if !At(s, '[') || StartsWith(s, "[]") then Keys([], s)
    else
      var s1 := SkipWs(s[1..]);
      if At(s1, '\'') || At(s1, '"') then
        var body := s1[1..];
        var n := QuoteIndex(body, s1[0]);
        if n == |body| then BadKey
        else
          var s2 := SkipWs(body[n + 1..]);
          if At(s2, ']') then
            match IndexKeys(s2[1..])
            case Keys(keys, rest) => Keys([body[..n]] + keys, rest)
            case BadKey => BadKey
          else BadKey
      else BadKey
  }

  function TryReference(s: string): (r: Parsed<TsType>)
    ensures |r.rest| <= |s|
  {
    var s1 := SkipWs(s);
    var n := NameLength(s1);
    if n == 0 then Parsed(None, s)
    else
      var base := Split(s1[..n], '.');
      match IndexKeys(s1[n..])
      case BadKey => Parsed(None, s)
      case Keys(keys, rest) =>
        Parsed(Some(Reference(if keys == [] then Named(base) else Indexed(base, keys))), rest)
  }

  function Literals(s: string): (r: (seq<string>, string))
    ensures |r.1| <= |s|
    decreases |s|
  {
    var s1 := SkipWs(s);
    if !At(s1, '\'') then ([], s1)
    else
      var body := s1[1..];
      var n := QuoteIndex(body, '\'');
      if n == |body| then ([], "")
      else
        var s2 := SkipWs(body[n + 1..]);
        if At(s2, '|') then
          var more := Literals(s2[1..]);
          ([body[..n]] + more.0, more.1)
        else ([body[..n]], s2)
  }

  function TryStringLiteral(s: string): (r: Parsed<TsType>)
    ensures |r.rest| <= |s|
  {
    var s1 := SkipWs(s);
    if !At(s1, '\'') then Parsed(None, s)
    else
      var r := Literals(s1);
      if r.0 == [] then Parsed(None, s) else Parsed(Some(StringUnion(r.0)), r.1)
  }

  function ParseFields(s: string): (r: FieldList)
    ensures r.Closed? || r.TypeFailed? ==> |r.rest| <= |s|
    decreases |s|, 0
  {
    var s1 := SkipTrivia(s);
    if s1 == "" then Abandoned
    else if s1[0] == '}' then Closed([], s1[1..])
    else
      var n := NameLength(s1);
      if n == 0 then Abandoned
      else
        var optional := At(s1[n..], '?');
        var s2 := SkipTrivia(if optional then s1[n + 1..] else s1[n..]);
        if !At(s2, ':') then Abandoned
        else
          var p := ParseType(s2[1..]);
          if p.value.None? then TypeFailed(p.rest)
          else
            var s3 := SkipTrivia(p.rest);
            var s4 := if At(s3, ';') || At(s3, ',') then s3[1..] else s3;
            match ParseFields(s4)
            case Closed(fields, rest) =>
              Closed([TsField(s1[..n], optional, p.value.value)] + fields, rest)
            case other => other
  }

  /** A field type that fails leaves the cursor where it failed; every other
      failure restores it. */
  function TryObject(s: string): (r: Parsed<TsType>)
    ensures |r.rest| <= |s|
    decreases |s|, 0
  {
    var s1 := SkipWs(s);
    if !At(s1, '{') then Parsed(None, s)
    else
      match ParseFields(s1[1..])
      case Closed(fields, rest) => Parsed(Some(Object(fields)), rest)
      case TypeFailed(rest) => Parsed(None, rest)
      case Abandoned => Parsed(None, s)
  }

  function TryWrapped(s: string): (r: Parsed<TsType>)
    ensures |r.rest| <= |s|
    decreases |s|, 0
  {
    var s1 := SkipWs(s);
    match FirstPrefix(s1, Wrappers)
    case None => Parsed(None, s)
    case Some(name) =>
      var s2 := SkipWs(s1[|name|..]);
      if !At(s2, '<') then Parsed(None, s)
      else
        var p := ParseType(s2[1..]);
        if p.value.None? then p
        else
          var s3 := SkipWs(p.rest);
          Parsed(Some(Wrapped(name, p.value.value)), if At(s3, '>') then s3[1..] else s3)
  }

  /** A type without `|` and without a `[]` suffix; each reader starts where
      the failed one before it stopped. */
  function ParseSingle(s: string): (r: Parsed<TsType>)
    ensures |r.rest| <= |s|
    decreases |s|, 1
  {
    var s1 := SkipWs(s);
    if s1 == "" then Parsed(None, s1)
    else if NullAt(s1) then Parsed(Some(Primitive(AnyType)), s1[4..])
    else
      var braces := TryObject(s1);
      if braces.value.Some? then braces
      else
        var literal := TryStringLiteral(braces.rest);
        if literal.value.Some? then literal
        else
          var wrapped := TryWrapped(literal.rest);
          if wrapped.value.Some? then wrapped
          else
            var primitive := TryPrimitive(wrapped.rest);
            if primitive.value.Some? then primitive else TryReference(primitive.rest)
  }

  function ParseAlternatives(s: string, first: bool): (r: (seq<TsType>, string))
    ensures |r.1| <= |s|
    decreases |s|, 2
  {
    var s1 := SkipTrivia(s);
    var p := ParseSingle(if first && At(s1, '|') then s1[1..] else s1);
    if p.value.None? then ([], p.rest)
    else
      var s2 := SkipTrivia(p.rest);
      var isArray := StartsWith(s2, "[]");
      var alternative := if isArray then Array(p.value.value) else p.value.value;
      var s3 := SkipTrivia(if isArray then s2[2..] else s2);
      if At(s3, '|') then
        var more := ParseAlternatives(s3[1..], false);
        ([alternative] + more.0, more.1)
      else ([alternative], s3)
  }

  function ParseType(s: string): (r: Parsed<TsType>)
    ensures |r.rest| <= |s|
    decreases |s|, 3
  {
    var alternatives := ParseAlternatives(s, true);
    if alternatives.0 == [] then Parsed(None, alternatives.1)
    else Parsed(Some(Merge(alternatives.0)), alternatives.1)
  }

  const TypeNameField := "__typename"

  predicate HasTypeName(t: TsType) {
    t.Object? && exists i :: 0 <= i < |t.fields| && t.fields[i].name == TypeNameField
  }

  /** The literal of the first `__typename` field, empty unless it is a single literal. */
  function TypeNameOf(fields: seq<TsField>): string {
    if fields == [] then ""
    else if fields[0].name == TypeNameField then
      var t := fields[0].fieldType;
      if t.StringUnion? && |t.values| == 1 then t.values[0] else ""
    else TypeNameOf(fields[1..])
  }

  function WithoutTypeName(fields: seq<TsField>): seq<TsField> {
    if fields == [] then []
    else if fields[0].name == TypeNameField then WithoutTypeName(fields[1..])
    else [fields[0]] + WithoutTypeName(fields[1..])
  }

  function VariantsOf(alternatives: seq<TsType>): seq<TsObjectVariant> {
    if alternatives == [] then []
    else if HasTypeName(alternatives[0]) then
      [TsObjectVariant(TypeNameOf(alternatives[0].fields), WithoutTypeName(alternatives[0].fields))]
        + VariantsOf(alternatives[1..])
    else VariantsOf(alternatives[1..])
  }

  function StringsOf(alternatives: seq<TsType>): seq<string> {
    if alternatives == [] then []
    else (if alternatives[0].StringUnion? then alternatives[0].values else []) + StringsOf(alternatives[1..])
  }

  predicate IsNull(t: TsType) { t == Primitive(AnyType) }

  function FirstNonNull(alternatives: seq<TsType>): Option<TsType> {
    if alternatives == [] then None
    else if !IsNull(alternatives[0]) then Some(alternatives[0])
    else FirstNonNull(alternatives[1..])
  }

  predicate AllStrings(alternatives: seq<TsType>) {
    forall t :: t in alternatives ==> t.StringUnion? || IsNull(t)
  }

  function OrNull(t: TsType, hasNull: bool): TsType { if hasNull then Nullable(t) else t }

  /** How the alternatives of one type are merged. */
  function Merge(alternatives: seq<TsType>): TsType
    requires alternatives != []
  {
    var hasNull := Primitive(AnyType) in alternatives;
    if |alternatives| == 1 then alternatives[0]
    else if VariantsOf(alternatives) != [] then
      OrNull(DiscriminatedUnion(TypeNameField, VariantsOf(alternatives)), hasNull)
    else if AllStrings(alternatives) && StringsOf(alternatives) != [] then
      OrNull(StringUnion(StringsOf(alternatives)), hasNull)
    else if hasNull && |alternatives| == 2 && FirstNonNull(alternatives).Some? then
      Nullable(FirstNonNull(alternatives).value)
    else Union(alternatives)
  }

  const ExportType := "export type "

  function ParseDeclaration(s: string): (r: Parsed<TsDefinition>)
    requires StartsWith(s, ExportType)
    ensures |r.rest| < |s|
  {
    var s1 := s[|ExportType|..];
    var n := NameLength(s1);
    if n == 0 then Parsed(None, s1)
    else
      var s2 := SkipTrivia(s1[n..]);
      if !At(s2, '=') then Parsed(None, s2)
      else
        var p := ParseType(s2[1..]);
        if p.value.None? then Parsed(None, p.rest)
        else
          var s3 := SkipTrivia(p.rest);
          Parsed(Some(TsDefinition(s1[..n], p.value.value)), if At(s3, ';') then s3[1..] else s3)
  }

  function ParseFile(s: string): seq<TsDefinition>
    decreases |s|
  {
    var s1 := SkipTrivia(s);
    if s1 == "" then []
    else if StartsWith(s1, ExportType) then
      var p := ParseDeclaration(s1);
      (if p.value.Some? then [p.value.value] else []) + ParseFile(p.rest)
    else ParseFile(s1[1..])
  }

  /** One unfolding of `Literals`. */
  lemma LiteralsStep(s: string)
    ensures var s1 := SkipWs(s);
            Literals(s) ==
            if !At(s1, '\'') then ([], s1)
            else
              var n := QuoteIndex(s1[1..], '\'');
              if n == |s1[1..]| then ([], "")
              else
                var s2 := SkipWs(s1[1..][n + 1..]);
                if At(s2, '|') then ([s1[1..][..n]] + Literals(s2[1..]).0, Literals(s2[1..]).1)
                else ([s1[1..][..n]], s2)
  {
    hide SkipWs, QuoteIndex;
  }

  /** One unfolding of `ParseFields`. */
  lemma FieldsStep(s: string)
    ensures var s1 := SkipTrivia(s);
            ParseFields(s) ==
            if s1 == "" then Abandoned
            else if s1[0] == '}' then Closed([], s1[1..])
            else
              var n := NameLength(s1);
              if n == 0 then Abandoned
              else
                var optional := At(s1[n..], '?');
                var s2 := SkipTrivia(if optional then s1[n + 1..] else s1[n..]);
                if !At(s2, ':') then Abandoned
                else
                  var p := ParseType(s2[1..]);
                  if p.value.None? then TypeFailed(p.rest)
                  else
                    var s3 := SkipTrivia(p.rest);
                    var s4 := if At(s3, ';') || At(s3, ',') then s3[1..] else s3;
                    PrependField([TsField(s1[..n], optional, p.value.value)], ParseFields(s4))
  {
    hide SkipTrivia, NameLength, ParseType;
  }

  /** The start of a field, up to its colon. */
  datatype FieldHead = Opened(name: string, optional: bool, rest: string) | Ends(rest: string) | NoField

  function ReadHead(s: string): FieldHead {
    var s1 := SkipTrivia(s);
    if s1 == "" then NoField
    else if s1[0] == '}' then Ends(s1[1..])
    else
      var n := NameLength(s1);
      if n == 0 then NoField
      else
        var optional := At(s1[n..], '?');
        var s2 := SkipTrivia(if optional then s1[n + 1..] else s1[n..]);
        if At(s2, ':') then Opened(s1[..n], optional, s2[1..]) else NoField
  }

  /** The list of fields from the start of its first field. */
  lemma FieldsByHead(s: string)
    ensures ParseFields(s) ==
            match ReadHead(s)
            case NoField => Abandoned
            case Ends(rest) => Closed([], rest)
            case Opened(name, optional, rest) =>
              var p := ParseType(rest);
              if p.value.None? then TypeFailed(p.rest)
              else
                var s3 := SkipTrivia(p.rest);
                var s4 := if At(s3, ';') || At(s3, ',') then s3[1..] else s3;
                PrependField([TsField(name, optional, p.value.value)], ParseFields(s4))
  {
    FieldsStep(s);
    hide SkipTrivia, NameLength, ParseType, ParseFields;
  }

  ghost function PrependField(fields: seq<TsField>, list: FieldList): FieldList {
    match list
    case Closed(more, rest) => Closed(fields + more, rest)
    case other => other
  }

  /** One unfolding of `ParseAlternatives`. */
  lemma AlternativesStep(s: string, first: bool)
    ensures var s1 := SkipTrivia(s);
            var p := ParseSingle(if first && At(s1, '|') then s1[1..] else s1);
            ParseAlternatives(s, first) ==
            if p.value.None? then ([], p.rest)
            else
              var s2 := SkipTrivia(p.rest);
              var isArray := StartsWith(s2, "[]");
              var alternative := if isArray then Array(p.value.value) else p.value.value;
              var s3 := SkipTrivia(if isArray then s2[2..] else s2);
              if At(s3, '|') then
                ([alternative] + ParseAlternatives(s3[1..], false).0, ParseAlternatives(s3[1..], false).1)
              else ([alternative], s3)
  {
    hide SkipTrivia, ParseSingle, StartsWith;
  }

  ghost function Prepend(keys: seq<string>, list: KeyList): KeyList {
    match list
    case Keys(more, rest) => Keys(keys + more, rest)
    case BadKey => BadKey
  }

  /** One unfolding of `IndexKeys` at an index bracket. */
  lemma KeysStep(s: string)
    requires At(s, '[') && !StartsWith(s, "[]")
    ensures var s1 := SkipWs(s[1..]);
            IndexKeys(s) ==
            if At(s1, '\'') || At(s1, '"') then
              var n := QuoteIndex(s1[1..], s1[0]);
              if n == |s1[1..]| then BadKey
              else
                var s2 := SkipWs(s1[1..][n + 1..]);
                if At(s2, ']') then Prepend([s1[1..][..n]], IndexKeys(s2[1..])) else BadKey
            else BadKey
  {
    hide SkipWs, QuoteIndex, StartsWith;
  }
}
