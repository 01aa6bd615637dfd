/** Printing is inverted by reading.  `Emit(t, k)` is the text of type `t`
    followed by the text `k`; every canonical type printed in front of a
    delimiter is read back exactly, and nothing past its text is consumed. */
module TsRoundTrip {
  import opened Text
  import opened TsAst
  import opened TsGrammar

  /* ---------- the printer ---------- */

  function Emit(t: TsType, k: string): (r: string)
    ensures |r| >= |k|
    decreases t, 1
  {
    match t
    case Primitive(p) => Keyword(p) + k
    case Array(element) => Emit(element, "[]" + k)
    case Nullable(inner) =>
      if inner.StringUnion? then "null" + (" | " + Emit(inner, k)) else Emit(inner, " | " + ("null" + k))
    case Union(alternatives) => EmitAll(alternatives, k)
    case StringUnion(values) => EmitLiterals(values, k)
    case Object(fields) => "{ " + EmitFields(fields, "}" + k)
    case Reference(Named(parts)) => Join(parts, ".") + k
    case Reference(Indexed(base, keys)) => Join(base, ".") + EmitKeys(keys, k)
    case Wrapped(wrapper, wrapped) => wrapper + ("<" + Emit(wrapped, ">" + k))
    case DiscriminatedUnion(_, variants) => EmitVariants(variants, k)
  }

  function Keyword(p: TsPrimitive): string {
    match p
    case StringType => "string"
    case NumberType => "number"
    case BooleanType => "boolean"
    case AnyType => "null"
  }

  function EmitAll(alternatives: seq<TsType>, k: string): (r: string)
    ensures |r| >= |k|
    decreases alternatives, 0
  {
    if alternatives == [] then k
    else if |alternatives| == 1 then Emit(alternatives[0], k)
    else Emit(alternatives[0], " | " + EmitAll(alternatives[1..], k))
  }

  function EmitLiterals(values: seq<string>, k: string): (r: string)
    ensures |r| >= |k|
  {
    if values == [] then k
    else if |values| == 1 then "'" + (values[0] + ("'" + k))
    else "'" + (values[0] + ("'" + (" | " + EmitLiterals(values[1..], k))))
  }

  function EmitKeys(keys: seq<string>, k: string): (r: string)
    ensures |r| >= |k|
  {
    if keys == [] then k else "['" + (keys[0] + ("']" + EmitKeys(keys[1..], k)))
  }

  function EmitFields(fields: seq<TsField>, k: string): (r: string)
    ensures |r| >= |k|
    decreases fields, 0
  {
    if fields == [] then k
    else
      fields[0].name + ((if fields[0].optional then "?: " else ": ")
                        + Emit(fields[0].fieldType, "; " + EmitFields(fields[1..], k)))
  }

  function EmitVariants(variants: seq<TsObjectVariant>, k: string): (r: string)
    ensures |r| >= |k|
    decreases variants, 0
  {
    if variants == [] then k
    else if |variants| == 1 then EmitVariant(variants[0], k)
    else EmitVariant(variants[0], " | " + EmitVariants(variants[1..], k))
  }

  function EmitVariant(v: TsObjectVariant, k: string): (r: string)
    ensures |r| >= |k|
    decreases v, 0
  {
    "{ " + (TypeNameField + (": " + ("'" + (v.typeName + ("'" + ("; " + EmitFields(v.fields, "}" + k)))))))
  }

  /* ---------- the canonical types ---------- */

  predicate IsName(s: string) { s != "" && forall c :: c in s ==> IsNameChar(c) }

  /** A name that starts like `null` or a keyword: what goes on behind the word is no
      letter and no digit, and behind a keyword no dot. */
  predicate Reserved(name: string) {
    || (StartsWith(name, "null") && (|name| == 4 || !IsAlphanumeric(name[4])))
    || exists w :: w in {"string", "number", "boolean", "any", "unknown"} && Begins(name, w)
  }

  predicate Begins(name: string, w: string) {
    StartsWith(name, w) && (|name| == |w| || !(IsAlphanumeric(name[|w|]) || name[|w|] == '.'))
  }

  lemma {:induction false} NoKeyword(name: string, words: seq<(string, TsPrimitive)>)
    ensures FirstKeyword(name, words).Some? <==> exists i :: 0 <= i < |words| && KeywordAt(name, words[i].0)
  {
    hide KeywordAt;
    if words != [] {
      NoKeyword(name, words[1..]);
      if i :| 0 <= i < |words| && KeywordAt(name, words[i].0) {
        assert i > 0 ==> words[i] == words[1..][i - 1];
      }
      if j :| 0 <= j < |words[1..]| && KeywordAt(name, words[1..][j].0) { assert words[j + 1] == words[1..][j]; }
    }
  }

  lemma ReservedRead(name: string)
    ensures Reserved(name) <==> NullAt(name) || FirstKeyword(name, Keywords).Some?
  {
    NoKeyword(name, Keywords);
    hide FirstKeyword, StartsWith, IsAlphanumeric;
    if w :| w in {"string", "number", "boolean", "any", "unknown"} && Begins(name, w) {
      IsKeyword(w);
      var i :| 0 <= i < |Keywords| && Keywords[i].0 == w;
      assert KeywordAt(name, Keywords[i].0);
    }
    forall i | 0 <= i < |Keywords| && KeywordAt(name, Keywords[i].0) ensures Reserved(name) {
      KnownKeyword(i);
      assert Begins(name, Keywords[i].0);
    }
  }

  lemma KnownKeyword(i: nat)
    requires i < |Keywords|
    ensures Keywords[i].0 in {"string", "number", "boolean", "any", "unknown"}
  {}

  lemma IsKeyword(w: string)
    requires w in {"string", "number", "boolean", "any", "unknown"}
    ensures exists i :: 0 <= i < |Keywords| && Keywords[i].0 == w
  {
    assert Keywords[0].0 == "string" && Keywords[1].0 == "number" && Keywords[2].0 == "boolean";
    assert Keywords[3].0 == "any" && Keywords[4].0 == "unknown";
  }

  predicate PathOk(parts: seq<string>) {
    && parts != [] && IsName(Join(parts, ".")) && !Reserved(Join(parts, "."))
    && forall i :: 0 <= i < |parts| ==> '.' !in parts[i]
  }

  predicate NoQuotes(values: seq<string>) {
    forall i :: 0 <= i < |values| ==> '\'' !in values[i]
  }

  predicate FieldsOk(fields: seq<TsField>)
    decreases fields, 0
  {
    fields != [] ==> IsName(fields[0].name) && Canonical(fields[0].fieldType) && FieldsOk(fields[1..])
  }

  predicate VariantsOk(variants: seq<TsObjectVariant>)
    decreases variants, 0
  {
    variants != [] ==>
      && '\'' !in variants[0].typeName
      && (forall i :: 0 <= i < |variants[0].fields| ==> variants[0].fields[i].name != TypeNameField)
      && FieldsOk(variants[0].fields)
      && VariantsOk(variants[1..])
  }

  /** Types the reader returns without looking for `|` or `[]`. */
  predicate Single(t: TsType)
    decreases t, 0
  {
    match t
    case Primitive(_) => true
    case StringUnion(values) => values != [] && NoQuotes(values)
    case Object(fields) => FieldsOk(fields)
    case Reference(Named(parts)) => PathOk(parts)
    case Reference(Indexed(base, keys)) => PathOk(base) && keys != [] && NoQuotes(keys)
    case Wrapped(wrapper, wrapped) => IsWrapper(wrapper) && Canonical(wrapped)
    case _ => false
  }

  /** One alternative of a union: at most one `[]`. */
  predicate Item(t: TsType)
    decreases t, 1
  {
    if t.Array? then Single(t.element) else Single(t)
  }

  /** Alternatives that can be joined by `|`: a string literal eats the `|`
      after it, so only the last alternative may be one. */
  predicate ItemsOk(alternatives: seq<TsType>)
    decreases alternatives, 0
  {
    alternatives != [] ==>
      && Item(alternatives[0])
      && (|alternatives| > 1 ==> !alternatives[0].StringUnion?)
      && ItemsOk(alternatives[1..])
  }

  predicate Canonical(t: TsType)
    decreases t, 2
  {
    match t
    case Nullable(DiscriminatedUnion(discriminant, variants)) =>
      discriminant == TypeNameField && variants != [] && VariantsOk(variants)
    case Nullable(inner) => Item(inner) && !IsNull(inner) && !HasTypeName(inner)
    case DiscriminatedUnion(discriminant, variants) =>
      discriminant == TypeNameField && |variants| > 1 && VariantsOk(variants)
    case Union(alternatives) => PlainUnion(alternatives) && ItemsOk(alternatives)
    case _ => Item(t)
  }

  /** Alternatives that stay a union: none is an object with a `__typename`, they are not
      literals with or without `null`, and they are not one other type and one `null`. */
  predicate PlainUnion(alternatives: seq<TsType>) {
    && |alternatives| > 1
    && (forall t :: t in alternatives && t.Object? ==> forall f :: f in t.fields ==> f.name != "__typename")
    && ((forall t :: t in alternatives ==> t == Primitive(AnyType))
        || exists t :: t in alternatives && t != Primitive(AnyType) && !t.StringUnion?)
    && (|alternatives| == 2 ==> (alternatives[0] == Primitive(AnyType) <==> alternatives[1] == Primitive(AnyType)))
  }

  /** The wrappers: five names, alone or in the namespace of the shared types. */
  predicate IsWrapper(w: string) {
    var bases := {"Maybe", "InputMaybe", "Exact", "Pick", "Partial"};
    w in bases || exists b :: b in bases && w == "Types." + b
  }

  /** What may follow a type: the end of the text, or a character that cannot
      continue a type, such as `;`, `,`, `>`, `}` or `)`. */
  predicate Delimiter(k: string) {
    k != "" ==> !IsNameChar(k[0]) && !IsWs(k[0]) && k[0] != '/' && k[0] != '|' && k[0] != '[' && k[0] != '<'
  }

  /* ---------- reading names, literals and keys ---------- */

  predicate Stop(k: string) {
    && (k != "" ==> !IsNameChar(k[0]))
    && (At(k, '[') ==> StartsWith(k, "[]"))
    && !At(SkipWs(k), '<')
  }

  lemma SkipNothing(s: string)
    requires s == "" || (!IsWs(s[0]) && s[0] != '/')
    ensures SkipTrivia(s) == s && SkipWs(s) == s
  {}

  lemma SkipSpace(c: char, s: string)
    requires IsWs(c)
    ensures SkipTrivia([c] + s) == SkipTrivia(s) && SkipWs([c] + s) == SkipWs(s)
  {
    assert ([c] + s)[1..] == s;
  }

  lemma SkipWsTwice(s: string)
    ensures SkipTrivia(SkipWs(s)) == SkipTrivia(s)
    ensures SkipWs(SkipWs(s)) == SkipWs(s)
  {
    if s != "" && IsWs(s[0]) { SkipWsTwice(s[1..]); }
  }

  lemma {:induction false} TriviaTwice(s: string)
    ensures SkipTrivia(SkipTrivia(s)) == SkipTrivia(s)
    decreases |s|
  {
    var s1 := SkipWs(s);
    if StartsWith(s1, "//") { TriviaTwice(LineEnd(s1[2..])); }
    else if StartsWith(s1, "/*") { TriviaTwice(BlockEnd(s1[2..])); }
    else { SkipWsTwice(s); }
  }

  lemma {:induction false} NameLengthOf(name: string, k: string)
    requires forall c :: c in name ==> IsNameChar(c)
    requires k != "" ==> !IsNameChar(k[0])
    ensures NameLength(name + k) == |name|
    ensures (name + k)[..|name|] == name && (name + k)[|name|..] == k
  {
    if name != "" {
      assert name + k == [name[0]] + (name[1..] + k);
      assert forall c :: c in name[1..] ==> c in name;
      NameLengthOf(name[1..], k);
    } else {
      assert name + k == k;
    }
  }

  lemma {:induction false} QuoteIndexOf(value: string, quote: char, k: string)
    requires quote !in value
    ensures QuoteIndex(value + ([quote] + k), quote) == |value|
  {
    var s := value + ([quote] + k);
    if value != "" {
      assert s[1..] == value[1..] + ([quote] + k);
      QuoteIndexOf(value[1..], quote, k);
    }
  }

  lemma {:induction false} LiteralsRead(values: seq<string>, k: string)
    requires values != [] && NoQuotes(values) && !At(SkipWs(k), '|')
    ensures Literals(EmitLiterals(values, k)).0 == values
    ensures Literals(EmitLiterals(values, k)).1 == SkipWs(k)
    decreases |values|
  {
    hide SkipWs, Literals;
    var tail := if |values| == 1 then k else " | " + EmitLiterals(values[1..], k);
    OneLiteralRead(values[0], tail);
    assert EmitLiterals(values, k) == "'" + (values[0] + ("'" + tail));
    if |values| > 1 {
      LiteralsRead(values[1..], k);
      SpacedBar(EmitLiterals(values[1..], k));
      LiteralsAfterSpace(EmitLiterals(values[1..], k));
      assert values == [values[0]] + values[1..];
    }
  }

  /** A quoted value in front of any text, read by one round of the literal loop. */
  lemma OneLiteralRead(value: string, k: string)
    requires '\'' !in value
    ensures var r := Literals("'" + (value + ("'" + k)));
            if At(SkipWs(k), '|') then
              r.0 == [value] + Literals(SkipWs(k)[1..]).0 && r.1 == Literals(SkipWs(k)[1..]).1
            else r.0 == [value] && r.1 == SkipWs(k)
  {
    hide QuoteIndex, Literals;
    var s := "'" + (value + ("'" + k));
    LiteralsStep(s);
    assert s[1..] == value + ("'" + k);
    QuoteIndexOf(value, '\'', k);
    assert s[1..][..|value|] == value && s[1..][|value| + 1..] == k;
  }

  lemma SpacedBar(s: string)
    ensures SkipWs(" | " + s) == "| " + s && SkipTrivia(" | " + s) == "| " + s && ("| " + s)[1..] == " " + s
  {
    assert " | " + s == " " + ("| " + s);
    SkipSpace(' ', "| " + s);
    SkipNothing("| " + s);
  }

  lemma LiteralsAfterSpace(s: string)
    ensures Literals(" " + s) == Literals(s)
  {
    SkipSpace(' ', s);
  }

  lemma {:induction false} KeysRead(keys: seq<string>, k: string)
    requires NoQuotes(keys) && (At(k, '[') ==> StartsWith(k, "[]"))
    ensures IndexKeys(EmitKeys(keys, k)) == Keys(keys, k)
    decreases |keys|
  {
    hide StartsWith, IndexKeys;
    if keys == [] {
      NoKeyRead(k);
    } else {
      var tail := EmitKeys(keys[1..], k);
      assert EmitKeys(keys, k) == "['" + (keys[0] + ("']" + tail));
      OneKeyRead(keys[0], tail);
      KeysRead(keys[1..], k);
      assert keys == [keys[0]] + keys[1..];
    }
  }

  lemma NoKeyRead(k: string)
    requires At(k, '[') ==> StartsWith(k, "[]")
    ensures IndexKeys(k) == Keys([], k)
  {}

  lemma OneKeyRead(key: string, k: string)
    requires '\'' !in key
    ensures IndexKeys("['" + (key + ("']" + k))) == Prepend([key], IndexKeys(k))
  {
    hide QuoteIndex, IndexKeys;
    var s := "['" + (key + ("']" + k));
    assert s[..2][1] == '\'';
    KeysStep(s);
    assert s[1..][1..] == key + ("'" + ("]" + k)) by { assert "']" + k == "'" + ("]" + k); }
    QuoteIndexOf(key, '\'', "]" + k);
    var body := key + ("'" + ("]" + k));
    assert body[..|key|] == key && body[|key| + 1..] == "]" + k;
    assert ("]" + k)[1..] == k;
  }

  /* ---------- single types ---------- */

  /** At a character that opens neither an object nor a literal, only the
      wrapper, keyword and reference readers are left. */
  lemma SingleOfWord(s: string)
    requires s != "" && !IsWs(s[0]) && s[0] != '{' && s[0] != '\'' && !NullAt(s)
    ensures TryWrapped(s).value.Some? ==> ParseSingle(s) == TryWrapped(s)
    ensures TryWrapped(s) == Parsed(None, s) && TryPrimitive(s).value.Some? ==> ParseSingle(s) == TryPrimitive(s)
    ensures (TryWrapped(s) == Parsed(None, s) && TryPrimitive(s) == Parsed(None, s)) ==>
              ParseSingle(s) == TryReference(s)
  {
    hide NullAt, TryWrapped, TryPrimitive, TryReference, ParseFields, Literals;
  }

  lemma SingleOfBrace(s: string)
    requires s != "" && s[0] == '{' && TryObject(s).value.Some?
    ensures ParseSingle(s) == TryObject(s)
  {
    hide TryObject;
  }

  lemma SingleOfQuote(s: string)
    requires s != "" && s[0] == '\'' && TryStringLiteral(s).value.Some?
    ensures ParseSingle(s) == TryStringLiteral(s)
  {
    hide TryStringLiteral, ParseFields;
  }

  lemma {:induction false} NoPrefixByHead(s: string, words: seq<string>)
    requires s != "" && forall i :: 0 <= i < |words| ==> words[i] != "" && words[i][0] != s[0]
    ensures FirstPrefix(s, words) == None
  {
    if words != [] {
      assert !StartsWith(s, words[0]);
      NoPrefixByHead(s, words[1..]);
    }
  }

  lemma {:induction false} KeywordByHead(s: string, words: seq<(string, TsPrimitive)>, i: nat)
    requires s != "" && i < |words| && KeywordAt(s, words[i].0)
    requires forall j :: 0 <= j < i ==> words[j].0 != "" && words[j].0[0] != s[0]
    ensures FirstKeyword(s, words) == Some(words[i])
  {
    if i > 0 {
      assert !StartsWith(s, words[0].0);
      KeywordByHead(s, words[1..], i - 1);
    }
  }

  predicate IsWrapperHead(c: char) { c == 'M' || c == 'T' || c == 'I' || c == 'E' || c == 'P' }

  lemma KnownWrapper(w: string)
    ensures IsWrapper(w) <==> w in Wrappers
  {
    assert "Types." + "Maybe" == "Types.Maybe" && "Types." + "InputMaybe" == "Types.InputMaybe";
    assert "Types." + "Exact" == "Types.Exact" && "Types." + "Pick" == "Types.Pick";
    assert "Types." + "Partial" == "Types.Partial";
  }

  lemma WrapperHeads()
    ensures forall w :: w in Wrappers ==> w != "" && IsWrapperHead(w[0])
  {}

  lemma NotWrapped(s: string)
    requires s != "" && !IsWs(s[0]) && !IsWrapperHead(s[0])
    ensures TryWrapped(s) == Parsed(None, s)
  {
    hide FirstPrefix, ParseType;
    WrapperHeads();
    NoPrefixByHead(s, Wrappers);
  }

  lemma KeywordRead(p: TsPrimitive, k: string)
    requires p != AnyType && (k != "" ==> !IsNameChar(k[0]))
    ensures FirstKeyword(Keyword(p) + k, Keywords) == Some((Keyword(p), p))
  {
    var word := Keyword(p);
    var s := word + k;
    var i := if p == StringType then 0 else if p == NumberType then 1 else 2;
    assert Keywords[i] == (word, p);
    assert s[..|word|] == word && s[|word|..] == k;
    KeywordByHead(s, Keywords, i);
  }

  lemma PrimitiveRead(p: TsPrimitive, k: string)
    requires k != "" ==> !IsNameChar(k[0])
    ensures ParseSingle(Keyword(p) + k) == Parsed(Some(Primitive(p)), k)
  {
    hide FirstKeyword, TryWrapped, ParseSingle;
    var s := Keyword(p) + k;
    assert s[..|Keyword(p)|] == Keyword(p) && s[|Keyword(p)|..] == k;
    if p == AnyType {
      SingleOfNull(s);
    } else {
      assert !NullAt(s) by { assert |s| >= 4 ==> s[..4][2] == s[2]; }
      NotWrapped(s);
      KeywordRead(p, k);
      SingleOfWord(s);
    }
  }

  lemma SingleOfNull(s: string)
    requires NullAt(s)
    ensures ParseSingle(s) == Parsed(Some(Primitive(AnyType)), s[4..])
  {
    hide ParseFields;
    PrefixHead(s, NullWord);
  }

  /** A word of name characters that starts `name + k` lies within the name. */
  lemma PrefixWithinName(name: string, k: string, word: string)
    requires k != "" ==> !IsNameChar(k[0])
    requires forall c :: c in word ==> IsNameChar(c)
    requires StartsWith(name + k, word)
    ensures |word| <= |name| && name[..|word|] == word
    ensures (name + k)[|word|..] == name[|word|..] + k
  {
    PrefixChars(name + k, word);
    assert forall i :: 0 <= i < |word| ==> word[i] in word;
    assert k != "" ==> (name + k)[|name|] == k[0];
  }

  /** No wrapper name is a prefix of another one. */
  lemma WrappersDiffer(i: nat, j: nat, s: string)
    requires i < j < |Wrappers| && StartsWith(s, Wrappers[j])
    ensures !StartsWith(s, Wrappers[i])
  {
    WrapperLetters(i, j);
    PrefixChars(s, Wrappers[j]);
    if StartsWith(s, Wrappers[i]) { PrefixChars(s, Wrappers[i]); }
  }

  lemma WrapperLetters(i: nat, j: nat)
    requires i < j < |Wrappers|
    ensures var v, w := Wrappers[i], Wrappers[j];
            && |v| > 1 && |w| > 1
            && (v[0] == w[0] && v[1] == w[1] ==> |v| > 7 && |w| > 7 && (v[6] != w[6] || v[7] != w[7]))
  {}

  lemma {:induction false} PrefixByIndex(s: string, words: seq<string>, i: nat)
    requires i < |words| && StartsWith(s, words[i])
    requires forall j :: 0 <= j < i ==> !StartsWith(s, words[j])
    ensures FirstPrefix(s, words) == Some(words[i])
  {
    if i > 0 { PrefixByIndex(s, words[1..], i - 1); }
  }

  lemma WrapperFound(w: string, k: string)
    requires w in Wrappers
    ensures FirstPrefix(w + k, Wrappers) == Some(w) && (w + k)[|w|..] == k
  {
    hide FirstPrefix;
    var s := w + k;
    var j :| 0 <= j < |Wrappers| && Wrappers[j] == w;
    assert s[..|w|] == w && s[|w|..] == k;
    forall i | 0 <= i < j ensures !StartsWith(s, Wrappers[i]) { WrappersDiffer(i, j, s); }
    PrefixByIndex(s, Wrappers, j);
  }

  /** A wrapper around text that reads as a type up to `>`. */
  lemma WrappedRead(w: string, inner: TsType, body: string, k: string)
    requires w in Wrappers && ParseType(body) == Parsed(Some(inner), ">" + k)
    ensures ParseSingle(w + ("<" + body)) == Parsed(Some(Wrapped(w, inner)), k)
  {
    hide FirstPrefix, ParseType, ParseSingle, StartsWith;
    var s := w + ("<" + body);
    WrapperHeads();
    assert s[0] == w[0];
    WrapperFound(w, "<" + body);
    assert ("<" + body)[1..] == body && (">" + k)[1..] == k;
    assert TryWrapped(s) == Parsed(Some(Wrapped(w, inner)), k);
    assert !NullAt(s) by { PrefixHead(s, NullWord); }
    SingleOfWord(s);
  }

  /* ---------- references ---------- */

  lemma WrappersAreNames()
    ensures forall w, c :: w in Wrappers && c in w ==> IsNameChar(c)
  {}

  /** A name that is not followed by `<` is not a wrapper, whatever it starts with. */
  lemma NameNotWrapped(name: string, k: string)
    requires IsName(name) && (k != "" ==> !IsNameChar(k[0])) && !At(SkipWs(k), '<')
    ensures TryWrapped(name + k) == Parsed(None, name + k)
  {
    hide ParseType, FirstPrefix;
    var s := name + k;
    assert IsNameChar(name[0]);
    var found := FirstPrefix(s, Wrappers);
    if found.Some? { WordThenName(name, k, found.value); }
  }

  /** No `<` follows a wrapper's name that is only the beginning of a name. */
  lemma WordThenName(name: string, k: string, w: string)
    requires IsName(name) && (k != "" ==> !IsNameChar(k[0])) && !At(SkipWs(k), '<')
    requires w in Wrappers && StartsWith(name + k, w)
    ensures !At(SkipWs((name + k)[|w|..]), '<')
  {
    WrappersAreNames();
    assert forall c :: c in w ==> IsNameChar(c);
    hide SkipWs;
    PrefixWithinName(name, k, w);
    var rest := (name + k)[|w|..];
    if |w| < |name| {
      assert name[|w|] in name && rest[0] == name[|w|];
      NameNotSkipped(rest);
    } else {
      assert rest == k;
    }
  }

  lemma NameNotSkipped(s: string)
    requires s != "" && IsNameChar(s[0])
    ensures SkipWs(s) == s
  {}

  lemma KeywordExtends(name: string, k: string, word: string)
    requires k != "" ==> !IsNameChar(k[0])
    requires forall c :: c in word ==> IsNameChar(c)
    requires KeywordAt(name + k, word)
    ensures KeywordAt(name, word)
  {
    PrefixWithinName(name, k, word);
    if |word| < |name| { assert (name + k)[|word|] == name[|word|]; }
  }

  lemma {:induction false} NoKeywordExtends(name: string, k: string, words: seq<(string, TsPrimitive)>)
    requires k != "" ==> !IsNameChar(k[0])
    requires forall i, c :: 0 <= i < |words| && c in words[i].0 ==> IsNameChar(c)
    requires FirstKeyword(name, words) == None
    ensures FirstKeyword(name + k, words) == None
  {
    if words != [] {
      if KeywordAt(name + k, words[0].0) {
        assert forall c :: c in words[0].0 ==> IsNameChar(c);
        KeywordExtends(name, k, words[0].0);
      }
      NoKeywordExtends(name, k, words[1..]);
    }
  }

  lemma KeywordsAreNames()
    ensures forall i, c :: 0 <= i < |Keywords| && c in Keywords[i].0 ==> IsNameChar(c)
  {}

  lemma NameNotReserved(name: string, k: string)
    requires IsName(name) && !Reserved(name) && (k != "" ==> !IsNameChar(k[0]))
    ensures !NullAt(name + k) && TryPrimitive(name + k) == Parsed(None, name + k)
  {
    ReservedRead(name);
    hide FirstKeyword;
    var s := name + k;
    assert IsNameChar(name[0]);
    assert s[0] == name[0];
    if NullAt(s) { NullExtends(name, k); }
    KeywordsAreNames();
    NoKeywordExtends(name, k, Keywords);
  }

  lemma NullExtends(name: string, k: string)
    requires k != "" ==> !IsNameChar(k[0])
    requires NullAt(name + k)
    ensures NullAt(name)
  {
    PrefixWithinName(name, k, NullWord);
    if |name| > 4 { assert (name + k)[4] == name[4]; }
  }

  lemma ReferenceRead(parts: seq<string>, keys: seq<string>, k: string)
    requires PathOk(parts) && NoQuotes(keys) && Stop(k)
    ensures ParseSingle(Join(parts, ".") + EmitKeys(keys, k)) ==
            Parsed(Some(Reference(if keys == [] then Named(parts) else Indexed(parts, keys))), k)
  {
    hide FirstPrefix, FirstKeyword, ParseSingle, TryWrapped, TryPrimitive, IndexKeys, NameLength, Split, Join;
    var name := Join(parts, ".");
    var tail := EmitKeys(keys, k);
    var s := name + tail;
    if keys != [] { assert tail[..2] == "['" && tail[0] == '['; }
    assert IsNameChar(name[0]) by { assert name[0] in name; }
    assert s[0] == name[0];
    NameNotWrapped(name, tail);
    NameNotReserved(name, tail);
    SingleOfWord(s);
    NameLengthOf(name, tail);
    SplitJoin(parts, '.');
    KeysRead(keys, k);
  }

  /* ---------- whole types ---------- */

  /** The first character of printed text opens a type. */
  predicate Opens(s: string) {
    s != "" && !IsWs(s[0]) && s[0] != '/' && s[0] != '|'
  }

  lemma EmitOpens(t: TsType, k: string)
    requires Item(t)
    ensures Opens(Emit(t, k))
  {
    if t.Array? { SingleOpens(t.element, "[]" + k); } else { SingleOpens(t, k); }
  }

  lemma SingleOpens(t: TsType, k: string)
    requires Single(t)
    ensures Opens(Emit(t, k))
  {
    match t
    case Reference(Named(parts)) => PathOpens(parts);
    case Reference(Indexed(base, keys)) => PathOpens(base);
    case Wrapped(wrapper, wrapped) => KnownWrapper(wrapper); WrapperHeads();
    case _ =>
  }

  lemma PathOpens(parts: seq<string>)
    requires PathOk(parts)
    ensures Opens(Join(parts, "."))
  {
    assert Join(parts, ".")[0] in Join(parts, ".");
  }

  /** What the reader of one alternative sees after it: the end of the type,
      a `[]`, or the bar in front of the next alternative. */
  predicate AfterSingle(t: TsType, k: string) {
    Stop(k) && (t.StringUnion? ==> !At(SkipWs(k), '|'))
  }

  lemma {:induction false} SingleRead(t: TsType, k: string)
    requires Single(t) && AfterSingle(t, k)
    ensures ParseSingle(Emit(t, k)).value == Some(t)
    ensures SkipTrivia(ParseSingle(Emit(t, k)).rest) == SkipTrivia(k)
    decreases |Emit(t, k)|, 1
  {
    hide ParseSingle, FirstKeyword, ParseFields, Literals, Stop, Reserved, SkipTrivia, SkipWs;
    match t
    case Primitive(p) => AfterStop(k); PrimitiveRead(p, k);
    case Reference(Named(parts)) => assert EmitKeys([], k) == k; ReferenceRead(parts, [], k);
    case Reference(Indexed(base, keys)) => ReferenceRead(base, keys, k);
    case StringUnion(values) =>
      LiteralsRead(values, k);
      LiteralsOpen(values, k);
      SingleOfQuote(Emit(t, k));
      SkipWsTwice(k);
    case Object(fields) =>
      FieldsRead(fields, k);
      BraceOpen(fields, k);
      SingleOfBrace(Emit(t, k));
    case Wrapped(wrapper, wrapped) =>
      TypeRead(wrapped, ">" + k);
      KnownWrapper(wrapper);
      WrappedRead(wrapper, wrapped, Emit(wrapped, ">" + k), k);
  }

  lemma AfterStop(k: string)
    requires Stop(k)
    ensures k != "" ==> !IsNameChar(k[0])
  {}

  lemma LiteralsOpen(values: seq<string>, k: string)
    requires values != [] && Literals(EmitLiterals(values, k)).0 == values
    ensures EmitLiterals(values, k)[0] == '\''
    ensures TryStringLiteral(EmitLiterals(values, k)) ==
            Parsed(Some(StringUnion(values)), Literals(EmitLiterals(values, k)).1)
  {
    hide Literals;
  }

  lemma BraceOpen(fields: seq<TsField>, k: string)
    requires ParseFields(" " + EmitFields(fields, "}" + k)) == Closed(fields, k)
    ensures var s := "{ " + EmitFields(fields, "}" + k);
            s[0] == '{' && TryObject(s) == Parsed(Some(Object(fields)), k)
  {
    hide ParseFields;
    var s := "{ " + EmitFields(fields, "}" + k);
    assert s[1..] == " " + EmitFields(fields, "}" + k);
  }

  lemma {:induction false} FieldsRead(fields: seq<TsField>, k: string)
    requires FieldsOk(fields)
    ensures ParseFields(" " + EmitFields(fields, "}" + k)) == Closed(fields, k)
    decreases |EmitFields(fields, "}" + k)|, 0
  {
    hide ParseFields, ParseType, Canonical;
    var s := EmitFields(fields, "}" + k);
    if fields == [] {
      NoFieldRead(k);
    } else {
      var f := fields[0];
      var tail := EmitFields(fields[1..], "}" + k);
      var body := Emit(f.fieldType, "; " + tail);
      assert s == f.name + ((if f.optional then "?: " else ": ") + body);
      TypeRead(f.fieldType, "; " + tail);
      TypeAfterSpace(body);
      FieldRead(f, body, tail);
      FieldsRead(fields[1..], k);
      assert fields == [f] + fields[1..];
    }
  }

  lemma NoFieldRead(k: string)
    ensures ParseFields(" " + ("}" + k)) == Closed([], k)
  {
    hide ParseFields, SkipTrivia, ParseType, NameLength;
    FieldsStep(" " + ("}" + k));
    SkipSpace(' ', "}" + k);
    SkipNothing("}" + k);
    assert ("}" + k)[1..] == k;
  }

  lemma TypeAfterSpace(s: string)
    ensures ParseType(" " + s) == ParseType(s)
  {
    hide SkipTrivia, ParseSingle;
    SkipSpace(' ', s);
  }

  /** One printed field whose type text reads back up to its separator. */
  lemma FieldRead(f: TsField, body: string, tail: string)
    requires IsName(f.name) && ParseType(" " + body) == Parsed(Some(f.fieldType), "; " + tail)
    ensures ParseFields(" " + (f.name + ((if f.optional then "?: " else ": ") + body)))
            == PrependField([f], ParseFields(" " + tail))
  {
    hide *;
    FieldText(f, body);
    FieldsStep(" " + (f.name + ((if f.optional then "?: " else ": ") + body)));
    SkipSpace(' ', f.name + ((if f.optional then "?: " else ": ") + body));
    MarkThenSpace(": ", body);
    MarkThenSpace("; ", tail);
  }

  lemma MarkThenSpace(mark: string, s: string)
    requires mark == ": " || mark == "; "
    ensures At(mark + s, mark[0]) && SkipTrivia(mark + s) == mark + s && (mark + s)[1..] == " " + s
  {
    SkipNothing(mark + s);
  }

  lemma FieldText(f: TsField, body: string)
    requires IsName(f.name)
    ensures var s1 := f.name + ((if f.optional then "?: " else ": ") + body);
            var n := NameLength(s1);
            && s1 != "" && n > 0 && SkipTrivia(s1) == s1 && s1[0] != '}' && s1[..n] == f.name
            && At(s1[n..], '?') == f.optional
            && (if f.optional then s1[n + 1..] else s1[n..]) == ": " + body
  {
    hide NameLength;
    var mark := if f.optional then "?: " else ": ";
    var s1 := f.name + (mark + body);
    assert IsNameChar(f.name[0]) by { assert f.name[0] in f.name; }
    assert s1[0] == f.name[0];
    SkipNothing(s1);
    NameLengthOf(f.name, mark + body);
    assert mark + body == (if f.optional then "?" + (": " + body) else ": " + body);
    assert f.optional ==> s1[|f.name| + 1..] == ": " + body;
  }

  lemma {:induction false} AlternativesRead(items: seq<TsType>, k: string, first: bool)
    requires items != [] && ItemsOk(items) && Delimiter(k)
    ensures ParseAlternatives(EmitAll(items, k), first).0 == items
    ensures ParseAlternatives(EmitAll(items, k), first).1 == k
    decreases |EmitAll(items, k)|, 3
  {
    hide ParseAlternatives, Item, Canonical;
    if |items| == 1 {
      DelimiterStops(k);
      ItemRead(items[0], k, first);
      assert items == [items[0]];
    } else {
      var tail := EmitAll(items[1..], k);
      BarStops(tail);
      ItemRead(items[0], " | " + tail, first);
      SpacedBar(tail);
      AlternativesRead(items[1..], k, false);
      AlternativesAfterSpace(tail, false);
      assert items == [items[0]] + items[1..];
    }
  }

  lemma DelimiterStops(k: string)
    requires Delimiter(k)
    ensures Stop(k) && !At(SkipWs(k), '|') && SkipTrivia(k) == k && !At(k, '|') && !StartsWith(k, "[]")
  {
    SkipNothing(k);
    PrefixHead(k, "[]");
  }

  lemma BarStops(tail: string)
    ensures Stop(" | " + tail) && SkipTrivia(" | " + tail) == "| " + tail
    ensures At("| " + tail, '|') && !StartsWith("| " + tail, "[]")
  {
    SpacedBar(tail);
    PrefixHead("| " + tail, "[]");
  }

  lemma AlternativesAfterSpace(s: string, first: bool)
    ensures ParseAlternatives(" " + s, first) == ParseAlternatives(s, first)
  {
    hide SkipTrivia, ParseSingle;
    SkipSpace(' ', s);
  }

  /** One alternative, with its `[]` if it is an array, in front of a bar or
      of the end of the type. */
  lemma {:induction false} ItemRead(t: TsType, k: string, first: bool)
    requires Item(t) && AfterSingle(t, k) && !StartsWith(SkipTrivia(k), "[]")
    ensures var r := ParseAlternatives(Emit(t, k), first);
            var s3 := SkipTrivia(k);
            if At(s3, '|') then
              r.0 == [t] + ParseAlternatives(s3[1..], false).0 && r.1 == ParseAlternatives(s3[1..], false).1
            else r.0 == [t] && r.1 == s3
    decreases |Emit(t, k)|, 2
  {
    hide ParseAlternatives, ParseSingle, Single, SkipTrivia, SkipWs;
    var s := Emit(t, k);
    EmitOpens(t, k);
    SkipNothing(s);
    AlternativesStep(s, first);
    TriviaTwice(k);
    if t.Array? {
      var suffix := "[]" + k;
      BracketsStop(k);
      SingleRead(t.element, suffix);
      assert suffix[..2] == "[]" && suffix[2..] == k;
    } else {
      SingleRead(t, k);
    }
  }

  lemma BracketsStop(k: string)
    ensures Stop("[]" + k) && SkipTrivia("[]" + k) == "[]" + k && !At(SkipWs("[]" + k), '|')
  {
    SkipNothing("[]" + k);
    assert ("[]" + k)[..2] == "[]";
  }

  /** The alternatives the reader finds in the text of a type. */
  function AlternativesOf(t: TsType): seq<TsType> {
    match t
    case Nullable(StringUnion(_)) => [Primitive(AnyType), t.inner]
    case Nullable(DiscriminatedUnion(_, variants)) => Objects(variants) + [Primitive(AnyType)]
    case Nullable(inner) => [inner, Primitive(AnyType)]
    case DiscriminatedUnion(_, variants) => Objects(variants)
    case Union(alternatives) => alternatives
    case _ => [t]
  }

  function VariantObject(v: TsObjectVariant): TsType {
    Object([TsField(TypeNameField, false, StringUnion([v.typeName]))] + v.fields)
  }

  function Objects(variants: seq<TsObjectVariant>): seq<TsType> {
    if variants == [] then [] else [VariantObject(variants[0])] + Objects(variants[1..])
  }

  lemma {:induction false} EmitObjects(variants: seq<TsObjectVariant>, k: string)
    ensures EmitAll(Objects(variants), k) == EmitVariants(variants, k)
    decreases |variants|
  {
    if variants != [] {
      if |variants| == 1 {
        EmitVariantObject(variants[0], k);
      } else {
        EmitObjects(variants[1..], k);
        EmitVariantObject(variants[0], " | " + EmitVariants(variants[1..], k));
        assert Objects(variants)[1..] == Objects(variants[1..]);
        assert |Objects(variants)| > 1;
      }
    }
  }

  lemma EmitVariantObject(v: TsObjectVariant, k: string)
    ensures Emit(VariantObject(v), k) == EmitVariant(v, k)
  {
    var first := TsField(TypeNameField, false, StringUnion([v.typeName]));
    var tail := EmitFields(v.fields, "}" + k);
    assert ([first] + v.fields)[1..] == v.fields;
    assert EmitFields([first] + v.fields, "}" + k)
        == TypeNameField + (": " + Emit(first.fieldType, "; " + tail));
    assert EmitLiterals([v.typeName], "; " + tail) == "'" + (v.typeName + ("'" + ("; " + tail)));
  }

  /** Printing a list of alternatives in two parts. */
  lemma {:induction false} EmitAllAppend(items: seq<TsType>, last: TsType, k: string)
    requires items != []
    ensures EmitAll(items + [last], k) == EmitAll(items, " | " + Emit(last, k))
    decreases |items|
  {
    assert (items + [last])[1..] == items[1..] + [last];
    if |items| == 1 {
      assert items[1..] + [last] == [last];
    } else {
      EmitAllAppend(items[1..], last, k);
    }
  }

  lemma {:induction false} ObjectsOk(variants: seq<TsObjectVariant>, last: seq<TsType>)
    requires VariantsOk(variants) && ItemsOk(last) && forall t :: t in last ==> !HasTypeName(t)
    ensures ItemsOk(Objects(variants) + last)
    ensures VariantsOf(Objects(variants) + last) == variants
    decreases |variants|
  {
    hide HasTypeName, Item;
    var items := Objects(variants) + last;
    if variants == [] {
      assert items == last;
      NoVariants(last);
    } else {
      ObjectsOk(variants[1..], last);
      VariantOk(variants[0]);
      assert items[1..] == Objects(variants[1..]) + last;
      assert variants == [variants[0]] + variants[1..];
    }
  }

  lemma {:induction false} NoVariants(items: seq<TsType>)
    requires forall t :: t in items ==> !HasTypeName(t)
    ensures VariantsOf(items) == []
  {
    hide HasTypeName;
    if items != [] {
      assert items[0] in items;
      NoVariants(items[1..]);
    }
  }

  lemma NullItem()
    ensures ItemsOk([Primitive(AnyType)]) && !HasTypeName(Primitive(AnyType)) && ItemsOk([])
  {
    OneItem(Primitive(AnyType), "");
  }

  lemma VariantOk(v: TsObjectVariant)
    requires VariantsOk([v])
    ensures Item(VariantObject(v)) && HasTypeName(VariantObject(v))
    ensures TypeNameOf(VariantObject(v).fields) == v.typeName && WithoutTypeName(VariantObject(v).fields) == v.fields
  {
    var first := TsField(TypeNameField, false, StringUnion([v.typeName]));
    var fields := [first] + v.fields;
    assert fields[0] == first && fields[1..] == v.fields;
    assert Canonical(first.fieldType);
    NothingDropped(v.fields);
  }

  lemma {:induction false} NothingDropped(fields: seq<TsField>)
    requires forall i :: 0 <= i < |fields| ==> fields[i].name != TypeNameField
    ensures WithoutTypeName(fields) == fields
  {
    if fields != [] { NothingDropped(fields[1..]); }
  }

  /** A canonical type is what its alternatives merge to, and its text is theirs. */
  lemma CanonicalSplits(t: TsType, k: string)
    requires Canonical(t)
    ensures var items := AlternativesOf(t);
            && items != [] && ItemsOk(items) && Merge(items) == t
            && Emit(t, k) == EmitAll(items, k)
  {
    hide Item, HasTypeName, EmitAll, EmitVariants, ItemsOk, VariantsOf, StringsOf, FirstNonNull, VariantsOk,
         AllStrings;
    match t
    case Nullable(DiscriminatedUnion(_, variants)) =>
      NoNullInObjects(variants);
      NullItem();
      ObjectsOk(variants, [Primitive(AnyType)]);
      EmitAllAppend(Objects(variants), Primitive(AnyType), k);
      EmitObjects(variants, " | " + ("null" + k));
    case DiscriminatedUnion(_, variants) =>
      assert Objects(variants) + [] == Objects(variants);
      NullItem();
      ObjectsOk(variants, []);
      NoNullInObjects(variants);
      EmitObjects(variants, k);
    case Nullable(inner) => NullableSplits(inner, k);
    case Union(alternatives) => UnionItems(alternatives, k);
    case _ => OneItem(t, k);
  }

  lemma {:induction false} NoNullInObjects(variants: seq<TsObjectVariant>)
    ensures Primitive(AnyType) !in Objects(variants) && |Objects(variants)| == |variants|
  {
    if variants != [] { NoNullInObjects(variants[1..]); }
  }

  lemma OneItem(t: TsType, k: string)
    ensures (ItemsOk([t]) <==> Item(t)) && EmitAll([t], k) == Emit(t, k)
  {
    hide Item, Emit;
    assert [t][1..] == [];
  }

  lemma UnionItems(alternatives: seq<TsType>, k: string)
    requires Canonical(Union(alternatives))
    ensures ItemsOk(alternatives) && Merge(alternatives) == Union(alternatives)
  {
    PlainStaysUnion(alternatives);
    hide ItemsOk, Merge, PlainUnion;
  }

  lemma {:induction false} PartsOfItems(alternatives: seq<TsType>)
    requires ItemsOk(alternatives)
    ensures VariantsOf(alternatives) != [] <==> exists t :: t in alternatives && HasTypeName(t)
    ensures StringsOf(alternatives) != [] <==> exists t :: t in alternatives && t.StringUnion?
    ensures FirstNonNull(alternatives).Some? <==> exists t :: t in alternatives && !IsNull(t)
    decreases |alternatives|
  {
    hide HasTypeName, IsNull;
    if alternatives != [] {
      PartsOfItems(alternatives[1..]);
      assert alternatives == [alternatives[0]] + alternatives[1..];
      LiteralsThere(alternatives[0]);
    }
  }

  lemma LiteralsThere(t: TsType)
    requires Item(t)
    ensures t.StringUnion? ==> t.values != []
  {}

  lemma NamedObjects(alternatives: seq<TsType>)
    ensures (exists t :: t in alternatives && HasTypeName(t)) <==>
            !forall t :: t in alternatives && t.Object? ==> forall f :: f in t.fields ==> f.name != "__typename"
  {
    forall t | t in alternatives && t.Object?
      ensures HasTypeName(t) <==> exists f :: f in t.fields && f.name == "__typename"
    {
      if f :| f in t.fields && f.name == "__typename" {
        var i :| 0 <= i < |t.fields| && t.fields[i] == f;
        assert t.fields[i].name == TypeNameField;
      }
    }
  }

  lemma LiteralsOnly(alternatives: seq<TsType>)
    requires ItemsOk(alternatives)
    ensures AllStrings(alternatives) && StringsOf(alternatives) != [] <==>
            !((forall t :: t in alternatives ==> t == Primitive(AnyType))
              || exists t :: t in alternatives && t != Primitive(AnyType) && !t.StringUnion?)
  {
    hide ItemsOk, StringsOf;
    PartsOfItems(alternatives);
  }

  /** Several alternatives stay a union exactly when they are plain. */
  lemma PlainStaysUnion(alternatives: seq<TsType>)
    requires |alternatives| > 1 && ItemsOk(alternatives)
    ensures Merge(alternatives) == Union(alternatives) <==> PlainUnion(alternatives)
  {
    hide ItemsOk, VariantsOf, StringsOf, FirstNonNull, AllStrings, HasTypeName, IsNull;
    PartsOfItems(alternatives);
    NamedObjects(alternatives);
    LiteralsOnly(alternatives);
    NullAndOther(alternatives);
  }

  lemma NullAndOther(alternatives: seq<TsType>)
    requires |alternatives| > 1
    ensures var hasNull := Primitive(AnyType) in alternatives;
            (hasNull && |alternatives| == 2 && exists t :: t in alternatives && !IsNull(t)) <==>
            !(|alternatives| == 2 ==> (alternatives[0] == Primitive(AnyType) <==> alternatives[1] == Primitive(AnyType)))
  {
    if |alternatives| == 2 {
      assert alternatives == [alternatives[0], alternatives[1]];
      assert alternatives[0] in alternatives && alternatives[1] in alternatives;
    }
  }

  lemma PairParts(a: TsType, b: TsType)
    ensures VariantsOf([a, b]) == VariantsOf([a]) + VariantsOf([b])
    ensures StringsOf([a, b]) == StringsOf([a]) + StringsOf([b])
    ensures ItemsOk([a, b]) <==> Item(a) && !a.StringUnion? && Item(b)
    ensures forall k :: EmitAll([a, b], k) == Emit(a, " | " + Emit(b, k))
    ensures FirstNonNull([a, b]) == if !IsNull(a) then Some(a) else FirstNonNull([b])
  {
    hide Item, Emit, HasTypeName;
    assert [a, b][1..] == [b] && [a][1..] == [] && [b][1..] == [];
    assert ItemsOk([b]) <==> Item(b);
  }

  lemma NullableSplits(inner: TsType, k: string)
    requires Item(inner) && !IsNull(inner) && !HasTypeName(inner)
    ensures var t := Nullable(inner);
            var items := AlternativesOf(t);
            ItemsOk(items) && Merge(items) == t && Emit(t, k) == EmitAll(items, k)
  {
    hide Item, HasTypeName, EmitAll, ItemsOk, VariantsOf, StringsOf, FirstNonNull;
    var nul := Primitive(AnyType);
    assert Item(nul) && VariantsOf([nul]) == [] && StringsOf([nul]) == [] by { NullParts(); }
    OtherParts(inner);
    if inner.StringUnion? {
      PairParts(nul, inner);
      assert AllStrings([nul, inner]);
      assert nul in [nul, inner];
    } else {
      PairParts(inner, nul);
      assert inner in [inner, nul] && nul in [inner, nul];
    }
  }

  lemma NullParts()
    ensures var nul := Primitive(AnyType);
            Item(nul) && VariantsOf([nul]) == [] && StringsOf([nul]) == []
  {}

  lemma OtherParts(t: TsType)
    requires Item(t) && !HasTypeName(t)
    ensures !t.DiscriminatedUnion?
    ensures VariantsOf([t]) == [] && FirstNonNull([t]) == if IsNull(t) then None else Some(t)
    ensures t.StringUnion? ==> StringsOf([t]) == t.values && t.values != []
  {
    hide HasTypeName;
    assert [t][1..] == [];
  }

  /** Reading the text of a canonical type in front of a delimiter returns that
      type and leaves exactly what follows its text. */
  lemma {:induction false} TypeRead(t: TsType, k: string)
    requires Canonical(t) && Delimiter(k)
    ensures ParseType(Emit(t, k)) == Parsed(Some(t), k)
    decreases |Emit(t, k)|, 4
  {
    hide ParseAlternatives, Merge, ItemsOk, Canonical, EmitAll;
    CanonicalSplits(t, k);
    AlternativesRead(AlternativesOf(t), k, true);
  }
}
