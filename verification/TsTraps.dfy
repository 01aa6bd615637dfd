/** Texts of types that are not read back: each is a whole family, for any names
    and any text that follows. */
module TsTraps {
  import opened Text
  import opened TsAst
  import opened TsGrammar
  import opened TsRoundTrip

  /** Of several `[]` only the first is read, and the type ends in front of the
      second. */
  lemma SecondSuffixLeft(t: TsType, k: string)
    requires Single(t)
    ensures ParseType(Emit(t, "[]" + ("[]" + k))) == Parsed(Some(Array(t)), "[]" + k)
  {
    hide ParseAlternatives, ParseSingle, Single, SkipTrivia, SkipWs, Merge;
    var after := "[]" + k;
    var suffix := "[]" + after;
    var s := Emit(t, suffix);
    SingleOpens(t, suffix);
    SkipNothing(s);
    AlternativesStep(s, true);
    BracketsStop(after);
    BracketsStop(k);
    SingleRead(t, suffix);
    assert suffix[..2] == "[]" && suffix[2..] == after;
    MergeOne(Array(t));
  }

  lemma MergeOne(t: TsType)
    ensures Merge([t]) == t
  {}

  lemma {:induction false} FirstKeywordExtends(name: string, k: string, words: seq<(string, TsPrimitive)>)
    requires k != "" ==> !IsNameChar(k[0])
    requires forall i, c :: 0 <= i < |words| && c in words[i].0 ==> IsNameChar(c)
    ensures FirstKeyword(name + k, words) == FirstKeyword(name, words)
  {
    if words != [] {
      assert forall c :: c in words[0].0 ==> IsNameChar(c);
      SameKeyword(name, k, words[0].0);
      FirstKeywordExtends(name, k, words[1..]);
    }
  }

  lemma SameKeyword(name: string, k: string, word: string)
    requires k != "" ==> !IsNameChar(k[0])
    requires forall c :: c in word ==> IsNameChar(c)
    ensures KeywordAt(name + k, word) <==> KeywordAt(name, word)
  {
    if KeywordAt(name + k, word) { KeywordExtends(name, k, word); }
    if KeywordAt(name, word) {
      assert (name + k)[..|word|] == name[..|word|];
    }
  }

  /** A name that a keyword starts, and that goes on with something other than a
      letter, a digit or a dot, is read as the keyword; the rest is left. */
  lemma KeywordOverName(name: string, k: string, word: (string, TsPrimitive))
    requires IsName(name) && !NullAt(name) && FirstKeyword(name, Keywords) == Some(word)
    requires (k != "" ==> !IsNameChar(k[0])) && !At(SkipWs(k), '<')
    ensures ParseSingle(name + k) == Parsed(Some(Primitive(word.1)), name[|word.0|..] + k)
  {
    hide FirstKeyword, ParseSingle, TryWrapped, SkipWs;
    var s := name + k;
    assert name[0] in name && s[0] == name[0];
    if NullAt(s) { NullExtends(name, k); }
    KeywordsAreNames();
    FirstKeywordExtends(name, k, Keywords);
    NameNotWrapped(name, k);
    SingleOfWord(s);
    SkipNothing(s);
  }

  /** A name that starts like `null`, and goes on with something other than a letter or a
      digit, is read as `null`; the rest is left. */
  lemma NullOverName(name: string, k: string)
    requires IsName(name) && NullAt(name) && (k != "" ==> !IsNameChar(k[0]))
    ensures ParseSingle(name + k) == Parsed(Some(Primitive(AnyType)), name[4..] + k)
  {
    hide ParseSingle;
    var s := name + k;
    assert s[..4] == name[..4] && s[4..] == name[4..] + k;
    assert |name| > 4 ==> s[4] == name[4];
    assert |name| == 4 && k != "" ==> s[4] == k[0];
    SingleOfNull(s);
  }

  /** A name in front of a delimiter is read as a reference to itself exactly when it
      does not start like a keyword. */
  lemma NameReads(name: string, k: string)
    requires IsName(name) && Stop(k)
    ensures ParseSingle(name + k) == Parsed(Some(Reference(Named(Split(name, '.')))), k) <==> !Reserved(name)
    ensures ParseSingle(name + k) == NameMeaning(name, k)
  {
    hide ParseSingle, FirstKeyword, NullAt, Split, Join, SkipWs, Reserved;
    ReservedRead(name);
    if NullAt(name) {
      NullOverName(name, k);
    } else if FirstKeyword(name, Keywords).Some? {
      KeywordOverName(name, k, FirstKeyword(name, Keywords).value);
    } else {
      JoinSplit(name, '.');
      ReferenceRead(Split(name, '.'), [], k);
    }
  }

  function NameMeaning(name: string, k: string): Parsed<TsType> {
    if NullAt(name) then Parsed(Some(Primitive(AnyType)), name[4..] + k)
    else
      match FirstKeyword(name, Keywords)
      case Some(word) => Parsed(Some(Primitive(word.1)), name[|word.0|..] + k)
      case None => Parsed(Some(Reference(Named(Split(name, '.')))), k)
  }

  /** A list of literals followed by `| null` is left half read: the literal
      reader eats the bar, so the type ends in front of `null`. */
  lemma LiteralsThenNull(values: seq<string>, k: string)
    requires values != [] && NoQuotes(values)
    requires k != "" ==> !IsAlphanumeric(k[0])
    ensures ParseType(EmitLiterals(values, " | " + ("null" + k)))
            == Parsed(Some(StringUnion(values)), "null" + k)
  {
    hide Literals, ParseSingle, ParseAlternatives, SkipTrivia, SkipWs;
    var tail := "null" + k;
    var s := EmitLiterals(values, " | " + tail);
    assert s != "" && s[0] == '\'';
    SkipNothing(s);
    SkipNothing(tail);
    LiteralsThenText(values, tail);
    assert TryStringLiteral(s) == Parsed(Some(StringUnion(values)), tail);
    SingleOfQuote(s);
    PrefixHead(tail, "[]");
    AlternativesStep(s, true);
  }

  /** Literals in front of a bar that no literal follows: the bar is eaten. */
  lemma {:induction false} LiteralsThenText(values: seq<string>, k: string)
    requires values != [] && NoQuotes(values)
    requires k != "" && !IsWs(k[0]) && k[0] != '\''
    ensures Literals(EmitLiterals(values, " | " + k)).0 == values
    ensures Literals(EmitLiterals(values, " | " + k)).1 == k
    decreases |values|
  {
    hide SkipWs, SkipTrivia, Literals;
    var tail := if |values| == 1 then k else EmitLiterals(values[1..], " | " + k);
    OneLiteralRead(values[0], " | " + tail);
    SpacedBar(tail);
    LiteralsAfterSpace(tail);
    if |values| == 1 {
      SkipNoSpace(k);
      LiteralsStep(k);
    } else {
      LiteralsThenText(values[1..], k);
    }
    assert values == [values[0]] + values[1..];
  }

  lemma SkipNoSpace(s: string)
    requires s == "" || !IsWs(s[0])
    ensures SkipWs(s) == s
  {}

  /** A bar in front of a type is read over. */
  lemma LeadingBar(t: TsType, k: string)
    requires Canonical(t) && Delimiter(k)
    ensures ParseType("|" + Emit(t, k)) == Parsed(Some(t), k)
  {
    hide ParseAlternatives, ParseSingle, SkipTrivia, Canonical, ItemsOk, Emit, EmitAll;
    var s := Emit(t, k);
    TypeRead(t, k);
    CanonicalOpens(t, k);
    SkipNothing(s);
    SkipNothing("|" + s);
    AlternativesStep(s, true);
    AlternativesStep("|" + s, true);
    assert ("|" + s)[1..] == s;
  }

  lemma CanonicalOpens(t: TsType, k: string)
    requires Canonical(t)
    ensures Opens(Emit(t, k))
  {
    hide Item, Merge, Canonical, Opens;
    CanonicalSplits(t, k);
    var items := AlternativesOf(t);
    if |items| == 1 { EmitOpens(items[0], k); } else { EmitOpens(items[0], " | " + EmitAll(items[1..], k)); }
  }

  /** The other spellings of `any`, and every keyword, in front of anything that ends a
      name. */
  lemma KeywordsRead(k: string)
    requires Stop(k)
    ensures ParseSingle("string" + k) == Parsed(Some(Primitive(StringType)), k)
    ensures ParseSingle("number" + k) == Parsed(Some(Primitive(NumberType)), k)
    ensures ParseSingle("boolean" + k) == Parsed(Some(Primitive(BooleanType)), k)
    ensures ParseSingle("any" + k) == Parsed(Some(Primitive(AnyType)), k)
    ensures ParseSingle("unknown" + k) == Parsed(Some(Primitive(AnyType)), k)
    ensures ParseSingle("null" + k) == Parsed(Some(Primitive(AnyType)), k)
  {
    hide ParseSingle, SkipWs;
    PrimitiveRead(StringType, k);
    PrimitiveRead(NumberType, k);
    PrimitiveRead(BooleanType, k);
    PrimitiveRead(AnyType, k);
    AnyWords();
    KeywordOverName("any", k, ("any", AnyType));
    KeywordOverName("unknown", k, ("unknown", AnyType));
    assert "any"[3..] + k == k && "unknown"[7..] + k == k;
  }

  lemma AnyWords()
    ensures IsName("any") && !NullAt("any") && FirstKeyword("any", Keywords) == Some(("any", AnyType))
    ensures IsName("unknown") && !NullAt("unknown") && FirstKeyword("unknown", Keywords) == Some(("unknown", AnyType))
  {
    FirstWord("any", 3);
    FirstWord("unknown", 4);
  }

  lemma FirstWord(name: string, i: nat)
    requires i < |Keywords| && KeywordAt(name, Keywords[i].0)
    requires forall j :: 0 <= j < i ==> !KeywordAt(name, Keywords[j].0)
    ensures FirstKeyword(name, Keywords) == Some(Keywords[i])
  {
    FirstFrom(name, Keywords, i);
  }

  lemma {:induction false} FirstFrom(name: string, words: seq<(string, TsPrimitive)>, i: nat)
    requires i < |words| && KeywordAt(name, words[i].0) && forall j :: 0 <= j < i ==> !KeywordAt(name, words[j].0)
    ensures FirstKeyword(name, words) == Some(words[i])
  {
    hide KeywordAt;
    if i > 0 { FirstFrom(name, words[1..], i - 1); }
  }

  /** Alternatives behind objects with a `__typename` are lost, all but a `null`: what is
      read is the union of the objects alone. */
  lemma OthersAreLost(variants: seq<TsObjectVariant>, others: seq<TsType>, k: string)
    requires variants != [] && VariantsOk(variants) && |variants| + |others| > 1 && ItemsOk(others) && Delimiter(k)
    requires forall t :: t in others ==> !HasTypeName(t)
    ensures var union := DiscriminatedUnion(TypeNameField, variants);
            ParseType(EmitAll(Objects(variants) + others, k))
            == Parsed(Some(if Primitive(AnyType) in others then Nullable(union) else union), k)
  {
    hide ParseAlternatives, ItemsOk, EmitAll, VariantsOf, StringsOf, VariantsOk, FirstNonNull, AllStrings, HasTypeName;
    var items := Objects(variants) + others;
    ObjectsOk(variants, others);
    NoNullInObjects(variants);
    AlternativesRead(items, k, true);
  }

  /** A field whose type cannot be read leaves the cursor where its type failed, whatever
      fields came before it; the object is not read again from its start. */
  lemma BadFieldStops(fields: seq<TsField>, name: string, k: string, rest: string)
    requires FieldsOk(fields) && IsName(name) && ParseType(" " + k) == Parsed(None, rest)
    ensures TryObject("{ " + EmitFields(fields, name + (": " + k))) == Parsed(None, rest)
  {
    hide ParseFields, ParseType, FieldsOk, EmitFields;
    var s := "{ " + EmitFields(fields, name + (": " + k));
    assert s[0] == '{' && s[1..] == " " + EmitFields(fields, name + (": " + k));
    BadFieldFound(fields, name, k, rest);
  }

  lemma {:induction false} BadFieldFound(fields: seq<TsField>, name: string, k: string, rest: string)
    requires FieldsOk(fields) && IsName(name) && ParseType(" " + k) == Parsed(None, rest)
    ensures ParseFields(" " + EmitFields(fields, name + (": " + k))) == TypeFailed(rest)
    decreases |fields|
  {
    hide ParseFields, ParseType, Canonical, SkipTrivia, NameLength;
    if fields == [] {
      var s := name + (": " + k);
      FieldText(TsField(name, false, Primitive(AnyType)), k);
      FieldsStep(" " + s);
      SkipSpace(' ', s);
      MarkThenSpace(": ", k);
    } else {
      var f := fields[0];
      var tail := EmitFields(fields[1..], name + (": " + k));
      var body := Emit(f.fieldType, "; " + tail);
      TypeRead(f.fieldType, "; " + tail);
      TypeAfterSpace(body);
      FieldRead(f, body, tail);
      BadFieldFound(fields[1..], name, k, rest);
    }
  }

  /** The same behind the bracket of a wrapper. */
  lemma BadInnerStops(wrapper: string, k: string, rest: string)
    requires IsWrapper(wrapper) && ParseType(k) == Parsed(None, rest)
    ensures TryWrapped(wrapper + ("<" + k)) == Parsed(None, rest)
  {
    hide ParseType, FirstPrefix, StartsWith;
    KnownWrapper(wrapper);
    WrapperHeads();
    assert (wrapper + ("<" + k))[0] == wrapper[0];
    WrapperFound(wrapper, "<" + k);
    assert ("<" + k)[1..] == k;
  }
}
