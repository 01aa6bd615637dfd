/** Whole files of type definitions read back from their printed form. */
module TsFiles {
  import opened Text
  import opened TsAst
  import opened TsGrammar
  import opened TsRoundTrip

  /* ---------- comments ---------- */

  /** A closed comment of either kind. */
  ghost predicate Comment(c: string) {
    || (exists text :: !Contains(text, "*/") && c == "/*" + (text + "*/"))
    || (exists line :: '\n' !in line && c == "//" + (line + "\n"))
  }

  lemma {:induction false} BlockRead(text: string, s: string)
    requires !Contains(text, "*/")
    ensures BlockEnd(text + ("*/" + s)) == s
  {
    var all := text + ("*/" + s);
    if text == "" {
      assert all == "*/" + s && all[2..] == s;
    } else {
      assert all[1..] == text[1..] + ("*/" + s);
      if |text| >= 2 {
        assert !StartsWith(text[0..], "*/");
        assert text[0..][..2] == [text[0], text[1]];
      }
      assert |text| == 1 ==> all[1] == '*';
      TailHasNone(text);
      BlockRead(text[1..], s);
    }
  }

  lemma TailHasNone(text: string)
    requires text != "" && !Contains(text, "*/")
    ensures !Contains(text[1..], "*/")
  {
    forall i | 0 <= i <= |text[1..]| - 2 ensures !StartsWith(text[1..][i..], "*/") {
      assert text[1..][i..] == text[i + 1..];
    }
  }

  lemma {:induction false} LineRead(line: string, s: string)
    requires '\n' !in line
    ensures LineEnd(line + ("\n" + s)) == "\n" + s
  {
    var all := line + ("\n" + s);
    if line == "" {
      assert all == "\n" + s;
    } else {
      assert all[1..] == line[1..] + ("\n" + s) && all[0] == line[0];
      LineRead(line[1..], s);
    }
  }

  lemma CommentSkipped(c: string, s: string)
    requires Comment(c)
    ensures SkipTrivia(c + s) == SkipTrivia(s)
  {
    hide LineEnd, BlockEnd, Contains;
    if text :| !Contains(text, "*/") && c == "/*" + (text + "*/") {
      var rest := text + ("*/" + s);
      assert c + s == "/*" + rest && (c + s)[..2] == "/*" && (c + s)[2..] == rest;
      assert !StartsWith(c + s, "//") by { PrefixHead2(c + s); }
      BlockRead(text, s);
    } else {
      var line :| '\n' !in line && c == "//" + (line + "\n");
      var rest := line + ("\n" + s);
      assert c + s == "//" + rest && (c + s)[..2] == "//" && (c + s)[2..] == rest;
      LineRead(line, s);
      SkipSpace('\n', s);
    }
  }

  lemma PrefixHead2(s: string)
    requires StartsWith(s, "/*")
    ensures !StartsWith(s, "//")
  {
    assert s[..2][1] == '*';
  }

  /** A comment in front of a type, a field or a declaration changes nothing. */
  lemma CommentIgnored(c: string, s: string)
    requires Comment(c)
    ensures ParseType(c + s) == ParseType(s)
    ensures ParseFields(c + s) == ParseFields(s)
    ensures ParseFile(c + s) == ParseFile(s)
  {
    hide SkipTrivia, Comment, ParseSingle, NameLength, ParseDeclaration;
    CommentSkipped(c, s);
    assert ParseAlternatives(c + s, true) == ParseAlternatives(s, true);
  }

  /* ---------- files ---------- */

  /** The definitions, each with a comment in front of it or nothing. */
  function EmitFile(defs: seq<TsDefinition>, notes: seq<string>): string
    requires |notes| == |defs|
  {
    if defs == [] then ""
    else
      notes[0] + (ExportType + (defs[0].name
                                + (" = " + Emit(defs[0].typeExpr, ";\n" + EmitFile(defs[1..], notes[1..])))))
  }

  predicate DefinitionsOk(defs: seq<TsDefinition>) {
    forall i :: 0 <= i < |defs| ==> IsName(defs[i].name) && Canonical(defs[i].typeExpr)
  }

  /** A printed file of canonical definitions is read back as the same list, with or
      without comments between them. */
  lemma {:induction false} FileRead(defs: seq<TsDefinition>, notes: seq<string>)
    requires DefinitionsOk(defs) && |notes| == |defs|
    requires forall i :: 0 <= i < |notes| ==> notes[i] == "" || Comment(notes[i])
    ensures ParseFile(EmitFile(defs, notes)) == defs
    decreases |defs|
  {
    hide ParseFile, ParseDeclaration, Canonical, Emit, Comment;
    if defs == [] {
      FileStep("");
    } else {
      var tail := EmitFile(defs[1..], notes[1..]);
      var body := Emit(defs[0].typeExpr, ";\n" + tail);
      var s := ExportType + (defs[0].name + (" = " + body));
      TypeRead(defs[0].typeExpr, ";\n" + tail);
      DeclarationRead(defs[0], body, tail);
      assert s[..|ExportType|] == ExportType;
      SkipNothing(s);
      FileStep(s);
      FileAfterNewline(tail);
      FileRead(defs[1..], notes[1..]);
      assert defs == [defs[0]] + defs[1..];
      if notes[0] == "" { assert "" + s == s; } else { CommentIgnored(notes[0], s); }
    }
  }

  /** One unfolding of `ParseFile`. */
  lemma FileStep(s: string)
    requires SkipTrivia(s) == s && (s == "" || StartsWith(s, ExportType))
    ensures ParseFile(s) ==
            if s == "" then []
            else
              var p := ParseDeclaration(s);
              (if p.value.Some? then [p.value.value] else []) + ParseFile(p.rest)
  {
    hide SkipTrivia, ParseDeclaration;
  }

  lemma FileAfterNewline(s: string)
    ensures ParseFile("\n" + s) == ParseFile(s)
  {
    hide SkipTrivia, ParseDeclaration;
    SkipSpace('\n', s);
  }

  lemma DeclarationRead(def: TsDefinition, body: string, tail: string)
    requires IsName(def.name) && ParseType(body) == Parsed(Some(def.typeExpr), ";\n" + tail)
    ensures var s := ExportType + (def.name + (" = " + body));
            StartsWith(s, ExportType) && ParseDeclaration(s) == Parsed(Some(def), "\n" + tail)
  {
    hide ParseType, NameLength, SkipTrivia;
    var s := ExportType + (def.name + (" = " + body));
    var s1 := def.name + (" = " + body);
    assert s[..|ExportType|] == ExportType && s[|ExportType|..] == s1;
    NameLengthOf(def.name, " = " + body);
    assert " = " + body == " " + ("= " + body);
    SkipSpace(' ', "= " + body);
    SkipNothing("= " + body);
    assert ("= " + body)[1..] == " " + body;
    TypeAfterSpace(body);
    SkipNothing(";\n" + tail);
    assert (";\n" + tail)[1..] == "\n" + tail;
  }
}
