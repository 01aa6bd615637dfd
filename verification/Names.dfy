/** Names of generated Rust types. */
module Names {
  import opened Text

  function Upper(c: char): char {
    if IsLower(c) then c - 'a' + 'A' else c
  }

  /** Letters and digits, with the first after a gap in upper case. */
  function Camel(s: string, upperNext: bool): string {
    if s == "" then ""
    else if !IsAlphanumeric(s[0]) then Camel(s[1..], true)
    else [if upperNext then Upper(s[0]) else s[0]] + Camel(s[1..], false)
  }

  function Pascal(s: string): string {
    var out := Camel(s, true);
    if out != "" && IsDigit(out[0]) then "Type" + out else out
  }

  method PascalCase(s: string) returns (name: string)
    ensures name == Pascal(s)
  {
    var out, upperNext := "", true;
    for i := 0 to |s|
      invariant out + Camel(s[i..], upperNext) == Camel(s, true)
    {
      assert s[i..][1..] == s[i + 1..];
      if IsAlphanumeric(s[i]) {
        out := out + [if upperNext then Upper(s[i]) else s[i]];
        upperNext := false;
      } else {
        upperNext := true;
      }
    }
    name := if out != "" && IsDigit(out[0]) then "Type" + out else out;
  }

  /** `Type`, then the pieces of a path: one name for each place in a type. */
  function TypeName(op: string, path: seq<string>): string {
    if path == [] then Pascal(op) else TypeName(op, path[..|path| - 1]) + Pascal(path[|path| - 1])
  }

  method TypeNameForPath(op: string, path: seq<string>) returns (name: string)
    ensures name == TypeName(op, path)
  {
    name := PascalCase(op);
    for i := 0 to |path|
      invariant name == TypeName(op, path[..i])
    {
      var part := PascalCase(path[i]);
      assert path[..i + 1][..i] == path[..i];
      name := name + part;
    }
    assert path[..|path|] == path;
  }

  /** A capital letter and then letters and digits. */
  predicate IsTypeIdentifier(name: string) {
    name != "" && IsUpper(name[0]) && forall c :: c in name ==> IsAlphanumeric(c)
  }

  lemma {:induction false} CamelChars(s: string, upperNext: bool)
    ensures forall c :: c in Camel(s, upperNext) ==> IsAlphanumeric(c)
    ensures Camel(s, upperNext) != "" <==> exists i :: 0 <= i < |s| && IsAlphanumeric(s[i])
    ensures upperNext && Camel(s, true) != "" ==> !IsLower(Camel(s, true)[0])
  {
    if s != "" {
      CamelChars(s[1..], !IsAlphanumeric(s[0]));
      assert forall i :: 0 <= i < |s| - 1 ==> s[1..][i] == s[i + 1];
      assert forall i :: 0 < i < |s| ==> s[i] == s[1..][i - 1];
    }
  }

  /** A name is a type identifier exactly when the text has a letter or digit;
      otherwise it is empty. */
  lemma PascalIsIdentifier(s: string)
    ensures IsTypeIdentifier(Pascal(s)) <==> exists i :: 0 <= i < |s| && IsAlphanumeric(s[i])
    ensures Pascal(s) == "" <==> !IsTypeIdentifier(Pascal(s))
  {
    CamelChars(s, true);
    var out := Camel(s, true);
    assert forall c :: c in "Type" + out ==> c in "Type" || c in out;
    assert out != "" ==> out[0] in out;
  }

  lemma {:induction false} CamelOfName(s: string)
    requires forall c :: c in s ==> IsAlphanumeric(c)
    ensures Camel(s, false) == s
    ensures s != "" && !IsLower(s[0]) ==> Camel(s, true) == s
  {
    if s != "" {
      assert s[0] in s;
      CamelOfName(s[1..]);
      assert [s[0]] + s[1..] == s;
    }
  }

  /** Names of names are the names themselves. */
  lemma PascalTwice(s: string)
    ensures Pascal(Pascal(s)) == Pascal(s)
  {
    PascalIsIdentifier(s);
    CamelOfName(Pascal(s));
  }

  /** The name of a place continues the name of the place around it. */
  lemma NameExtends(op: string, path: seq<string>, item: string)
    ensures TypeName(op, path + [item]) == TypeName(op, path) + Pascal(item)
  {
    assert (path + [item])[..|path|] == path;
  }

  lemma {:induction false} CamelAppend(s: string, more: string, upperNext: bool)
    requires s != "" && forall c :: c in s ==> IsAlphanumeric(c)
    ensures Camel(s + more, upperNext) == Camel(s, upperNext) + Camel(more, false)
  {
    assert s[0] in s;
    assert (s + more)[1..] == s[1..] + more;
    if |s| > 1 {
      CamelAppend(s[1..], more, false);
    } else {
      assert s[1..] + more == more;
    }
  }

  lemma PascalAppend(outer: string, inner: string)
    requires outer != "" && !IsDigit(outer[0]) && forall c :: c in outer ==> IsAlphanumeric(c)
    ensures Pascal(outer + Pascal(inner)) == Pascal(outer) + Pascal(inner)
  {
    hide Camel;
    PascalIsIdentifier(inner);
    CamelAppend(outer, Pascal(inner), true);
    CamelOfName(Pascal(inner));
    CamelFirst(outer);
  }

  lemma CamelFirst(s: string)
    requires s != "" && IsAlphanumeric(s[0])
    ensures Camel(s, true) != "" && (IsDigit(Camel(s, true)[0]) <==> IsDigit(s[0]))
  {}

  /** Different places get the same name: `themeFile`, and `file` inside `theme`. */
  lemma NamesCollide(op: string, path: seq<string>, outer: string, inner: string)
    requires outer != "" && !IsDigit(outer[0]) && forall c :: c in outer ==> IsAlphanumeric(c)
    ensures TypeName(op, path + [outer, inner]) == TypeName(op, path + [outer + Pascal(inner)])
  {
    hide *;
    PascalAppend(outer, inner);
    NameExtends(op, path, outer);
    NameExtends(op, path + [outer], inner);
    assert path + [outer] + [inner] == path + [outer, inner];
    NameExtends(op, path, outer + Pascal(inner));
  }

  /** The words, each with its first letter in upper case. */
  function Capitalized(words: seq<string>): seq<string> {
    if words == [] then []
    else [if words[0] == "" then "" else [Upper(words[0][0])] + words[0][1..]] + Capitalized(words[1..])
  }

  predicate AreWords(words: seq<string>) {
    forall w :: w in words ==> w != "" && forall c :: c in w ==> IsAlphanumeric(c)
  }

  lemma {:induction false} CamelWord(word: string, k: string, upperNext: bool)
    requires word != "" && forall c :: c in word ==> IsAlphanumeric(c)
    ensures Camel(word + k, upperNext) == [if upperNext then Upper(word[0]) else word[0]] + word[1..] + Camel(k, false)
    decreases |word|
  {
    assert word[0] in word && (word + k)[1..] == word[1..] + k;
    if |word| > 1 {
      assert forall c :: c in word[1..] ==> c in word;
      CamelWord(word[1..], k, false);
      assert [word[1]] + word[1..][1..] == word[1..];
    } else {
      assert word[1..] + k == k;
    }
  }

  /** Words with any sign between them become one name, each word with its first letter
      in upper case. */
  lemma {:induction false} PascalOfWords(words: seq<string>, sign: char)
    requires words != [] && AreWords(words) && !IsAlphanumeric(sign)
    requires words[0] != "" && !IsDigit(words[0][0])
    ensures Pascal(Join(words, [sign])) == Concat(Capitalized(words))
  {
    CamelWords(words, sign);
  }

  lemma {:induction false} CamelWords(words: seq<string>, sign: char)
    requires words != [] && AreWords(words) && !IsAlphanumeric(sign)
    ensures Camel(Join(words, [sign]), true) == Concat(Capitalized(words))
    ensures words[0] != "" && Camel(Join(words, [sign]), true) != ""
    ensures Camel(Join(words, [sign]), true)[0] == Upper(words[0][0])
    decreases |words|
  {
    hide IsAlphanumeric, Upper;
    var word := words[0];
    assert word in words;
    if |words| == 1 {
      CamelWord(word, "", true);
      assert word + "" == word && Camel("", false) == "";
      assert Capitalized(words[1..]) == [];
    } else {
      var rest := Join(words[1..], [sign]);
      assert forall w :: w in words[1..] ==> w in words;
      CamelWords(words[1..], sign);
      CamelWord(word, [sign] + rest, true);
      assert Join(words, [sign]) == word + ([sign] + rest);
      assert ([sign] + rest)[1..] == rest;
    }
  }
}
