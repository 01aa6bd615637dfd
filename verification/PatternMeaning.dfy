/** What the forms of a pattern mean: bare names, paths, directories and negations. */
module PatternMeaning {
  import opened Text
  import G = Glob
  import opened Ignore

  /** A pattern is negated by a mark in front of it. */
  lemma {:induction false} NegatedMeaning(patterns: seq<string>, p: string)
    ensures p in Negated(patterns) <==> "!" + p in patterns
    ensures p in Normal(patterns) <==> p in patterns && !(p != "" && p[0] == '!')
  {
    if patterns != [] {
      var first := patterns[0];
      NegatedMeaning(patterns[1..], p);
      assert patterns == [first] + patterns[1..];
      MarkedIs(first, p);
      MarkedIs(p, p);
      hide StartsWith;
    }
  }

  lemma MarkedIs(first: string, p: string)
    ensures StartsWith(first, "!") <==> first != "" && first[0] == '!'
    ensures StartsWith(first, "!") && first[1..] == p <==> first == "!" + p
  {
    PrefixHead(first, "!");
    if first != "" { assert first == [first[0]] + first[1..] && first[..1] == [first[0]]; }
  }

  lemma {:induction false} LastPiece(s: string, name: string)
    requires '/' !in name
    ensures var parts := Split(s + ("/" + name), '/'); parts[|parts| - 1] == name && |parts| > 1
    ensures Split(name, '/') == [name]
  {
    assert name + "" == name;
    SplitPiece(name, "", '/');
    var all := s + ("/" + name);
    if s == "" {
      assert all == "/" + name && all[1..] == name;
    } else {
      assert all[1..] == s[1..] + ("/" + name);
      LastPiece(s[1..], name);
    }
  }

  /** A pattern without a slash looks at the last part of a key only. */
  lemma BareNames(directory: string, name: string, pattern: string)
    requires '/' !in name && '/' !in pattern && pattern != ""
    ensures GlobAccepts(directory + ("/" + name), pattern) <==> G.Accepts(pattern, name)
    ensures GlobAccepts(name, pattern) <==> G.Accepts(pattern, name)
  {
    hide G.Accepts, Split;
    LastPiece(directory, name);
    NoSlashAtEnd(pattern);
  }

  lemma NoSlashAtEnd(pattern: string)
    ensures EndsWith(pattern, "/") <==> pattern != "" && pattern[|pattern| - 1] == '/'
    ensures EndsWith(pattern, "/") ==> '/' in pattern
  {
    if pattern != "" { assert pattern[|pattern| - 1..] == [pattern[|pattern| - 1]]; }
  }

  /** A pattern with a slash inside looks at the whole key. */
  lemma WholeKeys(key: string, pattern: string)
    requires '/' in pattern && pattern[|pattern| - 1] != '/'
    ensures GlobAccepts(key, pattern) <==> G.Accepts(pattern, key)
  {
    hide G.Accepts;
    NoSlashAtEnd(pattern);
  }

  /** A pattern that ends in a slash stands for a directory and everything below it. */
  lemma DirectoriesMatch(key: string, directory: string, slashes: string)
    requires directory != "" && directory[|directory| - 1] != '/'
    requires slashes != "" && forall c :: c in slashes ==> c == '/'
    ensures GlobAccepts(key, directory + slashes) <==>
            key == directory || exists rest :: key == directory + "/" + rest
  {
    hide G.Accepts;
    var pattern := directory + slashes;
    assert slashes[|slashes| - 1] in slashes && pattern[|pattern| - 1] == slashes[|slashes| - 1];
    NoSlashAtEnd(pattern);
    SlashesTrimmed(directory, slashes);
    if StartsWith(key, directory + "/") { assert key == directory + "/" + key[|directory| + 1..]; }
  }

  lemma {:induction false} SlashesTrimmed(directory: string, slashes: string)
    requires directory != "" && directory[|directory| - 1] != '/'
    requires forall c :: c in slashes ==> c == '/'
    ensures TrimSlashes(directory + slashes) == directory
    decreases |slashes|
  {
    if slashes == "" {
      assert directory + slashes == directory;
    } else {
      var n := |slashes| - 1;
      var pattern := directory + slashes;
      assert slashes[n] in slashes && pattern[|pattern| - 1] == slashes[n];
      assert pattern[..|pattern| - 1] == directory + slashes[..n];
      assert forall c :: c in slashes[..n] ==> c in slashes;
      SlashesTrimmed(directory, slashes[..n]);
    }
  }
}
