/** Ignore patterns: when one pattern matches a key, and how the six groups of
    patterns select files. */
module Ignore {
  import opened Text
  import R = Regex
  import G = Glob
  import GlobMeaning

  /* ---------- one pattern ---------- */

  /** The text after the last slash. */
  function BaseName(key: string): string {
    var parts := Split(key, '/');
    parts[|parts| - 1]
  }

  function TrimSlashes(pattern: string): string {
    if pattern != "" && pattern[|pattern| - 1] == '/' then TrimSlashes(pattern[..|pattern| - 1]) else pattern
  }

  predicate DirectoryMatch(key: string, pattern: string) {
    var directory := TrimSlashes(pattern);
    directory != "" && (key == directory || StartsWith(key, directory + "/"))
  }

  function Target(key: string, pattern: string): string {
    if '/' in pattern then key else BaseName(key)
  }

  /** Deciding a glob by searching with its compiled text. */
  ghost predicate GlobMatch(key: string, pattern: string) {
    if pattern == "" then key == ""
    else if EndsWith(pattern, "/") then DirectoryMatch(key, pattern)
    else
      match R.Compile(G.RegexText(pattern))
      case Some(regex) => R.IsMatch(regex, Target(key, pattern))
      case None => false
  }

  /** The same decision without any regular expression. */
  predicate GlobAccepts(key: string, pattern: string) {
    if pattern == "" then key == ""
    else if EndsWith(pattern, "/") then DirectoryMatch(key, pattern)
    else G.Accepts(pattern, Target(key, pattern))
  }

  lemma GlobMatchAccepts(key: string, pattern: string)
    ensures GlobMatch(key, pattern) <==> GlobAccepts(key, pattern)
  {
    hide R.Compile, R.IsMatch, G.RegexText, G.Accepts, Target, DirectoryMatch;
    GlobMeaning.GlobMeansItsRegex(pattern, Target(key, pattern));
  }

  /** Three template patterns also cover the nested template directories. */
  predicate TemplateCompat(key: string, pattern: string) {
    && StartsWith(key, "templates/")
    && (pattern == "templates/*"
        || (pattern == "templates/*.json" && EndsWith(key, ".json"))
        || (pattern == "templates/*.liquid" && EndsWith(key, ".liquid")))
  }

  predicate IsRegexPattern(pattern: string) {
    |pattern| >= 2 && pattern[0] == '/' && pattern[|pattern| - 1] == '/'
  }

  /** A key and a regular expression of the user's; its meaning belongs to the
      regular expression library. */
  type UserRegex = (string, string) -> bool

  predicate IsMatch(key: string, pattern: string, user: UserRegex) {
    || GlobAccepts(key, pattern)
    || TemplateCompat(key, pattern)
    || (IsRegexPattern(pattern) && user(key, pattern[1..|pattern| - 1]))
  }

  /* ---------- six groups of patterns ---------- */

  datatype Filters = Filters(ignoreFromFile: seq<string>, ignore: seq<string>, only: seq<string>)

  function Normal(patterns: seq<string>): seq<string> {
    if patterns == [] then []
    else (if StartsWith(patterns[0], "!") then [] else [patterns[0]]) + Normal(patterns[1..])
  }

  function Negated(patterns: seq<string>): seq<string> {
    if patterns == [] then []
    else (if StartsWith(patterns[0], "!") then [patterns[0][1..]] else []) + Negated(patterns[1..])
  }

  predicate AnyMatch(key: string, patterns: seq<string>, user: UserRegex) {
    exists i :: 0 <= i < |patterns| && IsMatch(key, patterns[i], user)
  }

  /** One filter pass over a key. */
  predicate Passes(key: string, patterns: seq<string>, invert: bool, user: UserRegex) {
    patterns == [] || AnyMatch(key, patterns, user) == invert
  }

  predicate InBase(key: string, f: Filters, user: UserRegex) {
    && Passes(key, Normal(f.ignoreFromFile), false, user)
    && Passes(key, Normal(f.ignore), false, user)
    && Passes(key, Normal(f.only), true, user)
  }

  /** The formula that decides whether a key is kept. */
  predicate Admits(key: string, f: Filters, user: UserRegex) {
    && (|| (&& !AnyMatch(key, Normal(f.ignoreFromFile), user)
            && !AnyMatch(key, Normal(f.ignore), user)
            && (Normal(f.only) == [] || AnyMatch(key, Normal(f.only), user)))
        || AnyMatch(key, Negated(f.ignoreFromFile), user)
        || AnyMatch(key, Negated(f.ignore), user))
    && !AnyMatch(key, Negated(f.only), user)
  }

  /* ---------- selecting files ---------- */

  /** The files whose key satisfies `keep`, in their order. */
  function Select<T>(files: seq<T>, key: T -> string, keep: string -> bool): seq<T> {
    if files == [] then []
    else (if keep(key(files[0])) then [files[0]] else []) + Select(files[1..], key, keep)
  }

  function Filter<T>(files: seq<T>, key: T -> string, patterns: seq<string>, invert: bool, user: UserRegex): seq<T> {
    Select(files, key, k => Passes(k, patterns, invert, user))
  }

  /** The first file of every key that is not seen yet. */
  function Unique<T>(files: seq<T>, key: T -> string, seen: set<string>): seq<T> {
    if files == [] then []
    else if key(files[0]) in seen then Unique(files[1..], key, seen)
    else [files[0]] + Unique(files[1..], key, seen + {key(files[0])})
  }

  function Combined<T>(files: seq<T>, key: T -> string, f: Filters, user: UserRegex): seq<T> {
    var base := Filter(Filter(Filter(files, key, Normal(f.ignoreFromFile), false, user),
                              key, Normal(f.ignore), false, user),
                       key, Normal(f.only), true, user);
    var fromFile := if Negated(f.ignoreFromFile) == [] then []
                    else Filter(files, key, Negated(f.ignoreFromFile), true, user);
    var fromIgnore := if Negated(f.ignore) == [] then [] else Filter(files, key, Negated(f.ignore), true, user);
    base + fromFile + fromIgnore
  }

  function Apply<T>(files: seq<T>, key: T -> string, f: Filters, user: UserRegex): seq<T> {
    Unique(Filter(Combined(files, key, f, user), key, Negated(f.only), false, user), key, {})
  }

  method SplitNegatedPatterns(patterns: seq<string>) returns (normal: seq<string>, negated: seq<string>)
    ensures normal == Normal(patterns) && negated == Negated(patterns)
  {
    hide StartsWith;
    normal, negated := [], [];
    for i := 0 to |patterns|
      invariant normal + Normal(patterns[i..]) == Normal(patterns)
      invariant negated + Negated(patterns[i..]) == Negated(patterns)
    {
      assert patterns[i..][0] == patterns[i] && patterns[i..][1..] == patterns[i + 1..];
      if StartsWith(patterns[i], "!") {
        PrefixNotEmpty(patterns[i]);
        negated := negated + [patterns[i][1..]];
      } else {
        normal := normal + [patterns[i]];
      }
    }
  }

  lemma PrefixNotEmpty(s: string)
    requires StartsWith(s, "!")
    ensures s != ""
  {}

  lemma UniqueStep<T>(files: seq<T>, i: nat, key: T -> string, seen: set<string>)
    requires i < |files|
    ensures Unique(files[i..], key, seen) ==
            if key(files[i]) in seen then Unique(files[i + 1..], key, seen)
            else [files[i]] + Unique(files[i + 1..], key, seen + {key(files[i])})
  {
    assert files[i..][0] == files[i] && files[i..][1..] == files[i + 1..];
  }

  lemma UniqueNothing<T>(key: T -> string, seen: set<string>)
    ensures Unique([], key, seen) == []
  {}

  method UniqueByKey<T>(files: seq<T>, key: T -> string) returns (unique: seq<T>)
    ensures unique == Unique(files, key, {})
  {
    hide Unique;
    var seen: set<string> := {};
    unique := [];
    assert files[0..] == files;
    for i := 0 to |files|
      invariant unique + Unique(files[i..], key, seen) == Unique(files, key, {})
    {
      UniqueStep(files, i, key, seen);
      if key(files[i]) !in seen {
        seen := seen + {key(files[i])};
        unique := unique + [files[i]];
      }
    }
    assert files[|files|..] == [];
    UniqueNothing(key, seen);
  }

  method ApplyIgnoreFilters<T>(files: seq<T>, key: T -> string, f: Filters, user: UserRegex) returns (kept: seq<T>)
    ensures kept == Apply(files, key, f, user)
  {
    hide Filter, Normal, Negated;
    var normalFromFile, negatedFromFile := SplitNegatedPatterns(f.ignoreFromFile);
    var normalIgnore, negatedIgnore := SplitNegatedPatterns(f.ignore);
    var normalOnly, negatedOnly := SplitNegatedPatterns(f.only);
    var filtered := Filter(files, key, normalFromFile, false, user);
    filtered := Filter(filtered, key, normalIgnore, false, user);
    filtered := Filter(filtered, key, normalOnly, true, user);
    ghost var base := filtered;
    if negatedFromFile != [] {
      filtered := filtered + Filter(files, key, negatedFromFile, true, user);
    }
    if negatedIgnore != [] {
      filtered := filtered + Filter(files, key, negatedIgnore, true, user);
    }
    assert filtered == Combined(files, key, f, user);
    if negatedOnly != [] {
      filtered := Filter(filtered, key, negatedOnly, false, user);
    } else {
      FilterByNothing(filtered, key, false, user);
    }
    kept := UniqueByKey(filtered, key);
  }

  lemma {:induction false} FilterByNothing<T>(files: seq<T>, key: T -> string, invert: bool, user: UserRegex)
    ensures Filter(files, key, [], invert, user) == files
  {
    if files != [] {
      FilterByNothing(files[1..], key, invert, user);
      assert files == [files[0]] + files[1..];
    }
  }
}
