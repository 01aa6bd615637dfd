/** Small vocabulary shared by the other modules: optional values and the
    usual tests on strings. */
module Text {
  datatype Option<+T> = None | Some(value: T)

  predicate StartsWith(s: string, prefix: string) {
    |prefix| <= |s| && s[..|prefix|] == prefix
  }

  predicate EndsWith(s: string, suffix: string) {
    |suffix| <= |s| && s[|s| - |suffix|..] == suffix
  }

  predicate Contains(s: string, part: string) {
    exists i :: 0 <= i <= |s| - |part| && StartsWith(s[i..], part)
  }

  predicate IsDigit(c: char) { '0' <= c <= '9' }
  predicate IsUpper(c: char) { 'A' <= c <= 'Z' }
  predicate IsLower(c: char) { 'a' <= c <= 'z' }
  predicate IsAlphanumeric(c: char) { IsDigit(c) || IsUpper(c) || IsLower(c) }

  /** The pieces of `s` between occurrences of `sep`; never empty. */
  function Split(s: string, sep: char): (parts: seq<string>)
    ensures |parts| >= 1
  {
    if s == "" then [""]
    else
      var tail := Split(s[1..], sep);
      if s[0] == sep then [""] + tail
      else [[s[0]] + tail[0]] + tail[1..]
  }

  function Join(parts: seq<string>, sep: string): string {
    if parts == [] then ""
    else if |parts| == 1 then parts[0]
    else parts[0] + sep + Join(parts[1..], sep)
  }

  function Concat(pieces: seq<string>): string {
    if pieces == [] then "" else pieces[0] + Concat(pieces[1..])
  }

  /** Splitting a joined list gives the list back when no piece holds the separator. */
  lemma {:induction false} SplitJoin(parts: seq<string>, sep: char)
    requires parts != [] && forall i :: 0 <= i < |parts| ==> sep !in parts[i]
    ensures Split(Join(parts, [sep]), sep) == parts
  {
    if |parts| == 1 {
      SplitPiece(parts[0], "", sep);
      assert parts[0] + "" == parts[0];
    } else {
      var tail := Join(parts[1..], [sep]);
      SplitJoin(parts[1..], sep);
      SplitPiece(parts[0], [sep] + tail, sep);
      assert ([sep] + tail)[1..] == tail;
      assert parts[0] + "" == parts[0];
      assert ([""] + parts[1..])[1..] == parts[1..];
      assert parts[0] + [sep] + tail == parts[0] + ([sep] + tail);
      assert parts == [parts[0]] + parts[1..];
    }
  }

  lemma {:induction false} SplitPiece(piece: string, k: string, sep: char)
    requires sep !in piece
    ensures Split(piece + k, sep) == [piece + Split(k, sep)[0]] + Split(k, sep)[1..]
  {
    if piece == "" {
      assert piece + k == k;
      assert piece + Split(k, sep)[0] == Split(k, sep)[0];
    } else {
      assert (piece + k)[1..] == piece[1..] + k;
      SplitPiece(piece[1..], k, sep);
      assert [piece[0]] + (piece[1..] + Split(k, sep)[0]) == piece + Split(k, sep)[0];
    }
  }

  lemma PrefixChars(s: string, word: string)
    requires StartsWith(s, word)
    ensures forall i :: 0 <= i < |word| ==> s[i] == word[i]
  {
    forall i | 0 <= i < |word| ensures s[i] == word[i] { assert s[..|word|][i] == word[i]; }
  }

  lemma PrefixHead(s: string, word: string)
    requires word != ""
    ensures StartsWith(s, word) ==> s[0] == word[0]
  {
    if StartsWith(s, word) { PrefixChars(s, word); }
  }

  /** Joining the pieces of a text gives the text back, and no piece holds the separator. */
  lemma {:induction false} JoinSplit(s: string, sep: char)
    ensures Join(Split(s, sep), [sep]) == s
    ensures forall i :: 0 <= i < |Split(s, sep)| ==> sep !in Split(s, sep)[i]
  {
    if s != "" {
      var parts, tail := Split(s, sep), Split(s[1..], sep);
      JoinSplit(s[1..], sep);
      assert parts[1..] == if s[0] == sep then tail else tail[1..];
      assert s == [s[0]] + s[1..];
    }
  }
}
