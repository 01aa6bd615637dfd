/** Query texts as raw string literals of the generated Rust code. */
module RawString {
  import opened Text

  function Hashes(n: nat): (s: string)
    ensures |s| == n && forall c :: c in s ==> c == '#'
  {
    if n == 0 then "" else "#" + Hashes(n - 1)
  }

  /** What ends a raw string that was opened with `n` hashes. */
  function Marker(n: nat): string { "\"" + Hashes(n) }

  function Literal(value: string, n: nat): string {
    "r" + (Hashes(n) + ("\"" + (value + Marker(n))))
  }

  /** The fewest hashes, below eight, whose marker is not in the value; a value that
      has all eight markers is written by other means. */
  method RawStringLiteral(value: string) returns (text: Option<string>)
    ensures text.None? <==> forall n :: 0 <= n < 8 ==> Contains(value, Marker(n))
    ensures text.Some? ==>
              exists n :: 0 <= n < 8 && text.value == Literal(value, n) && !Contains(value, Marker(n))
                          && forall m :: 0 <= m < n ==> Contains(value, Marker(m))
  {
    hide Contains, Literal;
    for hashes := 0 to 8
      invariant forall m :: 0 <= m < hashes ==> Contains(value, Marker(m))
    {
      if !Occurs(value, Marker(hashes)) {
        ContainsOccurs(value, Marker(hashes));
        return Some(Literal(value, hashes));
      }
      ContainsOccurs(value, Marker(hashes));
    }
    return None;
  }

  /** `Contains`, from the front. */
  predicate Occurs(s: string, part: string) {
    StartsWith(s, part) || (s != "" && Occurs(s[1..], part))
  }

  lemma {:induction false} ContainsOccurs(s: string, part: string)
    ensures Contains(s, part) <==> Occurs(s, part)
  {
    assert s[0..] == s;
    if s != "" {
      ContainsOccurs(s[1..], part);
      assert forall i :: 0 <= i < |s| ==> s[1..][i..] == s[i + 1..];
      if Contains(s, part) && !StartsWith(s, part) {
        var i :| 0 <= i <= |s| - |part| && StartsWith(s[i..], part);
        assert i > 0;
        assert StartsWith(s[1..][i - 1..], part);
      }
      if Contains(s[1..], part) {
        var i :| 0 <= i <= |s[1..]| - |part| && StartsWith(s[1..][i..], part);
        assert StartsWith(s[i + 1..], part);
      }
    }
  }

  /* ---------- reading a raw string ---------- */

  function CountHashes(s: string): (n: nat)
    ensures n <= |s|
  {
    if s != "" && s[0] == '#' then 1 + CountHashes(s[1..]) else 0
  }

  /** The text before the first marker, and the text after it. */
  function Until(s: string, marker: string): Option<(string, string)>
    requires marker != ""
  {
    if StartsWith(s, marker) then Some(("", s[|marker|..]))
    else if s == "" then None
    else
      match Until(s[1..], marker)
      case None => None
      case Some((before, after)) => Some(([s[0]] + before, after))
  }

  function Read(s: string): Option<(string, string)> {
    if s == "" || s[0] != 'r' then None
    else
      var n := CountHashes(s[1..]);
      var t := s[1 + n..];
      if t == "" || t[0] != '"' then None else Until(t[1..], Marker(n))
  }

  lemma {:induction false} HashesCount(n: nat, k: string)
    requires k == "" || k[0] != '#'
    ensures CountHashes(Hashes(n) + k) == n && (Hashes(n) + k)[n..] == k
  {
    if n == 0 {
      assert Hashes(0) + k == k;
    } else {
      assert (Hashes(n) + k)[1..] == Hashes(n - 1) + k;
      HashesCount(n - 1, k);
    }
  }

  /** No marker begins inside the value when the value has none: the quote that
      would begin it cannot be matched by the closing quote. */
  lemma StartsInside(value: string, n: nat, rest: string)
    requires value != ""
    ensures StartsWith(value + (Marker(n) + rest), Marker(n)) <==> StartsWith(value, Marker(n))
  {
    var marker := Marker(n);
    var all := value + (marker + rest);
    if |value| <= n {
      assert all[|value|] == '"' && marker[|value|] in Hashes(n);
      PrefixAt(all, marker, |value|);
    }
    if |marker| <= |value| { assert all[..|marker|] == value[..|marker|]; }
  }

  lemma PrefixAt(s: string, word: string, i: nat)
    requires i < |word| && i < |s|
    ensures StartsWith(s, word) ==> s[i] == word[i]
  {
    if StartsWith(s, word) { PrefixChars(s, word); }
  }

  lemma {:induction false} UntilMarker(value: string, n: nat, rest: string)
    ensures Until(value + (Marker(n) + rest), Marker(n)) == Some((value, rest)) <==> !Occurs(value, Marker(n))
  {
    hide StartsWith, Marker;
    MarkerLong(n);
    var marker, all := Marker(n), value + (Marker(n) + rest);
    if value == "" {
      assert all == marker + rest;
      PrefixItself(marker, rest);
    } else {
      StartsInside(value, n, rest);
      assert all[1..] == value[1..] + (marker + rest) && all[0] == value[0];
      UntilMarker(value[1..], n, rest);
      if StartsWith(all, marker) {
        assert Until(all, marker).value.0 == "";
      } else {
        HeadTail(value, Until(all[1..], marker), rest);
      }
    }
  }

  lemma MarkerLong(n: nat)
    ensures Marker(n) != "" && !StartsWith("", Marker(n))
  {}

  lemma PrefixItself(marker: string, rest: string)
    ensures StartsWith(marker + rest, marker) && (marker + rest)[|marker|..] == rest
  {}

  lemma HeadTail(value: string, tail: Option<(string, string)>, rest: string)
    requires value != ""
    ensures tail.Some? ==>
              (([value[0]] + tail.value.0, tail.value.1) == (value, rest) <==> tail.value == (value[1..], rest))
  {
    if tail.Some? && [value[0]] + tail.value.0 == value {
      assert ([value[0]] + tail.value.0)[1..] == tail.value.0;
    }
    assert [value[0]] + value[1..] == value;
  }

  /** A literal reads back as its value exactly when the value does not have the
      marker; so the literals that are written always do. */
  lemma LiteralReadsBack(value: string, n: nat, rest: string)
    ensures Read(Literal(value, n) + rest) == Some((value, rest)) <==> !Contains(value, Marker(n))
  {
    hide Contains, Until, Occurs, Hashes, Marker, Literal, CountHashes;
    MarkerLong(n);
    var body := "\"" + (value + (Marker(n) + rest));
    var s := Literal(value, n) + rest;
    LiteralParts(value, n, rest);
    HashesCount(n, body);
    UntilMarker(value, n, rest);
    ContainsOccurs(value, Marker(n));
  }

  lemma LiteralParts(value: string, n: nat, rest: string)
    ensures var body := "\"" + (value + (Marker(n) + rest));
            var s := Literal(value, n) + rest;
            && s != "" && s[0] == 'r' && s[1..] == Hashes(n) + body && s[1 + n..] == body
            && body[1..] == value + (Marker(n) + rest)
  {
    hide Marker, Hashes;
    var body := "\"" + (value + (Marker(n) + rest));
    var s := Literal(value, n) + rest;
    assert s == "r" + (Hashes(n) + body);
    assert s[1..] == Hashes(n) + body;
    assert s[1 + n..] == s[1..][n..];
  }
}
