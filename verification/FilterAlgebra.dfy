/** What the filter passes select: exactly the keys of one formula, each once,
    by the first file that has it, and nothing more when applied again. */
module FilterAlgebra {
  import opened Ignore

  ghost function Keys<T>(files: seq<T>, key: T -> string): set<string> {
    set i | 0 <= i < |files| :: key(files[i])
  }

  ghost predicate Distinct<T>(files: seq<T>, key: T -> string) {
    forall i, j :: 0 <= i < j < |files| ==> key(files[i]) != key(files[j])
  }

  lemma {:induction false} SelectMembers<T>(files: seq<T>, key: T -> string, keep: string -> bool)
    ensures forall x :: x in Select(files, key, keep) ==> x in files && keep(key(x))
    ensures forall x :: x in files && keep(key(x)) ==> x in Select(files, key, keep)
  {
    if files != [] {
      SelectMembers(files[1..], key, keep);
      assert files == [files[0]] + files[1..];
    }
  }

  lemma SelectNone<T>(files: seq<T>, key: T -> string, keep: string -> bool)
    requires files == []
    ensures Select(files, key, keep) == []
  {}

  lemma SelectHead<T>(files: seq<T>, key: T -> string, keep: string -> bool)
    requires files != []
    ensures var tail := Select(files[1..], key, keep);
            if keep(key(files[0])) then
              Select(files, key, keep) == [files[0]] + tail && Select(files, key, keep)[1..] == tail
            else Select(files, key, keep) == tail
  {}

  lemma {:induction false} SelectTwice<T>(files: seq<T>, key: T -> string, p: string -> bool, q: string -> bool,
                                         both: string -> bool)
    requires forall k :: both(k) <==> p(k) && q(k)
    ensures Select(Select(files, key, p), key, q) == Select(files, key, both)
  {
    if files != [] {
      SelectTwice(files[1..], key, p, q, both);
      var head := if p(key(files[0])) then [files[0]] else [];
      SelectAppend(head, Select(files[1..], key, p), key, q);
    }
  }

  lemma {:induction false} SelectAppend<T>(a: seq<T>, b: seq<T>, key: T -> string, keep: string -> bool)
    ensures Select(a + b, key, keep) == Select(a, key, keep) + Select(b, key, keep)
  {
    hide Select;
    if a == [] {
      assert a + b == b;
      SelectNone(a, key, keep);
    } else {
      assert (a + b)[1..] == a[1..] + b && (a + b)[0] == a[0];
      SelectAppend(a[1..], b, key, keep);
      SelectHead(a, key, keep);
      SelectHead(a + b, key, keep);
    }
  }

  lemma {:induction false} SelectSame<T>(files: seq<T>, key: T -> string, p: string -> bool, q: string -> bool)
    requires forall i :: 0 <= i < |files| ==> (p(key(files[i])) <==> q(key(files[i])))
    ensures Select(files, key, p) == Select(files, key, q)
  {
    if files != [] {
      assert forall i :: 0 <= i < |files[1..]| ==> files[1..][i] == files[i + 1];
      SelectSame(files[1..], key, p, q);
    }
  }

  lemma {:induction false} UniqueAppend<T>(a: seq<T>, b: seq<T>, key: T -> string, seen: set<string>)
    ensures Unique(a + b, key, seen) == Unique(a, key, seen) + Unique(b, key, seen + Keys(a, key))
    decreases |a|
  {
    if a == [] {
      assert a + b == b && seen + Keys(a, key) == seen;
    } else {
      var now := seen + {key(a[0])};
      assert (a + b)[1..] == a[1..] + b;
      KeysStep(a, key);
      if key(a[0]) in seen {
        assert now == seen;
      }
      UniqueAppend(a[1..], b, key, now);
      assert now + Keys(a[1..], key) == seen + Keys(a, key);
    }
  }

  lemma KeysStep<T>(files: seq<T>, key: T -> string)
    requires files != []
    ensures Keys(files, key) == {key(files[0])} + Keys(files[1..], key)
  {
    forall k | k in Keys(files, key) ensures k in {key(files[0])} + Keys(files[1..], key) {
      var i :| 0 <= i < |files| && key(files[i]) == k;
      if i > 0 { assert files[1..][i - 1] == files[i]; }
    }
    forall k | k in Keys(files[1..], key) ensures k in Keys(files, key) {
      var i :| 0 <= i < |files[1..]| && key(files[1..][i]) == k;
      assert files[i + 1] == files[1..][i];
    }
  }

  /** Files with a seen key can be dropped first. */
  lemma {:induction false} DropSeen<T>(files: seq<T>, key: T -> string, seen: set<string>, more: set<string>,
                                      keep: string -> bool)
    requires forall i :: 0 <= i < |files| ==> (keep(key(files[i])) <==> key(files[i]) !in seen)
    ensures Unique(files, key, seen + more) == Unique(Select(files, key, keep), key, more)
    decreases |files|
  {
    if files != [] {
      assert forall i :: 0 <= i < |files[1..]| ==> files[1..][i] == files[i + 1];
      SelectHead(files, key, keep);
      DropSeen(files[1..], key, seen, more, keep);
      DropSeen(files[1..], key, seen, more + {key(files[0])}, keep);
      assert seen + (more + {key(files[0])}) == seen + more + {key(files[0])};
    }
  }

  lemma {:induction false} UniqueFacts<T>(files: seq<T>, key: T -> string, seen: set<string>)
    ensures var u := Unique(files, key, seen);
            && Distinct(u, key)
            && Keys(u, key) == Keys(files, key) - seen
            && forall x :: x in u ==> x in files && key(x) !in seen
    decreases |files|
  {
    if files != [] {
      KeysStep(files, key);
      assert files == [files[0]] + files[1..];
      var k := key(files[0]);
      if k in seen {
        UniqueFacts(files[1..], key, seen);
      } else {
        var tail := Unique(files[1..], key, seen + {k});
        UniqueFacts(files[1..], key, seen + {k});
        var u := [files[0]] + tail;
        KeysStep(u, key);
        assert u[1..] == tail;
        forall i, j | 0 <= i < j < |u| ensures key(u[i]) != key(u[j]) {
          assert u[j] == tail[j - 1] && tail[j - 1] in tail;
          if i > 0 { assert u[i] == tail[i - 1]; }
        }
      }
    }
  }

  lemma {:induction false} UniqueOfDistinct<T>(files: seq<T>, key: T -> string, seen: set<string>)
    requires Distinct(files, key) && Keys(files, key) !! seen
    ensures Unique(files, key, seen) == files
    decreases |files|
  {
    if files != [] {
      KeysStep(files, key);
      assert forall i :: 0 <= i < |files[1..]| ==> files[1..][i] == files[i + 1];
      assert key(files[0]) !in Keys(files[1..], key);
      UniqueOfDistinct(files[1..], key, seen + {key(files[0])});
      assert files == [files[0]] + files[1..];
    }
  }

  /* ---------- the canonical form of a filtered list ---------- */

  /** Three selections one after the other, each keeping its first files. */
  ghost function Canon<T>(files: seq<T>, key: T -> string, p1: string -> bool, p2: string -> bool,
                          p3: string -> bool): seq<T>
  {
    Unique(Select(files, key, p1), key, {}) + Unique(Select(files, key, p2), key, {})
      + Unique(Select(files, key, p3), key, {})
  }

  ghost predicate Exclusive(p1: string -> bool, p2: string -> bool, p3: string -> bool) {
    forall k :: !(p1(k) && p2(k)) && !(p1(k) && p3(k)) && !(p2(k) && p3(k))
  }

  lemma {:induction false} SelectEmpty<T>(files: seq<T>, key: T -> string, keep: string -> bool)
    requires forall x :: x in files ==> !keep(key(x))
    ensures Select(files, key, keep) == []
  {
    if files != [] {
      assert files[0] in files;
      assert forall x :: x in files[1..] ==> x in files;
      SelectEmpty(files[1..], key, keep);
    }
  }

  lemma {:induction false} SelectAll<T>(files: seq<T>, key: T -> string, keep: string -> bool)
    requires forall x :: x in files ==> keep(key(x))
    ensures Select(files, key, keep) == files
  {
    if files != [] {
      assert files[0] in files;
      assert forall x :: x in files[1..] ==> x in files;
      SelectAll(files[1..], key, keep);
      assert files == [files[0]] + files[1..];
    }
  }

  /** The keys of a selection are those of the list that satisfy its predicate. */
  lemma SelectKeys<T>(files: seq<T>, key: T -> string, keep: string -> bool)
    ensures Keys(Select(files, key, keep), key) == set k | k in Keys(files, key) && keep(k)
  {
    var selected := Select(files, key, keep);
    SelectMembers(files, key, keep);
    forall k | k in Keys(files, key) && keep(k) ensures k in Keys(selected, key) {
      var i :| 0 <= i < |files| && key(files[i]) == k;
      assert files[i] in selected;
      var j :| 0 <= j < |selected| && selected[j] == files[i];
    }
    forall k | k in Keys(selected, key) ensures k in Keys(files, key) && keep(k) {
      var i :| 0 <= i < |selected| && key(selected[i]) == k;
      assert selected[i] in files && selected[i] in selected;
      var j :| 0 <= j < |files| && files[j] == selected[i];
    }
  }

  /** A part of a canonical list, selected again by its own predicate. */
  lemma SelectPart<T>(files: seq<T>, key: T -> string, p: string -> bool, q: string -> bool, same: bool)
    requires if same then p == q else forall k :: !(p(k) && q(k))
    ensures Select(Unique(Select(files, key, p), key, {}), key, q)
            == if same then Unique(Select(files, key, p), key, {}) else []
  {
    var part := Unique(Select(files, key, p), key, {});
    UniqueFacts(Select(files, key, p), key, {});
    SelectMembers(files, key, p);
    if same { SelectAll(part, key, q); } else { SelectEmpty(part, key, q); }
  }

  lemma CanonTwice<T>(files: seq<T>, key: T -> string, p1: string -> bool, p2: string -> bool, p3: string -> bool)
    requires Exclusive(p1, p2, p3)
    ensures Canon(Canon(files, key, p1, p2, p3), key, p1, p2, p3) == Canon(files, key, p1, p2, p3)
  {
    hide Unique, Select;
    var a, b, c := Unique(Select(files, key, p1), key, {}), Unique(Select(files, key, p2), key, {}),
                   Unique(Select(files, key, p3), key, {});
    CanonPart(files, key, p1, p2, p3, p1);
    CanonPart(files, key, p1, p2, p3, p2);
    CanonPart(files, key, p1, p2, p3, p3);
    SelectPart(files, key, p1, p1, true);
    SelectPart(files, key, p2, p2, true);
    SelectPart(files, key, p3, p3, true);
    SelectPart(files, key, p1, p2, false);
    SelectPart(files, key, p1, p3, false);
    SelectPart(files, key, p2, p1, false);
    SelectPart(files, key, p2, p3, false);
    SelectPart(files, key, p3, p1, false);
    SelectPart(files, key, p3, p2, false);
    assert a + [] + [] == a && [] + b + [] == b && [] + [] + c == c;
    UniqueAgain(Select(files, key, p1), key);
    UniqueAgain(Select(files, key, p2), key);
    UniqueAgain(Select(files, key, p3), key);
  }

  lemma CanonPart<T>(files: seq<T>, key: T -> string, p1: string -> bool, p2: string -> bool, p3: string -> bool,
                     q: string -> bool)
    ensures Select(Canon(files, key, p1, p2, p3), key, q) ==
            Select(Unique(Select(files, key, p1), key, {}), key, q)
            + Select(Unique(Select(files, key, p2), key, {}), key, q)
            + Select(Unique(Select(files, key, p3), key, {}), key, q)
  {
    hide Unique, Select;
    var a, b, c := Unique(Select(files, key, p1), key, {}), Unique(Select(files, key, p2), key, {}),
                   Unique(Select(files, key, p3), key, {});
    SelectAppend(a + b, c, key, q);
    SelectAppend(a, b, key, q);
  }

  lemma UniqueAgain<T>(files: seq<T>, key: T -> string)
    ensures Unique(Unique(files, key, {}), key, {}) == Unique(files, key, {})
  {
    UniqueFacts(files, key, {});
    UniqueOfDistinct(Unique(files, key, {}), key, {});
  }

  /** Keeping the first files of three selections in a row drops from the later
      ones what the earlier ones select. */
  lemma UniqueOfThree<T>(files: seq<T>, key: T -> string, q1: string -> bool, q2: string -> bool, q3: string -> bool,
                         p2: string -> bool, p3: string -> bool)
    requires forall k :: p2(k) <==> q2(k) && !q1(k)
    requires forall k :: p3(k) <==> q3(k) && !q1(k) && !q2(k)
    ensures Unique(Select(files, key, q1) + Select(files, key, q2) + Select(files, key, q3), key, {})
            == Canon(files, key, q1, p2, p3)
  {
    hide Unique, Select;
    var a, b, c := Select(files, key, q1), Select(files, key, q2), Select(files, key, q3);
    UniqueAppend(a + b, c, key, {});
    UniqueAppend(a, b, key, {});
    KeysAppend(a, b, key);
    SelectKeys(files, key, q1);
    SelectKeys(files, key, q2);
    DropEarlier(files, key, q2, q1, p2, Keys(a, key));
    var earlier := k => q1(k) || q2(k);
    DropEarlier(files, key, q3, earlier, p3, Keys(a + b, key));
    assert {} + Keys(a, key) == Keys(a, key) && {} + Keys(a + b, key) == Keys(a + b, key);
  }

  lemma KeysAppend<T>(a: seq<T>, b: seq<T>, key: T -> string)
    ensures Keys(a + b, key) == Keys(a, key) + Keys(b, key)
  {
    forall k | k in Keys(a, key) ensures k in Keys(a + b, key) {
      var i :| 0 <= i < |a| && key(a[i]) == k;
      assert (a + b)[i] == a[i];
    }
    forall k | k in Keys(b, key) ensures k in Keys(a + b, key) {
      var i :| 0 <= i < |b| && key(b[i]) == k;
      assert (a + b)[|a| + i] == b[i];
    }
  }

  lemma DropEarlier<T>(files: seq<T>, key: T -> string, q: string -> bool, earlier: string -> bool,
                       p: string -> bool, seen: set<string>)
    requires forall k :: p(k) <==> q(k) && !earlier(k)
    requires seen == set k | k in Keys(files, key) && earlier(k)
    ensures Unique(Select(files, key, q), key, seen) == Unique(Select(files, key, p), key, {})
  {
    var selected := Select(files, key, q);
    var later := k => !earlier(k);
    SelectMembers(files, key, q);
    forall i | 0 <= i < |selected| ensures later(key(selected[i])) <==> key(selected[i]) !in seen {
      assert selected[i] in selected && selected[i] in files;
      var j :| 0 <= j < |files| && files[j] == selected[i];
      assert key(files[j]) in Keys(files, key);
    }
    DropSeen(selected, key, seen, {}, later);
    assert seen + {} == seen;
    SelectTwice(files, key, q, later, p);
  }

  /* ---------- the six groups ---------- */

  ghost predicate Base(k: string, f: Filters, user: UserRegex) {
    InBase(k, f, user) && !AnyMatch(k, Negated(f.only), user)
  }

  ghost predicate Back(k: string, patterns: seq<string>, f: Filters, user: UserRegex) {
    AnyMatch(k, Negated(patterns), user) && !AnyMatch(k, Negated(f.only), user)
  }

  lemma PassesNegated(k: string, patterns: seq<string>, user: UserRegex)
    ensures Passes(k, patterns, false, user) <==> !AnyMatch(k, patterns, user)
    ensures patterns != [] ==> (Passes(k, patterns, true, user) <==> AnyMatch(k, patterns, user))
  {
    hide IsMatch;
  }

  lemma BaseSelected<T>(files: seq<T>, key: T -> string, f: Filters, user: UserRegex)
    ensures Filter(Filter(Filter(files, key, Normal(f.ignoreFromFile), false, user),
                          key, Normal(f.ignore), false, user),
                   key, Normal(f.only), true, user)
            == Select(files, key, k => InBase(k, f, user))
  {
    hide Select, Normal, Passes;
    var p1 := k => Passes(k, Normal(f.ignoreFromFile), false, user);
    var p2 := k => Passes(k, Normal(f.ignore), false, user);
    var p3 := k => Passes(k, Normal(f.only), true, user);
    var p12 := k => p1(k) && p2(k);
    FilterIs(files, key, Normal(f.ignoreFromFile), false, user, p1);
    FilterIs(Select(files, key, p1), key, Normal(f.ignore), false, user, p2);
    SelectTwice(files, key, p1, p2, p12);
    FilterIs(Select(files, key, p12), key, Normal(f.only), true, user, p3);
    SelectTwice(files, key, p12, p3, k => InBase(k, f, user));
  }

  lemma FilterIs<T>(files: seq<T>, key: T -> string, patterns: seq<string>, invert: bool, user: UserRegex,
                    p: string -> bool)
    requires forall k :: p(k) <==> Passes(k, patterns, invert, user)
    ensures Filter(files, key, patterns, invert, user) == Select(files, key, p)
  {
    hide Passes;
    SelectSame(files, key, k => Passes(k, patterns, invert, user), p);
  }

  lemma BackSelected<T>(files: seq<T>, key: T -> string, patterns: seq<string>, user: UserRegex)
    ensures (if Negated(patterns) == [] then [] else Filter(files, key, Negated(patterns), true, user))
            == Select(files, key, k => AnyMatch(k, Negated(patterns), user))
  {
    hide Select, Negated, Passes, IsMatch;
    var p := k => AnyMatch(k, Negated(patterns), user);
    if Negated(patterns) == [] {
      SelectEmpty(files, key, p);
    } else {
      forall k ensures p(k) <==> Passes(k, Negated(patterns), true, user) {
        PassesNegated(k, Negated(patterns), user);
      }
      FilterIs(files, key, Negated(patterns), true, user, p);
    }
  }

  /** Filtering as three exclusive selections: the files no pattern ignores,
      then those only a negated pattern of the ignore file brings back, then
      those only a negated ignore pattern brings back. */
  lemma AppliedIsCanon<T>(files: seq<T>, key: T -> string, f: Filters, user: UserRegex)
    ensures Apply(files, key, f, user) ==
            Canon(files, key, k => Base(k, f, user),
                  k => Back(k, f.ignoreFromFile, f, user) && !Base(k, f, user),
                  k => Back(k, f.ignore, f, user) && !Base(k, f, user) && !Back(k, f.ignoreFromFile, f, user))
  {
    hide Select, Unique, Normal, Negated, InBase, AnyMatch, Passes, Filter, Canon;
    var not := k => !AnyMatch(k, Negated(f.only), user);
    var b0, s0, i0 := k => InBase(k, f, user), k => AnyMatch(k, Negated(f.ignoreFromFile), user),
                      k => AnyMatch(k, Negated(f.ignore), user);
    var b, s, i := k => Base(k, f, user), k => Back(k, f.ignoreFromFile, f, user), k => Back(k, f.ignore, f, user);
    BaseSelected(files, key, f, user);
    BackSelected(files, key, f.ignoreFromFile, user);
    BackSelected(files, key, f.ignore, user);
    var all := Combined(files, key, f, user);
    assert all == Select(files, key, b0) + Select(files, key, s0) + Select(files, key, i0);
    forall k ensures not(k) <==> Passes(k, Negated(f.only), false, user) { PassesNegated(k, Negated(f.only), user); }
    FilterIs(all, key, Negated(f.only), false, user, not);
    SelectAppend(Select(files, key, b0) + Select(files, key, s0), Select(files, key, i0), key, not);
    SelectAppend(Select(files, key, b0), Select(files, key, s0), key, not);
    SelectTwice(files, key, b0, not, b);
    SelectTwice(files, key, s0, not, s);
    SelectTwice(files, key, i0, not, i);
    UniqueOfThree(files, key, b, s, i,
                  k => Back(k, f.ignoreFromFile, f, user) && !Base(k, f, user),
                  k => Back(k, f.ignore, f, user) && !Base(k, f, user) && !Back(k, f.ignoreFromFile, f, user));
  }

  /** Filtering twice is filtering once, as a sequence. */
  lemma FilterTwice<T>(files: seq<T>, key: T -> string, f: Filters, user: UserRegex)
    ensures Apply(Apply(files, key, f, user), key, f, user) == Apply(files, key, f, user)
  {
    hide Apply, Canon, Base, Back;
    var p1 := k => Base(k, f, user);
    var p2 := k => Back(k, f.ignoreFromFile, f, user) && !Base(k, f, user);
    var p3 := k => Back(k, f.ignore, f, user) && !Base(k, f, user) && !Back(k, f.ignoreFromFile, f, user);
    AppliedIsCanon(files, key, f, user);
    AppliedIsCanon(Apply(files, key, f, user), key, f, user);
    CanonTwice(files, key, p1, p2, p3);
  }

  /** The result holds exactly the keys of the list that satisfy the formula,
      each once, and every file in it is one of the list. */
  lemma FilterKeepsAdmitted<T>(files: seq<T>, key: T -> string, f: Filters, user: UserRegex)
    ensures var kept := Apply(files, key, f, user);
            && Distinct(kept, key)
            && Keys(kept, key) == (set k | k in Keys(files, key) && Admits(k, f, user))
            && forall x :: x in kept ==> x in files
  {
    hide Select, Unique, Normal, Negated, AnyMatch, Keys;
    var p1 := k => Base(k, f, user);
    var p2 := k => Back(k, f.ignoreFromFile, f, user) && !Base(k, f, user);
    var p3 := k => Back(k, f.ignore, f, user) && !Base(k, f, user) && !Back(k, f.ignoreFromFile, f, user);
    AppliedIsCanon(files, key, f, user);
    CanonFacts(files, key, p1, p2, p3);
    forall k ensures (p1(k) || p2(k) || p3(k)) <==> Admits(k, f, user) { AdmitsCases(k, f, user); }
  }

  lemma AdmitsCases(k: string, f: Filters, user: UserRegex)
    ensures Admits(k, f, user) <==>
            Base(k, f, user) || Back(k, f.ignoreFromFile, f, user) || Back(k, f.ignore, f, user)
  {
    hide Normal, Negated, AnyMatch;
    PassesNegated(k, Normal(f.ignoreFromFile), user);
    PassesNegated(k, Normal(f.ignore), user);
    PassesNegated(k, Normal(f.only), user);
  }

  lemma CanonFacts<T>(files: seq<T>, key: T -> string, p1: string -> bool, p2: string -> bool, p3: string -> bool)
    requires Exclusive(p1, p2, p3)
    ensures var kept := Canon(files, key, p1, p2, p3);
            && Distinct(kept, key)
            && Keys(kept, key) == (set k | k in Keys(files, key) && (p1(k) || p2(k) || p3(k)))
            && forall x :: x in kept ==> x in files
  {
    hide Select, Unique;
    var a, b, c := Unique(Select(files, key, p1), key, {}), Unique(Select(files, key, p2), key, {}),
                   Unique(Select(files, key, p3), key, {});
    PartFacts(files, key, p1);
    PartFacts(files, key, p2);
    PartFacts(files, key, p3);
    KeysAppend(a + b, c, key);
    KeysAppend(a, b, key);
    DistinctAppend(a, b, key);
    DistinctAppend(a + b, c, key);
  }

  lemma PartFacts<T>(files: seq<T>, key: T -> string, p: string -> bool)
    ensures var part := Unique(Select(files, key, p), key, {});
            && Distinct(part, key)
            && Keys(part, key) == (set k | k in Keys(files, key) && p(k))
            && forall x :: x in part ==> x in files
  {
    hide Select, Unique;
    UniqueFacts(Select(files, key, p), key, {});
    SelectKeys(files, key, p);
    SelectMembers(files, key, p);
  }

  lemma DistinctAppend<T>(a: seq<T>, b: seq<T>, key: T -> string)
    requires Distinct(a, key) && Distinct(b, key) && Keys(a, key) !! Keys(b, key)
    ensures Distinct(a + b, key)
  {
    var s := a + b;
    forall i, j | 0 <= i < j < |s| ensures key(s[i]) != key(s[j]) {
      if j < |a| {
      } else if i >= |a| {
        assert s[i] == b[i - |a|] && s[j] == b[j - |a|];
      } else {
        assert key(a[i]) in Keys(a, key) && key(b[j - |a|]) in Keys(b, key);
      }
    }
  }
}
