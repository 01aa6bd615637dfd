/** The order in which a push uploads and deletes: groups of files that depend
    on earlier groups, next to files that depend on nothing. */
module UploadOrder {
  import opened Text
  import opened Theme
  import opened Order

  datatype AssetGroup =
    | Independent
    | SettingsSchema
    | Layout
    | Block
    | LiquidSection
    | JsonSection
    | JsonTemplate
    | ContextualJsonTemplate
    | SettingsData

  const Groups: seq<AssetGroup> :=
    [SettingsSchema, Layout, Block, LiquidSection, JsonSection, JsonTemplate, ContextualJsonTemplate, SettingsData]

  function Rank(group: AssetGroup): nat {
    match group
    case Independent => 0
    case SettingsSchema => 1
    case Layout => 2
    case Block => 3
    case LiquidSection => 4
    case JsonSection => 5
    case JsonTemplate => 6
    case ContextualJsonTemplate => 7
    case SettingsData => 8
  }

  function Classify(key: string): AssetGroup {
    if key == "config/settings_schema.json" then SettingsSchema
    else if key == "config/settings_data.json" then SettingsData
    else if StartsWith(key, "layout/") then Layout
    else if StartsWith(key, "blocks/") then Block
    else if StartsWith(key, "sections/") && EndsWith(key, ".liquid") then LiquidSection
    else if StartsWith(key, "sections/") && EndsWith(key, ".json") then JsonSection
    else if (StartsWith(key, "templates/") && EndsWith(key, ".context."))
            || (Contains(key, ".context.") && StartsWith(key, "templates/")) then ContextualJsonTemplate
    else if StartsWith(key, "templates/") && EndsWith(key, ".json") then JsonTemplate
    else Independent
  }

  datatype UploadWork = UploadWork(independent: seq<Asset>, dependent: seq<seq<Asset>>)

  /** The assets of one group, in their order. */
  function InGroup(assets: seq<Asset>, group: AssetGroup): seq<Asset> {
    if assets == [] then []
    else (if Classify(assets[0].key) == group then [assets[0]] else []) + InGroup(assets[1..], group)
  }

  /** The non-empty groups from group `i` on. */
  function DependentGroups(assets: seq<Asset>, i: nat): seq<seq<Asset>>
    requires i <= |Groups|
    decreases |Groups| - i
  {
    if i == |Groups| then []
    else (if InGroup(assets, Groups[i]) == [] then [] else [InGroup(assets, Groups[i])]) + DependentGroups(assets, i + 1)
  }

  function Work(assets: seq<Asset>): UploadWork {
    UploadWork(InGroup(assets, Independent), DependentGroups(assets, 0))
  }

  method OrderedUploadWork(assets: seq<Asset>) returns (work: UploadWork)
    ensures work == Work(assets)
  {
    hide DependentGroups, InGroup;
    var independent, dependent := GroupAssets(assets);
    var values: seq<seq<Asset>> := [];
    for i := 0 to |Groups|
      invariant values + DependentGroups(assets, i) == DependentGroups(assets, 0)
    {
      DependentStep(assets, i);
      if Groups[i] in dependent {
        values := values + [dependent[Groups[i]]];
      }
    }
    DependentStep(assets, |Groups|);
    work := UploadWork(independent, values);
  }

  lemma DependentStep(assets: seq<Asset>, i: nat)
    requires i <= |Groups|
    ensures i == |Groups| ==> DependentGroups(assets, i) == []
    ensures i < |Groups| ==> Groups[i] != Independent
    ensures i < |Groups| ==>
              DependentGroups(assets, i) ==
              (if InGroup(assets, Groups[i]) == [] then [] else [InGroup(assets, Groups[i])])
              + DependentGroups(assets, i + 1)
  {
    hide InGroup;
  }

  method GroupAssets(assets: seq<Asset>) returns (independent: seq<Asset>, dependent: map<AssetGroup, seq<Asset>>)
    ensures independent == InGroup(assets, Independent)
    ensures forall g :: g in dependent <==> g != Independent && InGroup(assets, g) != []
    ensures forall g :: g in dependent ==> dependent[g] == InGroup(assets, g)
  {
    hide Classify, InGroup;
    independent := [];
    dependent := map[];
    NoGroups();
    for i := 0 to |assets|
      invariant independent == InGroup(assets[..i], Independent)
      invariant forall g :: g in dependent <==> g != Independent && InGroup(assets[..i], g) != []
      invariant forall g :: g in dependent ==> dependent[g] == InGroup(assets[..i], g)
    {
      var group := Classify(assets[i].key);
      GroupsStep(assets, i);
      if group == Independent {
        independent := independent + [assets[i]];
      } else {
        dependent := dependent[group := (if group in dependent then dependent[group] else []) + [assets[i]]];
      }
    }
    assert assets[..|assets|] == assets;
  }

  lemma NoGroups()
    ensures forall g :: InGroup([], g) == []
  {}

  lemma GroupsStep(assets: seq<Asset>, i: nat)
    requires i < |assets|
    ensures forall g :: g != Classify(assets[i].key) ==> InGroup(assets[..i + 1], g) == InGroup(assets[..i], g)
    ensures var g := Classify(assets[i].key); InGroup(assets[..i + 1], g) == InGroup(assets[..i], g) + [assets[i]]
  {
    hide Classify, InGroup;
    assert assets[..i + 1] == assets[..i] + [assets[i]];
    forall g ensures InGroup(assets[..i + 1], g)
                     == InGroup(assets[..i], g) + (if g == Classify(assets[i].key) then [assets[i]] else [])
    {
      InGroupLast(assets[..i], assets[i], g);
    }
  }

  lemma {:induction false} InGroupLast(assets: seq<Asset>, last: Asset, group: AssetGroup)
    ensures InGroup(assets + [last], group)
            == InGroup(assets, group) + (if Classify(last.key) == group then [last] else [])
  {
    hide *;
    var all := assets + [last];
    InGroupStep(assets, group);
    InGroupStep(all, group);
    InGroupStep([last], group);
    if assets == [] {
      assert all == [last] && [last][1..] == [];
    } else {
      assert all[1..] == assets[1..] + [last] && all[0] == assets[0];
      InGroupLast(assets[1..], last, group);
    }
  }

  lemma InGroupStep(assets: seq<Asset>, group: AssetGroup)
    ensures InGroup([], group) == []
    ensures assets != [] ==>
              InGroup(assets, group)
              == (if Classify(assets[0].key) == group then [assets[0]] else []) + InGroup(assets[1..], group)
  {
    hide Classify;
  }

  lemma {:induction false} InGroupMembers(assets: seq<Asset>, group: AssetGroup)
    ensures forall a :: a in InGroup(assets, group) ==> a in assets && Classify(a.key) == group
    ensures forall a :: a in assets && Classify(a.key) == group ==> a in InGroup(assets, group)
  {
    hide Classify;
    if assets != [] {
      InGroupMembers(assets[1..], group);
      assert assets == [assets[0]] + assets[1..];
    }
  }

  /* ---------- deletions ---------- */

  /** The place of a key in the order of deletions. */
  function DeleteRank(key: string): nat {
    if StartsWith(key, "templates/") && EndsWith(key, ".json") && Contains(key, ".context.") then 0
    else if StartsWith(key, "templates/") && EndsWith(key, ".json") then 1
    else if StartsWith(key, "sections/") && EndsWith(key, ".json") then 2
    else if EndsWith(key, ".json") && key != "config/settings_schema.json" && key != "config/settings_data.json" then 3
    else if StartsWith(key, "sections/") && EndsWith(key, ".liquid") then 4
    else if StartsWith(key, "blocks/") && EndsWith(key, ".liquid") then 5
    else if StartsWith(key, "layout/") && EndsWith(key, ".liquid") then 6
    else if EndsWith(key, ".liquid") then 7
    else if key == "config/settings_data.json" then 8
    else if key == "config/settings_schema.json" then 9
    else 10
  }

  /** By group, and by key within a group. */
  predicate Before(a: string, b: string) {
    DeleteRank(a) < DeleteRank(b) || (DeleteRank(a) == DeleteRank(b) && Le(a, b))
  }

  function Insert(key: string, keys: seq<string>): seq<string> {
    if keys == [] || Before(key, keys[0]) then [key] + keys else [keys[0]] + Insert(key, keys[1..])
  }

  function OrderedDeletions(keys: seq<string>): seq<string> {
    if keys == [] then [] else Insert(keys[0], OrderedDeletions(keys[1..]))
  }

  predicate InDeleteOrder(keys: seq<string>) {
    forall i, j :: 0 <= i < j < |keys| ==> Before(keys[i], keys[j])
  }

  lemma BeforeOrder(a: string, b: string, c: string)
    ensures Before(a, b) || Before(b, a)
    ensures Before(a, b) && Before(b, c) ==> Before(a, c)
  {
    hide DeleteRank, Le;
    LeTotal(a, b);
    if Le(a, b) && Le(b, c) { LeTransitive(a, b, c); }
  }

  lemma {:induction false} InsertMembers(key: string, keys: seq<string>)
    ensures multiset(Insert(key, keys)) == multiset(keys) + multiset{key}
    ensures forall k :: k in Insert(key, keys) ==> k == key || k in keys
  {
    hide Before;
    if keys != [] {
      assert keys == [keys[0]] + keys[1..];
      if !Before(key, keys[0]) { InsertMembers(key, keys[1..]); }
    }
  }

  lemma FirstInOrder(key: string, keys: seq<string>)
    requires InDeleteOrder(keys) && forall k :: k in keys ==> Before(key, k)
    ensures InDeleteOrder([key] + keys)
  {
    hide Before;
  }

  lemma {:induction false} InsertKeepsOrder(key: string, keys: seq<string>)
    requires InDeleteOrder(keys)
    ensures InDeleteOrder(Insert(key, keys))
  {
    hide Before;
    if keys != [] {
      BeforeOrder(key, keys[0], keys[0]);
      forall k | k in keys ensures Before(key, keys[0]) ==> Before(key, k) {
        var i :| 0 <= i < |keys| && keys[i] == k;
        BeforeOrder(key, keys[0], k);
      }
    }
    if keys == [] || Before(key, keys[0]) {
      FirstInOrder(key, keys);
    } else {
      assert forall i :: 0 <= i < |keys[1..]| ==> keys[1..][i] == keys[i + 1];
      InsertKeepsOrder(key, keys[1..]);
      InsertMembers(key, keys[1..]);
      FirstInOrder(keys[0], Insert(key, keys[1..]));
    }
  }

  /** The deletions are the planned keys, group after group. */
  lemma {:induction false} DeletionsAreOrdered(keys: seq<string>)
    ensures InDeleteOrder(OrderedDeletions(keys)) && multiset(OrderedDeletions(keys)) == multiset(keys)
  {
    hide Before;
    if keys != [] {
      DeletionsAreOrdered(keys[1..]);
      InsertKeepsOrder(keys[0], OrderedDeletions(keys[1..]));
      InsertMembers(keys[0], OrderedDeletions(keys[1..]));
      assert keys == [keys[0]] + keys[1..];
    }
  }

  /* ---------- which files need which ---------- */

  /** The stages of a theme, by directory and extension: a file may use files of
      earlier stages only. */
  predicate OfStage(key: string, stage: nat) {
    match stage
    case 1 => key == "config/settings_schema.json"
    case 2 => StartsWith(key, "layout/")
    case 3 => StartsWith(key, "blocks/")
    case 4 => StartsWith(key, "sections/") && EndsWith(key, ".liquid")
    case 5 => StartsWith(key, "sections/") && EndsWith(key, ".json")
    case 6 => StartsWith(key, "templates/") && EndsWith(key, ".json") && !Contains(key, ".context.")
    case 7 => StartsWith(key, "templates/") && Contains(key, ".context.")
    case 8 => key == "config/settings_data.json"
    case _ => false
  }

  /** A file of an earlier stage, which must be there before one of a later stage. */
  ghost predicate NeededBy(a: string, b: string) {
    exists i, j :: 0 < i < j && OfStage(a, i) && OfStage(b, j)
  }

  /** The file is of no stage. */
  ghost predicate Free(key: string) { forall stage :: !OfStage(key, stage) }

  lemma FirstLetters(key: string)
    ensures key == "config/settings_schema.json" || key == "config/settings_data.json" ==> key[0] == 'c'
    ensures StartsWith(key, "layout/") ==> key[0] == 'l'
    ensures StartsWith(key, "blocks/") ==> key[0] == 'b'
    ensures StartsWith(key, "sections/") ==> key[0] == 's'
    ensures StartsWith(key, "templates/") ==> key[0] == 't'
  {
    PrefixHead(key, "layout/");
    PrefixHead(key, "blocks/");
    PrefixHead(key, "sections/");
    PrefixHead(key, "templates/");
  }

  lemma LastLetters(key: string)
    ensures EndsWith(key, ".liquid") ==> key[|key| - 1] == 'd'
    ensures EndsWith(key, ".json") ==> key[|key| - 1] == 'n'
    ensures EndsWith(key, ".context.") ==> key[|key| - 1] == '.'
  {
    LastLetter(key, ".liquid");
    LastLetter(key, ".json");
    LastLetter(key, ".context.");
  }

  lemma LastLetter(key: string, end: string)
    requires end != ""
    ensures EndsWith(key, end) ==> key[|key| - 1] == end[|end| - 1]
  {
    if EndsWith(key, end) { assert key[|key| - |end|..][|end| - 1] == key[|key| - 1]; }
  }

  lemma SuffixIsPart(key: string, part: string)
    ensures EndsWith(key, part) ==> Contains(key, part)
  {
    if EndsWith(key, part) { assert key[|key| - |part|..][..|part|] == part; }
  }

  lemma Settings()
    ensures EndsWith("config/settings_schema.json", ".json") && EndsWith("config/settings_data.json", ".json")
    ensures "config/settings_schema.json" != "config/settings_data.json"
  {
    assert "config/settings_schema.json"[16] == 's' && "config/settings_data.json"[16] == 'd';
    assert "config/settings_schema.json"[22..] == ".json" && "config/settings_data.json"[20..] == ".json";
  }

  /** The group of a key is its stage. */
  lemma GroupIsStage(key: string, stage: nat)
    requires stage > 0
    ensures Rank(Classify(key)) == stage <==> OfStage(key, stage)
  {
    FirstLetters(key);
    LastLetters(key);
    SuffixIsPart(key, ".context.");
    Settings();
    hide StartsWith, EndsWith, Contains;
  }

  /** Files that other files need are in earlier groups, and the files of no stage are
      independent. */
  lemma GroupsFollowNeeds(a: string, b: string)
    ensures NeededBy(a, b) <==> 0 < Rank(Classify(a)) < Rank(Classify(b))
    ensures Free(a) <==> Classify(a) == Independent
  {
    hide Classify, OfStage;
    forall stage ensures OfStage(a, stage) <==> stage > 0 && Rank(Classify(a)) == stage { StageOf(a, stage); }
    forall stage ensures OfStage(b, stage) <==> stage > 0 && Rank(Classify(b)) == stage { StageOf(b, stage); }
    assert OfStage(a, Rank(Classify(a))) <==> Rank(Classify(a)) > 0;
    assert OfStage(b, Rank(Classify(b))) <==> Rank(Classify(b)) > 0;
  }

  lemma StageOf(key: string, stage: nat)
    ensures OfStage(key, stage) <==> stage > 0 && Rank(Classify(key)) == stage
  {
    if stage > 0 { GroupIsStage(key, stage); }
  }

  /* ---------- uploads and deletions ---------- */

  /** A file with the extension its directory is for; the settings data are uploaded
      last but not deleted first. */
  predicate Usual(key: string) {
    && key != "config/settings_data.json"
    && (StartsWith(key, "layout/") || StartsWith(key, "blocks/") ==> EndsWith(key, ".liquid"))
    && (StartsWith(key, "templates/") ==> EndsWith(key, ".json"))
  }

  /** The place of a usual file among the deletions, by its stage. */
  lemma DeletePlace(key: string, stage: nat)
    requires Usual(key) && OfStage(key, stage)
    ensures DeleteRank(key) == match stage
                               case 7 => 0
                               case 6 => 1
                               case 5 => 2
                               case 4 => 4
                               case 3 => 5
                               case 2 => 6
                               case _ => 9
  {
    FirstLetters(key);
    LastLetters(key);
    Settings();
    hide StartsWith, EndsWith, Contains;
  }

  /** What needs a file is deleted before the file. */
  lemma DeletionsReverseUploads(a: string, b: string)
    requires Usual(a) && Usual(b) && NeededBy(a, b)
    ensures DeleteRank(b) < DeleteRank(a)
  {
    var i, j :| 0 < i < j && OfStage(a, i) && OfStage(b, j);
    DeletePlace(a, i);
    DeletePlace(b, j);
    hide DeleteRank;
  }

  /** The kinds of files in the order they are deleted: other JSON, other liquid files,
      the settings data, the settings schema, and all that is neither. */
  predicate OfKind(key: string, kind: nat) {
    match kind
    case 0 => EndsWith(key, ".json") && key != "config/settings_schema.json" && key != "config/settings_data.json"
    case 1 => EndsWith(key, ".liquid")
    case 2 => key == "config/settings_data.json"
    case 3 => key == "config/settings_schema.json"
    case 4 => !EndsWith(key, ".json") && !EndsWith(key, ".liquid")
    case _ => false
  }

  /** Files of an earlier kind are deleted first; among JSON files those of templates and
      sections, and among liquid files those of sections, blocks and layouts. */
  lemma DeletionsByKind(a: string, b: string, i: nat, j: nat)
    requires OfKind(a, i) && OfKind(b, j)
    ensures i < j ==> DeleteRank(a) < DeleteRank(b)
    ensures i == j == 0 && StartsWith(a, "templates/") && !StartsWith(b, "templates/") ==> DeleteRank(a) < DeleteRank(b)
    ensures i == j == 0 && StartsWith(a, "sections/") && !StartsWith(b, "templates/") && !StartsWith(b, "sections/") ==>
              DeleteRank(a) < DeleteRank(b)
    ensures i == j == 1 && (StartsWith(a, "sections/") || StartsWith(a, "blocks/") || StartsWith(a, "layout/"))
            && !StartsWith(b, "sections/") && !StartsWith(b, "blocks/") && !StartsWith(b, "layout/") ==>
              DeleteRank(a) < DeleteRank(b)
    ensures i == j && i >= 2 ==> DeleteRank(a) == DeleteRank(b)
  {
    FirstLetters(a);
    LastLetters(a);
    FirstLetters(b);
    LastLetters(b);
    Settings();
    hide StartsWith, EndsWith, Contains;
  }
}
