/** Settling the JSON files of a local theme and a remote one before a
    development server starts. */
module Reconciliation {
  import opened Text
  import opened Theme
  import Ignore
  import opened FilterAlgebra
  import Plans
  import opened FileSystem
  import opened Remote
  import PlanConvergence

  type UserRegex = Ignore.UserRegex

  datatype Choice = TakeRemote | TakeLocal

  datatype Diff = Diff(localOnly: seq<Checksum>, remoteOnly: seq<Checksum>, conflicts: seq<Checksum>)

  datatype Plan = Plan(localDelete: seq<string>, download: seq<string>, remoteDelete: seq<string>)

  /* ---------- selecting JSON files ---------- */

  predicate IsJson(key: string) { EndsWith(key, ".json") }

  function FilterJsonChecksums(checksums: seq<Checksum>, mounted: Ignore.Filters, explicit: Ignore.Filters,
                               unsynced: set<string>, user: UserRegex): seq<Checksum> {
    Ignore.Select(Ignore.Apply(Ignore.Apply(checksums, ChecksumKey, mounted, user), ChecksumKey, explicit, user),
                  ChecksumKey, k => IsJson(k) && k !in unsynced)
  }

  function FilterJsonAssets(assets: seq<Asset>, explicit: Ignore.Filters, user: UserRegex): seq<Asset> {
    Ignore.Select(Ignore.Apply(assets, AssetKey, explicit, user), AssetKey, IsJson)
  }

  /** A JSON key that the theme editor and the local theme share. */
  predicate Shared(key: string, mounted: Ignore.Filters, explicit: Ignore.Filters, unsynced: set<string>,
                   user: UserRegex) {
    Ignore.Admits(key, mounted, user) && Ignore.Admits(key, explicit, user) && IsJson(key) && key !in unsynced
  }

  lemma JsonChecksums(checksums: seq<Checksum>, mounted: Ignore.Filters, explicit: Ignore.Filters,
                      unsynced: set<string>, user: UserRegex)
    ensures var kept := FilterJsonChecksums(checksums, mounted, explicit, unsynced, user);
            && Distinct(kept, ChecksumKey)
            && (forall c :: c in kept ==> c in checksums)
            && Keys(kept, ChecksumKey)
               == set k | k in Keys(checksums, ChecksumKey) && Shared(k, mounted, explicit, unsynced, user)
  {
    hide Ignore.Apply, Ignore.Admits, Ignore.Select, Keys, IsJson;
    var once := Ignore.Apply(checksums, ChecksumKey, mounted, user);
    var twice := Ignore.Apply(once, ChecksumKey, explicit, user);
    var keep := k => IsJson(k) && k !in unsynced;
    FilterKeepsAdmitted(checksums, ChecksumKey, mounted, user);
    FilterKeepsAdmitted(once, ChecksumKey, explicit, user);
    SelectKeys(twice, ChecksumKey, keep);
    SelectMembers(twice, ChecksumKey, keep);
    SelectDistinct(twice, ChecksumKey, keep);
  }

  lemma {:induction false} SelectDistinct<T>(files: seq<T>, key: T -> string, keep: string -> bool)
    requires Distinct(files, key)
    ensures Distinct(Ignore.Select(files, key, keep), key)
  {
    if files != [] {
      var tail := Ignore.Select(files[1..], key, keep);
      SelectDistinct(files[1..], key, keep);
      SelectMembers(files[1..], key, keep);
      SelectHead(files, key, keep);
      assert forall x :: x in tail ==> exists i :: 1 <= i < |files| && files[i] == x;
    }
  }

  lemma JsonAssets(files: map<string, Asset>, explicit: Ignore.Filters, user: UserRegex)
    requires Plans.WellKeyed(files)
    ensures var kept := FilterJsonAssets(Plans.Values(files), explicit, user);
            && (forall a :: a in kept ==> a.key in files && files[a.key] == a)
            && Keys(kept, AssetKey) == set k | k in files && Ignore.Admits(k, explicit, user) && IsJson(k)
  {
    hide Ignore.Apply, Ignore.Admits, Ignore.Select, Keys, IsJson, Plans.Values;
    var values := Plans.Values(files);
    var once := Ignore.Apply(values, AssetKey, explicit, user);
    PlanConvergence.ValuesDistinct(files);
    FilterKeepsAdmitted(values, AssetKey, explicit, user);
    SelectKeys(once, AssetKey, IsJson);
    SelectMembers(once, AssetKey, IsJson);
  }

  /* ---------- the three lists ---------- */

  function Conflicts(remote: seq<Checksum>, files: map<string, Asset>): seq<Checksum> {
    if remote == [] then []
    else
      (if remote[0].key in files && files[remote[0].key].checksum != remote[0].checksum then [remote[0]] else [])
      + Conflicts(remote[1..], files)
  }

  function Summaries(assets: seq<Asset>): (r: seq<Checksum>)
    ensures |r| == |assets| && forall i :: 0 <= i < |r| ==> r[i] == Checksum(assets[i].key, assets[i].checksum)
  {
    if assets == [] then [] else [Checksum(assets[0].key, assets[0].checksum)] + Summaries(assets[1..])
  }

  function Identify(listing: seq<Checksum>, fs: Fs, explicit: Ignore.Filters, user: UserRegex): Diff {
    var remote := FilterJsonChecksums(listing, fs.filters, explicit, {}, user);
    var byKey := Plans.ByKey(remote);
    var local := FilterJsonAssets(Plans.Values(fs.files), explicit, user);
    Diff(Summaries(Ignore.Select(local, AssetKey, k => k !in byKey)),
         Ignore.Select(remote, ChecksumKey, k => k !in fs.files),
         Conflicts(remote, fs.files))
  }

  ghost function KeysIn(list: seq<Checksum>): set<string> { set c | c in list :: c.key }

  lemma KeysInKeys(list: seq<Checksum>)
    ensures KeysIn(list) == Keys(list, ChecksumKey)
  {
    forall k | k in KeysIn(list) ensures k in Keys(list, ChecksumKey) {
      var c :| c in list && c.key == k;
      var i :| 0 <= i < |list| && list[i] == c;
      assert ChecksumKey(list[i]) == k;
    }
    forall k | k in Keys(list, ChecksumKey) ensures k in KeysIn(list) {
      var i :| 0 <= i < |list| && ChecksumKey(list[i]) == k;
      assert list[i] in list;
    }
  }

  lemma {:induction false} ConflictsMeaning(remote: seq<Checksum>, files: map<string, Asset>)
    ensures forall c :: c in Conflicts(remote, files) <==>
              c in remote && c.key in files && files[c.key].checksum != c.checksum
  {
    if remote != [] {
      ConflictsMeaning(remote[1..], files);
      assert remote == [remote[0]] + remote[1..];
    }
  }

  /** A remote key that takes part in the reconciliation. */
  predicate Visible(key: string, remote: map<string, string>, fs: Fs, explicit: Ignore.Filters, user: UserRegex) {
    key in remote && Shared(key, fs.filters, explicit, {}, user)
  }

  predicate LocalJson(key: string, fs: Fs, explicit: Ignore.Filters, user: UserRegex) {
    key in fs.files && Ignore.Admits(key, explicit, user) && IsJson(key)
  }

  /** What the lists hold, key by key. */
  lemma IdentifyMeaning(listing: seq<Checksum>, remote: map<string, string>, fs: Fs, explicit: Ignore.Filters,
                        user: UserRegex)
    requires PlanConvergence.IsListing(listing, remote) && Plans.WellKeyed(fs.files)
    ensures var diff := Identify(listing, fs, explicit, user);
            && (forall k :: k in KeysIn(diff.remoteOnly) <==>
                  Visible(k, remote, fs, explicit, user) && k !in fs.files)
            && (forall k :: k in KeysIn(diff.conflicts) <==>
                  Visible(k, remote, fs, explicit, user) && k in fs.files && fs.files[k].checksum != remote[k])
            && (forall k :: k in KeysIn(diff.localOnly) <==>
                  LocalJson(k, fs, explicit, user) && !Visible(k, remote, fs, explicit, user))
  {
    RemoteLists(listing, remote, fs, explicit, user);
    LocalList(listing, remote, fs, explicit, user);
  }

  lemma RemoteSide(listing: seq<Checksum>, remote: map<string, string>, fs: Fs, explicit: Ignore.Filters,
                   user: UserRegex)
    requires PlanConvergence.IsListing(listing, remote)
    ensures var kept := FilterJsonChecksums(listing, fs.filters, explicit, {}, user);
            && (forall k :: k in KeysIn(kept) <==> Visible(k, remote, fs, explicit, user))
            && (forall c :: c in kept ==> c.key in remote && remote[c.key] == c.checksum)
            && Plans.ByKey(kept).Keys == KeysIn(kept)
  {
    hide FilterJsonChecksums, Shared, Keys, KeysIn, Plans.Collect, PlanConvergence.IsListing;
    var kept := FilterJsonChecksums(listing, fs.filters, explicit, {}, user);
    JsonChecksums(listing, fs.filters, explicit, {}, user);
    KeysInKeys(kept);
    PlanConvergence.CollectKeys(kept, ChecksumKey, Plans.ChecksumValue);
    forall c | c in kept ensures c.key in remote && remote[c.key] == c.checksum {
      PlanConvergence.FromListing(c, listing, remote);
    }
    PlanConvergence.ListingKeys(listing, remote);
  }

  lemma RemoteLists(listing: seq<Checksum>, remote: map<string, string>, fs: Fs, explicit: Ignore.Filters,
                    user: UserRegex)
    requires PlanConvergence.IsListing(listing, remote)
    ensures var diff := Identify(listing, fs, explicit, user);
            && (forall k :: k in KeysIn(diff.remoteOnly) <==>
                  Visible(k, remote, fs, explicit, user) && k !in fs.files)
            && (forall k :: k in KeysIn(diff.conflicts) <==>
                  Visible(k, remote, fs, explicit, user) && k in fs.files && fs.files[k].checksum != remote[k])
  {
    hide FilterJsonChecksums, Visible, Conflicts, Ignore.Select, FilterJsonAssets, PlanConvergence.IsListing;
    var kept := FilterJsonChecksums(listing, fs.filters, explicit, {}, user);
    RemoteSide(listing, remote, fs, explicit, user);
    ConflictsMeaning(kept, fs.files);
    SelectMembers(kept, ChecksumKey, k => k !in fs.files);
  }

  lemma LocalList(listing: seq<Checksum>, remote: map<string, string>, fs: Fs, explicit: Ignore.Filters,
                  user: UserRegex)
    requires PlanConvergence.IsListing(listing, remote) && Plans.WellKeyed(fs.files)
    ensures forall k :: k in KeysIn(Identify(listing, fs, explicit, user).localOnly) <==>
              LocalJson(k, fs, explicit, user) && !Visible(k, remote, fs, explicit, user)
  {
    hide FilterJsonChecksums, Visible, Conflicts, Ignore.Select, FilterJsonAssets, PlanConvergence.IsListing, Keys,
         Ignore.Admits, Plans.Values, Plans.ByKey, IsJson;
    var kept := FilterJsonChecksums(listing, fs.filters, explicit, {}, user);
    var byKey := Plans.ByKey(kept);
    var local := FilterJsonAssets(Plans.Values(fs.files), explicit, user);
    var only := Ignore.Select(local, AssetKey, k => k !in byKey);
    RemoteSide(listing, remote, fs, explicit, user);
    JsonAssets(fs.files, explicit, user);
    SelectKeys(local, AssetKey, k => k !in byKey);
    SummariesKeys(only);
  }

  lemma SummariesKeys(assets: seq<Asset>)
    ensures KeysIn(Summaries(assets)) == Keys(assets, AssetKey)
  {
    var list := Summaries(assets);
    KeysInKeys(list);
    assert forall i :: 0 <= i < |list| ==> ChecksumKey(list[i]) == AssetKey(assets[i]);
  }

  /** A shared key disagrees. */
  predicate Disagrees(key: string, remote: map<string, string>, fs: Fs) {
    || (key in remote && key !in fs.files)
    || (key !in remote && key in fs.files)
    || (key in remote && key in fs.files && fs.files[key].checksum != remote[key])
  }

  /** The lists have no key in common, and a shared key is in one of them exactly
      when the two sides disagree about it. */
  lemma ListsPartition(listing: seq<Checksum>, remote: map<string, string>, fs: Fs, explicit: Ignore.Filters,
                       user: UserRegex, key: string)
    requires PlanConvergence.IsListing(listing, remote) && Plans.WellKeyed(fs.files)
    ensures var diff := Identify(listing, fs, explicit, user);
            && KeysIn(diff.localOnly) !! KeysIn(diff.remoteOnly)
            && KeysIn(diff.localOnly) !! KeysIn(diff.conflicts)
            && KeysIn(diff.remoteOnly) !! KeysIn(diff.conflicts)
            && (Shared(key, fs.filters, explicit, {}, user) ==>
                  (Disagrees(key, remote, fs) <==>
                   key in KeysIn(diff.localOnly) + KeysIn(diff.remoteOnly) + KeysIn(diff.conflicts)))
  {
    hide Identify, KeysIn, Ignore.Admits, IsJson, PlanConvergence.IsListing;
    IdentifyMeaning(listing, remote, fs, explicit, user);
  }

  /* ---------- the plan ---------- */

  datatype Choices = Choices(nodelete: bool, localOnly: Option<Choice>, remoteOnly: Option<Choice>,
                             conflicts: Option<Choice>)

  /** A choice is missing for a list that needs one. */
  predicate Unanswered(diff: Diff, choices: Choices) {
    || (!choices.nodelete && diff.localOnly != [] && choices.localOnly.None?)
    || (diff.remoteOnly != [] && choices.remoteOnly.None?)
    || (diff.conflicts != [] && choices.conflicts.None?)
  }

  /** No plan exactly when a needed choice is missing; otherwise every key goes
      where the choice for its list sends it. */
  method BuildPlan(diff: Diff, choices: Choices) returns (plan: Option<Plan>)
    ensures plan == Build(diff, choices)
  {
    hide Plans.KeysOf;
    NoKeys();
    var localDelete, download, remoteDelete := [], [], [];
    if !choices.nodelete && diff.localOnly != [] {
      if choices.localOnly.None? { return None; }
      if choices.localOnly.value.TakeRemote? { localDelete := Plans.KeysOf(diff.localOnly); }
    }
    if diff.remoteOnly != [] {
      if choices.remoteOnly.None? { return None; }
      if choices.remoteOnly.value.TakeRemote? { download := Plans.KeysOf(diff.remoteOnly); }
      else { remoteDelete := Plans.KeysOf(diff.remoteOnly); }
    }
    if diff.conflicts != [] {
      if choices.conflicts.None? { return None; }
      if choices.conflicts.value.TakeRemote? { download := download + Plans.KeysOf(diff.conflicts); }
    }
    assert download == KeysWhen(diff.remoteOnly, choices.remoteOnly == Some(TakeRemote))
                       + KeysWhen(diff.conflicts, choices.conflicts == Some(TakeRemote));
    return Some(Plan(localDelete, download, remoteDelete));
  }

  lemma NoKeys()
    ensures Plans.KeysOf([]) == []
  {}

  function KeysWhen(list: seq<Checksum>, wanted: bool): seq<string> {
    if wanted then Plans.KeysOf(list) else []
  }

  function Build(diff: Diff, choices: Choices): Option<Plan> {
    if Unanswered(diff, choices) then None
    else
      Some(Plan(KeysWhen(diff.localOnly, !choices.nodelete && choices.localOnly == Some(TakeRemote)),
                KeysWhen(diff.remoteOnly, choices.remoteOnly == Some(TakeRemote))
                + KeysWhen(diff.conflicts, choices.conflicts == Some(TakeRemote)),
                KeysWhen(diff.remoteOnly, choices.remoteOnly == Some(TakeLocal))))
  }

  function AsSet(keys: seq<string>): set<string> { set k | k in keys }

  lemma AsSetIs(keys: seq<string>)
    ensures AsSet(keys) == set k | k in keys
  {}

  lemma BuildMeaning(diff: Diff, choices: Choices)
    requires Build(diff, choices).Some?
    ensures var plan := Build(diff, choices).value;
            && AsSet(plan.localDelete) == (if !choices.nodelete && choices.localOnly == Some(TakeRemote)
                                           then KeysIn(diff.localOnly) else {})
            && AsSet(plan.download) == (if choices.remoteOnly == Some(TakeRemote) then KeysIn(diff.remoteOnly) else {})
                                       + (if choices.conflicts == Some(TakeRemote) then KeysIn(diff.conflicts) else {})
            && AsSet(plan.remoteDelete) == (if choices.remoteOnly == Some(TakeLocal) then KeysIn(diff.remoteOnly) else {})
  {
    KeysOfSet(diff.localOnly);
    KeysOfSet(diff.remoteOnly);
    KeysOfSet(diff.conflicts);
  }

  lemma KeysOfSet(list: seq<Checksum>)
    ensures AsSet(Plans.KeysOf(list)) == KeysIn(list)
  {
    var keys := Plans.KeysOf(list);
    forall k | k in KeysIn(list) ensures k in keys {
      var c :| c in list && c.key == k;
      var i :| 0 <= i < |list| && list[i] == c;
      assert keys[i] == k;
    }
  }

  /* ---------- applying it ---------- */

  /** The contents on a remote theme, and its listing. */
  function Sums(remote: map<string, string>, digest: Plans.Digest): map<string, string> {
    map k | k in remote :: digest(k, remote[k])
  }

  /** An honest answer: every requested file with its content, and no other. */
  ghost predicate Honest(got: seq<Asset>, remote: map<string, string>, keys: seq<string>, codec: Codec) {
    && AssetKeys(got) == AsSet(keys)
    && forall a :: a in got ==> a.key in remote && ContentOf(a, codec) == Some(remote[a.key])
  }

  /** Every answered download was honest. */
  ghost predicate HonestCalls(calls: seq<Call>, remote: map<string, string>, codec: Codec) {
    forall c :: c in calls && c.Fetch? && c.assets.Some? ==> Honest(c.assets.value, remote, c.keys, codec)
  }

  /** Honest answers, batch by batch, are an honest answer about all the keys. */
  lemma {:induction false} FetchedHonestly(calls: seq<Call>, keys: seq<string>, got: seq<Asset>,
                                           remote: map<string, string>, codec: Codec)
    requires Fetched(calls, keys, got) && HonestCalls(calls, remote, codec)
    ensures Honest(got, remote, keys, codec)
  {
    hide ContentOf;
    if calls != [] {
      var front, last := calls[..|calls| - 1], calls[|calls| - 1];
      assert last in calls && forall c :: c in front ==> c in calls;
      FetchedHonestly(front, Requested(front), Received(front), remote, codec);
      HonestTogether(Received(front), last.assets.value, remote, Requested(front), last.keys, codec);
    }
  }

  lemma HonestTogether(a: seq<Asset>, b: seq<Asset>, remote: map<string, string>, k: seq<string>, l: seq<string>,
                       codec: Codec)
    requires Honest(a, remote, k, codec) && Honest(b, remote, l, codec)
    ensures Honest(a + b, remote, k + l, codec)
  {
    assert AssetKeys(a + b) == AssetKeys(a) + AssetKeys(b);
    assert AsSet(k + l) == AsSet(k) + AsSet(l);
  }

  /** The local theme after the local steps of a plan, when all succeed. */
  function Applied(fs: Fs, plan: Plan, got: seq<Asset>, codec: Codec): Option<Fs> {
    match DeleteAll(fs, plan.localDelete)
    case None => None
    case Some(kept) => WriteAll(kept, got, codec)
  }

  /** The files remembered after the local steps, key by key. */
  lemma AppliedMeaning(fs: Fs, plan: Plan, got: seq<Asset>, remote: map<string, string>, codec: Codec)
    requires Honest(got, remote, plan.download, codec) && Applied(fs, plan, got, codec).Some?
    requires Plans.WellKeyed(fs.files)
    ensures var after := Applied(fs, plan, got, codec).value;
            && after.filters == fs.filters && Plans.WellKeyed(after.files)
            && after.files.Keys == fs.files.Keys - AsSet(plan.localDelete) + AsSet(plan.download)
            && (forall k :: k in after.files && k in AsSet(plan.download) ==>
                  k in remote && after.files[k].checksum == codec.digest(k, remote[k]))
            && (forall k :: k in after.files && k !in AsSet(plan.download) ==>
                  k in fs.files && after.files[k] == fs.files[k])
  {
    hide WriteAll, DeleteAll, ContentOf, AsSet;
    DeleteAllEffect(fs, plan.localDelete);
    AsSetIs(plan.localDelete);
    var kept := DeleteAll(fs, plan.localDelete).value;
    WriteAllTouches(kept, got, codec);
    var after := WriteAll(kept, got, codec).value;
    forall k | k in after.files && k in AsSet(plan.download)
      ensures k in remote && after.files[k].checksum == codec.digest(k, remote[k]) && after.files[k].key == k
    {
      WriteAllRemembers(kept, got, codec, k);
    }
    forall k | k in after.files && k !in AsSet(plan.download) ensures k in fs.files && after.files[k] == fs.files[k] {
      assert k in after.files - AssetKeys(got);
      assert (after.files - AssetKeys(got))[k] == after.files[k];
    }
  }

  /** The remote after the plan's deletions. */
  function RemoteAfter(remote: map<string, string>, plan: Plan): map<string, string> {
    remote - AsSet(plan.remoteDelete)
  }

  /** Reconciling again after a plan was applied with an honest remote finds no
      remote-only file, and finds exactly the local-only files and the conflicts
      that were left to the local side. */
  lemma ReconciledAgain(listing: seq<Checksum>, again: seq<Checksum>, remote: map<string, string>, fs: Fs,
                        explicit: Ignore.Filters, choices: Choices, got: seq<Asset>, codec: Codec, user: UserRegex)
    requires Plans.WellKeyed(fs.files)
    requires PlanConvergence.IsListing(listing, Sums(remote, codec.digest))
    requires Build(Identify(listing, fs, explicit, user), choices).Some?
    requires Honest(got, remote, Build(Identify(listing, fs, explicit, user), choices).value.download, codec)
    requires Applied(fs, Build(Identify(listing, fs, explicit, user), choices).value, got, codec).Some?
    requires PlanConvergence.IsListing(again, Sums(RemoteAfter(remote,
               Build(Identify(listing, fs, explicit, user), choices).value), codec.digest))
    ensures var diff := Identify(listing, fs, explicit, user);
            var after := Applied(fs, Build(diff, choices).value, got, codec).value;
            var left := Identify(again, after, explicit, user);
            && left.remoteOnly == []
            && KeysIn(left.conflicts) == (if choices.conflicts == Some(TakeRemote) then {} else KeysIn(diff.conflicts))
            && KeysIn(left.localOnly) == (if !choices.nodelete && choices.localOnly == Some(TakeRemote) then {}
                                          else KeysIn(diff.localOnly))
  {
    hide *;
    var diff := Identify(listing, fs, explicit, user);
    var plan := Build(diff, choices).value;
    var after := Applied(fs, plan, got, codec).value;
    var left := Identify(again, after, explicit, user);
    var sums := Sums(remote, codec.digest);
    var sumsAfter := Sums(RemoteAfter(remote, plan), codec.digest);
    AppliedMeaning(fs, plan, got, remote, codec);
    IdentifyMeaning(again, sumsAfter, after, explicit, user);
    IdentifyMeaning(listing, sums, fs, explicit, user);
    forall k ensures k !in KeysIn(left.remoteOnly) {
      FactsHold(k, diff, remote, fs, choices, plan, got, codec, explicit, user);
      NotRemoteOnly(k, diff, choices, plan, fs, after, sums, sumsAfter, explicit, user);
    }
    NoneIn(left.remoteOnly);
    forall k ensures k in KeysIn(left.conflicts) <==>
                       k in KeysIn(diff.conflicts) && choices.conflicts != Some(TakeRemote)
    {
      FactsHold(k, diff, remote, fs, choices, plan, got, codec, explicit, user);
      StillConflict(k, diff, choices, plan, fs, after, sums, sumsAfter, explicit, user);
    }
    forall k ensures k in KeysIn(left.localOnly) <==>
                       k in KeysIn(diff.localOnly) && (choices.nodelete || choices.localOnly != Some(TakeRemote))
    {
      FactsHold(k, diff, remote, fs, choices, plan, got, codec, explicit, user);
      StillLocalOnly(k, diff, choices, plan, fs, after, sums, sumsAfter, explicit, user);
    }
  }

  lemma FactsHold(k: string, diff: Diff, remote: map<string, string>, fs: Fs, choices: Choices, plan: Plan,
                  got: seq<Asset>, codec: Codec, explicit: Ignore.Filters, user: UserRegex)
    requires Plans.WellKeyed(fs.files) && Build(diff, choices) == Some(plan)
    requires Honest(got, remote, plan.download, codec) && Applied(fs, plan, got, codec).Some?
    requires forall x :: x in KeysIn(diff.remoteOnly) <==>
                           Visible(x, Sums(remote, codec.digest), fs, explicit, user) && x !in fs.files
    requires forall x :: x in KeysIn(diff.conflicts) <==>
                           && Visible(x, Sums(remote, codec.digest), fs, explicit, user) && x in fs.files
                           && fs.files[x].checksum != Sums(remote, codec.digest)[x]
    requires forall x :: x in KeysIn(diff.localOnly) <==>
                           && LocalJson(x, fs, explicit, user)
                           && !Visible(x, Sums(remote, codec.digest), fs, explicit, user)
    ensures KeyFacts(k, diff, choices, plan, fs, Applied(fs, plan, got, codec).value, Sums(remote, codec.digest),
                     Sums(RemoteAfter(remote, plan), codec.digest), explicit, user)
  {
    hide Build, Applied, Honest, Sums, RemoteAfter, KeysIn, AsSet, Visible, LocalJson, Plans.WellKeyed;
    BuildMeaning(diff, choices);
    NeededChoices(diff, choices);
    AppliedMeaning(fs, plan, got, remote, codec);
    SumsAfter(remote, plan, codec.digest);
  }

  lemma NoneIn(list: seq<Checksum>)
    ensures list == [] || list[0].key in KeysIn(list)
  {}

  lemma SumsAfter(remote: map<string, string>, plan: Plan, digest: Plans.Digest)
    ensures forall k :: k in Sums(RemoteAfter(remote, plan), digest) <==> k in remote && k !in AsSet(plan.remoteDelete)
    ensures forall k :: k in Sums(RemoteAfter(remote, plan), digest) ==>
              k in Sums(remote, digest) && Sums(RemoteAfter(remote, plan), digest)[k] == Sums(remote, digest)[k]
    ensures forall k :: k in Sums(remote, digest) <==> k in remote
    ensures forall k :: k in remote ==> Sums(remote, digest)[k] == digest(k, remote[k])
  {
    hide AsSet;
  }

  /** What is known of one key before and after a plan was applied. */
  ghost predicate KeyFacts(k: string, diff: Diff, choices: Choices, plan: Plan, fs: Fs, after: Fs,
                           sums: map<string, string>, sumsAfter: map<string, string>, explicit: Ignore.Filters,
                           user: UserRegex)
  {
    var local, fetched, gone := AsSet(plan.localDelete), AsSet(plan.download), AsSet(plan.remoteDelete);
    var takeRemote, takeLocal := Some(TakeRemote), Some(TakeLocal);
    && after.filters == fs.filters
    && (k in KeysIn(diff.remoteOnly) <==> Visible(k, sums, fs, explicit, user) && k !in fs.files)
    && (k in KeysIn(diff.conflicts) <==>
          Visible(k, sums, fs, explicit, user) && k in fs.files && fs.files[k].checksum != sums[k])
    && (k in KeysIn(diff.localOnly) <==> LocalJson(k, fs, explicit, user) && !Visible(k, sums, fs, explicit, user))
    && (k in local <==> !choices.nodelete && choices.localOnly == takeRemote && k in KeysIn(diff.localOnly))
    && (k in fetched <==>
          (|| (choices.remoteOnly == takeRemote && k in KeysIn(diff.remoteOnly))
           || (choices.conflicts == takeRemote && k in KeysIn(diff.conflicts))))
    && (k in gone <==> choices.remoteOnly == takeLocal && k in KeysIn(diff.remoteOnly))
    && (k in KeysIn(diff.remoteOnly) ==> choices.remoteOnly == takeRemote || choices.remoteOnly == takeLocal)
    && (k in after.files <==> (k in fs.files && k !in local) || k in fetched)
    && (k in sumsAfter <==> k in sums && k !in gone)
    && (k in sumsAfter ==> sumsAfter[k] == sums[k])
    && (k in after.files && k in fetched ==> k in sums && after.files[k].checksum == sums[k])
    && (k in after.files && k !in fetched ==> k in fs.files && after.files[k] == fs.files[k])
  }

  lemma NotRemoteOnly(k: string, diff: Diff, choices: Choices, plan: Plan, fs: Fs, after: Fs, sums: map<string, string>,
                      sumsAfter: map<string, string>, explicit: Ignore.Filters, user: UserRegex)
    requires KeyFacts(k, diff, choices, plan, fs, after, sums, sumsAfter, explicit, user)
    ensures !(Visible(k, sumsAfter, after, explicit, user) && k !in after.files)
  {
    hide KeysIn, AsSet, Ignore.Admits, IsJson;
  }

  lemma StillConflict(k: string, diff: Diff, choices: Choices, plan: Plan, fs: Fs, after: Fs, sums: map<string, string>,
                      sumsAfter: map<string, string>, explicit: Ignore.Filters, user: UserRegex)
    requires KeyFacts(k, diff, choices, plan, fs, after, sums, sumsAfter, explicit, user)
    ensures Visible(k, sumsAfter, after, explicit, user) && k in after.files && after.files[k].checksum != sumsAfter[k]
            <==> k in KeysIn(diff.conflicts) && choices.conflicts != Some(TakeRemote)
  {
    hide KeysIn, AsSet, Ignore.Admits, IsJson;
  }

  lemma StillLocalOnly(k: string, diff: Diff, choices: Choices, plan: Plan, fs: Fs, after: Fs,
                       sums: map<string, string>, sumsAfter: map<string, string>, explicit: Ignore.Filters,
                       user: UserRegex)
    requires KeyFacts(k, diff, choices, plan, fs, after, sums, sumsAfter, explicit, user)
    ensures LocalJson(k, after, explicit, user) && !Visible(k, sumsAfter, after, explicit, user)
            <==> k in KeysIn(diff.localOnly) && (choices.nodelete || choices.localOnly != Some(TakeRemote))
  {
    hide KeysIn, AsSet, Ignore.Admits, IsJson;
  }

  lemma NoKeysIn()
    ensures KeysIn([]) == {}
  {}

  lemma NeededChoices(diff: Diff, choices: Choices)
    requires Build(diff, choices).Some?
    ensures forall k :: k in KeysIn(diff.remoteOnly) ==>
              choices.remoteOnly == Some(TakeRemote) || choices.remoteOnly == Some(TakeLocal)
  {
    hide KeysIn;
    if choices.remoteOnly.Some? {
      assert choices.remoteOnly.value.TakeRemote? || choices.remoteOnly.value.TakeLocal?;
    } else {
      assert diff.remoteOnly == [];
      NoKeysIn();
    }
  }
}
