/** Carrying out a plan settles the theme: a pull always, a push exactly under a
    condition that can be read off the two sides before it. */
module PlanConvergence {
  import opened Text
  import opened Theme
  import opened Ignore
  import opened Order
  import opened Plans
  import opened FilterAlgebra

  /** What the planner sees of a remote theme. */
  ghost function View(remote: map<string, string>, mounted: Filters, explicit: Filters, user: UserRegex)
    : map<string, string>
  {
    map k | k in remote && !Shadowed(k, remote.Keys) && Admits(k, mounted, user) && Admits(k, explicit, user)
      :: remote[k]
  }

  /** What the planner sees of the local files. */
  ghost function LocalView(local: LocalTheme, options: Options, user: UserRegex): map<string, Asset> {
    map k | k in local.files && Admits(k, options.filters, user) :: local.files[k]
  }

  /** A listing names every file of the remote once, in any order. */
  ghost predicate IsListing(listing: seq<Checksum>, remote: map<string, string>) {
    && Distinct(listing, ChecksumKey)
    && Keys(listing, ChecksumKey) == remote.Keys
    && forall i :: 0 <= i < |listing| ==> remote[listing[i].key] == listing[i].checksum
  }

  lemma ListingKeys(listing: seq<Checksum>, remote: map<string, string>)
    requires IsListing(listing, remote)
    ensures Keys(listing, ChecksumKey) == remote.Keys
  {}

  /* ---------- lists and maps ---------- */

  lemma {:induction false} CollectKeys<T, V>(items: seq<T>, key: T -> string, value: T -> V)
    ensures Collect(items, key, value).Keys == Keys(items, key)
    decreases |items|
  {
    if items != [] {
      var front, last := items[..|items| - 1], items[|items| - 1];
      CollectKeys(front, key, value);
      KeysAppend(front, [last], key);
      assert items == front + [last];
      assert [last][0] == last && Keys([last], key) == {key(last)};
    }
  }

  lemma {:induction false} CollectValues<T, V>(items: seq<T>, key: T -> string, value: T -> V)
    requires Distinct(items, key)
    ensures forall i :: 0 <= i < |items| ==>
              key(items[i]) in Collect(items, key, value)
              && Collect(items, key, value)[key(items[i])] == value(items[i])
    decreases |items|
  {
    if items != [] {
      var front := items[..|items| - 1];
      assert forall i :: 0 <= i < |front| ==> front[i] == items[i];
      CollectValues(front, key, value);
    }
  }

  /** An entry of a collected map is the value of an item with that key. */
  lemma Collected<T, V>(items: seq<T>, key: T -> string, value: T -> V, k: string) returns (item: T)
    requires Distinct(items, key) && k in Keys(items, key)
    ensures item in items && key(item) == k
    ensures k in Collect(items, key, value) && Collect(items, key, value)[k] == value(item)
  {
    hide Collect;
    CollectValues(items, key, value);
    var i :| 0 <= i < |items| && key(items[i]) == k;
    item := items[i];
  }

  lemma ShadowedByLiquid(key: string, listing: seq<Checksum>)
    ensures Shadowed(key, LiquidAssets(listing)) <==> Shadowed(key, ListedKeys(listing))
  {
    if StartsWith(key, "assets/") {
      var source := key + ".liquid";
      assert source[..7] == key[..7];
      assert source[|source| - 7..] == ".liquid";
    }
  }

  /** The checksums a plan compares with are the view of the remote. */
  lemma FilteredIsView(listing: seq<Checksum>, remote: map<string, string>, mounted: Filters, explicit: Filters,
                       user: UserRegex)
    requires IsListing(listing, remote)
    ensures ByKey(FilteredChecksums(listing, mounted, explicit, user)) == View(remote, mounted, explicit, user)
  {
    hide Apply, Admits, Shadowed, Collect, Keys, RejectGenerated, FilteredChecksums;
    var all := FilteredChecksums(listing, mounted, explicit, user);
    FilteredKeys(listing, mounted, explicit, user);
    CollectKeys(all, ChecksumKey, ChecksumValue);
    var view := View(remote, mounted, explicit, user);
    assert ByKey(all).Keys == view.Keys;
    forall k | k in view ensures ByKey(all)[k] == view[k] {
      var item := Collected(all, ChecksumKey, ChecksumValue, k);
      FromListing(item, listing, remote);
    }
  }

  /** The keys that survive all three filters of a listing. */
  lemma FilteredKeys(listing: seq<Checksum>, mounted: Filters, explicit: Filters, user: UserRegex)
    ensures var all := FilteredChecksums(listing, mounted, explicit, user);
            && Distinct(all, ChecksumKey)
            && (forall x :: x in all ==> x in listing)
            && Keys(all, ChecksumKey) == set k | k in Keys(listing, ChecksumKey)
                 && !Shadowed(k, Keys(listing, ChecksumKey)) && Admits(k, mounted, user) && Admits(k, explicit, user)
  {
    hide Apply, Admits, Shadowed, Keys, LiquidAssets, Select;
    var open := RejectGenerated(listing);
    var some := Apply(open, ChecksumKey, mounted, user);
    var keep := k => !Shadowed(k, LiquidAssets(listing));
    SelectKeys(listing, ChecksumKey, keep);
    SelectMembers(listing, ChecksumKey, keep);
    FilterKeepsAdmitted(open, ChecksumKey, mounted, user);
    FilterKeepsAdmitted(some, ChecksumKey, explicit, user);
    forall k ensures keep(k) <==> !Shadowed(k, Keys(listing, ChecksumKey)) {
      ShadowedByLiquid(k, listing);
      ListedAreKeys(listing);
    }
  }

  lemma ListedAreKeys(listing: seq<Checksum>)
    ensures Keys(listing, ChecksumKey) == ListedKeys(listing)
  {}

  lemma FromListing(item: Checksum, listing: seq<Checksum>, remote: map<string, string>)
    requires IsListing(listing, remote) && item in listing
    ensures item.key in remote && remote[item.key] == item.checksum
  {
    var i :| 0 <= i < |listing| && listing[i] == item;
    assert ChecksumKey(listing[i]) in Keys(listing, ChecksumKey);
  }

  lemma ValuesDistinct(files: map<string, Asset>)
    requires WellKeyed(files)
    ensures Distinct(Values(files), AssetKey) && Keys(Values(files), AssetKey) == files.Keys
    ensures forall a :: a in Values(files) ==> a.key in files && files[a.key] == a
  {
    hide Sorted, Le, ValuesAt;
    var keys, values := Sorted(files.Keys), Values(files);
    SortedIsSorted(files.Keys);
    forall i | 0 <= i < |values| ensures AssetKey(values[i]) == keys[i] && values[i] == files[keys[i]] {
      assert keys[i] in keys;
    }
    ValuesKeys(values, keys);
    assert forall k :: k in keys <==> k in files.Keys;
  }

  lemma ValuesKeys(values: seq<Asset>, keys: seq<string>)
    requires |values| == |keys| && forall i :: 0 <= i < |values| ==> AssetKey(values[i]) == keys[i]
    ensures forall k :: k in Keys(values, AssetKey) <==> k in keys
  {
    forall k | k in keys ensures k in Keys(values, AssetKey) {
      var i :| 0 <= i < |keys| && keys[i] == k;
      assert AssetKey(values[i]) == k;
    }
  }

  lemma LocalFilesIsView(local: LocalTheme, options: Options, user: UserRegex)
    requires WellKeyed(local.files)
    ensures LocalFiles(local, options, user) == LocalView(local, options, user)
  {
    hide Apply, Admits, Values, Collect, Keys;
    var values := Values(local.files);
    var kept := Apply(values, AssetKey, options.filters, user);
    ValuesDistinct(local.files);
    FilterKeepsAdmitted(values, AssetKey, options.filters, user);
    CollectKeys(kept, AssetKey, Itself);
    var view := LocalView(local, options, user);
    forall k | k in view ensures LocalFiles(local, options, user)[k] == view[k] {
      var item := Collected(kept, AssetKey, Itself, k);
      assert item in values;
    }
  }

  /* ---------- pulling ---------- */

  /** A listed file differs from the local one, or there is none. */
  predicate IsStale(item: Checksum, files: map<string, Asset>) {
    !(item.key in files && files[item.key].checksum == item.checksum)
  }

  /** Exactly the keys of the files that differ. */
  lemma {:induction false} StaleMeaning(remote: seq<Checksum>, files: map<string, Asset>)
    ensures forall k :: k in StaleKeys(remote, files) <==> exists c :: c in remote && c.key == k && IsStale(c, files)
    decreases |remote|
  {
    hide IsStale;
    if remote != [] {
      var head, tail := remote[0], remote[1..];
      StaleMeaning(tail, files);
      StaleStep(remote, files);
      assert remote == [head] + tail;
      forall k ensures k in StaleKeys(remote, files) <==> exists c :: c in remote && c.key == k && IsStale(c, files) {
        if c :| c in remote && c.key == k && IsStale(c, files) { assert c == head || c in tail; }
      }
    }
  }

  lemma StaleStep(remote: seq<Checksum>, files: map<string, Asset>)
    requires remote != []
    ensures StaleKeys(remote, files) ==
            (if IsStale(remote[0], files) then [remote[0].key] else []) + StaleKeys(remote[1..], files)
  {}

  lemma {:induction false} NothingStale(remote: seq<Checksum>, files: map<string, Asset>)
    requires forall i :: 0 <= i < |remote| ==>
               remote[i].key in files && files[remote[i].key].checksum == remote[i].checksum
    ensures StaleKeys(remote, files) == []
    decreases |remote|
  {
    if remote != [] {
      assert forall i :: 0 <= i < |remote[1..]| ==> remote[1..][i] == remote[i + 1];
      NothingStale(remote[1..], files);
    }
  }

  /** The files fetched for a plan: under every planned key, a file with the
      checksum that the listing gives it. */
  ghost predicate Fetched(fetched: map<string, Asset>, local: LocalTheme, listing: seq<Checksum>, options: Options,
                          user: UserRegex)
  {
    var remote := FilteredChecksums(listing, local.filters, options.filters, user);
    && (forall k :: k in fetched <==> k in StaleKeys(remote, local.files))
    && forall i :: 0 <= i < |remote| && remote[i].key in fetched ==>
         fetched[remote[i].key].checksum == remote[i].checksum
  }

  ghost function AfterPull(local: LocalTheme, plan: PullPlan, fetched: map<string, Asset>): LocalTheme {
    local.(files := (local.files + fetched) - (set k | k in plan.delete))
  }

  /** A pull always settles: planning again with the same listing, whatever
      it lists, finds nothing to download or delete. */
  lemma PullSettles(local: LocalTheme, listing: seq<Checksum>, options: Options, user: UserRegex,
                    fetched: map<string, Asset>)
    requires Fetched(fetched, local, listing, options, user)
    ensures var after := AfterPull(local, PlanPull(local, listing, options, user), fetched);
            PlanPull(after, listing, options, user) == PullPlan([], [])
  {
    hide Apply, Admits, ByKey, StaleKeys, FilteredChecksums, Sorted;
    var remote := FilteredChecksums(listing, local.filters, options.filters, user);
    var after := AfterPull(local, PlanPull(local, listing, options, user), fetched);
    AllPulled(local, listing, options, user, fetched);
    NothingStale(remote, after.files);
    var kept := Apply(Sorted(after.files.Keys), Identity, options.filters, user);
    if !options.nodelete {
      NothingExtra(local, listing, options, user, fetched);
      SelectEmpty(kept, Identity, k => k !in ByKey(remote));
    }
  }

  /** What a pull downloads and deletes, key by key. */
  lemma PullMeaning(local: LocalTheme, listing: seq<Checksum>, remote: map<string, string>, options: Options,
                    user: UserRegex)
    requires IsListing(listing, remote)
    ensures var plan := PlanPull(local, listing, options, user);
            var v := View(remote, local.filters, options.filters, user);
            && (forall k :: k in plan.download <==>
                  k in v && !(k in local.files && local.files[k].checksum == v[k]))
            && (forall k :: k in plan.delete <==>
                  !options.nodelete && k in local.files && Admits(k, options.filters, user) && k !in v)
  {
    hide Apply, Admits, StaleKeys, FilteredChecksums, Sorted, Collect, Select, View, IsListing;
    var all := FilteredChecksums(listing, local.filters, options.filters, user);
    var v := View(remote, local.filters, options.filters, user);
    FilteredIsView(listing, remote, local.filters, options.filters, user);
    DeletedByPull(local, listing, options, user);
    StaleMeaning(all, local.files);
    FilteredKeys(listing, local.filters, options.filters, user);
    CollectKeys(all, ChecksumKey, ChecksumValue);
    forall k ensures k in PlanPull(local, listing, options, user).download <==>
                     k in v && !(k in local.files && local.files[k].checksum == v[k])
    {
      StaleInView(all, listing, remote, v, local.files, k);
    }
  }

  lemma StaleInView(all: seq<Checksum>, listing: seq<Checksum>, remote: map<string, string>, v: map<string, string>,
                    files: map<string, Asset>, k: string)
    requires ByKey(all) == v && Distinct(all, ChecksumKey)
    ensures k in StaleKeys(all, files) <==> k in v && !(k in files && files[k].checksum == v[k])
  {
    hide Collect, StaleKeys;
    StaleMeaning(all, files);
    CollectKeys(all, ChecksumKey, ChecksumValue);
    if k in v {
      var item := Collected(all, ChecksumKey, ChecksumValue, k);
      forall c | c in all && c.key == k ensures c == item { SameKeyed(all, c, item); }
    } else {
      forall c | c in all ensures c.key in v { KeyOf(all, c); }
    }
  }

  lemma SameKeyed(all: seq<Checksum>, a: Checksum, b: Checksum)
    requires Distinct(all, ChecksumKey) && a in all && b in all && a.key == b.key
    ensures a == b
  {
    var i :| 0 <= i < |all| && all[i] == a;
    var j :| 0 <= j < |all| && all[j] == b;
  }

  lemma KeyOf(all: seq<Checksum>, c: Checksum)
    requires c in all
    ensures c.key in Keys(all, ChecksumKey)
  {
    var i :| 0 <= i < |all| && all[i] == c;
    assert ChecksumKey(all[i]) == c.key;
  }

  lemma AllPulled(local: LocalTheme, listing: seq<Checksum>, options: Options, user: UserRegex,
                  fetched: map<string, Asset>)
    requires Fetched(fetched, local, listing, options, user)
    ensures var remote := FilteredChecksums(listing, local.filters, options.filters, user);
            var after := AfterPull(local, PlanPull(local, listing, options, user), fetched);
            forall i :: 0 <= i < |remote| ==>
              remote[i].key in after.files && after.files[remote[i].key].checksum == remote[i].checksum
  {
    hide Apply, Admits, StaleKeys, FilteredChecksums, Sorted, Collect, PlanPull;
    var remote := FilteredChecksums(listing, local.filters, options.filters, user);
    var after := AfterPull(local, PlanPull(local, listing, options, user), fetched);
    StaleMeaning(remote, local.files);
    DeletedByPull(local, listing, options, user);
    CollectKeys(remote, ChecksumKey, ChecksumValue);
    forall i | 0 <= i < |remote|
      ensures remote[i].key in after.files && after.files[remote[i].key].checksum == remote[i].checksum
    {
      assert ChecksumKey(remote[i]) in Keys(remote, ChecksumKey);
    }
  }

  lemma NothingExtra(local: LocalTheme, listing: seq<Checksum>, options: Options, user: UserRegex,
                     fetched: map<string, Asset>)
    requires Fetched(fetched, local, listing, options, user) && !options.nodelete
    ensures var remote := FilteredChecksums(listing, local.filters, options.filters, user);
            var after := AfterPull(local, PlanPull(local, listing, options, user), fetched);
            forall k :: k in Apply(Sorted(after.files.Keys), Identity, options.filters, user) ==> k in ByKey(remote)
  {
    hide Apply, Admits, StaleKeys, FilteredChecksums, Sorted, Collect, PlanPull;
    var remote := FilteredChecksums(listing, local.filters, options.filters, user);
    var after := AfterPull(local, PlanPull(local, listing, options, user), fetched);
    StaleMeaning(remote, local.files);
    DeletedByPull(local, listing, options, user);
    CollectKeys(remote, ChecksumKey, ChecksumValue);
    LocalKeysAdmitted(after, options, user);
    forall k | k in after.files && Admits(k, options.filters, user) ensures k in ByKey(remote) {
      if k in fetched {
        var i :| 0 <= i < |remote| && remote[i].key == k;
        assert ChecksumKey(remote[i]) in Keys(remote, ChecksumKey);
      }
    }
  }

  lemma LocalKeysAdmitted(local: LocalTheme, options: Options, user: UserRegex)
    ensures var kept := Apply(Sorted(local.files.Keys), Identity, options.filters, user);
            forall k :: k in kept <==> k in local.files && Admits(k, options.filters, user)
  {
    hide Apply, Admits;
    var keys := Sorted(local.files.Keys);
    var kept := Apply(keys, Identity, options.filters, user);
    FilterKeepsAdmitted(keys, Identity, options.filters, user);
    KeysAreMembers(keys);
    KeysAreMembers(kept);
  }

  lemma KeysAreMembers(keys: seq<string>)
    ensures forall k :: k in Keys(keys, Identity) <==> k in keys
  {
    forall k | k in keys ensures k in Keys(keys, Identity) {
      var i :| 0 <= i < |keys| && keys[i] == k;
      assert Identity(keys[i]) == k;
    }
  }

  lemma DeletedByPull(local: LocalTheme, listing: seq<Checksum>, options: Options, user: UserRegex)
    ensures var byKey := ByKey(FilteredChecksums(listing, local.filters, options.filters, user));
            forall k :: k in PlanPull(local, listing, options, user).delete <==>
              !options.nodelete && k in local.files && Admits(k, options.filters, user) && k !in byKey
  {
    hide Apply, Admits, Collect, FilteredChecksums, Sorted, StaleKeys;
    var byKey := ByKey(FilteredChecksums(listing, local.filters, options.filters, user));
    LocalKeysAdmitted(local, options, user);
    SelectMembers(Apply(Sorted(local.files.Keys), Identity, options.filters, user), Identity, k => k !in byKey);
  }

  /* ---------- pushing ---------- */

  /** A remote that performs every upload and then every deletion. */
  ghost function Uploaded(remote: map<string, string>, assets: seq<Asset>): map<string, string> {
    if assets == [] then remote
    else
      var last := assets[|assets| - 1];
      Uploaded(remote, assets[..|assets| - 1])[last.key := last.checksum]
  }

  ghost function AfterPush(remote: map<string, string>, plan: PushPlan): map<string, string> {
    Uploaded(remote, plan.upload) - (set k | k in plan.delete)
  }

  lemma {:induction false} UploadedMeaning(remote: map<string, string>, assets: seq<Asset>)
    ensures Uploaded(remote, assets).Keys == remote.Keys + Keys(assets, AssetKey)
    ensures forall k :: k in remote && k !in Keys(assets, AssetKey) ==> Uploaded(remote, assets)[k] == remote[k]
    decreases |assets|
  {
    if assets != [] {
      var front, last := assets[..|assets| - 1], assets[|assets| - 1];
      UploadedMeaning(remote, front);
      KeysAppend(front, [last], AssetKey);
      assert assets == front + [last];
      assert [last][0] == last && Keys([last], AssetKey) == {last.key};
    }
  }

  lemma {:induction false} UploadedChecksum(remote: map<string, string>, assets: seq<Asset>, a: Asset)
    requires a.key in Keys(assets, AssetKey)
    requires forall b :: b in assets && b.key == a.key ==> b == a
    ensures a.key in Uploaded(remote, assets) && Uploaded(remote, assets)[a.key] == a.checksum
    decreases |assets|
  {
    var front, last := assets[..|assets| - 1], assets[|assets| - 1];
    assert last in assets;
    if last.key != a.key {
      KeysAppend(front, [last], AssetKey);
      assert assets == front + [last];
      assert [last][0] == last && Keys([last], AssetKey) == {last.key};
      assert forall b :: b in front ==> b in assets;
      UploadedChecksum(remote, front, a);
    }
  }

  lemma {:induction false} DifferingMeaning(assets: seq<Asset>, byKey: map<string, string>)
    ensures forall a :: a in Differing(assets, byKey) <==>
              a in assets && !(a.key in byKey && byKey[a.key] == a.checksum)
  {
    if assets != [] {
      DifferingMeaning(assets[1..], byKey);
      assert assets == [assets[0]] + assets[1..];
    }
  }

  lemma {:induction false} StubsMeaning(i: nat, seen: set<string>, digest: Digest)
    requires i <= |MinimumAssets|
    ensures forall a :: a in Stubs(i, seen, digest) ==>
              exists j :: i <= j < |MinimumAssets| && a == Stub(MinimumAssets[j], digest) && a.key !in seen
    ensures forall j :: i <= j < |MinimumAssets| && MinimumAssets[j].0 !in seen ==>
              Stub(MinimumAssets[j], digest) in Stubs(i, seen, digest)
    decreases |MinimumAssets| - i
  {
    if i < |MinimumAssets| { StubsMeaning(i + 1, seen, digest); }
  }

  /** What a push uploads and deletes, key by key. */
  lemma PushMeaning(local: LocalTheme, listing: seq<Checksum>, remote: map<string, string>, options: Options,
                    user: UserRegex, digest: Digest)
    requires WellKeyed(local.files) && IsListing(listing, remote)
    ensures var plan := PlanPush(local, listing, options, user, digest);
            var l := LocalView(local, options, user);
            var v := View(remote, local.filters, options.filters, user);
            && (forall k :: k in Keys(plan.upload, AssetKey) <==>
                  (k in l && !(k in v && v[k] == l[k].checksum)) || (IsMinimum(k) && k !in v && k !in l))
            && (forall a :: a in plan.upload && a.key in l ==> a == l[a.key])
            && (forall k :: k in plan.delete <==> !options.nodelete && k in v && !IsMinimum(k) && k !in l)
  {
    UploadMeaning(local, listing, remote, options, user, digest);
    DeleteMeaning(local, listing, remote, options, user, digest);
  }

  lemma UploadMeaning(local: LocalTheme, listing: seq<Checksum>, remote: map<string, string>, options: Options,
                      user: UserRegex, digest: Digest)
    requires WellKeyed(local.files) && IsListing(listing, remote)
    ensures var upload := PlanPush(local, listing, options, user, digest).upload;
            var l := LocalView(local, options, user);
            var v := View(remote, local.filters, options.filters, user);
            && (forall k :: k in Keys(upload, AssetKey) <==>
                  (k in l && !(k in v && v[k] == l[k].checksum)) || (IsMinimum(k) && k !in v && k !in l))
            && (forall a :: a in upload && a.key in l ==> a == l[a.key])
  {
    hide Collect, FilteredChecksums, LocalFiles, Values, Differing, Stubs, Shadowed, Admits;
    var upload := PlanPush(local, listing, options, user, digest).upload;
    var l := LocalView(local, options, user);
    var v := View(remote, local.filters, options.filters, user);
    FilteredIsView(listing, remote, local.filters, options.filters, user);
    LocalFilesIsView(local, options, user);
    ValuesDistinct(l);
    DifferingMeaning(Values(l), v);
    StubsMeaning(0, v.Keys + l.Keys, digest);
    var changed, stubs := Differing(Values(l), v), Stubs(0, v.Keys + l.Keys, digest);
    assert upload == changed + stubs;
    forall k | k in Keys(upload, AssetKey)
      ensures (k in l && !(k in v && v[k] == l[k].checksum)) || (IsMinimum(k) && k !in v && k !in l)
    {
      var i :| 0 <= i < |upload| && AssetKey(upload[i]) == k;
      assert upload[i] in changed || upload[i] in stubs;
    }
    forall k | k in l && !(k in v && v[k] == l[k].checksum) ensures k in Keys(upload, AssetKey) {
      var i :| 0 <= i < |Values(l)| && AssetKey(Values(l)[i]) == k;
      assert Values(l)[i] in changed;
      MemberKey(Values(l)[i], upload);
    }
    forall k | IsMinimum(k) && k !in v && k !in l ensures k in Keys(upload, AssetKey) {
      var j :| 0 <= j < |MinimumAssets| && MinimumAssets[j].0 == k;
      MemberKey(Stub(MinimumAssets[j], digest), upload);
    }
  }

  lemma MemberKey(a: Asset, assets: seq<Asset>)
    requires a in assets
    ensures a.key in Keys(assets, AssetKey)
  {
    var i :| 0 <= i < |assets| && assets[i] == a;
    assert AssetKey(assets[i]) == a.key;
  }

  lemma DeleteMeaning(local: LocalTheme, listing: seq<Checksum>, remote: map<string, string>, options: Options,
                      user: UserRegex, digest: Digest)
    requires WellKeyed(local.files) && IsListing(listing, remote)
    ensures var l := LocalView(local, options, user);
            var v := View(remote, local.filters, options.filters, user);
            forall k :: k in PlanPush(local, listing, options, user, digest).delete <==>
              !options.nodelete && k in v && !IsMinimum(k) && k !in l
  {
    hide Collect, FilteredChecksums, LocalFiles, Values, Differing, Stubs, Shadowed, Admits, Select, IsMinimum;
    var all := FilteredChecksums(listing, local.filters, options.filters, user);
    var l := LocalView(local, options, user);
    var v := View(remote, local.filters, options.filters, user);
    FilteredIsView(listing, remote, local.filters, options.filters, user);
    LocalFilesIsView(local, options, user);
    CollectKeys(all, ChecksumKey, ChecksumValue);
    var gone := Select(all, ChecksumKey, k => !IsMinimum(k) && k !in LocalFiles(local, options, user));
    SelectKeys(all, ChecksumKey, k => !IsMinimum(k) && k !in LocalFiles(local, options, user));
    forall k ensures k in KeysOf(gone) <==> k in Keys(gone, ChecksumKey) {
      if k in Keys(gone, ChecksumKey) {
        var i :| 0 <= i < |gone| && ChecksumKey(gone[i]) == k;
        assert KeysOf(gone)[i] == k;
      }
      if k in KeysOf(gone) {
        var i :| 0 <= i < |gone| && KeysOf(gone)[i] == k;
        assert ChecksumKey(gone[i]) == k;
      }
    }
  }

  /** The keys a push will delete. */
  ghost predicate Gone(k: string, local: LocalTheme, remote: map<string, string>, options: Options, user: UserRegex) {
    && !options.nodelete
    && k in View(remote, local.filters, options.filters, user)
    && !IsMinimum(k)
    && k !in LocalView(local, options, user)
  }

  /** The local and the surviving remote keys, from which the view after the
      push is shadowed. */
  ghost function Left(local: LocalTheme, remote: map<string, string>, options: Options, user: UserRegex): set<string> {
    (set k | k in remote && !Gone(k, local, remote, options, user)) + LocalView(local, options, user).Keys
  }

  /** The next plan uploads nothing: the mounted filters admit every pushed
      file and no Liquid source shadows it, and both filters admit the minimum
      files that are not pushed. */
  ghost predicate UploadsSettle(local: LocalTheme, remote: map<string, string>, options: Options, user: UserRegex) {
    var left := Left(local, remote, options, user);
    var l := LocalView(local, options, user);
    && (forall k :: k in l ==> Admits(k, local.filters, user) && !Shadowed(k, left))
    && (forall k :: IsMinimum(k) && k !in l ==>
          Admits(k, local.filters, user) && Admits(k, options.filters, user))
  }

  /** A generated asset the remote lists beside its source, wanted by nobody. */
  ghost predicate Covered(k: string, local: LocalTheme, remote: map<string, string>, options: Options,
                          user: UserRegex)
  {
    && k in remote && Shadowed(k, remote.Keys) && k !in LocalView(local, options, user)
    && Admits(k, local.filters, user) && Admits(k, options.filters, user)
  }

  /** The next plan deletes nothing: no deletion uncovers a generated asset. */
  ghost predicate DeletesSettle(local: LocalTheme, remote: map<string, string>, options: Options, user: UserRegex) {
    var left := Left(local, remote, options, user);
    options.nodelete || forall k :: Covered(k, local, remote, options, user) ==> Shadowed(k, left)
  }

  ghost predicate Settles(local: LocalTheme, remote: map<string, string>, options: Options, user: UserRegex) {
    UploadsSettle(local, remote, options, user) && DeletesSettle(local, remote, options, user)
  }

  lemma MinimumNotShadowed(k: string, keys: set<string>)
    requires IsMinimum(k)
    ensures !Shadowed(k, keys) && !StartsWith(k, "assets/")
  {
    var i :| 0 <= i < |MinimumAssets| && MinimumAssets[i].0 == k;
    PrefixHead(k, "assets/");
  }

  /** What the remote holds after the push, key by key. */
  lemma AfterPushMeaning(local: LocalTheme, listing: seq<Checksum>, remote: map<string, string>, options: Options,
                         user: UserRegex, digest: Digest)
    requires WellKeyed(local.files) && IsListing(listing, remote)
    ensures var after := AfterPush(remote, PlanPush(local, listing, options, user, digest));
            var l := LocalView(local, options, user);
            var v := View(remote, local.filters, options.filters, user);
            && (forall k :: k in l ==> k in after && after[k] == l[k].checksum)
            && (forall k :: k !in l && !IsMinimum(k) ==>
                  (k in after <==> k in remote && !Gone(k, local, remote, options, user)))
            && (forall k :: IsMinimum(k) ==> k in after || k in l)
  {
    hide PlanPush, Uploaded, View, LocalView, IsMinimum, Keys;
    var plan := PlanPush(local, listing, options, user, digest);
    var l := LocalView(local, options, user);
    var v := View(remote, local.filters, options.filters, user);
    PushMeaning(local, listing, remote, options, user, digest);
    UploadedMeaning(remote, plan.upload);
    ViewWithin(remote, local.filters, options.filters, user);
    LocalViewKeyed(local, options, user);
    forall k | k in l ensures Uploaded(remote, plan.upload)[k] == l[k].checksum && k in Uploaded(remote, plan.upload) {
      if k in Keys(plan.upload, AssetKey) { UploadedChecksum(remote, plan.upload, l[k]); }
    }
  }

  lemma LocalViewKeyed(local: LocalTheme, options: Options, user: UserRegex)
    requires WellKeyed(local.files)
    ensures WellKeyed(LocalView(local, options, user))
  {}

  lemma ViewWithin(remote: map<string, string>, mounted: Filters, explicit: Filters, user: UserRegex)
    ensures var v := View(remote, mounted, explicit, user); forall k :: k in v ==> k in remote && v[k] == remote[k]
  {}

  /** Shadowing after the push is shadowing by what is left. */
  lemma ShadowedAfter(k: string, local: LocalTheme, listing: seq<Checksum>, remote: map<string, string>,
                      options: Options, user: UserRegex, digest: Digest)
    requires WellKeyed(local.files) && IsListing(listing, remote)
    ensures var after := AfterPush(remote, PlanPush(local, listing, options, user, digest));
            Shadowed(k, after.Keys) <==> Shadowed(k, Left(local, remote, options, user))
  {
    hide PlanPush, Uploaded, View, LocalView, IsMinimum, AfterPush, Gone, Admits;
    AfterPushMeaning(local, listing, remote, options, user, digest);
    var source := k + ".liquid";
    if StartsWith(k, "assets/") {
      assert source[..7] == k[..7];
      if IsMinimum(source) { MinimumNotShadowed(source, {}); }
    }
  }

  /** One push settles the theme exactly when `Settles` holds before it:
      planning again with any listing of the new remote finds nothing to do. */
  lemma PushSettles(local: LocalTheme, listing: seq<Checksum>, remote: map<string, string>, options: Options,
                    user: UserRegex, digest: Digest, again: seq<Checksum>)
    requires WellKeyed(local.files) && IsListing(listing, remote)
    requires IsListing(again, AfterPush(remote, PlanPush(local, listing, options, user, digest)))
    ensures PlanPush(local, again, options, user, digest) == PushPlan([], []) <==>
            Settles(local, remote, options, user)
  {
    hide PlanPush, LocalView, View, IsMinimum, AfterPush, Gone, Shadowed, Admits, Left, Keys, UploadsSettle,
         DeletesSettle;
    var after := AfterPush(remote, PlanPush(local, listing, options, user, digest));
    var plan := PlanPush(local, again, options, user, digest);
    PushMeaning(local, again, after, options, user, digest);
    NoKeysNoAssets(plan.upload);
    assert plan.delete == [] <==> forall k :: k !in plan.delete by { if plan.delete != [] { assert plan.delete[0] in plan.delete; } }
    NothingToUpload(local, listing, remote, options, user, digest);
    NothingToDelete(local, listing, remote, options, user, digest);
  }

  lemma NoKeysNoAssets(assets: seq<Asset>)
    ensures assets == [] <==> forall k :: k !in Keys(assets, AssetKey)
  {
    if assets != [] { assert AssetKey(assets[0]) in Keys(assets, AssetKey); }
  }

  lemma NothingToUpload(local: LocalTheme, listing: seq<Checksum>, remote: map<string, string>, options: Options,
                        user: UserRegex, digest: Digest)
    requires WellKeyed(local.files) && IsListing(listing, remote)
    ensures var after := AfterPush(remote, PlanPush(local, listing, options, user, digest));
            var l := LocalView(local, options, user);
            var v := View(after, local.filters, options.filters, user);
            (forall k :: !((k in l && !(k in v && v[k] == l[k].checksum)) || (IsMinimum(k) && k !in v && k !in l)))
            <==> UploadsSettle(local, remote, options, user)
  {
    hide PlanPush, IsMinimum, AfterPush, Gone, Shadowed, Admits, Left;
    var after := AfterPush(remote, PlanPush(local, listing, options, user, digest));
    var l := LocalView(local, options, user);
    var v := View(after, local.filters, options.filters, user);
    AfterPushMeaning(local, listing, remote, options, user, digest);
    forall k | k in l
      ensures (k in v && v[k] == l[k].checksum) <==>
              Admits(k, local.filters, user) && !Shadowed(k, Left(local, remote, options, user))
    {
      ShadowedAfter(k, local, listing, remote, options, user, digest);
    }
    forall k | IsMinimum(k) && k !in l
      ensures k in v <==> Admits(k, local.filters, user) && Admits(k, options.filters, user)
    {
      MinimumNotShadowed(k, after.Keys);
    }
  }

  lemma NothingToDelete(local: LocalTheme, listing: seq<Checksum>, remote: map<string, string>, options: Options,
                        user: UserRegex, digest: Digest)
    requires WellKeyed(local.files) && IsListing(listing, remote)
    ensures var after := AfterPush(remote, PlanPush(local, listing, options, user, digest));
            var l := LocalView(local, options, user);
            var v := View(after, local.filters, options.filters, user);
            (forall k :: !(!options.nodelete && k in v && !IsMinimum(k) && k !in l))
            <==> DeletesSettle(local, remote, options, user)
  {
    hide PlanPush, IsMinimum, AfterPush, Shadowed, Admits, Left, LocalView;
    var after := AfterPush(remote, PlanPush(local, listing, options, user, digest));
    var l := LocalView(local, options, user);
    var v := View(after, local.filters, options.filters, user);
    AfterPushMeaning(local, listing, remote, options, user, digest);
    if !options.nodelete {
      forall k
        ensures (k in v && !IsMinimum(k) && k !in l) <==>
                (Covered(k, local, remote, options, user) && !Shadowed(k, Left(local, remote, options, user)))
      {
        ShadowedAfter(k, local, listing, remote, options, user, digest);
        if IsMinimum(k) { MinimumNotShadowed(k, remote.Keys); }
      }
    }
  }

  /** A theme without generated assets beside their sources, whose mounted
      filters admit what is pushed and whose filters admit the minimum files,
      settles in one push. */
  lemma CleanThemeSettles(local: LocalTheme, remote: map<string, string>, options: Options, user: UserRegex)
    requires forall k :: k in remote || k in local.files ==> !Shadowed(k, remote.Keys + local.files.Keys)
    requires forall k :: k in LocalView(local, options, user) ==> Admits(k, local.filters, user)
    requires forall k :: IsMinimum(k) ==> Admits(k, local.filters, user) && Admits(k, options.filters, user)
    ensures Settles(local, remote, options, user)
  {
    hide Admits, IsMinimum, Gone, StartsWith;
  }

  /** A minimum file that a filter hides is uploaded again by every push, over
      whatever the remote already holds. */
  lemma HiddenMinimumIsUploadedAgain(k: string, local: LocalTheme, listing: seq<Checksum>,
                                     remote: map<string, string>, options: Options, user: UserRegex, digest: Digest)
    requires WellKeyed(local.files) && IsListing(listing, remote)
    requires IsMinimum(k) && k !in local.files
    requires !Admits(k, local.filters, user) || !Admits(k, options.filters, user)
    ensures k in Keys(PlanPush(local, listing, options, user, digest).upload, AssetKey)
  {
    hide Admits, IsMinimum, PlanPush, Shadowed;
    PushMeaning(local, listing, remote, options, user, digest);
  }

  /** One push is not always enough: deleting the source of a generated asset
      uncovers the asset, which only the next push deletes. */
  lemma OnePushMayNotSettle(user: UserRegex)
    ensures var none := Filters([], [], []);
            var remote := map["assets/a" := "1", "assets/a.liquid" := "2"];
            !Settles(LocalTheme(map[], none), remote, Options(false, none), user)
  {
    var none := Filters([], [], []);
    var local, options := LocalTheme(map[], none), Options(false, none);
    var remote := map["assets/a" := "1", "assets/a.liquid" := "2"];
    var source := "assets/a" + ".liquid";
    assert source == "assets/a.liquid" && source[..7] == "assets/" && "assets/a"[..7] == "assets/";
    assert Admits("assets/a", none, user) && Admits(source, none, user);
    assert source + ".liquid" !in remote by { assert |source + ".liquid"| > |source|; }
    assert !IsMinimum(source) by { if IsMinimum(source) { MinimumNotShadowed(source, {}); } }
    assert Covered("assets/a", local, remote, options, user);
    assert Gone(source, local, remote, options, user);
  }
}
