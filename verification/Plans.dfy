/** Planning a pull or a push by comparing the local files with a remote listing. */
module Plans {
  import opened Text
  import opened Theme
  import opened Ignore
  import opened Order

  datatype PullPlan = PullPlan(download: seq<string>, delete: seq<string>)

  datatype PushPlan = PushPlan(upload: seq<Asset>, delete: seq<string>)

  /** The local theme: its files by key, and the filters it was scanned with. */
  datatype LocalTheme = LocalTheme(files: map<string, Asset>, filters: Filters)

  datatype Options = Options(nodelete: bool, filters: Filters)

  /** The checksum of a key and a text. */
  type Digest = (string, string) -> string

  predicate WellKeyed(files: map<string, Asset>) {
    forall k :: k in files ==> files[k].key == k
  }

  const MinimumAssets: seq<(string, string)> :=
    [("config/settings_schema.json", "[]"),
     ("layout/password.liquid", "{{ content_for_header }}{{ content_for_layout }}"),
     ("layout/theme.liquid", "{{ content_for_header }}{{ content_for_layout }}")]

  predicate IsMinimum(key: string) {
    exists i :: 0 <= i < |MinimumAssets| && MinimumAssets[i].0 == key
  }

  function Stub(entry: (string, string), digest: Digest): Asset {
    Asset(entry.0, digest(entry.0, entry.1), None, Some(entry.1))
  }

  /** An asset the remote generates from a Liquid source it also lists. */
  predicate Shadowed(key: string, keys: set<string>) {
    StartsWith(key, "assets/") && key + ".liquid" in keys
  }

  function ListedKeys(listing: seq<Checksum>): set<string> {
    set i | 0 <= i < |listing| :: ChecksumKey(listing[i])
  }

  function LiquidAssets(listing: seq<Checksum>): set<string> {
    set k | k in ListedKeys(listing) && StartsWith(k, "assets/") && EndsWith(k, ".liquid")
  }

  function RejectGenerated(listing: seq<Checksum>): seq<Checksum> {
    Select(listing, ChecksumKey, k => !Shadowed(k, LiquidAssets(listing)))
  }

  function FilteredChecksums(listing: seq<Checksum>, mounted: Filters, explicit: Filters, user: UserRegex)
    : seq<Checksum>
  {
    Apply(Apply(RejectGenerated(listing), ChecksumKey, mounted, user), ChecksumKey, explicit, user)
  }

  /** A map collected from a list; a later entry replaces an earlier one. */
  function Collect<T, V>(items: seq<T>, key: T -> string, value: T -> V): map<string, V> {
    if items == [] then map[]
    else
      var last := items[|items| - 1];
      Collect(items[..|items| - 1], key, value)[key(last) := value(last)]
  }

  function ChecksumValue(checksum: Checksum): string { checksum.checksum }

  function ByKey(listing: seq<Checksum>): map<string, string> {
    Collect(listing, ChecksumKey, ChecksumValue)
  }

  function Itself(asset: Asset): Asset { asset }

  /** The values of a sorted map in the order of its keys. */
  function ValuesAt(files: map<string, Asset>, keys: seq<string>): (r: seq<Asset>)
    requires forall k :: k in keys ==> k in files
    ensures |r| == |keys| && forall i :: 0 <= i < |r| ==> r[i] == files[keys[i]]
  {
    if keys == [] then [] else [files[keys[0]]] + ValuesAt(files, keys[1..])
  }

  function Values(files: map<string, Asset>): seq<Asset> {
    ValuesAt(files, Sorted(files.Keys))
  }

  function Identity(key: string): string { key }

  function PlanPull(local: LocalTheme, listing: seq<Checksum>, options: Options, user: UserRegex): PullPlan {
    var remote := FilteredChecksums(listing, local.filters, options.filters, user);
    var byKey := ByKey(remote);
    var stale := StaleKeys(remote, local.files);
    var kept := Apply(Sorted(local.files.Keys), Identity, options.filters, user);
    PullPlan(stale, if options.nodelete then [] else Select(kept, Identity, k => k !in byKey))
  }

  function StaleKeys(remote: seq<Checksum>, files: map<string, Asset>): seq<string> {
    if remote == [] then []
    else
      (if remote[0].key in files && files[remote[0].key].checksum == remote[0].checksum then [] else [remote[0].key])
      + StaleKeys(remote[1..], files)
  }

  function LocalFiles(local: LocalTheme, options: Options, user: UserRegex): map<string, Asset> {
    Collect(Apply(Values(local.files), AssetKey, options.filters, user), AssetKey, Itself)
  }

  function Differing(assets: seq<Asset>, byKey: map<string, string>): seq<Asset> {
    if assets == [] then []
    else
      (if assets[0].key in byKey && byKey[assets[0].key] == assets[0].checksum then [] else [assets[0]])
      + Differing(assets[1..], byKey)
  }

  /** The stubs of the minimum files from entry `i` on that are nowhere to be seen. */
  function Stubs(i: nat, seen: set<string>, digest: Digest): seq<Asset>
    requires i <= |MinimumAssets|
    decreases |MinimumAssets| - i
  {
    if i == |MinimumAssets| then []
    else
      (if MinimumAssets[i].0 in seen then [] else [Stub(MinimumAssets[i], digest)]) + Stubs(i + 1, seen, digest)
  }

  function PlanPush(local: LocalTheme, listing: seq<Checksum>, options: Options, user: UserRegex, digest: Digest)
    : PushPlan
  {
    var remote := FilteredChecksums(listing, local.filters, options.filters, user);
    var byKey := ByKey(remote);
    var files := LocalFiles(local, options, user);
    PushPlan(Differing(Values(files), byKey) + Stubs(0, byKey.Keys + files.Keys, digest),
             if options.nodelete then []
             else KeysOf(Select(remote, ChecksumKey, k => !IsMinimum(k) && k !in files)))
  }

  function KeysOf(listing: seq<Checksum>): (r: seq<string>)
    ensures |r| == |listing| && forall i :: 0 <= i < |r| ==> r[i] == listing[i].key
  {
    if listing == [] then [] else [listing[0].key] + KeysOf(listing[1..])
  }

  /** The loop that adds the missing minimum files to an upload list. */
  method AddStubs(upload: seq<Asset>, byKey: map<string, string>, files: map<string, Asset>, digest: Digest)
      returns (all: seq<Asset>)
    ensures all == upload + Stubs(0, byKey.Keys + files.Keys, digest)
  {
    all := upload;
    for i := 0 to |MinimumAssets|
      invariant all + Stubs(i, byKey.Keys + files.Keys, digest) == upload + Stubs(0, byKey.Keys + files.Keys, digest)
    {
      var key := MinimumAssets[i].0;
      if key !in byKey && key !in files {
        all := all + [Stub(MinimumAssets[i], digest)];
      }
    }
  }
}
