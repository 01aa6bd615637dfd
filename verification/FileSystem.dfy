/** The theme directory: the files on disk and the assets remembered from them. */
module FileSystem {
  import opened Text
  import opened Theme
  import Ignore
  import Plans

  /** How file contents become assets and back: base64, UTF-8 and checksums. */
  datatype Codec = Codec(decode: string -> Option<string>, encode: string -> string, isText: string -> bool,
                         digest: Plans.Digest)

  /** The value of a theme file system: `disk` maps slash-separated paths below
      the root to contents. */
  datatype Fs = Fs(files: map<string, Asset>, disk: map<string, string>, filters: Ignore.Filters,
                   listing: Option<string>)

  datatype ReadResult = Missing | Unreadable | Found(asset: Asset)

  /* ---------- keys ---------- */

  predicate IsListingJson(key: string) {
    EndsWith(key, ".json") && (StartsWith(key, "templates/") || StartsWith(key, "sections/"))
  }

  /** `path_for_key` accepts the key. */
  predicate ValidKey(key: string) {
    && key != "" && key[0] != '/' && '\\' !in key
    && Split(key, '/')[0] != "." && ".." !in Split(key, '/')
  }

  function ListingKey(listing: string, key: string): string { "listings/" + listing + "/" + key }

  function DiskKey(fs: Fs, key: string): string {
    if fs.listing.Some? && IsListingJson(key) && ListingKey(fs.listing.value, key) in fs.disk
    then ListingKey(fs.listing.value, key)
    else key
  }

  /** The paths a key may stand for. */
  function PathsOf(listing: Option<string>, key: string): set<string> {
    if listing.Some? && IsListingJson(key) then {key, ListingKey(listing.value, key)} else {key}
  }

  /** The text after the last dot of the last component. */
  function Extension(path: string): Option<string> {
    var name := Ignore.BaseName(path);
    var parts := Split(name, '.');
    if |parts| == 1 then None else Some(parts[|parts| - 1])
  }

  predicate IsTextFile(path: string) {
    var e := Extension(path);
    e.Some? && e.value in ["css", "js", "json", "liquid", "sass", "scss", "svg"]
  }

  /* ---------- operations on the value ---------- */

  function AssetOf(key: string, path: string, content: string, codec: Codec): Asset {
    if IsTextFile(path) then Asset(key, codec.digest(key, content), None, Some(content))
    else Asset(key, codec.digest(key, content), Some(codec.encode(content)), None)
  }

  function ReadAsset(fs: Fs, key: string, codec: Codec): ReadResult {
    var path := DiskKey(fs, key);
    if !ValidKey(path) then Unreadable
    else if path !in fs.disk then Missing
    else if IsTextFile(path) && !codec.isText(fs.disk[path]) then Unreadable
    else Found(AssetOf(key, path, fs.disk[path], codec))
  }

  function ContentOf(asset: Asset, codec: Codec): Option<string> {
    if asset.attachment.Some? then codec.decode(asset.attachment.value)
    else Some(if asset.value.Some? then asset.value.value else "")
  }

  function OnDisk(fs: Fs, path: string, content: string): Fs { fs.(disk := fs.disk[path := content]) }

  function Remembered(fs: Fs, asset: Asset): Fs { fs.(files := fs.files[asset.key := asset]) }

  /** What a write that succeeds leaves: the content on disk, and the asset read
      back from it in memory. */
  function Written(fs: Fs, asset: Asset, codec: Codec): Option<Fs> {
    var path, content := DiskKey(fs, asset.key), ContentOf(asset, codec);
    if !ValidKey(path) || content.None? then None
    else
      var stored := OnDisk(fs, path, content.value);
      match ReadAsset(stored, asset.key, codec)
      case Found(read) => Some(Remembered(stored, read))
      case Missing => Some(stored)
      case Unreadable => None
  }

  function Deleted(fs: Fs, key: string): Option<Fs> {
    if ValidKey(key) then Some(fs.(disk := fs.disk - {key}, files := fs.files - {key})) else None
  }

  function WriteAll(fs: Fs, assets: seq<Asset>, codec: Codec): Option<Fs> {
    if assets == [] then Some(fs)
    else
      match WriteAll(fs, assets[..|assets| - 1], codec)
      case None => None
      case Some(before) => Written(before, assets[|assets| - 1], codec)
  }

  function DeleteAll(fs: Fs, keys: seq<string>): Option<Fs> {
    if keys == [] then Some(fs)
    else
      match DeleteAll(fs, keys[..|keys| - 1])
      case None => None
      case Some(before) => Deleted(before, keys[|keys| - 1])
  }

  /** A failed write may leave its path in any state, and nothing else. */
  predicate Torn(before: Fs, after: Fs, key: string) {
    && after == before.(disk := after.disk)
    && after.disk - PathsOf(before.listing, key) == before.disk - PathsOf(before.listing, key)
  }

  /* ---------- the object ---------- */

  class ThemeFileSystem {
    var files: map<string, Asset>
    var disk: map<string, string>
    const filters: Ignore.Filters
    const listing: Option<string>
    const codec: Codec

    function Now(): Fs
      reads this
    {
      Fs(files, disk, filters, listing)
    }

    constructor (fs: Fs, codec: Codec)
      ensures Now() == fs && this.codec == codec
    {
      files, disk, filters, listing := fs.files, fs.disk, fs.filters, fs.listing;
      this.codec := codec;
    }

    /** Reading may always fail; when it does not, it gives what is on disk. */
    method Read(key: string) returns (r: ReadResult)
      ensures r == ReadAsset(Now(), key, codec) || r == Unreadable
    {
      var fails: bool := *;
      r := if fails then Unreadable else ReadAsset(Now(), key, codec);
    }

    method Write(asset: Asset) returns (ok: bool)
      modifies this
      ensures ok ==> Written(old(Now()), asset, codec) == Some(Now())
      ensures !ok ==> Torn(old(Now()), Now(), asset.key)
    {
      hide ReadAsset, ContentOf, ValidKey, IsListingJson, ListingKey, IsTextFile, AssetOf;
      var path, content := DiskKey(Now(), asset.key), ContentOf(asset, codec);
      if !ValidKey(path) || content.None? { return false; }
      var left: Option<string> := *;
      if left.Some? {
        disk := disk[path := left.value];
        return false;
      }
      disk := disk[path := content.value];
      var read := Read(asset.key);
      match read
      case Unreadable => return false;
      case Missing => return true;
      case Found(stored) =>
        ReadKey(Now(), asset.key, codec);
        files := files[asset.key := stored];
        return true;
    }

    method Delete(key: string) returns (ok: bool)
      modifies this
      ensures ok ==> Deleted(old(Now()), key) == Some(Now())
      ensures !ok ==> Now() == old(Now())
    {
      hide ValidKey;
      var fails: bool := *;
      if !ValidKey(key) || (key in disk && fails) { return false; }
      disk := disk - {key};
      files := files - {key};
      return true;
    }
  }

  lemma ReadKey(fs: Fs, key: string, codec: Codec)
    ensures ReadAsset(fs, key, codec).Found? ==> ReadAsset(fs, key, codec).asset.key == key
  {}

  /* ---------- what a run of writes changes ---------- */

  function AssetKeys(assets: seq<Asset>): set<string> { set a | a in assets :: a.key }

  function AllPaths(listing: Option<string>, keys: set<string>): set<string> {
    set k, p | k in keys && p in PathsOf(listing, k) :: p
  }

  /** A written file is on disk and remembered with the checksum of its content;
      no other key and no other path is touched. */
  lemma WrittenEffect(fs: Fs, asset: Asset, codec: Codec)
    requires Written(fs, asset, codec).Some?
    ensures var after, path := Written(fs, asset, codec).value, DiskKey(fs, asset.key);
            && ContentOf(asset, codec).Some?
            && after.filters == fs.filters && after.listing == fs.listing
            && path in PathsOf(fs.listing, asset.key)
            && after.disk == fs.disk[path := ContentOf(asset, codec).value]
            && after.files == fs.files[asset.key := AssetOf(asset.key, path, ContentOf(asset, codec).value, codec)]
            && ReadAsset(after, asset.key, codec) == Found(after.files[asset.key])
  {
    hide ValidKey, IsListingJson, IsTextFile;
  }

  lemma WriteAllStep(fs: Fs, assets: seq<Asset>, codec: Codec)
    requires assets != [] && WriteAll(fs, assets, codec).Some?
    ensures var front, last := assets[..|assets| - 1], assets[|assets| - 1];
            && WriteAll(fs, front, codec).Some?
            && Written(WriteAll(fs, front, codec).value, last, codec) == WriteAll(fs, assets, codec)
  {
    hide Written;
  }

  lemma KeysLast(assets: seq<Asset>)
    requires assets != []
    ensures AssetKeys(assets) == AssetKeys(assets[..|assets| - 1]) + {assets[|assets| - 1].key}
  {
    var front, last := assets[..|assets| - 1], assets[|assets| - 1];
    assert assets == front + [last];
  }

  /** Writing assets touches their keys and paths only. */
  lemma {:induction false} WriteAllTouches(fs: Fs, assets: seq<Asset>, codec: Codec)
    requires WriteAll(fs, assets, codec).Some?
    ensures var after := WriteAll(fs, assets, codec).value;
            && after.filters == fs.filters && after.listing == fs.listing
            && after.files.Keys == fs.files.Keys + AssetKeys(assets)
            && after.files - AssetKeys(assets) == fs.files - AssetKeys(assets)
            && after.disk - AllPaths(fs.listing, AssetKeys(assets)) == fs.disk - AllPaths(fs.listing, AssetKeys(assets))
  {
    hide Written, WriteAll, DiskKey, PathsOf, AssetOf, ContentOf, ReadAsset;
    if assets == [] {
      WriteNone(fs, codec);
    } else {
      var front, last := assets[..|assets| - 1], assets[|assets| - 1];
      WriteAllStep(fs, assets, codec);
      WriteAllTouches(fs, front, codec);
      KeysLast(assets);
      var before := WriteAll(fs, front, codec).value;
      WrittenEffect(before, last, codec);
      var after := WriteAll(fs, assets, codec).value;
      assert AllPaths(fs.listing, AssetKeys(front)) <= AllPaths(fs.listing, AssetKeys(assets));
      assert DiskKey(before, last.key) in AllPaths(fs.listing, AssetKeys(assets));
      OutsideUpdate(fs.disk, before.disk, after.disk, AllPaths(fs.listing, AssetKeys(front)),
                    AllPaths(fs.listing, AssetKeys(assets)), DiskKey(before, last.key));
      OutsideUpdate(fs.files, before.files, after.files, AssetKeys(front), AssetKeys(assets), last.key);
    }
  }

  /** Writing removes no path. */
  lemma {:induction false} WriteAllKeepsPaths(fs: Fs, assets: seq<Asset>, codec: Codec)
    requires WriteAll(fs, assets, codec).Some?
    ensures fs.disk.Keys <= WriteAll(fs, assets, codec).value.disk.Keys
  {
    hide Written, WriteAll, DiskKey, PathsOf, AssetOf, ContentOf, ReadAsset;
    if assets == [] {
      WriteNone(fs, codec);
    } else {
      var front, last := assets[..|assets| - 1], assets[|assets| - 1];
      WriteAllStep(fs, assets, codec);
      WriteAllKeepsPaths(fs, front, codec);
      WrittenEffect(WriteAll(fs, front, codec).value, last, codec);
    }
  }

  lemma WriteNone(fs: Fs, codec: Codec)
    ensures WriteAll(fs, [], codec) == Some(fs)
  {}

  lemma OutsideUpdate<V>(a: map<string, V>, b: map<string, V>, c: map<string, V>, some: set<string>, all: set<string>,
                         key: string)
    requires b - some == a - some && some <= all && key in all
    requires key in c && c == b[key := c[key]]
    ensures c - all == a - all
  {
    forall k | k !in all
      ensures (k in c <==> k in a) && (k in c ==> c[k] == a[k])
    {
      assert k in b - some <==> k in a - some;
      assert k in b - some ==> (b - some)[k] == b[k];
    }
  }

  /** What is remembered of a written key comes from an asset that was written. */
  lemma {:induction false} WriteAllRemembers(fs: Fs, assets: seq<Asset>, codec: Codec, key: string)
    requires WriteAll(fs, assets, codec).Some? && key in AssetKeys(assets)
    ensures var after := WriteAll(fs, assets, codec).value;
            && key in after.files
            && exists a :: a in assets && a.key == key && ContentOf(a, codec).Some?
                 && after.files[key].key == key
                 && after.files[key].checksum == codec.digest(key, ContentOf(a, codec).value)
  {
    hide Written, WriteAll, DiskKey, PathsOf, ContentOf, ReadAsset;
    var front, last := assets[..|assets| - 1], assets[|assets| - 1];
    WriteAllStep(fs, assets, codec);
    KeysLast(assets);
    var before := WriteAll(fs, front, codec).value;
    WrittenEffect(before, last, codec);
    if last.key != key {
      WriteAllRemembers(fs, front, codec, key);
    }
  }

  lemma {:induction false} DeleteAllEffect(fs: Fs, keys: seq<string>)
    requires DeleteAll(fs, keys).Some?
    ensures DeleteAll(fs, keys).value ==
            fs.(disk := fs.disk - (set k | k in keys), files := fs.files - (set k | k in keys))
  {
    hide ValidKey;
    if keys == [] {
      assert (set k | k in keys) == {};
    } else {
      var front, last := keys[..|keys| - 1], keys[|keys| - 1];
      DeleteAllEffect(fs, front);
      assert keys == front + [last];
      assert (set k | k in keys) == (set k | k in front) + {last};
    }
  }

  /** The active listing has its own copy of a file. */
  predicate Listed(fs: Fs, key: string) {
    fs.listing.Some? && IsListingJson(key) && ListingKey(fs.listing.value, key) in fs.disk
  }

  /** A deleted file can no longer be read, unless the active listing has its own
      copy: that one stays on disk, and the next read finds it as before. */
  lemma DeletedUnlessListed(fs: Fs, key: string, codec: Codec)
    requires Deleted(fs, key).Some?
    ensures key !in Deleted(fs, key).value.files
    ensures ReadAsset(Deleted(fs, key).value, key, codec).Missing? <==> !Listed(fs, key)
    ensures Listed(fs, key) ==> ReadAsset(Deleted(fs, key).value, key, codec) == ReadAsset(fs, key, codec)
  {
    hide ValidKey, IsTextFile, IsListingJson;
    assert fs.listing.Some? ==> |ListingKey(fs.listing.value, key)| > |key|;
  }

  const Template: string := "templates/a.json"

  lemma TemplateSplits()
    ensures Split(Template, '/') == ["templates", "a.json"]
  {
    hide Split;
    var parts := ["templates", "a.json"];
    assert forall i :: 0 <= i < |parts| ==> '/' !in parts[i];
    SplitJoin(parts, '/');
    assert parts[1..] == ["a.json"];
    assert Join(parts, ['/']) == "templates" + ['/'] + "a.json" == Template;
  }

  lemma TemplateIsListed()
    ensures ValidKey(Template) && IsListingJson(Template)
  {
    hide Split;
    TemplateSplits();
    assert Template[|Template| - 5..] == ".json" && Template[..10] == "templates/";
  }

  /** A template with a copy in the active listing, deleted, is found again. */
  lemma DeletedStaysListed(codec: Codec, text: string, filters: Ignore.Filters)
    ensures var fs := Fs(map[], map[Template := "", ListingKey("b", Template) := text], filters, Some("b"));
            Deleted(fs, Template).Some? && !ReadAsset(Deleted(fs, Template).value, Template, codec).Missing?
  {
    hide ValidKey, IsListingJson, ReadAsset, ListingKey;
    TemplateIsListed();
    DeletedUnlessListed(Fs(map[], map[Template := "", ListingKey("b", Template) := text], filters, Some("b")),
                        Template, codec);
  }
}
