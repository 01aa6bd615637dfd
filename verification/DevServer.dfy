/** The development server: file events and polls of the theme editor, over the
    disk, the remembered files, the served files and a remote that may answer
    as it likes about the keys it is asked for. */
module DevServer {
  import opened Text
  import opened Theme
  import opened Watch
  import Ignore
  import Plans
  import PlanConvergence
  import opened FilterAlgebra
  import opened FileSystem
  import opened Remote
  import Batches
  import opened Reconciliation

  class AppState {
    var files: map<string, Asset>
    const watch: ThemeWatchState

    constructor (files: map<string, Asset>)
      ensures this.files == files && fresh(watch) && watch.unsynced == {}
    {
      this.files := files;
      watch := new ThemeWatchState();
    }
  }

  /* ---------- comparing two listings ---------- */

  function Changed(latest: seq<Checksum>, previous: map<string, string>): seq<Checksum> {
    if latest == [] then []
    else
      (if latest[0].key in previous && previous[latest[0].key] == latest[0].checksum then [] else [latest[0]])
      + Changed(latest[1..], previous)
  }

  function Vanished(previous: seq<Checksum>, latest: map<string, string>): seq<Checksum> {
    Ignore.Select(previous, ChecksumKey, k => k !in latest)
  }

  /** The keys of changed files that memory does not have with that checksum. */
  function Wanted(changed: seq<Checksum>, files: map<string, Asset>): seq<string> {
    Plans.StaleKeys(changed, files)
  }

  /** The disk holds the file with other content than memory. */
  predicate Diverged(fs: Fs, key: string, codec: Codec) {
    && key in fs.files
    && ReadAsset(fs, key, codec).Found?
    && ReadAsset(fs, key, codec).asset.checksum != fs.files[key].checksum
  }

  datatype Verdict = Fine | Aborted(key: string) | ReadFailed

  method AbortIfMultipleSourcesChanged(fs: ThemeFileSystem, changed: seq<Checksum>) returns (verdict: Verdict)
    ensures verdict.Fine? ==> forall c :: c in changed ==> !Diverged(fs.Now(), c.key, fs.codec)
    ensures verdict.Aborted? ==> Diverged(fs.Now(), verdict.key, fs.codec)
                                 && exists c :: c in changed && c.key == verdict.key
  {
    for i := 0 to |changed|
      invariant forall j :: 0 <= j < i ==> !Diverged(fs.Now(), changed[j].key, fs.codec)
    {
      var key := changed[i].key;
      if key in fs.files {
        var current := fs.Read(key);
        match current
        case Unreadable => return ReadFailed;
        case Missing =>
        case Found(asset) =>
          if asset.checksum != fs.files[key].checksum {
            assert changed[i] in changed;
            return Aborted(key);
          }
      }
    }
    return Fine;
  }

  /* ---------- downloads ---------- */

  function Serve(served: map<string, Asset>, assets: seq<Asset>): map<string, Asset> {
    if assets == [] then served
    else Serve(served, assets[..|assets| - 1])[assets[|assets| - 1].key := assets[|assets| - 1]]
  }

  lemma {:induction false} ServeKeys(served: map<string, Asset>, assets: seq<Asset>)
    ensures Serve(served, assets).Keys == served.Keys + AssetKeys(assets)
    ensures Serve(served, assets) - AssetKeys(assets) == served - AssetKeys(assets)
  {
    if assets != [] {
      ServeKeys(served, assets[..|assets| - 1]);
      KeysLast(assets);
      OutsideUpdate(served, Serve(served, assets[..|assets| - 1]), Serve(served, assets),
                    AssetKeys(assets[..|assets| - 1]), AssetKeys(assets), assets[|assets| - 1].key);
    } else {
      assert AssetKeys(assets) == {};
    }
  }

  /** A key that was received is served with a received asset. */
  lemma {:induction false} ServeHas(served: map<string, Asset>, assets: seq<Asset>, key: string)
    requires key in AssetKeys(assets)
    ensures key in Serve(served, assets) && Serve(served, assets)[key] in assets && Serve(served, assets)[key].key == key
  {
    KeysLast(assets);
    var front := assets[..|assets| - 1];
    if assets[|assets| - 1].key != key {
      ServeHas(served, front, key);
      assert forall a :: a in front ==> a in assets;
    }
  }

  /** How far a download got: everything in `got` is written and served; after
      an error one more key's path may be torn. */
  ghost predicate Downloaded(before: Fs, after: Fs, served: map<string, Asset>, servedAfter: map<string, Asset>,
                             got: seq<Asset>, torn: Option<string>, codec: Codec) {
    && WriteAll(before, got, codec).Some?
    && servedAfter == Serve(served, got)
    && match torn
       case None => after == WriteAll(before, got, codec).value
       case Some(key) => Torn(WriteAll(before, got, codec).value, after, key)
  }

  method StoreAll(fs: ThemeFileSystem, state: AppState, assets: seq<Asset>, ghost start: Fs,
                  ghost served: map<string, Asset>, ghost earlier: seq<Asset>)
      returns (ok: bool, ghost got: seq<Asset>, ghost torn: Option<string>)
    requires Downloaded(start, fs.Now(), served, state.files, earlier, None, fs.codec)
    modifies fs, state
    ensures Downloaded(start, fs.Now(), served, state.files, got, torn, fs.codec)
    ensures earlier <= got <= earlier + assets
    ensures ok <==> torn.None?
    ensures ok ==> got == earlier + assets
    ensures torn.Some? ==> exists a :: a in assets && a.key == torn.value
  {
    hide WriteAll, Serve, Torn, Written, ContentOf, DiskKey, ReadAsset, PathsOf;
    got, torn := earlier, None;
    for i := 0 to |assets|
      invariant got == earlier + assets[..i] && torn.None?
      invariant Downloaded(start, fs.Now(), served, state.files, got, None, fs.codec)
    {
      ok := fs.Write(assets[i]);
      if !ok {
        torn := Some(assets[i].key);
        return;
      }
      state.files := state.files[assets[i].key := assets[i]];
      OneMore(start, served, got, assets[i], fs.codec);
      got := got + [assets[i]];
      assert assets[..i + 1] == assets[..i] + [assets[i]];
    }
    ok := true;
  }

  lemma OneMore(start: Fs, served: map<string, Asset>, got: seq<Asset>, asset: Asset, codec: Codec)
    requires WriteAll(start, got, codec).Some?
    ensures WriteAll(start, got + [asset], codec) == Written(WriteAll(start, got, codec).value, asset, codec)
    ensures Serve(served, got + [asset]) == Serve(served, got)[asset.key := asset]
  {
    hide Written;
    assert (got + [asset])[..|got|] == got;
  }

  lemma NothingYet(fs: Fs, served: map<string, Asset>, codec: Codec)
    ensures Downloaded(fs, fs, served, served, [], None, codec)
  {}

  /** A download that succeeds has asked for every key, batch by batch, and stored
      every answer; one that does not has asked for the keys up to some batch. */
  method Download(fs: ThemeFileSystem, state: AppState, remote: RemoteTheme, keys: seq<string>)
      returns (ok: bool, ghost got: seq<Asset>, ghost torn: Option<string>, ghost made: seq<Call>)
    modifies fs, state, remote
    ensures Downloaded(old(fs.Now()), fs.Now(), old(state.files), state.files, got, torn, fs.codec)
    ensures forall a :: a in got ==> a.key in keys
    ensures torn.Some? ==> torn.value in keys
    ensures remote.calls == old(remote.calls) + made && Requested(made) <= keys
    ensures ok ==> torn.None? && Fetched(made, keys, got)
  {
    hide Downloaded, WriteAll, Serve, Torn, Fetched, Received;
    got, torn, made := [], None, [];
    NothingYet(fs.Now(), state.files, fs.codec);
    NoCalls();
    var i := 0;
    while i < |keys|
      invariant 0 <= i <= |keys| && torn.None?
      invariant forall a :: a in got ==> a.key in keys
      invariant Downloaded(old(fs.Now()), fs.Now(), old(state.files), state.files, got, None, fs.codec)
      invariant remote.calls == old(remote.calls) + made && Requested(made) == keys[..i] && Fetched(made, keys[..i], got)
    {
      var next := if i + DownloadBatchSize < |keys| then i + DownloadBatchSize else |keys|;
      var assets := remote.FetchAssets(keys[i..next]);
      ghost var call, before := Fetch(keys[i..next], assets), made;
      made := made + [call];
      RequestedMore(before, call);
      assert keys[..i] + keys[i..next] == keys[..next];
      if assets.None? { return false, got, torn, made; }
      forall a | a in assets.value ensures a.key in keys { assert a.key in keys[i..next]; }
      ghost var earlier := got;
      OneMoreFetch(before, keys[..i], earlier, call);
      ok, got, torn := StoreAll(fs, state, assets.value, old(fs.Now()), old(state.files), got);
      forall a | a in got ensures a.key in keys { assert a in earlier + assets.value; }
      if !ok { return; }
      i := next;
    }
    assert keys[..i] == keys;
    ok := true;
  }

  lemma RequestedMore(calls: seq<Call>, c: Call)
    requires c.Fetch?
    ensures Requested(calls + [c]) == Requested(calls) + c.keys
  {
    assert (calls + [c])[..|calls|] == calls;
  }

  /* ---------- deletions ---------- */

  /** The listed keys that are remembered are deleted, one after the other. */
  function DropPresent(fs: Fs, keys: seq<string>): Option<Fs> {
    if keys == [] then Some(fs)
    else
      match DropPresent(fs, keys[..|keys| - 1])
      case None => None
      case Some(before) =>
        var key := keys[|keys| - 1];
        if key in before.files then Deleted(before, key) else Some(before)
  }

  lemma {:induction false} DropMeaning(fs: Fs, keys: seq<string>)
    requires DropPresent(fs, keys).Some?
    ensures var after := DropPresent(fs, keys).value;
            && after.filters == fs.filters && after.listing == fs.listing
            && after.files == fs.files - AsSet(keys)
            && after.disk == fs.disk - (AsSet(keys) * fs.files.Keys)
  {
    hide AsSet, ValidKey;
    if keys == [] {
      NothingInSet(fs);
    } else {
      var n := |keys| - 1;
      DropMeaning(fs, keys[..n]);
      assert keys[..n + 1] == keys;
      AsSetLast(keys, n);
      DropOne(fs, AsSet(keys[..n]), keys[n]);
    }
  }

  lemma NothingInSet(fs: Fs)
    ensures AsSet([]) == {} && DropPresent(fs, []) == Some(fs)
  {}

  lemma DropOne(fs: Fs, some: set<string>, key: string)
    ensures if key in fs.files - some then
              && fs.files - some - {key} == fs.files - (some + {key})
              && fs.disk - (some * fs.files.Keys) - {key} == fs.disk - ((some + {key}) * fs.files.Keys)
            else
              && fs.files - some == fs.files - (some + {key})
              && fs.disk - (some * fs.files.Keys) == fs.disk - ((some + {key}) * fs.files.Keys)
  {
    if key in fs.files - some {
      assert (some + {key}) * fs.files.Keys == some * fs.files.Keys + {key};
    } else {
      assert (some + {key}) * fs.files.Keys == some * fs.files.Keys;
    }
  }

  method DropVanished(fs: ThemeFileSystem, state: AppState, keys: seq<string>) returns (ok: bool, ghost done: nat)
    modifies fs, state
    ensures done <= |keys| && (ok ==> done == |keys|)
    ensures DropPresent(old(fs.Now()), keys[..done]) == Some(fs.Now())
    ensures state.files == old(state.files) - (AsSet(keys[..done]) * old(fs.files).Keys)
  {
    done := 0;
    hide Deleted, AsSet;
    NoKeysDropped(fs.Now(), state.files);
    for i := 0 to |keys|
      invariant done == i
      invariant DropPresent(old(fs.Now()), keys[..i]) == Some(fs.Now())
      invariant state.files == old(state.files) - (AsSet(keys[..i]) * old(fs.files).Keys)
    {
      assert keys[..i + 1][..i] == keys[..i];
      DropMeaning(old(fs.Now()), keys[..i]);
      AsSetLast(keys, i);
      if keys[i] in fs.files {
        var gone := fs.Delete(keys[i]);
        if !gone { return false, done; }
        state.files := state.files - {keys[i]};
      }
      done := i + 1;
    }
    ok := true;
  }

  lemma NoKeysDropped(fs: Fs, served: map<string, Asset>)
    ensures DropPresent(fs, []) == Some(fs)
    ensures served - (AsSet([]) * fs.files.Keys) == served
  {}

  lemma AsSetLast(keys: seq<string>, i: nat)
    requires i < |keys|
    ensures AsSet(keys[..i + 1]) == AsSet(keys[..i]) + {keys[i]}
  {
    assert keys[..i + 1] == keys[..i] + [keys[i]];
  }

  /* ---------- a poll ---------- */

  /** What one poll saw and did. */
  datatype Trace = Trace(listing: seq<Checksum>, got: seq<Asset>, torn: Option<string>, dropped: seq<string>,
                         middle: Fs, servedMiddle: map<string, Asset>, calls: seq<Call>)

  datatype Setting = Setting(options: Plans.Options, previous: seq<Checksum>, unsynced: set<string>,
                             user: UserRegex, codec: Codec)

  function Visible(checksums: seq<Checksum>, fs: Fs, s: Setting): seq<Checksum> {
    FilterJsonChecksums(checksums, fs.filters, s.options.filters, s.unsynced, s.user)
  }

  function ChangedFiles(listing: seq<Checksum>, fs: Fs, s: Setting): seq<Checksum> {
    Changed(Visible(listing, fs, s), Plans.ByKey(Visible(s.previous, fs, s)))
  }

  function VanishedKeys(listing: seq<Checksum>, fs: Fs, s: Setting): seq<string> {
    Plans.KeysOf(Vanished(Visible(s.previous, fs, s), Plans.ByKey(Visible(listing, fs, s))))
  }

  /** A poll downloads changed files that memory lacks, and then deletes vanished
      ones; it may stop anywhere. */
  ghost predicate PollEffect(before: Fs, after: Fs, served: map<string, Asset>, servedAfter: map<string, Asset>,
                             s: Setting, t: Trace) {
    var changed := ChangedFiles(t.listing, before, s);
    var wanted := Wanted(changed, before.files);
    && Downloaded(before, t.middle, served, t.servedMiddle, t.got, t.torn, s.codec)
    && (forall a :: a in t.got ==> a.key in wanted)
    && (t.torn.Some? ==> t.torn.value in wanted && t.dropped == [])
    && (t.got != [] || t.torn.Some? ==> forall c :: c in changed ==> !Diverged(before, c.key, s.codec))
    && t.dropped <= VanishedKeys(t.listing, before, s) && (s.options.nodelete ==> t.dropped == [])
    && DropPresent(t.middle, t.dropped) == Some(after)
    && servedAfter == t.servedMiddle - (AsSet(t.dropped) * t.middle.files.Keys)
  }

  /** The poll ran to its end: it asked for the listing, for every wanted file, and
      for nothing else, and it forgot what had vanished. */
  ghost predicate Completed(before: Fs, s: Setting, t: Trace) {
    && t.torn.None? && (s.options.nodelete || t.dropped == VanishedKeys(t.listing, before, s))
    && |t.calls| > 0 && t.calls[0] == List(Some(t.listing))
    && Fetched(t.calls[1..], Wanted(ChangedFiles(t.listing, before, s), before.files), t.got)
  }

  method Poll(fs: ThemeFileSystem, state: AppState, remote: RemoteTheme, options: Plans.Options,
              previous: seq<Checksum>, user: UserRegex)
      returns (latest: Option<seq<Checksum>>, ghost trace: Trace)
    modifies fs, state, remote
    ensures PollEffect(old(fs.Now()), fs.Now(), old(state.files), state.files,
                       Setting(options, previous, state.watch.unsynced, user, fs.codec), trace)
    ensures remote.calls == old(remote.calls) + trace.calls
    ensures latest.Some? ==>
              var s := Setting(options, previous, state.watch.unsynced, user, fs.codec);
              && latest.value == Visible(trace.listing, old(fs.Now()), s)
              && Completed(old(fs.Now()), s, trace)
  {
    hide Diverged, Downloaded, FilterJsonChecksums, DropPresent, Plans.ByKey, Changed, Vanished, Wanted, Fetched,
         Requested;
    var unsynced := state.watch.unsynced;
    ghost var s := Setting(options, previous, unsynced, user, fs.codec);
    ghost var start, served := fs.Now(), state.files;
    NothingYet(start, served, fs.codec);
    NoKeysDropped(start, served);
    var before := FilterJsonChecksums(previous, fs.filters, options.filters, unsynced, user);
    var listing := remote.FetchChecksums();
    trace := Trace([], [], None, [], start, served, [List(listing)]);
    if listing.None? { return None, trace; }
    trace := trace.(listing := listing.value);
    var now := FilterJsonChecksums(listing.value, fs.filters, options.filters, unsynced, user);
    var changed := Changed(now, Plans.ByKey(before));
    var deleted := Vanished(before, Plans.ByKey(now));
    var verdict := AbortIfMultipleSourcesChanged(fs, changed);
    if !verdict.Fine? { return None, trace; }
    var ok, got, torn, made := Download(fs, state, remote, Wanted(changed, fs.files));
    NoKeysDropped(fs.Now(), state.files);
    trace := Trace(listing.value, got, torn, [], fs.Now(), state.files, [List(listing)] + made);
    if !ok { return None, trace; }
    if !options.nodelete {
      var keys := Plans.KeysOf(deleted);
      var all, done := DropVanished(fs, state, keys);
      trace := trace.(dropped := keys[..done]);
      if !all { return None, trace; }
      assert keys[..|keys|] == keys;
    }
    assert trace.calls[1..] == made;
    return Some(now), trace;
  }

  lemma {:induction false} ChangedMeaning(latest: seq<Checksum>, previous: map<string, string>)
    ensures forall c :: c in Changed(latest, previous) <==>
              c in latest && !(c.key in previous && previous[c.key] == c.checksum)
  {
    if latest != [] {
      ChangedMeaning(latest[1..], previous);
      assert latest == [latest[0]] + latest[1..];
    }
  }

  /** Keys a poll may touch: JSON, admitted by both filters, and synced. */
  predicate Pollable(key: string, fs: Fs, s: Setting) {
    Shared(key, fs.filters, s.options.filters, s.unsynced, s.user)
  }

  lemma VisibleArePollable(checksums: seq<Checksum>, fs: Fs, s: Setting)
    ensures forall c :: c in Visible(checksums, fs, s) ==> Pollable(c.key, fs, s) && c in checksums
  {
    hide FilterJsonChecksums, Shared;
    JsonChecksums(checksums, fs.filters, s.options.filters, s.unsynced, s.user);
    var kept := Visible(checksums, fs, s);
    KeysInKeys(kept);
    forall c | c in kept ensures Pollable(c.key, fs, s) { assert c.key in KeysIn(kept); }
  }

  lemma WantedArePollable(listing: seq<Checksum>, fs: Fs, s: Setting)
    ensures forall k :: k in Wanted(ChangedFiles(listing, fs, s), fs.files) ==>
              Pollable(k, fs, s) && exists c :: c in ChangedFiles(listing, fs, s) && c.key == k
  {
    hide Visible, Pollable, Changed, Plans.ByKey, Plans.StaleKeys;
    var changed := ChangedFiles(listing, fs, s);
    PlanConvergence.StaleMeaning(changed, fs.files);
    ChangedMeaning(Visible(listing, fs, s), Plans.ByKey(Visible(s.previous, fs, s)));
    VisibleArePollable(listing, fs, s);
    forall k | k in Wanted(changed, fs.files) ensures Pollable(k, fs, s) && exists c :: c in changed && c.key == k {
      var i :| 0 <= i < |changed| && changed[i].key == k;
      assert changed[i] in changed;
    }
  }

  lemma VanishedArePollable(listing: seq<Checksum>, fs: Fs, s: Setting)
    ensures forall k :: k in VanishedKeys(listing, fs, s) ==> Pollable(k, fs, s)
  {
    hide Visible, Pollable, Plans.ByKey, Ignore.Select;
    var previous := Visible(s.previous, fs, s);
    var latest := Plans.ByKey(Visible(listing, fs, s));
    VisibleArePollable(s.previous, fs, s);
    SelectMembers(previous, ChecksumKey, k => k !in latest);
    var gone := Vanished(previous, latest);
    forall k | k in VanishedKeys(listing, fs, s) ensures Pollable(k, fs, s) {
      var i :| 0 <= i < |gone| && gone[i].key == k;
      assert gone[i] in gone;
    }
  }

  function TornKey(t: Trace): set<string> { if t.torn.Some? then {t.torn.value} else {} }

  /** The keys a poll wrote, tried to write, or deleted. */
  function Touched(t: Trace): set<string> { AssetKeys(t.got) + TornKey(t) + AsSet(t.dropped) }

  /** However a poll ends, it touches only JSON keys that both filters admit and
      that are synced, and overwrites no remembered file whose disk content had
      diverged. */
  lemma PollTouches(before: Fs, after: Fs, served: map<string, Asset>, servedAfter: map<string, Asset>, s: Setting,
                    t: Trace, key: string)
    requires PollEffect(before, after, served, servedAfter, s, t) && key in Touched(t)
    ensures Pollable(key, before, s)
    ensures key in AssetKeys(t.got) + TornKey(t) ==> !Diverged(before, key, s.codec)
    ensures key in AsSet(t.dropped) ==> !s.options.nodelete && key in VanishedKeys(t.listing, before, s)
  {
    hide Downloaded, Diverged, Pollable, DropPresent, ChangedFiles, VanishedKeys, Wanted;
    WantedArePollable(t.listing, before, s);
    VanishedArePollable(t.listing, before, s);
    if key in AsSet(t.dropped) {
      assert forall i :: 0 <= i < |t.dropped| ==> t.dropped[i] == VanishedKeys(t.listing, before, s)[i];
    }
  }

  lemma VisibleKeys(checksums: seq<Checksum>, fs: Fs, s: Setting)
    ensures forall k :: k in KeysIn(Visible(checksums, fs, s)) <==> k in KeysIn(checksums) && Pollable(k, fs, s)
  {
    hide FilterJsonChecksums, Shared;
    JsonChecksums(checksums, fs.filters, s.options.filters, s.unsynced, s.user);
    KeysInKeys(checksums);
    KeysInKeys(Visible(checksums, fs, s));
  }

  /** A file has vanished when the last listing had it and the new one has not. */
  predicate HasVanished(key: string, listing: seq<Checksum>, fs: Fs, s: Setting) {
    Pollable(key, fs, s) && (exists c :: c in s.previous && c.key == key) && forall c :: c in listing ==> c.key != key
  }

  lemma VanishedMeaning(listing: seq<Checksum>, fs: Fs, s: Setting)
    ensures forall k :: k in VanishedKeys(listing, fs, s) <==> HasVanished(k, listing, fs, s)
  {
    hide Visible, Pollable, Ignore.Select, Plans.Collect;
    var previous, latest := Visible(s.previous, fs, s), Visible(listing, fs, s);
    VisibleKeys(s.previous, fs, s);
    VisibleKeys(listing, fs, s);
    PlanConvergence.CollectKeys(latest, ChecksumKey, Plans.ChecksumValue);
    KeysInKeys(latest);
    SelectMembers(previous, ChecksumKey, k => k !in Plans.ByKey(latest));
    KeysOfSet(Vanished(previous, Plans.ByKey(latest)));
    forall k ensures k in VanishedKeys(listing, fs, s) <==> k in KeysIn(previous) && k !in KeysIn(latest) {
      InSet(VanishedKeys(listing, fs, s), k);
    }
  }

  /** A file that was edited on disk since it was remembered is forgotten by a complete
      poll, and removed from disk, exactly when it vanished from the remote and
      deletions are on: the edit does not save it. */
  lemma PollForgets(before: Fs, after: Fs, served: map<string, Asset>, servedAfter: map<string, Asset>, s: Setting,
                    t: Trace, key: string)
    requires PollEffect(before, after, served, servedAfter, s, t) && Completed(before, s, t)
    requires Diverged(before, key, s.codec)
    ensures var gone := !s.options.nodelete && HasVanished(key, t.listing, before, s);
            && (key in after.files <==> !gone)
            && (key in served ==> (key in servedAfter <==> !gone))
            && (key in before.disk ==> (key in after.disk <==> !gone))
            && (!gone ==> after.files[key] == before.files[key])
  {
    hide Downloaded, DropPresent, ChangedFiles, VanishedKeys, Wanted, Diverged, HasVanished, Fetched, AssetKeys, AsSet;
    VanishedMeaning(t.listing, before, s);
    InSet(t.dropped, key);
    DropMeaning(t.middle, t.dropped);
    if key in AssetKeys(t.got) { PollTouches(before, after, served, servedAfter, s, t, key); }
    IsRemembered(before, key, s.codec);
    DownloadSpares(before, t.middle, served, t.servedMiddle, t.got, s.codec, key);
  }

  lemma IsRemembered(fs: Fs, key: string, codec: Codec)
    requires Diverged(fs, key, codec)
    ensures key in fs.files
  {}

  lemma DownloadSpares(before: Fs, after: Fs, served: map<string, Asset>, servedAfter: map<string, Asset>,
                       got: seq<Asset>, codec: Codec, key: string)
    requires Downloaded(before, after, served, servedAfter, got, None, codec)
    requires key in before.files && key !in AssetKeys(got)
    ensures key in after.files && after.files[key] == before.files[key]
    ensures key in served ==> key in servedAfter
    ensures before.disk.Keys <= after.disk.Keys
  {
    hide WriteAll, Serve, AssetKeys;
    WriteAllTouches(before, got, codec);
    WriteAllKeepsPaths(before, got, codec);
    ServeKeys(served, got);
    assert key in after.files - AssetKeys(got) && (after.files - AssetKeys(got))[key] == after.files[key];
  }

  lemma {:induction false} DropsValid(fs: Fs, keys: seq<string>)
    requires forall k :: k in keys ==> ValidKey(k)
    ensures DropPresent(fs, keys).Some?
  {
    hide ValidKey;
    if keys != [] { DropsValid(fs, keys[..|keys| - 1]); }
  }

  const Config: string := "a.json"

  /** A theme with one file, edited on disk since it was remembered. */
  function Edited(codec: Codec, text: string): Fs {
    Fs(map[Config := Asset(Config, codec.digest(Config, text) + "?", None, None)], map[Config := text],
       Ignore.Filters([], [], []), None)
  }

  lemma ConfigIsShared(user: UserRegex)
    ensures ValidKey(Config) && Shared(Config, Ignore.Filters([], [], []), Ignore.Filters([], [], []), {}, user)
  {
    SplitJoin([Config], '/');
    hide Split;
    assert Config[|Config| - 5..] == ".json";
  }

  lemma EditedDiverged(codec: Codec, text: string)
    requires codec.isText(text) && ValidKey(Config)
    ensures Diverged(Edited(codec, text), Config, codec)
  {
    hide ValidKey, IsTextFile;
    var sum := codec.digest(Config, text);
    assert |sum + "?"| == |sum| + 1;
  }

  lemma NothingListed(fs: Fs, s: Setting)
    ensures Wanted(ChangedFiles([], fs, s), fs.files) == []
  {
    hide FilterJsonChecksums, Shared, Plans.ByKey;
    JsonChecksums([], fs.filters, s.options.filters, s.unsynced, s.user);
    var kept := Visible([], fs, s);
    assert forall i :: 0 <= i < |kept| ==> kept[i] in kept;
  }

  /** One poll that deletes a local edit. */
  lemma EditIsLost(codec: Codec, user: UserRegex, text: string) returns (s: Setting, t: Trace, after: Fs)
    requires codec.isText(text)
    ensures s.codec == codec && Diverged(Edited(codec, text), Config, codec)
    ensures PollEffect(Edited(codec, text), after, map[], map[], s, t) && Completed(Edited(codec, text), s, t)
    ensures Config !in after.files && Config !in after.disk
  {
    hide Diverged, Downloaded, DropPresent, VanishedKeys, Fetched, Wanted, ChangedFiles, ValidKey, Pollable;
    var none := Ignore.Filters([], [], []);
    var before := Edited(codec, text);
    s := Setting(Plans.Options(false, none), [Checksum(Config, "")], {}, user, codec);
    ConfigIsShared(user);
    EditedDiverged(codec, text);
    NothingListed(before, s);
    NothingYet(before, map[], codec);
    NoCalls();
    VanishedMeaning([], before, s);
    var dropped := VanishedKeys([], before, s);
    forall k | k in dropped ensures ValidKey(k) { assert HasVanished(k, [], before, s); }
    DropsValid(before, dropped);
    t := Trace([], [], None, dropped, before, map[], [List(Some([]))]);
    after := DropPresent(before, dropped).value;
    DropMeaning(before, dropped);
    assert t.calls[1..] == [];
    var served: map<string, Asset> := map[];
    assert served - (AsSet(dropped) * before.files.Keys) == served;
    assert [Checksum(Config, "")][0] in s.previous;
    assert Pollable(Config, before, s) by { PollableConfig(before, s); }
    assert HasVanished(Config, [], before, s);
    PollForgets(before, after, served, served, s, t, Config);
  }

  lemma PollableConfig(fs: Fs, s: Setting)
    requires fs.filters == s.options.filters == Ignore.Filters([], [], []) && s.unsynced == {}
    ensures Pollable(Config, fs, s)
  {
    ConfigIsShared(s.user);
  }

  /** Nothing but the touched keys and their paths changes, and the remembered and
      the served files keep the same keys, even after a failed step. */
  lemma PollKeepsRest(before: Fs, after: Fs, served: map<string, Asset>, servedAfter: map<string, Asset>, s: Setting,
                      t: Trace)
    requires PollEffect(before, after, served, servedAfter, s, t)
    ensures after.files - Touched(t) == before.files - Touched(t)
    ensures servedAfter - Touched(t) == served - Touched(t)
    ensures after.disk - AllPaths(before.listing, Touched(t)) == before.disk - AllPaths(before.listing, Touched(t))
    ensures before.files.Keys == served.Keys ==> after.files.Keys == servedAfter.Keys
  {
    hide Downloaded, DropPresent, ChangedFiles, VanishedKeys, Wanted, Diverged, AllPaths, AssetKeys, AsSet, PathsOf;
    DownloadKeepsRest(before, t.middle, served, t.servedMiddle, t.got, t.torn, s.codec);
    DropMeaning(t.middle, t.dropped);
    var wrote := AssetKeys(t.got) + TornKey(t);
    var dropped := AsSet(t.dropped);
    Combine(before.files, t.middle.files, wrote, dropped);
    Combine(served, t.servedMiddle, wrote, dropped * t.middle.files.Keys);
    Widen(served, t.servedMiddle - (dropped * t.middle.files.Keys), wrote + dropped * t.middle.files.Keys, wrote + dropped);
    Combine(before.disk, t.middle.disk, AllPaths(before.listing, wrote), dropped * t.middle.files.Keys);
    PathsGrow(before.listing, wrote, dropped, t.middle.files.Keys);
    Widen(before.disk, after.disk, AllPaths(before.listing, wrote) + dropped * t.middle.files.Keys,
          AllPaths(before.listing, wrote + dropped));
  }

  lemma DownloadKeepsRest(before: Fs, after: Fs, served: map<string, Asset>, servedAfter: map<string, Asset>,
                          got: seq<Asset>, torn: Option<string>, codec: Codec)
    requires Downloaded(before, after, served, servedAfter, got, torn, codec)
    ensures var wrote := AssetKeys(got) + if torn.Some? then {torn.value} else {};
            && after.filters == before.filters && after.listing == before.listing
            && after.files - wrote == before.files - wrote
            && after.files.Keys == before.files.Keys + AssetKeys(got)
            && servedAfter - wrote == served - wrote
            && servedAfter.Keys == served.Keys + AssetKeys(got)
            && after.disk - AllPaths(before.listing, wrote) == before.disk - AllPaths(before.listing, wrote)
  {
    hide WriteAll, Serve, AssetKeys, AllPaths, PathsOf, Written;
    var wrote := AssetKeys(got) + if torn.Some? then {torn.value} else {};
    WriteAllTouches(before, got, codec);
    ServeKeys(served, got);
    var full := WriteAll(before, got, codec).value;
    Widen(before.files, full.files, AssetKeys(got), wrote);
    Widen(served, servedAfter, AssetKeys(got), wrote);
    PathsOfMore(before.listing, AssetKeys(got), wrote);
    Widen(before.disk, full.disk, AllPaths(before.listing, AssetKeys(got)), AllPaths(before.listing, wrote));
    if torn.Some? {
      PathsOfOne(before.listing, torn.value, wrote);
      Widen(full.disk, after.disk, PathsOf(before.listing, torn.value), AllPaths(before.listing, wrote));
    }
  }

  lemma Widen<V>(a: map<string, V>, b: map<string, V>, some: set<string>, all: set<string>)
    requires b - some == a - some && some <= all
    ensures b - all == a - all
  {
    forall k | k !in all ensures (k in b <==> k in a) && (k in b ==> b[k] == a[k]) {
      assert k in b - some <==> k in a - some;
      assert k in b - some ==> (b - some)[k] == b[k];
    }
  }

  lemma Combine<V>(a: map<string, V>, b: map<string, V>, some: set<string>, gone: set<string>)
    requires b - some == a - some
    ensures (b - gone) - (some + gone) == a - (some + gone)
  {
    Widen(a, b, some, some + gone);
    assert (b - gone) - (some + gone) == b - (some + gone);
  }

  lemma PathsOfMore(listing: Option<string>, some: set<string>, all: set<string>)
    requires some <= all
    ensures AllPaths(listing, some) <= AllPaths(listing, all)
  {
    hide PathsOf;
  }

  lemma PathsOfOne(listing: Option<string>, key: string, all: set<string>)
    requires key in all
    ensures PathsOf(listing, key) <= AllPaths(listing, all)
  {
    hide PathsOf;
  }

  lemma PathsGrow(listing: Option<string>, wrote: set<string>, dropped: set<string>, files: set<string>)
    ensures AllPaths(listing, wrote) + dropped * files <= AllPaths(listing, wrote + dropped)
  {
    PathsOfMore(listing, wrote, wrote + dropped);
    forall k | k in dropped * files ensures k in AllPaths(listing, wrote + dropped) {
      assert k in PathsOf(listing, k);
    }
  }

  /** After a complete poll of an honest remote, memory has every changed shared
      file with the remote's checksum, and no vanished one; what memory did not have
      already is served with the remote's content. */
  lemma PollCatchesUp(before: Fs, after: Fs, served: map<string, Asset>, servedAfter: map<string, Asset>, s: Setting,
                      t: Trace, remote: map<string, string>, key: string)
    requires PollEffect(before, after, served, servedAfter, s, t) && Completed(before, s, t)
    requires PlanConvergence.IsListing(t.listing, Sums(remote, s.codec.digest))
    requires HonestCalls(t.calls, remote, s.codec)
    ensures var sum := Plans.ByKey(Visible(s.previous, before, s));
            && (key in remote && Pollable(key, before, s)
                && !(key in sum && sum[key] == s.codec.digest(key, remote[key])) ==>
                  && key in after.files && after.files[key].checksum == s.codec.digest(key, remote[key])
                  && (!(key in before.files && before.files[key].checksum == s.codec.digest(key, remote[key])) ==>
                        key in servedAfter && ContentOf(servedAfter[key], s.codec) == Some(remote[key])))
            && (key in VanishedKeys(t.listing, before, s) && !s.options.nodelete ==> key !in after.files)
  {
    hide Downloaded, DropPresent, ChangedFiles, VanishedKeys, Wanted, Diverged, Visible, Pollable, Plans.ByKey, AsSet,
         PlanConvergence.IsListing, Honest, Sums, Fetched;
    assert forall c :: c in t.calls[1..] ==> c in t.calls;
    FetchedHonestly(t.calls[1..], Wanted(ChangedFiles(t.listing, before, s), before.files), t.got, remote, s.codec);
    DropMeaning(t.middle, t.dropped);
    InSet(t.dropped, key);
    var sum := Plans.ByKey(Visible(s.previous, before, s));
    if key in remote && Pollable(key, before, s) && !(key in sum && sum[key] == s.codec.digest(key, remote[key])) {
      var changed := ChangedFiles(t.listing, before, s);
      ChangedListed(t.listing, remote, before, s, key);
      DownloadedChanged(before, t.middle, changed, t.got, remote, s.codec, served, t.servedMiddle, key);
      StillListed(t.listing, remote, before, s, key);
      assert key !in t.dropped;
    }
  }

  lemma InSet(keys: seq<string>, key: string)
    ensures key in AsSet(keys) <==> key in keys
  {}

  lemma ChangedListed(listing: seq<Checksum>, remote: map<string, string>, fs: Fs, s: Setting, key: string)
    requires PlanConvergence.IsListing(listing, Sums(remote, s.codec.digest))
    requires key in remote && Pollable(key, fs, s)
    requires var sum := Plans.ByKey(Visible(s.previous, fs, s));
             !(key in sum && sum[key] == s.codec.digest(key, remote[key]))
    ensures Checksum(key, s.codec.digest(key, remote[key])) in ChangedFiles(listing, fs, s)
  {
    hide FilterJsonChecksums, Shared, Plans.ByKey, PlanConvergence.IsListing, Keys;
    var kept := Visible(listing, fs, s);
    ListedVisible(listing, remote, fs, s, key);
    ChangedMeaning(kept, Plans.ByKey(Visible(s.previous, fs, s)));
  }

  lemma ListedVisible(listing: seq<Checksum>, remote: map<string, string>, fs: Fs, s: Setting, key: string)
    requires PlanConvergence.IsListing(listing, Sums(remote, s.codec.digest))
    requires key in remote && Pollable(key, fs, s)
    ensures Checksum(key, s.codec.digest(key, remote[key])) in Visible(listing, fs, s)
  {
    hide FilterJsonChecksums, Shared, PlanConvergence.IsListing, Keys;
    JsonChecksums(listing, fs.filters, s.options.filters, s.unsynced, s.user);
    var kept := Visible(listing, fs, s);
    KeysInKeys(kept);
    PlanConvergence.ListingKeys(listing, Sums(remote, s.codec.digest));
    assert key in KeysIn(kept);
    var c :| c in kept && c.key == key;
    PlanConvergence.FromListing(c, listing, Sums(remote, s.codec.digest));
  }

  /** A listed shared key has not vanished. */
  lemma StillListed(listing: seq<Checksum>, remote: map<string, string>, fs: Fs, s: Setting, key: string)
    requires PlanConvergence.IsListing(listing, Sums(remote, s.codec.digest))
    requires key in remote && Pollable(key, fs, s)
    ensures key !in VanishedKeys(listing, fs, s)
  {
    hide FilterJsonChecksums, Shared, PlanConvergence.IsListing, Keys, Ignore.Select, Plans.Collect;
    ListedVisible(listing, remote, fs, s, key);
    var latest, previous := Visible(listing, fs, s), Visible(s.previous, fs, s);
    PlanConvergence.CollectKeys(latest, ChecksumKey, Plans.ChecksumValue);
    KeysInKeys(latest);
    assert key in KeysIn(latest);
    SelectMembers(previous, ChecksumKey, k => k !in Plans.ByKey(latest));
    var gone := Vanished(previous, Plans.ByKey(latest));
    assert forall i :: 0 <= i < |gone| ==> gone[i] in gone;
  }

  lemma DownloadedChanged(before: Fs, after: Fs, changed: seq<Checksum>, got: seq<Asset>, remote: map<string, string>,
                          codec: Codec, served: map<string, Asset>, servedAfter: map<string, Asset>, key: string)
    requires Downloaded(before, after, served, servedAfter, got, None, codec)
    requires Honest(got, remote, Wanted(changed, before.files), codec)
    requires key in remote && Checksum(key, codec.digest(key, remote[key])) in changed
    ensures key in after.files && after.files[key].checksum == codec.digest(key, remote[key])
    ensures !(key in before.files && before.files[key].checksum == codec.digest(key, remote[key])) ==>
              key in servedAfter && ContentOf(servedAfter[key], codec) == Some(remote[key])
  {
    hide WriteAll, ContentOf, AsSet, Plans.StaleKeys, Serve;
    PlanConvergence.StaleMeaning(changed, before.files);
    InSet(Wanted(changed, before.files), key);
    WriteAllTouches(before, got, codec);
    var c := Checksum(key, codec.digest(key, remote[key]));
    assert PlanConvergence.IsStale(c, before.files) ==> key in AssetKeys(got);
    if key in AssetKeys(got) {
      WriteAllRemembers(before, got, codec, key);
      ServeHas(served, got, key);
    } else {
      assert key in after.files - AssetKeys(got) && (after.files - AssetKeys(got))[key] == after.files[key];
    }
  }

  /* ---------- reconciliation at start ---------- */

  method WriteBatch(fs: ThemeFileSystem, assets: seq<Asset>, ghost start: Fs, ghost earlier: seq<Asset>)
      returns (ok: bool)
    requires WriteAll(start, earlier, fs.codec) == Some(fs.Now())
    modifies fs
    ensures ok ==> WriteAll(start, earlier + assets, fs.codec) == Some(fs.Now())
  {
    hide *;
    assert earlier + [] == earlier;
    for i := 0 to |assets|
      invariant WriteAll(start, earlier + assets[..i], fs.codec) == Some(fs.Now())
    {
      ok := fs.Write(assets[i]);
      if !ok { return; }
      OneMore(start, map[], earlier + assets[..i], assets[i], fs.codec);
      assert earlier + assets[..i + 1] == earlier + assets[..i] + [assets[i]];
    }
    ok := true;
    assert assets[..|assets|] == assets;
  }

  method DeleteLocal(fs: ThemeFileSystem, keys: seq<string>) returns (ok: bool)
    modifies fs
    ensures ok ==> DeleteAll(old(fs.Now()), keys) == Some(fs.Now())
  {
    hide Deleted;
    for i := 0 to |keys|
      invariant DeleteAll(old(fs.Now()), keys[..i]) == Some(fs.Now())
    {
      assert keys[..i + 1][..i] == keys[..i];
      ok := fs.Delete(keys[i]);
      if !ok { return; }
    }
    ok := true;
    assert keys[..|keys|] == keys;
  }

  /** A reconciliation that succeeds has done the local steps of its plan with
      what the remote answered, after asking for every planned download, and then
      for every planned deletion, and last for the new listing. */
  method ApplyJsonReconciliation(fs: ThemeFileSystem, remote: RemoteTheme, plan: Plan)
      returns (checksums: Option<seq<Checksum>>, ghost got: seq<Asset>, ghost fetches: seq<Call>,
               ghost removals: seq<Call>)
    modifies fs, remote
    ensures checksums.Some? ==>
              && Applied(old(fs.Now()), plan, got, fs.codec) == Some(fs.Now())
              && remote.calls == old(remote.calls) + fetches + removals + [List(checksums)]
              && Fetched(fetches, plan.download, got) && Removed(removals, plan.remoteDelete)
  {
    hide WriteAll, DeleteAll, Fetched, Removed, Requested, Received;
    got, fetches, removals := [], [], [];
    NoCalls();
    var deleted := DeleteLocal(fs, plan.localDelete);
    if !deleted { return None, got, fetches, removals; }
    ghost var kept := fs.Now();
    WriteNone(kept, fs.codec);
    var i := 0;
    while i < |plan.download|
      invariant 0 <= i <= |plan.download|
      invariant WriteAll(kept, got, fs.codec) == Some(fs.Now())
      invariant remote.calls == old(remote.calls) + fetches && Fetched(fetches, plan.download[..i], got)
    {
      var next := if i + DownloadBatchSize < |plan.download| then i + DownloadBatchSize else |plan.download|;
      var assets := remote.FetchAssets(plan.download[i..next]);
      if assets.None? { return None, got, fetches, removals; }
      var ok := WriteBatch(fs, assets.value, kept, got);
      if !ok { return None, got, fetches, removals; }
      ghost var call := Fetch(plan.download[i..next], assets);
      OneMoreFetch(fetches, plan.download[..i], got, call);
      assert plan.download[..i] + plan.download[i..next] == plan.download[..next];
      got, fetches := got + assets.value, fetches + [call];
      i := next;
    }
    assert plan.download[..i] == plan.download;
    i := 0;
    while i < |plan.remoteDelete|
      invariant 0 <= i <= |plan.remoteDelete|
      invariant WriteAll(kept, got, fs.codec) == Some(fs.Now())
      invariant remote.calls == old(remote.calls) + fetches + removals && Removed(removals, plan.remoteDelete[..i])
    {
      var next := if i + Batches.MutationBatchSize < |plan.remoteDelete| then i + Batches.MutationBatchSize
                  else |plan.remoteDelete|;
      var results := remote.DeleteAssets(plan.remoteDelete[i..next]);
      if results.None? { return None, got, fetches, removals; }
      ghost var call := Remove(plan.remoteDelete[i..next], results);
      OneMoreRemoval(removals, plan.remoteDelete[..i], call);
      assert plan.remoteDelete[..i] + plan.remoteDelete[i..next] == plan.remoteDelete[..next];
      removals := removals + [call];
      i := next;
    }
    assert plan.remoteDelete[..i] == plan.remoteDelete;
    checksums := remote.FetchChecksums();
  }
}
