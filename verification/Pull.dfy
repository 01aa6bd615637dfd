/** A whole pull: downloads in batches, then local deletions, with one report. */
module Pull {
  import opened Text
  import opened Theme
  import Ignore
  import opened Order
  import opened FilterAlgebra
  import Plans
  import PlanConvergence
  import opened FileSystem
  import opened Remote
  import Reconciliation
  import DevServer

  datatype Operation = Download | Delete

  datatype Report = Report(key: string, operation: Operation, success: bool)

  ghost predicate Named(report: seq<Report>, key: string) { exists r :: r in report && r.key == key }

  /** What a report says about the requested keys: every one has an entry, and an
      entry is a success exactly when the file was received. */
  ghost predicate Tells(report: seq<Report>, requested: seq<string>, got: seq<Asset>) {
    && (forall r :: r in report ==> r.operation.Download? && r.key in requested)
    && (forall r :: r in report ==> (r.success <==> r.key in AssetKeys(got)))
    && (forall k :: k in requested ==> Named(report, k))
  }

  function Succeeded(assets: seq<Asset>): (r: seq<Report>)
    ensures |r| == |assets| && forall i :: 0 <= i < |r| ==> r[i] == Report(assets[i].key, Download, true)
  {
    if assets == [] then [] else [Report(assets[0].key, Download, true)] + Succeeded(assets[1..])
  }

  function NotReturned(keys: seq<string>): (r: seq<Report>)
    ensures |r| == |keys| && forall i :: 0 <= i < |r| ==> r[i] == Report(keys[i], Download, false)
  {
    if keys == [] then [] else [Report(keys[0], Download, false)] + NotReturned(keys[1..])
  }

  function Deletions(keys: seq<string>): (r: seq<Report>)
    ensures |r| == |keys| && forall i :: 0 <= i < |r| ==> r[i] == Report(keys[i], Delete, true)
  {
    if keys == [] then [] else [Report(keys[0], Delete, true)] + Deletions(keys[1..])
  }

  /** The entries of one batch: its answers, and then what was asked for in vain. */
  function BatchReport(batch: seq<string>, assets: seq<Asset>): seq<Report> {
    Succeeded(assets) + NotReturned(Sorted((set k | k in batch) - AssetKeys(assets)))
  }

  lemma SucceededMembers(assets: seq<Asset>)
    ensures forall r :: r in Succeeded(assets) <==> r.operation.Download? && r.success && r.key in AssetKeys(assets)
  {
    var list := Succeeded(assets);
    forall r | r in list ensures r.operation.Download? && r.success && r.key in AssetKeys(assets) {
      var i :| 0 <= i < |list| && list[i] == r;
      assert assets[i] in assets;
    }
    forall r: Report | r.operation.Download? && r.success && r.key in AssetKeys(assets) ensures r in list {
      var a :| a in assets && a.key == r.key;
      var i :| 0 <= i < |assets| && assets[i] == a;
      assert list[i] == r;
    }
  }

  lemma NotReturnedMembers(keys: seq<string>)
    ensures forall r :: r in NotReturned(keys) <==> r.operation.Download? && !r.success && r.key in keys
  {
    var list := NotReturned(keys);
    forall r: Report | r.operation.Download? && !r.success && r.key in keys ensures r in list {
      var i :| 0 <= i < |keys| && keys[i] == r.key;
      assert list[i] == r;
    }
  }

  lemma BatchMembers(batch: seq<string>, assets: seq<Asset>)
    ensures forall r :: r in BatchReport(batch, assets) <==>
              && r.operation.Download?
              && (if r.success then r.key in AssetKeys(assets) else r.key in batch && r.key !in AssetKeys(assets))
  {
    hide Sorted, AssetKeys, Succeeded, NotReturned;
    SucceededMembers(assets);
    NotReturnedMembers(Sorted((set k | k in batch) - AssetKeys(assets)));
  }

  lemma BatchTells(batch: seq<string>, assets: seq<Asset>)
    requires forall a :: a in assets ==> a.key in batch
    ensures Tells(BatchReport(batch, assets), batch, assets)
  {
    hide AssetKeys, BatchReport, Named;
    KeysWithin(batch, assets);
    BatchMembers(batch, assets);
    BatchNames(batch, assets);
  }

  lemma KeysWithin(batch: seq<string>, assets: seq<Asset>)
    requires forall a :: a in assets ==> a.key in batch
    ensures forall k :: k in AssetKeys(assets) ==> k in batch
  {}

  lemma BatchNames(batch: seq<string>, assets: seq<Asset>)
    ensures forall k :: k in batch ==> Named(BatchReport(batch, assets), k)
  {
    hide AssetKeys, BatchReport;
    BatchMembers(batch, assets);
    forall k | k in batch ensures Named(BatchReport(batch, assets), k) {
      assert Report(k, Download, k in AssetKeys(assets)) in BatchReport(batch, assets);
    }
  }

  lemma TellsMore(a: seq<Report>, b: seq<Report>, k: seq<string>, batch: seq<string>, got: seq<Asset>,
                  assets: seq<Asset>)
    requires Tells(a, k, got) && Tells(b, batch, assets)
    requires (forall x :: x in got ==> x.key in k) && (forall x :: x in assets ==> x.key in batch)
    requires forall x :: x in k ==> x !in batch
    ensures Tells(a + b, k + batch, got + assets)
  {
    assert AssetKeys(got + assets) == AssetKeys(got) + AssetKeys(assets);
    KeysWithin(k, got);
    KeysWithin(batch, assets);
    hide AssetKeys;
    forall key | key in k + batch ensures Named(a + b, key) {
      if key in k { var r :| r in a && r.key == key; assert r in a + b; }
      else { var r :| r in b && r.key == key; assert r in a + b; }
    }
    hide Named;
    forall r | r in a + b
      ensures r.operation.Download? && r.key in k + batch && (r.success <==> r.key in AssetKeys(got + assets))
    {
      if r in a { assert r.key in k; } else { assert r in b && r.key in batch; }
    }
  }

  ghost predicate NoRepeats(keys: seq<string>) {
    forall i, j :: 0 <= i < j < |keys| ==> keys[i] != keys[j]
  }

  lemma {:induction false} StaleNoRepeats(remote: seq<Checksum>, files: map<string, Asset>)
    requires Distinct(remote, ChecksumKey)
    ensures NoRepeats(Plans.StaleKeys(remote, files))
    ensures forall k :: k in Plans.StaleKeys(remote, files) ==> k in Keys(remote, ChecksumKey)
  {
    if remote != [] {
      var tail := remote[1..];
      assert forall i :: 0 <= i < |tail| ==> tail[i] == remote[i + 1];
      StaleNoRepeats(tail, files);
      KeysStep(remote, ChecksumKey);
      var rest := Plans.StaleKeys(tail, files);
      assert remote[0].key !in rest by {
        assert remote[0].key !in Keys(tail, ChecksumKey);
      }
    }
  }

  lemma DownloadNoRepeats(local: Plans.LocalTheme, listing: seq<Checksum>, options: Plans.Options,
                          user: Ignore.UserRegex)
    ensures NoRepeats(Plans.PlanPull(local, listing, options, user).download)
  {
    hide Plans.FilteredChecksums, Plans.StaleKeys, Ignore.Apply, Plans.ByKey, Sorted, Ignore.Select, Distinct,
         NoRepeats;
    PlanConvergence.FilteredKeys(listing, local.filters, options.filters, user);
    StaleNoRepeats(Plans.FilteredChecksums(listing, local.filters, options.filters, user), local.files);
  }

  lemma BatchApart(keys: seq<string>, i: nat, j: nat)
    requires i <= j <= |keys| && NoRepeats(keys)
    ensures forall k :: k in keys[..i] ==> k !in keys[i..j]
  {
    forall k | k in keys[..i] ensures k !in keys[i..j] {
      var a :| 0 <= a < i && keys[a] == k;
      assert forall b :: i <= b < j ==> keys[b] != k;
    }
  }

  /** A pull that succeeds has written what the remote returned and deleted what
      was planned; its report names every planned key, and a download as a success
      exactly when the remote returned the file. */
  method Pull(fs: ThemeFileSystem, remote: RemoteTheme, options: Plans.Options, user: Ignore.UserRegex)
      returns (report: Option<seq<Report>>, ghost listing: seq<Checksum>, ghost got: seq<Asset>,
               ghost fetches: seq<Call>)
    modifies fs, remote
    ensures report.Some? ==>
              && remote.calls == old(remote.calls) + [List(Some(listing))] + fetches
              && var plan := Plans.PlanPull(Plans.LocalTheme(old(fs.files), fs.filters), listing, options, user);
              && Pulled(old(fs.Now()), plan, got, fs.codec) == Some(fs.Now())
              && Fetched(fetches, plan.download, got)
              && (forall a :: a in got ==> a.key in plan.download) && |plan.delete| <= |report.value|
              && Tells(report.value[..|report.value| - |plan.delete|], plan.download, got)
              && report.value[|report.value| - |plan.delete|..] == Deletions(plan.delete)
  {
    hide WriteAll, DeleteAll, Plans.PlanPull, Tells, BatchReport, Deletions, Fetched, Requested, Received;
    got, fetches, listing := [], [], [];
    var answer := remote.FetchChecksums();
    if answer.None? { return None, listing, got, fetches; }
    listing := answer.value;
    var plan := Plans.PlanPull(Plans.LocalTheme(fs.files, fs.filters), answer.value, options, user);
    NoCalls();
    var entries: seq<Report> := [];
    WriteNone(fs.Now(), fs.codec);
    DownloadNoRepeats(Plans.LocalTheme(fs.files, fs.filters), listing, options, user);
    NothingTold();
    assert plan.download[..0] == [];
    var i := 0;
    while i < |plan.download|
      invariant 0 <= i <= |plan.download|
      invariant WriteAll(old(fs.Now()), got, fs.codec) == Some(fs.Now())
      invariant Tells(entries, plan.download[..i], got)
      invariant remote.calls == old(remote.calls) + [List(answer)] + fetches && Fetched(fetches, plan.download[..i], got)
      invariant forall a :: a in got ==> a.key in plan.download[..i]
    {
      var next := if i + DownloadBatchSize < |plan.download| then i + DownloadBatchSize else |plan.download|;
      var batch := plan.download[i..next];
      var assets := remote.FetchAssets(batch);
      if assets.None? { return None, listing, got, fetches; }
      var ok := DevServer.WriteBatch(fs, assets.value, old(fs.Now()), got);
      if !ok { return None, listing, got, fetches; }
      ghost var call := Fetch(batch, assets);
      OneMoreFetch(fetches, plan.download[..i], got, call);
      fetches := fetches + [call];
      BatchTells(batch, assets.value);
      BatchApart(plan.download, i, next);
      TellsMore(entries, BatchReport(batch, assets.value), plan.download[..i], batch, got, assets.value);
      entries := entries + BatchReport(batch, assets.value);
      got := got + assets.value;
      assert plan.download[..i] + batch == plan.download[..next];
      i := next;
    }
    assert plan.download[..i] == plan.download;
    ghost var middle := fs.Now();
    var deleted := DevServer.DeleteLocal(fs, plan.delete);
    if !deleted { return None, listing, got, fetches; }
    assert Pulled(old(fs.Now()), plan, got, fs.codec) == Some(fs.Now());
    var deletions := Deletions(plan.delete);
    var all := entries + deletions;
    assert all[..|all| - |deletions|] == entries && all[|all| - |deletions|..] == deletions;
    report := Some(all);
  }

  lemma NothingTold()
    ensures Tells([], [], [])
  {}

  function Pulled(fs: Fs, plan: Plans.PullPlan, got: seq<Asset>, codec: Codec): Option<Fs> {
    match WriteAll(fs, got, codec)
    case None => None
    case Some(written) => DeleteAll(written, plan.delete)
  }

  /** A pull from an honest remote that succeeds leaves a theme for which nothing
      more is planned. */
  lemma PulledSettles(fs: Fs, listing: seq<Checksum>, remote: map<string, string>, options: Plans.Options,
                      got: seq<Asset>, codec: Codec, user: Ignore.UserRegex)
    requires PlanConvergence.IsListing(listing, Reconciliation.Sums(remote, codec.digest))
    requires var plan := Plans.PlanPull(Plans.LocalTheme(fs.files, fs.filters), listing, options, user);
             Reconciliation.Honest(got, remote, plan.download, codec) && Pulled(fs, plan, got, codec).Some?
    ensures var plan := Plans.PlanPull(Plans.LocalTheme(fs.files, fs.filters), listing, options, user);
            var after := Pulled(fs, plan, got, codec).value;
            Plans.PlanPull(Plans.LocalTheme(after.files, after.filters), listing, options, user)
            == Plans.PullPlan([], [])
  {
    hide WriteAll, DeleteAll, Plans.PlanPull, FetchedFiles, PlanConvergence.Fetched, PlanConvergence.IsListing,
         Reconciliation.Honest, Reconciliation.Sums;
    var local := Plans.LocalTheme(fs.files, fs.filters);
    var plan := Plans.PlanPull(local, listing, options, user);
    var written := WriteAll(fs, got, codec).value;
    var fetched := FetchedFiles(fs, got, codec);
    WriteAllTouches(fs, got, codec);
    DeleteAllEffect(written, plan.delete);
    FetchedMap(fs, listing, remote, options, got, codec, user);
    PlanConvergence.PullSettles(local, listing, options, user, fetched);
    FilesAre(fs, got, codec);
    assert PlanConvergence.AfterPull(local, plan, fetched)
           == Plans.LocalTheme(written.files - (set k | k in plan.delete), fs.filters);
  }

  ghost function FetchedFiles(fs: Fs, got: seq<Asset>, codec: Codec): map<string, Asset>
    requires WriteAll(fs, got, codec).Some?
  {
    var files := WriteAll(fs, got, codec).value.files;
    map k | k in AssetKeys(got) && k in files :: files[k]
  }

  lemma FilesAre(fs: Fs, got: seq<Asset>, codec: Codec)
    requires WriteAll(fs, got, codec).Some?
    ensures WriteAll(fs, got, codec).value.files == fs.files + FetchedFiles(fs, got, codec)
  {
    hide WriteAll, AssetKeys;
    WriteAllTouches(fs, got, codec);
    var files := WriteAll(fs, got, codec).value.files;
    forall k | k in files && k !in AssetKeys(got) ensures k in fs.files && fs.files[k] == files[k] {
      assert k in files - AssetKeys(got) && (files - AssetKeys(got))[k] == files[k];
    }
  }

  lemma FetchedOne(fs: Fs, remote: map<string, string>, got: seq<Asset>, codec: Codec, keys: seq<string>, k: string)
    requires Reconciliation.Honest(got, remote, keys, codec) && WriteAll(fs, got, codec).Some?
    ensures k in FetchedFiles(fs, got, codec) <==> k in keys
    ensures k in keys ==> k in remote && FetchedFiles(fs, got, codec)[k].checksum == codec.digest(k, remote[k])
  {
    hide WriteAll, ContentOf, AssetKeys;
    WriteAllTouches(fs, got, codec);
    if k in AssetKeys(got) { WriteAllRemembers(fs, got, codec, k); }
  }

  lemma SumOf(remote: map<string, string>, codec: Codec, k: string)
    requires k in remote
    ensures k in Reconciliation.Sums(remote, codec.digest)
    ensures Reconciliation.Sums(remote, codec.digest)[k] == codec.digest(k, remote[k])
  {}

  lemma FetchedMap(fs: Fs, listing: seq<Checksum>, remote: map<string, string>, options: Plans.Options,
                   got: seq<Asset>, codec: Codec, user: Ignore.UserRegex)
    requires PlanConvergence.IsListing(listing, Reconciliation.Sums(remote, codec.digest))
    requires var plan := Plans.PlanPull(Plans.LocalTheme(fs.files, fs.filters), listing, options, user);
             Reconciliation.Honest(got, remote, plan.download, codec)
    requires WriteAll(fs, got, codec).Some?
    ensures PlanConvergence.Fetched(FetchedFiles(fs, got, codec), Plans.LocalTheme(fs.files, fs.filters), listing,
                                    options, user)
  {
    hide WriteAll, FetchedFiles, Plans.FilteredChecksums, Plans.StaleKeys, Ignore.Apply, Plans.ByKey, Sorted,
         Ignore.Select,
         PlanConvergence.IsListing, Reconciliation.Honest, Reconciliation.Sums, Keys;
    var list := Plans.FilteredChecksums(listing, fs.filters, options.filters, user);
    var stale := Plans.StaleKeys(list, fs.files);
    var fetched := FetchedFiles(fs, got, codec);
    PlanConvergence.FilteredKeys(listing, fs.filters, options.filters, user);
    forall k ensures k in fetched <==> k in stale { FetchedOne(fs, remote, got, codec, stale, k); }
    forall i | 0 <= i < |list| && list[i].key in fetched ensures fetched[list[i].key].checksum == list[i].checksum {
      FetchedOne(fs, remote, got, codec, stale, list[i].key);
      assert list[i] in list;
      PlanConvergence.FromListing(list[i], listing, Reconciliation.Sums(remote, codec.digest));
      SumOf(remote, codec, list[i].key);
    }
  }
}
