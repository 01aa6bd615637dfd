/** The remote theme: a call may fail or bring any answer about the keys it was
    asked for, and every call is remembered with its answer. */
module Remote {
  import opened Text
  import opened Theme
  import Batches

  const DownloadBatchSize: nat := 50

  datatype Call =
    | Fetch(keys: seq<string>, assets: Option<seq<Asset>>)
    | List(checksums: Option<seq<Checksum>>)
    | Upload(sent: seq<Asset>, results: Option<seq<RemoteResult>>)
    | Remove(keys: seq<string>, results: Option<seq<RemoteResult>>)

  class RemoteTheme {
    ghost var calls: seq<Call>

    constructor ()
      ensures calls == []
    {
      calls := [];
    }

    method FetchAssets(keys: seq<string>) returns (r: Option<seq<Asset>>)
      modifies this
      ensures calls == old(calls) + [Fetch(keys, r)]
      ensures r.Some? ==> forall a :: a in r.value ==> a.key in keys
    {
      r := *;
      if r.Some? && exists a :: a in r.value && a.key !in keys { r := None; }
      calls := calls + [Fetch(keys, r)];
    }

    method FetchChecksums() returns (r: Option<seq<Checksum>>)
      modifies this
      ensures calls == old(calls) + [List(r)]
    {
      r := *;
      calls := calls + [List(r)];
    }

    method UploadAssets(assets: seq<Asset>) returns (r: Option<seq<RemoteResult>>)
      modifies this
      ensures calls == old(calls) + [Upload(assets, r)]
    {
      r := *;
      calls := calls + [Upload(assets, r)];
    }

    method DeleteAssets(keys: seq<string>) returns (r: Option<seq<RemoteResult>>)
      modifies this
      ensures calls == old(calls) + [Remove(keys, r)]
    {
      r := *;
      calls := calls + [Remove(keys, r)];
    }
  }

  /* ---------- what was asked for, and what came ---------- */

  function Requested(calls: seq<Call>): seq<string> {
    if calls == [] then []
    else
      var last := calls[|calls| - 1];
      Requested(calls[..|calls| - 1]) + (if last.Fetch? || last.Remove? then last.keys else [])
  }

  function Received(calls: seq<Call>): seq<Asset> {
    if calls == [] then []
    else
      var last := calls[|calls| - 1];
      Received(calls[..|calls| - 1]) + (if last.Fetch? && last.assets.Some? then last.assets.value else [])
  }

  /** The keys were asked for in batches, each batch once and in order, every call was
      answered, and the answers together are `got`. */
  ghost predicate Fetched(calls: seq<Call>, keys: seq<string>, got: seq<Asset>) {
    && (forall c :: c in calls ==> c.Fetch? && |c.keys| <= DownloadBatchSize && c.assets.Some?)
    && Requested(calls) == keys && Received(calls) == got
  }

  /** The same for deletions. */
  ghost predicate Removed(calls: seq<Call>, keys: seq<string>) {
    && (forall c :: c in calls ==> c.Remove? && |c.keys| <= Batches.MutationBatchSize && c.results.Some?)
    && Requested(calls) == keys
  }

  lemma NoCalls()
    ensures Fetched([], [], []) && Removed([], [])
  {}

  lemma OneMoreFetch(calls: seq<Call>, keys: seq<string>, got: seq<Asset>, c: Call)
    requires Fetched(calls, keys, got) && c.Fetch? && |c.keys| <= DownloadBatchSize && c.assets.Some?
    ensures Fetched(calls + [c], keys + c.keys, got + c.assets.value)
  {
    assert (calls + [c])[..|calls|] == calls;
  }

  lemma OneMoreRemoval(calls: seq<Call>, keys: seq<string>, c: Call)
    requires Removed(calls, keys) && c.Remove? && |c.keys| <= Batches.MutationBatchSize && c.results.Some?
    ensures Removed(calls + [c], keys + c.keys)
  {
    assert (calls + [c])[..|calls|] == calls;
  }
}
