/** Splitting uploads into batches of bounded count and size. */
module Batches {
  import opened Text
  import opened Theme

  const MutationBatchSize: nat := 20
  const UploadBatchBytes: nat := 1024 * 1024

  function Size(asset: Asset): nat {
    (if asset.value.Some? then |asset.value.value| else 0)
    + (if asset.attachment.Some? then |asset.attachment.value| else 0)
  }

  function Bytes(assets: seq<Asset>): nat {
    if assets == [] then 0 else Bytes(assets[..|assets| - 1]) + Size(assets[|assets| - 1])
  }

  /** What one batch may be: a single asset of any size, or a bounded list. */
  predicate Fits(batch: seq<Asset>) {
    |batch| == 1 || (1 < |batch| <= MutationBatchSize && Bytes(batch) <= UploadBatchBytes)
  }

  function Concat(parts: seq<seq<Asset>>): seq<Asset> {
    if parts == [] then [] else parts[0] + Concat(parts[1..])
  }

  /** A split of `assets`, in order, into batches that all fit. */
  predicate IsSplit(parts: seq<seq<Asset>>, assets: seq<Asset>) {
    Concat(parts) == assets && forall i :: 0 <= i < |parts| ==> Fits(parts[i])
  }

  /** The longest fitting prefix of at least `n` assets. */
  function Grow(assets: seq<Asset>, n: nat): (m: nat)
    requires 1 <= n <= |assets| && Fits(assets[..n])
    ensures n <= m <= |assets| && Fits(assets[..m])
    ensures m < |assets| ==> !Fits(assets[..m + 1])
    decreases |assets| - n
  {
    if n < |assets| && Fits(assets[..n + 1]) then Grow(assets, n + 1) else n
  }

  function Greedy(assets: seq<Asset>): (parts: seq<seq<Asset>>)
    decreases |assets|
  {
    if assets == [] then []
    else
      var n := Grow(assets, 1);
      [assets[..n]] + Greedy(assets[n..])
  }

  method UploadBatches(assets: seq<Asset>) returns (result: seq<seq<Asset>>)
    ensures result == Greedy(assets)
  {
    hide Bytes, Greedy, Fits, Size;
    result := [];
    var batch: seq<Asset> := [];
    var bytes := 0;
    NoBytes();
    assert [] + assets[0..] == assets;
    for i := 0 to |assets|
      invariant bytes == Bytes(batch) && (i > 0 ==> batch != []) && (batch != [] ==> Fits(batch))
      invariant result + Greedy(batch + assets[i..]) == Greedy(assets)
    {
      var asset := assets[i];
      var size := Size(asset);
      ghost var rest := assets[i..];
      if batch != [] && (|batch| >= MutationBatchSize || bytes + size > UploadBatchBytes) {
        NextAsset(batch, asset);
        BatchClosed(batch, rest);
        result := result + [batch];
        batch := [];
        bytes := 0;
        NoBytes();
        assert [] + rest == rest;
      }
      NextAsset(batch, asset);
      assert batch + [asset] + assets[i + 1..] == batch + rest;
      bytes := bytes + size;
      batch := batch + [asset];
    }
    assert batch + assets[|assets|..] == batch + [];
    GreedyOfNothing();
    if batch != [] {
      BatchClosed(batch, []);
      result := result + [batch];
    }
  }

  lemma NoBytes()
    ensures Bytes([]) == 0
  {}

  lemma GreedyOfNothing()
    ensures Greedy([]) == [] && Greedy([] + []) == []
  {}

  lemma NextAsset(batch: seq<Asset>, asset: Asset)
    ensures Bytes(batch + [asset]) == Bytes(batch) + Size(asset)
    ensures batch == [] ==> Fits(batch + [asset])
    ensures batch != [] ==> (Fits(batch + [asset]) <==>
              |batch| < MutationBatchSize && Bytes(batch) + Size(asset) <= UploadBatchBytes)
  {
    assert (batch + [asset])[..|batch|] == batch;
  }

  /** A batch that the next asset does not fit is the first greedy batch. */
  lemma BatchClosed(batch: seq<Asset>, rest: seq<Asset>)
    requires batch != [] && Fits(batch)
    requires rest != [] ==> !Fits(batch + [rest[0]])
    ensures Greedy(batch + rest) == [batch] + Greedy(rest)
  {
    hide Fits;
    var all := batch + rest;
    OneFits(all);
    var n := Grow(all, 1);
    assert all[..|batch|] == batch && all[|batch|..] == rest;
    PrefixFits(all, |batch|, n);
    PrefixesFit(all, n);
    assert rest != [] ==> all[..|batch| + 1] == batch + [rest[0]];
    assert n == |batch|;
  }

  lemma OneFits(assets: seq<Asset>)
    requires assets != []
    ensures Fits(assets[..1])
  {}

  lemma {:induction false} BytesPrefix(assets: seq<Asset>, n: nat)
    requires n <= |assets|
    ensures Bytes(assets[..n]) <= Bytes(assets)
    decreases |assets|
  {
    if n < |assets| {
      BytesPrefix(assets[..|assets| - 1], n);
      assert assets[..|assets| - 1][..n] == assets[..n];
    } else {
      assert assets[..n] == assets;
    }
  }

  lemma {:induction false} BytesSuffix(assets: seq<Asset>, n: nat)
    requires n <= |assets|
    ensures Bytes(assets[n..]) <= Bytes(assets)
    decreases |assets|
  {
    if n < |assets| {
      var suffix := assets[n..];
      assert suffix[..|suffix| - 1] == assets[..|assets| - 1][n..];
      BytesSuffix(assets[..|assets| - 1], n);
    }
  }

  lemma FitsPrefix(batch: seq<Asset>, n: nat)
    requires Fits(batch) && 1 <= n <= |batch|
    ensures Fits(batch[..n])
  {
    BytesPrefix(batch, n);
  }

  lemma FitsSuffix(batch: seq<Asset>, n: nat)
    requires Fits(batch) && n < |batch|
    ensures Fits(batch[n..])
  {
    BytesSuffix(batch, n);
  }

  lemma PrefixesFit(assets: seq<Asset>, n: nat)
    requires 1 <= n <= |assets| && Fits(assets[..n])
    ensures forall j :: 1 <= j <= n ==> Fits(assets[..j])
  {
    hide Fits;
    forall j | 1 <= j <= n ensures Fits(assets[..j]) {
      FitsPrefix(assets[..n], j);
      assert assets[..n][..j] == assets[..j];
    }
  }

  /** No fitting prefix is longer than the greedy one. */
  lemma PrefixFits(assets: seq<Asset>, n: nat, m: nat)
    requires 1 <= n <= |assets| && Fits(assets[..n])
    requires 1 <= m <= |assets| && (m < |assets| ==> !Fits(assets[..m + 1]))
    ensures n <= m
  {
    hide Fits;
    PrefixesFit(assets, n);
  }

  /** The greedy batches are a split: concatenated they are the list again. */
  lemma {:induction false} GreedyIsSplit(assets: seq<Asset>)
    ensures IsSplit(Greedy(assets), assets)
    decreases |assets|
  {
    if assets != [] {
      var n := Grow(assets, 1);
      GreedyIsSplit(assets[n..]);
      assert assets == assets[..n] + assets[n..];
    }
  }

  /** Dropping assets from the front never needs more batches. */
  lemma {:induction false} GreedySuffix(assets: seq<Asset>, k: nat)
    requires k <= |assets|
    ensures |Greedy(assets[k..])| <= |Greedy(assets)|
    decreases |assets|
  {
    hide Fits;
    if k < |assets| {
      OneFits(assets);
      OneFits(assets[k..]);
      var n := Grow(assets, 1);
      var rest := assets[n..];
      if k >= n {
        assert assets[k..] == rest[k - n..];
        GreedySuffix(rest, k - n);
      } else {
        var t := assets[k..];
        var m := Grow(t, 1);
        FitsSuffix(assets[..n], k);
        assert t[..n - k] == assets[..n][k..];
        PrefixFits(t, n - k, m);
        assert t[m..] == rest[m - (n - k)..];
        GreedySuffix(rest, m - (n - k));
      }
    }
  }

  /** No split of the list, in its order, has fewer batches. */
  lemma {:induction false} GreedyIsOptimal(assets: seq<Asset>, parts: seq<seq<Asset>>)
    requires IsSplit(parts, assets)
    ensures |Greedy(assets)| <= |parts|
    decreases |parts|
  {
    hide Greedy, Concat, Fits;
    SplitStep(parts);
    GreedyStep(assets);
    if parts != [] {
      var first, rest := parts[0], Concat(parts[1..]);
      assert assets == first + rest && assets[..|first|] == first;
      var n := Grow(assets, 1);
      PrefixFits(assets, |first|, n);
      assert assets[n..] == rest[n - |first|..];
      GreedySuffix(rest, n - |first|);
      assert forall i :: 0 <= i < |parts[1..]| ==> parts[1..][i] == parts[i + 1];
      GreedyIsOptimal(rest, parts[1..]);
    }
  }

  /** One unfolding of `Concat`. */
  lemma SplitStep(parts: seq<seq<Asset>>)
    ensures Concat(parts) == if parts == [] then [] else parts[0] + Concat(parts[1..])
    ensures forall i :: 0 <= i < |parts| && Fits(parts[i]) ==> parts[i] != []
  {}

  /** One unfolding of `Greedy`. */
  lemma GreedyStep(assets: seq<Asset>)
    ensures assets == [] ==> Greedy(assets) == []
    ensures assets != [] ==>
              && Fits(assets[..1])
              && Greedy(assets) == [assets[..Grow(assets, 1)]] + Greedy(assets[Grow(assets, 1)..])
  {
    hide Bytes;
  }

  /* ---------- the limits ---------- */

  function TextBytes(assets: seq<Asset>): nat {
    if assets == [] then 0
    else (if assets[0].value.Some? then |assets[0].value.value| else 0) + TextBytes(assets[1..])
  }

  function AttachmentBytes(assets: seq<Asset>): nat {
    if assets == [] then 0
    else (if assets[0].attachment.Some? then |assets[0].attachment.value| else 0) + AttachmentBytes(assets[1..])
  }

  lemma {:induction false} LastBytes(assets: seq<Asset>, last: Asset)
    ensures TextBytes(assets + [last]) == TextBytes(assets) + if last.value.Some? then |last.value.value| else 0
    ensures AttachmentBytes(assets + [last])
            == AttachmentBytes(assets) + if last.attachment.Some? then |last.attachment.value| else 0
  {
    var all := assets + [last];
    if assets == [] {
      assert all[1..] == [];
    } else {
      assert all[1..] == assets[1..] + [last];
      LastBytes(assets[1..], last);
    }
  }

  lemma {:induction false} BytesAreBoth(assets: seq<Asset>)
    ensures Bytes(assets) == TextBytes(assets) + AttachmentBytes(assets)
    decreases |assets|
  {
    if assets != [] {
      var front, last := assets[..|assets| - 1], assets[|assets| - 1];
      assert assets == front + [last];
      BytesAreBoth(front);
      LastBytes(front, last);
    }
  }

  /** No batch is empty or has more than twenty assets, and the texts and attachments of
      a batch of several are at most a mebibyte together. */
  lemma BatchesWithinLimits(assets: seq<Asset>, i: nat)
    requires i < |Greedy(assets)|
    ensures var batch := Greedy(assets)[i];
            && 1 <= |batch| <= 20
            && (|batch| > 1 ==> TextBytes(batch) + AttachmentBytes(batch) <= 1_048_576)
  {
    hide Greedy, Bytes;
    GreedyIsSplit(assets);
    BytesAreBoth(Greedy(assets)[i]);
  }
}
