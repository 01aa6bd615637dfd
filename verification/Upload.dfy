/** Uploading one batch with bounded retry. */
module Upload {
  import opened Theme
  import opened Order

  const MaxUploadAttempts: nat := 3

  datatype Operation = UploadFile | DownloadFile | DeleteFile

  datatype Report = Report(key: string, operation: Operation, success: bool, errors: seq<string>)

  /** What one call of the remote brings: results, or an error of the whole call. */
  datatype Answer = Answered(results: seq<RemoteResult>) | Refused

  datatype Outcome = Reported(reports: seq<Report>) | Aborted

  /** Later results replace earlier ones of the same key. */
  function Record(final: map<string, RemoteResult>, results: seq<RemoteResult>): map<string, RemoteResult> {
    if results == [] then final
    else
      var last := results[|results| - 1];
      Record(final, results[..|results| - 1])[last.key := last]
  }

  /** The assets that have not been reported uploaded. */
  function Retain(pending: seq<Asset>, final: map<string, RemoteResult>): seq<Asset> {
    if pending == [] then []
    else
      (if pending[0].key in final && final[pending[0].key].success then [] else [pending[0]])
      + Retain(pending[1..], final)
  }

  /** Assets that no answer mentioned are reported as failed. */
  function Finish(final: map<string, RemoteResult>, pending: seq<Asset>): map<string, RemoteResult>
    decreases |pending|
  {
    if pending == [] then final
    else
      var key := pending[0].key;
      Finish(if key in final then final else final[key := RemoteResult(key, false, ["Upload failed"])], pending[1..])
  }

  function FromRemote(result: RemoteResult, operation: Operation): Report {
    Report(result.key, operation, result.success, result.errors)
  }

  function ReportsAt(final: map<string, RemoteResult>, keys: seq<string>): (r: seq<Report>)
    requires forall k :: k in keys ==> k in final
    ensures |r| == |keys| && forall i :: 0 <= i < |r| ==> r[i] == FromRemote(final[keys[i]], UploadFile)
  {
    if keys == [] then [] else [FromRemote(final[keys[0]], UploadFile)] + ReportsAt(final, keys[1..])
  }

  /** One report per key, in the order of the keys. */
  function Reports(final: map<string, RemoteResult>): seq<Report> {
    ReportsAt(final, Sorted(final.Keys))
  }

  predicate AllAnswered(answers: seq<Answer>, n: nat) {
    n <= |answers| && forall i :: 0 <= i < n ==> answers[i].Answered?
  }

  function FinalAfter(answers: seq<Answer>, n: nat): map<string, RemoteResult>
    requires AllAnswered(answers, n)
  {
    if n == 0 then map[] else Record(FinalAfter(answers, n - 1), answers[n - 1].results)
  }

  function PendingAfter(batch: seq<Asset>, answers: seq<Answer>, n: nat): seq<Asset>
    requires AllAnswered(answers, n)
  {
    if n == 0 then batch else Retain(PendingAfter(batch, answers, n - 1), FinalAfter(answers, n))
  }

  /** The loop of attempts.  `calls` is what was sent, call by call; the answer
      of call `i` is `answers[i]`. */
  method ReconcileUpload(batch: seq<Asset>, answers: seq<Answer>)
      returns (outcome: Outcome, calls: seq<seq<Asset>>)
    requires |answers| == MaxUploadAttempts
    ensures 1 <= |calls| <= MaxUploadAttempts && AllAnswered(answers, |calls| - 1)
    ensures forall i :: 0 <= i < |calls| ==> calls[i] == PendingAfter(batch, answers, i)
    ensures forall i :: 0 < i < |calls| ==> calls[i] != []
    ensures outcome.Aborted? <==> answers[|calls| - 1].Refused?
    ensures outcome.Reported? ==>
              && (|calls| == MaxUploadAttempts || PendingAfter(batch, answers, |calls|) == [])
              && outcome.reports
                 == Reports(Finish(FinalAfter(answers, |calls|), PendingAfter(batch, answers, |calls|)))
  {
    hide Record, Retain, FinalAfter, PendingAfter, Reports, Finish;
    var final: map<string, RemoteResult> := map[];
    var pending := batch;
    BeforeAttempts(batch, answers);
    calls := [];
    for attempt := 0 to MaxUploadAttempts
      invariant |calls| == attempt && AllAnswered(answers, attempt)
      invariant pending == PendingAfter(batch, answers, attempt) && final == FinalAfter(answers, attempt)
      invariant forall i :: 0 <= i < |calls| ==> calls[i] == PendingAfter(batch, answers, i)
      invariant forall i :: 0 < i < |calls| ==> calls[i] != []
      invariant attempt > 0 ==> pending != []
    {
      calls := calls + [pending];
      if answers[attempt].Refused? {
        return Aborted, calls;
      }
      AttemptStep(batch, answers, attempt);
      final := RecordAll(final, answers[attempt].results);
      pending := Retain(pending, final);
      if pending == [] {
        break;
      }
    }
    final := FinishAll(final, pending);
    outcome := Reported(Reports(final));
  }

  lemma BeforeAttempts(batch: seq<Asset>, answers: seq<Answer>)
    ensures FinalAfter(answers, 0) == map[] && PendingAfter(batch, answers, 0) == batch
  {}

  lemma AttemptStep(batch: seq<Asset>, answers: seq<Answer>, n: nat)
    requires AllAnswered(answers, n + 1)
    ensures FinalAfter(answers, n + 1) == Record(FinalAfter(answers, n), answers[n].results)
    ensures PendingAfter(batch, answers, n + 1) == Retain(PendingAfter(batch, answers, n), FinalAfter(answers, n + 1))
  {}

  method RecordAll(start: map<string, RemoteResult>, results: seq<RemoteResult>)
      returns (final: map<string, RemoteResult>)
    ensures final == Record(start, results)
  {
    final := start;
    for i := 0 to |results|
      invariant final == Record(start, results[..i])
    {
      assert results[..i + 1][..i] == results[..i];
      final := final[results[i].key := results[i]];
    }
    assert results[..|results|] == results;
  }

  method FinishAll(start: map<string, RemoteResult>, pending: seq<Asset>)
      returns (final: map<string, RemoteResult>)
    ensures final == Finish(start, pending)
  {
    final := start;
    for i := 0 to |pending|
      invariant Finish(final, pending[i..]) == Finish(start, pending)
    {
      var key := pending[i].key;
      assert pending[i..][0] == pending[i] && pending[i..][1..] == pending[i + 1..];
      if key !in final {
        final := final[key := RemoteResult(key, false, ["Upload failed"])];
      }
    }
  }

  /* ---------- what retry guarantees ---------- */

  ghost predicate HasKey(assets: seq<Asset>, key: string) {
    exists i :: 0 <= i < |assets| && assets[i].key == key
  }

  /** A remote that answers a call at most once per key, and only for its keys. */
  ghost predicate Honest(sent: seq<Asset>, results: seq<RemoteResult>) {
    && (forall i, j :: 0 <= i < j < |results| ==> results[i].key != results[j].key)
    && forall i :: 0 <= i < |results| ==> HasKey(sent, results[i].key)
  }

  /** The answer of call `i` reports the key uploaded. */
  ghost predicate SuccessIn(key: string, answers: seq<Answer>, i: nat)
    requires i < |answers|
  {
    && answers[i].Answered?
    && exists j :: 0 <= j < |answers[i].results|
         && answers[i].results[j].key == key && answers[i].results[j].success
  }

  ghost predicate Succeeded(key: string, answers: seq<Answer>, n: nat)
    requires n <= |answers|
  {
    exists i :: 0 <= i < n && SuccessIn(key, answers, i)
  }

  ghost predicate HonestRun(batch: seq<Asset>, answers: seq<Answer>, n: nat) {
    AllAnswered(answers, n) && forall i :: 0 <= i < n ==> Honest(PendingAfter(batch, answers, i), answers[i].results)
  }

  lemma {:induction false} RecordMeaning(final: map<string, RemoteResult>, results: seq<RemoteResult>)
    requires forall i, j :: 0 <= i < j < |results| ==> results[i].key != results[j].key
    ensures forall i :: 0 <= i < |results| ==>
              results[i].key in Record(final, results) && Record(final, results)[results[i].key] == results[i]
    ensures forall k :: (forall i :: 0 <= i < |results| ==> results[i].key != k) ==>
              (k in Record(final, results) <==> k in final)
              && (k in final ==> Record(final, results)[k] == final[k])
    decreases |results|
  {
    if results != [] {
      var front := results[..|results| - 1];
      assert forall i :: 0 <= i < |front| ==> front[i] == results[i];
      RecordMeaning(final, front);
    }
  }

  lemma {:induction false} RetainMeaning(pending: seq<Asset>, final: map<string, RemoteResult>)
    ensures forall a :: a in Retain(pending, final) <==> a in pending && !(a.key in final && final[a.key].success)
  {
    if pending != [] {
      RetainMeaning(pending[1..], final);
      assert pending == [pending[0]] + pending[1..];
    }
  }

  lemma {:induction false} FinishMeaning(final: map<string, RemoteResult>, pending: seq<Asset>)
    ensures forall k :: k in Finish(final, pending) <==> k in final || HasKey(pending, k)
    ensures forall k :: k in final ==> Finish(final, pending)[k] == final[k]
    ensures forall k :: k in Finish(final, pending) && k !in final ==> !Finish(final, pending)[k].success
    ensures (forall k :: k in final ==> final[k].key == k) ==>
              forall k :: k in Finish(final, pending) ==> Finish(final, pending)[k].key == k
    decreases |pending|
  {
    if pending != [] {
      var key, tail := pending[0].key, pending[1..];
      var next := if key in final then final else final[key := RemoteResult(key, false, ["Upload failed"])];
      FinishMeaning(next, tail);
      forall k ensures HasKey(pending, k) <==> k == key || HasKey(tail, k) {
        if HasKey(pending, k) && k != key {
          var i :| 0 <= i < |pending| && pending[i].key == k;
          assert tail[i - 1].key == k;
        }
        if HasKey(tail, k) {
          var i :| 0 <= i < |tail| && tail[i].key == k;
          assert pending[i + 1].key == k;
        }
        if k == key { assert pending[0].key == k; }
      }
    }
  }

  /** After `n` honest answers: the recorded results say who succeeded, and
      the pending assets are those of the batch that have not. */
  lemma {:induction false} AfterAttempts(batch: seq<Asset>, answers: seq<Answer>, n: nat)
    requires HonestRun(batch, answers, n)
    ensures var final := FinalAfter(answers, n);
            && (forall k :: k in final ==> final[k].key == k && HasKey(batch, k))
            && (forall k :: Succeeded(k, answers, n) <==> k in final && final[k].success)
            && (forall a :: a in PendingAfter(batch, answers, n) <==> a in batch && !Succeeded(a.key, answers, n))
    decreases n
  {
    hide Record, Retain, Succeeded, FinalAfter, PendingAfter, Honest, HasKey;
    if n == 0 {
      NothingSucceeded(answers);
      BeforeAttempts(batch, answers);
    } else {
      AfterAttempts(batch, answers, n - 1);
      AttemptStep(batch, answers, n - 1);
      RetainMeaning(PendingAfter(batch, answers, n - 1), FinalAfter(answers, n));
      forall k
        ensures k in FinalAfter(answers, n) ==> FinalAfter(answers, n)[k].key == k && HasKey(batch, k)
        ensures Succeeded(k, answers, n) <==> k in FinalAfter(answers, n) && FinalAfter(answers, n)[k].success
        ensures Succeeded(k, answers, n - 1) ==> Succeeded(k, answers, n)
      {
        KeyAfter(k, batch, answers, n);
      }
    }
  }

  lemma NothingSucceeded(answers: seq<Answer>)
    ensures forall k :: !Succeeded(k, answers, 0)
  {}

  lemma SucceededStep(k: string, answers: seq<Answer>, n: nat)
    requires 0 < n <= |answers|
    ensures Succeeded(k, answers, n) <==> Succeeded(k, answers, n - 1) || SuccessIn(k, answers, n - 1)
  {
    hide SuccessIn;
    if Succeeded(k, answers, n - 1) {
      var i :| 0 <= i < n - 1 && SuccessIn(k, answers, i);
      assert 0 <= i < n && SuccessIn(k, answers, i);
    }
  }

  /** One more answer keeps what the results say about a key. */
  lemma KeyAfter(k: string, batch: seq<Asset>, answers: seq<Answer>, n: nat)
    requires n > 0 && HonestRun(batch, answers, n)
    requires forall a :: a in PendingAfter(batch, answers, n - 1) ==> a in batch && !Succeeded(a.key, answers, n - 1)
    requires var before := FinalAfter(answers, n - 1);
             && (k in before ==> before[k].key == k && HasKey(batch, k))
             && (Succeeded(k, answers, n - 1) <==> k in before && before[k].success)
    ensures var final := FinalAfter(answers, n);
            && (k in final ==> final[k].key == k && HasKey(batch, k))
            && (Succeeded(k, answers, n) <==> k in final && final[k].success)
            && (Succeeded(k, answers, n - 1) ==> Succeeded(k, answers, n))
  {
    hide Record, Retain, Succeeded, FinalAfter, PendingAfter, HasKey, SuccessIn;
    var before, results := FinalAfter(answers, n - 1), answers[n - 1].results;
    AttemptStep(batch, answers, n - 1);
    SucceededStep(k, answers, n);
    AnswerOf(k, batch, answers, n);
    assert Honest(PendingAfter(batch, answers, n - 1), results);
    RecordMeaning(before, results);
    if i :| 0 <= i < |results| && results[i].key == k {
      assert Record(before, results)[k] == results[i];
    }
  }

  /** One key and the last answer. */
  lemma AnswerOf(k: string, batch: seq<Asset>, answers: seq<Answer>, n: nat)
    requires n > 0 && HonestRun(batch, answers, n)
    requires forall a :: a in PendingAfter(batch, answers, n - 1) ==> a in batch && !Succeeded(a.key, answers, n - 1)
    ensures var results := answers[n - 1].results;
            (forall i :: 0 <= i < |results| ==> results[i].key != k) ==> !SuccessIn(k, answers, n - 1)
    ensures var results := answers[n - 1].results;
            forall i :: 0 <= i < |results| && results[i].key == k ==>
              && HasKey(batch, k) && !Succeeded(k, answers, n - 1)
              && (SuccessIn(k, answers, n - 1) <==> results[i].success)
  {
    hide PendingAfter, FinalAfter, Succeeded;
    var sent, results := PendingAfter(batch, answers, n - 1), answers[n - 1].results;
    forall i | 0 <= i < |results| && results[i].key == k
      ensures HasKey(batch, k) && !Succeeded(k, answers, n - 1)
      ensures SuccessIn(k, answers, n - 1) <==> results[i].success
    {
      assert HasKey(sent, results[i].key);
      var j :| 0 <= j < |sent| && sent[j].key == k;
      assert sent[j] in batch;
      var m :| 0 <= m < |batch| && batch[m] == sent[j];
      assert batch[m].key == k;
    }
  }

  /** Bounded retry: an asset is sent in the first call, and in a later call
      exactly when no earlier answer reported it uploaded; one that failed was
      sent three times. */
  lemma RetrySends(batch: seq<Asset>, answers: seq<Answer>, n: nat)
    requires 1 <= n <= MaxUploadAttempts && HonestRun(batch, answers, n)
    requires n == MaxUploadAttempts || PendingAfter(batch, answers, n) == []
    ensures forall a, i :: a in batch && 0 <= i < n ==>
              (a in PendingAfter(batch, answers, i) <==> !Succeeded(a.key, answers, i))
    ensures forall a :: a in batch ==> a in PendingAfter(batch, answers, 0)
    ensures forall a :: a in batch && !Succeeded(a.key, answers, n) ==> n == MaxUploadAttempts
  {
    hide Retain, FinalAfter, Succeeded;
    forall i | 0 <= i <= n
      ensures forall a :: a in batch ==> (a in PendingAfter(batch, answers, i) <==> !Succeeded(a.key, answers, i))
    {
      AfterAttempts(batch, answers, i);
    }
  }

  /** Reporting a map of results: every key once, with its own result. */
  lemma ReportsMeaning(all: map<string, RemoteResult>)
    requires forall k :: k in all ==> all[k].key == k
    ensures var reports := Reports(all);
            && (forall i, j :: 0 <= i < j < |reports| ==> reports[i].key != reports[j].key)
            && (forall k :: k in all ==> exists i :: 0 <= i < |reports| && reports[i].key == k)
            && (forall i :: 0 <= i < |reports| ==>
                  reports[i].key in all && reports[i].success == all[reports[i].key].success)
  {
    hide Sorted, Le, ReportsAt;
    var keys, reports := Sorted(all.Keys), Reports(all);
    SortedIsSorted(all.Keys);
    assert forall i :: 0 <= i < |keys| ==> keys[i] in keys;
    forall k | k in all ensures exists i :: 0 <= i < |reports| && reports[i].key == k {
      assert k in keys;
      var i :| 0 <= i < |keys| && keys[i] == k;
      assert reports[i].key == k;
    }
  }

  /** The reports name every key of the batch once, as a success exactly when
      some answer reported one. */
  lemma RetryReports(batch: seq<Asset>, answers: seq<Answer>, n: nat)
    requires 1 <= n <= MaxUploadAttempts && HonestRun(batch, answers, n)
    ensures var reports := Reports(Finish(FinalAfter(answers, n), PendingAfter(batch, answers, n)));
            && (forall i, j :: 0 <= i < j < |reports| ==> reports[i].key != reports[j].key)
            && (forall k :: HasKey(batch, k) ==> exists i :: 0 <= i < |reports| && reports[i].key == k)
            && (forall i :: 0 <= i < |reports| ==> HasKey(batch, reports[i].key))
            && (forall i :: 0 <= i < |reports| ==>
                  reports[i].success == Succeeded(reports[i].key, answers, n))
  {
    hide Finish, FinalAfter, PendingAfter, Succeeded, HasKey, Reports, Sorted;
    var all := FinishedKeys(batch, answers, n);
    ReportsMeaning(all);
  }

  /** The finished results are keyed by the batch and say who succeeded. */
  lemma FinishedKeys(batch: seq<Asset>, answers: seq<Answer>, n: nat) returns (all: map<string, RemoteResult>)
    requires HonestRun(batch, answers, n)
    ensures all == Finish(FinalAfter(answers, n), PendingAfter(batch, answers, n))
    ensures forall k :: k in all <==> HasKey(batch, k)
    ensures forall k :: k in all ==> all[k].key == k
    ensures forall k :: k in all ==> all[k].success == Succeeded(k, answers, n)
  {
    hide Finish, FinalAfter, PendingAfter, Succeeded;
    var final, pending := FinalAfter(answers, n), PendingAfter(batch, answers, n);
    all := Finish(final, pending);
    AfterAttempts(batch, answers, n);
    FinishMeaning(final, pending);
    forall k ensures HasKey(batch, k) <==> k in final || HasKey(pending, k) {
      if HasKey(batch, k) && k !in final {
        var i :| 0 <= i < |batch| && batch[i].key == k;
        assert batch[i] in pending;
        var j :| 0 <= j < |pending| && pending[j] == batch[i];
        assert pending[j].key == k;
      }
      if HasKey(pending, k) {
        var j :| 0 <= j < |pending| && pending[j].key == k;
        assert pending[j] in batch;
        var i :| 0 <= i < |batch| && batch[i] == pending[j];
        assert batch[i].key == k;
      }
    }
  }
}
