/** What the watcher and the development server share: the keys not uploaded
    yet, and the errors of the last uploads. */
module Watch {
  import opened Theme

  type Errors = map<string, seq<string>>

  /** The error list after one more answer. */
  function Noted(errors: Errors, result: RemoteResult, operation: string): Errors {
    if result.success then errors - {result.key}
    else errors[result.key := result.errors + [operation + " failed"]]
  }

  function NotedAll(errors: Errors, results: seq<RemoteResult>, operation: string): Errors {
    if results == [] then errors
    else Noted(NotedAll(errors, results[..|results| - 1], operation), results[|results| - 1], operation)
  }

  class ThemeWatchState {
    var unsynced: set<string>
    var uploadErrors: Errors

    constructor ()
      ensures unsynced == {} && uploadErrors == map[]
    {
      unsynced, uploadErrors := {}, map[];
    }

    method MarkUnsynced(key: string)
      modifies this
      ensures unsynced == old(unsynced) + {key} && uploadErrors == old(uploadErrors)
    {
      unsynced := unsynced + {key};
    }

    method MarkSynced(key: string)
      modifies this
      ensures unsynced == old(unsynced) - {key} && uploadErrors == old(uploadErrors)
    {
      unsynced := unsynced - {key};
    }

    method RememberUploadErrors(results: seq<RemoteResult>, operation: string)
      modifies this
      ensures uploadErrors == NotedAll(old(uploadErrors), results, operation) && unsynced == old(unsynced)
    {
      for i := 0 to |results|
        invariant uploadErrors == NotedAll(old(uploadErrors), results[..i], operation) && unsynced == old(unsynced)
      {
        assert results[..i + 1][..i] == results[..i];
        if results[i].success {
          uploadErrors := uploadErrors - {results[i].key};
        } else {
          uploadErrors := uploadErrors[results[i].key := results[i].errors + [operation + " failed"]];
        }
      }
      assert results[..|results|] == results;
    }
  }

  /** Answer `i` is the last one about the key. */
  predicate LastAbout(results: seq<RemoteResult>, key: string, i: nat) {
    i < |results| && results[i].key == key && forall j :: i < j < |results| ==> results[j].key != key
  }

  /** The last answer about a key decides: it is in error exactly when that answer
      was a failure, and keys without an answer keep what they had. */
  lemma {:induction false} LastAnswerDecides(errors: Errors, results: seq<RemoteResult>, operation: string, key: string)
    ensures var after := NotedAll(errors, results, operation);
            && ((forall r :: r in results ==> r.key != key) ==>
                  (key in after <==> key in errors) && (key in after ==> after[key] == errors[key]))
            && forall i: nat :: LastAbout(results, key, i) ==>
                 (key in after <==> !results[i].success)
                 && (key in after ==> after[key] == results[i].errors + [operation + " failed"])
  {
    if results != [] {
      var n := |results| - 1;
      var front, last := results[..n], results[n];
      LastAnswerDecides(errors, front, operation, key);
      assert results == front + [last];
      var after := NotedAll(errors, results, operation);
      assert after == Noted(NotedAll(errors, front, operation), last, operation);
      hide NotedAll;
      if last.key == key {
        assert forall i: nat :: LastAbout(results, key, i) ==> i == n;
        assert results[n] in results;
      } else {
        forall i: nat | LastAbout(results, key, i) ensures LastAbout(front, key, i) && front[i] == results[i] {
          assert i != n;
        }
      }
    }
  }
}
