/** What a push guarantees in every interleaving of its calls. */
module PushGuarantees {
  import opened Theme
  import opened UploadOrder
  import opened Batches
  import opened Plans
  import opened PushProtocol
  import opened PushInvariants
  import opened PushHistory

  /** Every job that holds the asset was sent whole and its attempts for the
      asset have ended; and there is such a job. */
  ghost predicate Attempted(log: seq<Event>, dep: bool, jobs: seq<Job>, a: Asset) {
    && InSomeJob(a, jobs)
    && forall j :: 0 <= j < |jobs| && a in jobs[j].batch ==>
         SentWhole(log, dep, j, jobs[j].batch) && AssetDone(log, dep, j, a)
  }

  /** Every asset of the plan is in a job of the right chain. */
  lemma PlannedJobs(plan: PushPlan)
    ensures Ranked(Init(plan).dependent.jobs, plan.upload, 1)
    ensures Ranked(Init(plan).independent.jobs, plan.upload, 0)
    ensures forall j :: 0 <= j < |Init(plan).independent.jobs| ==> Init(plan).independent.jobs[j].rank == 0
    ensures forall a :: a in plan.upload ==>
              InSomeJob(a, Init(plan).Get(Classify(a.key) != Independent).jobs)
  {
    hide Classify, InGroup, DependentGroups, Greedy, Ranked, InSomeJob, JobsOf, DependentJobs;
    DependentRanked(plan.upload, 0);
    InGroupMembers(plan.upload, Independent);
    GroupJobs(InGroup(plan.upload, Independent), plan.upload, 0);
  }

  lemma LongerLog(log: seq<Event>, i: nat, m: nat)
    requires i <= m <= |log|
    ensures log[..m][..i] == log[..i] && forall dep, job, a ::
              AssetDone(log[..i], dep, job, a) ==> AssetDone(log[..m], dep, job, a)
  {
    forall dep, job, a | AssetDone(log[..i], dep, job, a) ensures AssetDone(log[..m], dep, job, a) {
      var k :| 0 <= k < i && EndsAttempts(log[..i][k], dep, job, a);
      assert EndsAttempts(log[..m][k], dep, job, a);
    }
  }

  /** An ended attempt was made: the whole batch had been sent. */
  lemma DoneWasSent(s: State, i: nat, dep: bool, job: nat, a: Asset)
    requires Past(s) && i <= |s.log| && job < |s.Get(dep).jobs| && AssetDone(s.log[..i], dep, job, a)
    ensures SentWhole(s.log[..i], dep, job, s.Get(dep).jobs[job].batch)
  {
    hide ChainPast;
    var k :| 0 <= k < i && EndsAttempts(s.log[..i][k], dep, job, a);
    assert Timely(s, k);
    var m :| 0 <= m < k && s.log[..k][m] == Sent(dep, job, s.Get(dep).jobs[job].batch);
    assert s.log[..i][m] == s.log[..k][m];
  }

  /** Once all jobs that hold an asset are done, it was attempted. */
  lemma DoneIsAttempted(s: State, i: nat, dep: bool, a: Asset)
    requires Past(s) && i <= |s.log| && InSomeJob(a, s.Get(dep).jobs)
    requires forall j :: 0 <= j < |s.Get(dep).jobs| && a in s.Get(dep).jobs[j].batch ==>
               AssetDone(s.log[..i], dep, j, a)
    ensures Attempted(s.log[..i], dep, s.Get(dep).jobs, a)
  {
    hide AssetDone, SentWhole, Past, InSomeJob;
    var jobs := s.Get(dep).jobs;
    forall j | 0 <= j < |jobs| && a in jobs[j].batch ensures SentWhole(s.log[..i], dep, j, jobs[j].batch) {
      DoneWasSent(s, i, dep, j, a);
    }
  }

  /** An asset whose attempts have ended is not sent again. */
  lemma NeverSentAgain(run: seq<State>, plan: PushPlan, n: nat, i: nat, m: nat, dep: bool, a: Asset)
    requires IsRun(run, plan) && n < |run| && i <= m < |run[n].log|
    requires Attempted(run[n].log[..i], dep, Init(plan).Get(dep).jobs, a)
    requires run[n].log[m].Sent? && run[n].log[m].dependent == dep
    ensures a !in run[n].log[m].assets
  {
    hide Init, Next, AssetDone, SentWhole, DeletedKeys, Flatten, ChainInv, ChainPast, InSomeJob, JobsDone;
    var log := run[n].log;
    RunKeeps(run, plan, n);
    RunPast(run, plan, n);
    assert EventOk(run[n], m) && Timely(run[n], m);
    LongerLog(log, i, m);
  }

  /** The groups are sent in their order: from one dependent call to a later one the
      rank never falls, and nothing is sent after a file that needs it. */
  lemma RanksInOrder(run: seq<State>, plan: PushPlan, n: nat, i: nat, m: nat, a: Asset, b: Asset)
    requires IsRun(run, plan) && n < |run| && i <= m < |run[n].log|
    requires run[n].log[i].Sent? && run[n].log[i].dependent && a in run[n].log[i].assets
    requires run[n].log[m].Sent? && run[n].log[m].dependent && b in run[n].log[m].assets
    ensures Rank(Classify(a.key)) <= Rank(Classify(b.key)) && !NeededBy(b.key, a.key)
  {
    GroupsFollowNeeds(b.key, a.key);
    hide Classify, Init, Next, AssetDone, SentWhole, DeletedKeys, Flatten, ChainInv, ChainPast, JobsDone;
    var s, log := run[n], run[n].log;
    RunKeeps(run, plan, n);
    RunPast(run, plan, n);
    PlannedJobs(plan);
    assert EventOk(s, i) && EventOk(s, m) && Timely(s, m);
    assert OfChain(log[i], true);
    var jobs := s.Get(true).jobs;
    assert jobs == Init(plan).Get(true).jobs;
    assert i == m || log[i].job <= log[m].job;
    assert a in jobs[log[i].job].batch && b in jobs[log[m].job].batch;
  }

  /** When a file is sent that needs another planned file, that one was attempted,
      whichever of its batches it is in, and it is not sent any more; in every
      interleaving. */
  lemma DependenciesFirst(run: seq<State>, plan: PushPlan, n: nat, i: nat, a: Asset, b: Asset)
    requires IsRun(run, plan) && n < |run| && i < |run[n].log|
    requires run[n].log[i].Sent? && a in run[n].log[i].assets
    requires b in plan.upload && NeededBy(b.key, a.key)
    ensures Attempted(run[n].log[..i], true, Init(plan).dependent.jobs, b)
    ensures forall m :: i <= m < |run[n].log| && run[n].log[m].Sent? ==> b !in run[n].log[m].assets
  {
    hide Classify, Init, Next, AssetDone, DeletedKeys, Flatten, ChainInv, Past, SentWhole, InSomeJob, Attempted,
         NeededBy;
    var s, log := run[n], run[n].log;
    RunKeeps(run, plan, n);
    RunPast(run, plan, n);
    PlannedJobs(plan);
    GroupsFollowNeeds(b.key, a.key);
    if !log[i].dependent { OnlyIndependent(run, plan, n, i, a); }
    assert EventOk(s, i);
    var jobs := s.Get(true).jobs;
    assert jobs == Init(plan).Get(true).jobs;
    forall j | 0 <= j < |jobs| && b in jobs[j].batch ensures AssetDone(log[..i], true, j, b) {
      assert jobs[j].rank < jobs[log[i].job].rank;
    }
    DoneIsAttempted(s, i, true, b);
    forall m | i <= m < |log| && log[m].Sent? ensures b !in log[m].assets {
      if log[m].dependent {
        NeverSentAgain(run, plan, n, i, m, true, b);
      } else if b in log[m].assets {
        OnlyIndependent(run, plan, n, m, b);
      }
    }
  }

  /** The other chain sends independent assets only. */
  lemma OnlyIndependent(run: seq<State>, plan: PushPlan, n: nat, m: nat, b: Asset)
    requires IsRun(run, plan) && n < |run| && m < |run[n].log|
    requires run[n].log[m].Sent? && !run[n].log[m].dependent && b in run[n].log[m].assets
    ensures Rank(Classify(b.key)) == 0
  {
    hide Classify, Init, Next, AssetDone, DeletedKeys, Flatten, ChainInv, JobsDone;
    RunKeeps(run, plan, n);
    PlannedJobs(plan);
    assert EventOk(run[n], m);
    assert run[n].Get(false).jobs == Init(plan).Get(false).jobs;
  }

  /** When a deletion is sent, every asset of the plan was attempted, whichever of
      its batches it is in, no call has failed, and no upload follows. */
  lemma DeletionsLast(run: seq<State>, plan: PushPlan, n: nat, i: nat, b: Asset)
    requires IsRun(run, plan) && n < |run| && i < |run[n].log|
    requires run[n].log[i].DeleteSent? && b in plan.upload
    ensures Broke !in run[n].log[..i]
    ensures var dep := !Free(b.key);
            Attempted(run[n].log[..i], dep, Init(plan).Get(dep).jobs, b)
    ensures forall m :: i <= m < |run[n].log| ==> !run[n].log[m].Sent?
  {
    hide Classify, Init, Next, AssetDone, DeletedKeys, Flatten, ChainInv, ChainPast, SentWhole, InSomeJob, Attempted,
         Free;
    var s, log := run[n], run[n].log;
    RunKeeps(run, plan, n);
    RunPast(run, plan, n);
    PlannedJobs(plan);
    GroupsFollowNeeds(b.key, b.key);
    assert EventOk(s, i);
    var dep := !Free(b.key);
    assert s.Get(dep).jobs == Init(plan).Get(dep).jobs;
    DoneIsAttempted(s, i, dep, b);
    forall m | i <= m < |log| ensures !log[m].Sent? { assert Timely(s, m); }
  }

  /** Nothing is sent after a call has failed. */
  lemma NothingAfterFailure(run: seq<State>, plan: PushPlan, n: nat, i: nat)
    requires IsRun(run, plan) && n < |run| && i < |run[n].log|
    requires run[n].log[i] == Broke
    ensures i == |run[n].log| - 1
  {
    hide Next, Init;
    RunKeeps(run, plan, n);
  }

  lemma {:induction false} ChunksFlatten(keys: seq<string>, n: nat)
    requires n <= |Chunks(keys)|
    ensures Flatten(Chunks(keys)[..n]) <= keys
    ensures n == |Chunks(keys)| ==> Flatten(Chunks(keys)[..n]) == keys
    ensures forall i :: 0 <= i < |Chunks(keys)| ==> 0 < |Chunks(keys)[i]| <= MutationBatchSize
    decreases |keys|
  {
    var chunks := Chunks(keys);
    if |keys| > MutationBatchSize {
      var rest := keys[MutationBatchSize..];
      ChunksFlatten(rest, if n > 0 then n - 1 else 0);
      if n > 0 {
        assert chunks[..n] == [chunks[0]] + Chunks(rest)[..n - 1];
        FlattenFirst(chunks[0], Chunks(rest)[..n - 1]);
        assert keys == keys[..MutationBatchSize] + rest;
      } else {
        assert chunks[..0] == [];
      }
    } else if n == 1 {
      assert chunks[..1] == [keys] && [keys][..0] == [];
      assert [] + keys == keys;
    } else {
      assert chunks[..0] == [];
    }
  }

  lemma {:induction false} FlattenFirst(first: seq<string>, chunks: seq<seq<string>>)
    ensures Flatten([first] + chunks) == first + Flatten(chunks)
    decreases |chunks|
  {
    var all := [first] + chunks;
    if chunks == [] {
      assert all[..0] == [] && all == [first];
    } else {
      var front := chunks[..|chunks| - 1];
      assert all[..|all| - 1] == [first] + front;
      FlattenFirst(first, front);
    }
  }

  /** The keys deleted so far are a prefix of the planned ones in delete order, and
      no usual file is deleted before one that needs it. */
  lemma DeletionsInOrder(run: seq<State>, plan: PushPlan, n: nat)
    requires IsRun(run, plan) && n < |run|
    ensures DeletedKeys(run[n].log) <= OrderedDeletions(plan.delete)
    ensures InDeleteOrder(DeletedKeys(run[n].log))
    ensures var keys := DeletedKeys(run[n].log);
            forall i, j :: 0 <= i < j < |keys| && Usual(keys[i]) && Usual(keys[j]) ==> !NeededBy(keys[i], keys[j])
  {
    hide Next, EventOk, ChainInv, Before, DeletedKeys, Flatten, Work, OrderedDeletions, Chunks, DependentJobs, JobsOf,
         NeededBy, Usual;
    RunKeeps(run, plan, n);
    DeletionsAreOrdered(plan.delete);
    ChunksFlatten(OrderedDeletions(plan.delete), run[n].deleted + (if run[n].deleting then 1 else 0));
    var keys := DeletedKeys(run[n].log);
    forall i, j | 0 <= i < j < |keys| && Usual(keys[i]) && Usual(keys[j]) ensures !NeededBy(keys[i], keys[j]) {
      NotReversed(keys[i], keys[j]);
    }
  }

  lemma NotReversed(a: string, b: string)
    requires Usual(a) && Usual(b) && Before(a, b)
    ensures !NeededBy(a, b)
  {
    hide NeededBy, Usual, DeleteRank;
    if NeededBy(a, b) { DeletionsReverseUploads(a, b); }
  }

  /** A push that cannot go on and has not failed is complete: every planned asset was
      attempted, and every planned deletion was sent. */
  lemma PushCompletes(run: seq<State>, plan: PushPlan, n: nat)
    requires IsRun(run, plan) && n < |run| && !run[n].broken
    requires forall t :: !Next(run[n], t)
    ensures DeletedKeys(run[n].log) == OrderedDeletions(plan.delete)
    ensures forall b :: b in plan.upload ==>
              Attempted(run[n].log, !Free(b.key), Init(plan).Get(!Free(b.key)).jobs, b)
  {
    hide *;
    var s := run[n];
    RunKeeps(run, plan, n);
    RunPast(run, plan, n);
    if !AllDone(s) { GoesOn(s); }
    DoneState(s);
    DeletionsOfPlan(plan);
    ChunksFlatten(OrderedDeletions(plan.delete), |s.deletions|);
    assert s.log[..|s.log|] == s.log;
    PlannedJobs(plan);
    forall b | b in plan.upload
      ensures Attempted(s.log, !Free(b.key), Init(plan).Get(!Free(b.key)).jobs, b)
    {
      GroupsFollowNeeds(b.key, b.key);
      var dep := !Free(b.key);
      assert s.Get(dep).jobs == Init(plan).Get(dep).jobs;
      DoneIsAttempted(s, |s.log|, dep, b);
    }
  }

  lemma DeletionsOfPlan(plan: PushPlan)
    ensures Init(plan).deletions == Chunks(OrderedDeletions(plan.delete))
  {
    hide Chunks, OrderedDeletions, Work, JobsOf, DependentJobs;
  }

  /** What is known when all is done. */
  lemma DoneState(s: State)
    requires Inv(s) && AllDone(s)
    ensures DeletedKeys(s.log) == Flatten(s.deletions[..|s.deletions|])
    ensures forall dep, j, b :: 0 <= j < |s.Get(dep).jobs| && b in s.Get(dep).jobs[j].batch ==>
              AssetDone(s.log, dep, j, b)
  {
    hide AssetDone, DeletedKeys, Flatten, EventOk;
    assert s.Get(true) == s.dependent && s.Get(false) == s.independent;
  }

  predicate AllDone(s: State) {
    Finished(s.independent) && Finished(s.dependent) && !s.deleting && s.deleted >= |s.deletions|
  }

  /** A push that is neither done nor broken can go on. */
  lemma GoesOn(s: State)
    requires Inv(s) && !s.broken && !AllDone(s)
    ensures exists t :: Next(s, t)
  {
    hide JobsDone, AssetDone, DeletedKeys, Flatten, EventOk, Send, TakeAnswer;
    if s.deleting {
      assert Next(s, AnswerDelete(s));
    } else if CanDelete(s) {
      assert Next(s, SendDelete(s));
    } else {
      var dep :| !Finished(s.Get(dep));
      ChainGoesOn(s, dep);
    }
  }

  lemma ChainGoesOn(s: State, dep: bool)
    requires Inv(s) && !s.broken && !Finished(s.Get(dep))
    ensures exists t :: Next(s, t)
  {
    hide JobsDone, AssetDone, DeletedKeys, Flatten, EventOk, Send, TakeAnswer;
    if Idle(s.Get(dep)) {
      assert Next(s, Send(s, dep));
    } else {
      assert Waiting(s.Get(dep));
      assert Next(s, TakeAnswer(s, dep, []));
    }
  }
}
