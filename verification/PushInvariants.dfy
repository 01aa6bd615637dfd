/** What every step of a push keeps, and which assets its batches hold. */
module PushInvariants {
  import opened Theme
  import opened UploadOrder
  import opened Batches
  import opened Upload
  import opened Plans
  import opened PushProtocol

  /** Some answer in the log ends the attempts for an asset of a job. */
  ghost predicate AssetDone(log: seq<Event>, dep: bool, job: nat, a: Asset) {
    exists i :: 0 <= i < |log| && EndsAttempts(log[i], dep, job, a)
  }

  predicate EndsAttempts(e: Event, dep: bool, job: nat, a: Asset) {
    e.Settled? && e.dependent == dep && e.job == job && (e.last || a !in e.left)
  }

  ghost predicate JobsDone(log: seq<Event>, dep: bool, jobs: seq<Job>, n: nat) {
    forall j, a :: 0 <= j < n && j < |jobs| && a in jobs[j].batch ==> AssetDone(log, dep, j, a)
  }

  ghost predicate ChainInv(c: Chain, dep: bool, log: seq<Event>) {
    && c.at <= |c.jobs|
    && (c.inFlight ==> c.at < |c.jobs|)
    && c.answered < MaxUploadAttempts
    && JobsDone(log, dep, c.jobs, c.at)
    && (c.at < |c.jobs| ==>
          && (forall a :: a in c.pending ==> a in c.jobs[c.at].batch)
          && (forall a :: a in c.jobs[c.at].batch && a !in c.pending ==> AssetDone(log, dep, c.at, a)))
  }

  /** The event at position `i` came when it was allowed to. */
  ghost predicate EventOk(s: State, i: nat)
    requires i < |s.log|
  {
    match s.log[i]
    case Sent(dep, job, assets) =>
      && job < |s.Get(dep).jobs|
      && (forall a :: a in assets ==> a in s.Get(dep).jobs[job].batch)
      && JobsDone(s.log[..i], dep, s.Get(dep).jobs, job)
    case DeleteSent(_) =>
      && JobsDone(s.log[..i], false, s.independent.jobs, |s.independent.jobs|)
      && JobsDone(s.log[..i], true, s.dependent.jobs, |s.dependent.jobs|)
      && Broke !in s.log[..i]
    case _ => true
  }

  function DeletedKeys(log: seq<Event>): seq<string> {
    if log == [] then []
    else DeletedKeys(log[..|log| - 1]) + (if log[|log| - 1].DeleteSent? then log[|log| - 1].keys else [])
  }

  function Flatten(chunks: seq<seq<string>>): seq<string> {
    if chunks == [] then [] else Flatten(chunks[..|chunks| - 1]) + chunks[|chunks| - 1]
  }

  ghost predicate Inv(s: State) {
    && ChainInv(s.independent, false, s.log)
    && ChainInv(s.dependent, true, s.log)
    && (s.broken <==> Broke in s.log)
    && (forall i :: 0 <= i < |s.log| && s.log[i] == Broke ==> i == |s.log| - 1)
    && s.deleted <= |s.deletions|
    && (s.deleting ==> s.deleted < |s.deletions|)
    && (s.deleting || s.deleted > 0 ==> Finished(s.independent) && Finished(s.dependent))
    && DeletedKeys(s.log) == Flatten(s.deletions[..s.deleted + (if s.deleting then 1 else 0)])
    && forall i :: 0 <= i < |s.log| ==> EventOk(s, i)
  }

  lemma DoneStays(log: seq<Event>, e: Event, dep: bool, jobs: seq<Job>, n: nat)
    requires JobsDone(log, dep, jobs, n)
    ensures JobsDone(log + [e], dep, jobs, n)
  {
    forall j, a | 0 <= j < n && j < |jobs| && a in jobs[j].batch ensures AssetDone(log + [e], dep, j, a) {
      AssetStays(log, e, dep, j, a);
    }
  }

  lemma AssetStays(log: seq<Event>, e: Event, dep: bool, job: nat, a: Asset)
    requires AssetDone(log, dep, job, a)
    ensures AssetDone(log + [e], dep, job, a)
  {
    var i :| 0 <= i < |log| && EndsAttempts(log[i], dep, job, a);
    assert EndsAttempts((log + [e])[i], dep, job, a);
  }

  lemma ChainStays(c: Chain, dep: bool, log: seq<Event>, e: Event)
    requires ChainInv(c, dep, log)
    ensures ChainInv(c, dep, log + [e])
  {
    hide AssetDone, JobsDone;
    DoneStays(log, e, dep, c.jobs, c.at);
    if c.at < |c.jobs| {
      forall a | a in c.jobs[c.at].batch && a !in c.pending ensures AssetDone(log + [e], dep, c.at, a) {
        AssetStays(log, e, dep, c.at, a);
      }
    }
  }

  /** Earlier events stay allowed when the jobs stay the same. */
  lemma EventsStay(s: State, t: State, e: Event)
    requires t.log == s.log + [e] && forall dep :: t.Get(dep).jobs == s.Get(dep).jobs
    requires forall i :: 0 <= i < |s.log| ==> EventOk(s, i)
    ensures forall i :: 0 <= i < |s.log| ==> EventOk(t, i)
  {
    hide JobsDone;
    assert t.independent.jobs == t.Get(false).jobs && t.dependent.jobs == t.Get(true).jobs;
    assert s.independent.jobs == s.Get(false).jobs && s.dependent.jobs == s.Get(true).jobs;
    forall i | 0 <= i < |s.log| ensures EventOk(t, i) {
      assert EventOk(s, i);
      assert t.log[i] == s.log[i] && t.log[..i] == s.log[..i];
    }
  }

  lemma SendKeeps(s: State, dep: bool)
    requires Inv(s) && !s.broken && Idle(s.Get(dep))
    ensures Inv(Send(s, dep))
  {
    hide AssetDone, JobsDone, Flatten;
    var t := Send(s, dep);
    var e := Sent(dep, s.Get(dep).at, s.Get(dep).pending);
    ChainStays(s.independent, false, s.log, e);
    ChainStays(s.dependent, true, s.log, e);
    EventsStay(s, t, e);
    LogGrows(s.log, e);
  }

  lemma LogGrows(log: seq<Event>, e: Event)
    ensures (log + [e])[|log|] == e && (log + [e])[..|log|] == log
    ensures DeletedKeys(log + [e]) == DeletedKeys(log) + (if e.DeleteSent? then e.keys else [])
  {}

  lemma AnswerKeeps(s: State, dep: bool, results: seq<RemoteResult>)
    requires Inv(s) && !s.broken && Waiting(s.Get(dep))
    ensures Inv(TakeAnswer(s, dep, results))
  {
    hide AssetDone, JobsDone, Flatten, Record, Retain;
    var c, t := s.Get(dep), TakeAnswer(s, dep, results);
    var left := Retain(c.pending, Record(c.final, results));
    var e := Settled(dep, c.at, left, c.answered + 1 == MaxUploadAttempts);
    ChainStays(s.independent, false, s.log, e);
    ChainStays(s.dependent, true, s.log, e);
    EventsStay(s, t, e);
    LogGrows(s.log, e);
    RetainWithin(c.pending, Record(c.final, results));
    AnswerChain(c, t.Get(dep), dep, s.log, e);
  }

  lemma AnswerChain(c: Chain, next: Chain, dep: bool, log: seq<Event>, e: Event)
    requires ChainInv(c, dep, log + [e]) && Waiting(c)
    requires e.Settled? && e.dependent == dep && e.job == c.at && (e.last <==> c.answered + 1 == MaxUploadAttempts)
    requires forall a :: a in e.left ==> a in c.pending
    requires next.jobs == c.jobs
    requires if e.left == [] || e.last then next == Enter(c.jobs, c.at + 1)
             else next.at == c.at && next.pending == e.left && next.answered == c.answered + 1 && !next.inFlight
    ensures ChainInv(next, dep, log + [e])
  {
    hide AssetDone;
    forall a | a in c.jobs[c.at].batch && (e.last || a !in e.left) ensures AssetDone(log + [e], dep, c.at, a) {
      LastEvent(log, e, dep, c.at, a);
    }
  }

  lemma LastEvent(log: seq<Event>, e: Event, dep: bool, job: nat, a: Asset)
    requires EndsAttempts(e, dep, job, a)
    ensures AssetDone(log + [e], dep, job, a)
  {
    assert (log + [e])[|log|] == e;
  }

  lemma {:induction false} RetainWithin(pending: seq<Asset>, final: map<string, RemoteResult>)
    ensures forall a :: a in Retain(pending, final) ==> a in pending
  {
    if pending != [] { RetainWithin(pending[1..], final); }
  }

  lemma BreakKeeps(s: State)
    requires Inv(s) && !s.broken
    ensures Inv(Break(s))
  {
    hide AssetDone, JobsDone, Flatten, ChainInv;
    ChainStays(s.independent, false, s.log, Broke);
    ChainStays(s.dependent, true, s.log, Broke);
    EventsStay(s, Break(s), Broke);
    LogGrows(s.log, Broke);
  }

  lemma SendDeleteKeeps(s: State)
    requires Inv(s) && !s.broken && CanDelete(s)
    ensures Inv(SendDelete(s))
  {
    hide AssetDone, JobsDone;
    var e := DeleteSent(s.deletions[s.deleted]);
    ChainStays(s.independent, false, s.log, e);
    ChainStays(s.dependent, true, s.log, e);
    EventsStay(s, SendDelete(s), e);
    LogGrows(s.log, e);
    assert s.deletions[..s.deleted + 1][..s.deleted] == s.deletions[..s.deleted];
  }

  lemma AnswerDeleteKeeps(s: State)
    requires Inv(s) && !s.broken && s.deleting
    ensures Inv(AnswerDelete(s))
  {
    hide AssetDone, JobsDone, Flatten, ChainInv;
    ChainStays(s.independent, false, s.log, DeleteAnswered);
    ChainStays(s.dependent, true, s.log, DeleteAnswered);
    EventsStay(s, AnswerDelete(s), DeleteAnswered);
    LogGrows(s.log, DeleteAnswered);
  }

  ghost predicate SameWork(s: State, t: State) {
    && t.independent.jobs == s.independent.jobs && t.dependent.jobs == s.dependent.jobs
    && t.deletions == s.deletions
  }

  lemma SendSame(s: State, dep: bool)
    requires Idle(s.Get(dep))
    ensures SameWork(s, Send(s, dep))
  {}

  lemma AnswerSame(s: State, dep: bool, results: seq<RemoteResult>)
    requires Waiting(s.Get(dep))
    ensures SameWork(s, TakeAnswer(s, dep, results))
  {
    hide Record, Retain;
  }

  /** No step changes what is to be sent. */
  lemma NextSame(s: State, t: State)
    requires Next(s, t)
    ensures (forall dep :: t.Get(dep).jobs == s.Get(dep).jobs) && t.deletions == s.deletions
  {
    hide Send, TakeAnswer, Idle, Waiting;
    if dep :| Idle(s.Get(dep)) && t == Send(s, dep) {
      SendSame(s, dep);
    } else if dep, results :| Waiting(s.Get(dep)) && t == TakeAnswer(s, dep, results) {
      AnswerSame(s, dep, results);
    }
  }

  lemma NextKeeps(s: State, t: State)
    requires Inv(s) && Next(s, t)
    ensures Inv(t)
  {
    hide Inv, Send, TakeAnswer, Break, SendDelete, AnswerDelete;
    if dep :| Idle(s.Get(dep)) && t == Send(s, dep) {
      SendKeeps(s, dep);
    } else if dep, results :| Waiting(s.Get(dep)) && t == TakeAnswer(s, dep, results) {
      AnswerKeeps(s, dep, results);
    } else if t == Break(s) {
      BreakKeeps(s);
    } else if CanDelete(s) && t == SendDelete(s) {
      SendDeleteKeeps(s);
    } else {
      AnswerDeleteKeeps(s);
    }
  }

  lemma {:induction false} RunKeeps(run: seq<State>, plan: PushPlan, n: nat)
    requires IsRun(run, plan) && n < |run|
    ensures Inv(run[n])
    ensures forall dep :: run[n].Get(dep).jobs == Init(plan).Get(dep).jobs
    ensures run[n].deletions == Init(plan).deletions
  {
    hide Inv, Next, Init;
    if n == 0 {
      InitHolds(plan);
    } else {
      RunKeeps(run, plan, n - 1);
      assert Follows(run, n);
      NextKeeps(run[n - 1], run[n]);
      NextSame(run[n - 1], run[n]);
    }
  }

  lemma InitHolds(plan: PushPlan)
    ensures Inv(Init(plan))
  {
    hide JobsOf, DependentJobs, Chunks, OrderedDeletions, Work;
    assert Init(plan).deletions[..0] == [];
  }

  /* ---------- which assets the jobs hold ---------- */

  ghost predicate InSomeJob(a: Asset, jobs: seq<Job>) {
    exists j :: 0 <= j < |jobs| && a in jobs[j].batch
  }

  /** Jobs of known assets, by rank. */
  ghost predicate Ranked(jobs: seq<Job>, assets: seq<Asset>, low: nat) {
    && (forall j, a :: 0 <= j < |jobs| && a in jobs[j].batch ==> a in assets && Rank(Classify(a.key)) == jobs[j].rank)
    && (forall j :: 0 <= j < |jobs| ==> jobs[j].rank >= low)
    && (forall i, j :: 0 <= i < j < |jobs| ==> jobs[i].rank <= jobs[j].rank)
  }

  lemma {:induction false} ConcatMembers(parts: seq<seq<Asset>>)
    ensures forall a :: a in Concat(parts) <==> exists i :: 0 <= i < |parts| && a in parts[i]
  {
    if parts != [] {
      var tail := parts[1..];
      ConcatMembers(tail);
      forall a ensures a in Concat(parts) <==> exists i :: 0 <= i < |parts| && a in parts[i] {
        if a in Concat(tail) {
          var i :| 0 <= i < |tail| && a in tail[i];
          assert a in parts[i + 1];
        }
        if i :| 0 <= i < |parts| && a in parts[i] {
          if i > 0 { assert a in tail[i - 1]; }
        }
      }
    }
  }

  lemma GroupJobs(group: seq<Asset>, assets: seq<Asset>, rank: nat)
    requires forall a :: a in group ==> a in assets && Rank(Classify(a.key)) == rank
    ensures Ranked(JobsOf(Greedy(group), rank), assets, rank)
    ensures forall a :: a in group ==> InSomeJob(a, JobsOf(Greedy(group), rank))
  {
    hide Greedy, Classify;
    var parts := Greedy(group);
    var jobs := JobsOf(parts, rank);
    GreedyIsSplit(group);
    ConcatMembers(parts);
    forall a | a in group ensures InSomeJob(a, jobs) {
      var i :| 0 <= i < |parts| && a in parts[i];
      assert a in jobs[i].batch;
    }
  }

  lemma RankedAppend(first: seq<Job>, rest: seq<Job>, assets: seq<Asset>, low: nat, next: nat)
    requires Ranked(first, assets, low) && Ranked(rest, assets, next) && low <= next
    requires forall j :: 0 <= j < |first| ==> first[j].rank <= next
    ensures Ranked(first + rest, assets, low)
    ensures forall a :: InSomeJob(a, first) || InSomeJob(a, rest) ==> InSomeJob(a, first + rest)
  {
    hide Classify;
    var jobs := first + rest;
    forall a | InSomeJob(a, rest) ensures InSomeJob(a, jobs) {
      var j :| 0 <= j < |rest| && a in rest[j].batch;
      assert a in jobs[|first| + j].batch;
    }
    forall a | InSomeJob(a, first) ensures InSomeJob(a, jobs) {
      var j :| 0 <= j < |first| && a in first[j].batch;
      assert a in jobs[j].batch;
    }
  }

  lemma {:induction false} DependentRanked(assets: seq<Asset>, i: nat)
    requires i <= |Groups|
    ensures Ranked(DependentJobs(DependentGroups(assets, i)), assets, i + 1)
    ensures forall a :: a in assets && Rank(Classify(a.key)) > i ==>
              InSomeJob(a, DependentJobs(DependentGroups(assets, i)))
    decreases |Groups| - i
  {
    hide Classify, InGroup, DependentGroups, Greedy, Ranked, InSomeJob;
    DependentStep(assets, i);
    if i == |Groups| {
      NoJobs(assets);
    } else {
      var group := InGroup(assets, Groups[i]);
      var rest := DependentGroups(assets, i + 1);
      DependentRanked(assets, i + 1);
      GroupsByRank(i);
      InGroupMembers(assets, Groups[i]);
      WidenLow(DependentJobs(rest), assets, i + 2, i + 1);
      if group == [] {
        assert [] + rest == rest;
      } else {
        var groups := [group] + rest;
        assert groups[0] == group && groups[1..] == rest;
        assert group[0] in group;
        GroupJobs(group, assets, i + 1);
        RankedAppend(JobsOf(Greedy(group), i + 1), DependentJobs(rest), assets, i + 1, i + 2);
      }
    }
  }

  lemma NoJobs(assets: seq<Asset>)
    ensures Ranked([], assets, |Groups| + 1)
    ensures forall a: Asset :: Rank(Classify(a.key)) <= |Groups|
  {
    hide Classify;
  }

  lemma WidenLow(jobs: seq<Job>, assets: seq<Asset>, high: nat, low: nat)
    requires Ranked(jobs, assets, high) && low <= high
    ensures Ranked(jobs, assets, low)
  {}

  lemma GroupsByRank(i: nat)
    requires i < |Groups|
    ensures forall g :: Rank(g) == i + 1 <==> g == Groups[i]
  {}
}
