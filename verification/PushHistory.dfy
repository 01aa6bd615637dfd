/** What the log of a push says about the past: every job is sent whole before
    it is settled, no asset is sent again once its attempts have ended, and the
    jobs of a chain are sent in their order. */
module PushHistory {
  import opened Theme
  import UploadOrder
  import opened Upload
  import opened Plans
  import opened PushProtocol
  import opened PushInvariants

  /** The first call of a job sent its whole batch. */
  ghost predicate SentWhole(log: seq<Event>, dep: bool, job: nat, batch: seq<Asset>) {
    exists i :: 0 <= i < |log| && log[i] == Sent(dep, job, batch)
  }

  predicate OfChain(e: Event, dep: bool) { (e.Sent? || e.Settled?) && e.dependent == dep }

  /** What the log says about a chain that has come to its present job. */
  ghost predicate ChainPast(c: Chain, dep: bool, log: seq<Event>) {
    && (forall i :: 0 <= i < |log| && OfChain(log[i], dep) ==> log[i].job <= c.at)
    && (c.at < |c.jobs| ==>
          && (c.answered == 0 ==> c.pending == c.jobs[c.at].batch)
          && (c.inFlight || c.answered > 0 ==> SentWhole(log, dep, c.at, c.jobs[c.at].batch))
          && (forall a :: a in c.pending ==> !AssetDone(log, dep, c.at, a)))
  }

  /** What an event says about those before it. */
  ghost predicate Timely(s: State, i: nat)
    requires i < |s.log|
  {
    match s.log[i]
    case Sent(dep, job, assets) =>
      && (forall a :: a in assets ==> !AssetDone(s.log[..i], dep, job, a))
      && (forall m :: 0 <= m < i && OfChain(s.log[m], dep) ==> s.log[m].job <= job)
      && (forall m :: 0 <= m < i ==> !s.log[m].DeleteSent?)
    case Settled(dep, job, _, _) =>
      job < |s.Get(dep).jobs| && SentWhole(s.log[..i], dep, job, s.Get(dep).jobs[job].batch)
    case _ => true
  }

  ghost predicate Past(s: State) {
    && ChainPast(s.independent, false, s.log)
    && ChainPast(s.dependent, true, s.log)
    && (forall i :: 0 <= i < |s.log| && s.log[i].DeleteSent? ==> Finished(s.independent) && Finished(s.dependent))
    && forall i :: 0 <= i < |s.log| ==> Timely(s, i)
  }

  /* ---------- one more event ---------- */

  lemma NotDoneBy(log: seq<Event>, e: Event, dep: bool, job: nat, a: Asset)
    ensures AssetDone(log + [e], dep, job, a) <==> AssetDone(log, dep, job, a) || EndsAttempts(e, dep, job, a)
  {
    if AssetDone(log, dep, job, a) { AssetStays(log, e, dep, job, a); }
    if EndsAttempts(e, dep, job, a) { LastEvent(log, e, dep, job, a); }
  }

  lemma SentStays(log: seq<Event>, e: Event, dep: bool, job: nat, batch: seq<Asset>)
    requires SentWhole(log, dep, job, batch) || e == Sent(dep, job, batch)
    ensures SentWhole(log + [e], dep, job, batch)
  {
    if SentWhole(log, dep, job, batch) {
      var i :| 0 <= i < |log| && log[i] == Sent(dep, job, batch);
      assert (log + [e])[i] == Sent(dep, job, batch);
    } else {
      assert (log + [e])[|log|] == e;
    }
  }

  /** An event of another chain leaves a chain's past as it is. */
  lemma OtherPast(c: Chain, dep: bool, log: seq<Event>, e: Event)
    requires ChainPast(c, dep, log) && !OfChain(e, dep)
    ensures ChainPast(c, dep, log + [e])
  {
    hide AssetDone, SentWhole;
    if c.at < |c.jobs| {
      if SentWhole(log, dep, c.at, c.jobs[c.at].batch) { SentStays(log, e, dep, c.at, c.jobs[c.at].batch); }
      forall a | a in c.pending ensures !AssetDone(log + [e], dep, c.at, a) { NotDoneBy(log, e, dep, c.at, a); }
    }
  }

  /** Earlier events stay timely when the jobs stay the same. */
  lemma TimelyStays(s: State, t: State, e: Event)
    requires t.log == s.log + [e] && forall dep :: t.Get(dep).jobs == s.Get(dep).jobs
    requires forall i :: 0 <= i < |s.log| ==> Timely(s, i)
    ensures forall i :: 0 <= i < |s.log| ==> Timely(t, i)
  {
    hide AssetDone, SentWhole;
    forall i | 0 <= i < |s.log| ensures Timely(t, i) {
      assert Timely(s, i);
      assert t.log[i] == s.log[i] && t.log[..i] == s.log[..i];
      assert forall m :: 0 <= m < i ==> t.log[m] == s.log[m];
    }
  }

  /* ---------- steps ---------- */

  lemma SendPast(s: State, dep: bool)
    requires Inv(s) && Past(s) && Idle(s.Get(dep))
    ensures Past(Send(s, dep))
  {
    hide AssetDone, SentWhole, Inv;
    var c, t := s.Get(dep), Send(s, dep);
    var e := Sent(dep, c.at, c.pending);
    OtherPast(s.Get(!dep), !dep, s.log, e);
    TimelyStays(s, t, e);
    forall a ensures AssetDone(t.log, dep, c.at, a) <==> AssetDone(s.log, dep, c.at, a) {
      NotDoneBy(s.log, e, dep, c.at, a);
    }
    if c.answered == 0 || SentWhole(s.log, dep, c.at, c.jobs[c.at].batch) {
      SentStays(s.log, e, dep, c.at, c.jobs[c.at].batch);
    }
    assert ChainPast(c, dep, s.log);
    assert ChainPast(t.Get(dep), dep, t.log);
    assert t.log[..|s.log|] == s.log && t.log[|s.log|] == e;
    assert Timely(t, |s.log|);
  }

  lemma AnswerPast(s: State, dep: bool, results: seq<RemoteResult>)
    requires Inv(s) && Past(s) && Waiting(s.Get(dep))
    ensures Past(TakeAnswer(s, dep, results))
  {
    hide AssetDone, SentWhole, Inv, Record, Retain;
    var c, t := s.Get(dep), TakeAnswer(s, dep, results);
    var left := Retain(c.pending, Record(c.final, results));
    var e := Settled(dep, c.at, left, c.answered + 1 == MaxUploadAttempts);
    OtherPast(s.Get(!dep), !dep, s.log, e);
    TimelyStays(s, t, e);
    RetainWithin(c.pending, Record(c.final, results));
    assert ChainPast(c, dep, s.log);
    SentStays(s.log, e, dep, c.at, c.jobs[c.at].batch);
    AnsweredPast(c, t.Get(dep), dep, s.log, e);
    assert t.log[..|s.log|] == s.log && t.log[|s.log|] == e;
    assert Timely(t, |s.log|);
  }

  lemma AnsweredPast(c: Chain, next: Chain, dep: bool, log: seq<Event>, e: Event)
    requires ChainPast(c, dep, log) && Waiting(c)
    requires e.Settled? && e.dependent == dep && e.job == c.at
    requires forall a :: a in e.left ==> a in c.pending
    requires next.jobs == c.jobs
    requires if e.left == [] || e.last then next == Enter(c.jobs, c.at + 1)
             else next.at == c.at && next.pending == e.left && next.answered == c.answered + 1 && !next.inFlight
    ensures ChainPast(next, dep, log + [e])
  {
    hide AssetDone, SentWhole;
    if next.at == c.at {
      SentStays(log, e, dep, c.at, c.jobs[c.at].batch);
      forall a | a in next.pending ensures !AssetDone(log + [e], dep, c.at, a) { NotDoneBy(log, e, dep, c.at, a); }
    } else {
      forall a ensures !AssetDone(log + [e], dep, next.at, a) { NotYetDone(log + [e], dep, next.at, a); }
    }
  }

  lemma NotYetDone(log: seq<Event>, dep: bool, job: nat, a: Asset)
    requires forall i :: 0 <= i < |log| && OfChain(log[i], dep) ==> log[i].job < job
    ensures !AssetDone(log, dep, job, a)
  {}

  /** An event of no chain, after which both chains are as they were. */
  lemma QuietPast(s: State, t: State, e: Event)
    requires Past(s) && t.log == s.log + [e] && !e.Sent? && !e.Settled?
    requires t.independent == s.independent && t.dependent == s.dependent
    requires e.DeleteSent? ==> Finished(s.independent) && Finished(s.dependent)
    ensures Past(t)
  {
    hide ChainPast, AssetDone, SentWhole;
    OtherPast(s.independent, false, s.log, e);
    OtherPast(s.dependent, true, s.log, e);
    assert s.Get(false) == s.independent && s.Get(true) == s.dependent;
    TimelyStays(s, t, e);
    assert Timely(t, |s.log|);
  }

  lemma NextPast(s: State, t: State)
    requires Inv(s) && Past(s) && Next(s, t)
    ensures Past(t)
  {
    hide Inv, Past, Send, TakeAnswer;
    if dep :| Idle(s.Get(dep)) && t == Send(s, dep) {
      SendPast(s, dep);
    } else if dep, results :| Waiting(s.Get(dep)) && t == TakeAnswer(s, dep, results) {
      AnswerPast(s, dep, results);
    } else if t == Break(s) {
      QuietPast(s, t, Broke);
    } else if CanDelete(s) && t == SendDelete(s) {
      QuietPast(s, t, DeleteSent(s.deletions[s.deleted]));
    } else {
      QuietPast(s, t, DeleteAnswered);
    }
  }

  /** In every run the log tells the past. */
  lemma {:induction false} RunPast(run: seq<State>, plan: PushPlan, n: nat)
    requires IsRun(run, plan) && n < |run|
    ensures Past(run[n])
  {
    hide Inv, Past, Next, Init;
    if n == 0 {
      InitPast(plan);
    } else {
      RunKeeps(run, plan, n - 1);
      RunPast(run, plan, n - 1);
      assert Follows(run, n);
      NextPast(run[n - 1], run[n]);
    }
  }

  lemma InitPast(plan: PushPlan)
    ensures Past(Init(plan))
  {
    hide JobsOf, DependentJobs, Chunks, UploadOrder.OrderedDeletions, UploadOrder.Work;
  }
}
