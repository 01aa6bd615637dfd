/** A push as a protocol.  Two chains of upload calls run at once, in any
    interleaving of their calls and answers; the deletions follow.  The remote
    answers as it likes, and any call may end the push with an error. */
module PushProtocol {
  import opened Theme
  import opened UploadOrder
  import opened Batches
  import opened Upload
  import opened Plans

  /** One batch of one group. */
  datatype Job = Job(rank: nat, batch: seq<Asset>)

  /** A chain of batches sent one after the other: the place of the current
      one, its assets still to upload, the answers so far, and how many calls
      were answered. */
  datatype Chain = Chain(jobs: seq<Job>, at: nat, pending: seq<Asset>, final: map<string, RemoteResult>,
                         answered: nat, inFlight: bool)

  datatype Event =
    | Sent(dependent: bool, job: nat, assets: seq<Asset>)
    | Settled(dependent: bool, job: nat, left: seq<Asset>, last: bool)
    | Broke
    | DeleteSent(keys: seq<string>)
    | DeleteAnswered

  datatype State = State(independent: Chain, dependent: Chain, deletions: seq<seq<string>>, deleted: nat,
                         deleting: bool, broken: bool, log: seq<Event>)
  {
    function Get(dep: bool): Chain { if dep then dependent else independent }

    function With(dep: bool, chain: Chain): State {
      if dep then this.(dependent := chain) else this.(independent := chain)
    }
  }

  function Enter(jobs: seq<Job>, at: nat): Chain
    requires at <= |jobs|
  {
    Chain(jobs, at, if at < |jobs| then jobs[at].batch else [], map[], 0, false)
  }

  function JobsOf(batches: seq<seq<Asset>>, rank: nat): (jobs: seq<Job>)
    ensures |jobs| == |batches| && forall i :: 0 <= i < |jobs| ==> jobs[i] == Job(rank, batches[i])
  {
    if batches == [] then [] else [Job(rank, batches[0])] + JobsOf(batches[1..], rank)
  }

  function GroupRank(group: seq<Asset>): nat {
    if group == [] then 0 else Rank(Classify(group[0].key))
  }

  function DependentJobs(groups: seq<seq<Asset>>): seq<Job> {
    if groups == [] then [] else JobsOf(Greedy(groups[0]), GroupRank(groups[0])) + DependentJobs(groups[1..])
  }

  function Chunks(keys: seq<string>): seq<seq<string>> {
    if keys == [] then []
    else if |keys| <= MutationBatchSize then [keys]
    else [keys[..MutationBatchSize]] + Chunks(keys[MutationBatchSize..])
  }

  function Init(plan: PushPlan): State {
    var work := Work(plan.upload);
    State(Enter(JobsOf(Greedy(work.independent), 0), 0), Enter(DependentJobs(work.dependent), 0),
          Chunks(OrderedDeletions(plan.delete)), 0, false, false, [])
  }

  /* ---------- steps ---------- */

  predicate Idle(chain: Chain) { chain.at < |chain.jobs| && !chain.inFlight }

  predicate Finished(chain: Chain) { chain.at == |chain.jobs| }

  predicate Waiting(chain: Chain) { chain.at < |chain.jobs| && chain.inFlight }

  function Send(s: State, dep: bool): State
    requires Idle(s.Get(dep))
  {
    var c := s.Get(dep);
    s.With(dep, c.(inFlight := true)).(log := s.log + [Sent(dep, c.at, c.pending)])
  }

  /** An answered call: the batch is left when nothing is pending or the last
      attempt was answered. */
  function TakeAnswer(s: State, dep: bool, results: seq<RemoteResult>): State
    requires Waiting(s.Get(dep))
  {
    var c := s.Get(dep);
    var final := Record(c.final, results);
    var left := Retain(c.pending, final);
    var last := c.answered + 1 == MaxUploadAttempts;
    var next := if left == [] || last then Enter(c.jobs, c.at + 1)
                else c.(pending := left, final := final, answered := c.answered + 1, inFlight := false);
    s.With(dep, next).(log := s.log + [Settled(dep, c.at, left, last)])
  }

  function Break(s: State): State {
    s.(broken := true, log := s.log + [Broke])
  }

  predicate CanDelete(s: State) {
    Finished(s.independent) && Finished(s.dependent) && !s.deleting && s.deleted < |s.deletions|
  }

  function SendDelete(s: State): State
    requires CanDelete(s)
  {
    s.(deleting := true, log := s.log + [DeleteSent(s.deletions[s.deleted])])
  }

  function AnswerDelete(s: State): State
  {
    s.(deleting := false, deleted := s.deleted + 1, log := s.log + [DeleteAnswered])
  }

  ghost predicate Next(s: State, t: State) {
    && !s.broken
    && (|| (exists dep :: Idle(s.Get(dep)) && t == Send(s, dep))
        || (exists dep, results :: Waiting(s.Get(dep)) && t == TakeAnswer(s, dep, results))
        || ((Waiting(s.independent) || Waiting(s.dependent) || s.deleting) && t == Break(s))
        || (CanDelete(s) && t == SendDelete(s))
        || (s.deleting && t == AnswerDelete(s)))
  }

  /** State `i` follows from the one before it. */
  ghost predicate Follows(run: seq<State>, i: nat)
    requires 0 < i < |run|
  {
    Next(run[i - 1], run[i])
  }

  ghost predicate IsRun(run: seq<State>, plan: PushPlan) {
    run != [] && run[0] == Init(plan) && forall i :: 0 < i < |run| ==> Follows(run, i)
  }
}
