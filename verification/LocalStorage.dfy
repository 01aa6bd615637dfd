/** The settings file shared by all running commands: every change locks, loads,
    mutates, writes a temporary file and renames it over the target.  Calls of
    any number of processes interleave step by step, each may fail or die at
    any point, and reads take no lock. */
module LocalStorage {
  import opened Text

  type Values = map<string, string>

  /** What the bytes of a file mean to `load`. */
  datatype Content = Blank | Document(values: Values) | Garbage

  datatype Mutation = Set(key: string, value: string) | Remove(key: string)

  datatype Job = Get | Update(mutation: Mutation)

  datatype Phase =
    | Waiting
    | Looking
    | Opening
    | Reading(inode: nat)
    | Loaded(values: Values)
    | Writing(data: Values, name: string, temp: nat)
    | Synced(data: Values, name: string, temp: nat)
    | Renamed
    | Answered(result: Values)
    | Succeeded
    | Failed
    | Died(applied: bool)

  datatype Call = Call(job: Job, phase: Phase)

  /** The disk: the file under the stored path, the temporary names, and the
      contents of all files ever created.  `past` lists the files that have
      been under the stored path; `acquired` lists calls as they got the lock. */
  datatype State = State(file: Option<nat>, temps: map<string, nat>, inodes: seq<Content>, lock: Option<nat>,
                         calls: seq<Call>, past: seq<nat>, acquired: seq<nat>)

  datatype Event =
    | Begin(job: Job)
    | Acquire(p: nat)
    | Look(p: nat)
    | Open(p: nat)
    | Read(p: nat)
    | Create(p: nat, name: string, cleaned: bool)
    | Write(p: nat, partial: Content)
    | Sync(p: nat)
    | Rename(p: nat)
    | Release(p: nat)
    | Fail(p: nat, cleaned: bool)
    | Die(p: nat)

  function Parse(content: Content): Option<Values> {
    match content
    case Blank => Some(map[])
    case Document(values) => Some(values)
    case Garbage => None
  }

  function Mutated(values: Values, m: Mutation): Values {
    match m
    case Set(key, value) => values[key := value]
    case Remove(key) => values - {key}
  }

  /** What a call to `load` returns when nothing else moves. */
  function Stored(s: State): Option<Values>
    requires s.file.Some? ==> s.file.value < |s.inodes|
  {
    if s.file.None? then Some(map[]) else Parse(s.inodes[s.file.value])
  }

  function Fold(values: Values, mutations: seq<Mutation>): Values {
    if mutations == [] then values
    else Mutated(Fold(values, mutations[..|mutations| - 1]), mutations[|mutations| - 1])
  }

  predicate Critical(phase: Phase) {
    phase.Looking? || phase.Opening? || phase.Reading? || phase.Loaded? || phase.Writing? || phase.Synced?
    || phase.Renamed?
  }

  predicate Applied(phase: Phase) {
    phase.Renamed? || phase.Succeeded? || (phase.Died? && phase.applied)
  }

  predicate Ended(phase: Phase) {
    phase.Answered? || phase.Succeeded? || phase.Failed? || phase.Died?
  }

  /* ---------- steps ---------- */

  function To(s: State, p: nat, phase: Phase): State
    requires p < |s.calls|
  {
    s.(calls := s.calls[p := s.calls[p].(phase := phase)])
  }

  predicate At(s: State, p: nat) { p < |s.calls| }

  /** `load` ends with these values: a reader answers, a writer goes on. */
  function Load(s: State, p: nat, values: Values): State
    requires At(s, p)
  {
    To(s, p, if s.calls[p].job.Get? then Answered(values) else Loaded(values))
  }

  function Unlock(s: State, p: nat): State {
    if s.lock == Some(p) then s.(lock := None) else s
  }

  function Clean(s: State, phase: Phase, cleaned: bool): State {
    if cleaned && (phase.Writing? || phase.Synced?) then s.(temps := s.temps - {phase.name}) else s
  }

  predicate Enabled(s: State, e: Event) {
    match e
    case Begin(_) => true
    case Acquire(p) => At(s, p) && s.calls[p].phase.Waiting? && s.lock.None?
    case Look(p) => At(s, p) && s.calls[p].phase.Looking?
    case Open(p) => At(s, p) && s.calls[p].phase.Opening? && s.file.Some?
    case Read(p) => At(s, p) && s.calls[p].phase.Reading? && s.calls[p].phase.inode < |s.inodes|
    case Create(p, _, _) =>
      At(s, p) && s.calls[p].phase.Loaded? && s.calls[p].job.Update?
    case Write(p, _) => At(s, p) && s.calls[p].phase.Writing? && s.calls[p].phase.temp < |s.inodes|
    case Sync(p) => At(s, p) && s.calls[p].phase.Writing? && s.calls[p].phase.temp < |s.inodes|
    case Rename(p) => At(s, p) && s.calls[p].phase.Synced? && s.calls[p].phase.name in s.temps
    case Release(p) => At(s, p) && s.calls[p].phase.Renamed?
    case Fail(p, _) => At(s, p) && !Ended(s.calls[p].phase) && !s.calls[p].phase.Renamed?
    case Die(p) => At(s, p) && !Ended(s.calls[p].phase)
  }

  function Step(s: State, e: Event): State
    requires Enabled(s, e)
  {
    match e
    case Begin(job) => s.(calls := s.calls + [Call(job, if job.Get? then Looking else Waiting)])
    case Acquire(p) => To(s, p, Looking).(lock := Some(p), acquired := s.acquired + [p])
    case Look(p) => if s.file.None? then Load(s, p, map[]) else To(s, p, Opening)
    case Open(p) => To(s, p, Reading(s.file.value))
    case Read(p) =>
      (match Parse(s.inodes[s.calls[p].phase.inode])
       case Some(values) => Load(s, p, values)
       case None => Unlock(To(s, p, Failed), p))
    case Create(p, name, cleaned) =>
      // A name already on disk makes the call fail, and the file it names may be removed.
      if name in s.temps then Unlock(To(s, p, Failed), p).(temps := if cleaned then s.temps - {name} else s.temps)
      else
        To(s, p, Writing(Mutated(s.calls[p].phase.values, s.calls[p].job.mutation), name, |s.inodes|))
          .(temps := s.temps[name := |s.inodes|], inodes := s.inodes + [Blank])
    case Write(p, partial) => s.(inodes := s.inodes[s.calls[p].phase.temp := partial])
    case Sync(p) =>
      var phase := s.calls[p].phase;
      To(s, p, Synced(phase.data, phase.name, phase.temp)).(inodes := s.inodes[phase.temp := Document(phase.data)])
    case Rename(p) =>
      var name := s.calls[p].phase.name;
      To(s, p, Renamed).(file := Some(s.temps[name]), temps := s.temps - {name}, past := s.past + [s.temps[name]])
    case Release(p) => Unlock(To(s, p, Succeeded), p)
    case Fail(p, cleaned) => Unlock(Clean(To(s, p, Failed), s.calls[p].phase, cleaned), p)
    case Die(p) => Unlock(To(s, p, Died(s.calls[p].phase.Renamed?)), p)
  }

  /** Any disk a command may find: the stored file may be missing, blank,
      readable or not, and temporary files may be left from earlier runs. */
  predicate IsInit(s: State) {
    && s.calls == [] && s.lock.None? && s.acquired == []
    && (forall name :: name in s.temps ==> s.temps[name] < |s.inodes|)
    && match s.file
       case None => s.past == []
       case Some(i) => s.past == [i] && i < |s.inodes|
  }

  datatype Run = Run(states: seq<State>, events: seq<Event>)

  /** Event `i` was enabled, and the next state is the one it leads to. */
  ghost predicate StepAt(run: Run, i: nat)
    requires |run.states| == |run.events| + 1 && i < |run.events|
  {
    Enabled(run.states[i], run.events[i]) && run.states[i + 1] == Step(run.states[i], run.events[i])
  }

  ghost predicate IsRun(run: Run) {
    && |run.states| == |run.events| + 1 && IsInit(run.states[0])
    && forall i :: 0 <= i < |run.events| ==> StepAt(run, i)
  }
}
