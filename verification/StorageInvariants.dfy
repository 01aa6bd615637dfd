/** What every step keeps of the settings file: the lock, the disk, and the
    order of the changes that took effect. */
module StorageInvariants {
  import opened Text
  import opened LocalStorage

  predicate Takers(acquired: seq<nat>, calls: seq<Call>) {
    forall i :: 0 <= i < |acquired| ==> acquired[i] < |calls| && calls[acquired[i]].job.Update?
  }

  /** The changes that took effect, in the order the lock was taken. */
  function Effects(acquired: seq<nat>, calls: seq<Call>): seq<Mutation>
    requires Takers(acquired, calls)
  {
    if acquired == [] then []
    else
      var last := calls[acquired[|acquired| - 1]];
      Effects(acquired[..|acquired| - 1], calls) + (if Applied(last.phase) then [last.job.mutation] else [])
  }

  ghost predicate LockInv(s: State) {
    && Takers(s.acquired, s.calls)
    && (forall i :: 0 <= i < |s.acquired| ==> !s.calls[s.acquired[i]].phase.Waiting?)
    && (forall i, j :: 0 <= i < j < |s.acquired| ==> s.acquired[i] != s.acquired[j])
    && (s.lock.Some? ==>
          && At(s, s.lock.value) && s.calls[s.lock.value].job.Update? && Critical(s.calls[s.lock.value].phase)
          && s.acquired != [] && s.acquired[|s.acquired| - 1] == s.lock.value)
    && (forall p :: 0 <= p < |s.calls| && s.calls[p].job.Update? && Critical(s.calls[p].phase) ==>
          s.lock == Some(p))
    && (forall p :: 0 <= p < |s.calls| && s.calls[p].job.Update? && Applied(s.calls[p].phase) ==> p in s.acquired)
    && (forall p :: 0 <= p < |s.calls| && s.calls[p].job.Get? ==> CallReads(s.calls[p].phase))
  }

  /** The phases of a read. */
  predicate CallReads(phase: Phase) {
    phase.Looking? || phase.Opening? || phase.Reading? || phase.Answered? || phase.Failed? || phase == Died(false)
  }

  ghost predicate DiskInv(s: State) {
    && (s.file.Some? ==> s.file.value in s.past)
    && (forall i :: i in s.past ==> i < |s.inodes|)
    && (forall p :: 0 <= p < |s.calls| ==> CallInv(s, s.calls[p]))
  }

  ghost predicate CallInv(s: State, c: Call)
    requires s.file.Some? ==> s.file.value < |s.inodes|
  {
    match c.phase
    case Reading(i) => i in s.past && (c.job.Update? ==> s.file == Some(i))
    case Loaded(values) => c.job.Update? && Stored(s) == Some(values)
    case Writing(data, name, temp) => WriterInv(s, c, data, name, temp)
    case Synced(data, name, temp) => WriterInv(s, c, data, name, temp) && s.inodes[temp] == Document(data)
    case _ => true
  }

  ghost predicate WriterInv(s: State, c: Call, data: Values, name: string, temp: nat)
    requires s.file.Some? ==> s.file.value < |s.inodes|
  {
    && c.job.Update?
    && name in s.temps && s.temps[name] == temp && temp < |s.inodes| && temp !in s.past
    && Stored(s).Some? && data == Mutated(Stored(s).value, c.job.mutation)
  }

  ghost predicate Inv(s: State, start: Option<Values>) {
    && LockInv(s) && DiskInv(s)
    && Stored(s) == Serial(start, Effects(s.acquired, s.calls))
    && (start.None? ==> Effects(s.acquired, s.calls) == [])
  }

  function Serial(start: Option<Values>, effects: seq<Mutation>): Option<Values> {
    if start.None? then None else Some(Fold(start.value, effects))
  }

  lemma {:induction false} EffectsSame(acquired: seq<nat>, calls: seq<Call>, others: seq<Call>)
    requires Takers(acquired, calls) && |calls| <= |others|
    requires forall i :: 0 <= i < |acquired| ==> others[acquired[i]].job == calls[acquired[i]].job
    requires forall i :: 0 <= i < |acquired| ==>
               (Applied(others[acquired[i]].phase) <==> Applied(calls[acquired[i]].phase))
    ensures Takers(acquired, others) && Effects(acquired, calls) == Effects(acquired, others)
  {
    hide Applied;
    if acquired != [] {
      EffectsSame(acquired[..|acquired| - 1], calls, others);
    }
  }

  lemma InitKeeps(s: State)
    requires IsInit(s)
    ensures Inv(s, Stored(s))
  {}

  /** A holder of the lock, or a reader, moves on. */
  lemma LockMove(s: State, t: State, p: nat, phase: Phase)
    requires LockInv(s) && At(s, p) && t.calls == To(s, p, phase).calls
    requires t.lock == s.lock && t.acquired == s.acquired
    requires if s.calls[p].job.Update? then s.lock == Some(p) && Critical(phase) else CallReads(phase)
    ensures LockInv(t)
  {
    hide CallReads;
  }

  /** A call ends and leaves the lock if it has it. */
  lemma LockEnd(s: State, t: State, p: nat, phase: Phase)
    requires LockInv(s) && At(s, p) && t.calls == To(s, p, phase).calls && Ended(phase)
    requires t.lock == (if s.lock == Some(p) then None else s.lock) && t.acquired == s.acquired
    requires s.calls[p].job.Get? ==> CallReads(phase)
    requires s.calls[p].job.Update? && Applied(phase) ==> s.lock == Some(p)
    ensures LockInv(t)
  {
    hide CallReads;
  }

  lemma LockTake(s: State, p: nat)
    requires LockInv(s) && Enabled(s, Acquire(p))
    ensures LockInv(Step(s, Acquire(p)))
  {
  }

  lemma LockBegin(s: State, job: Job)
    requires LockInv(s)
    ensures LockInv(Step(s, Begin(job)))
  {}

  predicate Moves(e: Event) { !e.Begin? && !e.Acquire? }

  /** All other steps move one call on, and give up its lock when it ends. */
  lemma MovesOne(s: State, e: Event)
    requires Enabled(s, e) && Moves(e) && (s.lock == Some(e.p) ==> At(s, e.p) && s.calls[e.p].job.Update?)
    ensures At(s, e.p) && var t := Step(s, e);
            && |t.calls| == |s.calls| && t.calls == To(s, e.p, t.calls[e.p].phase).calls
            && t.acquired == s.acquired
            && t.lock == (if Ended(t.calls[e.p].phase) && s.lock == Some(e.p) then None else s.lock)
  {
    assert s.calls[e.p] == s.calls[e.p].(phase := s.calls[e.p].phase);
  }

  lemma MovesRight(s: State, e: Event)
    requires LockInv(s) && Enabled(s, e) && Moves(e)
    ensures At(s, e.p) && |Step(s, e).calls| == |s.calls|
    ensures var phase := Step(s, e).calls[e.p].phase;
            && (s.calls[e.p].job.Get? ==> CallReads(phase))
            && (s.calls[e.p].job.Update? && !Ended(phase) ==> s.lock == Some(e.p) && Critical(phase))
            && (s.calls[e.p].job.Update? && Applied(phase) ==> s.lock == Some(e.p))
  {
  }

  lemma LockHolder(s: State)
    requires LockInv(s) && s.lock.Some?
    ensures At(s, s.lock.value) && s.calls[s.lock.value].job.Update?
    ensures s.acquired != [] && s.acquired[|s.acquired| - 1] == s.lock.value
  {}

  lemma LockKeeps(s: State, e: Event)
    requires LockInv(s) && Enabled(s, e)
    ensures LockInv(Step(s, e))
  {
    hide LockInv, CallReads, Critical, Applied, Enabled;
    match e
    case Begin(job) => LockBegin(s, job);
    case Acquire(p) => LockTake(s, p);
    case _ =>
      if s.lock.Some? { LockHolder(s); }
      MovesOne(s, e);
      MovesRight(s, e);
      var t := Step(s, e);
      var phase := t.calls[e.p].phase;
      if Ended(phase) { LockEnd(s, t, e.p, phase); } else { LockMove(s, t, e.p, phase); }
  }

  /* ---------- the disk ---------- */

  /** A step that leaves the stored file, and what is in the files, alone. */
  lemma DiskMove(s: State, t: State, p: nat, phase: Phase)
    requires DiskInv(s) && At(s, p) && t.calls == To(s, p, phase).calls
    requires t.file == s.file && t.past == s.past && t.inodes == s.inodes
    requires CallInv(t, t.calls[p])
    requires forall q :: 0 <= q < |s.calls| && q != p ==> KeepsName(s, t, s.calls[q].phase)
    ensures DiskInv(t) && Stored(t) == Stored(s)
  {
    forall q | 0 <= q < |t.calls| ensures CallInv(t, t.calls[q]) {
      assert CallInv(s, s.calls[q]);
    }
  }

  predicate KeepsName(s: State, t: State, phase: Phase) {
    phase.Writing? || phase.Synced? ==>
      (phase.name in s.temps ==> phase.name in t.temps && t.temps[phase.name] == s.temps[phase.name])
  }

  /** The holder of the lock is the only call that is writing. */
  lemma Alone(s: State, p: nat)
    requires LockInv(s) && DiskInv(s) && s.lock == Some(p)
    ensures forall q :: 0 <= q < |s.calls| && q != p ==>
              var c := s.calls[q];
              && !c.phase.Writing? && !c.phase.Synced? && !c.phase.Loaded?
              && (c.phase.Reading? ==> c.job.Get?)
  {
    hide CallReads;
    forall q | 0 <= q < |s.calls| && q != p
      ensures !s.calls[q].phase.Writing? && !s.calls[q].phase.Synced? && !s.calls[q].phase.Loaded?
      ensures s.calls[q].phase.Reading? ==> s.calls[q].job.Get?
    {
      assert CallInv(s, s.calls[q]);
    }
  }

  /** A step of the holder that may change the disk. */
  lemma DiskHolder(s: State, t: State, p: nat, phase: Phase)
    requires LockInv(s) && DiskInv(s) && s.lock == Some(p) && t.calls == To(s, p, phase).calls
    requires (t.file.Some? ==> t.file.value in t.past) && forall i :: i in t.past ==> i < |t.inodes|
    requires (forall i :: i in s.past ==> i in t.past) && CallInv(t, t.calls[p])
    ensures DiskInv(t)
  {
    Alone(s, p);
    hide LockInv, Critical, Stored, WriterInv;
    forall q | 0 <= q < |t.calls| ensures CallInv(t, t.calls[q]) {
      assert CallInv(s, s.calls[q]);
    }
  }

  lemma Holder(s: State, p: nat)
    requires LockInv(s) && At(s, p) && s.calls[p].job.Update? && Critical(s.calls[p].phase)
    ensures s.lock == Some(p)
  {}

  lemma CreateKeeps(s: State, e: Event)
    requires LockInv(s) && DiskInv(s) && Enabled(s, e) && e.Create?
    ensures DiskInv(Step(s, e)) && Stored(Step(s, e)) == Stored(s)
  {
    Holder(s, e.p);
    var t := Step(s, e);
    assert CallInv(s, s.calls[e.p]);
    hide LockInv;
    DiskHolder(s, t, e.p, t.calls[e.p].phase);
  }

  lemma FillKeeps(s: State, e: Event)
    requires LockInv(s) && DiskInv(s) && Enabled(s, e) && (e.Write? || e.Sync?)
    ensures DiskInv(Step(s, e)) && Stored(Step(s, e)) == Stored(s)
  {
    assert CallInv(s, s.calls[e.p]);
    Holder(s, e.p);
    var t := Step(s, e);
    assert s.calls[e.p] == s.calls[e.p].(phase := s.calls[e.p].phase);
    hide LockInv;
    DiskHolder(s, t, e.p, t.calls[e.p].phase);
  }

  lemma RenameKeeps(s: State, e: Event)
    requires LockInv(s) && DiskInv(s) && Enabled(s, e) && e.Rename?
    ensures DiskInv(Step(s, e)) && Stored(s).Some? && s.calls[e.p].job.Update?
    ensures Stored(Step(s, e)) == Some(Mutated(Stored(s).value, s.calls[e.p].job.mutation))
  {
    assert CallInv(s, s.calls[e.p]);
    Holder(s, e.p);
    var t := Step(s, e);
    hide LockInv;
    DiskHolder(s, t, e.p, t.calls[e.p].phase);
  }

  lemma FailKeeps(s: State, e: Event)
    requires LockInv(s) && DiskInv(s) && Enabled(s, e) && (e.Fail? || e.Die?)
    ensures DiskInv(Step(s, e)) && Stored(Step(s, e)) == Stored(s)
  {
    assert CallInv(s, s.calls[e.p]);
    var t := Step(s, e);
    if s.calls[e.p].phase.Writing? || s.calls[e.p].phase.Synced? {
      Holder(s, e.p);
      hide LockInv;
      DiskHolder(s, t, e.p, t.calls[e.p].phase);
    } else {
      hide LockInv;
      DiskMove(s, t, e.p, t.calls[e.p].phase);
    }
  }

  lemma ReadKeeps(s: State, e: Event)
    requires LockInv(s) && DiskInv(s) && Enabled(s, e)
    requires e.Look? || e.Open? || e.Read? || e.Release?
    ensures DiskInv(Step(s, e)) && Stored(Step(s, e)) == Stored(s)
  {
    assert CallInv(s, s.calls[e.p]);
    var t := Step(s, e);
    hide LockInv;
    DiskMove(s, t, e.p, t.calls[e.p].phase);
  }

  lemma StartKeeps(s: State, e: Event)
    requires DiskInv(s) && Enabled(s, e) && (e.Begin? || e.Acquire?)
    ensures DiskInv(Step(s, e)) && Stored(Step(s, e)) == Stored(s)
  {
    var t := Step(s, e);
    forall q | 0 <= q < |t.calls| ensures CallInv(t, t.calls[q]) {
      assert q < |s.calls| ==> CallInv(s, s.calls[q]);
    }
  }

  lemma DiskKeeps(s: State, e: Event)
    requires LockInv(s) && DiskInv(s) && Enabled(s, e)
    ensures DiskInv(Step(s, e))
    ensures !e.Rename? ==> Stored(Step(s, e)) == Stored(s) && Step(s, e).file == s.file
    ensures e.Rename? ==> Stored(s).Some? && s.calls[e.p].job.Update?
    ensures e.Rename? ==> Stored(Step(s, e)) == Some(Mutated(Stored(s).value, s.calls[e.p].job.mutation))
  {
    assert !e.Rename? ==> Step(s, e).file == s.file;
    hide LockInv, DiskInv, Enabled, Step, Stored;
    match e
    case Begin(_) => StartKeeps(s, e);
    case Acquire(_) => StartKeeps(s, e);
    case Create(_, _, _) => CreateKeeps(s, e);
    case Write(_, _) => FillKeeps(s, e);
    case Sync(_) => FillKeeps(s, e);
    case Rename(_) => RenameKeeps(s, e);
    case Fail(_, _) => FailKeeps(s, e);
    case Die(_) => FailKeeps(s, e);
    case _ => ReadKeeps(s, e);
  }

  /* ---------- the changes that took effect ---------- */

  lemma EffectsKeep(s: State, e: Event)
    requires LockInv(s) && Enabled(s, e)
    ensures LockInv(Step(s, e)) && Takers(s.acquired, s.calls) && (e.Rename? ==> At(s, e.p))
    ensures var before, after := Effects(s.acquired, s.calls), Effects(Step(s, e).acquired, Step(s, e).calls);
            if e.Rename? && s.calls[e.p].job.Update? then after == before + [s.calls[e.p].job.mutation]
            else after == before
  {
    LockKeeps(s, e);
    hide Critical, CallReads, Applied, Step, Enabled, Effects;
    if e.Acquire? {
      EffectsAcquire(s, e);
    } else if e.Rename? {
      Renames(s, e);
    } else if e.Begin? {
      EffectsBegin(s, e);
    } else {
      EffectsMove(s, e);
    }
  }

  lemma EffectsAcquire(s: State, e: Event)
    requires LockInv(s) && Enabled(s, e) && e.Acquire?
    ensures LockInv(Step(s, e)) && Effects(Step(s, e).acquired, Step(s, e).calls) == Effects(s.acquired, s.calls)
  {
    LockKeeps(s, e);
    hide Critical, CallReads;
    var t := Step(s, e);
    EffectsSame(s.acquired, s.calls, t.calls);
    assert t.acquired[..|t.acquired| - 1] == s.acquired;
  }

  lemma EffectsBegin(s: State, e: Event)
    requires LockInv(s) && Enabled(s, e) && e.Begin?
    ensures LockInv(Step(s, e)) && Effects(Step(s, e).acquired, Step(s, e).calls) == Effects(s.acquired, s.calls)
  {
    LockKeeps(s, e);
    hide Critical, CallReads, Applied;
    EffectsSame(s.acquired, s.calls, Step(s, e).calls);
  }

  lemma EffectsMove(s: State, e: Event)
    requires LockInv(s) && Enabled(s, e) && Moves(e) && !e.Rename?
    ensures LockInv(Step(s, e)) && Effects(Step(s, e).acquired, Step(s, e).calls) == Effects(s.acquired, s.calls)
  {
    LockKeeps(s, e);
    SameApplied(s, e);
    if s.lock.Some? { LockHolder(s); }
    MovesOne(s, e);
    hide Critical, CallReads, Applied, Step, Enabled, Effects;
    EffectsOne(s.acquired, s.calls, e.p, Step(s, e).calls[e.p].phase);
  }

  lemma EffectsOne(acquired: seq<nat>, calls: seq<Call>, p: nat, phase: Phase)
    requires Takers(acquired, calls) && p < |calls| && (Applied(phase) <==> Applied(calls[p].phase))
    ensures Takers(acquired, calls[p := calls[p].(phase := phase)])
    ensures Effects(acquired, calls[p := calls[p].(phase := phase)]) == Effects(acquired, calls)
  {
    hide Applied, Effects;
    EffectsSame(acquired, calls, calls[p := calls[p].(phase := phase)]);
  }

  lemma SameApplied(s: State, e: Event)
    requires Enabled(s, e) && Moves(e) && !e.Rename?
    ensures |Step(s, e).calls| == |s.calls|
    ensures Applied(Step(s, e).calls[e.p].phase) <==> Applied(s.calls[e.p].phase)
  {}

  lemma Renames(s: State, e: Event)
    requires LockInv(s) && Enabled(s, e) && e.Rename?
    ensures LockInv(Step(s, e))
    ensures var before, after := Effects(s.acquired, s.calls), Effects(Step(s, e).acquired, Step(s, e).calls);
            if s.calls[e.p].job.Update? then after == before + [s.calls[e.p].job.mutation] else after == before
  {
    LockKeeps(s, e);
    var t := Step(s, e);
    if s.calls[e.p].job.Update? {
      Holder(s, e.p);
      LockHolder(s);
      hide Critical, CallReads;
      var n := |s.acquired| - 1;
      EffectsSame(s.acquired[..n], s.calls, t.calls);
    } else {
      EffectsSame(s.acquired, s.calls, t.calls);
    }
  }

  lemma StepKeeps(s: State, e: Event, start: Option<Values>)
    requires Inv(s, start) && Enabled(s, e)
    ensures Inv(Step(s, e), start)
  {
    hide LockInv, DiskInv, Enabled, Step, Stored, Effects, Fold;
    LockKeeps(s, e);
    DiskKeeps(s, e);
    EffectsKeep(s, e);
    if e.Rename? && start.Some? {
      FoldLast(start.value, Effects(s.acquired, s.calls), s.calls[e.p].job.mutation);
    }
  }

  lemma FoldLast(values: Values, mutations: seq<Mutation>, last: Mutation)
    ensures Fold(values, mutations + [last]) == Mutated(Fold(values, mutations), last)
  {
    assert (mutations + [last])[..|mutations|] == mutations;
  }

  lemma {:induction false} RunKeeps(run: Run, n: nat)
    requires IsRun(run) && n < |run.states|
    ensures IsInit(run.states[0]) && Inv(run.states[n], Stored(run.states[0]))
    decreases n
  {
    InitKeeps(run.states[0]);
    hide Inv, Enabled, Step, Stored, IsInit;
    if n > 0 {
      RunKeeps(run, n - 1);
      StepTaken(run, n - 1);
      StepKeeps(run.states[n - 1], run.events[n - 1], Stored(run.states[0]));
    }
  }

  lemma StepTaken(run: Run, i: nat)
    requires IsRun(run) && i < |run.events|
    ensures Enabled(run.states[i], run.events[i]) && run.states[i + 1] == Step(run.states[i], run.events[i])
  {
    hide Enabled, Step, IsInit;
    assert StepAt(run, i);
  }
}
