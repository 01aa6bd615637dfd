/** What never goes back in a run of the settings file, and what a read has seen
    so far. */
module StorageHistory {
  import opened Text
  import opened LocalStorage
  import opened StorageInvariants

  /** What never goes back: calls and locks taken are only added, a change that
      took effect stays, and so does what is in a file that was stored. */
  ghost predicate Grows(s: State, t: State) {
    CallsGrow(s, t) && FilesGrow(s, t)
  }

  ghost predicate CallsGrow(s: State, t: State) {
    && |s.calls| <= |t.calls| && s.acquired <= t.acquired
    && (forall p :: 0 <= p < |s.calls| ==> t.calls[p].job == s.calls[p].job)
    && (forall p :: 0 <= p < |s.calls| && Applied(s.calls[p].phase) ==> Applied(t.calls[p].phase))
    && (forall p :: 0 <= p < |s.calls| && Ended(s.calls[p].phase) ==> t.calls[p] == s.calls[p])
  }

  ghost predicate FilesGrow(s: State, t: State) {
    && |s.inodes| <= |t.inodes| && s.past <= t.past
    && forall i :: i in s.past && i < |s.inodes| ==> t.inodes[i] == s.inodes[i]
  }

  lemma StepFiles(s: State, e: Event)
    requires DiskInv(s) && Enabled(s, e)
    ensures FilesGrow(s, Step(s, e))
  {
    assert !e.Begin? ==> CallInv(s, s.calls[e.p]);
  }

  lemma NotEnded(s: State, e: Event)
    requires Enabled(s, e) && !e.Begin?
    ensures At(s, e.p) && !Ended(s.calls[e.p].phase)
  {}

  lemma StepCalls(s: State, e: Event)
    requires LockInv(s) && Enabled(s, e)
    ensures CallsGrow(s, Step(s, e))
  {
    hide LockInv, Applied, Ended, Step, Enabled;
    if e.Begin? || e.Acquire? {
      NewCalls(s, e);
    } else {
      if s.lock.Some? { LockHolder(s); }
      MovesOne(s, e);
      NotEnded(s, e);
      if e.Rename? { RenamesApply(s, e); } else { SameApplied(s, e); }
    }
  }

  /** A call that begins or takes the lock. */
  lemma NewCalls(s: State, e: Event)
    requires Enabled(s, e) && (e.Begin? || e.Acquire?)
    ensures CallsGrow(s, Step(s, e))
  {}

  lemma CallsGrowOn(s: State, t: State, u: State)
    requires CallsGrow(s, t) && CallsGrow(t, u)
    ensures CallsGrow(s, u)
  {
    hide Applied, Ended;
  }

  lemma FilesGrowOn(s: State, t: State, u: State)
    requires FilesGrow(s, t) && FilesGrow(t, u)
    ensures FilesGrow(s, u)
  {}

  lemma GrowsToItself(s: State)
    ensures Grows(s, s)
  {}

  lemma {:induction false} RunGrows(run: Run, m: nat, n: nat)
    requires IsRun(run) && m <= n < |run.states|
    ensures Grows(run.states[m], run.states[n])
    decreases n
  {
    GrowsToItself(run.states[m]);
    if m < n {
      RunGrows(run, m, n - 1);
      RunKeeps(run, n - 1);
      hide Enabled, Step, LockInv, DiskInv, IsInit, Stored, CallsGrow, FilesGrow;
      StepTaken(run, n - 1);
      StepFiles(run.states[n - 1], run.events[n - 1]);
      StepCalls(run.states[n - 1], run.events[n - 1]);
      CallsGrowOn(run.states[m], run.states[n - 1], run.states[n]);
      FilesGrowOn(run.states[m], run.states[n - 1], run.states[n]);
    }
  }

  lemma RenamesApply(s: State, e: Event)
    requires Enabled(s, e) && e.Rename?
    ensures At(Step(s, e), e.p) && Applied(Step(s, e).calls[e.p].phase)
  {}

  /* ---------- reads ---------- */

  /** The call is under way at this moment of the run. */
  predicate Ongoing(s: State, p: nat) { At(s, p) && !Ended(s.calls[p].phase) }

  /** The values were the stored ones at some moment of the call. */
  ghost predicate WasStored(run: Run, n: nat, p: nat, values: Values)
    requires n < |run.states|
  {
    exists k :: 0 <= k <= n && Ongoing(run.states[k], p) && StoredAre(run.states[k], values)
  }

  ghost predicate StoredAre(s: State, values: Values) {
    (s.file.Some? ==> s.file.value < |s.inodes|) && Stored(s) == Some(values)
  }

  ghost predicate WasFile(run: Run, n: nat, p: nat, inode: nat)
    requires n < |run.states|
  {
    exists k :: 0 <= k <= n && Ongoing(run.states[k], p) && run.states[k].file == Some(inode)
  }

  ghost predicate ReadSoFar(run: Run, n: nat, p: nat)
    requires n < |run.states| && p < |run.states[n].calls|
  {
    match run.states[n].calls[p].phase
    case Reading(inode) => WasFile(run, n, p, inode)
    case Answered(values) => WasStored(run, n, p, values)
    case _ => true
  }

  lemma EarlierRead(run: Run, n: nat, p: nat)
    requires 0 < n < |run.states| && At(run.states[n - 1], p) && At(run.states[n], p)
    requires run.states[n].calls[p] == run.states[n - 1].calls[p] && ReadSoFar(run, n - 1, p)
    ensures ReadSoFar(run, n, p)
  {
    hide Ongoing, StoredAre;
  }

  /** A file read to the end by a call that opened it when it was the stored one. */
  lemma ReadWhatWasStored(run: Run, n: nat, p: nat, inode: nat)
    requires IsRun(run) && 0 < n < |run.states| && WasFile(run, n - 1, p, inode)
    ensures inode < |run.states[n - 1].inodes|
    ensures Parse(run.states[n - 1].inodes[inode]).Some? ==>
              WasStored(run, n, p, Parse(run.states[n - 1].inodes[inode]).value)
  {
    var k :| 0 <= k <= n - 1 && Ongoing(run.states[k], p) && run.states[k].file == Some(inode);
    RunKeeps(run, k);
    RunGrows(run, k, n - 1);
    hide LockInv, IsRun, CallsGrow, Effects;
    assert DiskInv(run.states[k]);
    assert Parse(run.states[n - 1].inodes[inode]).Some? ==>
             StoredAre(run.states[k], Parse(run.states[n - 1].inodes[inode]).value);
  }

  lemma OwnStep(s: State, e: Event)
    requires Enabled(s, e) && !e.Begin?
    ensures At(s, e.p) && At(Step(s, e), e.p)
    ensures match Step(s, e).calls[e.p].phase
            case Reading(inode) => s.file == Some(inode) || s.calls[e.p].phase == Reading(inode)
            case Answered(values) =>
              || (s.file.None? && values == map[])
              || (&& s.calls[e.p].phase.Reading? && s.calls[e.p].phase.inode < |s.inodes|
                  && Parse(s.inodes[s.calls[e.p].phase.inode]) == Some(values))
            case _ => true
  {}

  lemma OthersStay(s: State, e: Event, p: nat)
    requires Enabled(s, e) && At(s, p) && (e.Begin? || e.p != p)
    ensures At(Step(s, e), p) && Step(s, e).calls[p] == s.calls[p]
  {}

  lemma NewCall(s: State, e: Event, p: nat)
    requires Enabled(s, e) && At(Step(s, e), p) && !At(s, p)
    ensures !Step(s, e).calls[p].phase.Reading? && !Step(s, e).calls[p].phase.Answered?
  {}

  lemma {:induction false} ReadsKeep(run: Run, n: nat, p: nat)
    requires IsRun(run) && n < |run.states| && At(run.states[n], p)
    ensures ReadSoFar(run, n, p)
    decreases n
  {
    hide WasFile, WasStored, Enabled, Step, IsInit;
    if n == 0 {
      NoCalls(run.states[0]);
    } else {
      var s, e := run.states[n - 1], run.events[n - 1];
      StepTaken(run, n - 1);
      if !At(s, p) {
        NewCall(s, e, p);
      } else {
        ReadsKeep(run, n - 1, p);
        if e.Begin? || e.p != p {
          OthersStay(s, e, p);
          EarlierRead(run, n, p);
        } else {
          OwnRead(run, n, p);
        }
      }
    }
  }

  lemma NoCalls(s: State)
    requires IsInit(s)
    ensures s.calls == []
  {}

  lemma OwnRead(run: Run, n: nat, p: nat)
    requires IsRun(run) && 0 < n < |run.states| && At(run.states[n - 1], p) && At(run.states[n], p)
    requires ReadSoFar(run, n - 1, p) && !run.events[n - 1].Begin? && run.events[n - 1].p == p
    ensures ReadSoFar(run, n, p)
  {
    var s, e := run.states[n - 1], run.events[n - 1];
    StepTaken(run, n - 1);
    OwnStep(s, e);
    NotEnded(s, e);
    hide Enabled, Step, IsInit;
    assert Ongoing(s, p);
    if s.calls[p].phase.Reading? {
      ReadWhatWasStored(run, n, p, s.calls[p].phase.inode);
      WasFileLater(run, n, p, s.calls[p].phase.inode);
    }
    if s.file.None? { assert StoredAre(s, map[]); }
  }

  lemma WasFileLater(run: Run, n: nat, p: nat, inode: nat)
    requires 0 < n < |run.states| && WasFile(run, n - 1, p, inode)
    ensures WasFile(run, n, p, inode)
  {}
}
