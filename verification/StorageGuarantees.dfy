/** What the settings file guarantees in every run, whatever fails or dies. */
module StorageGuarantees {
  import opened Text
  import opened LocalStorage
  import opened StorageInvariants
  import opened StorageHistory

  /** At any moment of any run the stored map is the starting one with every
      change that took effect applied in the order the lock was taken. */
  lemma StoredIsSerial(run: Run, n: nat)
    requires IsRun(run) && n < |run.states|
    ensures Inv(run.states[n], Stored(run.states[0]))
    ensures Stored(run.states[n]) ==
            Serial(Stored(run.states[0]), Effects(run.states[n].acquired, run.states[n].calls))
  {
    hide LockInv, DiskInv, Effects, Fold, IsRun, Stored;
    RunKeeps(run, n);
  }

  /** Two changes are never between lock and release together. */
  lemma OneWriter(run: Run, n: nat, p: nat, q: nat)
    requires IsRun(run) && n < |run.states| && p < |run.states[n].calls| && q < |run.states[n].calls|
    requires run.states[n].calls[p].job.Update? && Critical(run.states[n].calls[p].phase)
    requires run.states[n].calls[q].job.Update? && Critical(run.states[n].calls[q].phase)
    ensures p == q
  {
    RunKeeps(run, n);
    hide Critical;
    Holder(run.states[n], p);
    Holder(run.states[n], q);
  }

  /** An update that ended in an error never touched the stored file. */
  lemma FailedChangesNothing(run: Run, i: nat, n: nat, p: nat)
    requires IsRun(run) && i < n < |run.states| && p < |run.states[n].calls|
    requires run.states[n].calls[p].phase.Failed? && !run.events[i].Begin? && run.events[i].p == p
    ensures run.states[i + 1].file == run.states[i].file
    ensures Inv(run.states[i], Stored(run.states[0])) && Inv(run.states[i + 1], Stored(run.states[0]))
    ensures Stored(run.states[i + 1]) == Stored(run.states[i])
  {
    RunKeeps(run, i);
    RunKeeps(run, i + 1);
    RunGrows(run, i + 1, n);
    var s, e := run.states[i], run.events[i];
    StepTaken(run, i);
    if e.Rename? { RenamesApply(s, e); }
    hide LockInv, Enabled, Step, Stored, Effects, Fold, CallInv;
    DiskKeeps(s, e);
  }

  /** Every update that reported success took effect, once. */
  lemma SuccessTookEffect(run: Run, n: nat, p: nat)
    requires IsRun(run) && n < |run.states| && p < |run.states[n].calls|
    requires run.states[n].calls[p].phase.Succeeded?
    ensures run.states[n].calls[p].job.Update?
    ensures exists i :: 0 <= i < |run.states[n].acquired| && run.states[n].acquired[i] == p
                        && forall j :: 0 <= j < |run.states[n].acquired| && j != i ==> run.states[n].acquired[j] != p
  {
    RunKeeps(run, n);
    var s := run.states[n];
    hide IsRun;
    assert p in s.acquired;
  }

  /** A change that took effect before another call began comes before it in
      the order of the lock. */
  lemma RealTimeOrder(run: Run, m: nat, n: nat, a: nat, b: nat)
    requires IsRun(run) && m <= n < |run.states|
    requires a < |run.states[n].acquired| && b < |run.states[n].acquired|
    requires run.states[n].acquired[a] < |run.states[m].calls| <= run.states[n].acquired[b]
    requires Applied(run.states[m].calls[run.states[n].acquired[a]].phase)
    ensures a < b
  {
    RunKeeps(run, m);
    RunKeeps(run, n);
    RunGrows(run, m, n);
    var s, t := run.states[m], run.states[n];
    hide IsRun, Applied, DiskInv, FilesGrow, Critical;
    AppliedHasLock(s, t.acquired[a]);
    var i :| 0 <= i < |s.acquired| && s.acquired[i] == t.acquired[a];
    assert t.acquired[i] == t.acquired[a];
    assert forall j :: 0 <= j < |s.acquired| ==> t.acquired[j] == s.acquired[j];
  }

  lemma AppliedHasLock(s: State, p: nat)
    requires LockInv(s) && At(s, p) && Applied(s.calls[p].phase)
    ensures p in s.acquired
  {}

  /** A file no `load` can parse is never replaced, and no update succeeds. */
  lemma {:induction false} CorruptStays(run: Run, n: nat, p: nat)
    requires IsRun(run) && n < |run.states| && p < |run.states[n].calls|
    requires IsInit(run.states[0]) && Stored(run.states[0]).None?
    ensures run.states[n].file == run.states[0].file
    ensures !run.states[n].calls[p].phase.Succeeded?
  {
    CorruptFile(run, n);
    RunKeeps(run, n);
    var s := run.states[n];
    if Applied(s.calls[p].phase) {
      AppliedHasLock(s, p);
      hide Applied;
      EffectsMember(s.acquired, s.calls, p);
    }
  }

  lemma {:induction false} CorruptFile(run: Run, n: nat)
    requires IsRun(run) && n < |run.states| && IsInit(run.states[0]) && Stored(run.states[0]).None?
    ensures run.states[n].file == run.states[0].file
    decreases n
  {
    if n > 0 {
      CorruptFile(run, n - 1);
      RunKeeps(run, n - 1);
      hide LockInv, DiskInv, Enabled, Step, Stored, Effects, IsInit;
      StepTaken(run, n - 1);
      DiskKeeps(run.states[n - 1], run.events[n - 1]);
    }
  }

  lemma {:induction false} EffectsMember(acquired: seq<nat>, calls: seq<Call>, p: nat)
    requires Takers(acquired, calls) && p in acquired && p < |calls| && Applied(calls[p].phase)
    ensures Effects(acquired, calls) != []
  {
    hide Applied;
    var n := |acquired| - 1;
    if acquired[n] != p { EffectsMember(acquired[..n], calls, p); }
  }

  /** Without a lock, every read answers with the map that was stored at some
      moment between its beginning and its end. */
  lemma ReadsAreCurrent(run: Run, n: nat, p: nat)
    requires IsRun(run) && n < |run.states| && At(run.states[n], p)
    requires run.states[n].calls[p].phase.Answered?
    ensures WasStored(run, n, p, run.states[n].calls[p].phase.result)
  {
    ReadsKeep(run, n, p);
  }
}
