/** What the settings file holds under each key, in terms of the calls alone: the
    value of the last change of that key. */
module StorageValues {
  import opened Text
  import opened LocalStorage
  import opened StorageInvariants
  import opened StorageHistory
  import opened StorageGuarantees

  function Lookup(values: Values, key: string): Option<string> {
    if key in values then Some(values[key]) else None
  }

  /** What a key holds when a change of it was the last. */
  function LeftBy(m: Mutation): Option<string> {
    match m
    case Set(_, value) => Some(value)
    case Remove(_) => None
  }

  /** The call changed the key, and its change took effect. */
  predicate Changes(c: Call, key: string) {
    c.job.Update? && Applied(c.phase) && c.job.mutation.key == key
  }

  /** The call at place `i` of the order of the lock is the last that changed the key. */
  predicate LastChange(acquired: seq<nat>, calls: seq<Call>, key: string, i: nat)
    requires Takers(acquired, calls)
  {
    && i < |acquired| && Changes(calls[acquired[i]], key)
    && forall j :: i < j < |acquired| ==> !Changes(calls[acquired[j]], key)
  }

  /** The values hold under the key what the last change of it left, and what they
      held at the start when there was none. */
  ghost predicate HoldsLast(acquired: seq<nat>, calls: seq<Call>, start: Values, values: Values, key: string)
    requires Takers(acquired, calls)
  {
    && (forall i: nat :: LastChange(acquired, calls, key, i) ==>
          Lookup(values, key) == LeftBy(calls[acquired[i]].job.mutation))
    && ((forall i :: 0 <= i < |acquired| ==> !Changes(calls[acquired[i]], key)) ==>
          Lookup(values, key) == Lookup(start, key))
  }

  lemma {:induction false} FoldHoldsLast(acquired: seq<nat>, calls: seq<Call>, start: Values, key: string)
    requires Takers(acquired, calls)
    ensures HoldsLast(acquired, calls, start, Fold(start, Effects(acquired, calls)), key)
    decreases |acquired|
  {
    hide Applied, HoldsLast, Fold, Effects;
    if acquired == [] {
      NothingChanged(calls, start, key);
    } else {
      var n := |acquired| - 1;
      assert acquired == acquired[..n] + [acquired[n]];
      FoldHoldsLast(acquired[..n], calls, start, key);
      FoldStep(acquired, calls, start, key);
      OneMoreTaker(acquired[..n], acquired[n], calls, start, Fold(start, Effects(acquired[..n], calls)),
                   Fold(start, Effects(acquired, calls)), key);
    }
  }

  lemma NothingChanged(calls: seq<Call>, start: Values, key: string)
    ensures Takers([], calls) && HoldsLast([], calls, start, Fold(start, Effects([], calls)), key)
  {}

  /** What one more call does to a key. */
  lemma FoldStep(acquired: seq<nat>, calls: seq<Call>, start: Values, key: string)
    requires acquired != [] && Takers(acquired, calls)
    ensures var n := |acquired| - 1;
            var before, after := Fold(start, Effects(acquired[..n], calls)), Fold(start, Effects(acquired, calls));
            Lookup(after, key) == if Changes(calls[acquired[n]], key) then LeftBy(calls[acquired[n]].job.mutation)
                                  else Lookup(before, key)
  {
    hide Applied;
    var n := |acquired| - 1;
    var before, last := Effects(acquired[..n], calls), calls[acquired[n]];
    if Applied(last.phase) {
      assert (before + [last.job.mutation])[..|before|] == before;
    } else {
      assert before + [] == before;
    }
  }

  lemma OneMoreTaker(front: seq<nat>, p: nat, calls: seq<Call>, start: Values, before: Values, after: Values,
                     key: string)
    requires Takers(front, calls) && p < |calls| && calls[p].job.Update? && HoldsLast(front, calls, start, before, key)
    requires Lookup(after, key) == if Changes(calls[p], key) then LeftBy(calls[p].job.mutation) else Lookup(before, key)
    ensures Takers(front + [p], calls) && HoldsLast(front + [p], calls, start, after, key)
  {
    hide Changes, Lookup, LeftBy;
    var all := front + [p];
    assert forall j :: 0 <= j < |front| ==> all[j] == front[j];
    forall i: nat | LastChange(all, calls, key, i) ensures Lookup(after, key) == LeftBy(calls[all[i]].job.mutation) {
      if i < |front| {
        assert !Changes(calls[all[|front|]], key);
        assert LastChange(front, calls, key, i);
      }
    }
    if forall j :: 0 <= j < |all| ==> !Changes(calls[all[j]], key) {
      assert !Changes(calls[all[|front|]], key);
      assert forall j :: 0 <= j < |front| ==> !Changes(calls[front[j]], key);
    }
  }

  /** At any moment of any run every key holds what the last effective change of it
      left, in the order of the lock. */
  lemma StoredIsLast(run: Run, n: nat, key: string)
    requires IsRun(run) && n < |run.states|
    ensures LockInv(run.states[n])
    ensures Inv(run.states[n], Stored(run.states[0]))
    ensures Stored(run.states[n]).Some? <==> Stored(run.states[0]).Some?
    ensures Stored(run.states[n]).Some? ==>
              HoldsLast(run.states[n].acquired, run.states[n].calls, Stored(run.states[0]).value,
                        Stored(run.states[n]).value, key)
  {
    StoredIsSerial(run, n);
    hide HoldsLast, IsRun, Stored, Effects, Fold, DiskInv;
    if Stored(run.states[0]).Some? {
      FoldHoldsLast(run.states[n].acquired, run.states[n].calls, Stored(run.states[0]).value, key);
    }
  }

  /** The key as one read saw it at a moment of that read. */
  ghost predicate SawLast(run: Run, k: nat, p: nat, values: Values, key: string)
    requires k < |run.states| && IsRun(run)
  {
    && Ongoing(run.states[k], p) && LockInv(run.states[k]) && IsInit(run.states[0])
    && Stored(run.states[0]).Some?
    && HoldsLast(run.states[k].acquired, run.states[k].calls, Stored(run.states[0]).value, values, key)
  }

  /** Every read answers, key by key, with the last change of the key at one moment
      of the read. */
  lemma ReadsSeeLast(run: Run, n: nat, p: nat) returns (k: nat)
    requires IsRun(run) && n < |run.states| && At(run.states[n], p)
    requires run.states[n].calls[p].phase.Answered?
    ensures k <= n && forall key :: SawLast(run, k, p, run.states[n].calls[p].phase.result, key)
  {
    ReadsAreCurrent(run, n, p);
    var values := run.states[n].calls[p].phase.result;
    k :| 0 <= k <= n && Ongoing(run.states[k], p) && StoredAre(run.states[k], values);
    forall key ensures SawLast(run, k, p, values, key) {
      StoredIsLast(run, k, key);
    }
  }

  /** No later call changed the key, in the order of the lock. */
  predicate NotChangedAfter(s: State, p: nat, key: string) {
    forall i, j :: 0 <= i < j < |s.acquired| && s.acquired[i] == p && s.acquired[j] < |s.calls| ==>
      !Changes(s.calls[s.acquired[j]], key)
  }

  /** A read that begins after an update succeeded finds what the update left, unless
      another change of the key took effect behind it. */
  lemma UpdateThenGet(run: Run, m: nat, n: nat, p: nat, q: nat)
    requires IsRun(run) && m <= n < |run.states| && At(run.states[m], p) && At(run.states[n], q)
    requires run.states[m].calls[p].job.Update? && run.states[m].calls[p].phase.Succeeded?
    requires |run.states[m].calls| <= q && run.states[n].calls[q].phase.Answered?
    requires NotChangedAfter(run.states[n], p, run.states[m].calls[p].job.mutation.key)
    ensures var change := run.states[m].calls[p].job.mutation;
            Lookup(run.states[n].calls[q].phase.result, change.key) == LeftBy(change)
  {
    var change := run.states[m].calls[p].job.mutation;
    var k := ReadsSeeLast(run, n, q);
    assert SawLast(run, k, q, run.states[n].calls[q].phase.result, change.key);
    if k <= m {
      RunGrows(run, k, m);
      assert false;
    }
    RunGrows(run, m, k);
    RunGrows(run, k, n);
    RunKeeps(run, n);
    hide IsRun, DiskInv, FilesGrow, LockInv, HoldsLast, IsInit, Stored, Effects, Fold, Applied;
    Applies(run.states[m].calls[p].phase);
    StaysLast(run.states[k], run.states[n], p, change);
    hide NotChangedAfter, CallsGrow;
    Found(run, k, q, run.states[n].calls[q].phase.result, change, p);
  }

  lemma Applies(phase: Phase)
    ensures phase.Succeeded? ==> Applied(phase) && Ended(phase)
  {}

  /** What one read saw under the key that a call changed last. */
  lemma Found(run: Run, k: nat, q: nat, values: Values, change: Mutation, p: nat)
    requires k < |run.states| && IsRun(run) && SawLast(run, k, q, values, change.key)
    requires LockInv(run.states[k]) && At(run.states[k], p) && run.states[k].calls[p].job == Update(change)
    requires exists i: nat :: LastChange(run.states[k].acquired, run.states[k].calls, change.key, i)
                              && run.states[k].acquired[i] == p
    ensures Lookup(values, change.key) == LeftBy(change)
  {
    hide IsRun, Critical, Changes, IsInit, Ongoing, Stored;
  }

  /** A change that no later one follows at the end was the last at any moment after it. */
  lemma StaysLast(s: State, t: State, p: nat, change: Mutation)
    requires LockInv(s) && LockInv(t) && CallsGrow(s, t) && At(s, p)
    requires s.calls[p].job == Update(change) && Applied(s.calls[p].phase)
    requires NotChangedAfter(t, p, change.key)
    ensures exists i: nat :: LastChange(s.acquired, s.calls, change.key, i) && s.acquired[i] == p
  {
    AppliedHasLock(s, p);
    hide Critical, Applied;
    var i :| 0 <= i < |s.acquired| && s.acquired[i] == p;
    assert forall j :: 0 <= j < |s.acquired| ==> t.acquired[j] == s.acquired[j];
    assert LastChange(s.acquired, s.calls, change.key, i);
  }
}
