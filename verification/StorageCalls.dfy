/** One call of `update` or `get` as the program runs it: which steps it takes, in
    which order, and what it leaves when no other call moves meanwhile. */
module StorageCalls {
  import opened Text
  import opened LocalStorage
  import opened StorageInvariants
  import opened StorageValues

  /** The change is made to its key, and to no other. */
  ghost predicate Changed(before: Values, after: Values, m: Mutation) {
    && Lookup(after, m.key) == LeftBy(m)
    && forall key :: key != m.key ==> Lookup(after, key) == Lookup(before, key)
  }

  lemma MutatedIsChanged(values: Values, m: Mutation)
    ensures Changed(values, Mutated(values, m), m)
  {}

  class Storage {
    var now: State
    ghost var trace: seq<Event>

    ghost predicate Valid()
      reads this
    {
      LockInv(now) && DiskInv(now)
    }

    constructor (start: State)
      requires LockInv(start) && DiskInv(start)
      ensures Valid() && now == start && trace == []
    {
      now, trace := start, [];
    }

    /** One step of the disk, of the lock or of a call. */
    method Do(e: Event)
      requires Valid() && Enabled(now, e)
      modifies this
      ensures Valid() && now == Step(old(now), e) && trace == old(trace) + [e]
      ensures !e.Rename? ==> now.file == old(now).file && Stored(now) == Stored(old(now))
      ensures e.Rename? ==> old(now).calls[e.p].job.Update? && Stored(old(now)).Some?
      ensures e.Rename? ==> Stored(now) == Some(Mutated(Stored(old(now)).value, old(now).calls[e.p].job.mutation))
    {
      LockKeeps(now, e);
      DiskKeeps(now, e);
      hide LockInv, DiskInv, Step, Enabled, Stored, Mutated;
      now, trace := Step(now, e), trace + [e];
    }

    /** `load`, for the call `p`: it ends with the stored values or gives up. */
    method Load(p: nat) returns (ok: bool)
      requires Valid() && At(now, p) && now.calls[p].phase.Looking?
      requires now.calls[p].job.Update? <==> now.lock == Some(p)
      modifies this
      ensures Valid() && Stored(now) == Stored(old(now)) && now.file == old(now).file
      ensures |now.calls| == |old(now).calls| && now.calls[p].job == old(now).calls[p].job
      ensures now.lock == if ok then old(now).lock else if now.calls[p].job.Update? then None else old(now).lock
      ensures ok ==>
                Stored(now).Some? && now.calls[p].phase ==
                if now.calls[p].job.Get? then Answered(Stored(now).value) else Loaded(Stored(now).value)
      ensures !ok ==> now.calls[p].phase.Failed?
    {
      hide LockInv, DiskInv;
      Do(Look(p));
      if !now.calls[p].phase.Opening? { return true; }
      var fails: bool := *;
      if fails {
        Do(Fail(p, false));
        return false;
      }
      Do(Open(p));
      FileThere(now);
      fails := *;
      if fails {
        Do(Fail(p, false));
        return false;
      }
      Do(Read(p));
      ok := !now.calls[p].phase.Failed?;
    }

    /** `get`: no lock, and the stored value of the key. */
    method Get(key: string) returns (found: Option<Option<string>>)
      requires Valid()
      modifies this
      ensures Valid() && Stored(now) == Stored(old(now)) && now.file == old(now).file
      ensures found.Some? ==>
                Stored(now).Some?
                && found.value == Lookup(Stored(now).value, key)
    {
      if now.lock.Some? { LockHolder(now); }
      hide LockInv, DiskInv, Stored;
      var p := |now.calls|;
      Do(Begin(Job.Get));
      var ok := Load(p);
      if !ok { return None; }
      var values := now.calls[p].phase.result;
      return Some(if key in values then Some(values[key]) else None);
    }

    /** `update` alone: it reports success exactly when the change is stored, and
        an error leaves the stored values as they were; the lock is free again. */
    method Update(m: Mutation, name: string) returns (ok: bool)
      requires Valid() && now.lock.None?
      modifies this
      ensures Valid() && now.lock.None?
      ensures ok ==> Stored(old(now)).Some? && Stored(now).Some?
                     && Changed(Stored(old(now)).value, Stored(now).value, m)
      ensures !ok ==> Stored(now) == Stored(old(now)) && now.file == old(now).file
    {
      if Stored(now).Some? { MutatedIsChanged(Stored(now).value, m); }
      hide LockInv, DiskInv, Stored, Mutated, Changed;
      var p := |now.calls|;
      Do(Begin(Job.Update(m)));
      Do(Acquire(p));
      ok := Load(p);
      if !ok { return; }
      ok := Save(p, name);
    }

    /** `save`: a temporary file, filled and then renamed over the stored one. */
    method Save(p: nat, name: string) returns (ok: bool)
      requires Valid() && At(now, p) && now.calls[p].phase.Loaded? && now.calls[p].job.Update? && now.lock == Some(p)
      modifies this
      ensures Valid() && now.lock.None?
      ensures ok ==> Stored(old(now)).Some?
                     && Stored(now) == Some(Mutated(Stored(old(now)).value, old(now).calls[p].job.mutation))
      ensures !ok ==> Stored(now) == Stored(old(now)) && now.file == old(now).file
    {
      hide LockInv, DiskInv, Stored, Mutated;
      var cleaned: bool := *;
      Do(Create(p, name, cleaned));
      if now.calls[p].phase.Failed? { return false; }
      var fails: bool := *;
      if fails {
        Do(Fail(p, cleaned));
        return false;
      }
      Do(Sync(p));
      WriterReady(now, p);
      fails := *;
      if fails {
        Do(Fail(p, cleaned));
        return false;
      }
      Do(Rename(p));
      Do(Release(p));
      return true;
    }
  }

  lemma FileThere(s: State)
    requires DiskInv(s)
    ensures forall p :: 0 <= p < |s.calls| && s.calls[p].phase.Reading? ==> s.calls[p].phase.inode < |s.inodes|
  {
    forall p | 0 <= p < |s.calls| && s.calls[p].phase.Reading? ensures s.calls[p].phase.inode < |s.inodes| {
      assert CallInv(s, s.calls[p]);
    }
  }

  lemma WriterReady(s: State, p: nat)
    requires DiskInv(s) && At(s, p) && s.calls[p].phase.Synced?
    ensures s.calls[p].phase.name in s.temps
  {
    assert CallInv(s, s.calls[p]);
  }
}
