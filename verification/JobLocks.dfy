/** At most one call is in the critical section of a job, whatever threads, replicas, deletes and crashes do. */
module JobLocks {
  import opened Wrappers
  import opened JobStore

  /** While the directory exists, every reference a replica's calls hold is to the lock object in its map. */
  ghost predicate RefsAgree(s: State) {
    forall id :: id in s.calls && s.calls[id].HasRef() && s.dir.Some? ==>
      s.calls[id].replica in s.lockMap && s.lockMap[s.calls[id].replica] == s.calls[id].lock
  }

  /** Who goes on after acquiring a lock object holds it. */
  ghost predicate HoldersHold(s: State) {
    forall id :: id in s.calls && s.calls[id].Holds() ==>
      s.calls[id].lock in s.holder && s.holder[s.calls[id].lock] == id
  }

  /** Calls of one replica with the lock file open have the same lock object. */
  ghost predicate OpenersAgree(s: State) {
    forall a, b ::
      a in s.calls && b in s.calls && s.calls[a].FileOpen() && s.calls[b].FileOpen()
      && s.calls[a].replica == s.calls[b].replica
      ==> s.calls[a].lock == s.calls[b].lock
  }

  /** In the critical section, the process owns the record lock. */
  ghost predicate LockedOwn(s: State) {
    forall id :: id in s.calls && s.calls[id].Locked() ==> s.owner == Some(s.calls[id].replica)
  }

  /** The lock map is pruned only after the directory is gone, for good. */
  ghost predicate PopsAfterRemove(s: State) {
    forall id :: id in s.calls && (s.calls[id].pc.Pop? || s.calls[id].pc.PopUnlocked?) ==> s.dir.None?
  }

  ghost predicate LockInv(s: State) {
    RefsAgree(s) && HoldersHold(s) && OpenersAgree(s) && LockedOwn(s) && PopsAfterRemove(s)
  }

  /** At most one thread per replica has the lock file open: no close of another drops the record lock. */
  lemma OneOpenPerReplica(s: State, a: CallId, b: CallId)
    requires LockInv(s) && a in s.calls && b in s.calls && s.calls[a].FileOpen() && s.calls[b].FileOpen()
    requires s.calls[a].replica == s.calls[b].replica
    ensures a == b
  {
    assert s.calls[a].Holds() && s.calls[b].Holds();
  }

  /** At most one call of all replicas is in the critical section. */
  lemma OneLocked(s: State, a: CallId, b: CallId)
    requires LockInv(s) && a in s.calls && b in s.calls && s.calls[a].Locked() && s.calls[b].Locked()
    ensures a == b
  {
    assert s.calls[a].FileOpen() && s.calls[b].FileOpen();
    OneOpenPerReplica(s, a, b);
  }

  // ----- What a step does to locks ------------------------------------------------------------

  /** Only the one call goes on, and the directory does not come back. */
  ghost predicate OneMoves(s: State, t: State, id: CallId) {
    id in s.calls && id in t.calls && t.calls == s.calls[id := t.calls[id]]
    && t.calls[id].replica == s.calls[id].replica && t.calls[id].op == s.calls[id].op
    && (s.dir.None? ==> t.dir.None?)
  }

  /** The call takes no lock. */
  predicate TakesNone(c: Call, d: Call) {
    (d.HasRef() ==> c.HasRef() && d.lock == c.lock) && (d.Holds() ==> c.Holds())
    && (d.FileOpen() ==> c.FileOpen()) && (d.Locked() ==> c.Locked())
  }

  /** The locks stay as they are, and the call takes none. */
  ghost predicate TakesNoLock(s: State, t: State, id: CallId)
    requires id in s.calls && id in t.calls
  {
    t.lockMap == s.lockMap && t.holder == s.holder && t.owner == s.owner && TakesNone(s.calls[id], t.calls[id])
    && (t.calls[id].pc.Pop? || t.calls[id].pc.PopUnlocked? ==> t.dir.None?)
  }

  /** The places whose step deals with a lock. */
  predicate AtLock(pc: Pc) {
    pc.Lookup? || pc.Acquire? || pc.LockFile? || pc.Unlock? || pc.Close? || pc.Release? || pc.Pop? || pc.PopUnlocked?
  }

  predicate AtRemoval(pc: Pc) {
    pc.Remove? || pc.RemoveUnlocked?
  }

  /** The places whose step looks on. */
  predicate Looks(c: Call) {
    !AtLock(c.pc) && !AtRemoval(c.pc) && (!c.Writing() || c.pc.Stamp?)
  }

  /** The same call, with a place that is not past a removal. */
  predicate SameCall(c: Call, d: Call) {
    d.replica == c.replica && d.op == c.op && !d.pc.Pop? && !d.pc.PopUnlocked?
  }

  lemma LookingOnTakesNone(c: Call, dir: Option<Dir>, clock: Time, ttl: Time)
    requires Looks(c) && !c.pc.Open?
    ensures TakesNone(c, LookOn(c, dir, clock, ttl)) && SameCall(c, LookOn(c, dir, clock, ttl))
  {
  }

  lemma WritingTakesNone(c: Call, dir: Dir)
    requires c.Writing() && !c.pc.Stamp? && (c.pc.Merge? ==> AllFull(dir.docs, c.meta.pdfCount))
    ensures TakesNone(c, WriteCall(c, dir)) && SameCall(c, WriteCall(c, dir))
  {
  }

  lemma FaultTakesNone(c: Call)
    requires MayFault(c)
    ensures TakesNone(c, FaultCall(c)) && SameCall(c, FaultCall(c))
  {
  }

  lemma StepMovesOne(s: State, id: CallId)
    requires id in s.calls && CanAct(s, s.calls[id])
    ensures OneMoves(s, Step(s, id, s.calls[id]), id)
  {
    var c := s.calls[id];
    if Looks(c) && !c.pc.Open? {
      LookingOnTakesNone(c, s.dir, s.clock, s.ttl);
    } else if c.Writing() && !c.pc.Stamp? {
      WritingTakesNone(c, s.dir.value);
    } else {
      LockStepMovesOne(s, id);
    }
  }

  lemma LockStepMovesOne(s: State, id: CallId)
    requires id in s.calls && CanAct(s, s.calls[id])
    requires AtLock(s.calls[id].pc) || AtRemoval(s.calls[id].pc) || s.calls[id].pc.Open?
    ensures OneMoves(s, Step(s, id, s.calls[id]), id)
  {
  }

  lemma StepTakesNoLock(s: State, id: CallId)
    requires id in s.calls && CanAct(s, s.calls[id]) && !AtLock(s.calls[id].pc) && !s.calls[id].pc.Open?
    ensures TakesNoLock(s, Step(s, id, s.calls[id]), id)
  {
    var c := s.calls[id];
    if Looks(c) {
      LookingOnTakesNone(c, s.dir, s.clock, s.ttl);
    } else if c.Writing() {
      WritingTakesNone(c, s.dir.value);
    }
  }

  lemma TakingNoLockKeeps(s: State, t: State, id: CallId)
    requires LockInv(s) && OneMoves(s, t, id) && TakesNoLock(s, t, id)
    ensures LockInv(t)
  {
    assert RefsAgree(t);
    assert OpenersAgree(t);
  }

  // ----- The steps that deal with locks -------------------------------------------------------

  /** The call, in another place with another lock object. */
  ghost predicate GoesTo(s: State, t: State, id: CallId, pc: Pc, lock: LockId)
    requires id in s.calls
  {
    t.calls == s.calls[id := s.calls[id].(pc := pc, lock := lock)] && t.dir == s.dir
  }

  lemma LookedUpKeeps(s: State, t: State, id: CallId, lock: LockId)
    requires LockInv(s) && id in s.calls && s.calls[id].pc.Lookup? && GoesTo(s, t, id, Acquire, lock)
    requires t.holder == s.holder && t.owner == s.owner && t.lockMap == s.lockMap[s.calls[id].replica := lock]
    requires s.calls[id].replica in s.lockMap ==> lock == s.lockMap[s.calls[id].replica]
    ensures LockInv(t)
  {
    assert t.calls[id].HasRef() && !t.calls[id].Holds();
    forall other | other in t.calls && other != id ensures t.calls[other] == s.calls[other] {
    }
    assert RefsAgree(t);
  }

  lemma AcquiredKeeps(s: State, t: State, id: CallId)
    requires LockInv(s) && id in s.calls && s.calls[id].pc.Acquire? && GoesTo(s, t, id, Open, s.calls[id].lock)
    requires s.calls[id].lock !in s.holder && t.holder == s.holder[s.calls[id].lock := id]
    requires t.owner == s.owner && t.lockMap == s.lockMap
    ensures LockInv(t)
  {
    assert t.calls[id].Holds() && !t.calls[id].FileOpen();
    forall other | other in t.calls && other != id ensures t.calls[other] == s.calls[other] {
    }
    assert RefsAgree(t);
    assert HoldersHold(t);
  }

  /** A call opens the lock file only while the directory exists, and so with the lock object of its replica's map. */
  lemma OpenedKeeps(s: State, t: State, id: CallId)
    requires LockInv(s) && id in s.calls && s.calls[id].pc.Open? && s.dir.Some?
    requires GoesTo(s, t, id, LockFile, s.calls[id].lock)
    requires t.holder == s.holder && t.owner == s.owner && t.lockMap == s.lockMap
    ensures LockInv(t)
  {
    assert t.calls[id].FileOpen() && !t.calls[id].Locked() && s.calls[id].HasRef() && s.calls[id].Holds();
    forall other | other in t.calls && other != id ensures t.calls[other] == s.calls[other] {
    }
    forall a | a in s.calls && s.calls[a].FileOpen() ensures s.calls[a].HasRef() {
    }
  }

  lemma OpenKeeps(s: State, id: CallId)
    requires LockInv(s) && id in s.calls && s.calls[id].pc.Open?
    ensures LockInv(Step(s, id, s.calls[id]))
  {
    var t, c := Step(s, id, s.calls[id]), s.calls[id];
    if s.dir.None? {
      assert t.calls == s.calls[id := Leave(c, Release, Failed)];
      TakingNoLockKeeps(s, t, id);
    } else {
      OpenedKeeps(s, t, id);
    }
  }

  /** The record lock goes to the process of the call, as no other owns it. */
  lemma FileLockedKeeps(s: State, t: State, id: CallId, pc: Pc)
    requires LockInv(s) && id in s.calls && s.calls[id].pc.LockFile? && (pc.Read? || pc.Remove?)
    requires GoesTo(s, t, id, pc, s.calls[id].lock) && t.holder == s.holder && t.lockMap == s.lockMap
    requires (s.owner.Some? ==> s.owner.value == s.calls[id].replica) && t.owner == Some(s.calls[id].replica)
    ensures LockInv(t)
  {
    forall other | other in t.calls && other != id ensures t.calls[other] == s.calls[other] {
    }
    assert LockedOwn(t);
  }

  /** Unlocking, or closing the file, drops the record lock of the process, and of no call but this one. */
  lemma UnlockedKeeps(s: State, t: State, id: CallId, pc: Pc)
    requires LockInv(s) && id in s.calls && (s.calls[id].pc.Unlock? || s.calls[id].pc.Close?)
    requires (pc.Close? || pc.Release?)
    requires s.calls[id].pc.Close? ==> pc.Release?
    requires GoesTo(s, t, id, pc, s.calls[id].lock) && t.holder == s.holder && t.lockMap == s.lockMap
    requires t.owner == if s.owner == Some(s.calls[id].replica) then None else s.owner
    ensures LockInv(t)
  {
    forall other | other in s.calls && other != id && s.calls[other].Locked()
      ensures s.calls[other].replica != s.calls[id].replica
    {
      assert s.calls[other].FileOpen() && s.calls[id].FileOpen();
      if s.calls[other].replica == s.calls[id].replica {
        OneOpenPerReplica(s, other, id);
      }
    }
    assert LockedOwn(t);
  }

  lemma ReleasedKeeps(s: State, t: State, id: CallId, pc: Pc)
    requires LockInv(s) && id in s.calls && s.calls[id].pc.Release? && (pc.Report? || pc.Done?)
    requires GoesTo(s, t, id, pc, s.calls[id].lock) && t.lockMap == s.lockMap && t.owner == s.owner
    requires t.holder == s.holder - {s.calls[id].lock}
    ensures LockInv(t)
  {
    assert !t.calls[id].HasRef() && s.calls[id].Holds();
    assert HoldersHold(t);
  }

  lemma LockStepKeeps(s: State, id: CallId)
    requires LockInv(s) && id in s.calls && CanAct(s, s.calls[id])
    requires var pc := s.calls[id].pc; pc.Lookup? || pc.Acquire? || pc.LockFile?
    ensures LockInv(Step(s, id, s.calls[id]))
  {
    var t, c := Step(s, id, s.calls[id]), s.calls[id];
    if c.pc.Lookup? {
      LookedUpKeeps(s, t, id, if c.replica in s.lockMap then s.lockMap[c.replica] else s.nextLock);
    } else if c.pc.Acquire? && c.lock !in s.holder {
      AcquiredKeeps(s, t, id);
    } else if c.pc.LockFile? && !(s.owner.Some? && s.owner.value != c.replica) {
      FileLockedKeeps(s, t, id, t.calls[id].pc);
    } else {
      RefusedKeeps(s, id);
    }
  }

  /** A lock that is not free: a sweep passes the job over. */
  lemma RefusedKeeps(s: State, id: CallId)
    requires LockInv(s) && id in s.calls && CanAct(s, s.calls[id])
    requires var c := s.calls[id];
      (c.pc.Acquire? && c.lock in s.holder) || (c.pc.LockFile? && s.owner.Some? && s.owner.value != c.replica)
    ensures LockInv(Step(s, id, s.calls[id]))
  {
    var t, c := Step(s, id, s.calls[id]), s.calls[id];
    assert t.calls == s.calls[id := Leave(c, if c.pc.Acquire? then Done else Close, Skipped)];
    TakingNoLockKeeps(s, t, id);
  }

  lemma UnlockStepKeeps(s: State, id: CallId)
    requires LockInv(s) && id in s.calls
    requires var pc := s.calls[id].pc; pc.Unlock? || pc.Close? || pc.Release?
    ensures LockInv(Step(s, id, s.calls[id]))
  {
    var t, c := Step(s, id, s.calls[id]), s.calls[id];
    if c.pc.Release? {
      ReleasedKeeps(s, t, id, t.calls[id].pc);
    } else {
      UnlockedKeeps(s, t, id, t.calls[id].pc);
    }
  }

  /** The lock map is pruned when the directory is gone: nobody will open the lock file of the job any more. */
  lemma PoppedKeeps(s: State, t: State, id: CallId, d: Call)
    requires LockInv(s) && id in s.calls && (s.calls[id].pc.Pop? || s.calls[id].pc.PopUnlocked?)
    requires d == s.calls[id].(pc := d.pc, out := d.out) && d.pc == (if s.calls[id].pc.Pop? then Unlock else Done)
    requires t.calls == s.calls[id := d] && t.dir == s.dir && t.holder == s.holder && t.owner == s.owner
    ensures LockInv(t)
  {
    forall other | other in t.calls && other != id ensures t.calls[other] == s.calls[other] {
    }
  }

  lemma PopKeeps(s: State, id: CallId)
    requires LockInv(s) && id in s.calls && (s.calls[id].pc.Pop? || s.calls[id].pc.PopUnlocked?)
    ensures LockInv(Step(s, id, s.calls[id]))
  {
    var t := Step(s, id, s.calls[id]);
    PoppedKeeps(s, t, id, t.calls[id]);
  }

  // ----- Every event --------------------------------------------------------------------------

  /** What a crash of a replica leaves: its locks are gone, its calls stopped. */
  ghost predicate Crashes(s: State, t: State, replica: Replica) {
    t.dir == s.dir && t.calls.Keys == s.calls.Keys && t.lockMap == s.lockMap - {replica}
    && (forall id :: id in s.calls ==>
          t.calls[id] == if s.calls[id].replica == replica && !s.calls[id].pc.Done?
                         then Leave(s.calls[id], Done, Crashed)
                         else s.calls[id])
    && (forall l :: l in s.holder && s.holder[l] in s.calls && s.calls[s.holder[l]].replica != replica ==>
          l in t.holder && t.holder[l] == s.holder[l])
    && t.owner == if s.owner == Some(replica) then None else s.owner
  }

  lemma CrashedKeeps(s: State, t: State, replica: Replica)
    requires LockInv(s) && Crashes(s, t, replica)
    ensures LockInv(t)
  {
    forall id | id in t.calls && t.calls[id].HasRef()
      ensures t.calls[id] == s.calls[id] && s.calls[id].replica != replica
    {
    }
    forall id | id in t.calls && t.calls[id].Holds() ensures t.calls[id].HasRef() {
    }
    forall id | id in t.calls && t.calls[id].FileOpen() ensures t.calls[id].HasRef() {
    }
    forall id | id in t.calls && t.calls[id].Locked() ensures t.calls[id].HasRef() {
    }
  }

  lemma CrashKeeps(s: State, replica: Replica)
    requires LockInv(s)
    ensures LockInv(Apply(s, Crash(replica)))
  {
    CrashedKeeps(s, Apply(s, Crash(replica)), replica);
  }

  lemma SpawnKeeps(s: State, id: CallId, replica: Replica, op: Op)
    requires LockInv(s) && id !in s.calls
    ensures LockInv(Apply(s, Spawn(id, replica, op)))
  {
    var t := Apply(s, Spawn(id, replica, op));
    assert !t.calls[id].HasRef();
  }

  lemma FaultKeeps(s: State, id: CallId)
    requires LockInv(s) && id in s.calls && MayFault(s.calls[id])
    ensures LockInv(Moved(s, id, FaultCall(s.calls[id])))
  {
    FaultTakesNone(s.calls[id]);
    TakingNoLockKeeps(s, Moved(s, id, FaultCall(s.calls[id])), id);
  }

  /** Whatever happens next. */
  lemma LockInvKept(s: State, e: Event)
    requires LockInv(s) && Enabled(s, e)
    ensures LockInv(Apply(s, e))
  {
    match e {
      case Spawn(id, replica, op) => SpawnKeeps(s, id, replica, op);
      case Fault(id) => FaultKeeps(s, id);
      case Tick(_) =>
      case Crash(replica) => CrashKeeps(s, replica);
      case Act(id) => ActKeeps(s, id);
    }
  }

  lemma ActKeeps(s: State, id: CallId)
    requires LockInv(s) && id in s.calls && CanAct(s, s.calls[id])
    ensures LockInv(Step(s, id, s.calls[id]))
  {
    var pc := s.calls[id].pc;
    if pc.Open? {
      OpenKeeps(s, id);
    } else if !AtLock(pc) {
      StepMovesOne(s, id);
      StepTakesNoLock(s, id);
      TakingNoLockKeeps(s, Step(s, id, s.calls[id]), id);
    } else if pc.Lookup? || pc.Acquire? || pc.LockFile? {
      LockStepKeeps(s, id);
    } else if pc.Unlock? || pc.Close? || pc.Release? {
      UnlockStepKeeps(s, id);
    } else {
      PopKeeps(s, id);
    }
  }
}
