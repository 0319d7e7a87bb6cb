/** The calls of a job come to an end: its locks cannot leave them all waiting for each other. */
module JobProgress {
  import opened Wrappers
  import opened JobStore
  import opened JobLocks
  import opened JobData
  import opened JobSafety

  // ----- No lock is lost ----------------------------------------------------------------------

  /** A lock object is held by a call that will release it. */
  ghost predicate HoldersExist(s: State) {
    forall l :: l in s.holder ==>
      s.holder[l] in s.calls && s.calls[s.holder[l]].Holds() && s.calls[s.holder[l]].lock == l
  }

  /** The record lock is owned for a call that will unlock it. */
  ghost predicate OwnerExists(s: State) {
    s.owner.Some? ==> exists id :: id in s.calls && s.calls[id].Locked() && s.calls[id].replica == s.owner.value
  }

  ghost predicate NoneLost(s: State) {
    HoldersExist(s) && OwnerExists(s)
  }

  /** The call keeps what it has. */
  predicate HoldsOn(c: Call, d: Call) {
    (c.Holds() ==> d.Holds() && d.lock == c.lock) && (c.Locked() ==> d.Locked()) && d.replica == c.replica
  }

  lemma KeepingLosesNone(s: State, t: State, id: CallId)
    requires NoneLost(s) && id in s.calls && id in t.calls && t.calls == s.calls[id := t.calls[id]]
    requires t.holder == s.holder && t.owner == s.owner && HoldsOn(s.calls[id], t.calls[id])
    ensures NoneLost(t)
  {
    if t.owner.Some? {
      var it :| it in s.calls && s.calls[it].Locked() && s.calls[it].replica == s.owner.value;
      assert it in t.calls && t.calls[it].Locked();
    }
  }

  lemma LooksHoldsOn(c: Call, dir: Option<Dir>, clock: Time, ttl: Time)
    requires Looks(c)
    ensures HoldsOn(c, LookOn(c, dir, clock, ttl))
  {
  }

  lemma WritesHoldsOn(c: Call, dir: Dir)
    requires c.Writing() && !c.pc.Stamp? && (c.pc.Merge? ==> AllFull(dir.docs, c.meta.pdfCount))
    ensures HoldsOn(c, WriteCall(c, dir))
  {
  }

  lemma FaultHoldsOn(c: Call)
    requires MayFault(c)
    ensures HoldsOn(c, FaultCall(c))
  {
  }

  lemma AcquireLosesNone(s: State, t: State, id: CallId)
    requires NoneLost(s) && id in s.calls && s.calls[id].pc.Acquire? && s.calls[id].lock !in s.holder
    requires t.holder == s.holder[s.calls[id].lock := id] && t.calls == s.calls[id := Goto(s.calls[id], Open)]
    requires t.owner == s.owner
    ensures NoneLost(t)
  {
    assert t.calls[id].Holds() && !s.calls[id].Holds();
    forall l | l in t.holder && l != s.calls[id].lock ensures t.calls[t.holder[l]] == s.calls[s.holder[l]] {
    }
    if t.owner.Some? {
      var it :| it in s.calls && s.calls[it].Locked() && s.calls[it].replica == s.owner.value;
      assert it in t.calls && t.calls[it].Locked();
    }
  }

  lemma FileLockLosesNone(s: State, t: State, id: CallId, pc: Pc)
    requires NoneLost(s) && id in s.calls && s.calls[id].pc.LockFile? && (pc.Read? || pc.Remove?)
    requires t.holder == s.holder && t.calls == s.calls[id := Goto(s.calls[id], pc)]
    requires t.owner == Some(s.calls[id].replica)
    ensures NoneLost(t)
  {
    assert t.calls[id].Locked() && t.calls[id].Holds();
  }

  /** An unlock, or a close, drops the record lock where the call owned it, and no other. */
  lemma UnlockLosesNone(s: State, t: State, id: CallId, pc: Pc)
    requires NoneLost(s) && LockInv(s) && id in s.calls && (s.calls[id].pc.Unlock? || s.calls[id].pc.Close?)
    requires (pc.Close? || pc.Release?) && t.calls == s.calls[id := Goto(s.calls[id], pc)] && t.holder == s.holder
    requires t.owner == if s.owner == Some(s.calls[id].replica) then None else s.owner
    ensures NoneLost(t)
  {
    assert t.calls[id].Holds() && s.calls[id].Holds();
    assert HoldersExist(t);
    if t.owner.Some? {
      var it :| it in s.calls && s.calls[it].Locked() && s.calls[it].replica == s.owner.value;
      assert it in t.calls && t.calls[it].Locked();
    }
  }

  lemma ReleaseLosesNone(s: State, t: State, id: CallId, pc: Pc)
    requires NoneLost(s) && LockInv(s) && id in s.calls && s.calls[id].pc.Release?
    requires t.calls == s.calls[id := Goto(s.calls[id], pc)] && t.holder == s.holder - {s.calls[id].lock}
    requires t.owner == s.owner
    ensures NoneLost(t)
  {
    assert HoldersExist(t);
    if t.owner.Some? {
      var it :| it in s.calls && s.calls[it].Locked() && s.calls[it].replica == s.owner.value;
      assert it in t.calls && t.calls[it].Locked();
    }
  }

  lemma LookLosesNone(s: State, id: CallId)
    requires NoneLost(s) && id in s.calls && CanAct(s, s.calls[id]) && (Looks(s.calls[id]) || s.calls[id].Writing())
    ensures NoneLost(Step(s, id, s.calls[id]))
  {
    var c, t := s.calls[id], Step(s, id, s.calls[id]);
    if Looks(c) {
      LooksHoldsOn(c, s.dir, s.clock, s.ttl);
    } else {
      WritesHoldsOn(c, s.dir.value);
    }
    KeepingLosesNone(s, t, id);
  }

  lemma ActLosesNone(s: State, id: CallId)
    requires NoneLost(s) && LockInv(s) && id in s.calls && CanAct(s, s.calls[id])
    ensures NoneLost(Step(s, id, s.calls[id]))
  {
    var pc := s.calls[id].pc;
    if pc.Lookup? || pc.Acquire? || pc.LockFile? {
      EnterStepLosesNone(s, id);
    } else if pc.Unlock? || pc.Close? || pc.Release? {
      ExitStepLosesNone(s, id);
    } else if pc.Remove? || pc.RemoveUnlocked? || pc.Pop? || pc.PopUnlocked? {
      RemovalLosesNone(s, id);
    } else {
      LookLosesNone(s, id);
    }
  }

  lemma EnterStepLosesNone(s: State, id: CallId)
    requires NoneLost(s) && id in s.calls && CanAct(s, s.calls[id])
    requires var pc := s.calls[id].pc; pc.Lookup? || pc.Acquire? || pc.LockFile?
    ensures NoneLost(Step(s, id, s.calls[id]))
  {
    var c, t := s.calls[id], Step(s, id, s.calls[id]);
    if c.pc.Acquire? && c.lock !in s.holder {
      AcquireLosesNone(s, t, id);
    } else if c.pc.LockFile? && !(s.owner.Some? && s.owner.value != c.replica) {
      FileLockLosesNone(s, t, id, t.calls[id].pc);
    } else {
      KeepingLosesNone(s, t, id);
    }
  }

  lemma ExitStepLosesNone(s: State, id: CallId)
    requires NoneLost(s) && LockInv(s) && id in s.calls && CanAct(s, s.calls[id])
    requires var pc := s.calls[id].pc; pc.Unlock? || pc.Close? || pc.Release?
    ensures NoneLost(Step(s, id, s.calls[id]))
  {
    var c, t := s.calls[id], Step(s, id, s.calls[id]);
    if c.pc.Release? {
      ReleaseLosesNone(s, t, id, t.calls[id].pc);
    } else {
      UnlockLosesNone(s, t, id, t.calls[id].pc);
    }
  }

  lemma RemovalLosesNone(s: State, id: CallId)
    requires NoneLost(s) && id in s.calls
    requires var pc := s.calls[id].pc; pc.Remove? || pc.RemoveUnlocked? || pc.Pop? || pc.PopUnlocked?
    ensures NoneLost(Step(s, id, s.calls[id]))
  {
    KeepingLosesNone(s, Step(s, id, s.calls[id]), id);
  }

  lemma CrashLosesNone(s: State, replica: Replica)
    requires NoneLost(s)
    ensures NoneLost(Apply(s, Crash(replica)))
  {
    var t := Apply(s, Crash(replica));
    if t.owner.Some? {
      var it :| it in s.calls && s.calls[it].Locked() && s.calls[it].replica == s.owner.value;
      assert it in t.calls && t.calls[it] == s.calls[it];
    }
  }

  lemma FaultLosesNone(s: State, id: CallId)
    requires NoneLost(s) && id in s.calls && MayFault(s.calls[id])
    ensures NoneLost(Moved(s, id, FaultCall(s.calls[id])))
  {
    FaultHoldsOn(s.calls[id]);
    KeepingLosesNone(s, Moved(s, id, FaultCall(s.calls[id])), id);
  }

  lemma SpawnLosesNone(s: State, id: CallId, replica: Replica, op: Op)
    requires NoneLost(s) && id !in s.calls
    ensures NoneLost(Apply(s, Spawn(id, replica, op)))
  {
    var t := Apply(s, Spawn(id, replica, op));
    if t.owner.Some? {
      var it :| it in s.calls && s.calls[it].Locked() && s.calls[it].replica == s.owner.value;
      assert it in t.calls && t.calls[it].Locked();
    }
  }

  lemma NoneLostKept(s: State, e: Event)
    requires NoneLost(s) && Inv(s) && Enabled(s, e)
    ensures NoneLost(Apply(s, e))
  {
    match e {
      case Spawn(id, replica, op) => SpawnLosesNone(s, id, replica, op);
      case Tick(_) =>
      case Crash(replica) => CrashLosesNone(s, replica);
      case Fault(id) => FaultLosesNone(s, id);
      case Act(id) => ActLosesNone(s, id);
    }
  }

  lemma {:induction false} RunLosesNone(s: State, events: seq<Event>)
    requires NoneLost(s) && Inv(s) && RunEnabled(s, events)
    ensures NoneLost(Run(s, events))
    decreases |events|
  {
    if events != [] {
      InvKept(s, events[0]);
      NoneLostKept(s, events[0]);
      RunLosesNone(Apply(s, events[0]), events[1..]);
    }
  }

  lemma ReachableLosesNone(s: State)
    requires Reachable(s)
    ensures NoneLost(s)
  {
    var createdAt, ttl, events :|
      RunEnabled(Created(createdAt, ttl), events) && s == Run(Created(createdAt, ttl), events);
    RunLosesNone(Created(createdAt, ttl), events);
  }

  // ----- Some call can go on ------------------------------------------------------------------

  /** Whether a call can go on: by its own step, or by failing, as its files are gone. */
  predicate Moves(s: State, id: CallId) {
    id in s.calls && (Enabled(s, Act(id)) || (s.dir.None? && Enabled(s, Fault(id))))
  }

  /** It waits for no lock. */
  predicate Unblocked(s: State, id: CallId) {
    id in s.calls && !s.calls[id].pc.Done? && (s.calls[id].pc.Acquire? ==> s.calls[id].lock !in s.holder)
    && (s.calls[id].pc.LockFile? ==> s.owner.None? || s.owner.value == s.calls[id].replica)
  }

  /** Who holds a lock object waits for no other, and who is in the critical section for nothing. */
  lemma SomeUnblocked(s: State, id: CallId) returns (other: CallId)
    requires NoneLost(s) && id in s.calls && !s.calls[id].pc.Done?
    ensures Unblocked(s, other)
  {
    other := id;
    if s.calls[id].pc.Acquire? && s.calls[id].lock in s.holder {
      other := s.holder[s.calls[id].lock];
    }
    if s.calls[other].pc.LockFile? && s.owner.Some? {
      other :| other in s.calls && s.calls[other].Locked() && s.calls[other].replica == s.owner.value;
    }
  }

  /** A call that waits for no lock can go on: what a merge or a replace needs is there, as long as the job is. */
  lemma InsideMoves(s: State, id: CallId)
    requires Unblocked(s, id) && CallHolds(s, id) && Files(s.dir, s.createdAt, s.log)
    ensures Moves(s, id)
  {
    var c := s.calls[id];
    if c.pc.Merge? && s.dir.Some? {
      JobHistory.ReplayCounts(s.createdAt, s.log);
      assert AllFull(s.dir.value.docs, c.meta.pdfCount);
    }
  }

  /**
    While a call is under way, one can go on: itself, or the one that holds the lock object it waits for, or the one for
    which another process owns the record lock, even where some process was stopped or the job deleted at any point.
   */
  lemma NoDeadlock(s: State, id: CallId)
    requires Reachable(s) && id in s.calls && !s.calls[id].pc.Done?
    ensures exists other :: Moves(s, other)
  {
    ReachableInv(s);
    ReachableLosesNone(s);
    var other := SomeUnblocked(s, id);
    assert CallHolds(s, other);
    InsideMoves(s, other);
  }

  // ----- And they come to an end --------------------------------------------------------------

  /** How many steps a call has before it, at most. */
  function StepsLeft(pc: Pc): nat {
    match pc
    case Start => 28
    case List => 27
    case Decide => 26
    case Exists => 26
    case Lookup => 25
    case Acquire => 24
    case Open => 23
    case LockFile => 22
    case Read => 21
    case WriteDoc => 20
    case FinishDoc => 19
    case Merge => 20
    case WriteResult => 19
    case FinishResult => 18
    case Stamp => 17
    case WriteTmp => 16
    case FinishTmp => 15
    case Replace => 14
    case Measure => 13
    case Judge => 20
    case Remove => 19
    case Pop => 18
    case Unlock => 5
    case Close => 4
    case Release => 3
    case Report => 2
    case Serve => 1
    case RemoveUnlocked => 2
    case PopUnlocked => 1
    case Done => 0
  }

  lemma LooksUsesStep(c: Call, dir: Option<Dir>, clock: Time, ttl: Time)
    requires Looks(c) && !c.pc.Done?
    ensures StepsLeft(LookOn(c, dir, clock, ttl).pc) < StepsLeft(c.pc)
  {
  }

  lemma WritesUsesStep(c: Call, dir: Dir)
    requires c.Writing() && !c.pc.Stamp? && (c.pc.Merge? ==> AllFull(dir.docs, c.meta.pdfCount))
    ensures StepsLeft(WriteCall(c, dir).pc) < StepsLeft(c.pc)
  {
  }

  lemma ActUsesStep(s: State, id: CallId)
    requires id in s.calls && CanAct(s, s.calls[id])
    ensures id in Step(s, id, s.calls[id]).calls
    ensures StepsLeft(Step(s, id, s.calls[id]).calls[id].pc) < StepsLeft(s.calls[id].pc)
  {
    var c := s.calls[id];
    StepCall(s, id);
    if Looks(c) {
      LooksUsesStep(c, s.dir, s.clock, s.ttl);
    } else if c.Writing() && !c.pc.Stamp? {
      WritesUsesStep(c, s.dir.value);
    } else if AtRemoval(c.pc) {
      RemovalUsesStep(s, id);
    } else if c.pc.Pop? || c.pc.PopUnlocked? {
      PopUsesStep(s, id);
    } else {
      LockMovesCall(s, id);
      LockMoveUsesStep(c, Step(s, id, c).calls[id]);
    }
  }

  lemma RemovalUsesStep(s: State, id: CallId)
    requires id in s.calls && CanAct(s, s.calls[id])
    requires AtRemoval(s.calls[id].pc)
    ensures id in Step(s, id, s.calls[id]).calls
    ensures StepsLeft(Step(s, id, s.calls[id]).calls[id].pc) < StepsLeft(s.calls[id].pc)
  {
  }

  lemma PopUsesStep(s: State, id: CallId)
    requires id in s.calls && CanAct(s, s.calls[id])
    requires s.calls[id].pc.Pop? || s.calls[id].pc.PopUnlocked?
    ensures id in Step(s, id, s.calls[id]).calls
    ensures StepsLeft(Step(s, id, s.calls[id]).calls[id].pc) < StepsLeft(s.calls[id].pc)
  {
  }

  lemma LockMoveUsesStep(c: Call, d: Call)
    requires LockMove(c, d)
    ensures StepsLeft(d.pc) < StepsLeft(c.pc)
  {
  }

  /** The steps that all of some calls have before them. */
  function AllStepsLeft(calls: map<CallId, Call>, ids: seq<CallId>): nat
    requires forall id :: id in ids ==> id in calls
  {
    if ids == [] then 0 else StepsLeft(calls[ids[0]].pc) + AllStepsLeft(calls, ids[1..])
  }

  lemma {:induction false} FewerStepsLeft(before: map<CallId, Call>, after: map<CallId, Call>, ids: seq<CallId>)
    requires forall id :: id in ids ==>
      id in before && id in after && StepsLeft(after[id].pc) <= StepsLeft(before[id].pc)
    ensures AllStepsLeft(after, ids) <= AllStepsLeft(before, ids)
    ensures (exists id :: id in ids && StepsLeft(after[id].pc) < StepsLeft(before[id].pc)) ==>
      AllStepsLeft(after, ids) < AllStepsLeft(before, ids)
  {
    if ids != [] {
      assert ids == [ids[0]] + ids[1..];
      FewerStepsLeft(before, after, ids[1..]);
    }
  }

  /** How often some call goes on, by a step or by failing. */
  function Moving(events: seq<Event>): nat {
    if events == [] then 0 else (if events[0].Act? || events[0].Fault? then 1 else 0) + Moving(events[1..])
  }

  predicate SpawnsNone(events: seq<Event>) {
    forall i :: 0 <= i < |events| ==> !events[i].Spawn?
  }

  lemma CallUsesSteps(s: State, t: State, id: CallId, ids: seq<CallId>)
    requires id in s.calls && id in t.calls && t.calls == s.calls[id := t.calls[id]]
      && forall x :: x in ids <==> x in s.calls
    requires StepsLeft(t.calls[id].pc) < StepsLeft(s.calls[id].pc)
    ensures (forall x :: x in ids <==> x in t.calls) && AllStepsLeft(t.calls, ids) < AllStepsLeft(s.calls, ids)
  {
    assert id in ids;
    FewerStepsLeft(s.calls, t.calls, ids);
  }

  lemma FaultUsesStep(c: Call)
    requires MayFault(c)
    ensures StepsLeft(FaultCall(c).pc) < StepsLeft(c.pc)
  {
  }

  lemma OthersUseNone(s: State, e: Event)
    requires Enabled(s, e) && (e.Tick? || e.Crash?)
    ensures forall id :: id in Apply(s, e).calls <==> id in s.calls
    ensures forall id :: id in s.calls ==> StepsLeft(Apply(s, e).calls[id].pc) <= StepsLeft(s.calls[id].pc)
  {
  }

  lemma EventUsesSteps(s: State, e: Event, ids: seq<CallId>)
    requires Enabled(s, e) && !e.Spawn? && forall id :: id in ids <==> id in s.calls
    ensures var t := Apply(s, e);
      (forall id :: id in ids <==> id in t.calls)
      && AllStepsLeft(t.calls, ids) + (if e.Act? || e.Fault? then 1 else 0) <= AllStepsLeft(s.calls, ids)
  {
    var t := Apply(s, e);
    if e.Act? {
      StepMovesOne(s, e.id);
      ActUsesStep(s, e.id);
      CallUsesSteps(s, t, e.id, ids);
    } else if e.Fault? {
      FaultUsesStep(s.calls[e.id]);
      CallUsesSteps(s, t, e.id, ids);
    } else {
      OthersUseNone(s, e);
      FewerStepsLeft(s.calls, t.calls, ids);
    }
  }

  /** Whatever happens, the calls there are can go on only so often. */
  lemma {:induction false} RunUsesSteps(s: State, events: seq<Event>, ids: seq<CallId>)
    requires RunEnabled(s, events) && SpawnsNone(events) && forall id :: id in ids <==> id in s.calls
    ensures var t := Run(s, events);
      (forall id :: id in ids <==> id in t.calls)
      && AllStepsLeft(t.calls, ids) + Moving(events) <= AllStepsLeft(s.calls, ids)
    decreases |events|
  {
    if events != [] {
      EventUsesSteps(s, events[0], ids);
      assert SpawnsNone(events[1..]) by {
        forall i | 0 <= i < |events[1..]| ensures !events[1..][i].Spawn? {
          assert events[1..][i] == events[i + 1];
        }
      }
      RunUsesSteps(Apply(s, events[0]), events[1..], ids);
    }
  }

  /**
    From any reachable state: however the calls there are go on, with whatever faults, crashes and time in between, they
    do so a bounded number of times, and when none of them can any more, all of them are done.
   */
  lemma CallsEnd(s: State, events: seq<Event>, ids: seq<CallId>)
    requires Reachable(s) && RunEnabled(s, events) && SpawnsNone(events) && forall id :: id in ids <==> id in s.calls
    ensures Moving(events) <= AllStepsLeft(s.calls, ids)
    ensures var t := Run(s, events);
      (forall id :: !Moves(t, id)) ==> forall id :: id in t.calls ==> t.calls[id].pc.Done?
  {
    RunUsesSteps(s, events, ids);
    var t := Run(s, events);
    ReachableOn(s, events);
    forall id | id in t.calls && !t.calls[id].pc.Done? ensures exists other :: Moves(t, other) {
      NoDeadlock(t, id);
    }
  }
}
