/** What holds in every run of a job store. */
module JobSafety {
  import opened Wrappers
  import opened JobStore
  import opened JobLocks
  import opened JobHistory
  import opened JobData

  // ----- Every event keeps the invariant ------------------------------------------------------

  /**
    What a step leaves as it is, and what it may change: the files by a write or a removal, the history by a replace.
   */
  lemma StepFrame(s: State, id: CallId)
    requires id in s.calls && CanAct(s, s.calls[id])
    ensures var t := Step(s, id, s.calls[id]);
      t.createdAt == s.createdAt && t.ttl == s.ttl && t.clock == s.clock
  {
  }

  lemma StepCommits(s: State, id: CallId)
    requires id in s.calls && CanAct(s, s.calls[id])
    ensures var c := s.calls[id];
      Step(s, id, c).log == if c.pc.Replace? then s.log + [CommitOf(id, c.op, c.now)] else s.log
  {
  }

  lemma StepWrites(s: State, id: CallId)
    requires id in s.calls && CanAct(s, s.calls[id])
    ensures var c := s.calls[id]; var after := Step(s, id, c).dir;
      if AtRemoval(c.pc) then after == None
      else if c.Writing() && !c.pc.Stamp? then s.dir.Some? && after == Some(WrittenDir(s.dir.value, c))
      else after == s.dir
  {
  }

  lemma LookCall(s: State, id: CallId)
    requires id in s.calls && CanAct(s, s.calls[id]) && Looks(s.calls[id])
    ensures Step(s, id, s.calls[id]).calls == s.calls[id := LookOn(s.calls[id], s.dir, s.clock, s.ttl)]
  {
  }

  lemma WritingCall(s: State, id: CallId)
    requires id in s.calls && CanAct(s, s.calls[id]) && s.calls[id].Writing() && !s.calls[id].pc.Stamp?
    ensures Step(s, id, s.calls[id]).calls == s.calls[id := WriteCall(s.calls[id], s.dir.value)]
  {
  }

  lemma StepCall(s: State, id: CallId)
    requires id in s.calls && CanAct(s, s.calls[id])
    ensures var c := s.calls[id]; var t := Step(s, id, c);
      id in t.calls
      && (Looks(c) ==> t.calls[id] == LookOn(c, s.dir, s.clock, s.ttl))
      && (c.Writing() && !c.pc.Stamp? ==> t.calls[id] == WriteCall(c, s.dir.value))
  {
    var c := s.calls[id];
    StepMovesOne(s, id);
    if Looks(c) {
      LookCall(s, id);
    } else if c.Writing() {
      WritingCall(s, id);
    }
  }

  /** What the call that moves knows then. */
  ghost predicate KnowsThen(s: State, t: State, id: CallId)
    requires id in t.calls
  {
    Files(t.dir, t.createdAt, t.log) && Knows(id, t.calls[id], t.dir, t.createdAt, t.log, t.ttl)
  }

  lemma WriterKept(s: State, t: State, id: CallId)
    requires id in s.calls && CallHolds(s, id) && s.dir.Some? && DirHolds(s.dir.value, s.createdAt, s.log)
    requires var c := s.calls[id];
      c.Writing() && !c.pc.Stamp? && (c.pc.Merge? ==> AllFull(s.dir.value.docs, c.meta.pdfCount))
      && id in t.calls && t.calls[id] == WriteCall(c, s.dir.value) && t.dir == Some(WrittenDir(s.dir.value, c))
      && t.createdAt == s.createdAt && t.ttl == s.ttl
      && t.log == if c.pc.Replace? then s.log + [CommitOf(id, c.op, c.now)] else s.log
    ensures KnowsThen(s, t, id)
  {
    WritesKnows(id, s.calls[id], s.dir.value, s.createdAt, s.log, s.ttl);
  }

  lemma ActorKept(s: State, id: CallId)
    requires Inv(s) && id in s.calls && CanAct(s, s.calls[id])
    ensures id in Step(s, id, s.calls[id]).calls && KnowsThen(s, Step(s, id, s.calls[id]), id)
  {
    var c, t := s.calls[id], Step(s, id, s.calls[id]);
    StepFrame(s, id);
    StepCommits(s, id);
    StepWrites(s, id);
    StepCall(s, id);
    assert CallHolds(s, id) && PopsAfterRemove(s);
    if c.Writing() && !c.pc.Stamp? {
      WriterKept(s, t, id);
    } else if Looks(c) {
      LooksKnows(id, c, s.dir, s.createdAt, s.log, s.clock, s.ttl);
    } else if AtRemoval(c.pc) || c.pc.Pop? || c.pc.PopUnlocked? {
      RemoveKnows(id, c, t.calls[id], s.dir, s.createdAt, s.log, s.ttl);
    } else {
      LockMovesCall(s, id);
      LocksKnows(id, c, t.calls[id], s.dir, s.createdAt, s.log, s.ttl);
    }
  }

  lemma OthersKept(s: State, id: CallId, other: CallId)
    requires Inv(s) && id in s.calls && CanAct(s, s.calls[id]) && other in s.calls && other != id
    ensures var t := Step(s, id, s.calls[id]); Knows(other, s.calls[other], t.dir, s.createdAt, t.log, s.ttl)
  {
    var t, c := Step(s, id, s.calls[id]), s.calls[id];
    StepCommits(s, id);
    StepWrites(s, id);
    assert CallHolds(s, other) && CallHolds(s, id);
    if c.Writing() && !c.pc.Stamp? {
      if s.calls[other].Locked() {
        OneLocked(s, id, other);
      }
      KnowsOutside(other, s.calls[other], s.dir, t.dir, s.createdAt, s.log, s.ttl);
      if c.pc.Replace? {
        ReplayCounts(s.createdAt, s.log);
        KnowsCommit(other, s.calls[other], t.dir, s.createdAt, s.log, s.ttl, CommitOf(id, c.op, c.now));
      }
    } else {
      KnowsQuietly(other, s.calls[other], s.dir, t.dir, s.createdAt, s.log, s.ttl);
    }
  }

  lemma SignedKept(s: State, id: CallId)
    requires Inv(s) && id in s.calls && CanAct(s, s.calls[id])
    ensures Signed(Step(s, id, s.calls[id]))
  {
    StepMovesOne(s, id);
    StepCommits(s, id);
  }

  /** The clock of a call does not go ahead. */
  lemma StepClock(s: State, id: CallId)
    requires id in s.calls && CanAct(s, s.calls[id]) && s.calls[id].now <= s.clock
    ensures var t := Step(s, id, s.calls[id]); id in t.calls && t.calls[id].now <= s.clock
  {
    var c := s.calls[id];
    StepCall(s, id);
    if Looks(c) {
      assert LookOn(c, s.dir, s.clock, s.ttl).now <= s.clock;
    } else if !(c.Writing() || AtRemoval(c.pc) || c.pc.Pop? || c.pc.PopUnlocked?) {
      LockMovesCall(s, id);
    }
  }

  lemma ActKept(s: State, id: CallId)
    requires Inv(s) && id in s.calls && CanAct(s, s.calls[id])
    ensures Inv(Step(s, id, s.calls[id]))
  {
    var t, c := Step(s, id, s.calls[id]), s.calls[id];
    ActKeeps(s, id);
    StepMovesOne(s, id);
    StepFrame(s, id);
    StepCommits(s, id);
    SignedKept(s, id);
    assert CallHolds(s, id);
    StepClock(s, id);
    ActorKept(s, id);
    if c.pc.Replace? {
      ReplacedHistory(id, c, s.dir.value, s.createdAt, s.log, s.clock, s.ttl);
    }
    forall other | other in t.calls ensures CallHolds(t, other) {
      if other != id {
        assert CallHolds(s, other);
        OthersKept(s, id, other);
      }
    }
  }

  lemma FaultKept(s: State, id: CallId)
    requires Inv(s) && id in s.calls && MayFault(s.calls[id])
    ensures Inv(Moved(s, id, FaultCall(s.calls[id])))
  {
    var t := Moved(s, id, FaultCall(s.calls[id]));
    FaultKeeps(s, id);
    FaultTakesNone(s.calls[id]);
    assert CallHolds(s, id);
    FaultKnows(id, s.calls[id], s.dir, s.createdAt, s.log, s.ttl);
    forall other | other in t.calls && other != id ensures CallHolds(t, other) {
      assert CallHolds(s, other);
    }
  }

  lemma {:induction false} CommittersAreCalls(log: seq<Commit>, calls: map<CallId, Call>)
    requires forall i :: 0 <= i < |log| ==> log[i].call in calls
    ensures forall id :: id in CommitCalls(log) ==> id in calls
  {
    if log != [] {
      var front := log[..|log| - 1];
      assert forall i :: 0 <= i < |front| ==> front[i] == log[i];
      assert log[|log| - 1].call in calls;
      CommittersAreCalls(front, calls);
    }
  }

  /** A call that comes in knows nothing yet. */
  lemma NewKnows(id: CallId, replica: Replica, op: Op, dir: Option<Dir>, createdAt: Time, log: seq<Commit>, ttl: Time)
    requires id !in CommitCalls(log)
    ensures var blank := NewRecord(createdAt);
      Knows(id, Call(replica, op, Start, false, 0, blank, blank, createdAt, [], Pending), dir, createdAt, log, ttl)
  {
  }

  lemma SpawnKept(s: State, id: CallId, replica: Replica, op: Op)
    requires Inv(s) && id !in s.calls
    ensures Inv(Apply(s, Spawn(id, replica, op)))
  {
    var t := Apply(s, Spawn(id, replica, op));
    SpawnKeeps(s, id, replica, op);
    CommittersAreCalls(s.log, s.calls);
    CreatedFirst(s.log, s.createdAt, s.clock);
    NewKnows(id, replica, op, s.dir, s.createdAt, s.log, s.ttl);
    forall other | other in t.calls && other != id ensures CallHolds(t, other) {
      assert CallHolds(s, other);
    }
  }

  /** A call that is stopped answers nothing. */
  lemma StoppedKnows(id: CallId, c: Call, dir: Option<Dir>, createdAt: Time, log: seq<Commit>, ttl: Time)
    requires Knows(id, c, dir, createdAt, log, ttl)
    ensures Knows(id, Leave(c, Done, Crashed), dir, createdAt, log, ttl)
  {
  }

  lemma CrashKept(s: State, replica: Replica)
    requires Inv(s)
    ensures Inv(Apply(s, Crash(replica)))
  {
    var t := Apply(s, Crash(replica));
    CrashKeeps(s, replica);
    forall id | id in t.calls ensures CallHolds(t, id) && t.calls[id].op == s.calls[id].op {
      assert CallHolds(s, id);
      StoppedKnows(id, s.calls[id], s.dir, s.createdAt, s.log, s.ttl);
    }
  }

  lemma TickKept(s: State, elapsed: nat)
    requires Inv(s)
    ensures Inv(Apply(s, Tick(elapsed)))
  {
    var t := Apply(s, Tick(elapsed));
    GoodLater(s.log, s.createdAt, s.clock, t.clock);
    LockInvKept(s, Tick(elapsed));
    forall id | id in t.calls ensures CallHolds(t, id) {
      assert CallHolds(s, id);
    }
  }

  lemma InvKept(s: State, e: Event)
    requires Inv(s) && Enabled(s, e)
    ensures Inv(Apply(s, e))
  {
    match e {
      case Spawn(id, replica, op) => SpawnKept(s, id, replica, op);
      case Act(id) => ActKept(s, id);
      case Fault(id) => FaultKept(s, id);
      case Crash(replica) => CrashKept(s, replica);
      case Tick(elapsed) => TickKept(s, elapsed);
    }
  }

  lemma {:induction false} RunKeepsInv(s: State, events: seq<Event>)
    requires Inv(s) && RunEnabled(s, events)
    ensures Inv(Run(s, events))
    decreases |events|
  {
    if events != [] {
      InvKept(s, events[0]);
      RunKeepsInv(Apply(s, events[0]), events[1..]);
    }
  }

  lemma ReachableInv(s: State)
    requires Reachable(s)
    ensures Inv(s)
  {
    var createdAt, ttl, events :|
      RunEnabled(Created(createdAt, ttl), events) && s == Run(Created(createdAt, ttl), events);
    RunKeepsInv(Created(createdAt, ttl), events);
  }

  lemma {:induction false} RunOn(s: State, first: seq<Event>, events: seq<Event>)
    requires RunEnabled(s, first) && RunEnabled(Run(s, first), events)
    ensures RunEnabled(s, first + events) && Run(s, first + events) == Run(Run(s, first), events)
    decreases |first|
  {
    if first == [] {
      assert first + events == events;
    } else {
      assert (first + events)[0] == first[0] && (first + events)[1..] == first[1..] + events;
      RunOn(Apply(s, first[0]), first[1..], events);
    }
  }

  lemma ReachableOn(s: State, events: seq<Event>)
    requires Reachable(s) && RunEnabled(s, events)
    ensures Reachable(Run(s, events))
  {
    var createdAt, ttl, first :| RunEnabled(Created(createdAt, ttl), first) && s == Run(Created(createdAt, ttl), first);
    RunOn(Created(createdAt, ttl), first, events);
  }
}
