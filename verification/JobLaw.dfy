/** What callers of a job store can rely on, in every run. */
module JobLaw {
  import opened Wrappers
  import opened JobStore
  import opened JobLocks
  import opened JobHistory
  import opened JobData
  import opened JobSafety

  // ----- In every reachable state -------------------------------------------------------------

  /**
    Locks that belong to processes and locks of threads together let one call of all into the critical section, and one
    thread of each replica have the lock file open, though deletes prune the lock map without any lock.
   */
  lemma MutualExclusion(s: State, a: CallId, b: CallId)
    requires Reachable(s) && a in s.calls && b in s.calls
    ensures s.calls[a].Locked() && s.calls[b].Locked() ==> a == b
    ensures s.calls[a].FileOpen() && s.calls[b].FileOpen() && s.calls[a].replica == s.calls[b].replica ==> a == b
  {
    ReachableInv(s);
    if s.calls[a].Locked() && s.calls[b].Locked() {
      OneLocked(s, a, b);
    }
    if s.calls[a].FileOpen() && s.calls[b].FileOpen() && s.calls[a].replica == s.calls[b].replica {
      OneOpenPerReplica(s, a, b);
    }
  }

  /**
    Whatever was interrupted where: the metadata is a whole record, which counts what was committed; below its count
    each file is the whole document that was added there; and a completed job has a whole result, of all of them in
    order.
   */
  lemma CrashConsistent(s: State)
    requires Reachable(s) && s.dir.Some?
    ensures s.dir.value.meta.Full?
    ensures var m, dir := s.dir.value.meta.content, s.dir.value;
      m.pdfCount == |AddCalls(s.log)| && m.failedCount == |FailCalls(s.log)|
      && AllFull(dir.docs, m.pdfCount) && Contents(dir.docs, m.pdfCount) == Docs(s.log)
      && (m.status.Completed? ==> dir.result == Some(Full(Contents(dir.docs, m.pdfCount))) && m.completedAt.Some?)
  {
    ReachableInv(s);
    ReplayCounts(s.createdAt, s.log);
    var m, dir := s.dir.value.meta.content, s.dir.value;
    assert AllFull(dir.docs, m.pdfCount);
    assert Contents(dir.docs, m.pdfCount) == Docs(s.log);
  }

  /** At each index is what the call that added it posted. */
  lemma {:induction false} DocsAreSigned(log: seq<Commit>, calls: map<CallId, Call>)
    requires forall i :: 0 <= i < |log| ==>
      log[i].call in calls && log[i] == CommitOf(log[i].call, calls[log[i].call].op, log[i].time)
    ensures |Docs(log)| == |AddCalls(log)|
    ensures forall i :: 0 <= i < |Docs(log)| ==>
      AddCalls(log)[i] in calls && calls[AddCalls(log)[i]].op == AddDocument(Docs(log)[i])
  {
    if log != [] {
      var front := log[..|log| - 1];
      assert forall i :: 0 <= i < |front| ==> front[i] == log[i];
      DocsAreSigned(front, calls);
      assert log[|log| - 1] == CommitOf(log[|log| - 1].call, calls[log[|log| - 1].call].op, log[|log| - 1].time);
    }
  }

  /**
    A call that was told its document is at an index was told right, and no two calls are told the same: each index is
    of one call, which posted what is there.
   */
  lemma AddsHaveTheirIndex(s: State, a: CallId)
    requires Reachable(s) && a in s.calls && s.calls[a].out.Added?
    ensures var i := s.calls[a].out.index;
      i < |Docs(s.log)| && s.calls[a].op == AddDocument(Docs(s.log)[i])
      && forall b :: b in s.calls && b != a ==> s.calls[b].out != Added(i)
  {
    ReachableInv(s);
    DocsAreSigned(s.log, s.calls);
    assert CallHolds(s, a);
    var i := s.calls[a].out.index;
    forall b | b in s.calls && b != a ensures s.calls[b].out != Added(i) {
      assert CallHolds(s, b);
    }
  }

  /** Every index below the count is of one add, which was told it unless it was stopped first. */
  lemma EveryIndexIsOfOneAdd(s: State)
    requires Reachable(s)
    ensures NoDup(AddCalls(s.log)) && |AddCalls(s.log)| == |Docs(s.log)|
    ensures forall i :: 0 <= i < |Docs(s.log)| ==>
      AddCalls(s.log)[i] in s.calls && s.calls[AddCalls(s.log)[i]].op == AddDocument(Docs(s.log)[i])
      && (s.calls[AddCalls(s.log)[i]].out == Added(i) || s.calls[AddCalls(s.log)[i]].out.Crashed?)
  {
    ReachableInv(s);
    DocsAreSigned(s.log, s.calls);
    CallsCommitOnce(s.log, s.createdAt, s.clock);
    forall i | 0 <= i < |Docs(s.log)|
      ensures s.calls[AddCalls(s.log)[i]].out == Added(i) || s.calls[AddCalls(s.log)[i]].out.Crashed?
    {
      AnswerOfAdd(s, i);
    }
  }

  lemma AnswerOfAdd(s: State, i: nat)
    requires Inv(s) && i < |AddCalls(s.log)| && AddCalls(s.log)[i] in s.calls
    requires s.calls[AddCalls(s.log)[i]].op.AddDocument?
    ensures s.calls[AddCalls(s.log)[i]].out == Added(i) || s.calls[AddCalls(s.log)[i]].out.Crashed?
  {
    var id := AddCalls(s.log)[i];
    AddCallsCommit(s.log);
    CallsCommitOnce(s.log, s.createdAt, s.clock);
    assert CallHolds(s, id) && id in AddCalls(s.log);
  }

  /**
    A call that was not stopped has added, or recorded, if and only if the record counts it, once, and as what it was.
   */
  lemma OutcomesAreTrue(s: State, id: CallId)
    requires Reachable(s) && id in s.calls && !s.calls[id].out.Crashed?
    ensures s.calls[id].out.Added? <==> id in AddCalls(s.log)
    ensures s.calls[id].out.Recorded? <==> id in FailCalls(s.log)
  {
    ReachableInv(s);
    AddCallsCommit(s.log);
    CallsCommitOnce(s.log, s.createdAt, s.clock);
    assert CallHolds(s, id);
    CallsFitOps(s.log, s.calls);
  }

  lemma {:induction false} CallsFitOps(log: seq<Commit>, calls: map<CallId, Call>)
    requires forall i :: 0 <= i < |log| ==>
      log[i].call in calls && log[i] == CommitOf(log[i].call, calls[log[i].call].op, log[i].time)
    ensures forall id :: id in AddCalls(log) ==> id in calls && calls[id].op.AddDocument?
    ensures forall id :: id in FailCalls(log) ==> id in calls && calls[id].op.RecordFailure?
  {
    if log != [] {
      var front, last := log[..|log| - 1], log[|log| - 1];
      assert forall i :: 0 <= i < |front| ==> front[i] == log[i];
      CallsFitOps(front, calls);
      assert last == CommitOf(last.call, calls[last.call].op, last.time);
    }
  }

  /** The two counts hold each call at most once, and none in both. */
  lemma CountsAreExact(s: State)
    requires Reachable(s) && s.dir.Some?
    ensures s.dir.value.meta.Full?
    ensures NoDup(AddCalls(s.log)) && s.dir.value.meta.content.pdfCount == |AddCalls(s.log)|
    ensures NoDup(FailCalls(s.log)) && s.dir.value.meta.content.failedCount == |FailCalls(s.log)|
    ensures forall id :: id in AddCalls(s.log) ==> id !in FailCalls(s.log)
  {
    ReachableInv(s);
    ReplayCounts(s.createdAt, s.log);
    CallsCommitOnce(s.log, s.createdAt, s.clock);
  }

  /**
    What a finish serves, from the path it returned and without the lock, is the whole merge of all documents in
    order, or nothing once the job is gone; the count beside it, which it reads in between, is that of the documents,
    or 0 where nothing is served. So all finishes that serve a result serve the same.
   */
  lemma FinishesAgree(s: State, a: CallId, b: CallId)
    requires Reachable(s) && a in s.calls && b in s.calls && s.calls[a].out.Finished? && s.calls[b].out.Finished?
    ensures s.calls[a].out.answer.Some? ==>
      s.calls[a].out.answer == Some(Full(Docs(s.log))) && s.calls[a].out.count == |Docs(s.log)| > 0
    ensures s.calls[a].out.answer.None? ==> s.dir.None? && s.calls[a].out.count in {0, |Docs(s.log)|}
    ensures s.calls[a].out.answer.Some? && s.calls[b].out.answer.Some? ==>
      s.calls[a].out.answer == s.calls[b].out.answer
    ensures forall c :: c in s.calls && s.calls[c].out.Added? ==> s.calls[c].out.index < |Docs(s.log)|
  {
    ReachableInv(s);
    assert CallHolds(s, a) && CallHolds(s, b);
    FinishedHasDocs(s.log, s.createdAt, s.clock);
    ReplayCounts(s.createdAt, s.log);
    forall c | c in s.calls && s.calls[c].out.Added? ensures s.calls[c].out.index < |Docs(s.log)| {
      assert CallHolds(s, c);
    }
  }

  // ----- Along every run ----------------------------------------------------------------------

  /** The commit of a call that replaces the metadata. */
  ghost predicate Commits(s: State, t: State, c: Commit) {
    t.log == s.log + [c] && c.time <= s.clock && (c.FailCommit? || !Closed(s.log))
    && s.dir.Some? && s.dir.value.meta == Full(Replay(s.createdAt, s.log))
    && t.dir.Some? && t.dir.value.meta == Full(Replay(s.createdAt, t.log))
  }

  /** Nothing is committed, and the metadata stays. */
  ghost predicate KeepsRecord(s: State, t: State) {
    t.log == s.log && (t.dir.Some? ==> s.dir.Some? && t.dir.value.meta == s.dir.value.meta)
  }

  lemma ReplaceCommits(s: State, id: CallId)
    requires Inv(s) && id in s.calls && CanAct(s, s.calls[id]) && s.calls[id].pc.Replace?
    ensures Commits(s, Step(s, id, s.calls[id]), CommitOf(id, s.calls[id].op, s.calls[id].now))
  {
    StepCommits(s, id);
    StepWrites(s, id);
    ActorKept(s, id);
    StepFrame(s, id);
    assert CallHolds(s, id);
    ReplayCounts(s.createdAt, s.log);
  }

  lemma OtherStepsKeepRecord(s: State, id: CallId)
    requires id in s.calls && CanAct(s, s.calls[id]) && !s.calls[id].pc.Replace?
    ensures KeepsRecord(s, Step(s, id, s.calls[id]))
  {
    StepCommits(s, id);
    StepWrites(s, id);
  }

  /**
    One event commits at most one record, of the call that acts, and it takes the place of the record before it; any
    other leaves the record as it is.
   */
  lemma EventRefines(s: State, e: Event)
    requires Reachable(s) && Enabled(s, e)
    ensures KeepsRecord(s, Apply(s, e)) || (exists c :: Commits(s, Apply(s, e), c) && e == Act(c.call))
  {
    ReachableInv(s);
    if e.Act? {
      if s.calls[e.id].pc.Replace? {
        ReplaceCommits(s, e.id);
        assert e == Act(CommitOf(e.id, s.calls[e.id].op, s.calls[e.id].now).call);
      } else {
        OtherStepsKeepRecord(s, e.id);
      }
    }
  }

  /** What a run leaves: the history is only longer, no call is forgotten, and a deleted job stays away. */
  lemma {:induction false} RunGrows(s: State, events: seq<Event>)
    requires Inv(s) && RunEnabled(s, events)
    ensures var t := Run(s, events);
      Inv(t) && s.log <= t.log && s.calls.Keys <= t.calls.Keys && (s.dir.None? ==> t.dir.None?)
      && t.createdAt == s.createdAt
    decreases |events|
  {
    if events != [] {
      var t := Apply(s, events[0]);
      InvKept(s, events[0]);
      EventGrows(s, events[0]);
      RunGrows(t, events[1..]);
    }
  }

  lemma EventGrows(s: State, e: Event)
    requires Inv(s) && Enabled(s, e)
    ensures var t := Apply(s, e);
      s.log <= t.log && s.calls.Keys <= t.calls.Keys && (s.dir.None? ==> t.dir.None?) && t.createdAt == s.createdAt
  {
    if e.Act? {
      StepCommits(s, e.id);
      StepFrame(s, e.id);
      StepMovesOne(s, e.id);
    }
  }

  /** A document below the count is never rewritten, as long as the job exists. */
  lemma DocumentsStay(s: State, events: seq<Event>, i: nat)
    requires Reachable(s) && RunEnabled(s, events) && Run(s, events).dir.Some?
    ensures s.dir.Some? && s.dir.value.meta.Full?
    ensures i < s.dir.value.meta.content.pdfCount ==>
      i in s.dir.value.docs && s.dir.value.docs[i].Full?
      && i in Run(s, events).dir.value.docs && Run(s, events).dir.value.docs[i] == s.dir.value.docs[i]
  {
    ReachableInv(s);
    RunGrows(s, events);
    var t := Run(s, events);
    assert t.log[..|s.log|] == s.log;
    DocsGrow(t.log, |s.log|);
    ReplayCounts(s.createdAt, s.log);
  }

  /** A completed job stays as it is: its count, the time it was completed, and its result. */
  lemma CompletedIsFrozen(s: State, events: seq<Event>)
    requires Reachable(s) && RunEnabled(s, events) && Run(s, events).dir.Some?
    ensures s.dir.Some? && s.dir.value.meta.Full? && Run(s, events).dir.value.meta.Full?
    ensures var m, n := s.dir.value.meta.content, Run(s, events).dir.value.meta.content;
      m.status.Completed? ==>
        n.status.Completed? && n.pdfCount == m.pdfCount && n.completedAt == m.completedAt && m.completedAt.Some?
        && Run(s, events).dir.value.result == s.dir.value.result && s.dir.value.result.Some?
  {
    ReachableInv(s);
    RunGrows(s, events);
    var t := Run(s, events);
    assert t.log[..|s.log|] == s.log;
    ReplayCounts(s.createdAt, s.log);
    if Closed(s.log) {
      ClosedIsFrozen(s.createdAt, t.log, |s.log|, t.clock);
    }
  }

  /** Adds take effect in real time order: one that starts after another was told its index gets a later one. */
  lemma AddsInRealTimeOrder(s: State, events: seq<Event>, a: CallId, b: CallId)
    requires Reachable(s) && RunEnabled(s, events) && a in s.calls && s.calls[a].out.Added? && b !in s.calls
    requires b in Run(s, events).calls && Run(s, events).calls[b].out.Added?
    ensures s.calls[a].out.index < Run(s, events).calls[b].out.index
  {
    ReachableInv(s);
    AddCallsOnlyGrow(s, events);
    NotYetAdded(s, b);
    assert CallHolds(s, a) && CallHolds(Run(s, events), b);
  }

  lemma AddCallsOnlyGrow(s: State, events: seq<Event>)
    requires Inv(s) && RunEnabled(s, events)
    ensures Inv(Run(s, events)) && AddCalls(s.log) <= AddCalls(Run(s, events).log)
  {
    RunGrows(s, events);
    var t := Run(s, events);
    assert t.log[..|s.log|] == s.log;
    DocsGrow(t.log, |s.log|);
  }

  lemma NotYetAdded(s: State, b: CallId)
    requires Inv(s) && b !in s.calls
    ensures b !in AddCalls(s.log)
  {
    AddCallsCommit(s.log);
    CommittersAreCalls(s.log, s.calls);
  }

  lemma DocsStayOnceClosed(s: State, events: seq<Event>)
    requires Inv(s) && RunEnabled(s, events) && Closed(s.log)
    ensures var t := Run(s, events); Docs(t.log) == Docs(s.log) && AddCalls(t.log) == AddCalls(s.log)
  {
    RunGrows(s, events);
    var t := Run(s, events);
    assert t.log[..|s.log|] == s.log;
    DocsGrow(t.log, |s.log|);
    ClosedIsFrozen(s.createdAt, t.log, |s.log|, t.clock);
    ReplayCounts(s.createdAt, t.log);
    ReplayCounts(s.createdAt, s.log);
  }

  /** Nothing is added by a call that starts after a finish has answered. */
  lemma NothingAddedAfterFinish(s: State, events: seq<Event>, a: CallId, b: CallId)
    requires Reachable(s) && RunEnabled(s, events) && a in s.calls && s.calls[a].out.Finished? && b !in s.calls
    requires b in Run(s, events).calls
    ensures !Run(s, events).calls[b].out.Added?
  {
    ReachableInv(s);
    assert CallHolds(s, a);
    DocsStayOnceClosed(s, events);
    AddCallsOnlyGrow(s, events);
    NotYetAdded(s, b);
    assert CallHolds(Run(s, events), b);
  }

  /** And whenever another finish serves a result, it is the same. */
  lemma LaterFinishAgrees(s: State, events: seq<Event>, a: CallId, b: CallId)
    requires Reachable(s) && RunEnabled(s, events) && a in s.calls && s.calls[a].out.Finished?
    requires b in Run(s, events).calls && Run(s, events).calls[b].out.Finished?
    ensures var first, later := s.calls[a].out.answer, Run(s, events).calls[b].out.answer;
      first.Some? && later.Some? ==> later == first
  {
    ReachableInv(s);
    assert CallHolds(s, a);
    DocsStayOnceClosed(s, events);
    RunGrows(s, events);
    assert CallHolds(Run(s, events), b);
  }

  // ----- The cleanup --------------------------------------------------------------------------

  /** A job goes by a delete, which takes no lock, or by a sweep in the critical section, and by nothing else. */
  lemma RemovedBy(s: State, e: Event)
    requires Reachable(s) && Enabled(s, e) && s.dir.Some? && Apply(s, e).dir.None?
    ensures e.Act? && (s.calls[e.id].pc.RemoveUnlocked? || s.calls[e.id].pc.Remove?)
    ensures s.calls[e.id].pc.RemoveUnlocked? <==> s.calls[e.id].op.Delete?
    ensures s.calls[e.id].pc.Remove? <==> s.calls[e.id].op.Sweep?
  {
    ReachableInv(s);
    if e.Act? {
      assert CallHolds(s, e.id);
      OnlyRemovesRemove(s, e.id);
    }
  }

  lemma OnlyRemovesRemove(s: State, id: CallId)
    requires id in s.calls && CanAct(s, s.calls[id]) && s.dir.Some? && Step(s, id, s.calls[id]).dir.None?
    ensures s.calls[id].pc.RemoveUnlocked? || s.calls[id].pc.Remove?
  {
    StepWrites(s, id);
  }

  /**
    The record a sweep goes by may be old, and that of a completed job is not read again: still the job is completed,
    since the same time, longer ago than the time to live.
   */
  lemma SweptCompleted(s: State, id: CallId)
    requires Reachable(s) && id in s.calls && s.calls[id].pc.Remove? && s.calls[id].snap.status.Completed?
    requires s.dir.Some?
    ensures s.dir.value.meta.Full?
    ensures var m, c := s.dir.value.meta.content, s.calls[id];
      m.status.Completed? && m.completedAt.Some? && m.completedAt == c.snap.completedAt
      && c.now - m.completedAt.value > s.ttl && c.now <= s.clock
  {
    ReachableInv(s);
    assert CallHolds(s, id);
    var c := s.calls[id];
    var k :| 0 <= k <= |s.log| && c.snap == Replay(s.createdAt, s.log[..k]);
    ReplayCounts(s.createdAt, s.log[..k]);
    ClosedIsFrozen(s.createdAt, s.log, k, s.clock);
  }

  /** A job that a sweep removes as stuck is active, and had no document and no failure for twice the time before it. */
  lemma SweptActive(s: State, id: CallId)
    requires Reachable(s) && id in s.calls && s.calls[id].pc.Remove? && s.calls[id].snap.status.Active? && s.dir.Some?
    ensures s.dir.value.meta.Full? && s.dir.value.meta.content.status.Active? && !Closed(s.log)
    ensures forall i :: 0 <= i < |s.log| ==> s.calls[id].now - s.log[i].time > 2 * s.ttl
    ensures s.calls[id].now - s.createdAt > 2 * s.ttl && s.calls[id].now <= s.clock
  {
    ReachableInv(s);
    assert CallHolds(s, id);
    ReplayCounts(s.createdAt, s.log);
    OpenHasNoFinish(s.log);
    ReplayTimes(s.createdAt, s.log, s.clock);
  }
}
