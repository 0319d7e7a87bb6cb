/** A call that nothing disturbs does what the operation on the job does in one go. */
module JobAlone {
  import opened Wrappers
  import opened JobStore
  import opened JobLocks
  import opened JobHistory
  import opened JobData
  import opened JobSafety
  import opened JobProgress

  /** All other calls are done. */
  ghost predicate Alone(s: State, id: CallId) {
    id in s.calls && forall other :: other in s.calls && other != id ==> s.calls[other].pc.Done?
  }

  /** The operations a handler calls for a document, a failed conversion, or a finish. */
  predicate Operates(op: Op) {
    op.AddDocument? || op.RecordFailure? || op.Finish?
  }

  /** What the handler will answer, from the outcome the call has. */
  function Heading(c: Call, log: seq<Commit>): Answer {
    if c.pc.Done? then Hears(c)
    else match c.out
      case Added(_) => Accepted
      case Recorded => ConversionFailed
      case Merged => Download(Some(Full(Docs(log))), |Docs(log)|, |FailCalls(log)|)
      case Counted(n, failed) => Download(Some(Full(Docs(log))), n, failed)
      case NotActive => Conflict
      case NoDocuments => BadRequest
      case _ => Nothing
  }

  /** Where a call is that came to a job with a history at some time, and has not been disturbed. */
  ghost predicate OnItsWay(id: CallId, c: Call, dir: Option<Dir>, log: seq<Commit>, found: bool, was: seq<Commit>,
                           now: Time) {
    if Leaving(c.pc) || c.pc.Measure? then
      log == was + CommitsOf(id, c.op, now, found, was) && Heading(c, log) == AnswerTo(c.op, found, was)
      && (c.pc.Done? || dir.Some?) && (c.op.RecordFailure? && !c.pc.Done? ==> c.admitted)
      && (c.out.Counted? ==> c.pc.Serve?)
    else
      log == was && found == dir.Some? && (c.pc.Start? || found) && (c.pc.Start? || c.admitted)
      && (Stamping(c) && !c.pc.Stamp? ==> c.now == now)
  }

  lemma FinishStarts(id: CallId, c: Call, dir: Option<Dir>, createdAt: Time, log: seq<Commit>, clock: Time, found: bool,
                     was: seq<Commit>)
    requires c.op.Finish? && c.pc.Start? && Files(dir, createdAt, log) && OnItsWay(id, c, dir, log, found, was, clock)
    ensures OnItsWay(id, StartCall(c, dir, clock), dir, log, found, was, clock)
  {
    ReplayCounts(createdAt, log);
    if dir.Some? && Closed(log) {
      assert dir.value.meta.content.status.Completed?;
    }
  }

  lemma StartsOnItsWay(id: CallId, c: Call, dir: Option<Dir>, createdAt: Time, log: seq<Commit>, clock: Time,
                       found: bool, was: seq<Commit>)
    requires Operates(c.op) && c.pc.Start? && Files(dir, createdAt, log) && OnItsWay(id, c, dir, log, found, was, clock)
    requires c.op.RecordFailure? ==> !c.admitted
    requires GoodHistory(log, createdAt, clock)
    ensures OnItsWay(id, StartCall(c, dir, clock), dir, log, found, was, clock)
  {
    if c.op.Finish? {
      if Closed(log) {
        FinishedHasDocs(log, createdAt, clock);
      }
      FinishStarts(id, c, dir, createdAt, log, clock, found, was);
    }
  }

  lemma FinishReads(id: CallId, c: Call, dir: Option<Dir>, createdAt: Time, log: seq<Commit>, clock: Time, found: bool,
                    was: seq<Commit>)
    requires c.op.Finish? && c.pc.Read? && Files(dir, createdAt, log) && OnItsWay(id, c, dir, log, found, was, clock)
    requires Closed(log) ==> Docs(log) != []
    ensures OnItsWay(id, ReadCall(c, dir), dir, log, found, was, clock)
  {
    ReplayCounts(createdAt, log);
  }

  lemma AddReads(id: CallId, c: Call, dir: Option<Dir>, createdAt: Time, log: seq<Commit>, clock: Time, found: bool,
                 was: seq<Commit>)
    requires (c.op.AddDocument? || c.op.RecordFailure?) && c.pc.Read? && Files(dir, createdAt, log)
    requires OnItsWay(id, c, dir, log, found, was, clock)
    ensures OnItsWay(id, ReadCall(c, dir), dir, log, found, was, clock)
  {
    ReplayCounts(createdAt, log);
  }

  lemma ReadsOnItsWay(id: CallId, c: Call, dir: Option<Dir>, createdAt: Time, log: seq<Commit>, clock: Time,
                      found: bool, was: seq<Commit>)
    requires Operates(c.op) && c.pc.Read? && Files(dir, createdAt, log) && OnItsWay(id, c, dir, log, found, was, clock)
    requires GoodHistory(log, createdAt, clock)
    ensures OnItsWay(id, ReadCall(c, dir), dir, log, found, was, clock)
  {
    if c.op.Finish? {
      if Closed(log) {
        FinishedHasDocs(log, createdAt, clock);
      }
      FinishReads(id, c, dir, createdAt, log, clock, found, was);
    } else {
      AddReads(id, c, dir, createdAt, log, clock, found, was);
    }
  }

  lemma ReportsOnItsWay(id: CallId, c: Call, dir: Option<Dir>, createdAt: Time, log: seq<Commit>, clock: Time,
                        ttl: Time, found: bool, was: seq<Commit>)
    requires c.op.Finish? && (c.pc.Report? || c.pc.Serve?) && Typed(c) && Files(dir, createdAt, log)
    requires Answered(id, c, dir.None?, log) && OnItsWay(id, c, dir, log, found, was, clock)
    ensures OnItsWay(id, LookOn(c, dir, clock, ttl), dir, log, found, was, clock)
  {
    ReplayCounts(createdAt, log);
  }

  lemma GoesOnItsWay(id: CallId, c: Call, dir: Option<Dir>, log: seq<Commit>, clock: Time, ttl: Time, found: bool,
                     was: seq<Commit>)
    requires Operates(c.op) && (c.pc.Exists? || c.pc.Open? || c.pc.Stamp? || c.pc.Measure?) && Typed(c)
    requires OnItsWay(id, c, dir, log, found, was, clock)
    ensures OnItsWay(id, LookOn(c, dir, clock, ttl), dir, log, found, was, clock)
  {
  }

  lemma LooksOnItsWay(id: CallId, c: Call, dir: Option<Dir>, createdAt: Time, log: seq<Commit>, clock: Time, ttl: Time,
                      found: bool, was: seq<Commit>)
    requires Operates(c.op) && Looks(c) && !c.pc.Done? && Knows(id, c, dir, createdAt, log, ttl)
    requires Files(dir, createdAt, log)
    requires OnItsWay(id, c, dir, log, found, was, clock) && GoodHistory(log, createdAt, clock)
    ensures OnItsWay(id, LookOn(c, dir, clock, ttl), dir, log, found, was, clock)
  {
    if c.pc.Start? {
      StartsOnItsWay(id, c, dir, createdAt, log, clock, found, was);
    } else if c.pc.Read? {
      ReadsOnItsWay(id, c, dir, createdAt, log, clock, found, was);
    } else if c.pc.Report? || c.pc.Serve? {
      ReportsOnItsWay(id, c, dir, createdAt, log, clock, ttl, found, was);
    } else {
      GoesOnItsWay(id, c, dir, log, clock, ttl, found, was);
    }
  }

  lemma LocksOnItsWay(id: CallId, c: Call, d: Call, dir: Option<Dir>, log: seq<Commit>, clock: Time, found: bool,
                      was: seq<Commit>)
    requires Operates(c.op) && LockMove(c, d) && Typed(c) && OnItsWay(id, c, dir, log, found, was, clock)
    ensures OnItsWay(id, d, dir, log, found, was, clock)
  {
  }

  lemma WritesOnItsWay(id: CallId, c: Call, dir: Dir, createdAt: Time, log: seq<Commit>, clock: Time, ttl: Time,
                       found: bool, was: seq<Commit>)
    requires Operates(c.op) && c.Writing() && !c.pc.Stamp? && (c.pc.Merge? ==> AllFull(dir.docs, c.meta.pdfCount))
    requires Knows(id, c, Some(dir), createdAt, log, ttl) && OnItsWay(id, c, Some(dir), log, found, was, clock)
    ensures var after := if c.pc.Replace? then log + [CommitOf(id, c.op, c.now)] else log;
      OnItsWay(id, WriteCall(c, dir), Some(WrittenDir(dir, c)), after, found, was, clock)
  {
    if c.pc.Replace? {
      ReplacesOnItsWay(id, c, dir, createdAt, log, clock, ttl, found, was);
    } else if c.pc.WriteDoc? || c.pc.FinishDoc? {
      WritesDocOnItsWay(id, c, dir, createdAt, log, clock, ttl, found, was);
    } else if c.pc.WriteTmp? {
      WritesTmpOnItsWay(id, c, dir, createdAt, log, clock, ttl, found, was);
    } else if c.pc.FinishTmp? {
      FinishesTmpOnItsWay(id, c, dir, createdAt, log, clock, ttl, found, was);
    } else {
      WritesResultOnItsWay(id, c, dir, createdAt, log, clock, ttl, found, was);
    }
  }

  lemma WritesDocOnItsWay(id: CallId, c: Call, dir: Dir, createdAt: Time, log: seq<Commit>, clock: Time, ttl: Time,
                          found: bool, was: seq<Commit>)
    requires Operates(c.op) && (c.pc.WriteDoc? || c.pc.FinishDoc?)
    requires Knows(id, c, Some(dir), createdAt, log, ttl) && OnItsWay(id, c, Some(dir), log, found, was, clock)
    ensures OnItsWay(id, WriteCall(c, dir), Some(WrittenDir(dir, c)), log, found, was, clock)
  {
  }

  lemma WritesTmpOnItsWay(id: CallId, c: Call, dir: Dir, createdAt: Time, log: seq<Commit>, clock: Time, ttl: Time,
                          found: bool, was: seq<Commit>)
    requires Operates(c.op) && c.pc.WriteTmp?
    requires Knows(id, c, Some(dir), createdAt, log, ttl) && OnItsWay(id, c, Some(dir), log, found, was, clock)
    ensures OnItsWay(id, WriteCall(c, dir), Some(WrittenDir(dir, c)), log, found, was, clock)
  {
  }

  lemma FinishesTmpOnItsWay(id: CallId, c: Call, dir: Dir, createdAt: Time, log: seq<Commit>, clock: Time, ttl: Time,
                             found: bool, was: seq<Commit>)
    requires Operates(c.op) && c.pc.FinishTmp?
    requires Knows(id, c, Some(dir), createdAt, log, ttl) && OnItsWay(id, c, Some(dir), log, found, was, clock)
    ensures OnItsWay(id, WriteCall(c, dir), Some(WrittenDir(dir, c)), log, found, was, clock)
  {
  }

  lemma WritesResultOnItsWay(id: CallId, c: Call, dir: Dir, createdAt: Time, log: seq<Commit>, clock: Time, ttl: Time,
                             found: bool, was: seq<Commit>)
    requires Operates(c.op) && (c.pc.Merge? || c.pc.WriteResult? || c.pc.FinishResult?)
    requires c.pc.Merge? ==> AllFull(dir.docs, c.meta.pdfCount)
    requires Knows(id, c, Some(dir), createdAt, log, ttl) && OnItsWay(id, c, Some(dir), log, found, was, clock)
    ensures OnItsWay(id, WriteCall(c, dir), Some(WrittenDir(dir, c)), log, found, was, clock)
  {
  }

  lemma ReplacesOnItsWay(id: CallId, c: Call, dir: Dir, createdAt: Time, log: seq<Commit>, clock: Time, ttl: Time,
                         found: bool, was: seq<Commit>)
    requires Operates(c.op) && c.pc.Replace?
    requires Knows(id, c, Some(dir), createdAt, log, ttl) && OnItsWay(id, c, Some(dir), log, found, was, clock)
    ensures OnItsWay(id, WriteCall(c, dir), Some(WrittenDir(dir, c)), log + [CommitOf(id, c.op, c.now)],
                     found, was, clock)
  {
    if c.op.Finish? {
      ReplacesFinished(id, c, dir, createdAt, log, clock, ttl, found, was);
    } else {
      ReplacesCounted(id, c, dir, createdAt, log, clock, ttl, found, was);
    }
  }

  lemma ReplacesFinished(id: CallId, c: Call, dir: Dir, createdAt: Time, log: seq<Commit>, clock: Time, ttl: Time,
                         found: bool, was: seq<Commit>)
    requires c.op.Finish? && c.pc.Replace?
    requires Knows(id, c, Some(dir), createdAt, log, ttl) && OnItsWay(id, c, Some(dir), log, found, was, clock)
    ensures OnItsWay(id, WriteCall(c, dir), Some(WrittenDir(dir, c)), log + [CommitOf(id, c.op, c.now)],
                     found, was, clock)
  {
    ReplayCounts(createdAt, log);
    Extended(log, CommitOf(id, c.op, c.now));
    assert Docs(log + [CommitOf(id, c.op, c.now)]) == Docs(log);
    assert FailCalls(log + [CommitOf(id, c.op, c.now)]) == FailCalls(log);
  }

  lemma ReplacesCounted(id: CallId, c: Call, dir: Dir, createdAt: Time, log: seq<Commit>, clock: Time, ttl: Time,
                        found: bool, was: seq<Commit>)
    requires (c.op.AddDocument? || c.op.RecordFailure?) && c.pc.Replace?
    requires Knows(id, c, Some(dir), createdAt, log, ttl) && OnItsWay(id, c, Some(dir), log, found, was, clock)
    ensures OnItsWay(id, WriteCall(c, dir), Some(WrittenDir(dir, c)), log + [CommitOf(id, c.op, c.now)],
                     found, was, clock)
  {
    ReplayCounts(createdAt, log);
  }

  /** The state of a step that leaves the others as they are. */
  lemma StaysAlone(s: State, id: CallId)
    requires Alone(s, id) && CanAct(s, s.calls[id])
    ensures var t := Step(s, id, s.calls[id]); Alone(t, id) && t.calls[id].op == s.calls[id].op && t.clock == s.clock
  {
    StepMovesOne(s, id);
    StepFrame(s, id);
  }

  lemma StepOnItsWay(s: State, id: CallId, found: bool, was: seq<Commit>)
    requires Inv(s) && id in s.calls && CanAct(s, s.calls[id]) && Operates(s.calls[id].op)
    requires OnItsWay(id, s.calls[id], s.dir, s.log, found, was, s.clock)
    ensures var t := Step(s, id, s.calls[id]);
      id in t.calls && OnItsWay(id, t.calls[id], t.dir, t.log, found, was, s.clock)
  {
    var c := s.calls[id];
    assert CallHolds(s, id);
    if Looks(c) {
      LooksOnItsWay(id, c, s.dir, s.createdAt, s.log, s.clock, s.ttl, found, was);
      LookStepIs(s, id);
    } else if c.Writing() {
      WritesOnItsWay(id, c, s.dir.value, s.createdAt, s.log, s.clock, s.ttl, found, was);
      WriteStepIs(s, id);
    } else {
      LockMovesCall(s, id);
      LockStepIs(s, id);
      LocksOnItsWay(id, c, Step(s, id, c).calls[id], s.dir, s.log, s.clock, found, was);
    }
  }

  lemma LookStepIs(s: State, id: CallId)
    requires id in s.calls && CanAct(s, s.calls[id]) && Looks(s.calls[id])
    ensures var c := s.calls[id]; var t := Step(s, id, c);
      t.calls == s.calls[id := LookOn(c, s.dir, s.clock, s.ttl)] && t.dir == s.dir && t.log == s.log
  {
  }

  lemma WriteStepIs(s: State, id: CallId)
    requires id in s.calls && CanAct(s, s.calls[id]) && s.calls[id].Writing() && !s.calls[id].pc.Stamp?
    ensures var c := s.calls[id]; var t := Step(s, id, c);
      t.calls == s.calls[id := WriteCall(c, s.dir.value)] && t.dir == Some(WrittenDir(s.dir.value, c))
      && t.log == if c.pc.Replace? then s.log + [CommitOf(id, c.op, c.now)] else s.log
  {
  }

  lemma LockStepIs(s: State, id: CallId)
    requires id in s.calls && CanAct(s, s.calls[id]) && AtLock(s.calls[id].pc)
    requires var pc := s.calls[id].pc; !pc.Pop? && !pc.PopUnlocked?
    ensures var t := Step(s, id, s.calls[id]); id in t.calls && t.dir == s.dir && t.log == s.log
  {
  }

  /** Alone, a call that is not done can take its next step. */
  lemma AloneActs(s: State, id: CallId, found: bool, was: seq<Commit>)
    requires Inv(s) && NoneLost(s) && Alone(s, id) && !s.calls[id].pc.Done?
    requires OnItsWay(id, s.calls[id], s.dir, s.log, found, was, s.clock)
    ensures CanAct(s, s.calls[id])
  {
    var c := s.calls[id];
    var other := SomeUnblocked(s, id);
    assert other == id;
    assert CallHolds(s, id);
    InsideMoves(s, id);
  }

  ghost predicate Going(s: State, id: CallId, op: Op, found: bool, was: seq<Commit>, now: Time) {
    Inv(s) && NoneLost(s) && Alone(s, id) && s.calls[id].op == op && s.clock == now && s.dir.Some? == found
    && OnItsWay(id, s.calls[id], s.dir, s.log, found, was, now)
  }

  lemma GoesOn(s: State, id: CallId, op: Op, found: bool, was: seq<Commit>, now: Time)
    requires Going(s, id, op, found, was, now) && !s.calls[id].pc.Done? && Operates(op)
    ensures Enabled(s, Act(id)) && Going(Apply(s, Act(id)), id, op, found, was, now)
    ensures StepsLeft(Apply(s, Act(id)).calls[id].pc) < StepsLeft(s.calls[id].pc)
  {
    AloneActs(s, id, found, was);
    StepOnItsWay(s, id, found, was);
    StaysAlone(s, id);
    ActUsesStep(s, id);
    InvKept(s, Act(id));
    NoneLostKept(s, Act(id));
    assert CallHolds(s, id);
    StepWrites(s, id);
  }

  lemma RunFrom(s: State, e: Event, rest: seq<Event>)
    requires Enabled(s, e) && RunEnabled(Apply(s, e), rest)
    ensures RunEnabled(s, [e] + rest) && Run(s, [e] + rest) == Run(Apply(s, e), rest)
  {
    assert ([e] + rest)[1..] == rest;
  }

  /** The steps a call takes alone until it is done. */
  lemma {:induction false} AloneEnds(s: State, id: CallId, op: Op, found: bool, was: seq<Commit>, now: Time)
    returns (events: seq<Event>)
    requires Going(s, id, op, found, was, now) && Operates(op)
    ensures RunEnabled(s, events) && forall e :: e in events ==> e == Act(id)
    ensures var t := Run(s, events); Going(t, id, op, found, was, now) && t.calls[id].pc.Done?
    decreases StepsLeft(s.calls[id].pc)
  {
    if s.calls[id].pc.Done? {
      events := [];
    } else {
      GoesOn(s, id, op, found, was, now);
      var rest := AloneEnds(Apply(s, Act(id)), id, op, found, was, now);
      RunFrom(s, Act(id), rest);
      events := [Act(id)] + rest;
    }
  }

  // ----- A sweep, and a delete ----------------------------------------------------------------

  /**
    The record of a job that goes: completed longer ago than the time to live, or active, and the last activity longer
    ago than twice that.
   */
  predicate TimedOut(m: Meta, now: Time, ttl: Time) {
    (m.status.Completed? && m.completedAt.Some? && now - m.completedAt.value > ttl)
    || (m.status.Active? && now - (if m.updatedAt.Some? then m.updatedAt.value else m.createdAt) > 2 * ttl)
  }

  /** Where a sweep is that came to a job with a directory, or without one, at some time and was not disturbed. */
  ghost predicate SweepsOn(c: Call, dir: Option<Dir>, was: Option<Dir>, now: Time, ttl: Time) {
    if c.pc.Start? then dir == was
    else if Leaving(c.pc) || c.pc.Pop? then
      dir == if was.Some? && was.value.meta.Full? && TimedOut(was.value.meta.content, now, ttl) then None else was
    else
      dir == was && c.now == now
      && (!c.pc.List? ==>
        was.Some? && was.value.meta == Full(c.snap)
        && (c.pc.Judge? ==> c.meta == c.snap) && (!c.pc.Decide? ==> TimedOut(c.snap, now, ttl)))
      && (c.pc.List? || c.pc.Decide? || c.pc.Lookup? || c.pc.Acquire? || c.pc.Open? || c.pc.LockFile? || c.pc.Read?
          || c.pc.Judge? || c.pc.Remove?)
      && (c.pc.Read? || c.pc.Judge? ==> c.snap.status.Active?)
  }

  ghost predicate Sweeping(s: State, id: CallId, was: Option<Dir>, log: seq<Commit>, now: Time, ttl: Time) {
    Inv(s) && NoneLost(s) && Alone(s, id) && s.calls[id].op.Sweep? && s.clock == now && s.ttl == ttl && s.log == log
    && SweepsOn(s.calls[id], s.dir, was, now, ttl) && (was.Some? ==> Pruned(s, id))
  }

  /** Once the call has removed the directory and is past that, its replica has no lock object for the job any more. */
  predicate Pruned(s: State, id: CallId)
    requires id in s.calls
  {
    s.dir.None? && !s.calls[id].pc.Pop? ==> s.calls[id].replica !in s.lockMap
  }

  lemma StaysPruned(s: State, id: CallId)
    requires id in s.calls && CanAct(s, s.calls[id]) && Pruned(s, id) && !AtRemoval(s.calls[id].pc)
    requires s.calls[id].pc.Lookup? ==> s.dir.Some?
    ensures var t := Step(s, id, s.calls[id]); id in t.calls && Pruned(t, id)
  {
    StepMovesOne(s, id);
    StepWrites(s, id);
    if !s.calls[id].pc.Lookup? {
      OnlyLookupAdds(s, id);
    }
  }

  lemma OnlyLookupAdds(s: State, id: CallId)
    requires id in s.calls && CanAct(s, s.calls[id]) && !s.calls[id].pc.Lookup?
    ensures var t := Step(s, id, s.calls[id]);
      t.lockMap == if s.calls[id].pc.Pop? || s.calls[id].pc.PopUnlocked? then s.lockMap - {s.calls[id].replica}
                   else s.lockMap
  {
  }

  lemma SweepLooksOn(c: Call, dir: Option<Dir>, was: Option<Dir>, clock: Time, ttl: Time, createdAt: Time,
                     log: seq<Commit>)
    requires c.op.Sweep? && Looks(c) && !c.pc.Done? && Typed(c) && Files(dir, createdAt, log)
    requires SweepsOn(c, dir, was, clock, ttl)
    ensures SweepsOn(LookOn(c, dir, clock, ttl), dir, was, clock, ttl)
  {
  }

  lemma SweepLocksOn(c: Call, d: Call, dir: Option<Dir>, was: Option<Dir>, now: Time, ttl: Time)
    requires c.op.Sweep? && LockMove(c, d) && SweepsOn(c, dir, was, now, ttl)
    requires !(c.pc.Acquire? && d.pc.Done?) && !(c.pc.LockFile? && d.pc.Close?)
    ensures SweepsOn(d, dir, was, now, ttl)
  {
  }

  lemma UnblockedEnters(s: State, id: CallId)
    requires Unblocked(s, id) && CanAct(s, s.calls[id]) && (s.calls[id].pc.Acquire? || s.calls[id].pc.LockFile?)
    ensures id in Step(s, id, s.calls[id]).calls
    ensures var pc := Step(s, id, s.calls[id]).calls[id].pc; pc.Open? || pc.Read? || pc.Remove?
  {
  }

  lemma SweepRemovesOn(s: State, id: CallId, was: Option<Dir>, now: Time)
    requires id in s.calls && (s.calls[id].pc.Remove? || s.calls[id].pc.Pop?)
    requires SweepsOn(s.calls[id], s.dir, was, now, s.ttl)
    ensures var t := Step(s, id, s.calls[id]); id in t.calls && SweepsOn(t.calls[id], t.dir, was, now, s.ttl)
  {
  }

  lemma SweepStepsOn(s: State, id: CallId, was: Option<Dir>, log: seq<Commit>, now: Time, ttl: Time)
    requires Sweeping(s, id, was, log, now, ttl) && Unblocked(s, id) && CanAct(s, s.calls[id])
    ensures var t := Step(s, id, s.calls[id]);
      id in t.calls && SweepsOn(t.calls[id], t.dir, was, now, ttl) && t.log == log
  {
    var c := s.calls[id];
    assert CallHolds(s, id);
    StepCommits(s, id);
    if Looks(c) {
      SweepLooksOn(c, s.dir, was, s.clock, ttl, s.createdAt, s.log);
      LookStepIs(s, id);
    } else if c.pc.Remove? || c.pc.Pop? {
      SweepRemovesOn(s, id, was, now);
    } else {
      LockMovesCall(s, id);
      LockStepIs(s, id);
      if c.pc.Acquire? || c.pc.LockFile? {
        UnblockedEnters(s, id);
      }
      SweepLocksOn(c, Step(s, id, c).calls[id], s.dir, was, now, ttl);
    }
  }

  lemma SweepStaysPruned(s: State, id: CallId, was: Option<Dir>, log: seq<Commit>, now: Time, ttl: Time)
    requires Sweeping(s, id, was, log, now, ttl) && CanAct(s, s.calls[id]) && was.Some?
    ensures var t := Step(s, id, s.calls[id]); id in t.calls && Pruned(t, id)
  {
    assert CallHolds(s, id);
    if s.calls[id].pc.Remove? {
      assert Step(s, id, s.calls[id]).calls[id].pc.Pop?;
    } else {
      StaysPruned(s, id);
    }
  }

  lemma SweepGoesOn(s: State, id: CallId, was: Option<Dir>, log: seq<Commit>, now: Time, ttl: Time)
    requires Sweeping(s, id, was, log, now, ttl) && !s.calls[id].pc.Done?
    ensures Enabled(s, Act(id)) && Sweeping(Apply(s, Act(id)), id, was, log, now, ttl)
    ensures StepsLeft(Apply(s, Act(id)).calls[id].pc) < StepsLeft(s.calls[id].pc)
  {
    var other := SomeUnblocked(s, id);
    assert other == id;
    assert CallHolds(s, id);
    SweepStepsOn(s, id, was, log, now, ttl);
    if was.Some? {
      SweepStaysPruned(s, id, was, log, now, ttl);
    }
    StaysAlone(s, id);
    StepFrame(s, id);
    ActUsesStep(s, id);
    InvKept(s, Act(id));
    NoneLostKept(s, Act(id));
  }

  lemma {:induction false} SweepEnds(s: State, id: CallId, was: Option<Dir>, log: seq<Commit>, now: Time, ttl: Time)
    returns (events: seq<Event>)
    requires Sweeping(s, id, was, log, now, ttl)
    ensures RunEnabled(s, events) && forall e :: e in events ==> e == Act(id)
    ensures var t := Run(s, events); Sweeping(t, id, was, log, now, ttl) && t.calls[id].pc.Done?
    decreases StepsLeft(s.calls[id].pc)
  {
    if s.calls[id].pc.Done? {
      events := [];
    } else {
      SweepGoesOn(s, id, was, log, now, ttl);
      var rest := SweepEnds(Apply(s, Act(id)), id, was, log, now, ttl);
      RunFrom(s, Act(id), rest);
      events := [Act(id)] + rest;
    }
  }

  /** A delete looks the job up, removes the directory, and drops the lock object. */
  lemma DeleteEnds(s: State, id: CallId) returns (events: seq<Event>)
    requires id in s.calls && s.calls[id].pc.Start? && s.calls[id].op.Delete?
    requires s.dir.Some? ==> s.dir.value.meta.Full?
    ensures RunEnabled(s, events) && forall e :: e in events ==> e == Act(id)
    ensures var t := Run(s, events);
      id in t.calls && t.calls[id].pc.Done? && t.calls[id].op.Delete? && t.dir.None? && t.log == s.log
      && t.calls[id].out == (if s.dir.Some? then Deleted else NotFound)
      && (s.dir.Some? ==> t.calls[id].replica !in t.lockMap)
  {
    DeleteStarts(s, id);
    var rest := [];
    if s.dir.Some? {
      rest := DeleteRemoves(Apply(s, Act(id)), id);
    }
    RunFrom(s, Act(id), rest);
    events := [Act(id)] + rest;
  }

  lemma DeleteStarts(s: State, id: CallId)
    requires id in s.calls && s.calls[id].pc.Start? && s.calls[id].op.Delete?
    requires s.dir.Some? ==> s.dir.value.meta.Full?
    ensures Enabled(s, Act(id))
    ensures var t, c := Apply(s, Act(id)), s.calls[id];
      t.calls == s.calls[id := if s.dir.Some? then Goto(c, RemoveUnlocked) else Leave(c, Done, NotFound)]
      && t.dir == s.dir && t.log == s.log
  {
  }

  lemma DeleteRemoves(s: State, id: CallId) returns (events: seq<Event>)
    requires id in s.calls && s.calls[id].pc.RemoveUnlocked? && s.calls[id].op.Delete?
    ensures RunEnabled(s, events) && forall e :: e in events ==> e == Act(id)
    ensures var t := Run(s, events);
      id in t.calls && t.calls[id].pc.Done? && t.calls[id].op.Delete? && t.dir.None? && t.log == s.log
      && t.calls[id].out.Deleted? && t.calls[id].replica !in t.lockMap
  {
    var t := Apply(s, Act(id));
    assert t.calls == s.calls[id := Goto(s.calls[id], PopUnlocked)] && t.dir.None? && t.log == s.log;
    DeletePops(t, id);
    RunFrom(t, Act(id), []);
    RunFrom(s, Act(id), [Act(id)] + []);
    events := [Act(id)] + ([Act(id)] + []);
  }

  lemma DeletePops(s: State, id: CallId)
    requires id in s.calls && s.calls[id].pc.PopUnlocked?
    ensures Enabled(s, Act(id))
    ensures var t := Apply(s, Act(id));
      t.calls == s.calls[id := Leave(s.calls[id], Done, Deleted)] && t.dir == s.dir && t.log == s.log
      && t.lockMap == s.lockMap - {s.calls[id].replica}
  {
  }

  /**
    What a call alone comes to: it ends, answers, and leaves in the history, what the handler does and the operation on
    the job in one go; the job is gone then exactly if it was, or by a delete, or by a sweep that found it timed out;
    and with it goes the lock object its replica had for the job.
   */
  ghost predicate InOneGo(s: State, t: State, id: CallId)
    requires id in s.calls
  {
    var op := s.calls[id].op;
    id in t.calls && t.calls[id].pc.Done? && Hears(t.calls[id]) == AnswerTo(op, s.dir.Some?, s.log)
    && t.log == s.log + CommitsOf(id, op, s.clock, s.dir.Some?, s.log)
    && (t.dir.None? <==>
          s.dir.None? || op.Delete?
          || (op.Sweep? && s.dir.value.meta.Full? && TimedOut(s.dir.value.meta.content, s.clock, s.ttl)))
    && (s.dir.Some? && t.dir.None? ==> t.calls[id].replica !in t.lockMap)
  }

  lemma DeletedInOneGo(s: State, t: State, id: CallId)
    requires id in s.calls && s.calls[id].op.Delete? && id in t.calls && t.calls[id].pc.Done? && t.calls[id].op.Delete?
    requires t.calls[id].out == (if s.dir.Some? then Deleted else NotFound)
    requires t.dir.None? && t.log == s.log && (s.dir.Some? ==> t.calls[id].replica !in t.lockMap)
    ensures InOneGo(s, t, id)
  {
  }

  lemma DeleteIsInOneGo(s: State, id: CallId) returns (events: seq<Event>)
    requires Inv(s) && id in s.calls && s.calls[id].pc.Start? && s.calls[id].op.Delete?
    ensures RunEnabled(s, events) && forall e :: e in events ==> e == Act(id)
    ensures InOneGo(s, Run(s, events), id)
  {
    events := DeleteEnds(s, id);
    DeletedInOneGo(s, Run(s, events), id);
  }

  lemma SweptInOneGo(s: State, t: State, id: CallId)
    requires id in s.calls && s.calls[id].op.Sweep? && Sweeping(t, id, s.dir, s.log, s.clock, s.ttl)
    requires t.calls[id].pc.Done?
    ensures InOneGo(s, t, id)
  {
  }

  lemma SweepIsInOneGo(s: State, id: CallId) returns (events: seq<Event>)
    requires Inv(s) && NoneLost(s) && Alone(s, id) && s.calls[id].pc.Start? && s.calls[id].op.Sweep?
    ensures RunEnabled(s, events) && forall e :: e in events ==> e == Act(id)
    ensures InOneGo(s, Run(s, events), id)
  {
    assert Sweeping(s, id, s.dir, s.log, s.clock, s.ttl);
    events := SweepEnds(s, id, s.dir, s.log, s.clock, s.ttl);
    SweptInOneGo(s, Run(s, events), id);
  }

  lemma HandledInOneGo(s: State, id: CallId) returns (events: seq<Event>)
    requires Inv(s) && NoneLost(s) && Alone(s, id) && s.calls[id].pc.Start? && Operates(s.calls[id].op)
    ensures RunEnabled(s, events) && forall e :: e in events ==> e == Act(id)
    ensures InOneGo(s, Run(s, events), id)
  {
    assert CallHolds(s, id);
    events := AloneEnds(s, id, s.calls[id].op, s.dir.Some?, s.log, s.clock);
  }

  /** A call that is alone from its start on, in any reachable state, does by its own steps what it does in one go. */
  lemma AloneIsInOneGo(s: State, id: CallId) returns (events: seq<Event>)
    requires Reachable(s) && Alone(s, id) && s.calls[id].pc.Start?
    ensures RunEnabled(s, events) && forall e :: e in events ==> e == Act(id)
    ensures InOneGo(s, Run(s, events), id)
  {
    ReachableInv(s);
    ReachableLosesNone(s);
    if s.calls[id].op.Delete? {
      events := DeleteIsInOneGo(s, id);
    } else if s.calls[id].op.Sweep? {
      events := SweepIsInOneGo(s, id);
    } else {
      events := HandledInOneGo(s, id);
    }
  }
}
