/** What every reachable state of a job store satisfies: the files are those of one list of documents. */
module JobData {
  import opened Wrappers
  import opened JobStore
  import opened JobLocks
  import opened JobHistory

  /** The files are those of the history, whatever was being written when. */
  ghost predicate DirHolds(dir: Dir, createdAt: Time, log: seq<Commit>) {
    dir.meta == Full(Replay(createdAt, log))
    && (forall i :: 0 <= i < |Docs(log)| ==> i in dir.docs && dir.docs[i] == Full(Docs(log)[i]))
    && (Closed(log) ==> dir.result == Some(Full(Docs(log))))
  }

  /** The call has its outcome, and is on its way out. */
  predicate Leaving(pc: Pc) {
    pc.Unlock? || pc.Close? || pc.Release? || pc.Report? || pc.Serve? || pc.Done?
  }

  /** Where a call of each kind can be, and that it has no outcome before it leaves. */
  ghost predicate Typed(c: Call) {
    (c.pc.WriteDoc? || c.pc.FinishDoc? ==> c.op.AddDocument?)
    && (c.pc.Merge? || c.pc.WriteResult? || c.pc.FinishResult? || c.pc.Measure? || c.pc.Report? || c.pc.Serve?
       ==> c.op.Finish?)
    && (c.Writing() ==> c.op.AddDocument? || c.op.RecordFailure? || c.op.Finish?)
    && (c.pc.List? || c.pc.Decide? || c.pc.Judge? || c.pc.Remove? || c.pc.Pop? ==> c.op.Sweep?)
    && (c.op.Delete? ==> c.pc.Start? || c.pc.RemoveUnlocked? || c.pc.PopUnlocked? || c.pc.Done?)
    && (c.pc.RemoveUnlocked? || c.pc.PopUnlocked? ==> c.op.Delete?)
    && (c.pc.Measure? || c.pc.Report? ==> c.out.Merged?)
    && (c.pc.Serve? ==> c.out.Counted?)
    && (c.out.Merged? || c.out.Counted? || c.out.Finished? ==> c.op.Finish?)
    && (c.op.RecordFailure? && !c.admitted ==> c.pc.Start? || c.pc.Done?) && (c.pc.Start? ==> !c.admitted)
    && (!(c.pc.Measure? || Leaving(c.pc)) ==> c.out.Pending?)
  }

  /** What a call in the critical section has read and written so far. */
  ghost predicate Working(c: Call, dir: Dir, createdAt: Time, log: seq<Commit>, ttl: Time) {
    var m, n := Replay(createdAt, log), |Docs(log)|;
    (AtRecord(c) ==> c.meta == m)
    && (c.Writing() && !c.op.RecordFailure? ==> m.status.Active?)
    && (c.Writing() && c.op.Finish? ==> n > 0)
    && (c.pc.WriteResult? || c.pc.FinishResult? ==> c.merged == Docs(log))
    && (Stamping(c) && c.op.AddDocument? ==> n in dir.docs && dir.docs[n] == Full(c.op.data))
    && (Stamping(c) && c.op.Finish? ==> c.merged == Docs(log) && dir.result == Some(Full(c.merged)))
    && (Stamping(c) && !c.pc.Stamp? ==> c.meta == Updated(m, c.op, c.now) && GoodHistory(log, createdAt, c.now))
    && (c.pc.Replace? ==> dir.tmp == Some(Full(c.meta)))
    && (c.pc.Remove? && c.snap.status.Active? ==> m.status.Active? && c.now - LastActivity(m) > 2 * ttl)
  }

  /** It has the record it read, unchanged. */
  predicate AtRecord(c: Call) {
    c.pc.WriteDoc? || c.pc.FinishDoc? || c.pc.Merge? || c.pc.WriteResult? || c.pc.FinishResult?
    || c.pc.Stamp? || c.pc.Judge?
  }

  /** On the way to the new record. */
  predicate Stamping(c: Call) {
    c.pc.Stamp? || c.pc.WriteTmp? || c.pc.FinishTmp? || c.pc.Replace?
  }

  /** A sweep goes by a record the job had, which said it is time to go. */
  ghost predicate SnapHolds(c: Call, createdAt: Time, log: seq<Commit>, ttl: Time) {
    c.op.Sweep? && !(c.pc.Start? || c.pc.List? || c.pc.Done?) ==>
      (exists k :: 0 <= k <= |log| && c.snap == Replay(createdAt, log[..k]))
      && (c.pc.Decide? || Expired(c.snap, c.now, ttl))
  }

  /**
    What a call answers is what the history holds of it: an answered error committed nothing, but that a finish can
    still fail after its commit.
   */
  ghost predicate Answered(id: CallId, c: Call, gone: bool, log: seq<Commit>) {
    match c.out
    case Added(i) => i < |AddCalls(log)| && AddCalls(log)[i] == id
    case Recorded => id in FailCalls(log)
    case Merged => Closed(log)
    case Counted(n, failed) => Closed(log) && (n == |Docs(log)| || (n == 0 && gone)) && failed <= |FailCalls(log)|
    case Finished(r, n, failed) =>
      Closed(log) && failed <= |FailCalls(log)|
      && ((r == Some(Full(Docs(log))) && n == |Docs(log)|) || (r == None && gone && (n == |Docs(log)| || n == 0)))
    case Crashed => true
    case Failed => id in CommitCalls(log) ==> c.op.Finish?
    case _ => id !in CommitCalls(log)
  }

  /** What a call goes by, given the directory and the history. */
  ghost predicate Knows(id: CallId, c: Call, dir: Option<Dir>, createdAt: Time, log: seq<Commit>, ttl: Time) {
    Typed(c)
    && (c.Locked() && dir.Some? ==> Working(c, dir.value, createdAt, log, ttl))
    && SnapHolds(c, createdAt, log, ttl)
    && Answered(id, c, dir.None?, log)
  }

  ghost predicate CallHolds(s: State, id: CallId)
    requires id in s.calls
  {
    s.calls[id].now <= s.clock && Knows(id, s.calls[id], s.dir, s.createdAt, s.log, s.ttl)
  }

  /** Each commit is of one of the calls, and of what that call is for. */
  ghost predicate Signed(s: State) {
    forall i :: 0 <= i < |s.log| ==>
      s.log[i].call in s.calls && s.log[i] == CommitOf(s.log[i].call, s.calls[s.log[i].call].op, s.log[i].time)
  }

  ghost predicate Inv(s: State) {
    LockInv(s) && Signed(s)
    && GoodHistory(s.log, s.createdAt, s.clock)
    && (s.dir.Some? ==> DirHolds(s.dir.value, s.createdAt, s.log))
    && (forall id :: id in s.calls ==> CallHolds(s, id))
  }

  // ----- The calls that do not move -----------------------------------------------------------

  /** Nothing happens to the files but that they may go. */
  lemma KnowsQuietly(id: CallId, c: Call, dir: Option<Dir>, after: Option<Dir>, createdAt: Time, log: seq<Commit>,
                     ttl: Time)
    requires Knows(id, c, dir, createdAt, log, ttl) && (after == dir || after.None?)
    ensures Knows(id, c, after, createdAt, log, ttl)
  {
  }

  /** A call outside the critical section does not see what is written in it. */
  lemma KnowsOutside(id: CallId, c: Call, dir: Option<Dir>, after: Option<Dir>, createdAt: Time, log: seq<Commit>,
                     ttl: Time)
    requires Knows(id, c, dir, createdAt, log, ttl) && !c.Locked() && dir.Some? && after.Some?
    ensures Knows(id, c, after, createdAt, log, ttl)
  {
  }

  /** Nor does a commit of another change what it goes by, or has answered. */
  lemma KnowsCommit(id: CallId, c: Call, dir: Option<Dir>, createdAt: Time, log: seq<Commit>, ttl: Time, commit: Commit)
    requires Knows(id, c, dir, createdAt, log, ttl) && !c.Locked() && dir.Some? && commit.call != id
    requires commit.FailCommit? || !Closed(log)
    ensures Knows(id, c, dir, createdAt, log + [commit], ttl)
  {
    SnapHoldsStill(c, createdAt, log, ttl, commit);
    AnsweredStill(id, c, log, commit);
  }

  lemma AnsweredStill(id: CallId, c: Call, log: seq<Commit>, commit: Commit)
    requires Answered(id, c, false, log) && commit.call != id && (commit.FailCommit? || !Closed(log))
    ensures Answered(id, c, false, log + [commit])
  {
    Extended(log, commit);
    assert Closed(log) ==> Docs(log + [commit]) == Docs(log);
  }

  lemma SnapHoldsStill(call: Call, createdAt: Time, log: seq<Commit>, ttl: Time, c: Commit)
    requires SnapHolds(call, createdAt, log, ttl)
    ensures SnapHolds(call, createdAt, log + [c], ttl)
  {
    if exists k :: 0 <= k <= |log| && call.snap == Replay(createdAt, log[..k]) {
      var k :| 0 <= k <= |log| && call.snap == Replay(createdAt, log[..k]);
      assert (log + [c])[..k] == log[..k];
    }
  }

  // ----- The call that moves: what it knows ---------------------------------------------------

  /** The files are as they should be, while there are any. */
  ghost predicate Files(dir: Option<Dir>, createdAt: Time, log: seq<Commit>) {
    dir.Some? ==> DirHolds(dir.value, createdAt, log)
  }

  lemma StartKnows(id: CallId, c: Call, dir: Option<Dir>, createdAt: Time, log: seq<Commit>, clock: Time, ttl: Time)
    requires Knows(id, c, dir, createdAt, log, ttl) && c.pc.Start?
    ensures Knows(id, StartCall(c, dir, clock), dir, createdAt, log, ttl)
  {
  }

  lemma AddReadKnows(id: CallId, c: Call, dir: Option<Dir>, createdAt: Time, log: seq<Commit>, ttl: Time)
    requires Knows(id, c, dir, createdAt, log, ttl) && Files(dir, createdAt, log) && c.pc.Read?
    requires c.op.AddDocument? || c.op.RecordFailure?
    ensures Knows(id, ReadCall(c, dir), dir, createdAt, log, ttl)
  {
  }

  lemma FinishReadKnows(id: CallId, c: Call, dir: Option<Dir>, createdAt: Time, log: seq<Commit>, ttl: Time)
    requires Knows(id, c, dir, createdAt, log, ttl) && Files(dir, createdAt, log) && c.pc.Read? && c.op.Finish?
    ensures Knows(id, ReadCall(c, dir), dir, createdAt, log, ttl)
  {
    ReplayCounts(createdAt, log);
  }

  lemma SweepReadKnows(id: CallId, c: Call, dir: Option<Dir>, createdAt: Time, log: seq<Commit>, ttl: Time)
    requires Knows(id, c, dir, createdAt, log, ttl) && Files(dir, createdAt, log) && c.pc.Read? && c.op.Sweep?
    ensures Knows(id, ReadCall(c, dir), dir, createdAt, log, ttl)
  {
  }

  lemma ListKnows(id: CallId, c: Call, dir: Option<Dir>, createdAt: Time, log: seq<Commit>, clock: Time, ttl: Time)
    requires Knows(id, c, dir, createdAt, log, ttl) && Files(dir, createdAt, log) && (c.pc.List? || c.pc.Decide?)
    ensures Knows(id, LookOn(c, dir, clock, ttl), dir, createdAt, log, ttl)
  {
    assert log[..|log|] == log;
  }

  /** Between two accesses to files, only the place, the lock object and the outcome change. */
  lemma MovedOnKnows(id: CallId, c: Call, d: Call, dir: Option<Dir>, createdAt: Time, log: seq<Commit>, ttl: Time)
    requires Knows(id, c, dir, createdAt, log, ttl) && d == c.(pc := d.pc, lock := d.lock, out := d.out)
    requires Typed(d) && (!d.Locked() || d.pc.Read? || d.pc.Unlock?) && Answered(id, d, dir.None?, log)
    requires !(c.pc.Start? || c.pc.List? || c.pc.Decide? || c.pc.Done?) && !d.pc.Decide?
    ensures Knows(id, d, dir, createdAt, log, ttl)
  {
  }

  lemma EnterKnows(id: CallId, c: Call, dir: Option<Dir>, createdAt: Time, log: seq<Commit>, clock: Time, ttl: Time)
    requires Knows(id, c, dir, createdAt, log, ttl) && (c.pc.Exists? || c.pc.Open? || c.pc.Measure?)
    ensures Knows(id, LookOn(c, dir, clock, ttl), dir, createdAt, log, ttl)
  {
    MovedOnKnows(id, c, LookOn(c, dir, clock, ttl), dir, createdAt, log, ttl);
  }

  lemma JudgeKnows(id: CallId, c: Call, dir: Option<Dir>, createdAt: Time, log: seq<Commit>, clock: Time, ttl: Time)
    requires Knows(id, c, dir, createdAt, log, ttl) && c.pc.Judge?
    ensures Knows(id, LookOn(c, dir, clock, ttl), dir, createdAt, log, ttl)
  {
  }

  lemma ReportKnows(id: CallId, c: Call, dir: Option<Dir>, createdAt: Time, log: seq<Commit>, clock: Time, ttl: Time)
    requires Knows(id, c, dir, createdAt, log, ttl) && Files(dir, createdAt, log) && (c.pc.Report? || c.pc.Serve?)
    ensures Knows(id, LookOn(c, dir, clock, ttl), dir, createdAt, log, ttl)
  {
    ReplayCounts(createdAt, log);
  }

  lemma StampKnows(id: CallId, c: Call, dir: Option<Dir>, createdAt: Time, log: seq<Commit>, clock: Time, ttl: Time)
    requires Knows(id, c, dir, createdAt, log, ttl) && c.pc.Stamp? && GoodHistory(log, createdAt, clock)
    ensures Knows(id, LookOn(c, dir, clock, ttl), dir, createdAt, log, ttl)
  {
  }

  lemma ReadKnows(id: CallId, c: Call, dir: Option<Dir>, createdAt: Time, log: seq<Commit>, ttl: Time)
    requires Knows(id, c, dir, createdAt, log, ttl) && Files(dir, createdAt, log) && c.pc.Read?
    ensures Knows(id, ReadCall(c, dir), dir, createdAt, log, ttl)
  {
    if c.op.Finish? {
      FinishReadKnows(id, c, dir, createdAt, log, ttl);
    } else if c.op.Sweep? {
      SweepReadKnows(id, c, dir, createdAt, log, ttl);
    } else {
      AddReadKnows(id, c, dir, createdAt, log, ttl);
    }
  }

  /** A step that looks on. */
  lemma LooksKnows(id: CallId, c: Call, dir: Option<Dir>, createdAt: Time, log: seq<Commit>, clock: Time, ttl: Time)
    requires Knows(id, c, dir, createdAt, log, ttl) && Files(dir, createdAt, log) && GoodHistory(log, createdAt, clock)
    requires Looks(c) && !c.pc.Done?
    ensures Knows(id, LookOn(c, dir, clock, ttl), dir, createdAt, log, ttl)
  {
    if c.pc.Start? {
      StartKnows(id, c, dir, createdAt, log, clock, ttl);
    } else if c.pc.List? || c.pc.Decide? {
      ListKnows(id, c, dir, createdAt, log, clock, ttl);
    } else if c.pc.Read? {
      ReadKnows(id, c, dir, createdAt, log, ttl);
    } else if c.pc.Judge? {
      JudgeKnows(id, c, dir, createdAt, log, clock, ttl);
    } else if c.pc.Stamp? {
      StampKnows(id, c, dir, createdAt, log, clock, ttl);
    } else if c.pc.Report? || c.pc.Serve? {
      ReportKnows(id, c, dir, createdAt, log, clock, ttl);
    } else {
      EnterKnows(id, c, dir, createdAt, log, clock, ttl);
    }
  }

  /** Where a call can come to at a lock. */
  predicate LockMove(c: Call, d: Call) {
    match c.pc
    case Lookup => d == c.(pc := Acquire, lock := d.lock)
    case Acquire => d == Goto(c, Open) || (c.op.Sweep? && d == Leave(c, Done, Skipped))
    case LockFile =>
      d == Goto(c, if c.op.Sweep? && c.snap.status.Completed? then Remove else Read)
      || (c.op.Sweep? && d == Leave(c, Close, Skipped))
    case Unlock => d == Goto(c, Close)
    case Close => d == Goto(c, Release)
    case Release => d == Goto(c, if c.op.Finish? && c.out.Merged? then Report else Done)
    case _ => false
  }

  lemma LockMovesCall(s: State, id: CallId)
    requires id in s.calls && CanAct(s, s.calls[id])
    requires var pc := s.calls[id].pc; AtLock(pc) && !pc.Pop? && !pc.PopUnlocked?
    ensures LockMove(s.calls[id], Step(s, id, s.calls[id]).calls[id])
  {
  }

  lemma EnterLockKnows(id: CallId, c: Call, d: Call, dir: Option<Dir>, createdAt: Time, log: seq<Commit>, ttl: Time)
    requires Knows(id, c, dir, createdAt, log, ttl) && LockMove(c, d) && (c.pc.Lookup? || c.pc.Acquire?)
    ensures Knows(id, d, dir, createdAt, log, ttl)
  {
    MovedOnKnows(id, c, d, dir, createdAt, log, ttl);
  }

  lemma FileLockKnows(id: CallId, c: Call, d: Call, dir: Option<Dir>, createdAt: Time, log: seq<Commit>, ttl: Time)
    requires Knows(id, c, dir, createdAt, log, ttl) && LockMove(c, d) && c.pc.LockFile?
    ensures Knows(id, d, dir, createdAt, log, ttl)
  {
  }

  lemma LeaveLockKnows(id: CallId, c: Call, d: Call, dir: Option<Dir>, createdAt: Time, log: seq<Commit>, ttl: Time)
    requires Knows(id, c, dir, createdAt, log, ttl) && LockMove(c, d) && (c.pc.Unlock? || c.pc.Close? || c.pc.Release?)
    ensures Knows(id, d, dir, createdAt, log, ttl)
  {
    MovedOnKnows(id, c, d, dir, createdAt, log, ttl);
  }

  /** A step at a lock. */
  lemma LocksKnows(id: CallId, c: Call, d: Call, dir: Option<Dir>, createdAt: Time, log: seq<Commit>, ttl: Time)
    requires Knows(id, c, dir, createdAt, log, ttl) && LockMove(c, d)
    ensures Knows(id, d, dir, createdAt, log, ttl)
  {
    if c.pc.Lookup? || c.pc.Acquire? {
      EnterLockKnows(id, c, d, dir, createdAt, log, ttl);
    } else if c.pc.LockFile? {
      FileLockKnows(id, c, d, dir, createdAt, log, ttl);
    } else {
      LeaveLockKnows(id, c, d, dir, createdAt, log, ttl);
    }
  }

  lemma RemoveKnows(id: CallId, c: Call, d: Call, dir: Option<Dir>, createdAt: Time, log: seq<Commit>, ttl: Time)
    requires Knows(id, c, dir, createdAt, log, ttl)
    requires c.pc.Remove? || c.pc.RemoveUnlocked? || ((c.pc.Pop? || c.pc.PopUnlocked?) && dir.None?)
    requires d == match c.pc
      case Remove => Goto(c, Pop)
      case RemoveUnlocked => Goto(c, PopUnlocked)
      case Pop => Leave(c, Unlock, Deleted)
      case _ => Leave(c, Done, Deleted)
    ensures Knows(id, d, None, createdAt, log, ttl)
  {
  }

  // ----- Writing: what it knows, and the files ------------------------------------------------

  lemma WriteDocKnows(id: CallId, c: Call, dir: Dir, createdAt: Time, log: seq<Commit>, ttl: Time)
    requires Knows(id, c, Some(dir), createdAt, log, ttl) && DirHolds(dir, createdAt, log)
    requires (c.pc.WriteDoc? || c.pc.FinishDoc?)
    ensures DirHolds(WrittenDir(dir, c), createdAt, log)
    ensures Knows(id, WriteCall(c, dir), Some(WrittenDir(dir, c)), createdAt, log, ttl)
  {
    ReplayCounts(createdAt, log);
  }

  lemma WriteResultKnows(id: CallId, c: Call, dir: Dir, createdAt: Time, log: seq<Commit>, ttl: Time)
    requires Knows(id, c, Some(dir), createdAt, log, ttl) && DirHolds(dir, createdAt, log)
    requires (c.pc.Merge? && AllFull(dir.docs, c.meta.pdfCount)) || c.pc.WriteResult? || c.pc.FinishResult?
    ensures DirHolds(WrittenDir(dir, c), createdAt, log)
    ensures Knows(id, WriteCall(c, dir), Some(WrittenDir(dir, c)), createdAt, log, ttl)
  {
    ReplayCounts(createdAt, log);
    if c.pc.Merge? {
      assert Contents(dir.docs, c.meta.pdfCount) == Docs(log);
    }
  }

  lemma WriteTmpKnows(id: CallId, c: Call, dir: Dir, createdAt: Time, log: seq<Commit>, ttl: Time)
    requires Knows(id, c, Some(dir), createdAt, log, ttl) && DirHolds(dir, createdAt, log) && c.pc.WriteTmp?
    ensures DirHolds(WrittenDir(dir, c), createdAt, log)
    ensures Knows(id, WriteCall(c, dir), Some(WrittenDir(dir, c)), createdAt, log, ttl)
  {
  }

  lemma FinishTmpKnows(id: CallId, c: Call, dir: Dir, createdAt: Time, log: seq<Commit>, ttl: Time)
    requires Knows(id, c, Some(dir), createdAt, log, ttl) && DirHolds(dir, createdAt, log) && c.pc.FinishTmp?
    ensures DirHolds(WrittenDir(dir, c), createdAt, log)
    ensures Knows(id, WriteCall(c, dir), Some(WrittenDir(dir, c)), createdAt, log, ttl)
  {
  }

  /** The files, with the record of the longer history. */
  lemma CommittedFiles(dir: Dir, next: Dir, createdAt: Time, log: seq<Commit>, c: Commit, op: Op)
    requires DirHolds(dir, createdAt, log) && c == CommitOf(c.call, op, c.time) && !op.Delete? && !op.Sweep?
    requires next.meta == Full(Updated(Replay(createdAt, log), op, c.time)) && next.docs == dir.docs
    requires next.result == dir.result
    requires op.AddDocument? ==> !Closed(log) && |Docs(log)| in dir.docs && dir.docs[|Docs(log)|] == Full(op.data)
    requires op.Finish? ==> dir.result == Some(Full(Docs(log)))
    ensures DirHolds(next, createdAt, log + [c])
  {
    Extended(log, c);
    assert !c.AddCommit? ==> Docs(log + [c]) == Docs(log);
  }

  /** The record that replaces the old one is that of the longer history. */
  lemma ReplacedFiles(id: CallId, c: Call, dir: Dir, createdAt: Time, log: seq<Commit>, ttl: Time)
    requires Knows(id, c, Some(dir), createdAt, log, ttl) && DirHolds(dir, createdAt, log) && c.pc.Replace?
    ensures DirHolds(WrittenDir(dir, c), createdAt, log + [CommitOf(id, c.op, c.now)])
  {
    ReplayCounts(createdAt, log);
    CommittedFiles(dir, WrittenDir(dir, c), createdAt, log, CommitOf(id, c.op, c.now), c.op);
  }

  lemma ReplacedHistory(id: CallId, c: Call, dir: Dir, createdAt: Time, log: seq<Commit>, clock: Time, ttl: Time)
    requires Knows(id, c, Some(dir), createdAt, log, ttl) && c.pc.Replace? && c.now <= clock
    requires GoodHistory(log, createdAt, clock)
    ensures GoodHistory(log + [CommitOf(id, c.op, c.now)], createdAt, clock)
  {
    ReplayCounts(createdAt, log);
    ExtendedIsGood(log, CommitOf(id, c.op, c.now), createdAt, clock);
  }

  /** And the call answers for it. */
  lemma ReplaceKnows(id: CallId, c: Call, dir: Dir, createdAt: Time, log: seq<Commit>, ttl: Time)
    requires Knows(id, c, Some(dir), createdAt, log, ttl) && DirHolds(dir, createdAt, log) && c.pc.Replace?
    ensures Knows(id, WriteCall(c, dir), Some(WrittenDir(dir, c)), createdAt, log + [CommitOf(id, c.op, c.now)], ttl)
  {
    ReplaceAnswers(id, c, dir, createdAt, log, ttl);
    ReplaceTyped(c, dir);
    LeftKnows(id, WriteCall(c, dir), Some(WrittenDir(dir, c)), createdAt, log + [CommitOf(id, c.op, c.now)], ttl);
  }

  lemma ReplaceTyped(c: Call, dir: Dir)
    requires Typed(c) && c.pc.Replace?
    ensures var d := WriteCall(c, dir); Typed(d) && (d.pc.Unlock? || d.pc.Measure?) && !d.op.Sweep?
  {
  }

  /** A call that has its outcome goes by no more than that. */
  lemma LeftKnows(id: CallId, c: Call, dir: Option<Dir>, createdAt: Time, log: seq<Commit>, ttl: Time)
    requires Typed(c) && Answered(id, c, dir.None?, log) && (c.pc.Unlock? || c.pc.Measure?) && !c.op.Sweep?
    ensures Knows(id, c, dir, createdAt, log, ttl)
  {
  }

  lemma ReplaceAnswers(id: CallId, c: Call, dir: Dir, createdAt: Time, log: seq<Commit>, ttl: Time)
    requires Knows(id, c, Some(dir), createdAt, log, ttl) && c.pc.Replace?
    ensures Answered(id, WriteCall(c, dir), false, log + [CommitOf(id, c.op, c.now)])
  {
    ReplayCounts(createdAt, log);
    var commit := CommitOf(id, c.op, c.now);
    Extended(log, commit);
  }

  /** A step that writes: the history after it is the one before, or with its commit. */
  lemma WritesKnows(id: CallId, c: Call, dir: Dir, createdAt: Time, log: seq<Commit>, ttl: Time)
    requires Knows(id, c, Some(dir), createdAt, log, ttl) && DirHolds(dir, createdAt, log) && c.Writing()
    requires !c.pc.Stamp?
    requires c.pc.Merge? ==> AllFull(dir.docs, c.meta.pdfCount)
    ensures var after := if c.pc.Replace? then log + [CommitOf(id, c.op, c.now)] else log;
      DirHolds(WrittenDir(dir, c), createdAt, after)
      && Knows(id, WriteCall(c, dir), Some(WrittenDir(dir, c)), createdAt, after, ttl)
  {
    if c.pc.WriteDoc? || c.pc.FinishDoc? {
      WriteDocKnows(id, c, dir, createdAt, log, ttl);
    } else if c.pc.WriteTmp? {
      WriteTmpKnows(id, c, dir, createdAt, log, ttl);
    } else if c.pc.FinishTmp? {
      FinishTmpKnows(id, c, dir, createdAt, log, ttl);
    } else if c.pc.Replace? {
      ReplacedFiles(id, c, dir, createdAt, log, ttl);
      ReplaceKnows(id, c, dir, createdAt, log, ttl);
    } else {
      WriteResultKnows(id, c, dir, createdAt, log, ttl);
    }
  }

  lemma FaultKnows(id: CallId, c: Call, dir: Option<Dir>, createdAt: Time, log: seq<Commit>, ttl: Time)
    requires Knows(id, c, dir, createdAt, log, ttl) && MayFault(c)
    ensures Knows(id, FaultCall(c), dir, createdAt, log, ttl)
  {
    var d := FaultCall(c);
    assert Typed(d) && !(d.Writing() || AtRecord(d) || Stamping(d) || d.pc.Remove?);
  }
}
