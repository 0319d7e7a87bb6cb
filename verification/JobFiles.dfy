/** A job as one caller at a time changes it: its operations in place, against its history. */
module JobFiles {
  import opened Wrappers
  import opened JobStore
  import opened JobHistory
  import opened JobData

  /** What a finish finds in the files says which of its outcomes it is to have, and what it is to commit. */
  lemma FinishFinds(dir: Dir, createdAt: Time, log: seq<Commit>, now: Time, call: CallId)
    requires DirHolds(dir, createdAt, log)
    ensures dir.meta == Full(Replay(createdAt, log)) && dir.meta.content.pdfCount == |Docs(log)|
    ensures dir.meta.content.status == Completed && dir.result.Some? <==> Closed(log)
    ensures Closed(log) ==>
      AnswerOf(Finish, true, log) == Merged && CommitsOf(call, Finish, now, true, log) == []
      && dir.result == Some(Full(Docs(log)))
    ensures !Closed(log) && Docs(log) == [] ==>
      AnswerOf(Finish, true, log) == NoDocuments && CommitsOf(call, Finish, now, true, log) == []
    ensures !Closed(log) && Docs(log) != [] ==>
      AnswerOf(Finish, true, log) == Merged && CommitsOf(call, Finish, now, true, log) == [FinishCommit(call, now)]
  {
    ReplayCounts(createdAt, log);
  }

  class Job {
    var dir: Option<Dir>

    /** Whether there is a lock object for it in the lock map of this replica. */
    var hasLock: bool

    ghost var log: seq<Commit>
    ghost var createdAt: Time
    ghost var clock: Time

    ghost predicate Valid()
      reads this
    {
      GoodHistory(log, createdAt, clock) && (dir.Some? ==> DirHolds(dir.value, createdAt, log))
    }

    /** Nothing happens to the job. */
    twostate predicate Untouched()
      reads this
    {
      dir == old(dir) && log == old(log)
    }

    /** create_job. */
    constructor (now: Time)
      ensures Valid() && dir.Some? && log == [] && createdAt == now && clock == now && !hasLock
    {
      dir := Some(Dir(Full(NewRecord(now)), None, map[], None));
      hasLock, log, createdAt, clock := false, [], now, now;
    }

    // ----- Metadata ---------------------------------------------------------------------------

    /** _read_metadata: what the history amounts to. */
    method ReadMetadata() returns (m: Option<Meta>)
      requires Valid()
      ensures m == if dir.Some? then Some(Replay(createdAt, log)) else None
    {
      m := if dir.Some? && dir.value.meta.Full? then Some(dir.value.meta.content) else None;
    }

    /** _write_metadata: written beside the record, and put in its place. */
    method WriteMetadata(m: Meta)
      requires dir.Some?
      modifies this`dir
      ensures dir == Some(old(dir).value.(meta := Full(m), tmp := None))
    {
      dir := Some(dir.value.(tmp := Some(Torn)));
      dir := Some(dir.value.(tmp := Some(Full(m))));
      dir := Some(dir.value.(meta := dir.value.tmp.value, tmp := None));
    }

    /** The record is replaced by the one that counts one more commit: the step an operation takes effect with. */
    method CommitRecord(m: Meta, op: Op, now: Time, ghost call: CallId)
      requires Valid() && dir.Some? && clock <= now && call !in CommitCalls(log)
      requires (op.AddDocument? || op.Finish? ==> !Closed(log)) && !op.Delete? && !op.Sweep?
      requires m == Updated(Replay(createdAt, log), op, now)
      requires op.AddDocument? ==> |Docs(log)| in dir.value.docs && dir.value.docs[|Docs(log)|] == Full(op.data)
      requires op.Finish? ==> Docs(log) != [] && dir.value.result == Some(Full(Docs(log)))
      modifies this`dir, this`log, this`clock
      ensures Valid() && dir.Some? && clock == now && log == old(log) + [CommitOf(call, op, now)]
      ensures Docs(log) == Docs(old(log)) + if op.AddDocument? then [op.data] else []
    {
      ghost var before, commit := dir.value, CommitOf(call, op, now);
      WriteMetadata(m);
      CommittedFiles(before, dir.value, createdAt, log, commit, op);
      GoodLater(log, createdAt, clock, now);
      ExtendedIsGood(log, commit, createdAt, now);
      Extended(log, commit);
      log, clock := log + [commit], now;
    }

    // ----- Operations -------------------------------------------------------------------------

    /** The file of a new document is written past those that are counted. */
    method WriteDocument(index: nat, data: Data)
      requires Valid() && dir.Some? && index == |Docs(log)|
      modifies this`dir
      ensures Valid() && dir.Some? && dir.value == old(dir).value.(docs := old(dir).value.docs[index := Full(data)])
    {
      dir := Some(dir.value.(docs := dir.value.docs[index := Torn]));
      dir := Some(dir.value.(docs := dir.value.docs[index := Full(data)]));
    }

    /** The document is written, and counted. */
    method Append(m: Meta, data: Data, now: Time, ghost call: CallId)
      requires Valid() && dir.Some? && m == Replay(createdAt, log) && m.pdfCount == |Docs(log)| && !Closed(log)
      requires clock <= now && call !in CommitCalls(log)
      modifies this`dir, this`log, this`clock
      ensures Valid() && dir.Some? && clock == now && log == old(log) + [AddCommit(call, now, data)]
    {
      WriteDocument(m.pdfCount, data);
      CommitRecord(m.(pdfCount := m.pdfCount + 1, updatedAt := Some(now)), AddDocument(data), now, call);
    }

    /** add_pdf: the document goes to the end of the list of a job that is not finished. */
    method AddPdf(data: Data, now: Time, ghost call: CallId) returns (out: Outcome)
      requires Valid() && clock <= now && call !in CommitCalls(log)
      modifies this
      ensures Valid() && clock == now && createdAt == old(createdAt)
      ensures out == AnswerOf(AddDocument(data), old(dir).Some?, old(log))
      ensures log == old(log) + CommitsOf(call, AddDocument(data), now, old(dir).Some?, old(log))
      ensures hasLock == (old(hasLock) || old(dir).Some?)
      ensures if out.Added? then dir.Some? else Untouched()
    {
      GoodLater(log, createdAt, clock, now);
      clock := now;
      if dir.None? {
        return NotFound;
      }
      hasLock := true;
      ReplayCounts(createdAt, log);
      var m := dir.value.meta.content;
      if m.status != Active {
        return NotActive;
      }
      Append(m, data, now, call);
      return Added(m.pdfCount);
    }

    /** record_failure: whatever the status. */
    method RecordAFailure(now: Time, ghost call: CallId) returns (out: Outcome)
      requires Valid() && clock <= now && call !in CommitCalls(log)
      modifies this
      ensures Valid() && clock == now && createdAt == old(createdAt)
      ensures out == AnswerOf(RecordFailure, old(dir).Some?, old(log))
      ensures log == old(log) + CommitsOf(call, RecordFailure, now, old(dir).Some?, old(log))
      ensures hasLock == (old(hasLock) || old(dir).Some?)
      ensures if out.Recorded? then dir.Some? else Untouched()
    {
      GoodLater(log, createdAt, clock, now);
      clock := now;
      if dir.None? {
        return NotFound;
      }
      hasLock := true;
      var m := dir.value.meta.content;
      CommitRecord(m.(failedCount := m.failedCount + 1, updatedAt := Some(now)), RecordFailure, now, call);
      return Recorded;
    }

    /** The merge of the documents below the count, in order. */
    method MergeDocuments(count: nat) returns (merged: seq<Data>)
      requires Valid() && dir.Some? && count == |Docs(log)|
      ensures merged == Docs(log)
    {
      merged := [];
      for i := 0 to count
        invariant merged == Docs(log)[..i]
      {
        merged := merged + [dir.value.docs[i].content];
      }
    }

    /** The merge is written, and the job completed. */
    method WriteResult(m: Meta, now: Time, ghost call: CallId)
      requires Valid() && dir.Some? && m == Replay(createdAt, log) && m.pdfCount == |Docs(log)| > 0 && !Closed(log)
      requires clock <= now && call !in CommitCalls(log)
      modifies this`dir, this`log, this`clock
      ensures Valid() && dir.Some? && clock == now && log == old(log) + [FinishCommit(call, now)]
      ensures Closed(log) && Docs(log) == Docs(old(log))
    {
      var merged := MergeDocuments(m.pdfCount);
      dir := Some(dir.value.(result := Some(Torn)));
      dir := Some(dir.value.(result := Some(Full(merged))));
      Extended(log, FinishCommit(call, now));
      CommitRecord(m.(status := Completed, completedAt := Some(now)), Finish, now, call);
    }

    /** complete_job: the documents are merged in order, unless they have been; a second time gives the first result. */
    method CompleteJob(now: Time, ghost call: CallId) returns (out: Outcome)
      requires Valid() && clock <= now && call !in CommitCalls(log)
      modifies this
      ensures Valid() && clock == now && createdAt == old(createdAt) && Docs(log) == Docs(old(log))
      ensures out == AnswerOf(Finish, old(dir).Some?, old(log))
      ensures log == old(log) + CommitsOf(call, Finish, now, old(dir).Some?, old(log))
      ensures hasLock == (old(hasLock) || old(dir).Some?)
      ensures out.Merged? ==> Closed(log) && dir.Some? && dir.value.result == Some(Full(Docs(old(log))))
      ensures !out.Merged? || Closed(old(log)) ==> Untouched()
    {
      GoodLater(log, createdAt, clock, now);
      clock := now;
      if dir.None? {
        return NotFound;
      }
      hasLock := true;
      FinishFinds(dir.value, createdAt, log, now, call);
      var m := dir.value.meta.content;
      if m.status == Completed && dir.value.result.Some? {
        return Merged;
      }
      if m.pdfCount == 0 {
        return NoDocuments;
      }
      WriteResult(m, now, call);
      return Merged;
    }

    /** delete_job: the directory goes, and the lock object is dropped from the map. */
    method DeleteJob()
      requires Valid()
      modifies this`dir, this`hasLock
      ensures Valid() && dir == None && !hasLock
    {
      dir, hasLock := None, false;
    }

    // ----- The cleanup ------------------------------------------------------------------------

    /** _cleanup_completed_job and _cleanup_active_job, from the record of the listing. */
    method CleanUp(snap: Meta, now: Time, ttl: Time)
      requires Valid()
      modifies this`dir, this`hasLock
      ensures Valid()
      ensures hasLock == if Expired(snap, now, ttl) then old(dir).None? || dir.Some? else old(hasLock)
      ensures var m := Replay(createdAt, log);
        dir == if Expired(snap, now, ttl) && (snap.status.Completed? || (m.status.Active? && Expired(m, now, ttl)))
               then None
               else old(dir)
    {
      if !Expired(snap, now, ttl) {
        return;
      }
      hasLock := true;
      if dir.None? {
        return;
      }
      if snap.status.Completed? {
        DeleteJob();
        return;
      }
      var current := ReadMetadata();
      if current.None? || current.value.status != Active || now - LastActivity(current.value) <= 2 * ttl {
        return;
      }
      DeleteJob();
    }
  }

  // ----- The sweep, and the handlers ------------------------------------------------------------

  /**
    _run_cleanup, undisturbed: a job goes exactly if it was completed longer ago than the time to live, or is active and
    its last activity lies longer ago than twice that. No other is touched.
   */
  method RunCleanup(jobs: seq<Job>, now: Time, ttl: Time)
    requires forall j :: j in jobs ==> j.Valid()
    modifies jobs
    ensures forall j :: j in jobs ==>
      j.Valid() && j.log == old(j.log) && j.createdAt == old(j.createdAt) && (j.dir.Some? ==> j.dir == old(j.dir))
    ensures forall j :: j in jobs && old(j.dir).Some? ==>
      old(j.dir).value.meta.Full?
      && var m := old(j.dir).value.meta.content;
         j.dir.None? <==>
         (m.status.Completed? && m.completedAt.Some? && now - m.completedAt.value > ttl)
         || (m.status.Active? && now - (if m.updatedAt.Some? then m.updatedAt.value else m.createdAt) > 2 * ttl)
  {
    for i := 0 to |jobs|
      invariant forall j :: j in jobs ==> j.Valid() && j.log == old(j.log) && j.createdAt == old(j.createdAt)
      invariant forall j :: j in jobs ==>
        j.dir == if j in jobs[..i] && Expired(Replay(j.createdAt, j.log), now, ttl) then None else old(j.dir)
    {
      var job := jobs[i];
      var snap := job.ReadMetadata();
      if snap.Some? {
        job.CleanUp(snap.value, now, ttl);
      }
    }
  }

  /** _add_document: a conversion that fails is recorded, and answered as such; a document is added, or refused. */
  method HandleAdd(job: Job, converted: Option<Data>, now: Time, ghost call: CallId) returns (answer: Answer)
    requires job.Valid() && job.clock <= now && call !in CommitCalls(job.log)
    modifies job
    ensures job.Valid()
    ensures old(job.dir).None? ==> answer == NotFoundError && job.log == old(job.log)
    ensures old(job.dir).Some? && converted.None? ==>
      answer == ConversionFailed && job.log == old(job.log) + [FailCommit(call, now)]
    ensures old(job.dir).Some? && converted.Some? ==>
      if Closed(old(job.log)) then answer == Conflict && job.log == old(job.log)
      else answer == Accepted && job.log == old(job.log) + [AddCommit(call, now, converted.value)]
    ensures var op := if converted.Some? then AddDocument(converted.value) else RecordFailure;
      answer == AnswerTo(op, old(job.dir).Some?, old(job.log))
  {
    if job.dir.None? {
      return NotFoundError;
    }
    if converted.None? {
      var _ := job.RecordAFailure(now, call);
      return ConversionFailed;
    }
    var out := job.AddPdf(converted.value, now, call);
    answer := match out
      case NotFound => NotFoundError
      case NotActive => Conflict
      case _ => Accepted;
  }

  /** What there is to answer to a finish, and to commit for it. */
  lemma FinishAnswers(log: seq<Commit>, createdAt: Time, clock: Time, call: CallId, now: Time)
    requires GoodHistory(log, createdAt, clock)
    ensures AnswerTo(Finish, true, log)
         == if Docs(log) == [] then BadRequest else Download(Some(Full(Docs(log))), |Docs(log)|, |FailCalls(log)|)
    ensures CommitsOf(call, Finish, now, true, log)
         == if Docs(log) == [] || Closed(log) then [] else [FinishCommit(call, now)]
    ensures AnswerOf(Finish, true, log) == if Docs(log) == [] then NoDocuments else Merged
  {
    if Closed(log) {
      FinishedHasDocs(log, createdAt, clock);
    }
  }

  /** finish_merge_job: refused where nothing was added, or every conversion failed. */
  method HandleFinish(job: Job, now: Time, ghost call: CallId) returns (answer: Answer)
    requires job.Valid() && job.clock <= now && call !in CommitCalls(job.log)
    modifies job
    ensures job.Valid() && Docs(job.log) == Docs(old(job.log))
    ensures old(job.dir).None? ==> answer == NotFoundError
    ensures old(job.dir).Some? && Docs(old(job.log)) == [] ==> answer == BadRequest
    ensures old(job.dir).Some? && Docs(old(job.log)) != [] ==>
      answer == Download(Some(Full(Docs(old(job.log)))), |Docs(old(job.log))|, |FailCalls(old(job.log))|)
    ensures job.log
         == old(job.log) + if answer.Download? && !Closed(old(job.log)) then [FinishCommit(call, now)] else []
    ensures answer == AnswerTo(Finish, old(job.dir).Some?, old(job.log))
  {
    var before := job.ReadMetadata();
    if before.None? {
      return NotFoundError;
    }
    ReplayCounts(job.createdAt, job.log);
    FinishAnswers(job.log, job.createdAt, job.clock, call, now);
    if before.value.pdfCount == 0 && before.value.failedCount > 0 {
      return BadRequest;
    }
    var out := job.CompleteJob(now, call);
    if out.NoDocuments? {
      return BadRequest;
    }
    var m := job.ReadMetadata();
    ReplayCounts(job.createdAt, job.log);
    answer := Download(if job.dir.Some? then job.dir.value.result else None, if m.Some? then m.value.pdfCount else 0,
                       if m.Some? then m.value.failedCount else 0);
  }
}
