/** The history of a job: what its committed records amount to, as one list of documents. */
module JobHistory {
  import opened Wrappers
  import opened JobStore

  /** The documents added, in the order they were committed. */
  function Docs(log: seq<Commit>): seq<Data> {
    if log == [] then []
    else Docs(log[..|log| - 1]) + if log[|log| - 1].AddCommit? then [log[|log| - 1].data] else []
  }

  /** The calls that added them. */
  function AddCalls(log: seq<Commit>): seq<CallId> {
    if log == [] then []
    else AddCalls(log[..|log| - 1]) + if log[|log| - 1].AddCommit? then [log[|log| - 1].call] else []
  }

  /** The calls that recorded a failure. */
  function FailCalls(log: seq<Commit>): seq<CallId> {
    if log == [] then []
    else FailCalls(log[..|log| - 1]) + if log[|log| - 1].FailCommit? then [log[|log| - 1].call] else []
  }

  /** The calls that committed. */
  function CommitCalls(log: seq<Commit>): seq<CallId> {
    if log == [] then [] else CommitCalls(log[..|log| - 1]) + [log[|log| - 1].call]
  }

  /** The job was finished. */
  predicate Closed(log: seq<Commit>) {
    log != [] && (log[|log| - 1].FinishCommit? || Closed(log[..|log| - 1]))
  }

  /**
    What an operation on a job with this history comes to, if nothing comes between; found is whether the job exists.
   */
  function AnswerOf(op: Op, found: bool, log: seq<Commit>): Outcome {
    if !found then NotFound
    else match op
      case AddDocument(_) => if Closed(log) then NotActive else Added(|Docs(log)|)
      case RecordFailure => Recorded
      case Finish => if !Closed(log) && Docs(log) == [] then NoDocuments else Merged
      case Delete => Deleted
      case Sweep => Skipped
  }

  /** What its handler answers then. */
  function AnswerTo(op: Op, found: bool, log: seq<Commit>): Answer {
    if op.Sweep? then Nothing
    else if !found then NotFoundError
    else match op
      case AddDocument(_) => if Closed(log) then Conflict else Accepted
      case RecordFailure => ConversionFailed
      case Finish =>
        if Docs(log) == [] then BadRequest else Download(Some(Full(Docs(log))), |Docs(log)|, |FailCalls(log)|)
      case _ => NoContent
  }

  /** And what it adds to the history. */
  function CommitsOf(id: CallId, op: Op, now: Time, found: bool, log: seq<Commit>): seq<Commit> {
    match AnswerOf(op, found, log)
    case Added(_) => [CommitOf(id, op, now)]
    case Recorded => [CommitOf(id, op, now)]
    case Merged => if Closed(log) then [] else [CommitOf(id, op, now)]
    case _ => []
  }

  /** The record after a history. */
  function Replay(createdAt: Time, log: seq<Commit>): Meta {
    if log == [] then NewRecord(createdAt)
    else
      var m, last := Replay(createdAt, log[..|log| - 1]), log[|log| - 1];
      match last
      case AddCommit(_, time, data) => Updated(m, AddDocument(data), time)
      case FailCommit(_, time) => Updated(m, RecordFailure, time)
      case FinishCommit(_, time) => Updated(m, Finish, time)
  }

  /**
    A history as it should be: each call commits once, in the order of time; a job is finished with some documents; once
    finished, nothing is added and it is not finished again, though failures may still be recorded.
   */
  predicate GoodHistory(log: seq<Commit>, createdAt: Time, clock: Time) {
    if log == [] then createdAt <= clock
    else
      var front, last := log[..|log| - 1], log[|log| - 1];
      last.time <= clock && GoodHistory(front, createdAt, last.time) && last.call !in CommitCalls(front)
      && (last.FinishCommit? ==> Docs(front) != []) && (last.FailCommit? || !Closed(front))
  }

  /** A history with one more commit. */
  lemma Extended(log: seq<Commit>, c: Commit)
    ensures (log + [c])[..|log + [c]| - 1] == log && (log + [c])[|log + [c]| - 1] == c
    ensures CommitCalls(log + [c]) == CommitCalls(log) + [c.call]
    ensures Docs(log + [c]) == Docs(log) + if c.AddCommit? then [c.data] else []
    ensures AddCalls(log + [c]) == AddCalls(log) + if c.AddCommit? then [c.call] else []
    ensures FailCalls(log + [c]) == FailCalls(log) + if c.FailCommit? then [c.call] else []
    ensures Closed(log + [c]) <==> Closed(log) || c.FinishCommit?
  {
    var l := log + [c];
    assert l[..|l| - 1] == log && l[|l| - 1] == c;
  }

  /** A good history is one later, too. */
  lemma GoodLater(log: seq<Commit>, createdAt: Time, clock: Time, later: Time)
    requires GoodHistory(log, createdAt, clock) && clock <= later
    ensures GoodHistory(log, createdAt, later)
  {
  }

  lemma {:induction false} CreatedFirst(log: seq<Commit>, createdAt: Time, clock: Time)
    requires GoodHistory(log, createdAt, clock)
    ensures createdAt <= clock
  {
    if log != [] {
      CreatedFirst(log[..|log| - 1], createdAt, log[|log| - 1].time);
    }
  }

  lemma ExtendedIsGood(log: seq<Commit>, c: Commit, createdAt: Time, clock: Time)
    requires GoodHistory(log, createdAt, c.time) && c.time <= clock && c.call !in CommitCalls(log)
    requires (c.FinishCommit? ==> Docs(log) != []) && (c.FailCommit? || !Closed(log))
    ensures GoodHistory(log + [c], createdAt, clock)
  {
    Extended(log, c);
  }

  /** A finished job has documents. */
  lemma {:induction false} FinishedHasDocs(log: seq<Commit>, createdAt: Time, clock: Time)
    requires GoodHistory(log, createdAt, clock) && Closed(log)
    ensures Docs(log) != []
  {
    var front, last := log[..|log| - 1], log[|log| - 1];
    if !last.FinishCommit? {
      FinishedHasDocs(front, createdAt, last.time);
    }
  }

  lemma {:induction false} OpenHasNoFinish(log: seq<Commit>)
    requires !Closed(log)
    ensures forall i :: 0 <= i < |log| ==> !log[i].FinishCommit?
  {
    if log != [] {
      OpenHasNoFinish(log[..|log| - 1]);
      assert forall i :: 0 <= i < |log| - 1 ==> log[i] == log[..|log| - 1][i];
    }
  }

  /** The record counts what the history holds, and is completed exactly when it was finished. */
  lemma {:induction false} ReplayCounts(createdAt: Time, log: seq<Commit>)
    ensures var m := Replay(createdAt, log);
      m.pdfCount == |Docs(log)| == |AddCalls(log)| && m.failedCount == |FailCalls(log)|
      && (m.status.Completed? <==> Closed(log)) && (m.completedAt.Some? <==> Closed(log)) && m.createdAt == createdAt
  {
    if log != [] {
      ReplayCounts(createdAt, log[..|log| - 1]);
    }
  }

  /**
    The last activity is exactly the time of the last document or failure, or the creation where there was none; the
    completion is that of the finish.
   */
  lemma {:induction false} ReplayTimes(createdAt: Time, log: seq<Commit>, clock: Time)
    requires GoodHistory(log, createdAt, clock)
    ensures var m := Replay(createdAt, log);
      (forall i :: 0 <= i < |log| && !log[i].FinishCommit? ==> log[i].time <= LastActivity(m))
      && (LastActivity(m) == createdAt
          || exists i :: 0 <= i < |log| && !log[i].FinishCommit? && log[i].time == LastActivity(m))
      && createdAt <= LastActivity(m) <= clock
      && (forall i :: 0 <= i < |log| && log[i].FinishCommit? ==> m.completedAt == Some(log[i].time))
      && (m.completedAt.Some? ==> exists i :: 0 <= i < |log| && log[i].FinishCommit?)
  {
    if log != [] {
      var front, last := log[..|log| - 1], log[|log| - 1];
      ReplayTimes(createdAt, front, last.time);
      assert forall i :: 0 <= i < |front| ==> front[i] == log[i];
      if !Closed(front) {
        OpenHasNoFinish(front);
      }
    }
  }

  /** Once finished, the documents, the completion and its time stay as they are. */
  lemma {:induction false} ClosedIsFrozen(createdAt: Time, log: seq<Commit>, k: nat, clock: Time)
    requires GoodHistory(log, createdAt, clock) && k <= |log| && Closed(log[..k])
    ensures Closed(log) && Docs(log) == Docs(log[..k])
    ensures Replay(createdAt, log).completedAt == Replay(createdAt, log[..k]).completedAt
    ensures Replay(createdAt, log).status.Completed?
    ensures Replay(createdAt, log).pdfCount == Replay(createdAt, log[..k]).pdfCount
  {
    if k == |log| {
      assert log[..k] == log;
      ReplayCounts(createdAt, log);
    } else {
      var front := log[..|log| - 1];
      assert front[..k] == log[..k];
      ClosedIsFrozen(createdAt, front, k, log[|log| - 1].time);
    }
  }

  /** The documents of a longer history start with those of a shorter one, and so do the calls. */
  lemma {:induction false} DocsGrow(log: seq<Commit>, k: nat)
    requires k <= |log|
    ensures Docs(log[..k]) <= Docs(log) && AddCalls(log[..k]) <= AddCalls(log)
  {
    if k == |log| {
      assert log[..k] == log;
    } else {
      var front := log[..|log| - 1];
      assert front[..k] == log[..k];
      DocsGrow(front, k);
    }
  }

  lemma {:induction false} AddCallsCommit(log: seq<Commit>)
    ensures forall id :: id in AddCalls(log) || id in FailCalls(log) ==> id in CommitCalls(log)
  {
    if log != [] {
      AddCallsCommit(log[..|log| - 1]);
    }
  }

  /** Each call committed once, as an add, a failure, or a finish. */
  lemma {:induction false} CallsCommitOnce(log: seq<Commit>, createdAt: Time, clock: Time)
    requires GoodHistory(log, createdAt, clock)
    ensures NoDup(AddCalls(log)) && NoDup(FailCalls(log)) && forall id :: id in AddCalls(log) ==> id !in FailCalls(log)
  {
    if log != [] {
      var front, last := log[..|log| - 1], log[|log| - 1];
      CallsCommitOnce(front, createdAt, last.time);
      AddCallsCommit(front);
      NoDupConcat(AddCalls(front), [last.call]);
      NoDupConcat(FailCalls(front), [last.call]);
    }
  }
}
