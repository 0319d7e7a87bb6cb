/**
  The job store as replicas with many threads share it: every call is a sequence of steps, and the steps of all calls
  interleave. A job's calls touch its own directory and its own entry of the lock map only, so one job is followed.
 */
module JobStore {
  import opened Wrappers

  type Time = int
  type Data = string
  type Replica = nat
  type CallId = nat
  type LockId = nat

  datatype Status = Active | Completed

  /** The metadata record of a job. */
  datatype Meta = Meta(status: Status, createdAt: Time, updatedAt: Option<Time>, completedAt: Option<Time>,
                       pdfCount: nat, failedCount: nat)

  /** A file: while it is written, and after a crash in between, it is torn. */
  datatype File<T> = Torn | Full(content: T)

  /** The directory of the job; a result stands for the documents merged into it, in their order. */
  datatype Dir = Dir(meta: File<Meta>, tmp: Option<File<Meta>>, docs: map<nat, File<Data>>,
                     result: Option<File<seq<Data>>>)

  /**
    What a call is for: a converted document, a failed conversion, a finish, a delete, or a sweep of the cleanup.
   */
  datatype Op = AddDocument(data: Data) | RecordFailure | Finish | Delete | Sweep

  datatype Outcome =
    | Pending | Added(index: nat) | Recorded | Merged | Counted(count: nat, failed: nat)
    | Finished(answer: Option<File<seq<Data>>>, count: nat, failed: nat)
    | Deleted | Skipped | NotFound | NotActive | NoDocuments | AllFailed | Failed | Crashed

  /** What a call does next. */
  datatype Pc =
    | Start | List | Decide | Exists | Lookup | Acquire | Open | LockFile | Read
    | WriteDoc | FinishDoc | Merge | WriteResult | FinishResult
    | Stamp | WriteTmp | FinishTmp | Replace | Measure
    | Judge | Remove | Pop | Unlock | Close | Release
    | RemoveUnlocked | PopUnlocked | Report | Serve | Done

  /**
    A call and its local variables: whether its handler has found the job, the lock object, the record read, a sweep's
    snapshot and start, the merge.
   */
  datatype Call = Call(replica: Replica, op: Op, pc: Pc, admitted: bool, lock: LockId, meta: Meta,
                       snap: Meta, now: Time,
                       merged: seq<Data>, out: Outcome)
  {
    /** It has the lock object. */
    predicate HasRef() {
      Holds() || pc.Acquire?
    }

    /** It has acquired it. */
    predicate Holds() {
      FileOpen() || pc.Open? || pc.Release?
    }

    /** It has the lock file open. */
    predicate FileOpen() {
      Locked() || pc.LockFile? || pc.Close?
    }

    /** It is in the critical section. */
    predicate Locked() {
      pc.Read? || Writing() || pc.Measure? || pc.Judge? || pc.Remove? || pc.Pop? || pc.Unlock?
    }

    predicate Writing() {
      pc.WriteDoc? || pc.FinishDoc? || pc.Merge? || pc.WriteResult? || pc.FinishResult?
      || pc.Stamp? || pc.WriteTmp? || pc.FinishTmp? || pc.Replace?
    }
  }

  /** What was committed to the metadata, by which call, and with which time: the history of the job. */
  datatype Commit = AddCommit(call: CallId, time: Time, data: Data) | FailCommit(call: CallId, time: Time)
                  | FinishCommit(call: CallId, time: Time)

  /**
    The directory, if it still exists; of each replica the lock object in its map; who holds a lock object; the process
    that owns the record lock of the lock file; the calls; the clock; the history.
   */
  datatype State = State(dir: Option<Dir>, lockMap: map<Replica, LockId>, nextLock: LockId, holder: map<LockId, CallId>,
                         owner: Option<Replica>, calls: map<CallId, Call>, clock: Time, log: seq<Commit>,
                         createdAt: Time,
                         ttl: Time)

  datatype Event =
    | Spawn(id: CallId, replica: Replica, op: Op)
    | Act(id: CallId)
    | Fault(id: CallId)
    | Tick(elapsed: nat)
    | Crash(replica: Replica)

  function NewRecord(createdAt: Time): Meta {
    Meta(Active, createdAt, None, None, 0, 0)
  }

  /** A job as create_job leaves it. */
  function Created(createdAt: Time, ttl: Time): State {
    State(Some(Dir(Full(NewRecord(createdAt)), None, map[], None)), map[], 0, map[], None, map[], createdAt, [],
          createdAt, ttl)
  }

  function LastActivity(m: Meta): Time {
    if m.updatedAt.Some? then m.updatedAt.value else m.createdAt
  }

  /** Whether the record of a sweep's listing says it is time to go. */
  predicate Expired(m: Meta, now: Time, ttl: Time) {
    match m.status
    case Completed => m.completedAt.Some? && now - m.completedAt.value > ttl
    case Active => now - LastActivity(m) > 2 * ttl
  }

  /** The record a call writes. */
  function Updated(m: Meta, op: Op, now: Time): Meta {
    match op
    case AddDocument(_) => m.(pdfCount := m.pdfCount + 1, updatedAt := Some(now))
    case RecordFailure => m.(failedCount := m.failedCount + 1, updatedAt := Some(now))
    case _ => m.(status := Completed, completedAt := Some(now))
  }

  function CommitOf(id: CallId, op: Op, now: Time): Commit {
    match op
    case AddDocument(data) => AddCommit(id, now, data)
    case RecordFailure => FailCommit(id, now)
    case _ => FinishCommit(id, now)
  }

  predicate AllFull(docs: map<nat, File<Data>>, count: nat) {
    forall i :: 0 <= i < count ==> i in docs && docs[i].Full?
  }

  // ----- The steps ----------------------------------------------------------------------------

  /** Whether a call can go on: it waits for a lock object another holds, and for a record lock another process owns. */
  predicate CanAct(s: State, c: Call) {
    match c.pc
    case Done => false
    case Acquire => c.op.Sweep? || c.lock !in s.holder
    case LockFile => c.op.Sweep? || s.owner.None? || s.owner.value == c.replica
    case Merge => s.dir.Some? && AllFull(s.dir.value.docs, c.meta.pdfCount)
    case Replace => s.dir.Some? && s.dir.value.tmp.Some?
    case _ => c.Writing() && !c.pc.Stamp? ==> s.dir.Some?
  }

  /** A file is accessed here without the lock. */
  predicate Outside(pc: Pc) {
    pc.Start? || pc.List? || pc.RemoveUnlocked? || pc.Report? || pc.Serve?
  }

  /** Any access to a file may fail, and one to a file of a directory that is gone can do nothing else. */
  predicate MayFault(c: Call) {
    (c.Writing() && !c.pc.Stamp?) || c.pc.Read? || c.pc.Measure? || c.pc.Remove? || c.pc.Open? || c.pc.LockFile?
    || Outside(c.pc)
  }

  predicate Enabled(s: State, e: Event) {
    match e
    case Spawn(id, _, _) => id !in s.calls
    case Act(id) => id in s.calls && CanAct(s, s.calls[id])
    case Fault(id) => id in s.calls && MayFault(s.calls[id])
    case Tick(_) => true
    case Crash(_) => true
  }

  function Apply(s: State, e: Event): State
    requires Enabled(s, e)
  {
    match e
    case Spawn(id, replica, op) =>
      var blank := NewRecord(s.createdAt);
      Moved(s, id, Call(replica, op, Start, false, 0, blank, blank, s.createdAt, [], Pending))
    case Act(id) => Step(s, id, s.calls[id])
    case Fault(id) => Moved(s, id, FaultCall(s.calls[id]))
    case Tick(elapsed) => s.(clock := s.clock + elapsed)
    case Crash(replica) =>
      s.(lockMap := s.lockMap - {replica},
         holder := map l | l in s.holder && !(s.holder[l] in s.calls && s.calls[s.holder[l]].replica == replica)
                   :: s.holder[l],
         owner := if s.owner == Some(replica) then None else s.owner,
         calls := map id | id in s.calls ::
           if s.calls[id].replica == replica && !s.calls[id].pc.Done? then s.calls[id].(pc := Done, out := Crashed)
           else s.calls[id])
  }

  function Moved(s: State, id: CallId, c: Call): State {
    s.(calls := s.calls[id := c])
  }

  /** The call, in another place. */
  function Goto(c: Call, pc: Pc): Call {
    c.(pc := pc)
  }

  /** Leave for the given place with an outcome. */
  function Leave(c: Call, pc: Pc, out: Outcome): Call {
    c.(pc := pc, out := out)
  }

  function FaultCall(c: Call): Call {
    var pc := if Outside(c.pc) then Done else if c.pc.Open? then Release else if c.pc.LockFile? then Close else Unlock;
    Leave(c, pc, Failed)
  }

  function Step(s: State, id: CallId, c: Call): State
    requires CanAct(s, c)
  {
    match c.pc
    case Lookup =>
      if c.replica in s.lockMap then Moved(s, id, c.(pc := Acquire, lock := s.lockMap[c.replica]))
      else Moved(s.(lockMap := s.lockMap[c.replica := s.nextLock], nextLock := s.nextLock + 1),
                 id, c.(pc := Acquire, lock := s.nextLock))
    case Acquire =>
      if c.lock in s.holder then Moved(s, id, Leave(c, Done, Skipped))
      else Moved(s.(holder := s.holder[c.lock := id]), id, Goto(c, Open))
    case LockFile =>
      if s.owner.Some? && s.owner.value != c.replica then Moved(s, id, Leave(c, Close, Skipped))
      else Moved(s.(owner := Some(c.replica)), id,
                 Goto(c, if c.op.Sweep? && c.snap.status.Completed? then Remove else Read))
    case Unlock => Moved(s.(owner := if s.owner == Some(c.replica) then None else s.owner), id, Goto(c, Close))
    case Close => Moved(s.(owner := if s.owner == Some(c.replica) then None else s.owner), id, Goto(c, Release))
    case Release =>
      Moved(s.(holder := s.holder - {c.lock}), id, Goto(c, if c.op.Finish? && c.out.Merged? then Report else Done))
    case RemoveUnlocked => Moved(s.(dir := None), id, Goto(c, PopUnlocked))
    case PopUnlocked => Moved(s.(lockMap := s.lockMap - {c.replica}), id, Leave(c, Done, Deleted))
    case Remove => Moved(s.(dir := None), id, Goto(c, Pop))
    case Pop => Moved(s.(lockMap := s.lockMap - {c.replica}), id, Leave(c, Unlock, Deleted))
    case _ =>
      if c.Writing() && !c.pc.Stamp? then WriteStep(s, id, c)
      else Moved(s, id, LookOn(c, s.dir, s.clock, s.ttl))
  }

  /** The steps that only look at the directory and the clock. */
  function LookOn(c: Call, dir: Option<Dir>, clock: Time, ttl: Time): Call {
    match c.pc
    case Start => StartCall(c, dir, clock)
    case List =>
      if dir.None? || dir.value.meta.Torn? then Leave(c, Done, Skipped)
      else Goto(c.(snap := dir.value.meta.content), Decide)
    case Decide => if Expired(c.snap, c.now, ttl) then Goto(c, Lookup) else Leave(c, Done, Skipped)
    case Exists => if dir.None? then Leave(c, Done, NotFound) else Goto(c, Lookup)
    case Open => if dir.None? then Leave(c, Release, Failed) else Goto(c, LockFile)
    case Read => ReadCall(c, dir)
    case Judge =>
      if c.meta.status.Active? && c.now - LastActivity(c.meta) > 2 * ttl then Goto(c, Remove)
      else Leave(c, Unlock, Skipped)
    case Stamp => Goto(c.(now := clock, meta := Updated(c.meta, c.op, clock)), WriteTmp)
    case Measure => if dir.None? then Leave(c, Unlock, Failed) else Goto(c, Unlock)
    case Report =>
      if dir.None? then Leave(c, Serve, Counted(0, 0))
      else if dir.value.meta.Torn? then Leave(c, Done, Failed)
      else Leave(c, Serve, Counted(dir.value.meta.content.pdfCount, dir.value.meta.content.failedCount))
    case Serve =>
      var answer := if dir.None? then None else dir.value.result;
      Leave(c, Done, if c.out.Counted? then Finished(answer, c.out.count, c.out.failed) else Failed)
    case _ => c
  }

  /** A handler looks the job up first; a finish gives up where all conversions failed, and a sweep takes the time. */
  function StartCall(c: Call, dir: Option<Dir>, clock: Time): Call {
    if c.op.Sweep? then Goto(c.(now := clock), List)
    else if dir.None? then Leave(c, Done, NotFound)
    else if dir.value.meta.Torn? then Leave(c, Done, Failed)
    else if c.op.Delete? then Goto(c, RemoveUnlocked)
    else
      var m := dir.value.meta.content;
      if c.op.Finish? && m.pdfCount == 0 && m.failedCount > 0 then Leave(c, Done, AllFailed)
      else Goto(c.(admitted := true), Exists)
  }

  /** Under the lock: read the record, and see whether there is anything to do. */
  function ReadCall(c: Call, dir: Option<Dir>): Call {
    if dir.None? then Leave(c, Unlock, if c.op.Sweep? then Skipped else NotFound)
    else if dir.value.meta.Torn? then Leave(c, Unlock, Failed)
    else
      var m := dir.value.meta.content;
      var read := c.(meta := m);
      match c.op
      case AddDocument(_) => if m.status.Active? then Goto(read, WriteDoc) else Leave(read, Unlock, NotActive)
      case RecordFailure => Goto(read, Stamp)
      case Finish =>
        if m.status.Completed? && dir.value.result.Some? then Leave(read, Unlock, Merged)
        else if m.pdfCount == 0 then Leave(read, Unlock, NoDocuments)
        else Goto(read, Merge)
      case _ => Goto(read, Judge)
  }

  /** The contents of the first documents. */
  function Contents(docs: map<nat, File<Data>>, count: nat): (r: seq<Data>)
    requires AllFull(docs, count)
    ensures |r| == count && forall i :: 0 <= i < count ==> r[i] == docs[i].content
  {
    seq(count, i requires 0 <= i < count => docs[i].content)
  }

  /** Writing a file takes two steps, in between it is torn; a replace is one, and commits. */
  function WriteStep(s: State, id: CallId, c: Call): State
    requires c.Writing() && !c.pc.Stamp? && CanAct(s, c)
  {
    Moved(s.(dir := Some(WrittenDir(s.dir.value, c)),
             log := if c.pc.Replace? then s.log + [CommitOf(id, c.op, c.now)] else s.log),
          id, WriteCall(c, s.dir.value))
  }

  function WrittenDir(dir: Dir, c: Call): Dir {
    match c.pc
    case WriteDoc => dir.(docs := dir.docs[c.meta.pdfCount := Torn])
    case FinishDoc => dir.(docs := dir.docs[c.meta.pdfCount := if c.op.AddDocument? then Full(c.op.data) else Torn])
    case WriteResult => dir.(result := Some(Torn))
    case FinishResult => dir.(result := Some(Full(c.merged)))
    case WriteTmp => dir.(tmp := Some(Torn))
    case FinishTmp => dir.(tmp := Some(Full(c.meta)))
    case Replace => if dir.tmp.Some? then dir.(meta := dir.tmp.value, tmp := None) else dir
    case _ => dir
  }

  function WriteCall(c: Call, dir: Dir): Call
    requires c.pc.Merge? ==> AllFull(dir.docs, c.meta.pdfCount)
  {
    match c.pc
    case WriteDoc => Goto(c, FinishDoc)
    case FinishDoc => Goto(c, Stamp)
    case Merge => Goto(c.(merged := Contents(dir.docs, c.meta.pdfCount)), WriteResult)
    case WriteResult => Goto(c, FinishResult)
    case FinishResult => Goto(c, Stamp)
    case WriteTmp => Goto(c, FinishTmp)
    case FinishTmp => Goto(c, Replace)
    case Replace =>
      (match c.op
       case AddDocument(_) => Leave(c, Unlock, Added(if c.meta.pdfCount > 0 then c.meta.pdfCount - 1 else 0))
       case RecordFailure => Leave(c, Unlock, Recorded)
       case _ => Leave(c, Measure, Merged))
    case _ => c
  }

  // ----- What the caller hears ----------------------------------------------------------------

  /** What a handler answers: nothing, where the call is under way or was stopped, or one of its responses. */
  datatype Answer =
    | Nothing | Accepted | ConversionFailed | NotFoundError | Conflict | BadRequest | NoContent | ServerError
    | Download(served: Option<File<seq<Data>>>, merged: nat, failed: nat)

  /**
    Of a failed conversion the caller hears that it failed, however recording it went: the handler drops what goes wrong
    in between.
   */
  function Hears(c: Call): Answer {
    if !c.pc.Done? || c.op.Sweep? then Nothing
    else if c.op.RecordFailure? && c.admitted && !c.out.Crashed? then ConversionFailed
    else match c.out
      case Added(_) => Accepted
      case Finished(answer, count, failed) => Download(answer, count, failed)
      case Deleted => NoContent
      case NotFound => NotFoundError
      case NotActive => Conflict
      case NoDocuments => BadRequest
      case AllFailed => BadRequest
      case Failed => ServerError
      case _ => Nothing
  }

  // ----- Runs ---------------------------------------------------------------------------------

  predicate RunEnabled(s: State, events: seq<Event>)
    decreases |events|
  {
    events == [] || (Enabled(s, events[0]) && RunEnabled(Apply(s, events[0]), events[1..]))
  }

  /** The state a run ends in. */
  function Run(s: State, events: seq<Event>): State
    requires RunEnabled(s, events)
    decreases |events|
  {
    if events == [] then s else Run(Apply(s, events[0]), events[1..])
  }

  /** The state after any steps of any calls, faults, crashes and passing of time. */
  ghost predicate Reachable(s: State) {
    exists createdAt, ttl, events ::
      RunEnabled(Created(createdAt, ttl), events) && s == Run(Created(createdAt, ttl), events)
  }
}
