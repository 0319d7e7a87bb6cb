/** What the callers of a job store hear, and what became of their documents and failures. */
module JobAnswers {
  import opened Wrappers
  import opened JobStore
  import opened JobLocks
  import opened JobHistory
  import opened JobData
  import opened JobSafety
  import opened JobLaw

  /**
    Of a document a caller hears that it was accepted if and only if it was added, unless the call was stopped; and
    whatever else a caller hears, nothing was added.
   */
  lemma AcceptedIffAdded(s: State, id: CallId)
    requires Reachable(s) && id in s.calls && s.calls[id].pc.Done? && !s.calls[id].out.Crashed?
    ensures Hears(s.calls[id]) == Accepted <==> id in AddCalls(s.log)
  {
    ReachableInv(s);
    OutcomesAreTrue(s, id);
    CallsFitOps(s.log, s.calls);
  }

  // ----- Failed conversions -------------------------------------------------------------------

  /** Recording a failure looks for the directory of the job here. */
  predicate NeedsJob(pc: Pc) {
    pc.Exists? || pc.Open? || pc.Read?
  }

  /** An event that does the call no harm: no access of it fails, and where it looks for the job, the job is there. */
  predicate Calm(s: State, e: Event, id: CallId) {
    e != Fault(id) && (e == Act(id) && id in s.calls && NeedsJob(s.calls[id].pc) ==> s.dir.Some?)
  }

  predicate Undisturbed(s: State, events: seq<Event>, id: CallId)
    requires RunEnabled(s, events)
    decreases |events|
  {
    events == [] || (Calm(s, events[0], id) && Undisturbed(Apply(s, events[0]), events[1..], id))
  }

  /** The step of a call that records a failure. */
  ghost predicate FailureMove(c: Call, d: Call, calm: bool) {
    d.op == c.op
    && if Leaving(c.pc) then calm && Leaving(d.pc) && d.out == c.out && d.admitted == c.admitted
       else if !Leaving(d.pc) then calm
       else d.admitted ==> (d.out.Recorded? <==> calm)
  }

  lemma FailureLooks(id: CallId, c: Call, dir: Option<Dir>, createdAt: Time, log: seq<Commit>, clock: Time, ttl: Time)
    requires c.op.RecordFailure? && Looks(c) && !c.pc.Done? && Typed(c) && Files(dir, createdAt, log)
    ensures FailureMove(c, LookOn(c, dir, clock, ttl), NeedsJob(c.pc) ==> dir.Some?)
  {
  }

  lemma FailureWrites(c: Call, dir: Dir)
    requires c.op.RecordFailure? && c.Writing() && !c.pc.Stamp? && Typed(c)
    ensures FailureMove(c, WriteCall(c, dir), true)
  {
  }

  lemma FailureLocks(c: Call, d: Call)
    requires c.op.RecordFailure? && LockMove(c, d) && Typed(c)
    ensures FailureMove(c, d, true)
  {
  }

  lemma FailureActs(s: State, id: CallId)
    requires Inv(s) && id in s.calls && s.calls[id].op.RecordFailure? && CanAct(s, s.calls[id])
    ensures id in Step(s, id, s.calls[id]).calls
    ensures FailureMove(s.calls[id], Step(s, id, s.calls[id]).calls[id], Calm(s, Act(id), id))
  {
    var c := s.calls[id];
    assert CallHolds(s, id);
    StepCall(s, id);
    if Looks(c) {
      FailureLooks(id, c, s.dir, s.createdAt, s.log, s.clock, s.ttl);
    } else if c.Writing() {
      FailureWrites(c, s.dir.value);
    } else {
      LockMovesCall(s, id);
      FailureLocks(c, Step(s, id, c).calls[id]);
    }
  }

  lemma FailureFaults(c: Call)
    requires c.op.RecordFailure? && MayFault(c) && Typed(c)
    ensures FailureMove(c, FaultCall(c), false)
  {
  }

  /** An event leaves the call where it is, stops it, or is a step of it. */
  lemma FailureEvent(s: State, e: Event, id: CallId)
    requires Inv(s) && Enabled(s, e) && id in s.calls && s.calls[id].op.RecordFailure?
    ensures id in Apply(s, e).calls
    ensures var c, d := s.calls[id], Apply(s, e).calls[id];
      (d == c && Calm(s, e, id)) || (d.pc.Done? && d.out.Crashed?) || FailureMove(c, d, Calm(s, e, id))
  {
    assert CallHolds(s, id);
    if e == Act(id) {
      FailureActs(s, id);
    } else if e == Fault(id) {
      FailureFaults(s.calls[id]);
    } else if e.Act? {
      StepMovesOne(s, e.id);
    }
  }

  lemma {:induction false} StoppedStays(s: State, events: seq<Event>, id: CallId)
    requires RunEnabled(s, events) && id in s.calls && s.calls[id].pc.Done?
    ensures id in Run(s, events).calls && Run(s, events).calls[id] == s.calls[id]
    decreases |events|
  {
    if events != [] {
      if events[0].Act? {
        StepMovesOne(s, events[0].id);
      }
      StoppedStays(Apply(s, events[0]), events[1..], id);
    }
  }

  /** What the call records in the rest of a run whose end is known. */
  ghost predicate RecordsFrom(c: Call, final: Call, undisturbed: bool) {
    if Leaving(c.pc) then final.out == c.out && undisturbed else final.out.Recorded? <==> undisturbed
  }

  lemma RecordedStep(c: Call, d: Call, calm: bool, final: Call, undisturbed: bool)
    requires (d == c && calm) || (d.pc.Done? && d.out.Crashed?) || FailureMove(c, d, calm)
    requires d.op.RecordFailure? && Hears(final) == ConversionFailed && RecordsFrom(d, final, undisturbed)
    requires d.pc.Done? ==> final == d
    requires !d.admitted ==> d.pc.Start? || d.pc.Done?
    ensures RecordsFrom(c, final, calm && undisturbed)
  {
  }

  /** From any state on: what a call that is answered so has recorded. */
  lemma {:induction false} RecordedFrom(s: State, events: seq<Event>, id: CallId)
    requires Inv(s) && RunEnabled(s, events) && id in Run(s, events).calls
    requires Run(s, events).calls[id].op.RecordFailure? && Hears(Run(s, events).calls[id]) == ConversionFailed
    ensures id in s.calls ==> s.calls[id].op.RecordFailure?
    ensures var final := Run(s, events).calls[id];
      if id in s.calls then RecordsFrom(s.calls[id], final, Undisturbed(s, events, id))
      else final.out.Recorded? <==> Undisturbed(s, events, id)
    decreases |events|
  {
    if events != [] {
      var e, t := events[0], Apply(s, events[0]);
      var final := Run(s, events).calls[id];
      InvKept(s, e);
      RecordedFrom(t, events[1..], id);
      if id in s.calls {
        OpStays(s, e, id);
        assert CallHolds(t, id);
        if t.calls[id].pc.Done? {
          StoppedStays(t, events[1..], id);
        }
        FailureEvent(s, e, id);
        RecordedStep(s.calls[id], t.calls[id], Calm(s, e, id), final, Undisturbed(t, events[1..], id));
      } else if id in t.calls {
        OnlySpawnsAdd(s, e, id);
      }
    }
  }

  lemma OpStays(s: State, e: Event, id: CallId)
    requires Enabled(s, e) && id in s.calls
    ensures id in Apply(s, e).calls && Apply(s, e).calls[id].op == s.calls[id].op
  {
    if e.Act? {
      StepMovesOne(s, e.id);
    }
  }

  lemma OnlySpawnsAdd(s: State, e: Event, id: CallId)
    requires Enabled(s, e) && id !in s.calls && id in Apply(s, e).calls
    ensures e.Spawn? && e.id == id && Apply(s, e).calls[id].pc.Start?
  {
    if e.Act? {
      StepMovesOne(s, e.id);
    }
  }

  /**
    A failed conversion is counted exactly if recording it was not disturbed: in a run from the creation of the job, a
    call whose caller hears that the conversion failed has recorded that failure if and only if no access of it to a
    file failed, and the job was there wherever it looked for it.
   */
  lemma FailedIsCountedIff(createdAt: Time, ttl: Time, events: seq<Event>, id: CallId)
    requires RunEnabled(Created(createdAt, ttl), events)
    requires var t := Run(Created(createdAt, ttl), events);
      id in t.calls && t.calls[id].op.RecordFailure? && Hears(t.calls[id]) == ConversionFailed
    ensures id in FailCalls(Run(Created(createdAt, ttl), events).log)
       <==> Undisturbed(Created(createdAt, ttl), events, id)
  {
    var s := Created(createdAt, ttl);
    var t := Run(s, events);
    RecordedFrom(s, events, id);
    assert Reachable(t);
    OutcomesAreTrue(t, id);
  }

  lemma {:induction false} UndisturbedWhileJobStands(s: State, events: seq<Event>, id: CallId)
    requires Inv(s) && RunEnabled(s, events) && Run(s, events).dir.Some? && Fault(id) !in events
    ensures Undisturbed(s, events, id)
    decreases |events|
  {
    if events != [] {
      InvKept(s, events[0]);
      RunGrows(s, events);
      assert events[0] in events;
      UndisturbedWhileJobStands(Apply(s, events[0]), events[1..], id);
    }
  }

  /** So it is counted while the job is there, if no access to its files failed. */
  lemma FailedIsCountedWhileJobStands(createdAt: Time, ttl: Time, events: seq<Event>, id: CallId)
    requires RunEnabled(Created(createdAt, ttl), events) && Fault(id) !in events
    requires var t := Run(Created(createdAt, ttl), events);
      t.dir.Some? && id in t.calls && t.calls[id].op.RecordFailure? && Hears(t.calls[id]) == ConversionFailed
    ensures id in FailCalls(Run(Created(createdAt, ttl), events).log)
  {
    UndisturbedWhileJobStands(Created(createdAt, ttl), events, id);
    FailedIsCountedIff(createdAt, ttl, events, id);
  }

  lemma RunFirst(s: State, e: Event, events: seq<Event>)
    requires Enabled(s, e) && RunEnabled(Apply(s, e), events)
    ensures RunEnabled(s, [e] + events) && Run(s, [e] + events) == Run(Apply(s, e), events)
  {
    assert ([e] + events)[1..] == events;
  }

  /**
    It is not always: a delete between the handler's look at the job and the recording of the failure leaves the failure
    out, and the caller hears that the conversion failed all the same.
   */
  lemma FailedIsNotAlwaysCounted() returns (events: seq<Event>)
    ensures RunEnabled(Created(0, 0), events)
    ensures var t := Run(Created(0, 0), events);
      0 in t.calls && t.calls[0].op.RecordFailure? && Hears(t.calls[0]) == ConversionFailed && 0 !in FailCalls(t.log)
  {
    FoundFirst();
    var s3 := Apply(Apply(Apply(Created(0, 0), Spawn(0, 0, RecordFailure)), Act(0)), Spawn(1, 0, Delete));
    DeletedBetween(s3);
    events := SixEvents(Created(0, 0), Spawn(0, 0, RecordFailure), Act(0), Spawn(1, 0, Delete), Act(1), Act(1), Act(0));
  }

  /** The handler of the first call has found the job, and a delete has come in. */
  ghost predicate FoundAndDelete(s: State) {
    s.dir.Some? && s.dir.value.meta.Full? && s.log == [] && 0 in s.calls && 1 in s.calls
    && s.calls[0].pc.Exists? && s.calls[0].admitted && s.calls[0].op.RecordFailure?
    && s.calls[1].pc.Start? && s.calls[1].op.Delete?
  }

  lemma FoundFirst()
    ensures var s0 := Created(0, 0);
      Enabled(s0, Spawn(0, 0, RecordFailure))
      && var s1 := Apply(s0, Spawn(0, 0, RecordFailure));
         Enabled(s1, Act(0))
         && var s2 := Apply(s1, Act(0));
            Enabled(s2, Spawn(1, 0, Delete)) && FoundAndDelete(Apply(s2, Spawn(1, 0, Delete)))
  {
    var s1 := Apply(Created(0, 0), Spawn(0, 0, RecordFailure));
    assert s1.calls[0].pc.Start? && s1.dir.Some? && s1.dir.value.meta.Full? && s1.log == [] && s1.calls.Keys == {0};
    var s2 := Apply(s1, Act(0));
    assert s2.calls[0].pc.Exists? && s2.calls[0].admitted && s2.calls.Keys == {0} && s2.dir == s1.dir && s2.log == [];
  }

  lemma DeletedBetween(s: State)
    requires FoundAndDelete(s)
    ensures Enabled(s, Act(1)) && Enabled(Apply(s, Act(1)), Act(1)) && Enabled(Apply(Apply(s, Act(1)), Act(1)), Act(0))
    ensures var t := Apply(Apply(Apply(s, Act(1)), Act(1)), Act(0));
      0 in t.calls && t.calls[0].op.RecordFailure? && Hears(t.calls[0]) == ConversionFailed && t.log == []
  {
    var s4 := Apply(s, Act(1));
    assert s4.calls[1].pc.RemoveUnlocked? && s4.calls[0] == s.calls[0] && s4.log == [];
    var s5 := Apply(s4, Act(1));
    assert s5.dir.None? && s5.calls[0] == s.calls[0] && s5.log == [];
    var s6 := Apply(s5, Act(0));
    assert s6.calls[0] == Leave(s.calls[0], Done, NotFound);
  }

  lemma SixEvents(s: State, a: Event, b: Event, c: Event, d: Event, e: Event, f: Event) returns (events: seq<Event>)
    requires Enabled(s, a) && Enabled(Apply(s, a), b) && Enabled(Apply(Apply(s, a), b), c)
    requires var t := Apply(Apply(Apply(s, a), b), c);
      Enabled(t, d) && Enabled(Apply(t, d), e) && Enabled(Apply(Apply(t, d), e), f)
    ensures RunEnabled(s, events)
    ensures Run(s, events) == Apply(Apply(Apply(Apply(Apply(Apply(s, a), b), c), d), e), f)
  {
    var t := Apply(Apply(Apply(s, a), b), c);
    var last := ThreeEvents(t, d, e, f);
    var first := ThreeEvents(s, a, b, c);
    RunOn(s, first, last);
    events := first + last;
  }

  lemma ThreeEvents(s: State, a: Event, b: Event, c: Event) returns (events: seq<Event>)
    requires Enabled(s, a) && Enabled(Apply(s, a), b) && Enabled(Apply(Apply(s, a), b), c)
    ensures RunEnabled(s, events) && Run(s, events) == Apply(Apply(Apply(s, a), b), c)
  {
    var t := Apply(Apply(s, a), b);
    assert RunEnabled(Apply(t, c), []) && Run(Apply(t, c), []) == Apply(t, c);
    RunFirst(t, c, []);
    RunFirst(Apply(s, a), b, [c] + []);
    RunFirst(s, a, [b] + ([c] + []));
    events := [a] + ([b] + ([c] + []));
  }
}
