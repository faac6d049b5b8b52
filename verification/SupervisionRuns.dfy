/** What undisturbed calls of `status` and `stop`, and undisturbed gateways, do: whole runs
  * from their first step to their last, with the state they leave. */
module SupervisionRuns {
  import opened Options
  import opened Supervision

  // ---------------------------------------------------------------- runs of one supervisor

  function By(t: Tid, ls: seq<SupervisorStep>): seq<Step> {
    if ls == [] then [] else [OfSupervisor(t, ls[0])] + By(t, ls[1..])
  }

  /** Supervisor `t` can take these steps, nobody else taking any, and then the state is `s'`. */
  ghost predicate Goes(c: Config, s: State, t: Tid, ls: seq<SupervisorStep>, s': State) {
    Legal(c, s, By(t, ls)) && Run(c, s, By(t, ls)) == s'
  }

  function At(s: State, t: Tid, v: Supervisor): State {
    s.(supervisors := s.supervisors[t := v])
  }

  lemma {:induction false} ByJoin(t: Tid, a: seq<SupervisorStep>, b: seq<SupervisorStep>)
    ensures By(t, a + b) == By(t, a) + By(t, b)
  {
    if a == [] {
      assert a + b == b;
    } else {
      assert (a + b)[1..] == a[1..] + b;
      ByJoin(t, a[1..], b);
    }
  }

  lemma {:induction false} RunJoin(c: Config, s: State, a: seq<Step>, b: seq<Step>)
    requires Legal(c, s, a) && Legal(c, Run(c, s, a), b)
    ensures Legal(c, s, a + b) && Run(c, s, a + b) == Run(c, Run(c, s, a), b)
    decreases |a|
  {
    if a == [] {
      assert a + b == b;
    } else {
      assert (a + b)[1..] == a[1..] + b;
      RunJoin(c, Apply(c, s, a[0]), a[1..], b);
    }
  }

  lemma {:induction false} GoesOn(
    c: Config, s: State, t: Tid, a: seq<SupervisorStep>, s1: State, b: seq<SupervisorStep>, s2: State)
    requires Goes(c, s, t, a, s1) && Goes(c, s1, t, b, s2)
    ensures Goes(c, s, t, a + b, s2)
  {
    ByJoin(t, a, b);
    RunJoin(c, s, By(t, a), By(t, b));
  }

  lemma {:induction false} GoesOne(c: Config, s: State, t: Tid, l: SupervisorStep)
    requires SupervisorEnabled(c, s, t, l)
    ensures Goes(c, s, t, [l], SupervisorApply(c, s, t, l))
  {
    assert [l][1..] == [] && By(t, []) == [];
    assert By(t, [l]) == [OfSupervisor(t, l)];
    assert [OfSupervisor(t, l)][1..] == [];
    assert Legal(c, SupervisorApply(c, s, t, l), []);
  }

  lemma {:induction false} Twice(s: State, t: Tid, v: Supervisor, w: Supervisor)
    ensures At(At(s, t, v), t, w) == At(s, t, w)
  {
    assert s.supervisors[t := v][t := w] == s.supervisors[t := w];
  }

  /** A step that touches nothing but the supervisor's own control, which it takes from `v` to `w`. */
  ghost predicate Moves1(c: Config, s: State, t: Tid, v: Supervisor, l: SupervisorStep, w: Supervisor) {
    SupervisorEnabled(c, At(s, t, v), t, l) && SupervisorApply(c, At(s, t, v), t, l) == At(s, t, w)
  }

  /** The steps `ls` take the supervisor along `vs`. */
  lemma {:induction false} Along(c: Config, s: State, t: Tid, vs: seq<Supervisor>, ls: seq<SupervisorStep>)
    requires |vs| == |ls| + 1
    requires forall k :: 0 <= k < |ls| ==> Moves1(c, s, t, vs[k], ls[k], vs[k + 1])
    ensures Goes(c, At(s, t, vs[0]), t, ls, At(s, t, vs[|ls|]))
  {
    if ls == [] {
      assert By(t, ls) == [];
    } else {
      forall k | 0 <= k < |ls[1..]| ensures Moves1(c, s, t, vs[1..][k], ls[1..][k], vs[1..][k + 1]) {
        assert Moves1(c, s, t, vs[k + 1], ls[k + 1], vs[k + 2]);
      }
      Along(c, s, t, vs[1..], ls[1..]);
      assert Moves1(c, s, t, vs[0], ls[0], vs[1]);
      GoesOne(c, At(s, t, vs[0]), t, ls[0]);
      GoesOn(c, At(s, t, vs[0]), t, [ls[0]], At(s, t, vs[1]), ls[1..], At(s, t, vs[|ls|]));
      assert [ls[0]] + ls[1..] == ls;
    }
  }

  // ---------------------------------------------------------------- clearing

  /** The steps of a clear: with its own record on disk it goes on to unlink, unless both
    * are one step. */
  function ClearSteps(c: Config, s: State, whom: Id, fault: bool, ok: bool): seq<SupervisorStep> {
    if !fault && Names(s.file, whom) && !c.atomicClear then [ClearRead(fault), ClearUnlink(ok)] else [ClearRead(fault)]
  }

  /** The file after a clear: gone if it named `whom` and neither the read nor the unlink
    * failed, and otherwise as it was. */
  function FileCleared(c: Config, s: State, whom: Id, fault: bool, ok: bool): RuntimeFile {
    if !fault && Names(s.file, whom) && (c.atomicClear || ok) then Absent else s.file
  }

  /** How a call goes on after a clear. */
  function AfterClear(why: Why): Supervisor {
    match why
    case Stale(Report) => Idle(Some(Said(StaleCleaned)))
    case Stale(StopEntry) => Idle(Some(Said(StaleCleaned)))
    case Stale(StopFinal(target)) => Clearing(Final(StaleCleaned), target.instance)
    case _ => Idle(Some(Stopped))
  }

  lemma {:induction false} ClearGoes(c: Config, s: State, t: Tid, why: Why, whom: Id, fault: bool, ok: bool)
    ensures Goes(c, At(s, t, Clearing(why, whom)), t, ClearSteps(c, s, whom, fault, ok),
                 At(s, t, AfterClear(why)).(file := FileCleared(c, s, whom, fault, ok)))
  {
    var start, n := At(s, t, Clearing(why, whom)), |s.publishes|;
    GoesOne(c, start, t, ClearRead(fault));
    if !fault && Names(s.file, whom) && !c.atomicClear {
      Twice(s, t, Clearing(why, whom), Unlinking(why, whom, n));
      GoesOne(c, At(s, t, Unlinking(why, whom, n)), t, ClearUnlink(ok));
      GoesOn(c, start, t, [ClearRead(fault)], At(s, t, Unlinking(why, whom, n)), [ClearUnlink(ok)],
             SupervisorApply(c, At(s, t, Unlinking(why, whom, n)), t, ClearUnlink(ok)));
      Twice(s, t, Unlinking(why, whom, n), AfterClear(why));
      assert [ClearRead(fault)] + [ClearUnlink(ok)] == [ClearRead(fault), ClearUnlink(ok)];
    } else {
      Twice(s, t, Clearing(why, whom), AfterClear(why));
    }
  }

  /** A clear removes the record it is about: taken without a failing read or unlink, and
    * without another step in between, it leaves a file that does not name `whom` - none at
    * all, or the one that named somebody else before. */
  lemma {:induction false} ClearTakesEffect(c: Config, s: State, t: Tid) returns (es: seq<Step>)
    requires t in s.supervisors && s.supervisors[t].Clearing?
    ensures es == By(t, ClearSteps(c, s, s.supervisors[t].whom, false, true)) && Legal(c, s, es)
    ensures Run(c, s, es).file ==
      if s.file.Holds? && s.file.record.instance == s.supervisors[t].whom then Absent else s.file
  {
    var v := s.supervisors[t];
    es := By(t, ClearSteps(c, s, v.whom, false, true));
    assert At(s, t, v) == s by { assert s.supervisors[t := v] == s.supervisors; }
    ClearGoes(c, s, t, v.why, v.whom, false, true);
  }

  // ---------------------------------------------------------------- one status call

  /** The record on disk and the answer at its port. */
  ghost predicate Reaches(c: Config, s: State, rec: Record, a: Answer) {
    s.file == Holds(rec) && CanAnswer(c, s, rec.port, a)
  }

  function Asker(stop: bool): Goal {
    if stop then StopEntry else Report
  }

  lemma {:induction false} Begins(c: Config, s: State, t: Tid, v: Supervisor, stop: bool)
    requires v.Idle?
    ensures Moves1(c, s, t, v, Begin(stop), Reading(Asker(stop)))
  {
    Twice(s, t, v, Reading(Asker(stop)));
  }

  lemma {:induction false} ReadTells(c: Config, s: State, t: Tid, goal: Goal, fault: bool)
    requires !s.file.Holds? || fault
    ensures Moves1(c, s, t, Reading(goal), Read(fault), StatusDone(goal, if s.file.Absent? then NotStarted else Corrupt))
  {
    Twice(s, t, Reading(goal), StatusDone(goal, if s.file.Absent? then NotStarted else Corrupt));
  }

  lemma {:induction false} ReadGoesOn(c: Config, s: State, t: Tid, goal: Goal, rec: Record)
    requires s.file == Holds(rec)
    ensures Moves1(c, s, t, Reading(goal), Read(false), Probing(goal, rec))
  {
    Twice(s, t, Reading(goal), Probing(goal, rec));
  }

  lemma {:induction false} ProbeTells(c: Config, s: State, t: Tid, goal: Goal, rec: Record, a: Answer)
    requires CanAnswer(c, s, rec.port, a) && !a.Silent?
    ensures Moves1(c, s, t, Probing(goal, rec), Probe(a),
                   StatusDone(goal, if a == Ok(rec.instance) then Running else ForeignOwner))
  {
    Twice(s, t, Probing(goal, rec), StatusDone(goal, if a == Ok(rec.instance) then Running else ForeignOwner));
    assert CanAnswer(c, At(s, t, Probing(goal, rec)), rec.port, a);
  }

  lemma {:induction false} ProbeGoesOn(c: Config, s: State, t: Tid, goal: Goal, rec: Record)
    ensures Moves1(c, s, t, Probing(goal, rec), Probe(Silent), BindTesting(goal, rec))
  {
    Twice(s, t, Probing(goal, rec), BindTesting(goal, rec));
  }

  lemma {:induction false} TestTells(c: Config, s: State, t: Tid, goal: Goal, rec: Record, held: bool)
    requires CanTest(s, rec.port, held)
    ensures Moves1(c, s, t, BindTesting(goal, rec), BindTest(held),
                   if held then StatusDone(goal, Unresponsive) else Clearing(Stale(goal), rec.instance))
  {
    Twice(s, t, BindTesting(goal, rec), if held then StatusDone(goal, Unresponsive) else Clearing(Stale(goal), rec.instance));
  }

  /** `status` and `stop` with no record, or one they cannot read, say so and do nothing. */
  lemma {:induction false} WithoutARecord(c: Config, s: State, t: Tid, v: Supervisor, stop: bool, fault: bool)
    requires v.Idle? && (!s.file.Holds? || fault)
    ensures Goes(c, At(s, t, v), t, [Begin(stop), Read(fault)],
                 At(s, t, Idle(Some(Said(if s.file.Absent? then NotStarted else Corrupt)))))
  {
    Begins(c, s, t, v, stop);
    ReadTells(c, s, t, Asker(stop), fault);
    Along(c, s, t, [v, Reading(Asker(stop)), Idle(Some(Said(if s.file.Absent? then NotStarted else Corrupt)))],
          [Begin(stop), Read(fault)]);
  }

  /** With the recorded instance answering, `status` says so and `stop` goes on to stop it. */
  lemma {:induction false} WithItAnswering(c: Config, s: State, t: Tid, v: Supervisor, stop: bool, rec: Record)
    requires v.Idle? && Reaches(c, s, rec, Ok(rec.instance))
    ensures Goes(c, At(s, t, v), t, [Begin(stop), Read(false), Probe(Ok(rec.instance))],
                 At(s, t, if stop then StopReading else Idle(Some(Said(Running)))))
  {
    Begins(c, s, t, v, stop);
    ReadGoesOn(c, s, t, Asker(stop), rec);
    ProbeTells(c, s, t, Asker(stop), rec, Ok(rec.instance));
    Along(c, s, t, [v, Reading(Asker(stop)), Probing(Asker(stop), rec), if stop then StopReading else Idle(Some(Said(Running)))],
          [Begin(stop), Read(false), Probe(Ok(rec.instance))]);
  }

  /** With somebody else answering at the recorded port, `status` says so and `stop` refuses. */
  lemma {:induction false} WithAnotherAnswering(
    c: Config, s: State, t: Tid, v: Supervisor, stop: bool, rec: Record, a: Answer)
    requires v.Idle? && Reaches(c, s, rec, a) && !a.Silent? && a != Ok(rec.instance)
    ensures Goes(c, At(s, t, v), t, [Begin(stop), Read(false), Probe(a)],
                 At(s, t, Idle(Some(if stop then Refused(ForeignOwner) else Said(ForeignOwner)))))
  {
    Begins(c, s, t, v, stop);
    ReadGoesOn(c, s, t, Asker(stop), rec);
    ProbeTells(c, s, t, Asker(stop), rec, a);
    Along(c, s, t, [v, Reading(Asker(stop)), Probing(Asker(stop), rec),
                    Idle(Some(if stop then Refused(ForeignOwner) else Said(ForeignOwner)))],
          [Begin(stop), Read(false), Probe(a)]);
  }

  /** With nobody answering and the port held, `status` says so, `stop` refuses, and the
    * record stays. */
  lemma {:induction false} WithNobodyAnswering(c: Config, s: State, t: Tid, v: Supervisor, stop: bool, rec: Record)
    requires v.Idle? && s.file == Holds(rec)
    ensures Goes(c, At(s, t, v), t, [Begin(stop), Read(false), Probe(Silent), BindTest(true)],
                 At(s, t, Idle(Some(if stop then Refused(Unresponsive) else Said(Unresponsive)))))
  {
    Begins(c, s, t, v, stop);
    ReadGoesOn(c, s, t, Asker(stop), rec);
    ProbeGoesOn(c, s, t, Asker(stop), rec);
    TestTells(c, s, t, Asker(stop), rec, true);
    Along(c, s, t, [v, Reading(Asker(stop)), Probing(Asker(stop), rec), BindTesting(Asker(stop), rec),
                    Idle(Some(if stop then Refused(Unresponsive) else Said(Unresponsive)))],
          [Begin(stop), Read(false), Probe(Silent), BindTest(true)]);
  }

  lemma {:induction false} FindsItDead(c: Config, s: State, t: Tid, goal: Goal, rec: Record)
    requires s.file == Holds(rec) && rec.port !in s.holders
    ensures Goes(c, At(s, t, Reading(goal)), t, [Read(false), Probe(Silent), BindTest(false)],
                 At(s, t, Clearing(Stale(goal), rec.instance)))
  {
    ReadGoesOn(c, s, t, goal, rec);
    ProbeGoesOn(c, s, t, goal, rec);
    TestTells(c, s, t, goal, rec, false);
    Along(c, s, t, [Reading(goal), Probing(goal, rec), BindTesting(goal, rec), Clearing(Stale(goal), rec.instance)],
          [Read(false), Probe(Silent), BindTest(false)]);
  }

  /** On a dead, free port `status` and `stop` both clear the stale record away: the file is
    * gone unless the read or the unlink of the clear failed. */
  lemma {:induction false} OnADeadPort(
    c: Config, s: State, t: Tid, v: Supervisor, stop: bool, rec: Record, fault: bool, ok: bool)
    requires v.Idle? && s.file == Holds(rec) && rec.port !in s.holders
    ensures Goes(c, At(s, t, v), t,
                 [Begin(stop)] + [Read(false), Probe(Silent), BindTest(false)] + ClearSteps(c, s, rec.instance, fault, ok),
                 At(s, t, Idle(Some(Said(StaleCleaned)))).(file := FileCleared(c, s, rec.instance, fault, ok)))
  {
    var goal := Asker(stop);
    Begins(c, s, t, v, stop);
    Along(c, s, t, [v, Reading(goal)], [Begin(stop)]);
    FindsItDead(c, s, t, goal, rec);
    ClearGoes(c, s, t, Stale(goal), rec.instance, fault, ok);
    var clearing := At(s, t, Clearing(Stale(goal), rec.instance));
    GoesOn(c, At(s, t, v), t, [Begin(stop)], At(s, t, Reading(goal)), [Read(false), Probe(Silent), BindTest(false)], clearing);
    GoesOn(c, At(s, t, v), t, [Begin(stop)] + [Read(false), Probe(Silent), BindTest(false)], clearing,
           ClearSteps(c, s, rec.instance, fault, ok),
           At(s, t, Idle(Some(Said(StaleCleaned)))).(file := FileCleared(c, s, rec.instance, fault, ok)));
  }

  // ---------------------------------------------------------------- stopping

  /** Past the first status, `stop` reads the record again: gone, it asks `status` once more;
    * unreadable, it raises; and otherwise it asks the gateway to shut down, and waits for that
    * only if the request was accepted. */
  lemma {:induction false} StopReads(c: Config, s: State, t: Tid, fault: bool)
    ensures s.file.Absent? ==>
      Goes(c, At(s, t, StopReading), t, [Read(fault), Read(fault)], At(s, t, Idle(Some(Said(NotStarted)))))
    ensures !s.file.Absent? && (fault || s.file.Unreadable?) ==>
      Goes(c, At(s, t, StopReading), t, [Read(fault)], At(s, t, Idle(Some(ReadRaised))))
  {
    if s.file.Absent? {
      Twice(s, t, StopReading, Reading(Report));
      ReadTells(c, s, t, Report, fault);
      assert Moves1(c, s, t, StopReading, Read(fault), Reading(Report));
      Along(c, s, t, [StopReading, Reading(Report), Idle(Some(Said(NotStarted)))], [Read(fault), Read(fault)]);
    } else if fault || s.file.Unreadable? {
      Twice(s, t, StopReading, Idle(Some(ReadRaised)));
      Along(c, s, t, [StopReading, Idle(Some(ReadRaised))], [Read(fault)]);
    }
  }

  lemma {:induction false} StopAsks(c: Config, s: State, t: Tid, rec: Record, accepted: bool)
    requires s.file == Holds(rec)
    ensures Goes(c, At(s, t, StopReading), t, [Read(false), AskAdmin(accepted)],
                 At(s, t, GoneReading(rec, if accepted then AfterAdmin else LoopTop(false))))
  {
    var next := GoneReading(rec, if accepted then AfterAdmin else LoopTop(false));
    Twice(s, t, StopReading, AdminRequest(rec));
    Twice(s, t, AdminRequest(rec), next);
    assert Moves1(c, s, t, StopReading, Read(false), AdminRequest(rec));
    assert Moves1(c, s, t, AdminRequest(rec), AskAdmin(accepted), next);
    Along(c, s, t, [StopReading, AdminRequest(rec), next], [Read(false), AskAdmin(accepted)]);
  }

  lemma {:induction false} GoneReads(c: Config, s: State, t: Tid, rec: Record, place: Place, fault: bool)
    ensures Moves1(c, s, t, GoneReading(rec, place), GoneRead(fault),
      if s.file.Absent? then Clearing(Guarded(RecordMoved), rec.instance)
      else if fault || s.file.Unreadable? then Clearing(Guarded(ReadFailed), rec.instance)
      else if !Names(s.file, rec.instance) then Clearing(Guarded(RecordMoved), rec.instance)
      else GoneTesting(rec, place))
  {
    var w := if s.file.Absent? then Clearing(Guarded(RecordMoved), rec.instance)
      else if fault || s.file.Unreadable? then Clearing(Guarded(ReadFailed), rec.instance)
      else if !Names(s.file, rec.instance) then Clearing(Guarded(RecordMoved), rec.instance)
      else GoneTesting(rec, place);
    Twice(s, t, GoneReading(rec, place), w);
  }

  lemma {:induction false} FinishClears(c: Config, s: State, t: Tid, v: Supervisor, a: seq<SupervisorStep>, why: Why, whom: Id)
    requires Goes(c, At(s, t, v), t, a, At(s, t, Clearing(why, whom))) && !why.Stale?
    ensures Goes(c, At(s, t, v), t, a + ClearSteps(c, s, whom, false, true),
                 At(s, t, Idle(Some(Stopped))).(file := FileCleared(c, s, whom, false, true)))
  {
    ClearGoes(c, s, t, why, whom, false, true);
    GoesOn(c, At(s, t, v), t, a, At(s, t, Clearing(why, whom)), ClearSteps(c, s, whom, false, true),
           At(s, t, Idle(Some(Stopped))).(file := FileCleared(c, s, whom, false, true)));
  }

  /** The three guarded returns of `stop`, at every place where it checks the instance: a
    * record that went away or names somebody else is left as it is, */
  lemma {:induction false} ReturnsRecordMoved(c: Config, s: State, t: Tid, rec: Record, place: Place)
    requires !Names(s.file, rec.instance) && !s.file.Unreadable?
    ensures Goes(c, At(s, t, GoneReading(rec, place)), t, [GoneRead(false), ClearRead(false)], At(s, t, Idle(Some(Stopped))))
  {
    GoneReads(c, s, t, rec, place, false);
    Along(c, s, t, [GoneReading(rec, place), Clearing(Guarded(RecordMoved), rec.instance)], [GoneRead(false)]);
    FinishClears(c, s, t, GoneReading(rec, place), [GoneRead(false)], Guarded(RecordMoved), rec.instance);
    assert [GoneRead(false)] + [ClearRead(false)] == [GoneRead(false), ClearRead(false)];
  }

  /** a record whose instance has let go of its port is cleared away, */
  lemma {:induction false} ReturnsPortFree(c: Config, s: State, t: Tid, rec: Record, place: Place, again: bool)
    requires Names(s.file, rec.instance) && rec.port !in s.holders
    ensures Goes(c, At(s, t, GoneReading(rec, place)), t,
                 [GoneRead(false), GoneTest(false, again)] + ClearSteps(c, s, rec.instance, false, true),
                 At(s, t, Idle(Some(Stopped))).(file := Absent))
  {
    GoneReads(c, s, t, rec, place, false);
    Twice(s, t, GoneTesting(rec, place), Clearing(Guarded(PortFree), rec.instance));
    assert Moves1(c, s, t, GoneTesting(rec, place), GoneTest(false, again), Clearing(Guarded(PortFree), rec.instance));
    Along(c, s, t, [GoneReading(rec, place), GoneTesting(rec, place), Clearing(Guarded(PortFree), rec.instance)],
          [GoneRead(false), GoneTest(false, again)]);
    FinishClears(c, s, t, GoneReading(rec, place), [GoneRead(false), GoneTest(false, again)], Guarded(PortFree), rec.instance);
  }

  /** and one that could not be read is cleared away too if the next read works and it is
    * the one. */
  lemma {:induction false} ReturnsReadFailed(c: Config, s: State, t: Tid, rec: Record, place: Place, fault: bool)
    requires !s.file.Absent? && (fault || s.file.Unreadable?)
    ensures Goes(c, At(s, t, GoneReading(rec, place)), t,
                 [GoneRead(fault)] + ClearSteps(c, s, rec.instance, false, true),
                 At(s, t, Idle(Some(Stopped))).(file := if Names(s.file, rec.instance) then Absent else s.file))
  {
    GoneReads(c, s, t, rec, place, fault);
    Along(c, s, t, [GoneReading(rec, place), Clearing(Guarded(ReadFailed), rec.instance)], [GoneRead(fault)]);
    FinishClears(c, s, t, GoneReading(rec, place), [GoneRead(fault)], Guarded(ReadFailed), rec.instance);
  }

  /** While the record stays and its port is held, `stop` looks again until its time is up; then
    * it goes from the shutdown request to the soft signal, and from that to the hard one. */
  lemma {:induction false} Waits(c: Config, s: State, t: Tid, rec: Record, place: Place, again: bool)
    requires Names(s.file, rec.instance) && !place.LoopTop?
    ensures again ==>
      Goes(c, At(s, t, GoneReading(rec, place)), t, [GoneRead(false), GoneTest(true, true)], At(s, t, GoneReading(rec, place)))
    ensures !again && place == AfterAdmin ==>
      Goes(c, At(s, t, GoneReading(rec, place)), t, [GoneRead(false), GoneTest(true, false)],
           At(s, t, GoneReading(rec, LoopTop(false))))
    ensures !again && place == AfterSignal(false) ==>
      Goes(c, At(s, t, GoneReading(rec, place)), t, [GoneRead(false), GoneTest(true, false)],
           At(s, t, GoneReading(rec, LoopTop(true))))
    ensures !again && place == AfterSignal(true) ==>
      Goes(c, At(s, t, GoneReading(rec, place)), t, [GoneRead(false), GoneTest(true, false)],
           At(s, t, Reading(StopFinal(rec))))
  {
    var w := if again then GoneReading(rec, place) else if place == AfterAdmin then GoneReading(rec, LoopTop(false))
      else if place.hard then Reading(StopFinal(rec)) else GoneReading(rec, LoopTop(true));
    GoneReads(c, s, t, rec, place, false);
    Twice(s, t, GoneTesting(rec, place), w);
    assert Moves1(c, s, t, GoneTesting(rec, place), GoneTest(true, again), w);
    Along(c, s, t, [GoneReading(rec, place), GoneTesting(rec, place), w], [GoneRead(false), GoneTest(true, again)]);
  }

  /** At the top of a rung the instance is asked once more who it is. Another answer, or none,
    * ends the escalation; */
  lemma {:induction false} Abandons(c: Config, s: State, t: Tid, rec: Record, hard: bool, again: bool, a: Answer)
    requires Names(s.file, rec.instance) && CanAnswer(c, s, rec.port, a) && a != Ok(rec.instance)
    ensures Goes(c, At(s, t, GoneReading(rec, LoopTop(hard))), t, [GoneRead(false), GoneTest(true, again), Probe(a)],
                 At(s, t, Reading(StopFinal(rec))))
  {
    GoneReads(c, s, t, rec, LoopTop(hard), false);
    Twice(s, t, GoneTesting(rec, LoopTop(hard)), Confirming(rec, hard));
    Twice(s, t, Confirming(rec, hard), Reading(StopFinal(rec)));
    assert CanAnswer(c, At(s, t, Confirming(rec, hard)), rec.port, a);
    assert Moves1(c, s, t, Confirming(rec, hard), Probe(a), Reading(StopFinal(rec)));
    Along(c, s, t, [GoneReading(rec, LoopTop(hard)), GoneTesting(rec, LoopTop(hard)), Confirming(rec, hard),
                    Reading(StopFinal(rec))],
          [GoneRead(false), GoneTest(true, again), Probe(a)]);
  }

  function Signalled(s: State, t: Tid, rec: Record, hard: bool): State {
    s.(signals := s.signals + [Signal(t, rec.pid, rec.instance, hard)])
  }

  lemma {:induction false} Confirms(c: Config, s: State, t: Tid, rec: Record, hard: bool, again: bool)
    requires Reaches(c, s, rec, Ok(rec.instance))
    ensures Goes(c, At(s, t, GoneReading(rec, LoopTop(hard))), t,
                 [GoneRead(false), GoneTest(true, again), Probe(Ok(rec.instance))],
                 At(s, t, Signalling(rec, hard, rec.instance)))
  {
    var w := Signalling(rec, hard, rec.instance);
    GoneReads(c, s, t, rec, LoopTop(hard), false);
    Twice(s, t, GoneTesting(rec, LoopTop(hard)), Confirming(rec, hard));
    Twice(s, t, Confirming(rec, hard), w);
    assert CanAnswer(c, At(s, t, Confirming(rec, hard)), rec.port, Ok(rec.instance));
    assert Moves1(c, s, t, Confirming(rec, hard), Probe(Ok(rec.instance)), w);
    Along(c, s, t, [GoneReading(rec, LoopTop(hard)), GoneTesting(rec, LoopTop(hard)), Confirming(rec, hard), w],
          [GoneRead(false), GoneTest(true, again), Probe(Ok(rec.instance))]);
  }

  /** and if the instance answers with its own id its recorded pid gets the signal of that rung. */
  lemma {:induction false} Signals(c: Config, s: State, t: Tid, rec: Record, hard: bool, again: bool, sent: bool)
    requires Reaches(c, s, rec, Ok(rec.instance))
    ensures Goes(c, At(s, t, GoneReading(rec, LoopTop(hard))), t,
                 [GoneRead(false), GoneTest(true, again), Probe(Ok(rec.instance)), SendSignal(sent)],
                 At(Signalled(s, t, rec, hard), t,
                    if sent then GoneReading(rec, AfterSignal(hard)) else Reading(StopFinal(rec))))
  {
    var v := Signalling(rec, hard, rec.instance);
    Confirms(c, s, t, rec, hard, again);
    Twice(s, t, v, if sent then GoneReading(rec, AfterSignal(hard)) else Reading(StopFinal(rec)));
    GoesOne(c, At(s, t, v), t, SendSignal(sent));
    GoesOn(c, At(s, t, GoneReading(rec, LoopTop(hard))), t,
           [GoneRead(false), GoneTest(true, again), Probe(Ok(rec.instance))], At(s, t, v), [SendSignal(sent)],
           SupervisorApply(c, At(s, t, v), t, SendSignal(sent)));
    assert [GoneRead(false), GoneTest(true, again), Probe(Ok(rec.instance))] + [SendSignal(sent)]
        == [GoneRead(false), GoneTest(true, again), Probe(Ok(rec.instance)), SendSignal(sent)];
  }

  // ---------------------------------------------------------------- the final status of stop

  /** When the gateway on record still answers in the end, `stop` raises. */
  lemma {:induction false} EndsAnswering(c: Config, s: State, t: Tid, target: Record, rec: Record)
    requires Reaches(c, s, rec, Ok(rec.instance))
    ensures Goes(c, At(s, t, Reading(StopFinal(target))), t, [Read(false), Probe(Ok(rec.instance))],
                 At(s, t, Idle(Some(StillAnswering))))
  {
    var goal := StopFinal(target);
    ReadGoesOn(c, s, t, goal, rec);
    ProbeTells(c, s, t, goal, rec, Ok(rec.instance));
    Along(c, s, t, [Reading(goal), Probing(goal, rec), Idle(Some(StillAnswering))],
          [Read(false), Probe(Ok(rec.instance))]);
  }

  /** Any other final status makes it clear the record it was after, whether or not that
    * instance has gone: found missing or unreadable, */
  lemma {:induction false} EndsWithoutARecord(c: Config, s: State, t: Tid, target: Record, fault: bool)
    requires !s.file.Holds? || fault
    ensures Goes(c, At(s, t, Reading(StopFinal(target))), t, [Read(fault)] + ClearSteps(c, s, target.instance, false, true),
                 At(s, t, Idle(Some(Stopped))).(file := if Names(s.file, target.instance) then Absent else s.file))
  {
    var goal, kind := StopFinal(target), if s.file.Absent? then NotStarted else Corrupt;
    ReadTells(c, s, t, goal, fault);
    Along(c, s, t, [Reading(goal), Clearing(Final(kind), target.instance)], [Read(fault)]);
    FinishClears(c, s, t, Reading(goal), [Read(fault)], Final(kind), target.instance);
  }

  /** answered by somebody else, */
  lemma {:induction false} EndsWithAnother(c: Config, s: State, t: Tid, target: Record, rec: Record, a: Answer)
    requires Reaches(c, s, rec, a) && !a.Silent? && a != Ok(rec.instance)
    ensures Goes(c, At(s, t, Reading(StopFinal(target))), t,
                 [Read(false), Probe(a)] + ClearSteps(c, s, target.instance, false, true),
                 At(s, t, Idle(Some(Stopped))).(file := if Names(s.file, target.instance) then Absent else s.file))
  {
    var goal := StopFinal(target);
    ReadGoesOn(c, s, t, goal, rec);
    ProbeTells(c, s, t, goal, rec, a);
    Along(c, s, t, [Reading(goal), Probing(goal, rec), Clearing(Final(ForeignOwner), target.instance)], [Read(false), Probe(a)]);
    FinishClears(c, s, t, Reading(goal), [Read(false), Probe(a)], Final(ForeignOwner), target.instance);
  }

  /** silent with the port held, */
  lemma {:induction false} EndsSilent(c: Config, s: State, t: Tid, target: Record, rec: Record)
    requires s.file == Holds(rec)
    ensures Goes(c, At(s, t, Reading(StopFinal(target))), t,
                 [Read(false), Probe(Silent), BindTest(true)] + ClearSteps(c, s, target.instance, false, true),
                 At(s, t, Idle(Some(Stopped))).(file := if Names(s.file, target.instance) then Absent else s.file))
  {
    var goal := StopFinal(target);
    ReadGoesOn(c, s, t, goal, rec);
    ProbeGoesOn(c, s, t, goal, rec);
    TestTells(c, s, t, goal, rec, true);
    Along(c, s, t, [Reading(goal), Probing(goal, rec), BindTesting(goal, rec), Clearing(Final(Unresponsive), target.instance)],
          [Read(false), Probe(Silent), BindTest(true)]);
    FinishClears(c, s, t, Reading(goal), [Read(false), Probe(Silent), BindTest(true)], Final(Unresponsive), target.instance);
  }

  /** or dead, where `status` clears the record on disk first, whoever it names. */
  lemma {:induction false} EndsDead(c: Config, s: State, t: Tid, target: Record, rec: Record)
    requires s.file == Holds(rec) && rec.port !in s.holders
    ensures Goes(c, At(s, t, Reading(StopFinal(target))), t,
                 [Read(false), Probe(Silent), BindTest(false)] + ClearSteps(c, s, rec.instance, false, true) + [ClearRead(false)],
                 At(s, t, Idle(Some(Stopped))).(file := Absent))
  {
    var goal, s' := StopFinal(target), s.(file := Absent);
    var start, first := At(s, t, Reading(goal)), [Read(false), Probe(Silent), BindTest(false)];
    var clear := ClearSteps(c, s, rec.instance, false, true);
    FindsItDead(c, s, t, goal, rec);
    ClearGoes(c, s, t, Stale(goal), rec.instance, false, true);
    ClearGoes(c, s', t, Final(StaleCleaned), target.instance, false, true);
    var middle := At(s', t, Clearing(Final(StaleCleaned), target.instance));
    GoesOn(c, start, t, first, At(s, t, Clearing(Stale(goal), rec.instance)), clear, middle);
    GoesOn(c, start, t, first + clear, middle, [ClearRead(false)], At(s', t, Idle(Some(Stopped))));
  }

  // ---------------------------------------------------------------- the whole escalation

  /** Against a gateway that refuses the shutdown request and answers every time, `stop` sends
    * the soft signal and then the hard one, and raises with the record still in place. */
  lemma {:induction false} Escalates(c: Config, s: State, t: Tid, v: Supervisor, rec: Record) returns (ls: seq<SupervisorStep>)
    requires v.Idle? && Reaches(c, s, rec, Ok(rec.instance))
    ensures ls == [Begin(true), Read(false), Probe(Ok(rec.instance))] + [Read(false), AskAdmin(false)]
      + Rung(rec) + Rung(rec) + [Read(false), Probe(Ok(rec.instance))]
    ensures Goes(c, At(s, t, v), t, ls,
                 At(Signalled(Signalled(s, t, rec, false), t, rec, true), t, Idle(Some(StillAnswering))))
  {
    var start, s1 := At(s, t, v), Signalled(s, t, rec, false);
    var s2 := Signalled(s1, t, rec, true);
    WithItAnswering(c, s, t, v, true, rec);
    StopAsks(c, s, t, rec, false);
    ls := [Begin(true), Read(false), Probe(Ok(rec.instance))];
    GoesOn(c, start, t, ls, At(s, t, StopReading), [Read(false), AskAdmin(false)], At(s, t, GoneReading(rec, LoopTop(false))));
    ls := ls + [Read(false), AskAdmin(false)];
    Climbs(c, s, t, rec, false);
    GoesOn(c, start, t, ls, At(s, t, GoneReading(rec, LoopTop(false))), Rung(rec), At(s1, t, GoneReading(rec, LoopTop(true))));
    ls := ls + Rung(rec);
    Climbs(c, s1, t, rec, true);
    GoesOn(c, start, t, ls, At(s1, t, GoneReading(rec, LoopTop(true))), Rung(rec), At(s2, t, Reading(StopFinal(rec))));
    ls := ls + Rung(rec);
    EndsAnswering(c, s2, t, rec, rec);
    GoesOn(c, start, t, ls, At(s2, t, Reading(StopFinal(rec))), [Read(false), Probe(Ok(rec.instance))],
           At(s2, t, Idle(Some(StillAnswering))));
    ls := ls + [Read(false), Probe(Ok(rec.instance))];
  }

  /** One rung: the checks, the signal, and one look at what it did. */
  function Rung(rec: Record): seq<SupervisorStep> {
    [GoneRead(false), GoneTest(true, false), Probe(Ok(rec.instance)), SendSignal(true)] + [GoneRead(false), GoneTest(true, false)]
  }

  /** An instance that answers and outlives the soft signal goes on to the hard one, and one
    * that outlives the hard signal to the final status. */
  lemma {:induction false} Climbs(c: Config, s: State, t: Tid, rec: Record, hard: bool)
    requires Reaches(c, s, rec, Ok(rec.instance))
    ensures Goes(c, At(s, t, GoneReading(rec, LoopTop(hard))), t, Rung(rec),
                 At(Signalled(s, t, rec, hard), t, if hard then Reading(StopFinal(rec)) else GoneReading(rec, LoopTop(true))))
  {
    var s' := Signalled(s, t, rec, hard);
    Signals(c, s, t, rec, hard, false, true);
    Waits(c, s', t, rec, AfterSignal(hard), false);
    GoesOn(c, At(s, t, GoneReading(rec, LoopTop(hard))), t,
           [GoneRead(false), GoneTest(true, false), Probe(Ok(rec.instance)), SendSignal(true)],
           At(s', t, GoneReading(rec, AfterSignal(hard))), [GoneRead(false), GoneTest(true, false)],
           At(s', t, if hard then Reading(StopFinal(rec)) else GoneReading(rec, LoopTop(true))));
  }

  // ---------------------------------------------------------------- hard only after soft

  /** The supervisor has sent this record's pid the soft signal before. */
  ghost predicate Softened(signals: seq<Signal>, t: Tid, rec: Record) {
    Signal(t, rec.pid, rec.instance, false) in signals
  }

  ghost predicate PlaceInv(signals: seq<Signal>, t: Tid, rec: Record, place: Place) {
    place != AfterAdmin && place != LoopTop(false) ==> Softened(signals, t, rec)
  }

  ghost predicate RungInv(signals: seq<Signal>, t: Tid, v: Supervisor) {
    match v
    case GoneReading(rec, place) => PlaceInv(signals, t, rec, place)
    case GoneTesting(rec, place) => PlaceInv(signals, t, rec, place)
    case Confirming(rec, hard) => hard ==> Softened(signals, t, rec)
    case Signalling(rec, hard, answered) => answered == rec.instance && (hard ==> Softened(signals, t, rec))
    case _ => true
  }

  /** Each hard signal has the soft one of the same caller to the same instance before it. */
  ghost predicate InOrder(signals: seq<Signal>) {
    forall k :: 0 <= k < |signals| && signals[k].hard ==> signals[k].(hard := false) in signals[..k]
  }

  ghost predicate LadderInv(s: State) {
    InOrder(s.signals) && forall t <- s.supervisors :: RungInv(s.signals, t, s.supervisors[t])
  }

  lemma {:induction false} LogGrows(signals: seq<Signal>, signal: Signal)
    requires InOrder(signals) && (signal.hard ==> signal.(hard := false) in signals)
    ensures InOrder(signals + [signal])
  {
    forall k | 0 <= k <= |signals| && (signals + [signal])[k].hard
      ensures (signals + [signal])[k].(hard := false) in (signals + [signal])[..k]
    {
      assert (signals + [signal])[..k] == signals[..k];
      if k == |signals| { assert signals[..k] == signals; }
    }
  }

  lemma {:induction false} RungStep(c: Config, s: State, t: Tid, e: SupervisorStep)
    requires SupervisorEnabled(c, s, t, e) && RungInv(s.signals, t, s.supervisors[t])
    ensures RungInv(SupervisorApply(c, s, t, e).signals, t, SupervisorMoves(c, s, t, e))
  {
    if e.SendSignal? {
      var signal := Signal(t, s.supervisors[t].rec.pid, s.supervisors[t].answered, s.supervisors[t].hard);
      assert signal in s.signals + [signal];
    }
  }

  lemma {:induction false} RungStays(signals: seq<Signal>, more: seq<Signal>, t: Tid, v: Supervisor)
    requires RungInv(signals, t, v)
    ensures RungInv(signals + more, t, v)
  {
  }

  lemma {:induction false} LadderStep(c: Config, s: State, t: Tid, e: SupervisorStep)
    requires SupervisorEnabled(c, s, t, e) && LadderInv(s)
    ensures LadderInv(SupervisorApply(c, s, t, e))
  {
    var s' := SupervisorApply(c, s, t, e);
    var more := s'.signals[|s.signals|..];
    assert RungInv(s.signals, t, s.supervisors[t]);
    assert s'.signals == s.signals + more;
    forall u <- s'.supervisors ensures RungInv(s'.signals, u, s'.supervisors[u]) {
      if u == t { RungStep(c, s, t, e); } else { RungStays(s.signals, more, u, s.supervisors[u]); }
    }
    if e.SendSignal? {
      var v := s.supervisors[t];
      LogGrows(s.signals, Signal(t, v.rec.pid, v.answered, v.hard));
    }
  }

  lemma {:induction false} LadderRun(c: Config, s: State, es: seq<Step>)
    requires Legal(c, s, es) && LadderInv(s)
    ensures LadderInv(Run(c, s, es))
    decreases |es|
  {
    if es != [] {
      if es[0].OfSupervisor? { LadderStep(c, s, es[0].t, es[0].ss); }
      LadderRun(c, Apply(c, s, es[0]), es[1..]);
    }
  }

  /** Over every run: a hard signal comes after a soft one that the same caller sent to the same
    * pid, confirmed by the same instance. */
  lemma {:induction false} HardAfterSoft(c: Config, s: State, k: nat)
    requires Reachable(c, s) && k < |s.signals| && s.signals[k].hard
    ensures exists j :: 0 <= j < k && s.signals[j] == s.signals[k].(hard := false)
  {
    var s0, es :| Init(c, s0) && Legal(c, s0, es) && Run(c, s0, es) == s;
    LadderRun(c, s0, es);
    var soft := s.signals[k].(hard := false);
    assert soft in s.signals[..k];
    var j :| 0 <= j < k && s.signals[..k][j] == soft;
    assert s.signals[j] == soft;
  }

  // ---------------------------------------------------------------- one gateway

  function Of(g: Id, ls: seq<GatewayStep>): seq<Step> {
    if ls == [] then [] else [OfGateway(g, ls[0])] + Of(g, ls[1..])
  }

  /** Gateway `g` can take these steps, nobody else taking any, and then the state is `s'`. */
  ghost predicate Serves(c: Config, s: State, g: Id, ls: seq<GatewayStep>, s': State) {
    Legal(c, s, Of(g, ls)) && Run(c, s, Of(g, ls)) == s'
  }

  ghost predicate Does(c: Config, s: State, g: Id, l: GatewayStep, s': State) {
    GatewayEnabled(c, s, g, l) && GatewayApply(c, s, g, l) == s'
  }

  lemma {:induction false} Through(c: Config, g: Id, ss: seq<State>, ls: seq<GatewayStep>)
    requires |ss| == |ls| + 1
    requires forall k :: 0 <= k < |ls| ==> Does(c, ss[k], g, ls[k], ss[k + 1])
    ensures Serves(c, ss[0], g, ls, ss[|ls|])
    decreases |ls|
  {
    if ls == [] {
      assert Of(g, ls) == [];
    } else {
      forall k | 0 <= k < |ls[1..]| ensures Does(c, ss[1..][k], g, ls[1..][k], ss[1..][k + 1]) {
        assert Does(c, ss[k + 1], g, ls[k + 1], ss[k + 2]);
      }
      Through(c, g, ss[1..], ls[1..]);
      assert Does(c, ss[0], g, ls[0], ss[1]);
      assert Of(g, ls)[1..] == Of(g, ls[1..]);
    }
  }

  /** The gateway has reached `phase`, with these ports bound and this on disk. */
  function Up(s: State, g: Id, gw: Gateway, holders: map<Port, Owner>, file: RuntimeFile, publishes: seq<Id>): State {
    s.(gateways := s.gateways[g := gw], holders := holders, file := file, publishes := publishes)
  }

  /** A gateway that finds its ports free binds them in turn and only then publishes its own
    * pid, ports and id, with 0 for an admin port it does not have. */
  lemma {:induction false} StartsUp(c: Config, s: State, g: Id)
    requires g in c.gateways && g in s.gateways && s.gateways[g] == Gateway(Fresh, false)
    requires c.gateways[g].inference !in s.holders
    requires c.gateways[g].admin.Some? ==>
      c.gateways[g].admin.value !in s.holders && c.gateways[g].admin.value != c.gateways[g].inference
    ensures var k := c.gateways[g];
      var holders := s.holders[k.inference := Gate(g)];
      Serves(c, s, g, [BindInference(true), BindAdmin(true), Publish(true)],
             Up(s, g, Gateway(Serving, true), if k.admin.Some? then holders[k.admin.value := Gate(g)] else holders,
                Holds(Record(k.pid, k.inference, if k.admin.Some? then k.admin.value else 0, g)), s.publishes + [g]))
  {
    var k := c.gateways[g];
    var one := s.holders[k.inference := Gate(g)];
    var both := if k.admin.Some? then one[k.admin.value := Gate(g)] else one;
    var s1 := Up(s, g, Gateway(BindingAdmin, false), one, s.file, s.publishes);
    var s2 := Up(s, g, Gateway(Publishing, false), both, s.file, s.publishes);
    var s3 := Up(s, g, Gateway(Serving, true), both, Holds(RecordOf(c, g)), s.publishes + [g]);
    assert Does(c, s, g, BindInference(true), s1);
    assert Does(c, s1, g, BindAdmin(true), s2) by { Again(s, g, Gateway(BindingAdmin, false), Gateway(Publishing, false)); }
    assert Does(c, s2, g, Publish(true), s3) by { Again(s, g, Gateway(Publishing, false), Gateway(Serving, true)); }
    Through(c, g, [s, s1, s2, s3], [BindInference(true), BindAdmin(true), Publish(true)]);
  }

  lemma {:induction false} Again(s: State, g: Id, v: Gateway, w: Gateway)
    ensures s.gateways[g := v][g := w] == s.gateways[g := w]
  {
  }

  /** One that fails to bind its inference port exits as it came, */
  lemma {:induction false} FailsAtOnce(c: Config, s: State, g: Id)
    requires g in c.gateways && g in s.gateways && s.gateways[g] == Gateway(Fresh, false)
    ensures Serves(c, s, g, [BindInference(false)], s.(gateways := s.gateways[g := Gateway(Exited, false)]))
  {
    assert Does(c, s, g, BindInference(false), s.(gateways := s.gateways[g := Gateway(Exited, false)]));
    Through(c, g, [s, s.(gateways := s.gateways[g := Gateway(Exited, false)])], [BindInference(false)]);
  }

  /** and one that fails to bind its admin port or to publish lets go of what it bound and
    * leaves the record of another gateway alone. */
  lemma {:induction false} FailsLater(c: Config, s: State, g: Id, bound: bool)
    requires g in c.gateways && g in s.gateways && s.gateways[g] == Gateway(Fresh, false)
    requires c.gateways[g].inference !in s.holders
    requires (forall p <- s.holders :: !Holding(s, g, p)) && (bound ==> c.gateways[g].admin.None?)
    ensures Serves(c, s, g,
      if bound then [BindInference(true), BindAdmin(true), Publish(false), Release(c.gateways[g].inference), RetractRead(false)]
      else [BindInference(true), BindAdmin(false), Release(c.gateways[g].inference), RetractRead(false)],
      s.(gateways := s.gateways[g := Gateway(Exited, false)]))
  {
    var p := c.gateways[g].inference;
    var one := s.holders[p := Gate(g)];
    var s1 := Up(s, g, Gateway(BindingAdmin, false), one, s.file, s.publishes);
    var s2 := Up(s, g, Gateway(Publishing, false), one, s.file, s.publishes);
    var s3 := Up(s, g, Gateway(Closing, false), one, s.file, s.publishes);
    var s4 := Up(s, g, Gateway(Closing, false), s.holders, s.file, s.publishes);
    var s5 := Up(s, g, Gateway(Exited, false), s.holders, s.file, s.publishes);
    assert Does(c, s, g, BindInference(true), s1);
    Again(s, g, Gateway(BindingAdmin, false), Gateway(Publishing, false));
    Again(s, g, Gateway(BindingAdmin, false), Gateway(Closing, false));
    Again(s, g, Gateway(Publishing, false), Gateway(Closing, false));
    Again(s, g, Gateway(Closing, false), Gateway(Exited, false));
    assert one - {p} == s.holders;
    assert Does(c, s3, g, Release(p), s4);
    assert Does(c, s4, g, RetractRead(false), s5);
    if bound {
      assert Does(c, s1, g, BindAdmin(true), s2) && Does(c, s2, g, Publish(false), s3);
      Through(c, g, [s, s1, s2, s3, s4, s5],
              [BindInference(true), BindAdmin(true), Publish(false), Release(p), RetractRead(false)]);
    } else {
      assert Does(c, s1, g, BindAdmin(false), s3);
      Through(c, g, [s, s1, s3, s4, s5], [BindInference(true), BindAdmin(false), Release(p), RetractRead(false)]);
    }
  }

  /** The end of a graceful exit, its ports released: the record goes if it still names this
    * gateway and neither its read nor its unlink fails, and stays as it is otherwise. */
  lemma {:induction false} Retracts(c: Config, s: State, g: Id, fault: bool, ok: bool)
    requires g in c.gateways && g in s.gateways && s.gateways[g] == Gateway(Closing, true)
    requires forall p <- s.holders :: !Holding(s, g, p)
    ensures Serves(c, s, g,
      if !fault && Names(s.file, g) && !c.atomicClear then [RetractRead(fault), RetractUnlink(ok)] else [RetractRead(fault)],
      s.(gateways := s.gateways[g := Gateway(Exited, true)],
         file := if !fault && Names(s.file, g) && (c.atomicClear || ok) then Absent else s.file))
  {
    var end := s.(gateways := s.gateways[g := Gateway(Exited, true)],
                  file := if !fault && Names(s.file, g) && (c.atomicClear || ok) then Absent else s.file);
    if !fault && Names(s.file, g) && !c.atomicClear {
      var mid := s.(gateways := s.gateways[g := Gateway(Retracting(|s.publishes|), true)]);
      Again(s, g, Gateway(Retracting(|s.publishes|), true), Gateway(Exited, true));
      assert Does(c, s, g, RetractRead(fault), mid) && Does(c, mid, g, RetractUnlink(ok), end);
      Through(c, g, [s, mid, end], [RetractRead(fault), RetractUnlink(ok)]);
    } else {
      assert Does(c, s, g, RetractRead(fault), end);
      Through(c, g, [s, end], [RetractRead(fault)]);
    }
  }

  lemma {:induction false} ServesOn(
    c: Config, g: Id, s: State, a: seq<GatewayStep>, s1: State, b: seq<GatewayStep>, s2: State)
    requires Serves(c, s, g, a, s1) && Serves(c, s1, g, b, s2)
    ensures Serves(c, s, g, a + b, s2)
  {
    OfJoin(g, a, b);
    RunJoin(c, s, Of(g, a), Of(g, b));
  }

  lemma {:induction false} OfJoin(g: Id, a: seq<GatewayStep>, b: seq<GatewayStep>)
    ensures Of(g, a + b) == Of(g, a) + Of(g, b)
  {
    if a == [] {
      assert a + b == b;
    } else {
      assert (a + b)[1..] == a[1..] + b;
      OfJoin(g, a[1..], b);
    }
  }

  /** A serving gateway told to go lets go of its ports one by one and then retracts: what is
    * left is a machine without its ports and without its record. */
  lemma {:induction false} ClosesDown(c: Config, s: State, g: Id) returns (ls: seq<GatewayStep>, s': State)
    requires g in c.gateways && g in s.gateways && s.gateways[g] == Gateway(Serving, true)
    requires forall p :: Holding(s, g, p) <==> p in PortsOf(c.gateways[g])
    ensures Serves(c, s, g, ls, s')
    ensures [BeginClose, Release(c.gateways[g].inference)] <= ls
    ensures s' == s.(gateways := s.gateways[g := Gateway(Exited, true)],
                     holders := s.holders - PortsOf(c.gateways[g]),
                     file := if Names(s.file, g) then Absent else s.file)
  {
    var p, rest := c.gateways[g].inference, s.holders - PortsOf(c.gateways[g]);
    var s1 := s.(gateways := s.gateways[g := Gateway(Closing, true)]);
    var s2 := s1.(holders := s.holders - {p});
    var s3 := s1.(holders := rest);
    var last := if Names(s.file, g) && !c.atomicClear then [RetractRead(false), RetractUnlink(true)] else [RetractRead(false)];
    assert Holding(s, g, p);
    assert Does(c, s, g, BeginClose, s1) && Does(c, s1, g, Release(p), s2);
    if c.gateways[g].admin.Some? && c.gateways[g].admin.value != p {
      var q := c.gateways[g].admin.value;
      assert Holding(s, g, q);
      assert rest == s.holders - {p} - {q};
      assert Does(c, s2, g, Release(q), s3);
      ls := [BeginClose, Release(p), Release(q)];
      Through(c, g, [s, s1, s2, s3], ls);
    } else {
      assert PortsOf(c.gateways[g]) == {p};
      ls := [BeginClose, Release(p)];
      Through(c, g, [s, s1, s3], ls);
    }
    forall q <- s3.holders ensures !Holding(s3, g, q) { assert Holding(s3, g, q) ==> Holding(s, g, q); }
    Retracts(c, s3, g, false, true);
    Again(s, g, Gateway(Closing, true), Gateway(Exited, true));
    s' := s3.(gateways := s.gateways[g := Gateway(Exited, true)], file := if Names(s.file, g) then Absent else s.file);
    ServesOn(c, g, s, ls, s3, last, s');
    ls := ls + last;
  }

  /** One that is killed loses its ports at once, and its record stays on disk. */
  lemma {:induction false} KilledLeavesItsRecord(c: Config, s: State, g: Id)
    requires g in c.gateways && g in s.gateways
    ensures Serves(c, s, g, [Kill],
      s.(gateways := s.gateways[g := s.gateways[g].(phase := Exited)],
         holders := map q | q in s.holders && s.holders[q] != Gate(g) :: s.holders[q]))
  {
    var s' := s.(gateways := s.gateways[g := s.gateways[g].(phase := Exited)],
                 holders := map q | q in s.holders && s.holders[q] != Gate(g) :: s.holders[q]);
    assert Does(c, s, g, Kill, s');
    Through(c, g, [s, s'], [Kill]);
  }
}
