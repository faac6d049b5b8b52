/** The supervision protocol as a transition system.
  *
  * Gateways bind an inference and an admin port, publish one shared runtime
  * record, serve, close their sockets and retract the record. Supervisors run
  * `status` and `stop` at the same time. Every file access, port test, probe and
  * signal is a step of its own, so a run is any interleaving of them.
  *
  * All nondeterminism sits in the step label: `Apply` is a function and a run is
  * a list of labels.
  */
module Supervision {
  import opened Options

  type Port = nat
  type Pid = nat
  type Id = nat
  type Tid = nat

  datatype Record = Record(pid: Pid, port: Port, adminPort: Port, instance: Id)

  datatype RuntimeFile = Absent | Unreadable | Holds(record: Record)

  datatype GatewayConfig = GatewayConfig(pid: Pid, inference: Port, admin: Option<Port>)

  /** `initial` is what an earlier boot left on disk; `atomicClear` asks for a
    * compare-and-unlink in one step, which no platform offers portably. */
  datatype Config = Config(gateways: map<Id, GatewayConfig>, initial: RuntimeFile, atomicClear: bool)

  /** Instance ids are unique: the id left on disk is nobody's. */
  predicate WellFormed(c: Config) {
    c.initial.Holds? ==> c.initial.record.instance !in c.gateways
  }

  function PortsOf(g: GatewayConfig): set<Port> {
    {g.inference} + (if g.admin.Some? then {g.admin.value} else {})
  }

  function RecordOf(c: Config, g: Id): Record
    requires g in c.gateways
  {
    var k := c.gateways[g];
    Record(k.pid, k.inference, if k.admin.Some? then k.admin.value else 0, g)
  }

  // ---------------------------------------------------------------- state

  datatype Owner = Gate(id: Id) | Other

  datatype Phase =
    | Fresh
    | BindingAdmin
    | Publishing
    | Serving
    | Closing
    | Retracting(at: nat)
    | Exited

  datatype Gateway = Gateway(phase: Phase, published: bool)

  datatype Kind = Running | NotStarted | Corrupt | ForeignOwner | Unresponsive | StaleCleaned

  /** Who called `status`. */
  datatype Goal = Report | StopEntry | StopFinal(target: Record)

  /** Why `_instance_gone` answered yes. */
  datatype Evidence = RecordMoved | ReadFailed | PortFree

  /** Why a supervisor is about to clear the record. */
  datatype Why = Stale(goal: Goal) | Guarded(evidence: Evidence) | Final(kind: Kind)

  /** Where in `stop` the instance is being checked. */
  datatype Place = AfterAdmin | LoopTop(hard: bool) | AfterSignal(hard: bool)

  /** How a call ended: `status` said something; `stop` returned what `status` said, or
    * stopped the gateway, or raised, for one of three reasons. */
  datatype Ending = Said(kind: Kind) | Stopped | Refused(kind: Kind) | StillAnswering | ReadRaised

  /** An idle supervisor knows how its last call ended. */
  datatype Supervisor =
    | Idle(last: Option<Ending>)
    | Reading(goal: Goal)
    | Probing(goal: Goal, rec: Record)
    | BindTesting(goal: Goal, rec: Record)
    | Clearing(why: Why, whom: Id)
    | Unlinking(why: Why, whom: Id, at: nat)
    | StopReading
    | AdminRequest(rec: Record)
    | GoneReading(rec: Record, place: Place)
    | GoneTesting(rec: Record, place: Place)
    | Confirming(rec: Record, hard: bool)
    | Signalling(rec: Record, hard: bool, answered: Id)

  datatype Signal = Signal(sender: Tid, pid: Pid, answered: Id, hard: bool)

  /** `publishes` and `signals` are logs. A clear remembers in `at` how long the
    * publish log was when it read the record. */
  datatype State = State(
    file: RuntimeFile,
    holders: map<Port, Owner>,
    gateways: map<Id, Gateway>,
    supervisors: map<Tid, Supervisor>,
    publishes: seq<Id>,
    signals: seq<Signal>)

  predicate Init(c: Config, s: State) {
    && s.file == c.initial
    && s.gateways.Keys == c.gateways.Keys
    && (forall g <- s.gateways :: s.gateways[g] == Gateway(Fresh, false))
    && (forall p <- s.holders :: s.holders[p] == Other)
    && (forall t <- s.supervisors :: s.supervisors[t] == Idle(None))
    && s.publishes == [] && s.signals == []
  }

  predicate Holding(s: State, g: Id, p: Port) {
    p in s.holders && s.holders[p] == Gate(g)
  }

  predicate HoldsInference(c: Config, s: State, g: Id) {
    g in c.gateways && Holding(s, g, c.gateways[g].inference)
  }

  predicate Names(f: RuntimeFile, g: Id) {
    f.Holds? && f.record.instance == g
  }

  // ---------------------------------------------------------------- steps

  /** A probe's outcome. A refused and a timed-out connection are treated alike
    * by every caller, so both are `Silent`. */
  datatype Answer = Ok(id: Id) | ForeignReply | Silent

  datatype GatewayStep =
    | BindInference(ok: bool)
    | BindAdmin(ok: bool)
    | Publish(ok: bool)
    | BeginClose
    | Release(p: Port)
    | RetractRead(fault: bool)
    | RetractUnlink(ok: bool)
    | Kill

  /** `fault` makes a read of the runtime file fail although the file is there. */
  datatype SupervisorStep =
    | Begin(stop: bool)
    | Read(fault: bool)
    | Probe(answer: Answer)
    | BindTest(held: bool)
    | ClearRead(fault: bool)
    | ClearUnlink(ok: bool)
    | AskAdmin(accepted: bool)
    | GoneRead(fault: bool)
    | GoneTest(held: bool, again: bool)
    | SendSignal(sent: bool)

  datatype Step =
    | OfGateway(g: Id, gs: GatewayStep)
    | OfSupervisor(t: Tid, ss: SupervisorStep)
    | OtherBinds(p: Port)
    | OtherReleases(p: Port)

  /** A gateway answers only on its own inference port and only with its own id;
    * a process outside this install never answers with an id of ours. */
  predicate CanAnswer(c: Config, s: State, p: Port, a: Answer) {
    match a
    case Silent => true
    case ForeignReply =>
      p in s.holders && (s.holders[p].Gate? ==>
        s.holders[p].id in c.gateways && c.gateways[s.holders[p].id].inference != p)
    case Ok(id) =>
      p in s.holders &&
      match s.holders[p]
      case Gate(g) => id == g && g in s.gateways && s.gateways[g].published && HoldsInference(c, s, g)
                      && c.gateways[g].inference == p
      case Other => id !in c.gateways && !Names(c.initial, id)
  }

  /** A bind test says "free" only when no process holds the port; it may say
    * "held" for lingering connection state. */
  predicate CanTest(s: State, p: Port, held: bool) {
    !held ==> p !in s.holders
  }

  predicate GatewayEnabled(c: Config, s: State, g: Id, e: GatewayStep) {
    g in s.gateways && g in c.gateways &&
    var phase := s.gateways[g].phase;
    match e
    case BindInference(ok) => phase.Fresh? && (ok ==> c.gateways[g].inference !in s.holders)
    case BindAdmin(ok) => phase.BindingAdmin? &&
      (ok && c.gateways[g].admin.Some? ==> c.gateways[g].admin.value !in s.holders)
    case Publish(_) => phase.Publishing?
    case BeginClose => phase.Serving?
    case Release(p) => phase.Closing? && Holding(s, g, p)
    case RetractRead(_) => phase.Closing? && (forall p <- s.holders :: !Holding(s, g, p))
    case RetractUnlink(_) => phase.Retracting?
    case Kill => true
  }

  function Without(holders: map<Port, Owner>, g: Id): map<Port, Owner> {
    map p | p in holders && holders[p] != Gate(g) :: holders[p]
  }

  function WithGateway(s: State, g: Id, gw: Gateway): State {
    s.(gateways := s.gateways[g := gw])
  }

  function GatewayApply(c: Config, s: State, g: Id, e: GatewayStep): State
    requires GatewayEnabled(c, s, g, e)
  {
    var gw := s.gateways[g];
    match e
    case BindInference(ok) =>
      if ok then WithGateway(s, g, gw.(phase := BindingAdmin)).(holders := s.holders[c.gateways[g].inference := Gate(g)])
      else WithGateway(s, g, gw.(phase := Exited))
    case BindAdmin(ok) =>
      if !ok then WithGateway(s, g, gw.(phase := Closing))
      else if c.gateways[g].admin.None? then WithGateway(s, g, gw.(phase := Publishing))
      else WithGateway(s, g, gw.(phase := Publishing)).(holders := s.holders[c.gateways[g].admin.value := Gate(g)])
    case Publish(ok) =>
      if ok then WithGateway(s, g, Gateway(Serving, true)).(file := Holds(RecordOf(c, g)), publishes := s.publishes + [g])
      else WithGateway(s, g, gw.(phase := Closing))
    case BeginClose => WithGateway(s, g, gw.(phase := Closing))
    case Release(p) => s.(holders := s.holders - {p})
    case RetractRead(fault) =>
      if gw.published && !fault && Names(s.file, g) then
        if c.atomicClear then WithGateway(s, g, gw.(phase := Exited)).(file := Absent)
        else WithGateway(s, g, gw.(phase := Retracting(|s.publishes|)))
      else WithGateway(s, g, gw.(phase := Exited))
    case RetractUnlink(ok) =>
      WithGateway(s, g, gw.(phase := Exited)).(file := if ok then Absent else s.file)
    case Kill => WithGateway(s, g, gw.(phase := Exited)).(holders := Without(s.holders, g))
  }

  /** What `status` hands back to its caller. */
  function StatusDone(goal: Goal, kind: Kind): Supervisor {
    match goal
    case Report => Idle(Some(Said(kind)))
    case StopEntry =>
      if kind.Running? then StopReading
      else if kind.ForeignOwner? || kind.Unresponsive? then Idle(Some(Refused(kind)))
      else Idle(Some(Said(kind)))
    case StopFinal(target) =>
      if kind.Running? then Idle(Some(StillAnswering)) else Clearing(Final(kind), target.instance)
  }

  function ClearDone(why: Why): Supervisor {
    if why.Stale? then StatusDone(why.goal, StaleCleaned) else Idle(Some(Stopped))
  }

  function StillThere(rec: Record, place: Place, again: bool): Supervisor {
    match place
    case AfterAdmin => GoneReading(rec, if again then AfterAdmin else LoopTop(false))
    case LoopTop(hard) => Confirming(rec, hard)
    case AfterSignal(hard) =>
      if again then GoneReading(rec, place)
      else if hard then Reading(StopFinal(rec))
      else GoneReading(rec, LoopTop(true))
  }

  predicate SupervisorEnabled(c: Config, s: State, t: Tid, e: SupervisorStep) {
    t in s.supervisors &&
    var v := s.supervisors[t];
    match e
    case Begin(_) => v.Idle?
    case Read(_) => v.Reading? || v.StopReading?
    case Probe(a) => (v.Probing? || v.Confirming?) && CanAnswer(c, s, v.rec.port, a)
    case BindTest(held) => v.BindTesting? && CanTest(s, v.rec.port, held)
    case ClearRead(_) => v.Clearing?
    case ClearUnlink(_) => v.Unlinking?
    case AskAdmin(_) => v.AdminRequest?
    case GoneRead(_) => v.GoneReading?
    case GoneTest(held, _) => v.GoneTesting? && CanTest(s, v.rec.port, held)
    case SendSignal(_) => v.Signalling?
  }

  /** Where the supervisor's own control goes; the file and the log are `SupervisorApply`'s. */
  function SupervisorMoves(c: Config, s: State, t: Tid, e: SupervisorStep): Supervisor
    requires SupervisorEnabled(c, s, t, e)
  {
    var v := s.supervisors[t];
    match e
    case Begin(stop) => Reading(if stop then StopEntry else Report)
    case Read(fault) =>
      if v.StopReading? then
        if s.file.Absent? then Reading(Report)
        else if fault || s.file.Unreadable? then Idle(Some(ReadRaised))
        else AdminRequest(s.file.record)
      else if s.file.Absent? then StatusDone(v.goal, NotStarted)
      else if fault || s.file.Unreadable? then StatusDone(v.goal, Corrupt)
      else Probing(v.goal, s.file.record)
    case Probe(a) =>
      if v.Confirming? then
        if a == Ok(v.rec.instance) then Signalling(v.rec, v.hard, a.id) else Reading(StopFinal(v.rec))
      else if a.Silent? then BindTesting(v.goal, v.rec)
      else StatusDone(v.goal, if a == Ok(v.rec.instance) then Running else ForeignOwner)
    case BindTest(held) =>
      if held then StatusDone(v.goal, Unresponsive) else Clearing(Stale(v.goal), v.rec.instance)
    case ClearRead(fault) =>
      if !fault && Names(s.file, v.whom) && !c.atomicClear then Unlinking(v.why, v.whom, |s.publishes|)
      else ClearDone(v.why)
    case ClearUnlink(_) => ClearDone(v.why)
    case AskAdmin(accepted) => GoneReading(v.rec, if accepted then AfterAdmin else LoopTop(false))
    case GoneRead(fault) =>
      if s.file.Absent? then Clearing(Guarded(RecordMoved), v.rec.instance)
      else if fault || s.file.Unreadable? then Clearing(Guarded(ReadFailed), v.rec.instance)
      else if !Names(s.file, v.rec.instance) then Clearing(Guarded(RecordMoved), v.rec.instance)
      else GoneTesting(v.rec, v.place)
    case GoneTest(held, again) =>
      if held then StillThere(v.rec, v.place, again) else Clearing(Guarded(PortFree), v.rec.instance)
    case SendSignal(sent) =>
      if sent then GoneReading(v.rec, AfterSignal(v.hard)) else Reading(StopFinal(v.rec))
  }

  function SupervisorApply(c: Config, s: State, t: Tid, e: SupervisorStep): State
    requires SupervisorEnabled(c, s, t, e)
  {
    var v := s.supervisors[t];
    var s' := s.(supervisors := s.supervisors[t := SupervisorMoves(c, s, t, e)]);
    match e
    case ClearRead(fault) =>
      if !fault && Names(s.file, v.whom) && c.atomicClear then s'.(file := Absent) else s'
    case ClearUnlink(ok) => if ok then s'.(file := Absent) else s'
    case SendSignal(sent) => s'.(signals := s.signals + [Signal(t, v.rec.pid, v.answered, v.hard)])
    case _ => s'
  }

  predicate Enabled(c: Config, s: State, e: Step) {
    match e
    case OfGateway(g, gs) => GatewayEnabled(c, s, g, gs)
    case OfSupervisor(t, ss) => SupervisorEnabled(c, s, t, ss)
    case OtherBinds(p) => p !in s.holders
    case OtherReleases(p) => p in s.holders && s.holders[p] == Other
  }

  function Apply(c: Config, s: State, e: Step): State
    requires Enabled(c, s, e)
  {
    match e
    case OfGateway(g, gs) => GatewayApply(c, s, g, gs)
    case OfSupervisor(t, ss) => SupervisorApply(c, s, t, ss)
    case OtherBinds(p) => s.(holders := s.holders[p := Other])
    case OtherReleases(p) => s.(holders := s.holders - {p})
  }

  /** `es` can be taken one after the other from `s`. */
  predicate Legal(c: Config, s: State, es: seq<Step>)
    decreases |es|
  {
    es == [] || (Enabled(c, s, es[0]) && Legal(c, Apply(c, s, es[0]), es[1..]))
  }

  function Run(c: Config, s: State, es: seq<Step>): State
    requires Legal(c, s, es)
    decreases |es|
  {
    if es == [] then s else Run(c, Apply(c, s, es[0]), es[1..])
  }

  // ---------------------------------------------------------------- invariant

  ghost predicate Known(c: Config, s: State, i: Id) {
    Names(c.initial, i) || (i in c.gateways && i in s.gateways && s.gateways[i].published)
  }

  /** A record that was on disk at some time: its pid and port are the truth. */
  ghost predicate Truthful(c: Config, s: State, r: Record) {
    (c.initial == Holds(r)) ||
    (r.instance in c.gateways && Known(c, s, r.instance) && r == RecordOf(c, r.instance))
  }

  /** Instance `i` has let go of its inference port, or the record names someone
    * else. Either way it stays so: an instance binds and publishes once. */
  ghost predicate Harmless(c: Config, s: State, i: Id) {
    Known(c, s, i) && (HoldsInference(c, s, i) ==> !Names(s.file, i))
  }

  /** The clears `stop` makes without evidence that the instance has gone. */
  ghost predicate Hasty(why: Why) {
    why == Final(Unresponsive) || why == Final(Corrupt) || why == Guarded(ReadFailed)
  }

  ghost predicate HoldsAll(c: Config, s: State, g: Id)
    requires g in c.gateways
  {
    forall p <- PortsOf(c.gateways[g]) :: Holding(s, g, p)
  }

  /** A gateway holds only ports it was configured with, and only while it is up. */
  ghost predicate HolderInv(c: Config, s: State, p: Port)
    requires p in s.holders
  {
    s.holders[p].Gate? ==>
      var g := s.holders[p].id;
      g in c.gateways && g in s.gateways && p in PortsOf(c.gateways[g]) &&
      var phase := s.gateways[g].phase;
      phase.BindingAdmin? || phase.Publishing? || phase.Serving? || phase.Closing?
  }

  ghost predicate PhaseInv(c: Config, s: State, g: Id)
    requires g in c.gateways && g in s.gateways
  {
    var phase := s.gateways[g].phase;
    && (phase.BindingAdmin? ==> HoldsInference(c, s, g))
    && (phase.Publishing? || phase.Serving? ==> HoldsAll(c, s, g))
  }

  ghost predicate PortsInv(c: Config, s: State) {
    && s.gateways.Keys == c.gateways.Keys
    && (forall p <- s.holders :: HolderInv(c, s, p))
    && (forall g <- c.gateways :: PhaseInv(c, s, g))
  }

  ghost predicate FlagInv(s: State, g: Id)
    requires g in s.gateways
  {
    var gw := s.gateways[g];
    && (gw.phase.Serving? || gw.phase.Retracting? ==> gw.published)
    && (gw.phase.Fresh? || gw.phase.BindingAdmin? || gw.phase.Publishing? ==> !gw.published)
  }

  ghost predicate FileInv(c: Config, s: State) {
    s.file.Holds? ==>
      && Truthful(c, s, s.file.record)
      && (s.file.record.instance in c.gateways ==>
           s.publishes != [] && s.publishes[|s.publishes| - 1] == s.file.record.instance)
  }

  ghost predicate PublishInv(c: Config, s: State) {
    && s.gateways.Keys == c.gateways.Keys
    && (forall g <- s.gateways :: FlagInv(s, g))
    && FileInv(c, s)
  }

  /** A pending unlink that no publish has overtaken still sees what it read, or nothing. */
  ghost predicate Current(s: State, whom: Id, at: nat) {
    at <= |s.publishes| && (at == |s.publishes| ==> !s.file.Holds? || Names(s.file, whom))
  }

  ghost predicate GatewayInv(c: Config, s: State, g: Id)
    requires g in s.gateways
  {
    s.gateways[g].phase.Retracting? ==> !c.atomicClear && Current(s, g, s.gateways[g].phase.at)
  }

  ghost predicate GoalInv(c: Config, s: State, goal: Goal) {
    goal.StopFinal? ==> Truthful(c, s, goal.target)
  }

  /** What `status` knows about the instance `stop` is after while it is under way. */
  ghost predicate SupervisorInv(c: Config, s: State, v: Supervisor) {
    match v
    case Idle(_) => true
    case StopReading => true
    case Reading(goal) => GoalInv(c, s, goal)
    case Probing(goal, rec) => GoalInv(c, s, goal) && Seen(c, s, goal, rec)
    case BindTesting(goal, rec) => GoalInv(c, s, goal) && Seen(c, s, goal, rec)
    case Clearing(why, whom) => WhyInv(c, s, why, whom)
    case Unlinking(why, whom, at) => !c.atomicClear && WhyInv(c, s, why, whom) && Current(s, whom, at)
    case AdminRequest(rec) => Truthful(c, s, rec)
    case GoneReading(rec, _) => Truthful(c, s, rec)
    case GoneTesting(rec, _) => Truthful(c, s, rec)
    case Confirming(rec, _) => Truthful(c, s, rec)
    case Signalling(rec, _, answered) => Truthful(c, s, rec) && answered == rec.instance && answered in c.gateways
  }

  /** The record `status` works from; if it is not the one `stop` is after, then
    * that one is off the disk for good. */
  ghost predicate Seen(c: Config, s: State, goal: Goal, rec: Record) {
    && Truthful(c, s, rec)
    && (goal.StopFinal? && rec.instance != goal.target.instance ==> Harmless(c, s, goal.target.instance))
  }

  ghost predicate WhyInv(c: Config, s: State, why: Why, whom: Id) {
    && Known(c, s, whom)
    && (!Hasty(why) ==> Harmless(c, s, whom))
    && (why.Stale? ==> GoalInv(c, s, why.goal))
    && (why.Stale? && why.goal.StopFinal? ==> Harmless(c, s, why.goal.target.instance))
  }

  ghost predicate SignalsInv(c: Config, s: State) {
    forall k :: 0 <= k < |s.signals| ==>
      s.signals[k].answered in c.gateways && s.signals[k].pid == c.gateways[s.signals[k].answered].pid
  }

  ghost predicate Inv(c: Config, s: State) {
    && PortsInv(c, s) && PublishInv(c, s) && SignalsInv(c, s)
    && (forall g <- s.gateways :: GatewayInv(c, s, g))
    && (forall t <- s.supervisors :: SupervisorInv(c, s, s.supervisors[t]))
  }

  // ---------------------------------------------------------------- preservation

  lemma InitEstablishesInv(c: Config, s: State)
    requires WellFormed(c) && Init(c, s)
    ensures Inv(c, s)
  {
  }

  /** Everything a supervisor remembers survives a step that keeps these four facts. */
  ghost predicate Monotone(c: Config, s: State, s': State) {
    && (forall i :: Known(c, s, i) ==> Known(c, s', i))
    && (forall i :: Harmless(c, s, i) ==> Harmless(c, s', i))
    && |s.publishes| <= |s'.publishes|
    && (forall i, at :: Current(s, i, at) ==> Current(s', i, at))
  }

  lemma TruthfulStays(c: Config, s: State, s': State, r: Record)
    requires Monotone(c, s, s') && Truthful(c, s, r)
    ensures Truthful(c, s', r)
  {
  }

  lemma SupervisorInvStays(c: Config, s: State, s': State, v: Supervisor)
    requires Monotone(c, s, s') && SupervisorInv(c, s, v)
    ensures SupervisorInv(c, s', v)
  {
  }

  lemma GatewayStepMonotone(c: Config, s: State, g: Id, e: GatewayStep)
    requires WellFormed(c) && Inv(c, s) && GatewayEnabled(c, s, g, e)
    ensures Monotone(c, s, GatewayApply(c, s, g, e))
  {
  }

  lemma GatewayStepKeepsHolder(c: Config, s: State, g: Id, e: GatewayStep, p: Port)
    requires PortsInv(c, s) && GatewayEnabled(c, s, g, e) && p in GatewayApply(c, s, g, e).holders
    ensures HolderInv(c, GatewayApply(c, s, g, e), p)
  {
    if p in s.holders { assert HolderInv(c, s, p); }
    assert PhaseInv(c, s, g);
  }

  lemma GatewayStepKeepsPhase(c: Config, s: State, g: Id, e: GatewayStep, h: Id)
    requires PortsInv(c, s) && GatewayEnabled(c, s, g, e) && h in c.gateways
    ensures PhaseInv(c, GatewayApply(c, s, g, e), h)
  {
    assert PhaseInv(c, s, h);
    assert s.gateways.Keys == c.gateways.Keys;
    if h == g { assert PortsOf(c.gateways[g]) >= {c.gateways[g].inference}; }
  }

  lemma GatewayStepKeepsPorts(c: Config, s: State, g: Id, e: GatewayStep)
    requires PortsInv(c, s) && GatewayEnabled(c, s, g, e)
    ensures PortsInv(c, GatewayApply(c, s, g, e))
  {
    var s' := GatewayApply(c, s, g, e);
    forall p <- s'.holders ensures HolderInv(c, s', p) {
      GatewayStepKeepsHolder(c, s, g, e, p);
    }
    forall h <- c.gateways ensures PhaseInv(c, s', h) {
      GatewayStepKeepsPhase(c, s, g, e, h);
    }
  }

  lemma GatewayStepKeepsFlag(c: Config, s: State, g: Id, e: GatewayStep, h: Id)
    requires GatewayEnabled(c, s, g, e) && h in s.gateways && FlagInv(s, h)
    ensures FlagInv(GatewayApply(c, s, g, e), h)
  {
  }

  lemma GatewayStepKeepsFile(c: Config, s: State, g: Id, e: GatewayStep)
    requires PublishInv(c, s) && GatewayEnabled(c, s, g, e)
    requires Monotone(c, s, GatewayApply(c, s, g, e))
    ensures FileInv(c, GatewayApply(c, s, g, e))
  {
    var s' := GatewayApply(c, s, g, e);
    if s'.file == s.file && s.file.Holds? {
      TruthfulStays(c, s, s', s.file.record);
    }
  }

  lemma GatewayStepKeepsPublish(c: Config, s: State, g: Id, e: GatewayStep)
    requires PublishInv(c, s) && GatewayEnabled(c, s, g, e)
    requires Monotone(c, s, GatewayApply(c, s, g, e))
    ensures PublishInv(c, GatewayApply(c, s, g, e))
  {
    GatewayStepKeepsFile(c, s, g, e);
    forall h <- s.gateways ensures FlagInv(GatewayApply(c, s, g, e), h) {
      GatewayStepKeepsFlag(c, s, g, e, h);
    }
  }

  lemma GatewayStepKeepsInv(c: Config, s: State, g: Id, e: GatewayStep)
    requires WellFormed(c) && Inv(c, s) && GatewayEnabled(c, s, g, e)
    ensures Inv(c, GatewayApply(c, s, g, e))
  {
    var s' := GatewayApply(c, s, g, e);
    GatewayStepKeepsPorts(c, s, g, e);
    GatewayStepMonotone(c, s, g, e);
    GatewayStepKeepsPublish(c, s, g, e);
    forall t <- s'.supervisors ensures SupervisorInv(c, s', s'.supervisors[t]) {
      SupervisorInvStays(c, s, s', s.supervisors[t]);
    }
    forall h <- s'.gateways ensures GatewayInv(c, s', h) {
      assert GatewayInv(c, s, h);
    }
  }

  lemma SupervisorStepMonotone(c: Config, s: State, t: Tid, e: SupervisorStep)
    requires Inv(c, s) && SupervisorEnabled(c, s, t, e)
    ensures Monotone(c, s, SupervisorApply(c, s, t, e))
  {
  }

  lemma ReadKeepsInv(c: Config, s: State, t: Tid, e: SupervisorStep, s': State)
    requires WellFormed(c) && Inv(c, s) && SupervisorEnabled(c, s, t, e) && Monotone(c, s, s')
    requires s'.file == s.file && s'.holders == s.holders && s'.gateways == s.gateways
    requires e.Read? || e.GoneRead?
    ensures SupervisorInv(c, s', SupervisorMoves(c, s, t, e))
  {
    assert SupervisorInv(c, s, s.supervisors[t]);
  }

  lemma LookKeepsInv(c: Config, s: State, t: Tid, e: SupervisorStep, s': State)
    requires WellFormed(c) && Inv(c, s) && SupervisorEnabled(c, s, t, e) && Monotone(c, s, s')
    requires s'.file == s.file && s'.holders == s.holders && s'.gateways == s.gateways
    requires e.Probe? || e.BindTest? || e.GoneTest?
    ensures SupervisorInv(c, s', SupervisorMoves(c, s, t, e))
  {
    assert SupervisorInv(c, s, s.supervisors[t]);
  }

  lemma OwnStepKeepsInv(c: Config, s: State, t: Tid, e: SupervisorStep)
    requires WellFormed(c) && Inv(c, s) && SupervisorEnabled(c, s, t, e)
    requires Monotone(c, s, SupervisorApply(c, s, t, e))
    ensures SupervisorInv(c, SupervisorApply(c, s, t, e), SupervisorMoves(c, s, t, e))
  {
    var s' := SupervisorApply(c, s, t, e);
    if e.Read? || e.GoneRead? {
      ReadKeepsInv(c, s, t, e, s');
    } else if e.Probe? || e.BindTest? || e.GoneTest? {
      LookKeepsInv(c, s, t, e, s');
    } else {
      assert SupervisorInv(c, s, s.supervisors[t]);
    }
  }

  lemma SupervisorStepKeepsInv(c: Config, s: State, t: Tid, e: SupervisorStep)
    requires WellFormed(c) && Inv(c, s) && SupervisorEnabled(c, s, t, e)
    ensures Inv(c, SupervisorApply(c, s, t, e))
  {
    var s' := SupervisorApply(c, s, t, e);
    SupervisorStepMonotone(c, s, t, e);
    forall u <- s'.supervisors ensures SupervisorInv(c, s', s'.supervisors[u]) {
      if u == t { OwnStepKeepsInv(c, s, t, e); } else { SupervisorInvStays(c, s, s', s.supervisors[u]); }
    }
    assert SignalsInv(c, s') by { assert SupervisorInv(c, s, s.supervisors[t]); }
  }

  lemma StepKeepsInv(c: Config, s: State, e: Step)
    requires WellFormed(c) && Inv(c, s) && Enabled(c, s, e)
    ensures Inv(c, Apply(c, s, e))
  {
    match e
    case OfGateway(g, gs) => GatewayStepKeepsInv(c, s, g, gs);
    case OfSupervisor(t, ss) => SupervisorStepKeepsInv(c, s, t, ss);
    case OtherBinds(p) => OutsideStepKeepsInv(c, s, Apply(c, s, e));
    case OtherReleases(p) => OutsideStepKeepsInv(c, s, Apply(c, s, e));
  }

  lemma OutsideStepKeepsInv(c: Config, s: State, s': State)
    requires Inv(c, s)
    requires s' == s.(holders := s'.holders)
    requires forall g, p :: Holding(s, g, p) <==> Holding(s', g, p)
    requires forall p <- s'.holders :: s'.holders[p].Gate? ==> p in s.holders && s.holders[p] == s'.holders[p]
    ensures Inv(c, s')
  {
    assert Monotone(c, s, s');
    forall t <- s'.supervisors ensures SupervisorInv(c, s', s'.supervisors[t]) {
      SupervisorInvStays(c, s, s', s.supervisors[t]);
    }
  }

  lemma {:induction false} RunKeepsInv(c: Config, s: State, es: seq<Step>)
    requires WellFormed(c) && Inv(c, s) && Legal(c, s, es)
    ensures Inv(c, Run(c, s, es))
    decreases |es|
  {
    if es != [] {
      StepKeepsInv(c, s, es[0]);
      RunKeepsInv(c, Apply(c, s, es[0]), es[1..]);
    }
  }

  /** Some run from some initial state ends in `s`. */
  ghost predicate Reachable(c: Config, s: State) {
    exists s0, es :: Init(c, s0) && Legal(c, s0, es) && Run(c, s0, es) == s
  }

  lemma ReachableInv(c: Config, s: State)
    requires WellFormed(c) && Reachable(c, s)
    ensures Inv(c, s)
  {
    var s0, es :| Init(c, s0) && Legal(c, s0, es) && Run(c, s0, es) == s;
    InitEstablishesInv(c, s0);
    RunKeepsInv(c, s0, es);
  }

  // ---------------------------------------------------------------- main results

  /** The step takes the record of a gateway that still holds its inference port off the disk. */
  ghost predicate Strands(c: Config, s: State, e: Step, g: Id)
    requires Enabled(c, s, e)
  {
    Names(s.file, g) && HoldsInference(c, s, g) && Apply(c, s, e).file.Absent?
  }

  /** The unlink of a clear that had read another instance's record, with `g`'s
    * publish in between. */
  ghost predicate Overtaken(s: State, e: Step, g: Id) {
    match e
    case OfGateway(h, RetractUnlink(_)) =>
      h != g && h in s.gateways && s.gateways[h].phase.Retracting?
      && s.gateways[h].phase.at <= |s.publishes| && g in s.publishes[s.gateways[h].phase.at..]
    case OfSupervisor(t, ClearUnlink(_)) =>
      t in s.supervisors && s.supervisors[t].Unlinking? && s.supervisors[t].whom != g
      && s.supervisors[t].at <= |s.publishes| && g in s.publishes[s.supervisors[t].at..]
    case _ => false
  }

  /** A clear by `stop` of `g`'s own record without evidence that `g` has gone. */
  ghost predicate HastyClear(s: State, e: Step, g: Id) {
    e.OfSupervisor? && (e.ss.ClearRead? || e.ss.ClearUnlink?) && e.t in s.supervisors &&
    var v := s.supervisors[e.t];
    (v.Clearing? || v.Unlinking?) && v.whom == g && Hasty(v.why)
  }

  lemma StrandingStep(c: Config, s: State, e: Step, g: Id)
    requires Inv(c, s) && Enabled(c, s, e) && Strands(c, s, e, g)
    ensures Overtaken(s, e, g) || HastyClear(s, e, g)
    ensures c.atomicClear ==> HastyClear(s, e, g)
  {
    match e
    case OfGateway(h, gs) =>
      assert GatewayInv(c, s, h);
    case OfSupervisor(t, ss) =>
      assert SupervisorInv(c, s, s.supervisors[t]);
    case _ =>
  }

  /** Over every run: a record of a gateway that still holds its inference port
    * disappears only by a publish landing inside a clear's window, or by one of
    * `stop`'s three hasty clears; with an atomic clear only by the latter. */
  lemma OnlyTwoWaysToStrand(c: Config, s: State, e: Step, g: Id)
    requires WellFormed(c) && Reachable(c, s)
    requires Enabled(c, s, e) && Strands(c, s, e, g)
    ensures Overtaken(s, e, g) || HastyClear(s, e, g)
    ensures c.atomicClear ==> HastyClear(s, e, g)
  {
    ReachableInv(c, s);
    StrandingStep(c, s, e, g);
  }

  ghost predicate Conflict(c: Config) {
    forall g, h :: g in c.gateways && h in c.gateways && g != h ==>
      PortsOf(c.gateways[g]) * PortsOf(c.gateways[h]) != {}
  }

  /** No step of the run is overtaken, and none is a hasty clear. */
  ghost predicate Careful(c: Config, s: State, es: seq<Step>)
    requires Legal(c, s, es)
    decreases |es|
  {
    es != [] ==>
      (forall g :: g in c.gateways ==> !Overtaken(s, es[0], g) && !HastyClear(s, es[0], g))
      && Careful(c, Apply(c, s, es[0]), es[1..])
  }

  ghost predicate Advertised(c: Config, s: State) {
    s.gateways.Keys == c.gateways.Keys &&
    forall g <- c.gateways :: s.gateways[g].phase.Serving? ==> s.file == Holds(RecordOf(c, g))
  }

  lemma AtMostOneHoldsItsPorts(c: Config, s: State, g: Id, h: Id)
    requires Conflict(c) && g in c.gateways && h in c.gateways && g != h
    requires HoldsAll(c, s, g)
    ensures !HoldsAll(c, s, h)
  {
    var p :| p in PortsOf(c.gateways[g]) * PortsOf(c.gateways[h]);
    assert Holding(s, g, p);
  }

  lemma WhoWritesTheRecord(c: Config, s: State, e: Step)
    requires Enabled(c, s, e)
    ensures
      var s' := Apply(c, s, e);
      s'.file == s.file || s'.file.Absent? ||
      (e.OfGateway? && e.gs == Publish(true) && e.g in c.gateways && s'.file == Holds(RecordOf(c, e.g)))
  {
  }

  lemma GatewayStartsServing(c: Config, s: State, g: Id, e: GatewayStep)
    requires GatewayEnabled(c, s, g, e) && GatewayApply(c, s, g, e).gateways[g].phase.Serving?
    ensures s.gateways[g].phase.Serving? || e == Publish(true)
  {
  }

  lemma WhoStartsServing(c: Config, s: State, e: Step, g: Id)
    requires Enabled(c, s, e) && g in s.gateways && g in c.gateways
    requires Apply(c, s, e).gateways[g].phase.Serving?
    ensures s.gateways[g].phase.Serving? || e == OfGateway(g, Publish(true))
  {
    match e {
      case OfGateway(h, step) => if h == g { GatewayStartsServing(c, s, g, step); }
      case _ =>
    }
  }

  lemma CarefulStepAdvertises(c: Config, s: State, e: Step, g: Id)
    requires Conflict(c) && Inv(c, s) && Advertised(c, s) && Enabled(c, s, e)
    requires g in c.gateways && !Overtaken(s, e, g) && !HastyClear(s, e, g)
    requires Inv(c, Apply(c, s, e))
    requires Apply(c, s, e).gateways[g].phase.Serving?
    ensures Apply(c, s, e).file == Holds(RecordOf(c, g))
  {
    var s' := Apply(c, s, e);
    WhoWritesTheRecord(c, s, e);
    WhoStartsServing(c, s, e, g);
    if e.OfGateway? && e.gs == Publish(true) {
      assert PhaseInv(c, s', g) && PhaseInv(c, s', e.g);
      if e.g != g { AtMostOneHoldsItsPorts(c, s', g, e.g); }
    } else if s'.file.Absent? {
      assert PhaseInv(c, s, g) && Holding(s, g, c.gateways[g].inference);
      StrandingStep(c, s, e, g);
    }
  }

  lemma {:induction false} CarefulRunAdvertises(c: Config, s: State, es: seq<Step>)
    requires WellFormed(c) && Conflict(c) && Inv(c, s) && Advertised(c, s)
    requires Legal(c, s, es) && Careful(c, s, es)
    ensures Advertised(c, Run(c, s, es))
    decreases |es|
  {
    if es != [] {
      StepKeepsInv(c, s, es[0]);
      var s' := Apply(c, s, es[0]);
      forall g <- c.gateways | s'.gateways[g].phase.Serving? ensures s'.file == Holds(RecordOf(c, g)) {
        CarefulStepAdvertises(c, s, es[0], g);
      }
      CarefulRunAdvertises(c, Apply(c, s, es[0]), es[1..]);
    }
  }

  /** If every two gateways share a configured port, then in every careful run a
    * serving gateway is the one on disk, with its own pid and ports. */
  lemma ServingIsAdvertised(c: Config, s: State, es: seq<Step>, g: Id)
    requires WellFormed(c) && Conflict(c) && Init(c, s)
    requires Legal(c, s, es) && Careful(c, s, es)
    requires g in c.gateways && g in Run(c, s, es).gateways && Run(c, s, es).gateways[g].phase.Serving?
    ensures Run(c, s, es).file == Holds(RecordOf(c, g))
  {
    InitEstablishesInv(c, s);
    CarefulRunAdvertises(c, s, es);
  }

  /** Every signal ever sent carried the pid of the gateway that answered the probe before it. */
  lemma SignalsReachTheAnswerer(c: Config, s: State, signal: Signal)
    requires WellFormed(c) && Reachable(c, s) && signal in s.signals
    ensures signal.answered in c.gateways && signal.pid == c.gateways[signal.answered].pid
  {
    ReachableInv(c, s);
  }

  /** A probe that lets `stop` signal was answered by the very gateway on record,
    * on its own inference port. */
  lemma ConfirmedBeforeSignal(c: Config, s: State, t: Tid, a: Answer)
    requires WellFormed(c) && Reachable(c, s)
    requires SupervisorEnabled(c, s, t, Probe(a)) && SupervisorMoves(c, s, t, Probe(a)).Signalling?
    ensures a.Ok? && HoldsInference(c, s, a.id)
    ensures SupervisorMoves(c, s, t, Probe(a)).rec == RecordOf(c, a.id)
  {
    ReachableInv(c, s);
    assert SupervisorInv(c, s, s.supervisors[t]);
  }

  /** A clear for the reason `why` is pending against a gateway that is on disk
    * and still holds its inference port. */
  ghost predicate Endangers(c: Config, s: State, t: Tid, why: Why, g: Id) {
    t in s.supervisors && s.supervisors[t] == Clearing(why, g) && Names(s.file, g) && HoldsInference(c, s, g)
  }

  /** The clears are safe exactly for the reasons that are not hasty: `status`
    * always, `stop` when it saw the record gone or the port free, or a final
    * status other than "unresponsive" and "corrupt". */
  lemma DangerIffHasty(why: Why)
    ensures Hasty(why) <==> exists c, s, t, g :: WellFormed(c) && Reachable(c, s) && Endangers(c, s, t, why, g)
  {
    forall c, s, t, g | WellFormed(c) && Reachable(c, s) && Endangers(c, s, t, why, g) ensures Hasty(why) {
      ReachableInv(c, s);
      assert SupervisorInv(c, s, s.supervisors[t]);
    }
    if Hasty(why) {
      var c, s := HastyTrace(why);
      assert Endangers(c, s, 0, why, 1);
    }
  }

  // ---------------------------------------------------------------- traces

  lemma {:induction false} Extend(c: Config, s: State, es: seq<Step>, e: Step)
    requires Legal(c, s, es) && Enabled(c, Run(c, s, es), e)
    ensures Legal(c, s, es + [e]) && Run(c, s, es + [e]) == Apply(c, Run(c, s, es), e)
    decreases |es|
  {
    if es != [] {
      Extend(c, Apply(c, s, es[0]), es[1..], e);
      assert (es + [e])[1..] == es[1..] + [e];
    }
  }

  lemma Reach(c: Config, s: State, e: Step) returns (s': State)
    requires Reachable(c, s) && Enabled(c, s, e)
    ensures s' == Apply(c, s, e) && Reachable(c, s')
  {
    var s0, es :| Init(c, s0) && Legal(c, s0, es) && Run(c, s0, es) == s;
    Extend(c, s0, es, e);
    s' := Apply(c, s, e);
  }

  lemma ReachInit(c: Config, s: State)
    requires Init(c, s)
    ensures Reachable(c, s)
  {
    assert Legal(c, s, []) && Run(c, s, []) == s;
  }

  lemma Binds(c: Config, s: State, g: Id) returns (s': State)
    requires Reachable(c, s) && g in c.gateways && g in s.gateways && s.gateways[g] == Gateway(Fresh, false)
    requires c.gateways[g].inference !in s.holders
    ensures Reachable(c, s')
    ensures s' == s.(gateways := s.gateways[g := Gateway(BindingAdmin, false)],
                     holders := s.holders[c.gateways[g].inference := Gate(g)])
  {
    s' := Reach(c, s, OfGateway(g, BindInference(true)));
  }

  lemma SkipsAdmin(c: Config, s: State, g: Id) returns (s': State)
    requires Reachable(c, s) && g in c.gateways && g in s.gateways && s.gateways[g] == Gateway(BindingAdmin, false)
    requires c.gateways[g].admin.None?
    ensures Reachable(c, s') && s' == s.(gateways := s.gateways[g := Gateway(Publishing, false)])
  {
    s' := Reach(c, s, OfGateway(g, BindAdmin(true)));
  }

  lemma Publishes(c: Config, s: State, g: Id) returns (s': State)
    requires Reachable(c, s) && g in c.gateways && g in s.gateways && s.gateways[g] == Gateway(Publishing, false)
    ensures Reachable(c, s')
    ensures s' == s.(gateways := s.gateways[g := Gateway(Serving, true)],
                     file := Holds(RecordOf(c, g)), publishes := s.publishes + [g])
  {
    s' := Reach(c, s, OfGateway(g, Publish(true)));
  }

  /** A gateway without admin listener gets from its start to serving undisturbed. */
  lemma Serves(c: Config, s: State, g: Id) returns (s': State)
    requires Reachable(c, s) && g in c.gateways && g in s.gateways && s.gateways[g] == Gateway(Fresh, false)
    requires c.gateways[g].admin.None? && c.gateways[g].inference !in s.holders
    ensures Reachable(c, s')
    ensures s'.gateways == s.gateways[g := Gateway(Serving, true)]
    ensures s'.holders == s.holders[c.gateways[g].inference := Gate(g)]
    ensures s'.file == Holds(RecordOf(c, g)) && s'.supervisors == s.supervisors
  {
    var bound := Binds(c, s, g);
    s' := Announces(c, bound, g);
    MoveOver(s.gateways, g, Gateway(BindingAdmin, false), Gateway(Serving, true));
  }

  lemma Announces(c: Config, s: State, g: Id) returns (s': State)
    requires Reachable(c, s) && g in c.gateways && g in s.gateways && s.gateways[g] == Gateway(BindingAdmin, false)
    requires c.gateways[g].admin.None?
    ensures Reachable(c, s')
    ensures s'.gateways == s.gateways[g := Gateway(Serving, true)]
    ensures s'.file == Holds(RecordOf(c, g)) && s'.holders == s.holders && s'.supervisors == s.supervisors
  {
    var ready := SkipsAdmin(c, s, g);
    s' := Publishes(c, ready, g);
    MoveOver(s.gateways, g, Gateway(Publishing, false), Gateway(Serving, true));
  }

  lemma MoveOver(gateways: map<Id, Gateway>, g: Id, a: Gateway, b: Gateway)
    ensures gateways[g := a][g := b] == gateways[g := b]
  {
  }

  /** One step of supervisor 0 that leaves the record alone. */
  lemma Moves(c: Config, s: State, e: SupervisorStep, v: Supervisor) returns (s': State)
    requires Reachable(c, s) && SupervisorEnabled(c, s, 0, e) && SupervisorMoves(c, s, 0, e) == v
    requires !e.ClearRead? && !e.ClearUnlink?
    ensures Reachable(c, s') && 0 in s'.supervisors && s'.supervisors[0] == v
    ensures s'.file == s.file && s'.holders == s.holders && s'.gateways == s.gateways
  {
    s' := Reach(c, s, OfSupervisor(0, e));
  }

  const SOLO := GatewayConfig(100, 8787, None)
  const SOLO_RECORD := Record(100, 8787, 0, 1)

  /** Gateway 1 serves, is on disk and holds its port; supervisor 0 is at `v`. */
  ghost predicate SoloServes(c: Config, s: State, v: Supervisor) {
    && WellFormed(c) && Reachable(c, s) && c.gateways == map[1 := SOLO] && c.initial.Absent?
    && s.file == Holds(SOLO_RECORD) && Holding(s, 1, 8787)
    && 1 in s.gateways && s.gateways[1].published
    && 0 in s.supervisors && s.supervisors[0] == v
  }

  lemma SoloMoves(c: Config, s: State, e: SupervisorStep, v: Supervisor, v': Supervisor) returns (s': State)
    requires SoloServes(c, s, v) && SupervisorEnabled(c, s, 0, e) && SupervisorMoves(c, s, 0, e) == v'
    requires !e.ClearRead? && !e.ClearUnlink?
    ensures SoloServes(c, s', v')
  {
    s' := Moves(c, s, e, v');
  }

  lemma SoloStarts() returns (c: Config, s: State)
    ensures SoloServes(c, s, Idle(None))
  {
    c := Config(map[1 := SOLO], Absent, true);
    s := State(Absent, map[], map[1 := Gateway(Fresh, false)], map[0 := Idle(None)], [], []);
    ReachInit(c, s);
    s := Serves(c, s, 1);
  }

  lemma StopUnderWay() returns (c: Config, s: State)
    ensures SoloServes(c, s, AdminRequest(SOLO_RECORD))
  {
    c, s := SoloStarts();
    s := SoloMoves(c, s, Begin(true), Idle(None), Reading(StopEntry));
    s := SoloMoves(c, s, Read(false), Reading(StopEntry), Probing(StopEntry, SOLO_RECORD));
    s := SoloMoves(c, s, Probe(Ok(1)), Probing(StopEntry, SOLO_RECORD), StopReading);
    s := SoloMoves(c, s, Read(false), StopReading, AdminRequest(SOLO_RECORD));
  }

  /** The shutdown request is accepted and the next read fails. */
  lemma ReadFailsTrace(c: Config, s: State) returns (s': State)
    requires SoloServes(c, s, AdminRequest(SOLO_RECORD))
    ensures SoloServes(c, s', Clearing(Guarded(ReadFailed), 1))
  {
    var at := GoneReading(SOLO_RECORD, AfterAdmin);
    s' := SoloMoves(c, s, AskAdmin(true), AdminRequest(SOLO_RECORD), at);
    s' := SoloMoves(c, s', GoneRead(true), at, Clearing(Guarded(ReadFailed), 1));
  }

  /** The request is refused, the gateway is still there, and the probe times out. */
  lemma AbandonTrace(c: Config, s: State) returns (s': State)
    requires SoloServes(c, s, AdminRequest(SOLO_RECORD))
    ensures SoloServes(c, s', Reading(StopFinal(SOLO_RECORD)))
  {
    var top := LoopTop(false);
    s' := SoloMoves(c, s, AskAdmin(false), AdminRequest(SOLO_RECORD), GoneReading(SOLO_RECORD, top));
    s' := SoloMoves(c, s', GoneRead(false), GoneReading(SOLO_RECORD, top), GoneTesting(SOLO_RECORD, top));
    s' := SoloMoves(c, s', GoneTest(true, false), GoneTesting(SOLO_RECORD, top), Confirming(SOLO_RECORD, false));
    s' := SoloMoves(c, s', Probe(Silent), Confirming(SOLO_RECORD, false), Reading(StopFinal(SOLO_RECORD)));
  }

  /** The final status reads the record, gets no answer and finds the port held. */
  lemma UnresponsiveTrace(c: Config, s: State) returns (s': State)
    requires SoloServes(c, s, Reading(StopFinal(SOLO_RECORD)))
    ensures SoloServes(c, s', Clearing(Final(Unresponsive), 1))
  {
    var goal := StopFinal(SOLO_RECORD);
    s' := SoloMoves(c, s, Read(false), Reading(goal), Probing(goal, SOLO_RECORD));
    s' := SoloMoves(c, s', Probe(Silent), Probing(goal, SOLO_RECORD), BindTesting(goal, SOLO_RECORD));
    s' := SoloMoves(c, s', BindTest(true), BindTesting(goal, SOLO_RECORD), Clearing(Final(Unresponsive), 1));
  }

  lemma HastyTrace(why: Why) returns (c: Config, s: State)
    requires Hasty(why)
    ensures WellFormed(c) && Reachable(c, s) && Endangers(c, s, 0, why, 1)
  {
    c, s := StopUnderWay();
    if why.Guarded? {
      s := ReadFailsTrace(c, s);
    } else {
      s := AbandonTrace(c, s);
      if why == Final(Corrupt) {
        s := SoloMoves(c, s, Read(true), Reading(StopFinal(SOLO_RECORD)), Clearing(why, 1));
      } else {
        s := UnresponsiveTrace(c, s);
      }
    }
  }

  lemma Closes(c: Config, s: State) returns (s': State)
    requires Reachable(c, s) && 1 in c.gateways && 1 in s.gateways && s.gateways[1] == Gateway(Serving, true)
    requires s.holders == map[8787 := Gate(1)]
    ensures Reachable(c, s')
    ensures s' == s.(gateways := s.gateways[1 := Gateway(Closing, true)], holders := map[])
  {
    var closing := Reach(c, s, OfGateway(1, BeginClose));
    s' := Reach(c, closing, OfGateway(1, Release(8787)));
    assert s'.holders == map[];
  }

  /** The first gateway has read its own record in order to retract it. */
  lemma RetractUnderWay(c: Config, s: State) returns (s': State)
    requires Reachable(c, s) && !c.atomicClear && 1 in c.gateways
    requires 1 in s.gateways && s.gateways[1] == Gateway(Closing, true)
    requires s.holders == map[] && Names(s.file, 1)
    ensures Reachable(c, s') && s'.holders == map[]
    ensures s'.gateways == s.gateways[1 := Gateway(Retracting(|s.publishes|), true)]
  {
    s' := Reach(c, s, OfGateway(1, RetractRead(false)));
  }

  lemma StaleRetract(c: Config, s: State) returns (s': State)
    requires Reachable(c, s) && {1, 2} <= c.gateways.Keys && {1, 2} <= s.gateways.Keys
    requires s.gateways[1].phase.Retracting? && s.gateways[2].phase.Serving? && HoldsInference(c, s, 2)
    ensures Reachable(c, s') && s'.file.Absent? && HoldsInference(c, s', 2)
    ensures 2 in s'.gateways && s'.gateways[2].phase.Serving?
  {
    s' := Reach(c, s, OfGateway(1, RetractUnlink(true)));
  }

  const TWINS := Config(map[1 := SOLO, 2 := GatewayConfig(200, 8787, None)], Absent, false)

  lemma TwinsConflict()
    ensures WellFormed(TWINS) && Conflict(TWINS)
  {
    assert 8787 in PortsOf(TWINS.gateways[1]) * PortsOf(TWINS.gateways[2]);
  }

  lemma FirstTwinRetracts() returns (s: State)
    ensures Reachable(TWINS, s) && {1, 2} <= s.gateways.Keys && s.holders == map[]
    ensures s.gateways[1].phase.Retracting? && s.gateways[2] == Gateway(Fresh, false)
  {
    s := State(Absent, map[], map[1 := Gateway(Fresh, false), 2 := Gateway(Fresh, false)], map[], [], []);
    ReachInit(TWINS, s);
    s := Serves(TWINS, s, 1);
    s := Closes(TWINS, s);
    s := RetractUnderWay(TWINS, s);
  }

  /** Two gateways configured alike: the second publishes between the first one's
    * read and its unlink, and serves with nothing on disk. */
  lemma OvertakenTrace() returns (s: State)
    ensures WellFormed(TWINS) && Conflict(TWINS) && Reachable(TWINS, s)
    ensures 2 in s.gateways && s.gateways[2].phase.Serving? && HoldsInference(TWINS, s, 2) && s.file.Absent?
  {
    TwinsConflict();
    s := FirstTwinRetracts();
    s := Serves(TWINS, s, 2);
    s := StaleRetract(TWINS, s);
  }
}
