/** `GatewaySupervisor` as a step relation, in the same form as the Router's.
    Its handlers clear the child whoever exited, its attach does not look at what
    it owns, and its poll does not look again at the child once it is answered. */
module GatewayProtocol {
  import opened Wrappers
  import opened Processes

  datatype Kind = Stopped | Attached | Starting | Running(pid: nat) | Failed

  /** Where one call of `attachOrStart` waits, or that it is over. */
  datatype StartPc = Over | Probing | Polling(child: nat) | Pausing(child: nat)

  datatype StopPc = NoStop | Grace(child: nat, again: bool)

  /** `starts` are the calls of `attachOrStart` so far, in order. */
  datatype State = State(child: Option<nat>, owned: bool, kind: Kind, configured: bool, starts: seq<StartPc>,
                         stop: StopPc, world: World, next: nat)

  const INITIAL := State(None, false, Stopped, false, [], NoStop, EMPTY, 0)

  datatype Event =
    | AttachOrStart
    | ProbeAnswer(call: nat, healthy: bool, outcome: SpawnOutcome)
    | PollAnswer(call: nat, healthy: bool, late: bool)
    | PauseOver(call: nat)
    | Stop
    | GraceExit
    | GraceOver
    | Restart
    | Die(pid: nat)
    | DeliverExit(pid: nat)
    | DeliverError(pid: nat)

  /** Where a call stands; one never made is as good as over. */
  function Pc(s: State, call: nat): StartPc { if call < |s.starts| then s.starts[call] else Over }

  function Goto(s: State, call: nat, pc: StartPc): State
    requires call < |s.starts|
  {
    s.(starts := s.starts[call := pc])
  }

  function BeginStart(s: State): State { s.(configured := true, starts := s.starts + [Probing]) }

  function EndStop(s: State, again: bool): State {
    var stopped := s.(child := None, owned := false, stop := NoStop);
    if again then BeginStart(stopped) else stopped
  }

  function BeginStop(s: State, again: bool): State {
    var stopped := s.(kind := Stopped);
    if s.child.None? || !s.owned then (if again then BeginStart(stopped.(child := None)) else stopped.(child := None))
    else stopped.(world := s.world.Signal(s.child.value), stop := Grace(s.child.value, again))
  }

  /** The exit handler clears the child whoever exited. */
  function OnExit(s: State, p: nat): State {
    s.(world := s.world.Reap(p), child := None, owned := false, kind := if s.kind.Stopped? then s.kind else Failed)
  }

  function OnError(s: State, p: nat): State {
    s.(world := s.world.Reap(p), child := None, owned := false, kind := Failed)
  }

  function Launch(s: State, call: nat, outcome: SpawnOutcome): State
    requires call < |s.starts|
  {
    match outcome
    case Threw => Goto(s, call, Over).(kind := Failed)
    case Spawned => Adopt(Goto(s, call, Polling(s.next))).(world := s.world.Spawn(s.next))
    case WillError => Adopt(Goto(s, call, Polling(s.next))).(world := s.world.Misfire(s.next))
  }

  function Adopt(s: State): State { s.(kind := Starting, child := Some(s.next), owned := true, next := s.next + 1) }

  /** The state after an event, or none when it cannot happen now. A stop is not
      begun while another is under way; starts may be. */
  function Next(s: State, e: Event): Option<State> {
    match e
    case AttachOrStart => Some(BeginStart(s))
    case ProbeAnswer(call, healthy, outcome) =>
      if !Pc(s, call).Probing? then None
      else if healthy then Some(Goto(s, call, Over).(owned := false, kind := Attached))
      else Some(Launch(s, call, outcome))
    case PollAnswer(call, healthy, late) =>
      if !Pc(s, call).Polling? then None
      else
        var c := Pc(s, call).child;
        if healthy then Some(Goto(s, call, Over).(kind := Running(c)))
        else if late then Some(Goto(s, call, Over).(kind := Failed))
        else Some(Goto(s, call, Pausing(c)))
    case PauseOver(call) =>
      if !Pc(s, call).Pausing? then None
      else if s.child.None? then Some(Goto(s, call, Over).(kind := Failed))
      else Some(Goto(s, call, Polling(Pc(s, call).child)))
    case Stop => if !s.stop.NoStop? then None else Some(BeginStop(s, false))
    case GraceExit =>
      if !s.stop.Grace? || s.stop.child in s.world.pending then None else Some(EndStop(s, s.stop.again))
    case GraceOver =>
      if !s.stop.Grace? then None
      else Some(EndStop(s.(world := s.world.Kill(s.stop.child)), s.stop.again))
    case Restart =>
      if !s.stop.NoStop? then None
      else if !s.owned || !s.configured then Some(s) else Some(BeginStop(s, true))
    case Die(p) => Some(s.(world := s.world.Die(p)))
    case DeliverExit(p) => if s.world.Due(p) && p !in s.world.misfired then Some(OnExit(s, p)) else None
    case DeliverError(p) => if s.world.Due(p) && p in s.world.misfired then Some(OnError(s, p)) else None
  }

  function Run(s: State, events: seq<Event>): Option<State>
    decreases |events|
  {
    if events == [] then Some(s)
    else match Next(s, events[0])
      case None => None
      case Some(s') => Run(s', events[1..])
  }

  predicate Idle(s: State) { forall k :: 0 <= k < |s.starts| ==> s.starts[k].Over? }

  predicate Spawns(e: Event) { e.ProbeAnswer? && !e.healthy && !e.outcome.Threw? }

  /** Operations do not overlap, except that a start may be stopped; nothing is
      attached or started while a child is owned; and a new child is only
      spawned once every earlier child's exit has been delivered. */
  predicate Disciplined(s: State, e: Event) {
    && (e.AttachOrStart? ==> s.stop.NoStop? && Idle(s) && s.child.None?)
    && (e.Restart? ==> s.stop.NoStop? && Idle(s))
    && (e.Stop? ==> s.stop.NoStop?)
    && (Spawns(e) ==> s.world.pending == {})
  }

  predicate AllDisciplined(s: State, events: seq<Event>)
    decreases |events|
  {
    events == [] ||
    (Disciplined(s, events[0]) && (Next(s, events[0]).Some? ==> AllDisciplined(Next(s, events[0]).value, events[1..])))
  }

  // --------------------------------------------------------------- invariant

  ghost predicate Ownership(s: State) {
    && (s.owned <==> s.child.Some?)
    && (s.kind.Attached? ==> !s.owned)
    && (s.child.Some? ==> s.world.pending == {s.child.value})
    && s.world.Tracked(s.child)
    && s.world.Sane(s.next)
  }

  ghost predicate NoOther(s: State, c: nat) { !s.kind.Attached? && (s.child == None || s.child == Some(c)) }

  /** The call made last, which in a disciplined run is the only one under way. */
  function Last(s: State): StartPc { if s.starts == [] then Over else s.starts[|s.starts| - 1] }

  ghost predicate OpsInv(s: State) {
    && (forall k :: 0 <= k < |s.starts| - 1 ==> s.starts[k].Over?)
    && (match Last(s)
        case Over => true
        case Probing => s.child.None? && s.stop.NoStop?
        case Polling(c) => NoOther(s, c)
        case Pausing(c) => NoOther(s, c))
    && (match s.stop
        case NoStop => true
        case Grace(c, again) => NoOther(s, c) && c in s.world.signalled && (again ==> Last(s).Over?))
  }

  ghost predicate Inv(s: State) { Ownership(s) && OpsInv(s) }

  ghost predicate Expected(s: State, p: nat) { p in s.world.pending && p !in s.world.killed }

  /** What `running` says about its child, and what that rests on: a tracked child
      has not been killed, and a child being polled for is lost only by exiting
      or being killed. */
  ghost predicate RunningInv(s: State) {
    && (s.kind.Running? ==> (s.child == Some(s.kind.pid) <==> Expected(s, s.kind.pid)))
    && (s.child.Some? ==> s.child.value !in s.world.killed)
    && (Last(s).Polling? || Last(s).Pausing? ==> s.child == Some(Last(s).child) || !Expected(s, Last(s).child))
    && (s.kind.Running? ==> s.kind.pid in s.world.spawned)
    && (Last(s).Polling? || Last(s).Pausing? ==> Last(s).child in s.world.spawned)
  }

  predicate Polls(e: Event) { e.PollAnswer? || e.PauseOver? }

  predicate OfAStop(e: Event) { e.Stop? || e.GraceExit? || e.GraceOver? || e.Restart? }

  predicate OfAChild(e: Event) { e.Die? || e.DeliverExit? || e.DeliverError? }

  lemma AskingStepsKeepInv(s: State, e: Event)
    requires Inv(s) && Next(s, e).Some? && Disciplined(s, e) && e.AttachOrStart?
    ensures Inv(Next(s, e).value)
  {
  }

  lemma SpawningStepsKeepInv(s: State, e: Event)
    requires Inv(s) && Next(s, e).Some? && Disciplined(s, e) && e.ProbeAnswer?
    ensures Inv(Next(s, e).value)
  {
    assert e.call == |s.starts| - 1;
  }

  lemma PollingStepsKeepInv(s: State, e: Event)
    requires Inv(s) && Next(s, e).Some? && Disciplined(s, e) && Polls(e)
    ensures Inv(Next(s, e).value)
  {
    assert e.call == |s.starts| - 1;
  }

  lemma StopStepsKeepInv(s: State, e: Event)
    requires Inv(s) && Next(s, e).Some? && Disciplined(s, e) && OfAStop(e)
    ensures Inv(Next(s, e).value)
  {
  }

  lemma ChildEventsKeepInv(s: State, e: Event)
    requires Inv(s) && Next(s, e).Some? && OfAChild(e)
    ensures Inv(Next(s, e).value)
  {
  }

  lemma StepKeepsInv(s: State, e: Event)
    requires Inv(s) && Next(s, e).Some? && Disciplined(s, e)
    ensures Inv(Next(s, e).value)
  {
    hide Inv;
    hide Next;
    if e.AttachOrStart? {
      AskingStepsKeepInv(s, e);
    } else if e.ProbeAnswer? {
      SpawningStepsKeepInv(s, e);
    } else if Polls(e) {
      PollingStepsKeepInv(s, e);
    } else if OfAChild(e) {
      ChildEventsKeepInv(s, e);
    } else {
      StopStepsKeepInv(s, e);
    }
  }

  lemma AskingStepsKeepRunning(s: State, e: Event)
    requires Inv(s) && RunningInv(s) && Next(s, e).Some? && Disciplined(s, e) && e.AttachOrStart?
    ensures RunningInv(Next(s, e).value)
  {
  }

  lemma SpawningStepsKeepRunning(s: State, e: Event)
    requires Inv(s) && RunningInv(s) && Next(s, e).Some? && Disciplined(s, e) && e.ProbeAnswer?
    ensures RunningInv(Next(s, e).value)
  {
    assert e.call == |s.starts| - 1;
  }

  lemma PollingStepsKeepRunning(s: State, e: Event)
    requires Inv(s) && RunningInv(s) && Next(s, e).Some? && Disciplined(s, e) && Polls(e)
    ensures RunningInv(Next(s, e).value)
  {
    assert e.call == |s.starts| - 1;
  }

  lemma StopStepsKeepRunning(s: State, e: Event)
    requires Inv(s) && RunningInv(s) && Next(s, e).Some? && Disciplined(s, e) && OfAStop(e)
    ensures RunningInv(Next(s, e).value)
  {
  }

  lemma ChildEventsKeepRunning(s: State, e: Event)
    requires Inv(s) && RunningInv(s) && Next(s, e).Some? && OfAChild(e)
    ensures RunningInv(Next(s, e).value)
  {
  }

  lemma StepKeepsRunning(s: State, e: Event)
    requires Inv(s) && RunningInv(s) && Next(s, e).Some? && Disciplined(s, e)
    ensures RunningInv(Next(s, e).value)
  {
    hide Inv;
    hide RunningInv;
    hide Next;
    if e.AttachOrStart? {
      AskingStepsKeepRunning(s, e);
    } else if e.ProbeAnswer? {
      SpawningStepsKeepRunning(s, e);
    } else if Polls(e) {
      PollingStepsKeepRunning(s, e);
    } else if OfAChild(e) {
      ChildEventsKeepRunning(s, e);
    } else {
      StopStepsKeepRunning(s, e);
    }
  }

  lemma {:induction false} RunKeepsInv(s: State, events: seq<Event>)
    requires Inv(s) && RunningInv(s) && Run(s, events).Some? && AllDisciplined(s, events)
    ensures Inv(Run(s, events).value) && RunningInv(Run(s, events).value)
    decreases |events|
  {
    hide Inv;
    hide RunningInv;
    hide Disciplined;
    hide Next;
    if events == [] {
    } else {
      StepKeepsInv(s, events[0]);
      StepKeepsRunning(s, events[0]);
      RunKeepsInv(Next(s, events[0]).value, events[1..]);
    }
  }

  // ---------------------------------------------------------------- theorems

  /** Along every disciplined run: the supervisor owns exactly when it has a
      child, an attached gateway is never owned, only spawned processes are ever
      signalled, every child alive is the tracked one or was killed, and
      `running` names the tracked child exactly while that child's exit is to
      come and it has not been killed. */
  lemma EveryReachableState(events: seq<Event>)
    requires Run(INITIAL, events).Some? && AllDisciplined(INITIAL, events)
    ensures var s := Run(INITIAL, events).value;
            && (s.owned <==> s.child.Some?)
            && (s.kind.Attached? ==> !s.owned)
            && s.world.signalled <= s.world.spawned
            && (forall p :: p in s.world.live ==> s.child == Some(p) || p in s.world.killed)
            && (s.kind.Running? ==>
                  (s.child == Some(s.kind.pid) <==> s.kind.pid in s.world.pending && s.kind.pid !in s.world.killed))
  {
    RunKeepsInv(INITIAL, events);
  }

  /** The exit handler loses no living child exactly when there is no child, it
      is the one that exited, or it is dead or killed itself. */
  lemma ExitKeepsTrackIff(s: State, p: nat)
    requires forall q :: q in s.world.live ==> s.child == Some(q) || q in s.world.killed
    ensures (forall q :: q in s.world.live ==> OnExit(s, p).child == Some(q) || q in s.world.killed)
       <==> s.child.None? || s.child.value !in s.world.live || s.child.value in s.world.killed
  {
  }

  /** Attaching while a living child is owned disowns it: the probe answers for
      the very gateway this shell started. */
  lemma AttachDisownsIff(s: State, call: nat)
    requires Pc(s, call).Probing? && (s.owned <==> s.child.Some?)
    ensures var after := Next(s, ProbeAnswer(call, true, Spawned)).value;
            (after.owned <==> after.child.Some?) <==> s.child.None?
  {
  }

  /** A spawn loses no child exactly when the tracked one has been reaped or
      killed, or there is none. */
  lemma SpawnKeepsTrackIff(s: State, call: nat, outcome: SpawnOutcome)
    requires Pc(s, call).Probing? && !outcome.Threw?
    requires s.world.Tracked(s.child) && s.world.Sane(s.next)
    ensures var after := Next(s, ProbeAnswer(call, false, outcome)).value;
            after.world.Tracked(after.child) <==>
              s.child.None? || s.child.value !in s.world.pending || s.child.value in s.world.killed
  {
    var after := Next(s, ProbeAnswer(call, false, outcome)).value;
    assert after.world.pending == s.world.pending + {s.next} && after.world.killed == s.world.killed;
    if s.child.Some? && s.child.value in s.world.pending && s.child.value !in s.world.killed {
      assert s.child.value in after.world.pending;
    }
  }

  lemma RunStep(s: State, e: Event, rest: seq<Event>)
    requires Next(s, e).Some?
    ensures Run(s, [e] + rest) == Run(Next(s, e).value, rest)
    ensures rest == [] ==> Run(s, [e] + rest) == Next(s, e)
    ensures AllDisciplined(s, [e] + rest) <==> Disciplined(s, e) && AllDisciplined(Next(s, e).value, rest)
  {
    hide Next;
    assert ([e] + rest)[1..] == rest;
  }

  lemma {:induction false} RunAppends(s: State, events: seq<Event>, more: seq<Event>)
    requires Run(s, events).Some?
    ensures Run(s, events + more) == Run(Run(s, events).value, more)
    ensures AllDisciplined(s, events) && AllDisciplined(Run(s, events).value, more) ==> AllDisciplined(s, events + more)
    decreases |events|
  {
    hide Next;
    hide Disciplined;
    if events == [] {
      assert events + more == more;
    } else {
      assert events + more == [events[0]] + (events[1..] + more);
      assert events == [events[0]] + events[1..];
      RunStep(s, events[0], events[1..] + more);
      RunStep(s, events[0], events[1..]);
      RunAppends(Next(s, events[0]).value, events[1..], more);
    }
  }

  lemma NothingToDiscipline()
    ensures forall s :: AllDisciplined(s, [])
  {
  }

  /** Child 0 spawned, answering and owned. */
  const SERVING :=
    State(Some(0), true, Running(0), true, [Over], NoStop, World({0}, {0}, {}, {0}, {}, {}), 1)

  /** A start on a free port reaches `running`. */
  lemma StartServes() returns (events: seq<Event>)
    ensures Run(INITIAL, events) == Some(SERVING) && AllDisciplined(INITIAL, events)
  {
    hide Run;
    hide AllDisciplined;
    NothingToDiscipline();
    var s0 := INITIAL;
    var s1 := Next(s0, AttachOrStart).value;
    var s2 := Next(s1, ProbeAnswer(0, false, Spawned)).value;
    var s3 := Next(s2, PollAnswer(0, true, false)).value;
    var e3: seq<Event> := [];
    var e2 := [PollAnswer(0, true, false)] + e3;
    var e1 := [ProbeAnswer(0, false, Spawned)] + e2;
    var e0 := [AttachOrStart] + e1;
    RunStep(s2, PollAnswer(0, true, false), e3);
    RunStep(s1, ProbeAnswer(0, false, Spawned), e2);
    RunStep(s0, AttachOrStart, e1);
    events := e0;
    assert s3.starts == SERVING.starts;
    assert s3 == SERVING;
  }

  /** Asked to attach or start a second time, the shell attaches to its own
      gateway, and a stop then leaves it alive, unsignalled and untracked. */
  lemma AttachThenStopOrphans() returns (events: seq<Event>)
    ensures Run(INITIAL, events).Some?
    ensures var s := Run(INITIAL, events).value; s.child.None? && 0 in s.world.live && 0 !in s.world.signalled
  {
    hide Run;
    hide AllDisciplined;
    var before := StartServes();
    var s0 := SERVING;
    var s1 := Next(s0, AttachOrStart).value;
    var s2 := Next(s1, ProbeAnswer(1, true, Spawned)).value;
    var s3 := Next(s2, Stop).value;
    var e3: seq<Event> := [];
    var e2 := [Stop] + e3;
    var e1 := [ProbeAnswer(1, true, Spawned)] + e2;
    var e0 := [AttachOrStart] + e1;
    RunStep(s2, Stop, e3);
    RunStep(s1, ProbeAnswer(1, true, Spawned), e2);
    RunStep(s0, AttachOrStart, e1);
    RunAppends(INITIAL, before, e0);
    events := before + e0;
  }

  /** Two starts at once both find nothing serving and both spawn: the first
      child is left alive, unsignalled and untracked. */
  lemma TwoStartsOrphanTheFirst() returns (events: seq<Event>)
    ensures Run(INITIAL, events).Some?
    ensures var s := Run(INITIAL, events).value;
            s.child == Some(1) && 0 in s.world.live && 0 !in s.world.signalled
  {
    hide Run;
    hide AllDisciplined;
    var s0 := INITIAL;
    var s1 := Next(s0, AttachOrStart).value;
    var s2 := Next(s1, AttachOrStart).value;
    var s3 := Next(s2, ProbeAnswer(0, false, Spawned)).value;
    var s4 := Next(s3, ProbeAnswer(1, false, Spawned)).value;
    var e4: seq<Event> := [];
    var e3 := [ProbeAnswer(1, false, Spawned)] + e4;
    var e2 := [ProbeAnswer(0, false, Spawned)] + e3;
    var e1 := [AttachOrStart] + e2;
    var e0 := [AttachOrStart] + e1;
    RunStep(s3, ProbeAnswer(1, false, Spawned), e4);
    RunStep(s2, ProbeAnswer(0, false, Spawned), e3);
    RunStep(s1, AttachOrStart, e2);
    RunStep(s0, AttachOrStart, e1);
    events := e0;
  }

  /** Child 1 serving while the exit of the killed child 0 is still due. */
  const OVERTAKEN :=
    State(Some(1), true, Running(1), true, [Over, Over], NoStop, World({0, 1}, {0, 1}, {}, {0, 1}, {0}, {0}), 2)

  /** A restart may spawn before the killed child's exit is delivered. */
  lemma SpawnOvertakesExit() returns (events: seq<Event>)
    ensures Run(INITIAL, events) == Some(OVERTAKEN)
  {
    hide Run;
    hide AllDisciplined;
    var before := StartServes();
    var s0 := SERVING;
    var s1 := Next(s0, Restart).value;
    var s2 := Next(s1, GraceOver).value;
    var s3 := Next(s2, ProbeAnswer(1, false, Spawned)).value;
    var s4 := Next(s3, PollAnswer(1, true, false)).value;
    var e4: seq<Event> := [];
    var e3 := [PollAnswer(1, true, false)] + e4;
    var e2 := [ProbeAnswer(1, false, Spawned)] + e3;
    var e1 := [GraceOver] + e2;
    var e0 := [Restart] + e1;
    RunStep(s3, PollAnswer(1, true, false), e4);
    RunStep(s2, ProbeAnswer(1, false, Spawned), e3);
    RunStep(s1, GraceOver, e2);
    RunStep(s0, Restart, e1);
    RunAppends(INITIAL, before, e0);
    events := before + e0;
    assert s4.starts == OVERTAKEN.starts;
    assert s4 == OVERTAKEN;
  }

  /** The late exit then untracks the new child, alive and never signalled. */
  lemma LateExitOrphansTheNextChild() returns (events: seq<Event>)
    ensures Run(INITIAL, events).Some?
    ensures var s := Run(INITIAL, events).value; s.child.None? && 1 in s.world.live && 1 !in s.world.signalled
  {
    hide Run;
    hide AllDisciplined;
    var before := SpawnOvertakesExit();
    var s0 := OVERTAKEN;
    var s1 := Next(s0, Die(0)).value;
    var s2 := Next(s1, DeliverExit(0)).value;
    var e2: seq<Event> := [];
    var e1 := [DeliverExit(0)] + e2;
    var e0 := [Die(0)] + e1;
    RunStep(s1, DeliverExit(0), e2);
    RunStep(s0, Die(0), e1);
    RunAppends(INITIAL, before, e0);
    events := before + e0;
  }

  /** A gateway that exits while its poll is in flight is reported `running`
      although nothing is owned, even in a disciplined run: the answered poll
      does not look at the child again. */
  lemma ExitDuringPollEndsRunning() returns (events: seq<Event>)
    ensures Run(INITIAL, events).Some? && AllDisciplined(INITIAL, events)
    ensures var s := Run(INITIAL, events).value; s.kind.Running? && !s.owned && s.world.live == {}
  {
    hide Run;
    hide AllDisciplined;
    NothingToDiscipline();
    var s0 := INITIAL;
    var s1 := Next(s0, AttachOrStart).value;
    var s2 := Next(s1, ProbeAnswer(0, false, Spawned)).value;
    var s3 := Next(s2, Die(0)).value;
    var s4 := Next(s3, DeliverExit(0)).value;
    var s5 := Next(s4, PollAnswer(0, true, false)).value;
    var e5: seq<Event> := [];
    var e4 := [PollAnswer(0, true, false)] + e5;
    var e3 := [DeliverExit(0)] + e4;
    var e2 := [Die(0)] + e3;
    var e1 := [ProbeAnswer(0, false, Spawned)] + e2;
    var e0 := [AttachOrStart] + e1;
    RunStep(s4, PollAnswer(0, true, false), e5);
    RunStep(s3, DeliverExit(0), e4);
    RunStep(s2, Die(0), e3);
    RunStep(s1, ProbeAnswer(0, false, Spawned), e2);
    RunStep(s0, AttachOrStart, e1);
    events := e0;
  }
}
