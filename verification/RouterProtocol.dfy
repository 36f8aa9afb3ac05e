/** `RouterSupervisor` as a step relation: each step is the code between two
    awaits of one operation, or the delivery of a child's event. */
module RouterProtocol {
  import opened Wrappers
  import opened Processes

  datatype Kind = Off | NeedsConfig | Starting | Running(pid: nat) | Attached | Conflict | Failed

  /** Who answers on the port. */
  datatype Holder = Router | Gateway | Stranger | Nothing

  /** Where one call of `start` waits, or that it is over. */
  datatype StartPc = Over | Probing | Checking | Polling(child: nat) | Pausing(child: nat) | GivingUp(child: nat)

  /** Where a stop waits; `again` marks the stop of a restart. */
  datatype StopPc = NoStop | Grace(child: nat, again: bool) | Killing(child: nat, again: bool)

  /** `starts` are the calls of `start` so far that got past its first checks, in
      order. */
  datatype State = State(child: Option<nat>, owned: bool, kind: Kind, configured: bool, discovering: bool,
                         starts: seq<StartPc>, stop: StopPc, world: World, next: nat)

  const INITIAL := State(None, false, Off, false, false, [], NoStop, EMPTY, 0)

  datatype Event =
    | Discover
    | DiscoverAnswer(holder: Holder)
    | Start(clash: bool)
    | StartAnswer(call: nat, holder: Holder)
    | ConfigAnswer(call: nat, ok: bool, outcome: SpawnOutcome, portWords: bool)
    | PollAnswer(call: nat, isRouter: bool, late: bool, portWords: bool)
    | PauseOver(call: nat)
    | GiveUp(call: nat, portWords: bool)
    | Stop
    | GraceExit
    | GraceOver
    | KillOver
    | Restart
    | Die(pid: nat)
    | DeliverExit(pid: nat)
    | DeliverError(pid: nat)

  /** Where a call of `start` stands; one never made is as good as over. */
  function Pc(s: State, call: nat): StartPc { if call < |s.starts| then s.starts[call] else Over }

  function Goto(s: State, call: nat, pc: StartPc): State
    requires call < |s.starts|
  {
    s.(starts := s.starts[call := pc])
  }

  /** The catch block of `start`: nothing to report unless still starting. */
  function Caught(s: State, call: nat, portWords: bool): State
    requires call < |s.starts|
  {
    Goto(s, call, Over).(kind := if !s.kind.Starting? then s.kind else if portWords then Conflict else Failed)
  }

  /** The first segment of `start`. */
  function BeginStart(s: State, clash: bool): State {
    if s.owned && s.child.Some? then s
    else if clash then s.(configured := true, kind := Conflict)
    else s.(configured := true, starts := s.starts + [Probing])
  }

  /** The end of `stop`; a restart goes straight on to `start`. */
  function EndStop(s: State, again: bool): State {
    var stopped := s.(child := None, owned := false, stop := NoStop);
    if again then BeginStart(stopped, false) else stopped
  }

  /** The first segment of `stop`. */
  function BeginStop(s: State, again: bool): State {
    var off := s.(kind := Off);
    if s.child.None? || !s.owned then (if again then BeginStart(off.(child := None), false) else off.(child := None))
    else if s.child.value in s.world.pending then
      off.(world := off.world.Signal(s.child.value), stop := Grace(s.child.value, again))
    else EndStop(off, again)
  }

  /** The exit handler: `owned` is cleared whoever exited. */
  function OnExit(s: State, p: nat): State {
    s.(world := s.world.Reap(p),
       child := if s.child == Some(p) then None else s.child,
       owned := false,
       kind := if s.kind.Off? || s.kind.Starting? then s.kind else Failed)
  }

  function OnError(s: State, p: nat): State {
    s.(world := s.world.Reap(p),
       child := if s.child == Some(p) then None else s.child,
       owned := false,
       kind := if s.kind.Starting? then s.kind else Failed)
  }

  /** The spawn at the end of `start`'s checks, in the same segment. */
  function Launch(s: State, call: nat, outcome: SpawnOutcome, portWords: bool): State
    requires call < |s.starts|
  {
    var starting := s.(kind := Starting);
    match outcome
    case Threw => Caught(starting, call, portWords)
    case Spawned => Adopt(Goto(starting, call, Polling(s.next))).(world := s.world.Spawn(s.next))
    case WillError => Adopt(Goto(starting, call, Polling(s.next))).(world := s.world.Misfire(s.next))
  }

  function Adopt(s: State): State { s.(child := Some(s.next), owned := true, next := s.next + 1) }

  /** The state after an event, or none when it cannot happen now. A look at the
      port, or a stop, is not begun while another is under way; starts may be. */
  function Next(s: State, e: Event): Option<State> {
    match e
    case Discover =>
      if s.discovering then None
      else if s.owned || s.kind.Starting? then Some(s) else Some(s.(discovering := true))
    case DiscoverAnswer(holder) =>
      if !s.discovering then None
      else Some(s.(discovering := false,
                   kind := match holder case Router => Attached case Nothing => Off case _ => Conflict))
    case Start(clash) => Some(BeginStart(s, clash))
    case StartAnswer(call, holder) =>
      if !Pc(s, call).Probing? then None
      else (match holder
            case Router => Some(Goto(s, call, Over).(owned := false, kind := Attached))
            case Nothing => Some(Goto(s, call, Checking))
            case _ => Some(Goto(s, call, Over).(kind := Conflict)))
    case ConfigAnswer(call, ok, outcome, portWords) =>
      if !Pc(s, call).Checking? then None
      else if !ok then Some(Goto(s, call, Over).(kind := NeedsConfig))
      else Some(Launch(s, call, outcome, portWords))
    case PollAnswer(call, isRouter, late, portWords) =>
      if !Pc(s, call).Polling? then None
      else
        var c := Pc(s, call).child;
        if isRouter && s.child == Some(c) then Some(Goto(s, call, Over).(kind := Running(c)))
        else if late then Some(Caught(s, call, portWords))
        else Some(Goto(s, call, Pausing(c)))
    case PauseOver(call) =>
      if !Pc(s, call).Pausing? then None
      else
        var c := Pc(s, call).child;
        Some(Goto(s, call, if s.child != Some(c) || c !in s.world.pending then GivingUp(c) else Polling(c)))
    case GiveUp(call, portWords) => if !Pc(s, call).GivingUp? then None else Some(Caught(s, call, portWords))
    case Stop => if !s.stop.NoStop? then None else Some(BeginStop(s, false))
    case GraceExit =>
      if !s.stop.Grace? || s.stop.child in s.world.pending then None else Some(EndStop(s, s.stop.again))
    case GraceOver =>
      if !s.stop.Grace? then None
      else Some(s.(world := s.world.Kill(s.stop.child), stop := Killing(s.stop.child, s.stop.again)))
    case KillOver => if !s.stop.Killing? then None else Some(EndStop(s, s.stop.again))
    case Restart =>
      if !s.stop.NoStop? then None
      else if !s.owned || !s.configured then Some(s) else Some(BeginStop(s, true))
    case Die(p) => Some(s.(world := s.world.Die(p)))
    case DeliverExit(p) => if s.world.Due(p) && p !in s.world.misfired then Some(OnExit(s, p)) else None
    case DeliverError(p) => if s.world.Due(p) && p in s.world.misfired then Some(OnError(s, p)) else None
  }

  function Run(s: State, events: seq<Event>): Option<State>
    decreases |events|
  {
    if events == [] then Some(s)
    else match Next(s, events[0])
      case None => None
      case Some(s') => Run(s', events[1..])
  }

  predicate Idle(s: State) { forall k :: 0 <= k < |s.starts| ==> s.starts[k].Over? }

  predicate Quiet(s: State) { !s.discovering && s.stop.NoStop? }

  predicate Spawns(e: Event) { e.ConfigAnswer? && e.ok && !e.outcome.Threw? }

  /** Operations do not overlap, except that a start may be stopped; and a new
      child is only spawned once every earlier child's exit has been delivered. */
  predicate Disciplined(s: State, e: Event) {
    && (e.Discover? || e.Start? || e.Restart? ==> Quiet(s) && Idle(s))
    && (e.Stop? ==> Quiet(s))
    && (Spawns(e) ==> s.world.pending == {})
  }

  predicate AllDisciplined(s: State, events: seq<Event>)
    decreases |events|
  {
    events == [] ||
    (Disciplined(s, events[0]) && (Next(s, events[0]).Some? ==> AllDisciplined(Next(s, events[0]).value, events[1..])))
  }

  // --------------------------------------------------------------- invariant

  ghost predicate Ownership(s: State) {
    && (s.owned <==> s.child.Some?)
    && (s.kind.Attached? ==> !s.owned)
    && (s.child.Some? ==> s.world.pending == {s.child.value})
    && s.world.Tracked(s.child)
    && s.world.Sane(s.next)
  }

  ghost predicate NoOther(s: State, c: nat) { !s.kind.Attached? && (s.child == None || s.child == Some(c)) }

  /** The start called last, which in a disciplined run is the only one under way. */
  function Last(s: State): StartPc { if s.starts == [] then Over else s.starts[|s.starts| - 1] }

  ghost predicate OpsInv(s: State) {
    && (forall k :: 0 <= k < |s.starts| - 1 ==> s.starts[k].Over?)
    && (s.discovering ==> s.child.None? && Last(s).Over? && s.stop.NoStop?)
    && (match Last(s)
        case Over => true
        case Probing => s.child.None? && s.stop.NoStop?
        case Checking => s.child.None? && s.stop.NoStop?
        case Polling(c) => NoOther(s, c)
        case Pausing(c) => NoOther(s, c)
        case GivingUp(c) => NoOther(s, c))
    && (match s.stop
        case NoStop => true
        case Grace(c, again) => NoOther(s, c) && c in s.world.signalled && (again ==> Last(s).Over?)
        case Killing(c, again) => NoOther(s, c) && c in s.world.killed && (again ==> Last(s).Over?))
  }

  ghost predicate Inv(s: State) { Ownership(s) && OpsInv(s) }

  predicate BeingKilled(s: State, p: nat) { s.stop.Killing? && s.stop.child == p }

  /** What `running` says about its child, and what that rests on: a tracked child
      has been killed only by a stop still waiting for it, and a stop loses its
      child only to the child's exit. */
  ghost predicate RunningInv(s: State) {
    && (s.kind.Running? ==>
          var p := s.kind.pid;
          s.child == Some(p) <==> p in s.world.pending && (p in s.world.killed ==> BeingKilled(s, p)))
    && (s.child.Some? && s.child.value in s.world.killed ==> BeingKilled(s, s.child.value))
    && (!s.stop.NoStop? ==> s.child == Some(s.stop.child) || s.stop.child !in s.world.pending)
    && (s.kind.Running? ==> s.kind.pid in s.world.spawned)
  }

  /** The steps that ask who holds the port, or hear the answer. */
  predicate Asks(e: Event) { e.Discover? || e.DiscoverAnswer? || e.Start? || e.StartAnswer? }

  predicate OfAStop(e: Event) { e.Stop? || e.GraceExit? || e.GraceOver? || e.KillOver? || e.Restart? }

  predicate OfAChild(e: Event) { e.Die? || e.DeliverExit? || e.DeliverError? }

  lemma AskingStepsKeepInv(s: State, e: Event)
    requires Inv(s) && Next(s, e).Some? && Disciplined(s, e) && Asks(e)
    ensures Inv(Next(s, e).value)
  {
  }

  lemma SpawnsKeepInv(s: State, e: Event)
    requires Inv(s) && Next(s, e).Some? && Disciplined(s, e) && Spawns(e)
    ensures Inv(Next(s, e).value)
  {
    assert e.call == |s.starts| - 1;
  }

  lemma RefusalsKeepInv(s: State, e: Event)
    requires Inv(s) && Next(s, e).Some? && Disciplined(s, e) && e.ConfigAnswer? && !Spawns(e)
    ensures Inv(Next(s, e).value)
  {
    assert e.call == |s.starts| - 1;
  }

  lemma PollAnswersKeepInv(s: State, e: Event)
    requires Inv(s) && Next(s, e).Some? && Disciplined(s, e) && e.PollAnswer?
    ensures Inv(Next(s, e).value)
  {
    assert e.call == |s.starts| - 1;
  }

  lemma PauseStepsKeepInv(s: State, e: Event)
    requires Inv(s) && Next(s, e).Some? && Disciplined(s, e) && (e.PauseOver? || e.GiveUp?)
    ensures Inv(Next(s, e).value)
  {
    assert e.call == |s.starts| - 1;
  }

  lemma StopStepsKeepInv(s: State, e: Event)
    requires Inv(s) && Next(s, e).Some? && Disciplined(s, e) && OfAStop(e)
    ensures Inv(Next(s, e).value)
  {
  }

  lemma ChildEventsKeepInv(s: State, e: Event)
    requires Inv(s) && Next(s, e).Some? && OfAChild(e)
    ensures Inv(Next(s, e).value)
  {
  }

  lemma StepKeepsInv(s: State, e: Event)
    requires Inv(s) && Next(s, e).Some? && Disciplined(s, e)
    ensures Inv(Next(s, e).value)
  {
    hide Inv;
    hide Next;
    if Asks(e) {
      AskingStepsKeepInv(s, e);
    } else if e.ConfigAnswer? {
      if Spawns(e) {
        SpawnsKeepInv(s, e);
      } else {
        RefusalsKeepInv(s, e);
      }
    } else if e.PollAnswer? {
      PollAnswersKeepInv(s, e);
    } else if e.PauseOver? || e.GiveUp? {
      PauseStepsKeepInv(s, e);
    } else if OfAChild(e) {
      ChildEventsKeepInv(s, e);
    } else {
      StopStepsKeepInv(s, e);
    }
  }

  lemma AskingStepsKeepRunning(s: State, e: Event)
    requires Inv(s) && RunningInv(s) && Next(s, e).Some? && Disciplined(s, e) && Asks(e)
    ensures RunningInv(Next(s, e).value)
  {
  }

  lemma SpawningStepsKeepRunning(s: State, e: Event)
    requires Inv(s) && RunningInv(s) && Next(s, e).Some? && Disciplined(s, e) && e.ConfigAnswer?
    ensures RunningInv(Next(s, e).value)
  {
    assert e.call == |s.starts| - 1;
  }

  lemma PollAnswersKeepRunning(s: State, e: Event)
    requires Inv(s) && RunningInv(s) && Next(s, e).Some? && Disciplined(s, e) && e.PollAnswer?
    ensures RunningInv(Next(s, e).value)
  {
    assert e.call == |s.starts| - 1;
  }

  lemma PauseStepsKeepRunning(s: State, e: Event)
    requires Inv(s) && RunningInv(s) && Next(s, e).Some? && Disciplined(s, e) && (e.PauseOver? || e.GiveUp?)
    ensures RunningInv(Next(s, e).value)
  {
    assert e.call == |s.starts| - 1;
  }

  lemma StopStepsKeepRunning(s: State, e: Event)
    requires Inv(s) && RunningInv(s) && Next(s, e).Some? && Disciplined(s, e) && OfAStop(e)
    ensures RunningInv(Next(s, e).value)
  {
  }

  lemma ChildEventsKeepRunning(s: State, e: Event)
    requires Inv(s) && RunningInv(s) && Next(s, e).Some? && OfAChild(e)
    ensures RunningInv(Next(s, e).value)
  {
  }

  lemma StepKeepsRunning(s: State, e: Event)
    requires Inv(s) && RunningInv(s) && Next(s, e).Some? && Disciplined(s, e)
    ensures RunningInv(Next(s, e).value)
  {
    hide Inv;
    hide RunningInv;
    hide Next;
    if Asks(e) {
      AskingStepsKeepRunning(s, e);
    } else if e.ConfigAnswer? {
      SpawningStepsKeepRunning(s, e);
    } else if e.PollAnswer? {
      PollAnswersKeepRunning(s, e);
    } else if e.PauseOver? || e.GiveUp? {
      PauseStepsKeepRunning(s, e);
    } else if OfAChild(e) {
      ChildEventsKeepRunning(s, e);
    } else {
      StopStepsKeepRunning(s, e);
    }
  }

  lemma {:induction false} RunKeepsInv(s: State, events: seq<Event>)
    requires Inv(s) && RunningInv(s) && Run(s, events).Some? && AllDisciplined(s, events)
    ensures Inv(Run(s, events).value) && RunningInv(Run(s, events).value)
    decreases |events|
  {
    hide Inv;
    hide RunningInv;
    hide Disciplined;
    hide Next;
    if events == [] {
    } else {
      StepKeepsInv(s, events[0]);
      StepKeepsRunning(s, events[0]);
      RunKeepsInv(Next(s, events[0]).value, events[1..]);
    }
  }

  // ---------------------------------------------------------------- theorems

  /** Along every disciplined run: the supervisor owns exactly when it has a
      child, an attached Router is never owned, only spawned processes are ever
      signalled, every child alive is the tracked one or was killed, and
      `running` names the tracked child exactly while that child's exit is to
      come and no finished stop has killed it. */
  lemma EveryReachableState(events: seq<Event>)
    requires Run(INITIAL, events).Some? && AllDisciplined(INITIAL, events)
    ensures var s := Run(INITIAL, events).value;
            && (s.owned <==> s.child.Some?)
            && (s.kind.Attached? ==> !s.owned)
            && s.world.signalled <= s.world.spawned
            && (forall p :: p in s.world.live ==> s.child == Some(p) || p in s.world.killed)
            && (s.kind.Running? ==>
                  var p := s.kind.pid;
                  s.child == Some(p) <==> p in s.world.pending && (p in s.world.killed ==> BeingKilled(s, p)))
  {
    RunKeepsInv(INITIAL, events);
  }

  /** The exit handler keeps ownership tied to the child exactly when there is
      no child or it is the one that exited. */
  lemma ExitKeepsOwnershipIff(s: State, p: nat)
    requires s.owned <==> s.child.Some?
    ensures (OnExit(s, p).owned <==> OnExit(s, p).child.Some?) <==> s.child == None || s.child == Some(p)
  {
  }

  /** A look at the port that is answered keeps `attached` to Routers of others
      exactly when it found no Router or this shell owns none by then. */
  lemma DiscoverKeepsAttachedIff(s: State, holder: Holder)
    requires s.discovering && (s.kind.Attached? ==> !s.owned)
    ensures var after := Next(s, DiscoverAnswer(holder)).value;
            (after.kind.Attached? ==> !after.owned) <==> holder != Router || !s.owned
  {
  }

  /** A spawn loses no child exactly when the tracked one has been reaped or
      killed, or there is none. */
  lemma SpawnKeepsTrackIff(s: State, call: nat, outcome: SpawnOutcome, portWords: bool)
    requires Pc(s, call).Checking? && !outcome.Threw?
    requires s.world.Tracked(s.child) && s.world.Sane(s.next)
    ensures var after := Next(s, ConfigAnswer(call, true, outcome, portWords)).value;
            after.world.Tracked(after.child) <==>
              s.child.None? || s.child.value !in s.world.pending || s.child.value in s.world.killed
  {
    var after := Next(s, ConfigAnswer(call, true, outcome, portWords)).value;
    assert after.world.pending == s.world.pending + {s.next} && after.world.killed == s.world.killed;
    if s.child.Some? && s.child.value in s.world.pending && s.child.value !in s.world.killed {
      assert s.child.value in after.world.pending;
    }
  }

  lemma RunStep(s: State, e: Event, rest: seq<Event>)
    requires Next(s, e).Some?
    ensures Run(s, [e] + rest) == Run(Next(s, e).value, rest)
    ensures rest == [] ==> Run(s, [e] + rest) == Next(s, e)
    ensures AllDisciplined(s, [e] + rest) <==> Disciplined(s, e) && AllDisciplined(Next(s, e).value, rest)
  {
    hide Next;
    assert ([e] + rest)[1..] == rest;
  }

  lemma {:induction false} RunAppends(s: State, events: seq<Event>, more: seq<Event>)
    requires Run(s, events).Some?
    ensures Run(s, events + more) == Run(Run(s, events).value, more)
    ensures AllDisciplined(s, events) && AllDisciplined(Run(s, events).value, more) ==> AllDisciplined(s, events + more)
    decreases |events|
  {
    hide Next;
    hide Disciplined;
    if events == [] {
      assert events + more == more;
    } else {
      assert events + more == [events[0]] + (events[1..] + more);
      assert events == [events[0]] + events[1..];
      RunStep(s, events[0], events[1..] + more);
      RunStep(s, events[0], events[1..]);
      RunAppends(Next(s, events[0]).value, events[1..], more);
    }
  }

  lemma NothingToDiscipline()
    ensures forall s :: AllDisciplined(s, [])
  {
  }

  /** A look at the port overlapping a start ends `attached` to the Router this
      shell owns, even with every exit delivered in time. */
  lemma OverlappingDiscoverMisattributes() returns (events: seq<Event>)
    ensures Run(INITIAL, events).Some?
    ensures var s := Run(INITIAL, events).value; s.kind.Attached? && s.owned
  {
    hide Run;
    hide AllDisciplined;
    var s0 := INITIAL;
    var s1 := Next(s0, Discover).value;
    var s2 := Next(s1, Start(false)).value;
    var s3 := Next(s2, StartAnswer(0, Nothing)).value;
    var s4 := Next(s3, ConfigAnswer(0, true, Spawned, false)).value;
    var s5 := Next(s4, PollAnswer(0, true, false, false)).value;
    var s6 := Next(s5, DiscoverAnswer(Router)).value;
    var e6: seq<Event> := [];
    var e5 := [DiscoverAnswer(Router)] + e6;
    var e4 := [PollAnswer(0, true, false, false)] + e5;
    var e3 := [ConfigAnswer(0, true, Spawned, false)] + e4;
    var e2 := [StartAnswer(0, Nothing)] + e3;
    var e1 := [Start(false)] + e2;
    var e0 := [Discover] + e1;
    RunStep(s5, DiscoverAnswer(Router), e6);
    RunStep(s4, PollAnswer(0, true, false, false), e5);
    RunStep(s3, ConfigAnswer(0, true, Spawned, false), e4);
    RunStep(s2, StartAnswer(0, Nothing), e3);
    RunStep(s1, Start(false), e2);
    RunStep(s0, Discover, e1);
    events := e0;
  }

  /** Two starts at once both find nothing owned and both spawn: the first child
      is left alive, unsignalled and untracked. */
  lemma TwoStartsOrphanTheFirst() returns (events: seq<Event>)
    ensures Run(INITIAL, events).Some?
    ensures var s := Run(INITIAL, events).value;
            s.child == Some(1) && 0 in s.world.live && 0 !in s.world.signalled
  {
    hide Run;
    hide AllDisciplined;
    var s0 := INITIAL;
    var s1 := Next(s0, Start(false)).value;
    var s2 := Next(s1, Start(false)).value;
    var s3 := Next(s2, StartAnswer(0, Nothing)).value;
    var s4 := Next(s3, StartAnswer(1, Nothing)).value;
    var s5 := Next(s4, ConfigAnswer(0, true, Spawned, false)).value;
    var s6 := Next(s5, ConfigAnswer(1, true, Spawned, false)).value;
    var e6: seq<Event> := [];
    var e5 := [ConfigAnswer(1, true, Spawned, false)] + e6;
    var e4 := [ConfigAnswer(0, true, Spawned, false)] + e5;
    var e3 := [StartAnswer(1, Nothing)] + e4;
    var e2 := [StartAnswer(0, Nothing)] + e3;
    var e1 := [Start(false)] + e2;
    var e0 := [Start(false)] + e1;
    RunStep(s5, ConfigAnswer(1, true, Spawned, false), e6);
    RunStep(s4, ConfigAnswer(0, true, Spawned, false), e5);
    RunStep(s3, StartAnswer(1, Nothing), e4);
    RunStep(s2, StartAnswer(0, Nothing), e3);
    RunStep(s1, Start(false), e2);
    RunStep(s0, Start(false), e1);
    events := e0;
  }

  /** Child 0 spawned and not yet answering. */
  const STARTED :=
    State(Some(0), true, Starting, true, false, [Polling(0)], NoStop, World({0}, {0}, {}, {0}, {}, {}), 1)

  /** A start on a free port with a good file reaches its first poll. */
  lemma StartSpawns() returns (events: seq<Event>)
    ensures Run(INITIAL, events) == Some(STARTED) && AllDisciplined(INITIAL, events)
  {
    hide Run;
    hide AllDisciplined;
    NothingToDiscipline();
    var s0 := INITIAL;
    var s1 := Next(s0, Start(false)).value;
    var s2 := Next(s1, StartAnswer(0, Nothing)).value;
    var s3 := Next(s2, ConfigAnswer(0, true, Spawned, false)).value;
    var e3: seq<Event> := [];
    var e2 := [ConfigAnswer(0, true, Spawned, false)] + e3;
    var e1 := [StartAnswer(0, Nothing)] + e2;
    var e0 := [Start(false)] + e1;
    RunStep(s2, ConfigAnswer(0, true, Spawned, false), e3);
    RunStep(s1, StartAnswer(0, Nothing), e2);
    RunStep(s0, Start(false), e1);
    events := e0;
    assert s3.starts == STARTED.starts;
    assert s3 == STARTED;
  }

  /** Child 0 answering while a stop waits for it. */
  const STOPPING :=
    State(Some(0), true, Running(0), true, false, [Over], Grace(0, false), World({0}, {0}, {}, {0}, {0}, {}), 1)

  /** A Router may answer its first poll while it is being stopped. */
  lemma AnswersWhileStopping() returns (events: seq<Event>)
    ensures Run(INITIAL, events) == Some(STOPPING) && AllDisciplined(INITIAL, events)
  {
    hide Run;
    hide AllDisciplined;
    NothingToDiscipline();
    var before := StartSpawns();
    var s0 := STARTED;
    var s1 := Next(s0, Stop).value;
    var s2 := Next(s1, PollAnswer(0, true, false, false)).value;
    var e2: seq<Event> := [];
    var e1 := [PollAnswer(0, true, false, false)] + e2;
    var e0 := [Stop] + e1;
    RunStep(s1, PollAnswer(0, true, false, false), e2);
    RunStep(s0, Stop, e1);
    RunAppends(INITIAL, before, e0);
    events := before + e0;
    assert s2.starts == STOPPING.starts;
    assert s2 == STOPPING;
  }

  /** It then leaves `running` behind a finished stop, in a disciplined run: the
      second case of the last clause of `EveryReachableState`. */
  lemma StopCanEndRunning() returns (events: seq<Event>)
    ensures Run(INITIAL, events).Some? && AllDisciplined(INITIAL, events)
    ensures var s := Run(INITIAL, events).value; s.kind.Running? && s.child.None? && s.stop.NoStop?
  {
    hide Run;
    hide AllDisciplined;
    NothingToDiscipline();
    var before := AnswersWhileStopping();
    var s0 := STOPPING;
    var s1 := Next(s0, GraceOver).value;
    var s2 := Next(s1, KillOver).value;
    var e2: seq<Event> := [];
    var e1 := [KillOver] + e2;
    var e0 := [GraceOver] + e1;
    RunStep(s1, KillOver, e2);
    RunStep(s0, GraceOver, e1);
    RunAppends(INITIAL, before, e0);
    events := before + e0;
  }

  /** After a stop that gave up waiting: child 0 killed, its exit still due. */
  const GAVE_UP := State(None, false, Off, true, false, [Over], NoStop, World({0}, {0}, {}, {0}, {0}, {0}), 1)

  /** A stop may end with the killed child's exit still to come. */
  lemma StopGivesUp() returns (events: seq<Event>)
    ensures Run(INITIAL, events) == Some(GAVE_UP) && AllDisciplined(INITIAL, events)
  {
    hide Run;
    hide AllDisciplined;
    NothingToDiscipline();
    var before := StartSpawns();
    var s0 := STARTED;
    var s1 := Next(s0, PollAnswer(0, true, false, false)).value;
    var s2 := Next(s1, Stop).value;
    var s3 := Next(s2, GraceOver).value;
    var s4 := Next(s3, KillOver).value;
    var e4: seq<Event> := [];
    var e3 := [KillOver] + e4;
    var e2 := [GraceOver] + e3;
    var e1 := [Stop] + e2;
    var e0 := [PollAnswer(0, true, false, false)] + e1;
    RunStep(s3, KillOver, e4);
    RunStep(s2, GraceOver, e3);
    RunStep(s1, Stop, e2);
    RunStep(s0, PollAnswer(0, true, false, false), e1);
    RunAppends(INITIAL, before, e0);
    events := before + e0;
    assert s4.starts == GAVE_UP.starts;
    assert s4 == GAVE_UP;
  }

  /** Child 1 spawned while the exit of child 0 is still due. */
  const OVERTAKEN :=
    State(Some(1), true, Starting, true, false, [Over, Polling(1)], NoStop,
          World({0, 1}, {0, 1}, {}, {0, 1}, {0}, {0}), 2)

  /** The next start may spawn before the old exit is delivered. */
  lemma SpawnOvertakesExit() returns (events: seq<Event>)
    ensures Run(INITIAL, events) == Some(OVERTAKEN)
  {
    hide Run;
    hide AllDisciplined;
    var before := StopGivesUp();
    var s0 := GAVE_UP;
    var s1 := Next(s0, Start(false)).value;
    var s2 := Next(s1, StartAnswer(1, Nothing)).value;
    var s3 := Next(s2, ConfigAnswer(1, true, Spawned, false)).value;
    var e3: seq<Event> := [];
    var e2 := [ConfigAnswer(1, true, Spawned, false)] + e3;
    var e1 := [StartAnswer(1, Nothing)] + e2;
    var e0 := [Start(false)] + e1;
    RunStep(s2, ConfigAnswer(1, true, Spawned, false), e3);
    RunStep(s1, StartAnswer(1, Nothing), e2);
    RunStep(s0, Start(false), e1);
    RunAppends(INITIAL, before, e0);
    events := before + e0;
    assert s3.starts == OVERTAKEN.starts;
    assert s3 == OVERTAKEN;
  }

  /** When the old child's exit arrives after the next spawn, the new child is
      disowned, and a stop then leaves it alive, unsignalled and untracked. */
  lemma LateExitOrphansTheNextChild() returns (events: seq<Event>)
    ensures Run(INITIAL, events).Some?
    ensures var s := Run(INITIAL, events).value; s.child.None? && 1 in s.world.live && 1 !in s.world.signalled
  {
    hide Run;
    hide AllDisciplined;
    var before := SpawnOvertakesExit();
    var s0 := OVERTAKEN;
    var s1 := Next(s0, PollAnswer(1, true, false, false)).value;
    var s2 := Next(s1, Die(0)).value;
    var s3 := Next(s2, DeliverExit(0)).value;
    var s4 := Next(s3, Stop).value;
    var e4: seq<Event> := [];
    var e3 := [Stop] + e4;
    var e2 := [DeliverExit(0)] + e3;
    var e1 := [Die(0)] + e2;
    var e0 := [PollAnswer(1, true, false, false)] + e1;
    RunStep(s3, Stop, e4);
    RunStep(s2, DeliverExit(0), e3);
    RunStep(s1, Die(0), e2);
    RunStep(s0, PollAnswer(1, true, false, false), e1);
    RunAppends(INITIAL, before, e0);
    events := before + e0;
  }
}
