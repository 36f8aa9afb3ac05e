/** What the Gateway supervisor's operations do, from start to end, in every state
    they can be called in. */
module GatewayOperations {
  import opened Wrappers
  import opened Processes
  import opened GatewayProtocol

  /** The start called next. */
  function Call(s: State): nat { |s.starts| }

  lemma LastReplaced(starts: seq<StartPc>, x: StartPc, y: StartPc)
    ensures (starts + [x])[|starts| := y] == starts + [y]
  {
  }

  // ----------------------------------------------------------- attach or start

  /** A gateway already answering is attached, and nothing is spawned. */
  lemma StartAttaches(s: State, outcome: SpawnOutcome)
    ensures Run(s, [AttachOrStart, ProbeAnswer(Call(s), true, outcome)])
         == Some(s.(configured := true, owned := false, kind := Attached, starts := s.starts + [Over]))
  {
    hide Run;
    hide AllDisciplined;
    var s1 := Next(s, AttachOrStart).value;
    LastReplaced(s.starts, Probing, Over);
    var s2 := Next(s1, ProbeAnswer(Call(s), true, outcome)).value;
    var e1 := [ProbeAnswer(Call(s), true, outcome)] + [];
    var e0 := [AttachOrStart] + e1;
    RunStep(s1, ProbeAnswer(Call(s), true, outcome), []);
    RunStep(s, AttachOrStart, e1);
    assert e0 == [AttachOrStart, ProbeAnswer(Call(s), true, outcome)];
  }

  /** A spawn that throws is a failure. */
  lemma SpawnThatThrows(s: State)
    ensures Run(s, [AttachOrStart, ProbeAnswer(Call(s), false, Threw)])
         == Some(s.(configured := true, kind := Failed, starts := s.starts + [Over]))
  {
    hide Run;
    hide AllDisciplined;
    var s1 := Next(s, AttachOrStart).value;
    LastReplaced(s.starts, Probing, Over);
    var s2 := Next(s1, ProbeAnswer(Call(s), false, Threw)).value;
    var e1 := [ProbeAnswer(Call(s), false, Threw)] + [];
    var e0 := [AttachOrStart] + e1;
    RunStep(s1, ProbeAnswer(Call(s), false, Threw), []);
    RunStep(s, AttachOrStart, e1);
    assert e0 == [AttachOrStart, ProbeAnswer(Call(s), false, Threw)];
  }

  /** A start that has spawned and waits for its first answer. */
  function Launched(s: State): State {
    s.(configured := true, kind := Starting, child := Some(s.next), owned := true, next := s.next + 1,
       starts := s.starts + [Polling(s.next)], world := WithChild(s.world, s.next))
  }

  /** When nothing answers, one process is spawned, tracked and owned. */
  lemma StartSpawnsOne(s: State)
    ensures Run(s, [AttachOrStart, ProbeAnswer(Call(s), false, Spawned)]) == Some(Launched(s))
  {
    hide Run;
    hide AllDisciplined;
    var s1 := Next(s, AttachOrStart).value;
    LastReplaced(s.starts, Probing, Polling(s.next));
    var s2 := Next(s1, ProbeAnswer(Call(s), false, Spawned)).value;
    var e1 := [ProbeAnswer(Call(s), false, Spawned)] + [];
    var e0 := [AttachOrStart] + e1;
    RunStep(s1, ProbeAnswer(Call(s), false, Spawned), []);
    RunStep(s, AttachOrStart, e1);
    assert e0 == [AttachOrStart, ProbeAnswer(Call(s), false, Spawned)];
  }

  /** When that process answers, it is reported running. */
  lemma AnswerIsRunning(s: State, late: bool)
    ensures Next(Launched(s), PollAnswer(Call(s), true, late))
         == Some(Launched(s).(kind := Running(s.next), starts := s.starts + [Over]))
  {
    LastReplaced(s.starts, Polling(s.next), Over);
  }

  /** When it has not answered in time, that is a failure; it stays tracked and
      owned. */
  lemma TimeoutIsReported(s: State)
    ensures Next(Launched(s), PollAnswer(Call(s), false, true))
         == Some(Launched(s).(kind := Failed, starts := s.starts + [Over]))
  {
    LastReplaced(s.starts, Polling(s.next), Over);
  }

  /** Until then it is asked again. */
  lemma StillPolling(s: State)
    ensures Run(Launched(s), [PollAnswer(Call(s), false, false), PauseOver(Call(s))]) == Some(Launched(s))
  {
    var t := Launched(s);
    LastReplaced(s.starts, Polling(s.next), Pausing(s.next));
    LastReplaced(s.starts, Pausing(s.next), Polling(s.next));
    var poll, pause := PollAnswer(Call(s), false, false), PauseOver(Call(s));
    var t1 := Next(t, poll).value;
    RunStep(t1, pause, []);
    RunStep(t, poll, [pause] + []);
    assert [poll] + ([pause] + []) == [poll, pause];
  }

  /** When it exits between two polls, the start says so, and nothing is owned. */
  lemma ExitWhileStarting(s: State)
    requires s.next !in s.world.misfired && s.next !in s.world.live && s.next !in s.world.pending
    ensures Run(Launched(s), [PollAnswer(Call(s), false, false), Die(s.next), DeliverExit(s.next), PauseOver(Call(s))])
         == Some(Launched(s).(kind := Failed, starts := s.starts + [Over], child := None, owned := false,
                              world := s.world.(spawned := s.world.spawned + {s.next})))
  {
    hide Run;
    hide AllDisciplined;
    var p := s.next;
    LastReplaced(s.starts, Polling(p), Pausing(p));
    LastReplaced(s.starts, Pausing(p), Over);
    var t := Launched(s);
    var v0, v1, v2, v3 := PollAnswer(Call(s), false, false), Die(p), DeliverExit(p), PauseOver(Call(s));
    var t1 := Next(t, v0).value;
    var t2 := Next(t1, v1).value;
    assert t2.world.live == s.world.live;
    var t3 := Next(t2, v2).value;
    assert t3.world.pending == s.world.pending;
    var t4 := Next(t3, v3).value;
    var e3 := [v3] + [];
    var e2 := [v2] + e3;
    var e1 := [v1] + e2;
    RunStep(t3, v3, []);
    RunStep(t2, v2, e3);
    RunStep(t1, v1, e2);
    RunStep(t, v0, e1);
    assert [v0] + e1 == [v0, v1, v2, v3];
  }

  /** In whatever state a wait between two polls ends, with no child tracked it is a
      failure, even after a stop; with one tracked it is asked again. */
  lemma PauseSays(s: State, call: nat)
    requires Pc(s, call).Pausing?
    ensures Next(s, PauseOver(call))
         == Some(if s.child.None? then s.(kind := Failed, starts := s.starts[call := Over])
                 else s.(starts := s.starts[call := Polling(Pc(s, call).child)]))
  {
  }

  /** In whatever state a poll ends: an answer is running, silence past the deadline
      a failure, and silence before it one more wait. */
  lemma PollSays(s: State, call: nat, healthy: bool, late: bool)
    requires Pc(s, call).Polling?
    ensures var c := Pc(s, call).child;
            Next(s, PollAnswer(call, healthy, late))
            == Some(if healthy then s.(kind := Running(c), starts := s.starts[call := Over])
                    else if late then s.(kind := Failed, starts := s.starts[call := Over])
                    else s.(starts := s.starts[call := Pausing(c)]))
  {
  }

  // ---------------------------------------------------------------------- stop

  /** A stop with nothing owned only stops showing it: nobody is signalled. */
  lemma StopLeavesOthersAlone(s: State)
    requires s.stop.NoStop? && (s.child.None? || !s.owned)
    ensures Next(s, Stop) == Some(s.(kind := Stopped, child := None))
  {
  }

  /** A stop of an owned gateway signals it, and kills it when it has not gone in
      time; after that it is neither tracked nor owned. */
  lemma StopEndsInAKill(s: State)
    requires s.owned && s.child.Some? && s.stop.NoStop?
    ensures Run(s, [Stop, GraceOver])
         == Some(s.(kind := Stopped, child := None, owned := false, world := Killed(s.world, s.child.value)))
  {
    hide Run;
    hide AllDisciplined;
    var s1 := Next(s, Stop).value;
    var s2 := Next(s1, GraceOver).value;
    assert s2.world == Killed(s.world, s.child.value);
    var e1 := [GraceOver] + [];
    var e0 := [Stop] + e1;
    RunStep(s1, GraceOver, []);
    RunStep(s, Stop, e1);
    assert e0 == [Stop, GraceOver];
  }

  /** One that goes in time is signalled and not killed. */
  lemma StopEndsInAnExit(s: State)
    requires s.owned && s.child.Some? && s.stop.NoStop?
    requires s.child.value in s.world.pending && s.child.value !in s.world.misfired
    ensures Run(s, [Stop, Die(s.child.value), DeliverExit(s.child.value), GraceExit])
         == Some(s.(kind := Stopped, child := None, owned := false, world := Gone(s.world, s.child.value)))
  {
    hide Run;
    hide AllDisciplined;
    var s1 := Next(s, Stop).value;
    var s2 := Next(s1, Die(s.child.value)).value;
    var s3 := Next(s2, DeliverExit(s.child.value)).value;
    var s4 := Next(s3, GraceExit).value;
    var e3 := [GraceExit] + [];
    var e2 := [DeliverExit(s.child.value)] + e3;
    var e1 := [Die(s.child.value)] + e2;
    var e0 := [Stop] + e1;
    RunStep(s3, GraceExit, []);
    RunStep(s2, DeliverExit(s.child.value), e3);
    RunStep(s1, Die(s.child.value), e2);
    RunStep(s, Stop, e1);
    assert e0 == [Stop, Die(s.child.value), DeliverExit(s.child.value), GraceExit];
  }

  // ------------------------------------------------------------------- restart

  /** Only a gateway this shell started is restarted. */
  lemma RestartRefused(s: State)
    requires s.stop.NoStop? && (!s.owned || !s.configured)
    ensures Next(s, Restart) == Some(s)
  {
  }

  /** A restart stops the owned gateway, killing it when it must, and goes straight on
      to a new start. */
  lemma RestartAfterAKill(s: State)
    requires s.owned && s.child.Some? && s.stop.NoStop?
    requires s.configured
    ensures Run(s, [Restart, GraceOver])
         == Some(s.(kind := Stopped, child := None, owned := false, starts := s.starts + [Probing],
                    world := Killed(s.world, s.child.value)))
  {
    hide Run;
    hide AllDisciplined;
    var s1 := Next(s, Restart).value;
    var s2 := Next(s1, GraceOver).value;
    assert s2.world == Killed(s.world, s.child.value);
    var e1 := [GraceOver] + [];
    var e0 := [Restart] + e1;
    RunStep(s1, GraceOver, []);
    RunStep(s, Restart, e1);
    assert e0 == [Restart, GraceOver];
  }

  /** So it does after one that goes in time. */
  lemma RestartAfterAnExit(s: State)
    requires s.owned && s.child.Some? && s.stop.NoStop?
    requires s.configured
    requires s.child.value in s.world.pending && s.child.value !in s.world.misfired
    ensures Run(s, [Restart, Die(s.child.value), DeliverExit(s.child.value), GraceExit])
         == Some(s.(kind := Stopped, child := None, owned := false, starts := s.starts + [Probing],
                    world := Gone(s.world, s.child.value)))
  {
    hide Run;
    hide AllDisciplined;
    var s1 := Next(s, Restart).value;
    var s2 := Next(s1, Die(s.child.value)).value;
    var s3 := Next(s2, DeliverExit(s.child.value)).value;
    var s4 := Next(s3, GraceExit).value;
    var e3 := [GraceExit] + [];
    var e2 := [DeliverExit(s.child.value)] + e3;
    var e1 := [Die(s.child.value)] + e2;
    var e0 := [Restart] + e1;
    RunStep(s3, GraceExit, []);
    RunStep(s2, DeliverExit(s.child.value), e3);
    RunStep(s1, Die(s.child.value), e2);
    RunStep(s, Restart, e1);
    assert e0 == [Restart, Die(s.child.value), DeliverExit(s.child.value), GraceExit];
  }

  /** In particular for every disciplined run that ends with an owned gateway and
      nothing under way: its child is killed or gone and one more start is asking. */
  lemma RestartStartsAgain(events: seq<Event>)
    requires Run(INITIAL, events).Some? && AllDisciplined(INITIAL, events)
    requires var s := Run(INITIAL, events).value; s.owned && s.configured && s.stop.NoStop? && Idle(s)
    ensures var s := Run(INITIAL, events).value;
            && s.child.Some?
            && (var t := Run(s, [Restart, GraceOver]);
                && t.Some? && |t.value.starts| == |s.starts| + 1 && Last(t.value) == Probing
                && t.value.child.None? && s.child.value in t.value.world.killed)
            && (s.child.value !in s.world.misfired ==>
                  var t := Run(s, [Restart, Die(s.child.value), DeliverExit(s.child.value), GraceExit]);
                  && t.Some? && |t.value.starts| == |s.starts| + 1 && Last(t.value) == Probing
                  && t.value.child.None? && s.child.value in t.value.world.signalled)
  {
    RunKeepsInv(INITIAL, events);
    var s := Run(INITIAL, events).value;
    assert s.child.Some? && s.child.value in s.world.pending;
    hide Run;
    RestartAfterAKill(s);
    if s.child.value !in s.world.misfired {
      RestartAfterAnExit(s);
    }
  }

  // ------------------------------------------------------------ a child's events

  /** An exit is noticed: nothing is owned any more, and it is a failure unless the
      shell was stopping. */
  lemma ExitIsNoticed(s: State, p: nat)
    requires p in s.world.pending && p !in s.world.live && p !in s.world.misfired
    ensures Next(s, DeliverExit(p))
         == Some(s.(child := None, owned := false, kind := if s.kind.Stopped? then Stopped else Failed,
                    world := s.world.(pending := s.world.pending - {p})))
  {
  }

  /** So is a spawn that failed. */
  lemma ErrorIsNoticed(s: State, p: nat)
    requires p in s.world.pending && p !in s.world.live && p in s.world.misfired
    ensures Next(s, DeliverError(p))
         == Some(s.(child := None, owned := false, kind := Failed,
                    world := s.world.(pending := s.world.pending - {p})))
  {
  }

  /** A spawn that will fail is tracked and owned until its error arrives. */
  lemma FailedSpawnIsTracked(s: State, call: nat)
    requires Pc(s, call).Probing?
    ensures var t := Next(s, ProbeAnswer(call, false, WillError)).value;
            && t.child == Some(s.next) && t.owned && t.kind == Starting && Pc(t, call) == Polling(s.next)
            && t.world == World(s.world.live, s.world.pending + {s.next}, s.world.misfired + {s.next},
                                s.world.spawned + {s.next}, s.world.signalled, s.world.killed)
  {
  }
}
