/** What the Router supervisor's operations do, from start to end, in every state
    they can be called in. Where `RouterProtocol` says what every step keeps, this
    says what each operation is for. */
module RouterOperations {
  import opened Wrappers
  import opened Processes
  import opened RouterProtocol

  /** The start called next, and the process it would spawn. */
  function Call(s: State): nat { |s.starts| }

  lemma LastReplaced(starts: seq<StartPc>, x: StartPc, y: StartPc)
    ensures (starts + [x])[|starts| := y] == starts + [y]
  {
  }

  // ------------------------------------------------------------------ discover

  /** A look at the port reports what it found and does nothing else. */
  lemma DiscoverReports(s: State, holder: Holder)
    requires !s.discovering && !s.owned && !s.kind.Starting?
    ensures Run(s, [Discover, DiscoverAnswer(holder)])
         == Some(s.(kind := match holder case Router => Attached case Nothing => Off case Gateway => Conflict
                                         case Stranger => Conflict))
  {
    hide Run;
    hide AllDisciplined;
    var s1 := Next(s, Discover).value;
    var s2 := Next(s1, DiscoverAnswer(holder)).value;
    var e1 := [DiscoverAnswer(holder)] + [];
    var e0 := [Discover] + e1;
    RunStep(s1, DiscoverAnswer(holder), []);
    RunStep(s, Discover, e1);
    assert e0 == [Discover, DiscoverAnswer(holder)];
  }

  /** It leaves a Router this shell owns, or is starting, alone. */
  lemma DiscoverLeavesOursAlone(s: State)
    requires !s.discovering && (s.owned || s.kind.Starting?)
    ensures Next(s, Discover) == Some(s)
  {
  }

  // --------------------------------------------------------------------- start

  /** A start does nothing when one is owned already, and reports a clash of the two
      services' ports without looking at anything. */
  lemma StartNeedNotLook(s: State, clash: bool)
    ensures s.owned && s.child.Some? ==> Next(s, Start(clash)) == Some(s)
    ensures clash && !(s.owned && s.child.Some?) ==>
              Next(s, Start(clash)) == Some(s.(configured := true, kind := Conflict))
  {
  }

  /** A Router already on the port is attached, and nothing is read or spawned. */
  lemma StartAttaches(s: State)
    requires !(s.owned && s.child.Some?)
    ensures Run(s, [Start(false), StartAnswer(Call(s), Router)])
         == Some(s.(configured := true, owned := false, kind := Attached, starts := s.starts + [Over]))
  {
    hide Run;
    hide AllDisciplined;
    var s1 := Next(s, Start(false)).value;
    LastReplaced(s.starts, Probing, Over);
    var s2 := Next(s1, StartAnswer(Call(s), Router)).value;
    var e1 := [StartAnswer(Call(s), Router)] + [];
    var e0 := [Start(false)] + e1;
    RunStep(s1, StartAnswer(Call(s), Router), []);
    RunStep(s, Start(false), e1);
    assert e0 == [Start(false), StartAnswer(Call(s), Router)];
  }

  /** A port held by anything else is reported, and nothing is spawned. */
  lemma StartReportsAConflict(s: State, holder: Holder)
    requires !(s.owned && s.child.Some?)
    requires holder.Gateway? || holder.Stranger?
    ensures Run(s, [Start(false), StartAnswer(Call(s), holder)])
         == Some(s.(configured := true, kind := Conflict, starts := s.starts + [Over]))
  {
    hide Run;
    hide AllDisciplined;
    var s1 := Next(s, Start(false)).value;
    LastReplaced(s.starts, Probing, Over);
    var s2 := Next(s1, StartAnswer(Call(s), holder)).value;
    var e1 := [StartAnswer(Call(s), holder)] + [];
    var e0 := [Start(false)] + e1;
    RunStep(s1, StartAnswer(Call(s), holder), []);
    RunStep(s, Start(false), e1);
    assert e0 == [Start(false), StartAnswer(Call(s), holder)];
  }

  /** A free port and a bad file: the file is reported, and nothing is spawned. */
  lemma StartNeedsConfig(s: State, outcome: SpawnOutcome, portWords: bool)
    requires !(s.owned && s.child.Some?)
    ensures Run(s, [Start(false), StartAnswer(Call(s), Nothing), ConfigAnswer(Call(s), false, outcome, portWords)])
         == Some(s.(configured := true, kind := NeedsConfig, starts := s.starts + [Over]))
  {
    hide Run;
    hide AllDisciplined;
    var s1 := Next(s, Start(false)).value;
    LastReplaced(s.starts, Probing, Checking);
    assert Call(s) == |s.starts|;
    var s2 := Next(s1, StartAnswer(Call(s), Nothing)).value;
    LastReplaced(s.starts, Checking, Over);
    var s3 := Next(s2, ConfigAnswer(Call(s), false, outcome, portWords)).value;
    var e2 := [ConfigAnswer(Call(s), false, outcome, portWords)] + [];
    var e1 := [StartAnswer(Call(s), Nothing)] + e2;
    var e0 := [Start(false)] + e1;
    RunStep(s2, ConfigAnswer(Call(s), false, outcome, portWords), []);
    RunStep(s1, StartAnswer(Call(s), Nothing), e2);
    RunStep(s, Start(false), e1);
    assert e0 == [Start(false), StartAnswer(Call(s), Nothing), ConfigAnswer(Call(s), false, outcome, portWords)];
  }

  /** A spawn that throws is a failure, or a conflict when its words say so. */
  lemma SpawnThatThrows(s: State, portWords: bool)
    requires !(s.owned && s.child.Some?)
    ensures Run(s, [Start(false), StartAnswer(Call(s), Nothing), ConfigAnswer(Call(s), true, Threw, portWords)])
         == Some(s.(configured := true, kind := if portWords then Conflict else Failed, starts := s.starts + [Over]))
  {
    hide Run;
    hide AllDisciplined;
    var s1 := Next(s, Start(false)).value;
    LastReplaced(s.starts, Probing, Checking);
    assert Call(s) == |s.starts|;
    var s2 := Next(s1, StartAnswer(Call(s), Nothing)).value;
    LastReplaced(s.starts, Checking, Over);
    var s3 := Next(s2, ConfigAnswer(Call(s), true, Threw, portWords)).value;
    var e2 := [ConfigAnswer(Call(s), true, Threw, portWords)] + [];
    var e1 := [StartAnswer(Call(s), Nothing)] + e2;
    var e0 := [Start(false)] + e1;
    RunStep(s2, ConfigAnswer(Call(s), true, Threw, portWords), []);
    RunStep(s1, StartAnswer(Call(s), Nothing), e2);
    RunStep(s, Start(false), e1);
    assert e0 == [Start(false), StartAnswer(Call(s), Nothing), ConfigAnswer(Call(s), true, Threw, portWords)];
  }

  /** A start that has spawned and waits for its first answer. */
  function Launched(s: State): State {
    s.(configured := true, kind := Starting, child := Some(s.next), owned := true, next := s.next + 1,
       starts := s.starts + [Polling(s.next)], world := WithChild(s.world, s.next))
  }

  /** A free port and a good file: one process is spawned, tracked and owned. */
  lemma StartSpawnsOne(s: State, portWords: bool)
    requires !(s.owned && s.child.Some?)
    ensures Run(s, [Start(false), StartAnswer(Call(s), Nothing), ConfigAnswer(Call(s), true, Spawned, portWords)])
         == Some(Launched(s))
  {
    hide Run;
    hide AllDisciplined;
    var s1 := Next(s, Start(false)).value;
    LastReplaced(s.starts, Probing, Checking);
    assert Call(s) == |s.starts|;
    var s2 := Next(s1, StartAnswer(Call(s), Nothing)).value;
    LastReplaced(s.starts, Checking, Polling(s.next));
    var s3 := Next(s2, ConfigAnswer(Call(s), true, Spawned, portWords)).value;
    var e2 := [ConfigAnswer(Call(s), true, Spawned, portWords)] + [];
    var e1 := [StartAnswer(Call(s), Nothing)] + e2;
    var e0 := [Start(false)] + e1;
    RunStep(s2, ConfigAnswer(Call(s), true, Spawned, portWords), []);
    RunStep(s1, StartAnswer(Call(s), Nothing), e2);
    RunStep(s, Start(false), e1);
    assert e0 == [Start(false), StartAnswer(Call(s), Nothing), ConfigAnswer(Call(s), true, Spawned, portWords)];
  }

  /** When that process answers as a Router, it is reported running. */
  lemma AnswerIsRunning(s: State, late: bool, portWords: bool)
    ensures Next(Launched(s), PollAnswer(Call(s), true, late, portWords))
         == Some(Launched(s).(kind := Running(s.next), starts := s.starts + [Over]))
  {
    LastReplaced(s.starts, Polling(s.next), Over);
  }

  /** When it has not answered in time, that is a failure, or a conflict when its
      words say so; the process stays tracked and owned. */
  lemma TimeoutIsReported(s: State, portWords: bool)
    ensures Next(Launched(s), PollAnswer(Call(s), false, true, portWords))
         == Some(Launched(s).(kind := if portWords then Conflict else Failed, starts := s.starts + [Over]))
  {
    LastReplaced(s.starts, Polling(s.next), Over);
  }

  /** Until then it is asked again. */
  lemma StillPolling(s: State, portWords: bool)
    ensures Run(Launched(s), [PollAnswer(Call(s), false, false, portWords), PauseOver(Call(s))]) == Some(Launched(s))
  {
    var t := Launched(s);
    LastReplaced(s.starts, Polling(s.next), Pausing(s.next));
    LastReplaced(s.starts, Pausing(s.next), Polling(s.next));
    var poll, pause := PollAnswer(Call(s), false, false, portWords), PauseOver(Call(s));
    var t1 := Next(t, poll).value;
    RunStep(t1, pause, []);
    RunStep(t, poll, [pause] + []);
    assert [poll] + ([pause] + []) == [poll, pause];
  }

  /** When it exits first, the start gives up and says so, and nothing is owned. */
  lemma ExitWhileStarting(s: State, portWords: bool)
    requires s.next !in s.world.misfired && s.next !in s.world.live && s.next !in s.world.pending
    ensures var events := [PollAnswer(Call(s), false, false, portWords), Die(s.next), DeliverExit(s.next),
                           PauseOver(Call(s)), GiveUp(Call(s), portWords)];
            Run(Launched(s), events)
            == Some(Launched(s).(kind := if portWords then Conflict else Failed, starts := s.starts + [Over],
                                child := None, owned := false,
                                world := s.world.(spawned := s.world.spawned + {s.next})))
  {
    hide Run;
    hide AllDisciplined;
    var p := s.next;
    LastReplaced(s.starts, Polling(p), Pausing(p));
    LastReplaced(s.starts, Pausing(p), GivingUp(p));
    LastReplaced(s.starts, GivingUp(p), Over);
    var t := Launched(s);
    var v0, v1, v2 := PollAnswer(Call(s), false, false, portWords), Die(p), DeliverExit(p);
    var v3, v4 := PauseOver(Call(s)), GiveUp(Call(s), portWords);
    var t1 := Next(t, v0).value;
    var t2 := Next(t1, v1).value;
    assert t2.world.live == s.world.live;
    var t3 := Next(t2, v2).value;
    assert t3.world.pending == s.world.pending;
    var t4 := Next(t3, v3).value;
    var t5 := Next(t4, v4).value;
    var e4 := [v4] + [];
    var e3 := [v3] + e4;
    var e2 := [v2] + e3;
    var e1 := [v1] + e2;
    RunStep(t4, v4, []);
    RunStep(t3, v3, e4);
    RunStep(t2, v2, e3);
    RunStep(t1, v1, e2);
    RunStep(t, v0, e1);
    assert [v0] + e1 == [v0, v1, v2, v3, v4];
  }

  /** In whatever state a poll ends: a Router's answer is running only while its child
      is the tracked one; silence past the deadline is reported only by a start that
      has not been stopped; and silence before it is one more wait. */
  lemma PollSays(s: State, call: nat, isRouter: bool, late: bool, portWords: bool)
    requires Pc(s, call).Polling?
    ensures var c := Pc(s, call).child;
            Next(s, PollAnswer(call, isRouter, late, portWords))
            == Some(if isRouter && s.child == Some(c) then s.(kind := Running(c), starts := s.starts[call := Over])
                    else if late then Ended(s, call, portWords)
                    else s.(starts := s.starts[call := Pausing(c)]))
  {
  }

  /** So does a start whose child is gone. */
  lemma GiveUpSays(s: State, call: nat, portWords: bool)
    ensures Pc(s, call).GivingUp? ==> Next(s, GiveUp(call, portWords)) == Some(Ended(s, call, portWords))
    ensures Pc(s, call).Pausing? ==>
              var c := Pc(s, call).child;
              Next(s, PauseOver(call))
              == Some(s.(starts := s.starts[call := if s.child == Some(c) && c in s.world.pending then Polling(c)
                                                    else GivingUp(c)]))
  {
  }

  /** A start that ends without an answer: what it reports, if it is still starting. */
  function Ended(s: State, call: nat, portWords: bool): State
    requires call < |s.starts|
  {
    var over := s.(starts := s.starts[call := Over]);
    if s.kind != Starting then over else if portWords then over.(kind := Conflict) else over.(kind := Failed)
  }

  // ---------------------------------------------------------------------- stop

  /** A stop with nothing owned only stops showing it: nobody is signalled. */
  lemma StopLeavesOthersAlone(s: State)
    requires s.stop.NoStop? && (s.child.None? || !s.owned)
    ensures Next(s, Stop) == Some(s.(kind := Off, child := None))
  {
  }

  /** A stop of an owned Router signals it, and kills it when it has not gone in time;
      after that it is neither tracked nor owned. */
  lemma StopEndsInAKill(s: State)
    requires s.owned && s.child.Some? && s.child.value in s.world.pending && s.stop.NoStop?
    ensures Run(s, [Stop, GraceOver, KillOver])
         == Some(s.(kind := Off, child := None, owned := false,
                    world := Killed(s.world, s.child.value)))
  {
    hide Run;
    hide AllDisciplined;
    var s1 := Next(s, Stop).value;
    var s2 := Next(s1, GraceOver).value;
    var s3 := Next(s2, KillOver).value;
    assert s3.world == Killed(s.world, s.child.value);
    var e2 := [KillOver] + [];
    var e1 := [GraceOver] + e2;
    var e0 := [Stop] + e1;
    RunStep(s2, KillOver, []);
    RunStep(s1, GraceOver, e2);
    RunStep(s, Stop, e1);
    assert e0 == [Stop, GraceOver, KillOver];
  }

  /** One that goes in time is signalled and not killed. */
  lemma StopEndsInAnExit(s: State)
    requires s.owned && s.child.Some? && s.child.value in s.world.pending && s.stop.NoStop?
    requires s.child.value !in s.world.misfired
    ensures Run(s, [Stop, Die(s.child.value), DeliverExit(s.child.value), GraceExit])
         == Some(s.(kind := Off, child := None, owned := false,
                    world := Gone(s.world, s.child.value)))
  {
    hide Run;
    hide AllDisciplined;
    var s1 := Next(s, Stop).value;
    var s2 := Next(s1, Die(s.child.value)).value;
    var s3 := Next(s2, DeliverExit(s.child.value)).value;
    var s4 := Next(s3, GraceExit).value;
    var e3 := [GraceExit] + [];
    var e2 := [DeliverExit(s.child.value)] + e3;
    var e1 := [Die(s.child.value)] + e2;
    var e0 := [Stop] + e1;
    RunStep(s3, GraceExit, []);
    RunStep(s2, DeliverExit(s.child.value), e3);
    RunStep(s1, Die(s.child.value), e2);
    RunStep(s, Stop, e1);
    assert e0 == [Stop, Die(s.child.value), DeliverExit(s.child.value), GraceExit];
  }

  // ------------------------------------------------------------------- restart

  /** Only a Router this shell started is restarted. */
  lemma RestartRefused(s: State)
    requires s.stop.NoStop? && (!s.owned || !s.configured)
    ensures Next(s, Restart) == Some(s)
  {
  }

  /** A restart stops the owned Router, killing it when it must, and goes straight on
      to a new start. */
  lemma RestartAfterAKill(s: State)
    requires s.owned && s.child.Some? && s.child.value in s.world.pending && s.stop.NoStop?
    requires s.configured
    ensures Run(s, [Restart, GraceOver, KillOver])
         == Some(s.(kind := Off, child := None, owned := false, starts := s.starts + [Probing],
                    world := Killed(s.world, s.child.value)))
  {
    hide Run;
    hide AllDisciplined;
    var s1 := Next(s, Restart).value;
    var s2 := Next(s1, GraceOver).value;
    var s3 := Next(s2, KillOver).value;
    assert s3.world == Killed(s.world, s.child.value);
    var e2 := [KillOver] + [];
    var e1 := [GraceOver] + e2;
    var e0 := [Restart] + e1;
    RunStep(s2, KillOver, []);
    RunStep(s1, GraceOver, e2);
    RunStep(s, Restart, e1);
    assert e0 == [Restart, GraceOver, KillOver];
  }

  /** So it does after one that goes in time. */
  lemma RestartAfterAnExit(s: State)
    requires s.owned && s.child.Some? && s.child.value in s.world.pending && s.stop.NoStop?
    requires s.configured && s.child.value !in s.world.misfired
    ensures Run(s, [Restart, Die(s.child.value), DeliverExit(s.child.value), GraceExit])
         == Some(s.(kind := Off, child := None, owned := false, starts := s.starts + [Probing],
                    world := Gone(s.world, s.child.value)))
  {
    hide Run;
    hide AllDisciplined;
    var s1 := Next(s, Restart).value;
    var s2 := Next(s1, Die(s.child.value)).value;
    var s3 := Next(s2, DeliverExit(s.child.value)).value;
    var s4 := Next(s3, GraceExit).value;
    var e3 := [GraceExit] + [];
    var e2 := [DeliverExit(s.child.value)] + e3;
    var e1 := [Die(s.child.value)] + e2;
    var e0 := [Restart] + e1;
    RunStep(s3, GraceExit, []);
    RunStep(s2, DeliverExit(s.child.value), e3);
    RunStep(s1, Die(s.child.value), e2);
    RunStep(s, Restart, e1);
    assert e0 == [Restart, Die(s.child.value), DeliverExit(s.child.value), GraceExit];
  }

  /** In particular for every disciplined run that ends with an owned Router and
      nothing under way: its child is killed or gone and one more start is asking. */
  lemma RestartStartsAgain(events: seq<Event>)
    requires Run(INITIAL, events).Some? && AllDisciplined(INITIAL, events)
    requires var s := Run(INITIAL, events).value; s.owned && s.configured && s.stop.NoStop? && Idle(s)
    ensures var s := Run(INITIAL, events).value;
            && s.child.Some?
            && (var t := Run(s, [Restart, GraceOver, KillOver]);
                && t.Some? && |t.value.starts| == |s.starts| + 1 && Last(t.value) == Probing
                && t.value.child.None? && s.child.value in t.value.world.killed)
            && (s.child.value !in s.world.misfired ==>
                  var t := Run(s, [Restart, Die(s.child.value), DeliverExit(s.child.value), GraceExit]);
                  && t.Some? && |t.value.starts| == |s.starts| + 1 && Last(t.value) == Probing
                  && t.value.child.None? && s.child.value in t.value.world.signalled)
  {
    RunKeepsInv(INITIAL, events);
    var s := Run(INITIAL, events).value;
    assert s.child.Some? && s.child.value in s.world.pending;
    hide Run;
    RestartAfterAKill(s);
    if s.child.value !in s.world.misfired {
      RestartAfterAnExit(s);
    }
  }

  // ------------------------------------------------------------ a child's events

  /** The tracked child's exit is noticed: nothing is owned any more, and it is a
      failure unless the shell was stopping or still starting it. */
  lemma ExitIsNoticed(s: State, p: nat)
    requires p in s.world.pending && p !in s.world.live && p !in s.world.misfired && s.child == Some(p)
    ensures Next(s, DeliverExit(p))
         == Some(s.(child := None, owned := false, kind := if s.kind.Off? || s.kind.Starting? then s.kind else Failed,
                    world := s.world.(pending := s.world.pending - {p})))
  {
  }

  /** So is a spawn that failed; only a start reports that itself. */
  lemma ErrorIsNoticed(s: State, p: nat)
    requires p in s.world.pending && p !in s.world.live && p in s.world.misfired && s.child == Some(p)
    ensures Next(s, DeliverError(p))
         == Some(s.(child := None, owned := false, kind := if s.kind.Starting? then s.kind else Failed,
                    world := s.world.(pending := s.world.pending - {p})))
  {
  }

  /** A spawn that will fail is tracked and owned until its error arrives. */
  lemma FailedSpawnIsTracked(s: State, call: nat, portWords: bool)
    requires Pc(s, call).Checking?
    ensures var t := Next(s, ConfigAnswer(call, true, WillError, portWords)).value;
            && t.child == Some(s.next) && t.owned && t.kind == Starting && Pc(t, call) == Polling(s.next)
            && t.world == World(s.world.live, s.world.pending + {s.next}, s.world.misfired + {s.next},
                                s.world.spawned + {s.next}, s.world.signalled, s.world.killed)
  {
  }
}
