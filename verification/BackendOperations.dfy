/** What the backend's operations do, from start to end. Where `Backend` says what
    every step keeps, this says what each operation is for. */
module BackendOperations {
  import opened Wrappers
  import opened Window
  import opened Backend

  // ------------------------------------------------------------------- requests

  /** A request gets the resident's client exactly when it names the resident's
      instance; otherwise it gets none, and nothing else ever changes. */
  lemma RequestServedIff(s: State, i: nat)
    requires s.lock.Free?
    ensures var resident := s.running.Some? && s.running.value.instance == i;
            Next(s, Request(i))
            == Some(s.(issued := s.issued + if resident then {(i, s.running.value.client)} else {}))
  {
    assert s.issued + {} == s.issued;
  }

  /** So after every run with loads serialised: what is handed out for the resident
      reaches the engine launched for it, and for anything else nothing is. */
  lemma RequestReachesItsEngine(events: seq<Event>, i: nat)
    requires Run(INITIAL, events).Some? && Serialised(INITIAL, events) && Run(INITIAL, events).value.lock.Free?
    ensures var s := Run(INITIAL, events).value;
            var t := Next(s, Request(i)).value;
            if s.running.Some? && s.running.value.instance == i
            then && t.issued == s.issued + {(i, s.running.value.engine)}
                 && s.running.value.engine in s.origin && s.origin[s.running.value.engine] == i
            else t == s
  {
    RunKeepsInv(INITIAL, events);
    var s := Run(INITIAL, events).value;
    hide Run;
    hide Serialised;
    RequestServedIff(s, i);
    assert s.issued + {} == s.issued;
  }

  /** While the lock is held, whatever needs it waits: another eviction or install, an
      unload, a shutdown, a health check, a request. */
  lemma HeldLockMakesOthersWait(s: State, i: nat)
    requires !s.lock.Free?
    ensures forall e :: e in {Evict(i), Install(i), Unload(i), Shutdown, HealthFindsDead, Request(i)} ==>
              Next(s, e) == None
    ensures !s.lock.Checking? ==> Next(s, HealthClears) == None && Next(s, HealthAbandoned) == None
    ensures !s.lock.Unloading? ==> Next(s, UnloadDone) == None && Next(s, UnloadAbandoned) == None
  {
  }

  /** Whoever drops its work gives the lock back: an unload's engine is gone, a health
      check leaves the resident, a load takes its own engine with it. */
  lemma DroppedWork(s: State, l: nat)
    ensures s.lock.Unloading? ==>
              Next(s, UnloadAbandoned) == Some(s.(live := s.live - {s.lock.engine}, lock := Free))
    ensures s.lock.Checking? ==> Next(s, HealthAbandoned) == Some(s.(lock := Free))
    ensures l in s.loads ==>
              var t := Next(s, AbandonLoad(l)).value;
              && t.loads == s.loads - {l} && t.running == s.running && t.slots == s.slots
              && t.lock == (if s.lock == Load(l) then Free else s.lock)
              && t.live == s.live - match s.loads[l]
                                    case Evicting(e) => {e}
                                    case Starting(e) => {e}
                                    case Started(e) => {e}
                                    case Published(r) => {r.engine}
                                    case Admitted => {}
                                    case Ready => {}
  {
  }

  // ------------------------------------------------------------ unload, shutdown

  /** An unload for another instance than the resident's, or with none, touches
      nothing. */
  lemma StaleUnloadIsIgnored(s: State, i: nat)
    requires s.lock.Free? && (s.running.None? || s.running.value.instance != i)
    ensures Next(s, Unload(i)) == Some(s)
  {
  }

  /** An unload of the resident ends its engine and advertises one slot again. */
  lemma UnloadEndsTheEngine(s: State)
    requires s.lock.Free? && s.running.Some?
    ensures Run(s, [Unload(s.running.value.instance), UnloadDone])
         == Some(s.(running := None, live := s.live - {s.running.value.engine}, slots := 1))
  {
    hide Run;
    hide Serialised;
    var s1 := Next(s, Unload(s.running.value.instance)).value;
    var s2 := Next(s1, UnloadDone).value;
    var e1 := [UnloadDone] + [];
    var e0 := [Unload(s.running.value.instance)] + e1;
    RunStep(s1, UnloadDone, []);
    RunStep(s, Unload(s.running.value.instance), e1);
    assert e0 == [Unload(s.running.value.instance), UnloadDone];
  }

  /** So does a shutdown, whichever instance is resident. */
  lemma ShutdownEndsTheEngine(s: State)
    requires s.lock.Free? && s.running.Some?
    ensures Run(s, [Shutdown, UnloadDone])
         == Some(s.(running := None, live := s.live - {s.running.value.engine}, slots := 1))
  {
    hide Run;
    hide Serialised;
    var s1 := Next(s, Shutdown).value;
    var s2 := Next(s1, UnloadDone).value;
    var e1 := [UnloadDone] + [];
    var e0 := [Shutdown] + e1;
    RunStep(s1, UnloadDone, []);
    RunStep(s, Shutdown, e1);
    assert e0 == [Shutdown, UnloadDone];
  }

  /** With nothing resident a shutdown has nothing to do. */
  lemma ShutdownOfNothing(s: State)
    requires s.lock.Free? && s.running.None?
    ensures Next(s, Shutdown) == Some(s)
  {
  }

  // --------------------------------------------------------------------- health

  /** A health check clears the resident exactly when its engine is dead, and then
      changes nothing else. */
  lemma HealthClearsIff(s: State)
    requires s.lock.Free? && s.running.Some?
    ensures Run(s, [HealthFindsDead, HealthClears])
         == if s.running.value.engine in s.live then None else Some(s.(running := None))
  {
    if s.running.value.engine !in s.live {
      RunStep(Next(s, HealthFindsDead).value, HealthClears, []);
      RunStep(s, HealthFindsDead, [HealthClears] + []);
      assert [HealthFindsDead] + ([HealthClears] + []) == [HealthFindsDead, HealthClears];
    }
  }

  // ----------------------------------------------------------------------- load

  /** What a load leaves: the model resident under a new instance, its engine the
      only one alive, and its slots advertised. */
  function Loaded(s: State, requested: Params, window: Option<EngineWindow>): State {
    var engine, instance := s.nextId + 1, s.nextId + 2;
    s.(running := Some(Running(instance, engine, engine, requested, window)), live := {engine},
       slots := Slots(Reconciled(requested, window)), origin := s.origin[engine := instance], nextId := s.nextId + 3)
  }

  lemma FirstHalf(s: State, l: nat)
    requires s.loads == map[l := Ready] && s.live == {}
    ensures Run(s, [Launch(l), LaunchReady(l)])
         == Some(s.(live := {s.nextId}, loads := map[l := Started(s.nextId)], nextId := s.nextId + 1))
  {
    hide Run;
    hide Serialised;
    var s1 := s.(live := {s.nextId}, loads := map[l := Starting(s.nextId)], nextId := s.nextId + 1);
    assert Next(s, Launch(l)) == Some(s1) by {
      assert s.live + {s.nextId} == s1.live;
      assert s.loads[l := Starting(s.nextId)] == s1.loads;
    }
    var s2 := s1.(loads := map[l := Started(s.nextId)]);
    assert s1.loads[l := Started(s.nextId)] == s2.loads;
    RunStep(s1, LaunchReady(l), []);
    RunStep(s, Launch(l), [LaunchReady(l)] + []);
    assert [Launch(l)] + ([LaunchReady(l)] + []) == [Launch(l), LaunchReady(l)];
  }

  lemma SecondHalf(s: State, l: nat, engine: nat, requested: Params, window: Option<EngineWindow>)
    requires s.loads == map[l := Started(engine)] && s.lock.Free? && HasWindow(window)
    ensures Run(s, [Publish(l, requested, window), Install(l)])
         == Some(s.(running := Some(Running(s.nextId, engine, engine, requested, window)), loads := map[],
                    slots := Slots(Reconciled(requested, window)), origin := s.origin[engine := s.nextId],
                    nextId := s.nextId + 1))
  {
    hide Run;
    hide Serialised;
    hide Reconciled;
    hide Slots;
    var publish := Publish(l, requested, window);
    var s1 := Next(s, publish).value;
    var record := Running(s.nextId, engine, engine, requested, window);
    assert s1.loads == map[l := Published(record)];
    assert s1.loads - {l} == map[];
    RunStep(s1, Install(l), []);
    RunStep(s, publish, [Install(l)] + []);
    assert [publish] + ([Install(l)] + []) == [publish, Install(l)];
  }

  lemma FromReady(s: State, l: nat, requested: Params, window: Option<EngineWindow>)
    requires s.loads == map[l := Ready] && s.live == {} && s.lock.Free? && HasWindow(window)
    ensures var engine, instance := s.nextId, s.nextId + 1;
            Run(s, [Launch(l), LaunchReady(l), Publish(l, requested, window), Install(l)])
            == Some(s.(running := Some(Running(instance, engine, engine, requested, window)), live := {engine},
                       loads := map[], slots := Slots(Reconciled(requested, window)),
                       origin := s.origin[engine := instance], nextId := s.nextId + 2))
  {
    hide Run;
    hide Serialised;
    hide Reconciled;
    hide Slots;
    hide Next;
    var a, b := [Launch(l), LaunchReady(l)], [Publish(l, requested, window), Install(l)];
    FirstHalf(s, l);
    SecondHalf(Run(s, a).value, l, s.nextId, requested, window);
    RunAppends(s, a, b);
    assert a + b == [Launch(l), LaunchReady(l), Publish(l, requested, window), Install(l)];
  }

  /** A load with nothing resident launches an engine and installs the model. */
  lemma LoadOnIdle(s: State, requested: Params, window: Option<EngineWindow>)
    requires Inv(s) && s.loads == map[] && s.lock.Free? && s.running.None? && HasWindow(window)
    ensures var l := s.nextId;
            Run(s, [BeginLoad, Evict(l), Launch(l), LaunchReady(l), Publish(l, requested, window), Install(l)])
            == Some(Loaded(s, requested, window))
  {
    hide *;
    NoOtherEngine(s);
    ToReadyOnIdle(s);
    var l := s.nextId;
    var t := s.(loads := map[l := Ready], nextId := l + 1);
    FromReady(t, l, requested, window);
    var a, b := [BeginLoad, Evict(l)], [Launch(l), LaunchReady(l), Publish(l, requested, window), Install(l)];
    RunAppends(s, a, b);
    assert a + b == [BeginLoad, Evict(l), Launch(l), LaunchReady(l), Publish(l, requested, window), Install(l)];
    LoadedIs(s, requested, window);
  }

  /** A load with a model resident ends its engine before it launches the new one. */
  lemma LoadReplaces(s: State, requested: Params, window: Option<EngineWindow>)
    requires Inv(s) && s.loads == map[] && s.lock.Free? && s.running.Some? && HasWindow(window)
    ensures var l := s.nextId;
            Run(s, [BeginLoad, Evict(l), EvictionDone(l), Launch(l), LaunchReady(l), Publish(l, requested, window),
                    Install(l)])
            == Some(Loaded(s, requested, window))
  {
    hide *;
    NoOtherEngine(s);
    ToReadyByEviction(s);
    var l := s.nextId;
    var t := s.(running := None, live := {}, loads := map[l := Ready], nextId := l + 1);
    FromReady(t, l, requested, window);
    var a := [BeginLoad, Evict(l), EvictionDone(l)];
    var b := [Launch(l), LaunchReady(l), Publish(l, requested, window), Install(l)];
    RunAppends(s, a, b);
    assert a + b == [BeginLoad, Evict(l), EvictionDone(l), Launch(l), LaunchReady(l), Publish(l, requested, window),
                     Install(l)];
    LoadedIs(s, requested, window);
  }

  lemma NoOtherEngine(s: State)
    requires Inv(s) && s.loads == map[] && s.lock.Free?
    ensures if s.running.Some? then s.live - {s.running.value.engine} == {} else s.live == {}
  {
  }

  lemma LoadedIs(s: State, requested: Params, window: Option<EngineWindow>)
    requires s.loads == map[] && s.lock.Free?
    ensures var engine, instance := s.nextId + 1, s.nextId + 2;
            Loaded(s, requested, window)
            == State(Some(Running(instance, engine, engine, requested, window)), Slots(Reconciled(requested, window)),
                     Free, map[], {engine}, s.nextId + 3, s.origin[engine := instance], s.issued)
  {
  }

  lemma ToReadyOnIdle(s: State)
    requires s.loads == map[] && s.lock.Free? && s.running.None?
    ensures var l := s.nextId; Run(s, [BeginLoad, Evict(l)]) == Some(s.(loads := map[l := Ready], nextId := l + 1))
  {
    hide Run;
    hide Serialised;
    var l := s.nextId;
    var s1 := Next(s, BeginLoad).value;
    assert s1.loads == map[l := Admitted];
    assert s1.loads[l := Ready] == map[l := Ready];
    RunStep(s1, Evict(l), []);
    RunStep(s, BeginLoad, [Evict(l)] + []);
    assert [BeginLoad] + ([Evict(l)] + []) == [BeginLoad, Evict(l)];
  }

  lemma ToReadyByEviction(s: State)
    requires s.loads == map[] && s.lock.Free? && s.running.Some? && s.live - {s.running.value.engine} == {}
    ensures var l := s.nextId;
            Run(s, [BeginLoad, Evict(l), EvictionDone(l)])
            == Some(s.(running := None, live := {}, loads := map[l := Ready], nextId := l + 1))
  {
    hide Run;
    hide Serialised;
    var l, engine := s.nextId, s.running.value.engine;
    var s1 := s.(loads := map[l := Admitted], nextId := l + 1);
    assert Next(s, BeginLoad) == Some(s1) by {
      assert s.loads[l := Admitted] == s1.loads;
    }
    var s2 := s1.(running := None, lock := Load(l), loads := map[l := Evicting(engine)]);
    assert Next(s1, Evict(l)) == Some(s2) by {
      assert s1.loads[l := Evicting(engine)] == s2.loads;
    }
    assert s2.loads[l := Ready] == map[l := Ready];
    var e2 := [EvictionDone(l)] + [];
    var e1 := [Evict(l)] + e2;
    RunStep(s2, EvictionDone(l), []);
    RunStep(s1, Evict(l), e2);
    RunStep(s, BeginLoad, e1);
    assert [BeginLoad] + e1 == [BeginLoad, Evict(l), EvictionDone(l)];
  }

  /** A failed launch ends its engine; the load tries again or is over, and the
      resident and the advertised slots are as they were. */
  lemma FailedLaunch(s: State, l: nat, retry: bool)
    requires l in s.loads && s.loads[l].Starting?
    ensures var t := Next(s, LaunchFailed(l, retry)).value;
            && t.live == s.live - {s.loads[l].engine} && t.running == s.running && t.slots == s.slots
            && (if retry then l in t.loads && t.loads[l] == Ready else l !in t.loads)
  {
  }
}
