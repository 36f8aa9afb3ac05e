/** The single-resident engine backend: loads, unloads, health checks, shutdowns
    and requests interleaving at their awaits around one lock-protected slot and
    an atomic slot count kept outside the lock. */
module Backend {
  import opened Wrappers
  import opened Window

  /** The resident model: its instance, its engine, the engine its client is
      bound to, and what was asked of and reported by that engine. */
  datatype Running = Running(instance: nat, engine: nat, client: nat, requested: Params, window: Option<EngineWindow>)
  {
    function Effective(): Params { Reconciled(requested, window) }
  }

  /** Where a load stands between two awaits. */
  datatype LoadPc =
    | Admitted
    | Evicting(engine: nat)
    | Ready
    | Starting(engine: nat)
    | Started(engine: nat)
    | Published(record: Running)

  /** Who holds the lock across an await. */
  datatype Holder = Free | Load(id: nat) | Unloading(engine: nat) | Checking

  /** `origin` is the instance an engine was launched for and `issued` the
      clients handed out: (instance asked for, engine the client reaches). */
  datatype State = State(
    running: Option<Running>, slots: nat, lock: Holder, loads: map<nat, LoadPc>, live: set<nat>, nextId: nat,
    origin: map<nat, nat>, issued: set<(nat, nat)>)

  const INITIAL := State(None, 1, Free, map[], {}, 0, map[], {})

  datatype Event =
    | BeginLoad
    | Evict(load: nat)                                              // take the resident, or find none
    | EvictionDone(load: nat)
    | Launch(load: nat)                                             // one start attempt
    | LaunchFailed(load: nat, retry: bool)
    | LaunchReady(load: nat)
    | Publish(load: nat, requested: Params, window: Option<EngineWindow>)  // store the slot count
    | Install(load: nat)                                            // take the lock, set the resident
    | AbandonLoad(load: nat)                                        // an error, or its future dropped
    | Unload(instance: nat)
    | Shutdown
    | UnloadDone
    | UnloadAbandoned
    | HealthFindsDead
    | HealthClears
    | HealthAbandoned                                               // dropped while it drains the engine's output
    | EngineDies(engine: nat)
    | Request(instance: nat)                                        // `client_for`

  predicate HasWindow(window: Option<EngineWindow>) { window.Some? ==> window.value.totalSlots > 0 }

  /** The state after an event, or none when it cannot happen now. */
  function Next(s: State, e: Event): Option<State> {
    match e
    case BeginLoad => Some(s.(loads := s.loads[s.nextId := Admitted], nextId := s.nextId + 1))
    case Evict(l) =>
      if !(l in s.loads && s.loads[l].Admitted? && s.lock.Free?) then None
      else if s.running.None? then Some(s.(loads := s.loads[l := Ready]))
      else Some(s.(running := None, lock := Load(l), loads := s.loads[l := Evicting(s.running.value.engine)]))
    case EvictionDone(l) =>
      if !(l in s.loads && s.loads[l].Evicting?) then None
      else Some(s.(live := s.live - {s.loads[l].engine}, lock := Free, loads := s.loads[l := Ready]))
    case Launch(l) =>
      if !(l in s.loads && s.loads[l].Ready?) then None
      else Some(s.(live := s.live + {s.nextId}, loads := s.loads[l := Starting(s.nextId)], nextId := s.nextId + 1))
    case LaunchFailed(l, retry) =>
      if !(l in s.loads && s.loads[l].Starting?) then None
      else Some(s.(live := s.live - {s.loads[l].engine}, loads := if retry then s.loads[l := Ready] else s.loads - {l}))
    case LaunchReady(l) =>
      if !(l in s.loads && s.loads[l].Starting?) then None
      else Some(s.(loads := s.loads[l := Started(s.loads[l].engine)]))
    case Publish(l, requested, window) =>
      if !(l in s.loads && s.loads[l].Started? && HasWindow(window)) then None
      else
        var engine := s.loads[l].engine;
        var record := Running(s.nextId, engine, engine, requested, window);
        Some(s.(slots := Slots(record.Effective()), loads := s.loads[l := Published(record)],
                origin := s.origin[engine := s.nextId], nextId := s.nextId + 1))
    case Install(l) =>
      if !(l in s.loads && s.loads[l].Published? && s.lock.Free?) then None
      else Some(s.(running := Some(s.loads[l].record), loads := s.loads - {l}))
    case AbandonLoad(l) =>
      if l !in s.loads then None
      else Some(s.(live := s.live - EngineOf(s.loads[l]), loads := s.loads - {l},
                   lock := if s.lock == Load(l) then Free else s.lock))
    case Unload(i) =>
      if !s.lock.Free? then None
      else if s.running.None? || s.running.value.instance != i then Some(s)
      else Some(s.(running := None, lock := Unloading(s.running.value.engine)))
    case Shutdown =>
      if !s.lock.Free? then None
      else if s.running.None? then Some(s)
      else Some(s.(running := None, lock := Unloading(s.running.value.engine)))
    case UnloadDone =>
      if !s.lock.Unloading? then None
      else Some(s.(live := s.live - {s.lock.engine}, slots := 1, lock := Free))
    case UnloadAbandoned =>
      if !s.lock.Unloading? then None else Some(s.(live := s.live - {s.lock.engine}, lock := Free))
    case HealthFindsDead =>
      if s.lock.Free? && s.running.Some? && s.running.value.engine !in s.live then Some(s.(lock := Checking)) else None
    case HealthClears =>
      if s.lock.Checking? then Some(s.(running := None, lock := Free)) else None
    case HealthAbandoned => if s.lock.Checking? then Some(s.(lock := Free)) else None
    case EngineDies(engine) => Some(s.(live := s.live - {engine}))
    case Request(i) =>
      if !s.lock.Free? then None
      else if s.running.None? || s.running.value.instance != i then Some(s)
      else Some(s.(issued := s.issued + {(i, s.running.value.client)}))
  }

  function EngineOf(pc: LoadPc): set<nat> {
    match pc
    case Evicting(e) => {e}
    case Starting(e) => {e}
    case Started(e) => {e}
    case Published(r) => {r.engine}
    case _ => {}
  }

  /** A run, or none when some event cannot happen when it is due. */
  function Run(s: State, events: seq<Event>): Option<State>
    decreases |events|
  {
    if events == [] then Some(s)
    else match Next(s, events[0])
      case None => None
      case Some(s') => Run(s', events[1..])
  }

  /** No load begins while another is under way. */
  predicate Serialised(s: State, events: seq<Event>)
    decreases |events|
  {
    events == [] ||
    ((events[0].BeginLoad? ==> s.loads == map[])
     && (Next(s, events[0]).Some? ==> Serialised(Next(s, events[0]).value, events[1..])))
  }

  // --------------------------------------------------------------- invariant

  ghost predicate Busy(pc: LoadPc) { !pc.Admitted? }

  /** The load under way, if any, and what it implies about the slot, the lock
      and the engines. */
  ghost predicate LoadInv(s: State) {
    && (forall a, b :: a in s.loads && b in s.loads ==> a == b)
    && (forall l :: l in s.loads ==> l < s.nextId)
    && (forall l :: l in s.loads && Busy(s.loads[l]) ==>
          && s.running.None?
          && (if s.loads[l].Evicting? then s.lock == Load(l) else s.lock == Free)
          && s.live <= EngineOf(s.loads[l]))
    && (forall l :: l in s.loads && s.loads[l].Published? ==>
          && RecordInv(s, s.loads[l].record)
          && s.slots == Slots(s.loads[l].record.Effective()))
    && (s.lock.Load? ==> s.lock.id in s.loads && s.loads[s.lock.id].Evicting?)
    && (forall l :: l in s.loads && (s.loads[l].Starting? || s.loads[l].Started?) ==> s.loads[l].engine !in s.origin)
    && (forall l :: l in s.loads ==> forall e :: e in EngineOf(s.loads[l]) ==> e < s.nextId)
  }

  ghost predicate RecordInv(s: State, r: Running) {
    r.client == r.engine && r.engine in s.origin && s.origin[r.engine] == r.instance && HasWindow(r.window)
  }

  ghost predicate ResidentInv(s: State) {
    && (s.running.Some? ==>
          && RecordInv(s, s.running.value)
          && s.slots == Slots(s.running.value.Effective())
          && s.live <= {s.running.value.engine}
          && (s.lock == Free || s.lock == Checking))
    && (s.lock.Unloading? ==> s.running.None? && s.live <= {s.lock.engine})
    && (s.lock.Checking? ==> s.running.Some? && s.live == {})
    && (s.running.None? && !s.lock.Unloading? && (forall l :: l in s.loads ==> !Busy(s.loads[l])) ==> s.live == {})
  }

  ghost predicate IssuedInv(s: State) {
    && (forall e :: e in s.origin ==> e < s.nextId && s.origin[e] < s.nextId)
    && (forall p :: p in s.issued ==> p.1 in s.origin && s.origin[p.1] == p.0)
  }

  ghost predicate Inv(s: State) { LoadInv(s) && ResidentInv(s) && IssuedInv(s) }

  predicate OfALoad(e: Event) {
    e.BeginLoad? || e.Evict? || e.EvictionDone? || e.Launch? || e.LaunchFailed? || e.LaunchReady? || e.Publish?
    || e.Install? || e.AbandonLoad?
  }

  predicate BeforeLaunch(e: Event) { e.BeginLoad? || e.Evict? || e.EvictionDone? }

  predicate EndsLoad(e: Event) { e.Install? || e.AbandonLoad? || (e.LaunchFailed? && !e.retry) }

  lemma FirstStepsKeepLoads(s: State, e: Event)
    requires Inv(s) && Next(s, e).Some? && (e.BeginLoad? ==> s.loads == map[])
    requires BeforeLaunch(e)
    ensures LoadInv(Next(s, e).value)
  {
    hide Reconciled;
    hide Slots;
  }

  lemma LastStepsKeepLoads(s: State, e: Event)
    requires Inv(s) && Next(s, e).Some? && (e.BeginLoad? ==> s.loads == map[])
    requires EndsLoad(e)
    ensures LoadInv(Next(s, e).value)
  {
    hide Reconciled;
    hide Slots;
  }

  lemma LaunchStepsKeepLoads(s: State, e: Event)
    requires Inv(s) && Next(s, e).Some? && (e.BeginLoad? ==> s.loads == map[])
    requires (e.Launch? || e.LaunchFailed? || e.LaunchReady? || e.Publish?) && !EndsLoad(e)
    ensures LoadInv(Next(s, e).value)
  {
    hide Reconciled;
    hide Slots;
  }

  lemma LoadStepKeepsResident(s: State, e: Event)
    requires Inv(s) && Next(s, e).Some? && (e.BeginLoad? ==> s.loads == map[])
    requires OfALoad(e)
    ensures ResidentInv(Next(s, e).value)
  {
    hide Reconciled;
    hide Slots;
    if !e.BeginLoad? {
      var l := e.load;
      assert forall a :: a in s.loads ==> a == l;
      if Busy(s.loads[l]) {
        assert s.live - EngineOf(s.loads[l]) == {};
        var t := Next(s, e).value;
        assert l in t.loads ==> Busy(t.loads[l]);
      } else {
        assert forall a :: a in s.loads ==> !Busy(s.loads[a]);
        assert s.live - {} == s.live;
        assert e.Evict? ==> Busy(Next(s, e).value.loads[l]);
      }
    }
  }

  lemma OtherStepKeepsLoads(s: State, e: Event)
    requires Inv(s) && Next(s, e).Some? && (e.BeginLoad? ==> s.loads == map[])
    requires !OfALoad(e)
    ensures LoadInv(Next(s, e).value)
  {
    hide Reconciled;
    hide Slots;
  }

  lemma OtherStepKeepsResident(s: State, e: Event)
    requires Inv(s) && Next(s, e).Some? && (e.BeginLoad? ==> s.loads == map[])
    requires !OfALoad(e)
    ensures ResidentInv(Next(s, e).value)
  {
    hide Reconciled;
    hide Slots;
  }

  lemma LoadStepKeepsIssued(s: State, e: Event)
    requires Inv(s) && Next(s, e).Some? && OfALoad(e)
    ensures IssuedInv(Next(s, e).value)
  {
    hide Reconciled;
    hide Slots;
    hide ResidentInv;
  }

  lemma OtherStepKeepsIssued(s: State, e: Event)
    requires Inv(s) && Next(s, e).Some? && !OfALoad(e)
    ensures IssuedInv(Next(s, e).value)
  {
    hide Reconciled;
    hide Slots;
    hide LoadInv;
  }

  lemma StepKeepsInv(s: State, e: Event)
    requires Inv(s) && Next(s, e).Some?
    requires e.BeginLoad? ==> s.loads == map[]
    ensures Inv(Next(s, e).value)
  {
    if OfALoad(e) {
      LoadStepKeepsIssued(s, e);
      if BeforeLaunch(e) {
        FirstStepsKeepLoads(s, e);
      } else if EndsLoad(e) {
        LastStepsKeepLoads(s, e);
      } else {
        LaunchStepsKeepLoads(s, e);
      }
      LoadStepKeepsResident(s, e);
    } else {
      OtherStepKeepsIssued(s, e);
      OtherStepKeepsLoads(s, e);
      OtherStepKeepsResident(s, e);
    }
    hide LoadInv;
    hide ResidentInv;
    hide IssuedInv;
    hide Next;
  }

  lemma {:induction false} RunKeepsInv(s: State, events: seq<Event>)
    requires Inv(s) && Run(s, events).Some? && Serialised(s, events)
    ensures Inv(Run(s, events).value)
    decreases |events|
  {
    if events == [] {
    } else {
      StepKeepsInv(s, events[0]);
      RunKeepsInv(Next(s, events[0]).value, events[1..]);
    }
  }

  // ---------------------------------------------------------------- theorems

  lemma {:induction false} AtMostOne(a: set<nat>, e: nat)
    requires a <= {e}
    ensures |a| <= 1
  {
    if a == {} {
    } else {
      assert a == {e};
    }
  }

  /** With loads serialised and everything else interleaved freely: at most one
      engine is alive, a resident model's slot count is the advertised one, and
      every client handed out reaches the engine launched for the instance it
      was asked for. */
  lemma EveryReachableState(events: seq<Event>)
    requires Run(INITIAL, events).Some? && Serialised(INITIAL, events)
    ensures var s := Run(INITIAL, events).value;
            && |s.live| <= 1
            && (s.running.Some? ==> s.slots == Slots(s.running.value.Effective()))
            && (forall p :: p in s.issued ==> p.1 in s.origin && s.origin[p.1] == p.0)
  {
    RunKeepsInv(INITIAL, events);
    hide Run;
    hide Serialised;
    hide Reconciled;
    AtMostOneLive(Run(INITIAL, events).value);
    hide LoadInv;
  }

  lemma AtMostOneLive(s: State)
    requires Inv(s)
    ensures |s.live| <= 1
  {
    hide Reconciled;
    hide Slots;
    hide IssuedInv;
    hide RecordInv;
    if s.running.Some? {
      AtMostOne(s.live, s.running.value.engine);
    } else if s.lock.Unloading? {
      AtMostOne(s.live, s.lock.engine);
    } else if exists l :: l in s.loads && Busy(s.loads[l]) {
      var l :| l in s.loads && Busy(s.loads[l]);
      match s.loads[l] {
        case Evicting(e) => AtMostOne(s.live, e);
        case Starting(e) => AtMostOne(s.live, e);
        case Started(e) => AtMostOne(s.live, e);
        case Published(r) => AtMostOne(s.live, r.engine);
        case Ready => assert s.live == {};
        case Admitted =>
      }
    }
  }

  /** The advertised window of a resident model is never more than was asked of
      its engine nor than the engine said it has. */
  lemma ResidentNeverPromisesMore(events: seq<Event>)
    requires Run(INITIAL, events).Some? && Serialised(INITIAL, events)
    ensures var s := Run(INITIAL, events).value;
            s.running.Some? ==>
              var r := s.running.value;
              && r.Effective().nCtx <= r.requested.nCtx
              && (r.window.Some? ==> r.Effective().nCtx <= r.window.value.nCtx && s.slots <= r.window.value.totalSlots)
  {
    RunKeepsInv(INITIAL, events);
    var s := Run(INITIAL, events).value;
    hide Run;
    if s.running.Some? {
      ReconciledNeverPromisesMore(s.running.value.requested, s.running.value.window);
    }
  }

  lemma RunStep(s: State, e: Event, rest: seq<Event>)
    requires Next(s, e).Some?
    ensures Run(s, [e] + rest) == Run(Next(s, e).value, rest)
    ensures rest == [] ==> Run(s, [e] + rest) == Next(s, e)
    ensures Serialised(s, [e] + rest)
       <==> (e.BeginLoad? ==> s.loads == map[]) && Serialised(Next(s, e).value, rest)
  {
    assert ([e] + rest)[1..] == rest;
  }

  lemma {:induction false} RunAppends(s: State, events: seq<Event>, more: seq<Event>)
    requires Run(s, events).Some?
    ensures Run(s, events + more) == Run(Run(s, events).value, more)
    ensures Serialised(s, events) && Serialised(Run(s, events).value, more) ==> Serialised(s, events + more)
    decreases |events|
  {
    if events == [] {
      assert events + more == more;
    } else {
      assert events + more == [events[0]] + (events[1..] + more);
      assert events == [events[0]] + events[1..];
      RunStep(s, events[0], events[1..] + more);
      RunStep(s, events[0], events[1..]);
      RunAppends(Next(s, events[0]).value, events[1..], more);
    }
  }

  // ------------------------------------------------------ the advertised count

  predicate Stores(e: Event) { e.Publish? || e.UnloadDone? }

  /** What a storing event stores. */
  function Stored(e: Event): nat
    requires Stores(e)
  {
    if e.Publish? then Slots(Reconciled(e.requested, e.window)) else 1
  }

  /** The value of the last store in a history, or the one before it. */
  function LastStore(initial: nat, events: seq<Event>): nat {
    if events == [] then initial
    else if Stores(events[|events| - 1]) then Stored(events[|events| - 1])
    else LastStore(initial, events[..|events| - 1])
  }

  lemma {:induction false} LastStoreOfRest(initial: nat, events: seq<Event>)
    requires events != []
    ensures LastStore(initial, events)
         == LastStore(if Stores(events[0]) then Stored(events[0]) else initial, events[1..])
  {
    hide Reconciled;
    var init := events[..|events| - 1];
    if init == [] {
      assert events[1..] == [];
    } else {
      assert events[1..][..|events| - 2] == init[1..];
      LastStoreOfRest(initial, init);
    }
  }

  lemma StepStores(s: State, e: Event)
    requires Next(s, e).Some?
    ensures Next(s, e).value.slots == if Stores(e) then Stored(e) else s.slots
  {
    hide Reconciled;
    hide Slots;
  }

  /** Along every run, serialised or not, the advertised count is the last value
      stored: by a load that got as far as publishing, or by a completed unload. */
  lemma {:induction false} AdvertisedIsLastStore(s: State, events: seq<Event>)
    requires Run(s, events).Some?
    ensures Run(s, events).value.slots == LastStore(s.slots, events)
    decreases |events|
  {
    if events == [] {
    } else {
      hide Next;
      StepStores(s, events[0]);
      AdvertisedIsLastStore(Next(s, events[0]).value, events[1..]);
      LastStoreOfRest(s.slots, events);
    }
  }

  ghost predicate IsLastStore(events: seq<Event>, k: int) {
    0 <= k < |events| && Stores(events[k]) && forall j :: k < j < |events| ==> !Stores(events[j])
  }

  lemma {:induction false} LastStoreIsAt(initial: nat, events: seq<Event>)
    ensures (forall e :: e in events ==> !Stores(e)) ==> LastStore(initial, events) == initial
    ensures forall k :: IsLastStore(events, k) ==> LastStore(initial, events) == Stored(events[k])
    ensures (forall e :: e in events ==> !Stores(e)) || exists k :: IsLastStore(events, k)
  {
    hide Reconciled;
    hide Slots;
    if events == [] {
    } else {
      var n := |events| - 1;
      var init := events[..n];
      assert events == init + [events[n]];
      LastStoreIsAt(initial, init);
      if Stores(events[n]) {
        assert IsLastStore(events, n);
      } else {
        assert forall k :: IsLastStore(events, k) ==> k < n && IsLastStore(init, k);
        assert forall k :: IsLastStore(init, k) ==> IsLastStore(events, k);
      }
    }
  }

  /** From a fresh backend the count is 1 exactly when nothing was ever stored or
      the last store was a completed unload or the publication of one slot. It
      holds whether or not a model is resident, and so says just when "1 when
      nothing is resident" is true. */
  lemma AdvertisesOneIff(events: seq<Event>)
    requires Run(INITIAL, events).Some?
    ensures Run(INITIAL, events).value.slots == 1 <==>
              || (forall e :: e in events ==> !Stores(e))
              || exists k :: IsLastStore(events, k)
                             && (events[k].UnloadDone? || Slots(Reconciled(events[k].requested, events[k].window)) == 1)
  {
    hide Run;
    hide Reconciled;
    AdvertisedIsLastStore(INITIAL, events);
    LastStoreIsAt(1, events);
    if exists k :: IsLastStore(events, k) {
      var k :| IsLastStore(events, k);
      assert events[k] in events;
      assert forall j :: IsLastStore(events, j) ==> j == k;
    }
  }

  /** How a resident model can go: unloaded, its unload dropped half way, found
      dead by a health check, or evicted by a load that then fails. */
  datatype WayOut = Unloaded | UnloadDropped | FoundDead | EvictedInVain

  predicate NothingThere(s: State) {
    s.running.None? && s.lock.Free? && forall l :: l in s.loads ==> s.loads[l].Admitted?
  }

  /** From every reachable state with a resident and a free lock, each way out is
      open, ends with nothing resident and nothing on its way, and leaves the
      count at 1 exactly when the unload completed or there was one slot. */
  lemma WaysOut(events: seq<Event>, way: WayOut) returns (more: seq<Event>)
    requires Run(INITIAL, events).Some? && Serialised(INITIAL, events)
    requires Run(INITIAL, events).value.running.Some? && Run(INITIAL, events).value.lock.Free?
    ensures Run(INITIAL, events + more).Some? && Serialised(INITIAL, events + more)
    ensures var before, after := Run(INITIAL, events).value, Run(INITIAL, events + more).value;
            && NothingThere(after)
            && after.slots == (if way.Unloaded? then 1 else before.slots)
            && before.slots == Slots(before.running.value.Effective())
            && (after.slots == 1 <==> way.Unloaded? || Slots(before.running.value.Effective()) == 1)
  {
    hide Run;
    hide Serialised;
    hide Reconciled;
    hide Slots;
    var s := Run(INITIAL, events).value;
    RunKeepsInv(INITIAL, events);
    match way {
      case Unloaded => more := UnloadRun(s);
      case UnloadDropped => more := DroppedUnloadRun(s);
      case FoundDead => more := FoundDeadRun(s);
      case EvictedInVain => more := EvictedInVainRun(s);
    }
    RunAppends(INITIAL, events, more);
  }

  lemma UnloadRun(s: State) returns (more: seq<Event>)
    requires Inv(s) && s.running.Some? && s.lock.Free?
    ensures Run(s, more).Some? && Serialised(s, more)
    ensures NothingThere(Run(s, more).value) && Run(s, more).value.slots == 1
  {
    hide Run;
    hide Serialised;
    EmptyRun();
    var i := s.running.value.instance;
    more := [Unload(i)] + ([UnloadDone] + []);
    RunStep(Next(s, Unload(i)).value, UnloadDone, []);
    RunStep(s, Unload(i), [UnloadDone] + []);
  }

  lemma DroppedUnloadRun(s: State) returns (more: seq<Event>)
    requires Inv(s) && s.running.Some? && s.lock.Free?
    ensures Run(s, more).Some? && Serialised(s, more)
    ensures NothingThere(Run(s, more).value) && Run(s, more).value.slots == s.slots
  {
    hide Run;
    hide Serialised;
    EmptyRun();
    var i := s.running.value.instance;
    more := [Unload(i)] + ([UnloadAbandoned] + []);
    RunStep(Next(s, Unload(i)).value, UnloadAbandoned, []);
    RunStep(s, Unload(i), [UnloadAbandoned] + []);
  }

  lemma FoundDeadRun(s: State) returns (more: seq<Event>)
    requires Inv(s) && s.running.Some? && s.lock.Free?
    ensures Run(s, more).Some? && Serialised(s, more)
    ensures NothingThere(Run(s, more).value) && Run(s, more).value.slots == s.slots
  {
    hide Run;
    hide Serialised;
    EmptyRun();
    var engine := s.running.value.engine;
    var e2 := [HealthClears] + [];
    var e1 := [HealthFindsDead] + e2;
    more := [EngineDies(engine)] + e1;
    var s1 := Next(s, EngineDies(engine)).value;
    var s2 := Next(s1, HealthFindsDead).value;
    RunStep(s2, HealthClears, []);
    RunStep(s1, HealthFindsDead, e2);
    RunStep(s, EngineDies(engine), e1);
  }

  lemma EvictedInVainRun(s: State) returns (more: seq<Event>)
    requires Inv(s) && s.running.Some? && s.lock.Free?
    ensures Run(s, more).Some? && Serialised(s, more)
    ensures NothingThere(Run(s, more).value) && Run(s, more).value.slots == s.slots
  {
    if s.loads == map[] {
      var rest := FailedLoadRun(Next(s, BeginLoad).value, s.nextId);
      RunStep(s, BeginLoad, rest);
      more := [BeginLoad] + rest;
    } else {
      var l :| l in s.loads;
      more := FailedLoadRun(s, l);
    }
  }

  lemma FailedLoadRun(s: State, l: nat) returns (more: seq<Event>)
    requires s.running.Some? && s.lock.Free? && l in s.loads && forall a :: a in s.loads ==> s.loads[a].Admitted?
    ensures Run(s, more).Some? && Serialised(s, more)
    ensures NothingThere(Run(s, more).value) && Run(s, more).value.slots == s.slots
  {
    hide Run;
    hide Serialised;
    EmptyRun();
    var e4 := [LaunchFailed(l, false)] + [];
    var e3 := [Launch(l)] + e4;
    var e2 := [EvictionDone(l)] + e3;
    more := [Evict(l)] + e2;
    var s1 := Next(s, Evict(l)).value;
    var s2 := Next(s1, EvictionDone(l)).value;
    var s3 := Next(s2, Launch(l)).value;
    RunStep(s3, LaunchFailed(l, false), []);
    RunStep(s2, Launch(l), e4);
    RunStep(s1, EvictionDone(l), e3);
    RunStep(s, Evict(l), e2);
  }

  lemma EmptyRun()
    ensures forall s :: Run(s, []) == Some(s) && Serialised(s, [])
  {
  }

  /** A load of a two-slot model on an idle backend. */
  lemma TwoSlotsResident() returns (events: seq<Event>)
    ensures Run(INITIAL, events).Some? && Serialised(INITIAL, events)
    ensures var s := Run(INITIAL, events).value; s.running.Some? && s.lock.Free? && s.slots == 2
  {
    hide Run;
    hide Serialised;
    EmptyRun();
    var asked := Params(1, 2);
    var s1 := Next(INITIAL, BeginLoad).value;
    var s2 := Next(s1, Evict(0)).value;
    var s3 := Next(s2, Launch(0)).value;
    var s4 := Next(s3, LaunchReady(0)).value;
    var s5 := Next(s4, Publish(0, asked, None)).value;
    var e5 := [Install(0)] + [];
    var e4 := [Publish(0, asked, None)] + e5;
    var e3 := [LaunchReady(0)] + e4;
    var e2 := [Launch(0)] + e3;
    var e1 := [Evict(0)] + e2;
    events := [BeginLoad] + e1;
    RunStep(s5, Install(0), []);
    RunStep(s4, Publish(0, asked, None), e5);
    RunStep(s3, LaunchReady(0), e4);
    RunStep(s2, Launch(0), e3);
    RunStep(s1, Evict(0), e2);
    RunStep(INITIAL, BeginLoad, e1);
  }

  /** With nothing resident the backend can advertise two slots, by every way out
      but a completed unload. */
  lemma SlotsOutliveTheResident(way: WayOut) returns (events: seq<Event>)
    requires !way.Unloaded?
    ensures Run(INITIAL, events).Some? && Serialised(INITIAL, events)
    ensures var s := Run(INITIAL, events).value; NothingThere(s) && s.slots == 2
  {
    hide Run;
    hide Serialised;
    var before := TwoSlotsResident();
    var more := WaysOut(before, way);
    events := before + more;
  }

  /** Why loads are serialised: two at once leave two engines alive. */
  lemma TwoLoadsTwoEngines() returns (events: seq<Event>)
    ensures Run(INITIAL, events).Some? && |Run(INITIAL, events).value.live| == 2
  {
    hide Run;
    var s0 := INITIAL;
    var s1 := Next(s0, BeginLoad).value;
    var s2 := Next(s1, BeginLoad).value;
    var s3 := Next(s2, Evict(0)).value;
    var s4 := Next(s3, Evict(1)).value;
    var s5 := Next(s4, Launch(0)).value;
    var s6 := Next(s5, Launch(1)).value;
    var e5 := [Launch(1)] + [];
    var e4 := [Launch(0)] + e5;
    var e3 := [Evict(1)] + e4;
    var e2 := [Evict(0)] + e3;
    var e1 := [BeginLoad] + e2;
    events := [BeginLoad] + e1;
    RunStep(s5, Launch(1), []);
    RunStep(s4, Launch(0), e5);
    RunStep(s3, Evict(1), e4);
    RunStep(s2, Evict(0), e3);
    RunStep(s1, BeginLoad, e2);
    RunStep(s0, BeginLoad, e1);
    assert s6.live == {2, 3};
  }
}
