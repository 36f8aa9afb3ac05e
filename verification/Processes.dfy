/** The child processes of the desktop shell, as its supervisors see them. */
module Processes {
  import opened Wrappers

  /** `pending` are the children whose exit or error event has not been
      delivered yet, alive or not; `misfired` those that never started. */
  datatype World = World(live: set<nat>, pending: set<nat>, misfired: set<nat>, spawned: set<nat>, signalled: set<nat>,
                         killed: set<nat>)
  {
    function Spawn(p: nat): World {
      this.(live := live + {p}, pending := pending + {p}, spawned := spawned + {p})
    }

    /** A spawn that will be reported by an `error` event. */
    function Misfire(p: nat): World {
      this.(pending := pending + {p}, misfired := misfired + {p}, spawned := spawned + {p})
    }

    function Signal(p: nat): World { this.(signalled := signalled + {p}) }

    function Kill(p: nat): World { this.(signalled := signalled + {p}, killed := killed + {p}) }

    function Die(p: nat): World { this.(live := live - {p}) }

    function Reap(p: nat): World { this.(pending := pending - {p}) }

    /** The exit event of a dead child, or the error event of one that never
        started, is due. */
    predicate Due(p: nat) { p in pending && p !in live }

    ghost predicate Sane(next: nat) {
      && live <= pending <= spawned
      && misfired <= spawned && misfired !! live
      && killed <= signalled <= spawned
      && (forall p :: p in spawned ==> p < next)
    }

    /** Every child still to be heard of is the tracked one or has been sent
        the unconditional kill. */
    ghost predicate Tracked(child: Option<nat>) {
      forall p :: p in pending ==> child == Some(p) || p in killed
    }
  }

  /** The world with one more process. */
  function WithChild(w: World, p: nat): World {
    World(w.live + {p}, w.pending + {p}, w.misfired, w.spawned + {p}, w.signalled, w.killed)
  }

  /** The world after a process was signalled and killed, its exit still to come. */
  function Killed(w: World, p: nat): World { w.(signalled := w.signalled + {p}, killed := w.killed + {p}) }

  /** The world after a process was signalled and went, its exit delivered. */
  function Gone(w: World, p: nat): World {
    w.(live := w.live - {p}, pending := w.pending - {p}, signalled := w.signalled + {p})
  }

  const EMPTY := World({}, {}, {}, {}, {}, {})

  datatype SpawnOutcome = Spawned | Threw | WillError
}
