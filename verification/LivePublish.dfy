/**
  Deferred live publication of src/fast_storage.rs: publishers, the single-slot queue, the
  single-flight worker and the live chain's owner, as a step system. Every step is one critical
  section or one lock operation, so any interleaving of threads is a sequence of steps.
 */
module LivePublish {
  import opened Arithmetic
  import opened MapSums
  import opened Merkle
  import opened Outcome

  /** What publication looks at in a chain state; the work is determined by the tip. */
  datatype Snapshot = Snapshot(tip: Hash, height: nat, mempool: set<Hash>)

  /** Work of a tip (None where its bits do not decode) and the merged pool of two same-tip snapshots. */
  datatype Env = Env(work: Hash -> Option<nat>, rebuild: (Snapshot, Snapshot) -> set<Hash>)

  predicate Replaces(env: Env, candidate: Snapshot, current: Snapshot)
  {
    var (cw, lw) := (env.work(candidate.tip), env.work(current.tip));
    if cw.Some? && lw.Some? then cw.value > lw.value else candidate.height > current.height
  }

  /** apply_live_candidate_locked. */
  function Apply(env: Env, current: Snapshot, candidate: Snapshot): Snapshot
  {
    if current.tip == candidate.tip then
      if candidate.mempool <= current.mempool then current
      else current.(mempool := env.rebuild(current, candidate))
    else if Replaces(env, candidate, current) then candidate
    else current
  }

  /** merge_deferred_candidate. */
  function Merge(env: Env, existing: Snapshot, candidate: Snapshot): Snapshot
  {
    if existing.tip == candidate.tip then Apply(env, existing, candidate)
    else if Replaces(env, candidate, existing) then candidate
    else existing
  }

  /** Where a thread is. Publishers start at Arriving, workers at Draining. */
  datatype Pc =
    | Arriving(c: Snapshot)      // publish_live_chain: before looking up the live chain
    | Trying(c: Snapshot)        // before try_lock
    | Holding(c: Snapshot)       // has the live lock, about to apply
    | Queueing(c: Snapshot)      // try_lock failed, about to queue
    | Registering                // spawn_deferred_live_worker: about to insert into the worker set
    | Spawning                   // inserted, about to spawn the worker thread
    | Draining                   // worker: about to take from the queue
    | Fetched(c: Snapshot)       // worker: took c, about to look up the live chain
    | Waiting(c: Snapshot)       // worker: about to lock the live chain
    | Applying(c: Snapshot)      // worker: has the live lock
    | Leaving                    // worker: saw an empty queue, about to leave the worker set
    | Rechecking                 // worker: left the set, about to look at the queue once more
    | Done

  datatype Holder = Free | Owner | Thread(id: nat)

  /** `owner` and `published` are history: the thread that holds the registration, and what was offered. */
  datatype State = State(
    live: Snapshot, registered: bool, holder: Holder,
    pending: Option<Snapshot>, worker: bool, threads: map<nat, Pc>,
    owner: Option<nat>, published: set<Snapshot>, neverAbsent: bool)

  datatype Action =
    | Publish(id: nat, c: Snapshot)       // a new publisher thread
    | Run(id: nat, spawned: nat)          // one step of a thread; `spawned` names a thread it may create
    | OwnerLock | OwnerSet(c: Snapshot) | OwnerUnlock
    | Unregister | Register

  function Goto(s: State, id: nat, pc: Pc): State
  {
    s.(threads := s.threads[id := pc])
  }

  predicate CanRun(s: State, id: nat, spawned: nat)
  {
    && id in s.threads && s.threads[id] != Done
    && (s.threads[id].Waiting? ==> s.holder == Free)
    && (s.threads[id].Spawning? ==> spawned !in s.threads)
  }

  /** Where the thread goes. */
  function NextPc(s: State, pc: Pc): Pc
  {
    match pc
    case Arriving(c) => if s.registered then Trying(c) else Done
    case Trying(c) => if s.holder == Free then Holding(c) else Queueing(c)
    case Holding(c) => Done
    case Queueing(c) => Registering
    case Registering => if s.worker then Done else Spawning
    case Spawning => Done
    case Draining => if s.pending.Some? then Fetched(s.pending.value) else Leaving
    case Fetched(c) => if s.registered then Waiting(c) else Draining
    case Waiting(c) => Applying(c)
    case Applying(c) => Draining
    case Leaving => Rechecking
    case Rechecking => if s.pending.Some? then Registering else Done
    case Done => Done
  }

  /** What the step does to everything but the threads. */
  function Effect(env: Env, s: State, id: nat, pc: Pc, spawned: nat): (t: State)
    ensures t.threads == s.threads
  {
    match pc
    case Arriving(c) => if s.registered then s.(published := s.published + {c}) else s
    case Trying(c) => if s.holder == Free then s.(holder := Thread(id)) else s
    case Holding(c) => s.(live := Apply(env, s.live, c), holder := Free)
    case Queueing(c) => s.(pending := Some(if s.pending.Some? then Merge(env, s.pending.value, c) else c))
    case Registering => if s.worker then s else s.(worker := true, owner := Some(id))
    case Spawning => s.(owner := Some(spawned))
    case Draining => s.(pending := None)
    case Fetched(c) => s
    case Waiting(c) => s.(holder := Thread(id))
    case Applying(c) => s.(live := Apply(env, s.live, c), holder := Free)
    case Leaving => s.(worker := false, owner := None)
    case Rechecking => s
    case Done => s
  }

  function RunStep(env: Env, s: State, id: nat, spawned: nat): State
    requires CanRun(s, id, spawned)
  {
    var pc := s.threads[id];
    var moved := s.threads[id := NextPc(s, pc)];
    Effect(env, s, id, pc, spawned).(threads := if pc.Spawning? then moved[spawned := Draining] else moved)
  }

  /** The live chain's owner only replaces it by a chain with at least as much work. */
  predicate OwnerMaySet(env: Env, s: State, c: Snapshot)
  {
    s.holder == Owner && AtLeast(env, c, s.live)
  }

  predicate Enabled(env: Env, s: State, a: Action)
  {
    match a
    case Publish(id, c) => id !in s.threads
    case Run(id, spawned) => CanRun(s, id, spawned)
    case OwnerLock => s.holder == Free
    case OwnerSet(c) => OwnerMaySet(env, s, c)
    case OwnerUnlock => s.holder == Owner
    case Unregister => true
    case Register => true
  }

  function Next(env: Env, s: State, a: Action): State
    requires Enabled(env, s, a)
  {
    match a
    case Publish(id, c) => Goto(s, id, Arriving(c))
    case Run(id, spawned) => RunStep(env, s, id, spawned)
    case OwnerLock => s.(holder := Owner)
    case OwnerSet(c) => s.(live := c)
    case OwnerUnlock => s.(holder := Free)
    case Unregister => s.(registered := false, neverAbsent := false)
    case Register => s.(registered := true)
  }

  predicate Init(s: State)
  {
    s.registered && s.holder == Free && s.pending.None? && !s.worker && s.threads == map[]
    && s.owner.None? && s.published == {} && s.neverAbsent
  }

  /** States reached by some interleaving. */
  ghost predicate Reaches(env: Env, s: State, actions: seq<Action>, t: State)
    decreases |actions|
  {
    if actions == [] then s == t
    else Enabled(env, s, actions[0]) && Reaches(env, Next(env, s, actions[0]), actions[1..], t)
  }

  // ---- Invariant ---------------------------------------------------------------------------

  /** a has at least the work of b; a chain whose bits do not decode is below everything. */
  predicate AtLeast(env: Env, a: Snapshot, b: Snapshot)
  {
    env.work(b.tip).None? || (env.work(a.tip).Some? && env.work(a.tip).value >= env.work(b.tip).value)
  }

  /** The thread works under the registration in the worker set. */
  predicate Registered(pc: Pc)
  {
    pc.Spawning? || pc.Draining? || pc.Fetched? || pc.Waiting? || pc.Applying? || pc.Leaving?
  }

  /** The candidate a thread still has to deliver. */
  predicate Carries(pc: Pc)
  {
    pc.Trying? || pc.Holding? || pc.Queueing? || pc.Fetched? || pc.Waiting? || pc.Applying?
  }

  /** The thread will insert a worker, or look at the queue, without having to be woken. */
  predicate AboutToSpawn(pc: Pc)
  {
    pc.Registering? || pc.Rechecking?
  }

  /** The worker set has the key exactly while one thread works under it. */
  ghost predicate SingleFlight(s: State)
  {
    && (s.worker <==> s.owner.Some?)
    && (s.owner.Some? ==> s.owner.value in s.threads)
    && forall id :: id in s.threads ==> (Registered(s.threads[id]) <==> s.owner == Some(id))
  }

  /** A queued candidate has a registered worker or somebody about to spawn one. */
  ghost predicate QueueIsWatched(s: State)
  {
    s.pending.Some? ==> s.worker || exists id :: id in s.threads && AboutToSpawn(s.threads[id])
  }

  predicate HasLock(pc: Pc)
  {
    pc.Holding? || pc.Applying?
  }

  /** Whoever applies holds the live lock, so no two threads apply at once. */
  ghost predicate LockHeld(s: State)
  {
    && (s.holder.Thread? ==> s.holder.id in s.threads)
    && forall id :: id in s.threads ==> (HasLock(s.threads[id]) <==> s.holder == Thread(id))
  }

  ghost predicate Delivered(env: Env, s: State, c: Snapshot)
  {
    || AtLeast(env, s.live, c)
    || (s.pending.Some? && AtLeast(env, s.pending.value, c))
    || exists id :: id in s.threads && Carries(s.threads[id]) && AtLeast(env, s.threads[id].c, c)
  }

  /** What holds in every interleaving. */
  ghost predicate Guarded(s: State)
  {
    SingleFlight(s) && QueueIsWatched(s) && LockHeld(s)
  }

  ghost predicate Inv(env: Env, s: State)
  {
    && Guarded(s)
    && (s.neverAbsent ==> s.registered)
    && (s.neverAbsent ==> forall c :: c in s.published ==> Delivered(env, s, c))
  }

  /** Of two different tips one decodes and the other does not, and the height rule prefers the one that does not. */
  predicate Upset(env: Env, current: Snapshot, candidate: Snapshot)
  {
    && current.tip != candidate.tip
    && (if env.work(current.tip).Some? then env.work(candidate.tip).None? && candidate.height > current.height
        else env.work(candidate.tip).Some? && candidate.height <= current.height)
  }

  /** Ranking two chains keeps at least the work of both, unless it is upset. */
  lemma RankingKeepsWork(env: Env, current: Snapshot, candidate: Snapshot)
    ensures AtLeast(env, Apply(env, current, candidate), current) && AtLeast(env, Apply(env, current, candidate), candidate)
       <==> !Upset(env, current, candidate)
    ensures AtLeast(env, Merge(env, current, candidate), current) && AtLeast(env, Merge(env, current, candidate), candidate)
       <==> !Upset(env, current, candidate)
  {
  }

  /**
    Of two different tips with decodable work the other one wins exactly with strictly more work, in live
    publication and in the queue; without decodable work on both sides it wins exactly with greater height.
   */
  lemma OvertakesStrictly(env: Env, current: Snapshot, candidate: Snapshot)
    requires current.tip != candidate.tip
    ensures var (cw, lw) := (env.work(candidate.tip), env.work(current.tip));
            var wins := if cw.Some? && lw.Some? then cw.value > lw.value else candidate.height > current.height;
            Apply(env, current, candidate) == Merge(env, current, candidate) == if wins then candidate else current
  {
  }

  /** One tip never changes anything but the pending transactions, and not even those without news. */
  lemma SameTipMerges(env: Env, current: Snapshot, candidate: Snapshot)
    requires current.tip == candidate.tip
    ensures Apply(env, current, candidate) == Merge(env, current, candidate)
         == if candidate.mempool <= current.mempool then current else current.(mempool := env.rebuild(current, candidate))
  {
  }

  /** The step ranks no two chains against their work. */
  predicate Calm(env: Env, s: State, a: Action)
    requires Enabled(env, s, a)
  {
    a.Run? ==>
      var pc := s.threads[a.id];
      && (pc.Holding? || pc.Applying? ==> !Upset(env, s.live, pc.c))
      && (pc.Queueing? && s.pending.Some? ==> !Upset(env, s.pending.value, pc.c))
  }

  ghost predicate CalmRun(env: Env, s: State, actions: seq<Action>)
    decreases |actions|
  {
    actions == [] || (Enabled(env, s, actions[0]) && Calm(env, s, actions[0]) && CalmRun(env, Next(env, s, actions[0]), actions[1..]))
  }

  // ---- Preservation ------------------------------------------------------------------------

  /** Only this thread moved. */
  ghost predicate Moved(s: State, t: State, id: nat)
  {
    id in s.threads && id in t.threads && t.threads == s.threads[id := t.threads[id]]
  }

  lemma MoveKeepsSingleFlight(s: State, t: State, id: nat)
    requires SingleFlight(s) && Moved(s, t, id)
    requires
      || (t.worker == s.worker && t.owner == s.owner && (Registered(t.threads[id]) <==> Registered(s.threads[id])))
      || (!s.worker && t.worker && t.owner == Some(id) && Registered(t.threads[id]))
      || (Registered(s.threads[id]) && !t.worker && t.owner.None? && !Registered(t.threads[id]))
    ensures SingleFlight(t)
  {
    hide Registered;
  }

  lemma SpawnKeepsSingleFlight(env: Env, s: State, id: nat, spawned: nat)
    requires SingleFlight(s) && CanRun(s, id, spawned) && s.threads[id].Spawning?
    ensures SingleFlight(RunStep(env, s, id, spawned))
  {
    hide Apply, Merge;
  }

  // What one thread's step does to the registration.
  lemma RegistrationMoves(env: Env, s: State, id: nat, spawned: nat)
    requires CanRun(s, id, spawned) && !s.threads[id].Spawning?
    ensures var (t, pc, qc) := (Effect(env, s, id, s.threads[id], spawned), s.threads[id], NextPc(s, s.threads[id]));
            if pc.Registering? && !s.worker then t.worker && t.owner == Some(id) && Registered(qc)
            else if pc.Leaving? then !t.worker && t.owner.None? && !Registered(qc)
            else t.worker == s.worker && t.owner == s.owner && (Registered(qc) <==> Registered(pc))
  {
    hide Apply, Merge;
  }

  lemma SingleFlightStep(env: Env, s: State, a: Action)
    requires SingleFlight(s) && Enabled(env, s, a)
    ensures SingleFlight(Next(env, s, a))
  {
    hide Effect, NextPc;
    if a.Run? {
      if s.threads[a.id].Spawning? {
        SpawnKeepsSingleFlight(env, s, a.id, a.spawned);
      } else {
        RegistrationMoves(env, s, a.id, a.spawned);
        MoveKeepsSingleFlight(s, RunStep(env, s, a.id, a.spawned), a.id);
      }
    }
  }

  // What one thread's step does to the live lock.
  lemma LockMoves(env: Env, s: State, id: nat, spawned: nat)
    requires CanRun(s, id, spawned)
    ensures var (t, pc, qc) := (Effect(env, s, id, s.threads[id], spawned), s.threads[id], NextPc(s, s.threads[id]));
            if HasLock(qc) then s.holder == Free && t.holder == Thread(id) && !HasLock(pc)
            else if HasLock(pc) then t.holder == Free
            else t.holder == s.holder
  {
    hide Apply, Merge;
  }

  lemma LockStep(env: Env, s: State, a: Action)
    requires LockHeld(s) && Enabled(env, s, a)
    ensures LockHeld(Next(env, s, a))
  {
    hide Effect, NextPc;
    if a.Run? {
      LockMoves(env, s, a.id, a.spawned);
    }
  }

  lemma QueueStep(env: Env, s: State, a: Action)
    requires SingleFlight(s) && QueueIsWatched(s) && Enabled(env, s, a)
    ensures QueueIsWatched(Next(env, s, a))
  {
    hide Apply, Merge, AtLeast;
    var t := Next(env, s, a);
    if t.pending.Some? && !t.worker {
      if a.Run? {
        if t.threads[a.id] == s.threads[a.id] || !AboutToSpawn(t.threads[a.id]) {
          // The step was a publisher's or worker's that leaves somebody else on watch.
          var w :| w in s.threads && AboutToSpawn(s.threads[w]);
          assert w in t.threads && t.threads[w] == s.threads[w];
        }
      } else {
        var w :| w in s.threads && AboutToSpawn(s.threads[w]);
        assert w in t.threads && AboutToSpawn(t.threads[w]);
      }
    }
  }

  lemma AtLeastTransitive(env: Env, a: Snapshot, b: Snapshot, c: Snapshot)
    requires AtLeast(env, a, b) && AtLeast(env, b, c)
    ensures AtLeast(env, a, c)
  {
  }

  // Nothing offered is lost by a step: it stays where it was, moves on with its thread, or is absorbed by something at least as strong.
  lemma DeliveredStep(env: Env, s: State, a: Action, c: Snapshot)
    requires Inv(env, s) && Enabled(env, s, a) && Calm(env, s, a)
    requires s.neverAbsent && Next(env, s, a).neverAbsent && Delivered(env, s, c)
    ensures Delivered(env, Next(env, s, a), c)
  {
    hide Apply, Merge, AtLeast;
    var t := Next(env, s, a);
    if a.OwnerSet? {
      OwnerKeepsDelivered(env, s, a, c);
    } else if a.Run? {
      RunDelivered(env, s, a, c);
    } else if AtLeast(env, s.live, c) || (s.pending.Some? && AtLeast(env, s.pending.value, c)) {
    } else {
      var id :| id in s.threads && Carries(s.threads[id]) && AtLeast(env, s.threads[id].c, c);
      assert t.threads[id] == s.threads[id];
    }
  }

  lemma OwnerKeepsDelivered(env: Env, s: State, a: Action, c: Snapshot)
    requires a.OwnerSet? && Enabled(env, s, a) && Delivered(env, s, c)
    ensures Delivered(env, Next(env, s, a), c)
  {
    var t := Next(env, s, a);
    if AtLeast(env, s.live, c) {
      AtLeastTransitive(env, t.live, s.live, c);
    } else if !(s.pending.Some? && AtLeast(env, s.pending.value, c)) {
      var id :| id in s.threads && Carries(s.threads[id]) && AtLeast(env, s.threads[id].c, c);
      assert t.threads[id] == s.threads[id];
    }
  }

  lemma RunDelivered(env: Env, s: State, a: Action, c: Snapshot)
    requires Inv(env, s) && a.Run? && Enabled(env, s, a) && Calm(env, s, a) && s.neverAbsent && Delivered(env, s, c)
    ensures Delivered(env, Next(env, s, a), c)
  {
    hide Apply, Merge, AtLeast, Upset, Guarded;
    var t := Next(env, s, a);
    var pc := s.threads[a.id];
    if AtLeast(env, s.live, c) {
      if pc.Holding? || pc.Applying? {
        RankingKeepsWork(env, s.live, pc.c);
        AtLeastTransitive(env, t.live, s.live, c);
      }
    } else if s.pending.Some? && AtLeast(env, s.pending.value, c) {
      if pc.Queueing? {
        RankingKeepsWork(env, s.pending.value, pc.c);
        AtLeastTransitive(env, t.pending.value, s.pending.value, c);
      } else if pc.Draining? {
        assert t.threads[a.id] == Fetched(s.pending.value);
      }
    } else {
      var id :| id in s.threads && Carries(s.threads[id]) && AtLeast(env, s.threads[id].c, c);
      if id != a.id {
        assert id in t.threads && t.threads[id] == s.threads[id];
      } else {
        CarrierStep(env, s, a, c);
      }
    }
  }

  // The thread that carries the candidate moves.
  lemma CarrierStep(env: Env, s: State, a: Action, c: Snapshot)
    requires Inv(env, s) && a.Run? && Enabled(env, s, a) && Calm(env, s, a) && s.neverAbsent
    requires Carries(s.threads[a.id]) && AtLeast(env, s.threads[a.id].c, c)
    ensures Delivered(env, Next(env, s, a), c)
  {
    hide Apply, Merge, AtLeast, Upset, Guarded;
    var t := Next(env, s, a);
    var pc := s.threads[a.id];
    if pc.Holding? || pc.Applying? {
      RankingKeepsWork(env, s.live, pc.c);
      AtLeastTransitive(env, t.live, pc.c, c);
    } else if pc.Queueing? {
      if s.pending.Some? {
        RankingKeepsWork(env, s.pending.value, pc.c);
        AtLeastTransitive(env, t.pending.value, pc.c, c);
      }
    } else {
      assert Carries(t.threads[a.id]) && t.threads[a.id].c == pc.c;
    }
  }

  // A newly offered candidate is with its publisher.
  lemma OfferedIsDelivered(env: Env, s: State, a: Action, c: Snapshot)
    requires a.Run? && Enabled(env, s, a) && c in Next(env, s, a).published && c !in s.published
    ensures Delivered(env, Next(env, s, a), c)
  {
    hide Apply, Merge;
    var t := Next(env, s, a);
    assert Carries(t.threads[a.id]) && t.threads[a.id].c == c;
  }

  lemma GuardedStep(env: Env, s: State, a: Action)
    requires Guarded(s) && Enabled(env, s, a)
    ensures Guarded(Next(env, s, a))
  {
    hide SingleFlight, QueueIsWatched, LockHeld, Next;
    SingleFlightStep(env, s, a);
    LockStep(env, s, a);
    QueueStep(env, s, a);
  }

  lemma InvStep(env: Env, s: State, a: Action)
    requires Inv(env, s) && Enabled(env, s, a) && Calm(env, s, a)
    ensures Inv(env, Next(env, s, a))
  {
    hide Apply, Merge, AtLeast, Guarded, Delivered, RunStep, Calm;
    GuardedStep(env, s, a);
    RegistrationStep(env, s, a);
    var t := Next(env, s, a);
    if t.neverAbsent {
      forall c | c in t.published
        ensures Delivered(env, t, c)
      {
        if c in s.published {
          DeliveredStep(env, s, a, c);
        } else {
          OfferedIsDelivered(env, s, a, c);
        }
      }
    }
  }

  lemma RegistrationStep(env: Env, s: State, a: Action)
    requires Enabled(env, s, a) && (s.neverAbsent ==> s.registered)
    ensures var t := Next(env, s, a);
      && (t.neverAbsent ==> t.registered && s.neverAbsent)
      && (!a.Run? ==> t.published == s.published)
  {
    hide Apply, Merge;
  }

  lemma InitInv(env: Env, s: State)
    requires Init(s)
    ensures Inv(env, s)
  {
  }

  lemma {:induction false} ReachableGuarded(env: Env, s: State, actions: seq<Action>, t: State)
    requires Guarded(s) && Reaches(env, s, actions, t)
    ensures Guarded(t)
    decreases |actions|
  {
    hide Guarded, Next, Enabled;
    if actions != [] {
      GuardedStep(env, s, actions[0]);
      ReachableGuarded(env, Next(env, s, actions[0]), actions[1..], t);
    }
  }

  lemma {:induction false} ReachableInv(env: Env, s: State, actions: seq<Action>, t: State)
    requires Inv(env, s) && Reaches(env, s, actions, t) && CalmRun(env, s, actions)
    ensures Inv(env, t)
    decreases |actions|
  {
    hide Inv, Next, Enabled, Calm;
    if actions != [] {
      InvStep(env, s, actions[0]);
      ReachableInv(env, Next(env, s, actions[0]), actions[1..], t);
    }
  }

  // ---- Safety ------------------------------------------------------------------------------

  /** In every interleaving a queued candidate is watched and at most one thread works under the registration. */
  lemma QueuedIsNeverStranded(env: Env, s: State, actions: seq<Action>, t: State)
    requires Init(s) && Reaches(env, s, actions, t)
    ensures t.pending.Some? ==> t.worker || exists id :: id in t.threads && AboutToSpawn(t.threads[id])
    ensures t.worker ==> exists id :: id in t.threads && Registered(t.threads[id])
    ensures forall i, j :: i in t.threads && j in t.threads && Registered(t.threads[i]) && Registered(t.threads[j]) ==> i == j
  {
    InitInv(env, s);
    ReachableGuarded(env, s, actions, t);
  }

  ghost predicate AtRest(s: State)
  {
    forall id :: id in s.threads ==> s.threads[id].Done?
  }

  /** At rest, with the live owner never absent and no upset, the live chain has at least the work of everything published. */
  lemma NothingPublishedIsLost(env: Env, s: State, actions: seq<Action>, t: State)
    requires Init(s) && Reaches(env, s, actions, t) && CalmRun(env, s, actions)
    requires AtRest(t) && t.neverAbsent
    ensures t.pending.None? && !t.worker
    ensures forall c :: c in t.published ==> AtLeast(env, t.live, c)
  {
    InitInv(env, s);
    ReachableInv(env, s, actions, t);
    assert !t.worker;
  }

  // ---- When runs are calm ------------------------------------------------------------------

  predicate ThreadDecodes(env: Env, pc: Pc)
  {
    Carries(pc) || pc.Arriving? ==> env.work(pc.c.tip).Some?
  }

  ghost predicate Decodable(env: Env, s: State)
  {
    && env.work(s.live.tip).Some?
    && (s.pending.Some? ==> env.work(s.pending.value.tip).Some?)
    && (forall id :: id in s.threads ==> ThreadDecodes(env, s.threads[id]))
  }

  predicate CandidateDecodes(env: Env, a: Action)
  {
    a.Publish? ==> env.work(a.c.tip).Some?
  }

  lemma RankingDecodes(env: Env, current: Snapshot, candidate: Snapshot)
    requires env.work(current.tip).Some? && env.work(candidate.tip).Some?
    ensures env.work(Apply(env, current, candidate).tip).Some? && env.work(Merge(env, current, candidate).tip).Some?
  {
  }

  lemma DecodableMoves(env: Env, s: State, id: nat, spawned: nat)
    requires CanRun(s, id, spawned) && ThreadDecodes(env, s.threads[id])
    requires env.work(s.live.tip).Some? && (s.pending.Some? ==> env.work(s.pending.value.tip).Some?)
    ensures var t := Effect(env, s, id, s.threads[id], spawned);
            && env.work(t.live.tip).Some? && (t.pending.Some? ==> env.work(t.pending.value.tip).Some?)
            && ThreadDecodes(env, NextPc(s, s.threads[id]))
  {
    hide Apply, Merge;
    var pc := s.threads[id];
    if HasLock(pc) {
      RankingDecodes(env, s.live, pc.c);
    } else if pc.Queueing? && s.pending.Some? {
      RankingDecodes(env, s.pending.value, pc.c);
    }
  }

  lemma DecodableStep(env: Env, s: State, a: Action)
    requires Decodable(env, s) && Enabled(env, s, a) && CandidateDecodes(env, a)
    ensures Decodable(env, Next(env, s, a)) && Calm(env, s, a)
  {
    hide Effect, NextPc;
    if a.Run? {
      DecodableMoves(env, s, a.id, a.spawned);
    }
  }

  /** Candidates with decodable work upset nothing. */
  lemma {:induction false} DecodableIsCalm(env: Env, s: State, actions: seq<Action>, t: State)
    requires Decodable(env, s) && Reaches(env, s, actions, t)
    requires forall i :: 0 <= i < |actions| ==> CandidateDecodes(env, actions[i])
    ensures CalmRun(env, s, actions)
    decreases |actions|
  {
    hide Next, Enabled, Calm, Decodable, CandidateDecodes;
    if actions != [] {
      DecodableStep(env, s, actions[0]);
      DecodableIsCalm(env, Next(env, s, actions[0]), actions[1..], t);
    }
  }

  // ---- The live tip only moves up ----------------------------------------------------------

  /** The same tip, or one with strictly more work. */
  predicate SameOrAbove(env: Env, later: Snapshot, earlier: Snapshot)
  {
    later.tip == earlier.tip || (env.work(later.tip).Some? && env.work(earlier.tip).Some? && env.work(later.tip).value > env.work(earlier.tip).value)
  }

  lemma StepMovesUp(env: Env, s: State, a: Action)
    requires Decodable(env, s) && Enabled(env, s, a) && !a.OwnerSet?
    ensures SameOrAbove(env, Next(env, s, a).live, s.live)
  {
    if a.Run? && HasLock(s.threads[a.id]) {
      var c := s.threads[a.id].c;
      if c.tip == s.live.tip {
        SameTipMerges(env, s.live, c);
      } else {
        OvertakesStrictly(env, s.live, c);
      }
    }
  }

  /** While the owner sets nothing, decodable candidates move the live tip only to strictly more work. */
  lemma {:induction false} LiveTipMovesUp(env: Env, s: State, actions: seq<Action>, t: State)
    requires Decodable(env, s) && Reaches(env, s, actions, t)
    requires forall i :: 0 <= i < |actions| ==> CandidateDecodes(env, actions[i]) && !actions[i].OwnerSet?
    ensures SameOrAbove(env, t.live, s.live) && Decodable(env, t)
    decreases |actions|
  {
    hide Next, Enabled, Calm, Decodable, CandidateDecodes;
    if actions != [] {
      StepMovesUp(env, s, actions[0]);
      DecodableStep(env, s, actions[0]);
      LiveTipMovesUp(env, Next(env, s, actions[0]), actions[1..], t);
    }
  }

  /** So equals never take turns: a tip once left does not come back. */
  lemma LeftTipsNeverReturn(env: Env, s: State, first: seq<Action>, m: State, rest: seq<Action>, t: State)
    requires Decodable(env, s) && Reaches(env, s, first, m) && Reaches(env, m, rest, t)
    requires forall i :: 0 <= i < |first| ==> CandidateDecodes(env, first[i]) && !first[i].OwnerSet?
    requires forall i :: 0 <= i < |rest| ==> CandidateDecodes(env, rest[i]) && !rest[i].OwnerSet?
    ensures m.live.tip != s.live.tip ==> t.live.tip != s.live.tip
  {
    hide Reaches, Decodable, CandidateDecodes;
    LiveTipMovesUp(env, s, first, m);
    LiveTipMovesUp(env, m, rest, t);
  }

  /** And an upset does lose work: an undecodable chain overtakes by height, and a decodable one behind it in height is dropped. */
  lemma UpsetLosesWork(env: Env, s: State, u: Snapshot, c: Snapshot) returns (actions: seq<Action>, t: State)
    requires Init(s) && s.live.tip != u.tip && u.tip != c.tip
    requires env.work(s.live.tip).Some? && env.work(u.tip).None? && env.work(c.tip).Some?
    requires s.live.height < u.height && c.height <= u.height
    ensures Reaches(env, s, actions, t) && AtRest(t) && t.neverAbsent
    ensures c in t.published && !AtLeast(env, t.live, c) && !AtLeast(env, t.live, s.live)
  {
    var m := PublishAlone(env, s, 0, u);
    t := PublishAlone(env, m, 1, c);
    actions := Alone(0, u) + Alone(1, c);
    ReachesAlong(env, s, Alone(0, u), m, Alone(1, c), t);
  }

  /** A publisher whom nobody disturbs. */
  function Alone(id: nat, c: Snapshot): seq<Action>
  {
    [Publish(id, c), Run(id, 0), Run(id, 0), Run(id, 0)]
  }

  lemma PublishAlone(env: Env, s: State, id: nat, c: Snapshot) returns (t: State)
    requires s.registered && s.holder == Free && id !in s.threads
    ensures Reaches(env, s, Alone(id, c), t)
    ensures t == s.(live := Apply(env, s.live, c), published := s.published + {c}, threads := s.threads[id := Done])
  {
    hide Apply, Merge;
    var s1 := Next(env, s, Publish(id, c));
    var s2 := Next(env, s1, Run(id, 0));
    var s3 := Next(env, s2, Run(id, 0));
    t := Next(env, s3, Run(id, 0));
    assert t.threads == s.threads[id := Done];
    assert Reaches(env, s3, [Run(id, 0)], t);
    assert [Run(id, 0), Run(id, 0)][1..] == [Run(id, 0)];
    assert Reaches(env, s2, [Run(id, 0), Run(id, 0)], t);
    assert [Run(id, 0), Run(id, 0), Run(id, 0)][1..] == [Run(id, 0), Run(id, 0)];
    assert Reaches(env, s1, [Run(id, 0), Run(id, 0), Run(id, 0)], t);
    assert Alone(id, c)[1..] == [Run(id, 0), Run(id, 0), Run(id, 0)];
  }

  lemma {:induction false} ReachesAlong(env: Env, s: State, first: seq<Action>, m: State, rest: seq<Action>, t: State)
    requires Reaches(env, s, first, m) && Reaches(env, m, rest, t)
    ensures Reaches(env, s, first + rest, t)
    decreases |first|
  {
    hide Next, Enabled;
    if first == [] {
      assert first + rest == rest;
    } else {
      assert (first + rest)[0] == first[0] && (first + rest)[1..] == first[1..] + rest;
      ReachesAlong(env, Next(env, s, first[0]), first[1..], m, rest, t);
    }
  }

  // ---- Progress ----------------------------------------------------------------------------

  /** No deadlock: unless everything is done, some thread can move once the owner lets go of the live lock. */
  lemma SomeoneCanMove(s: State) returns (id: nat, spawned: nat)
    requires LockHeld(s) && !AtRest(s) && s.holder != Owner
    ensures CanRun(s, id, spawned)
  {
    id :| id in s.threads && !s.threads[id].Done?;
    spawned := FreshId(s.threads.Keys);
    if s.threads[id].Waiting? && s.holder != Free {
      HolderMoves(s);
      id := s.holder.id;
    }
  }

  lemma HolderMoves(s: State)
    requires LockHeld(s) && s.holder.Thread?
    ensures s.holder.id in s.threads && HasLock(s.threads[s.holder.id])
  {
  }

  lemma FreshId(ids: set<nat>) returns (n: nat)
    ensures n !in ids && forall i :: i in ids ==> i < n
  {
    if ids == {} {
      n := 0;
    } else {
      var i :| i in ids;
      var m := FreshId(ids - {i});
      n := if i < m then m else i + 1;
      assert ids == (ids - {i}) + {i};
    }
  }

  /** A publisher that may still queue its candidate. */
  function MayQueue(pc: Pc): nat
  {
    if pc.Arriving? || pc.Trying? || pc.Queueing? then 1 else 0
  }

  function Unfinished(pc: Pc): nat
  {
    if pc.Done? then 0 else 1
  }

  /** Steps a thread has left at most as long as nothing enters or leaves the queue. */
  function Left(queued: bool, pc: Pc): nat
  {
    match pc
    case Arriving(_) => 3
    case Trying(_) => 2
    case Queueing(_) => 1
    case Holding(_) => 1
    case Registering => if queued then 3 else 5
    case Spawning => if queued then 2 else 4
    case Draining => if queued then 1 else 3
    case Fetched(_) => if queued then 4 else 6
    case Waiting(_) => if queued then 3 else 5
    case Applying(_) => if queued then 2 else 4
    case Leaving => if queued then 5 else 2
    case Rechecking => if queued then 4 else 1
    case Done => 0
  }

  ghost function Queuers(s: State): nat { SumOf(s.threads, MayQueue) }

  ghost function Alive(s: State): nat { SumOf(s.threads, Unfinished) }

  ghost function LeftAll(s: State): nat { SumOf(s.threads, (pc: Pc) => Left(s.pending.Some?, pc)) }

  /** Times the queue can still change. */
  ghost function Changes(s: State): nat
  {
    2 * Queuers(s) + if s.pending.Some? then 1 else 0
  }

  /** A bound on the steps that remain. */
  ghost function Bound(s: State): nat
  {
    Product(Changes(s), 6 * Alive(s) + 1);
    Changes(s) * (6 * Alive(s) + 1) + LeftAll(s)
  }

  // A sum over the threads after one of them moved, and perhaps spawned another.
  lemma SumMoves(s: State, id: nat, pc: Pc, f: Pc -> nat)
    requires id in s.threads
    ensures SumOf(s.threads[id := pc], f) + f(s.threads[id]) == SumOf(s.threads, f) + f(pc)
  {
    SumInsert(s.threads, f, id, pc);
  }

  lemma RunSum(env: Env, s: State, id: nat, spawned: nat, f: Pc -> nat)
    requires CanRun(s, id, spawned)
    ensures var pc := s.threads[id];
            SumOf(RunStep(env, s, id, spawned).threads, f) + f(pc) == SumOf(s.threads, f) + f(NextPc(s, pc)) + if pc.Spawning? then f(Draining) else 0
  {
    hide Apply, Merge, NextPc, Effect;
    var pc := s.threads[id];
    SumMoves(s, id, NextPc(s, pc), f);
    if pc.Spawning? {
      SumInsert(s.threads[id := NextPc(s, pc)], f, spawned, Draining);
    }
  }

  lemma {:induction false} LeftIsBounded(threads: map<nat, Pc>, queued: bool)
    ensures SumOf(threads, (pc: Pc) => Left(queued, pc)) <= 6 * SumOf(threads, Unfinished)
    decreases |threads|
  {
    var left := (pc: Pc) => Left(queued, pc);
    if threads != map[] {
      var k :| k in threads;
      SumRemove(threads, left, k);
      SumRemove(threads, Unfinished, k);
      LeftIsBounded(threads - {k}, queued);
      hide Left;
      assert SumOf(threads - {k}, left) == SumOf(threads - {k}, (pc: Pc) => Left(queued, pc));
      LeftBelow(queued, threads[k]);
    }
  }

  lemma LeftBelow(queued: bool, pc: Pc)
    ensures Left(queued, pc) <= 6 * Unfinished(pc)
  {
  }

  // Either the queue changes, or the thread itself gets closer to its end.
  lemma StepCloser(env: Env, s: State, id: nat, spawned: nat)
    requires CanRun(s, id, spawned)
    ensures var t := RunStep(env, s, id, spawned);
            && Alive(t) <= Alive(s)
            && (Changes(t) < Changes(s) || (Changes(t) == Changes(s) && LeftAll(t) < LeftAll(s)))
  {
    hide Apply, Merge, SumOf, RunStep;
    var t, pc := RunStep(env, s, id, spawned), s.threads[id];
    RunSum(env, s, id, spawned, MayQueue);
    RunSum(env, s, id, spawned, Unfinished);
    var queued := s.pending.Some?;
    RunSum(env, s, id, spawned, (pc: Pc) => Left(queued, pc));
    PendingMoves(env, s, id, spawned);
  }

  lemma PendingMoves(env: Env, s: State, id: nat, spawned: nat)
    requires CanRun(s, id, spawned)
    ensures RunStep(env, s, id, spawned).pending.Some? == if s.threads[id].Queueing? then true else s.pending.Some? && !s.threads[id].Draining?
  {
    hide Apply, Merge, NextPc;
  }

  lemma BoundFalls(c: nat, a: nat, l: nat, c': nat, a': nat, l': nat)
    requires a' <= a && l' <= 6 * a' && (c' < c || (c' == c && l' < l))
    ensures c' * (6 * a' + 1) + l' < c * (6 * a + 1) + l
  {
    ScaleMonotone(6 * a' + 1, 6 * a + 1, c');
    assert c' * (6 * a' + 1) == (6 * a' + 1) * c' && (6 * a + 1) * c' == c' * (6 * a + 1);
    if c' < c {
      ScaleStrict(c', c, 6 * a + 1);
    }
  }

  lemma EveryStepCounts(env: Env, s: State, a: Action)
    requires Enabled(env, s, a) && !a.Publish?
    ensures Bound(Next(env, s, a)) + (if a.Run? then 1 else 0) <= Bound(s)
  {
    hide SumOf, RunStep, CanRun;
    if a.Run? {
      var t := Next(env, s, a);
      StepCloser(env, s, a.id, a.spawned);
      LeftIsBounded(t.threads, t.pending.Some?);
      BoundFalls(Changes(s), Alive(s), LeftAll(s), Changes(t), Alive(t), LeftAll(t));
    }
  }

  function RunSteps(actions: seq<Action>): nat
  {
    if actions == [] then 0 else (if actions[0].Run? then 1 else 0) + RunSteps(actions[1..])
  }

  /** Without new publishers the threads take a bounded number of steps, whatever the owner does in between. */
  lemma {:induction false} WorkIsBounded(env: Env, s: State, actions: seq<Action>, t: State)
    requires Reaches(env, s, actions, t) && forall i :: 0 <= i < |actions| ==> !actions[i].Publish?
    ensures RunSteps(actions) + Bound(t) <= Bound(s)
    decreases |actions|
  {
    hide Bound, Next, Enabled;
    if actions != [] {
      EveryStepCounts(env, s, actions[0]);
      WorkIsBounded(env, Next(env, s, actions[0]), actions[1..], t);
    }
  }

  lemma StepFreesLock(env: Env, s: State, id: nat, spawned: nat)
    requires CanRun(s, id, spawned) && s.holder != Owner
    ensures RunStep(env, s, id, spawned).holder != Owner
  {
    hide Apply, Merge, NextPc;
  }

  /** From every state the owner has let go of, the threads alone come to rest. */
  lemma {:induction false} ComesToRest(env: Env, s: State) returns (actions: seq<Action>, t: State)
    requires Guarded(s) && s.holder != Owner
    ensures Reaches(env, s, actions, t) && AtRest(t) && forall i :: 0 <= i < |actions| ==> actions[i].Run?
    decreases Bound(s)
  {
    hide Bound, Guarded, RunStep, CanRun;
    if AtRest(s) {
      return [], s;
    }
    GuardedHasLock(s);
    var id, spawned := SomeoneCanMove(s);
    var a := Run(id, spawned);
    EveryStepCounts(env, s, a);
    GuardedStep(env, s, a);
    StepFreesLock(env, s, id, spawned);
    var rest;
    rest, t := ComesToRest(env, Next(env, s, a));
    actions := [a] + rest;
    assert actions[1..] == rest;
  }

  lemma GuardedHasLock(s: State)
    requires Guarded(s)
    ensures LockHeld(s)
  {
  }

  lemma RunKeepsOffers(env: Env, s: State, id: nat, spawned: nat)
    requires CanRun(s, id, spawned)
    ensures var t := RunStep(env, s, id, spawned); t.neverAbsent == s.neverAbsent && s.published <= t.published
  {
    hide NextPc, Apply, Merge;
  }

  lemma {:induction false} RunsKeepOffers(env: Env, s: State, actions: seq<Action>, t: State)
    requires Reaches(env, s, actions, t) && forall i :: 0 <= i < |actions| ==> actions[i].Run?
    ensures t.neverAbsent == s.neverAbsent && s.published <= t.published
    decreases |actions|
  {
    hide RunStep, CanRun;
    if actions != [] {
      RunKeepsOffers(env, s, actions[0].id, actions[0].spawned);
      RunsKeepOffers(env, Next(env, s, actions[0]), actions[1..], t);
    }
  }

  /**
    Whatever happened before: once the owner lets go of a live chain that was never absent, the threads
    alone bring it to at least the work of everything published.
   */
  lemma EverythingArrives(env: Env, s: State, actions: seq<Action>, t: State) returns (more: seq<Action>, end: State)
    requires Init(s) && Reaches(env, s, actions, t) && t.neverAbsent && t.holder != Owner
    requires env.work(s.live.tip).Some? && forall i :: 0 <= i < |actions| ==> CandidateDecodes(env, actions[i])
    ensures Reaches(env, t, more, end) && AtRest(end) && forall i :: 0 <= i < |more| ==> more[i].Run?
    ensures end.pending.None? && forall c :: c in t.published ==> AtLeast(env, end.live, c)
  {
    hide Reaches, CalmRun, AtLeast, Inv, Guarded, AtRest;
    InitGuarded(env, s);
    ReachableGuarded(env, s, actions, t);
    more, end := ComesToRest(env, t);
    RunsKeepOffers(env, t, more, end);
    ReachesAlong(env, s, actions, t, more, end);
    assert forall i :: 0 <= i < |actions + more| ==> CandidateDecodes(env, (actions + more)[i]);
    DecodableIsCalm(env, s, actions + more, end);
    NothingPublishedIsLost(env, s, actions + more, end);
  }

  lemma InitGuarded(env: Env, s: State)
    requires Init(s)
    ensures Guarded(s)
    ensures env.work(s.live.tip).Some? ==> Decodable(env, s)
  {
  }
}
