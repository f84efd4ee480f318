/**
  The read-through caches under threads (api.py). Any number of readers and
  writers interleave. The catalogue and category caches build and store their
  snapshot while holding the lock an invalidation needs; the read cache below them
  fetches outside its lock and stores only if no invalidation came in between
  (supabase_store.py); the best-seller cache computes outside its lock and stores.
*/
module Caches {
  import opened Basics
  import opened Wrappers

  datatype Design = BuildUnderLock | ComputeOutside | CheckGeneration

  /**
    A reader remembers the last invalidation that had returned when it began; a
    builder also remembers the state of the store it started reading from, and the
    generation of the cache then; a writer has written and not yet invalidated.
  */
  datatype Thread = Reading(fence: nat) | Building(fence: nat, base: nat, generation: nat) | Writing(version: nat)

  /** What a read was answered with: the writes it had to see and the writes it is sure to contain. */
  datatype Served = Served(fence: nat, base: nat)

  /**
    version counts the writes so far, generation the invalidations; fence is the
    latest write whose invalidation has returned.
  */
  datatype State = State(version: nat, generation: nat, fence: nat, cache: Option<nat>, lock: Option<nat>,
                         threads: map<nat, Thread>, served: seq<Served>)

  datatype Step = BeginRead(id: nat)
                | Hit(id: nat)
                | Miss(id: nat)
                | Store(id: nat)
                | GiveUp(id: nat)
                | Write(id: nat)
                | Invalidate(id: nat)
                | Expire

  const START := State(0, 0, 0, None, None, map[], [])

  /** One step; it changes nothing when the thread is elsewhere or the lock is taken. */
  function Next(design: Design, s: State, step: Step): State
  {
    match step
    case BeginRead(i) => if i in s.threads then s else s.(threads := s.threads[i := Reading(s.fence)])
    case Hit(i) =>
      if i in s.threads && s.threads[i].Reading? && s.lock.None? && s.cache.Some?
      then s.(threads := s.threads - {i}, served := s.served + [Served(s.threads[i].fence, s.cache.value)])
      else s
    case Miss(i) =>
      if i in s.threads && s.threads[i].Reading? && s.lock.None? && s.cache.None?
      then s.(threads := s.threads[i := Building(s.threads[i].fence, s.version, s.generation)],
              lock := if design == BuildUnderLock then Some(i) else None)
      else s
    case Store(i) =>
      if i in s.threads && s.threads[i].Building? && (s.lock.None? || s.lock == Some(i))
      then s.(threads := s.threads - {i}, lock := None,
              cache := if Keeps(design, s, i) then Some(s.threads[i].base) else s.cache,
              served := s.served + [Served(s.threads[i].fence, s.threads[i].base)])
      else s
    case GiveUp(i) =>
      if i in s.threads
      then s.(threads := s.threads - {i}, lock := if s.lock == Some(i) then None else s.lock)
      else s
    case Write(i) =>
      if i in s.threads then s
      else s.(version := s.version + 1, threads := s.threads[i := Writing(s.version + 1)])
    case Invalidate(i) =>
      if i in s.threads && s.threads[i].Writing? && s.lock.None?
      then s.(threads := s.threads - {i}, cache := None, generation := s.generation + 1,
              fence := Greatest(s.fence, s.threads[i].version))
      else s
    case Expire => if s.lock.None? then s.(cache := None) else s
  }

  /** What was built goes into the cache; a checked cache refuses what an invalidation has overtaken. */
  predicate Keeps(design: Design, s: State, i: nat)
    requires i in s.threads && s.threads[i].Building?
  {
    design == CheckGeneration ==> s.threads[i].generation == s.generation
  }

  function Run(design: Design, s: State, steps: seq<Step>): State
  {
    if |steps| == 0 then s else Next(design, Run(design, s, steps[..|steps| - 1]), steps[|steps| - 1])
  }

  /** No read is answered with a snapshot older than a write invalidated before it began. */
  predicate Fresh(s: State)
  {
    forall k :: 0 <= k < |s.served| ==> s.served[k].base >= s.served[k].fence
  }

  predicate ThreadsInOrder(s: State)
  {
    forall i :: i in s.threads ==>
      match s.threads[i]
      case Reading(f) => f <= s.fence
      case Building(f, base, g) => f <= base <= s.version && g <= s.generation
      case Writing(v) => v <= s.version
  }

  /** What every design keeps at every step but the one that stores. */
  predicate Invariant(s: State)
  {
    && Fresh(s) && ThreadsInOrder(s) && s.fence <= s.version
    && (s.cache.Some? ==> s.fence <= s.cache.value <= s.version)
  }

  /** What is stored must have seen every write whose invalidation has returned. */
  predicate StoresCurrent(design: Design, s: State, step: Step)
  {
    (step.Store? && step.id in s.threads && s.threads[step.id].Building?
     && (s.lock.None? || s.lock == Some(step.id)) && Keeps(design, s, step.id)) ==> s.threads[step.id].base >= s.fence
  }

  /** For every design, state and step: exactly the stores of an outdated build break the cache. */
  lemma StepKeepsIff(design: Design, s: State, step: Step)
    requires Invariant(s)
    ensures Invariant(Next(design, s, step)) <==> StoresCurrent(design, s, step)
  {
    var after := Next(design, s, step);
    if step.Store? && after != s && Keeps(design, s, step.id) {
      assert after.cache == Some(s.threads[step.id].base);
    }
  }

  /** The builder holds the lock, so nothing is invalidated while it builds. */
  predicate Exclusive(s: State)
  {
    forall i :: i in s.threads && s.threads[i].Building? ==> s.lock == Some(i) && s.threads[i].base >= s.fence
  }

  predicate LockIsHeld(s: State)
  {
    s.lock.Some? ==> s.lock.value in s.threads && s.threads[s.lock.value].Building?
  }

  lemma LockedStepKeeps(s: State, step: Step)
    requires Invariant(s) && Exclusive(s) && LockIsHeld(s)
    ensures var after := Next(BuildUnderLock, s, step);
            Invariant(after) && Exclusive(after) && LockIsHeld(after)
  {
    StepKeepsIff(BuildUnderLock, s, step);
  }

  /** Freshness for the catalogue and category caches, under every interleaving. */
  lemma {:induction false} LockedCacheIsFresh(steps: seq<Step>)
    ensures Fresh(Run(BuildUnderLock, START, steps))
    ensures var s := Run(BuildUnderLock, START, steps); Invariant(s) && Exclusive(s) && LockIsHeld(s)
  {
    if |steps| > 0 {
      LockedCacheIsFresh(steps[..|steps| - 1]);
      LockedStepKeeps(Run(BuildUnderLock, START, steps[..|steps| - 1]), steps[|steps| - 1]);
    }
  }

  // ----------------------------------------------------------- what a read comes back with

  /** Nobody is at work on the cache. */
  predicate Idle(s: State)
  {
    s.lock.None? && s.threads == map[]
  }

  function WholeRead(design: Design, s: State, i: nat): State
  {
    var began := Next(design, s, BeginRead(i));
    if s.cache.Some? then Next(design, began, Hit(i)) else Next(design, Next(design, began, Miss(i)), Store(i))
  }

  /**
    A read that nothing disturbs is served what is cached, or if nothing is, all the
    writes there are, which stay cached; and it leaves nobody waiting.
  */
  lemma QuietReadIsServed(design: Design, s: State, i: nat)
    requires Idle(s)
    ensures var base := if s.cache.Some? then s.cache.value else s.version;
            WholeRead(design, s, i) == s.(cache := Some(base), served := s.served + [Served(s.fence, base)])
  {
    assert s.threads[i := Reading(s.fence)] - {i} == s.threads;
    assert s.threads[i := Building(s.fence, s.version, s.generation)] - {i} == s.threads;
  }

  /** Whoever writes and invalidates is seen by the next read, whatever was cached before. */
  lemma NextReadSeesWrite(design: Design, s: State, w: nat, i: nat)
    requires Idle(s)
    ensures var after := WholeRead(design, Next(design, Next(design, s, Write(w)), Invalidate(w)), i);
            after.version == s.version + 1 && after.cache == Some(after.version)
            && after.served == s.served + [Served(Greatest(s.fence, after.version), after.version)]
  {
    var written := Next(design, Next(design, s, Write(w)), Invalidate(w));
    assert s.threads[w := Writing(s.version + 1)] - {w} == s.threads;
    QuietReadIsServed(design, written, i);
  }

  /** A build that is given up, or stored, frees the lock; what was cached can always expire then. */
  lemma LockIsFreed(s: State, i: nat)
    requires s.lock == Some(i) && i in s.threads && s.threads[i].Building?
    ensures Next(BuildUnderLock, s, GiveUp(i)) == s.(threads := s.threads - {i}, lock := None)
    ensures var stored := Next(BuildUnderLock, s, Store(i));
            stored.lock.None? && i !in stored.threads && Next(BuildUnderLock, stored, Expire).cache.None?
  {
  }

  // ------------------------------------------------------------------- the read cache

  /** A build of the current generation has seen everything invalidated so far. */
  predicate Timely(s: State)
  {
    forall i :: i in s.threads && s.threads[i].Building? && s.threads[i].generation == s.generation ==>
      s.threads[i].base >= s.fence
  }

  lemma CheckedStepKeeps(s: State, step: Step)
    requires Invariant(s) && Timely(s)
    ensures var after := Next(CheckGeneration, s, step); Invariant(after) && Timely(after)
  {
    StepKeepsIff(CheckGeneration, s, step);
  }

  /** Freshness for the generation-checked cache, under every interleaving: an overtaken fetch is never stored. */
  lemma {:induction false} CheckedCacheIsFresh(steps: seq<Step>)
    ensures Fresh(Run(CheckGeneration, START, steps))
    ensures var s := Run(CheckGeneration, START, steps); Invariant(s) && Timely(s)
  {
    if |steps| > 0 {
      CheckedCacheIsFresh(steps[..|steps| - 1]);
      CheckedStepKeeps(Run(CheckGeneration, START, steps[..|steps| - 1]), steps[|steps| - 1]);
    }
  }

  // ------------------------------------------------------------ the best-seller cache

  lemma {:induction false} RunAppend(design: Design, s: State, a: seq<Step>, b: seq<Step>)
    ensures Run(design, s, a + b) == Run(design, Run(design, s, a), b)
    decreases |b|
  {
    if |b| == 0 {
      assert a + b == a;
    } else {
      assert (a + b)[..|a + b| - 1] == a + b[..|b| - 1];
      RunAppend(design, s, a, b[..|b| - 1]);
    }
  }

  lemma RunOne(design: Design, s: State, step: Step)
    ensures Run(design, s, [step]) == Next(design, s, step)
  {
    assert [step][..0] == [];
  }

  /**
    A slow reader computes before a write, the write is invalidated, and the reader
    then stores what it computed: a read that begins afterwards is served without
    the write.
  */
  lemma ComputeOutsideServesStale()
    ensures var early := [BeginRead(0), Miss(0), Write(1), Invalidate(1)];
            var late := [Store(0), BeginRead(2), Hit(2)];
            && Fresh(Run(ComputeOutside, START, early))
            && !Fresh(Run(ComputeOutside, START, early + late))
  {
    var early := [BeginRead(0), Miss(0), Write(1), Invalidate(1)];
    var late := [Store(0), BeginRead(2), Hit(2)];
    var s1 := Next(ComputeOutside, START, BeginRead(0));
    var s2 := Next(ComputeOutside, s1, Miss(0));
    var s3 := Next(ComputeOutside, s2, Write(1));
    var s4 := Next(ComputeOutside, s3, Invalidate(1));
    assert s4 == State(1, 1, 1, None, None, map[0 := Building(0, 0, 0)], []);
    assert Run(ComputeOutside, START, early) == s4 by {
      assert early[..3][..2][..1] == [BeginRead(0)] && early[..3][..2] == early[..2] && early[..2][..1] == early[..1];
      RunOne(ComputeOutside, START, BeginRead(0));
    }
    var t1 := Next(ComputeOutside, s4, Store(0));
    var t2 := Next(ComputeOutside, t1, BeginRead(2));
    var t3 := Next(ComputeOutside, t2, Hit(2));
    assert t3.served == [Served(0, 0), Served(1, 0)];
    assert Run(ComputeOutside, s4, late) == t3 by {
      assert late[..2][..1] == [Store(0)];
      RunOne(ComputeOutside, s4, Store(0));
    }
    RunAppend(ComputeOutside, START, early, late);
    assert t3.served[1].base < t3.served[1].fence;
  }
}
