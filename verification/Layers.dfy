/**
  The catalogue snapshot over the read cache (api.py, supabase_store.py): the
  snapshot is built under its lock out of a read through the cache below, and a
  writer invalidates the two one after the other.
*/
module Layers {
  import opened Basics
  import opened Wrappers

  /** Which of the two a writer invalidates first; the code starts below. */
  datatype Sequence = BelowFirst | AboveFirst

  /**
    A reader of the snapshot remembers the latest write that was invalidated in both
    when it began. It may hold the lock to build one: before its read below, during
    the fetch, or with what it got. Others read below for themselves. A writer has
    written, or has invalidated one of the two.
  */
  datatype Thread = Reading(fence: nat)
                  | Looking(fence: nat)
                  | Fetching(fence: nat, base: nat, generation: nat)
                  | Built(fence: nat, base: nat)
                  | FetchingBelow(base: nat, generation: nat)
                  | Written(version: nat)
                  | HalfDone(version: nat)

  datatype Served = Served(fence: nat, base: nat)

  /** A cached value is known by the writes it is sure to contain; below and done count what was invalidated. */
  datatype State = State(version: nat, generation: nat, below: nat, done: nat, cache: Option<nat>,
                         snapshot: Option<nat>, lock: Option<nat>, threads: map<nat, Thread>, served: seq<Served>)

  datatype Step = BeginRead(id: nat) | Hit(id: nat) | Miss(id: nat)
                | LookUp(id: nat) | Fetched(id: nat) | Store(id: nat) | GiveUp(id: nat)
                | ReadBelow(id: nat) | Write(id: nat) | InvalidateFirst(id: nat) | InvalidateSecond(id: nat)
                | Expire | ExpireBelow

  const START := State(0, 0, 0, 0, None, None, None, map[], [])

  function Moved(s: State, i: nat, t: Thread): State
  {
    s.(threads := s.threads[i := t])
  }

  /** The value a fetch brings goes into the cache below unless an invalidation overtook it. */
  function StoredBelow(s: State, base: nat, generation: nat): State
  {
    if generation == s.generation then s.(cache := Some(base)) else s
  }

  function InvalidatedBelow(s: State, version: nat): State
  {
    s.(cache := None, generation := s.generation + 1, below := Greatest(s.below, version))
  }

  function InvalidatedAbove(s: State): State
  {
    s.(snapshot := None)
  }

  /** One step; it changes nothing when the thread is elsewhere or the lock is taken. */
  function Next(order: Sequence, s: State, step: Step): State
  {
    match step
    case BeginRead(i) => if i in s.threads then s else Moved(s, i, Reading(s.done))
    case Hit(i) =>
      if i in s.threads && s.threads[i].Reading? && s.lock.None? && s.snapshot.Some?
      then s.(threads := s.threads - {i}, served := s.served + [Served(s.threads[i].fence, s.snapshot.value)]) else s
    case Miss(i) =>
      if i in s.threads && s.threads[i].Reading? && s.lock.None? && s.snapshot.None?
      then Moved(s, i, Looking(s.threads[i].fence)).(lock := Some(i)) else s
    case LookUp(i) =>
      if i in s.threads && s.threads[i].Looking?
      then Moved(s, i, if s.cache.Some? then Built(s.threads[i].fence, s.cache.value)
                       else Fetching(s.threads[i].fence, s.version, s.generation))
      else s
    case Fetched(i) =>
      if i in s.threads && s.threads[i].Fetching?
      then
        var t := s.threads[i];
        StoredBelow(Moved(s, i, Built(t.fence, t.base)), t.base, t.generation)
      else if i in s.threads && s.threads[i].FetchingBelow?
      then StoredBelow(s.(threads := s.threads - {i}), s.threads[i].base, s.threads[i].generation)
      else s
    case Store(i) =>
      if i in s.threads && s.threads[i].Built?
      then s.(threads := s.threads - {i}, lock := None, snapshot := Some(s.threads[i].base),
              served := s.served + [Served(s.threads[i].fence, s.threads[i].base)])
      else s
    case GiveUp(i) =>
      if i in s.threads
      then s.(threads := s.threads - {i}, lock := if s.lock == Some(i) then None else s.lock) else s
    case ReadBelow(i) =>
      if i !in s.threads && s.cache.None? then Moved(s, i, FetchingBelow(s.version, s.generation)) else s
    case Write(i) => if i in s.threads then s else Moved(s, i, Written(s.version + 1)).(version := s.version + 1)
    case InvalidateFirst(i) =>
      if i in s.threads && s.threads[i].Written? && (order == AboveFirst ==> s.lock.None?)
      then
        var half := Moved(s, i, HalfDone(s.threads[i].version));
        if order == BelowFirst then InvalidatedBelow(half, s.threads[i].version) else InvalidatedAbove(half)
      else s
    case InvalidateSecond(i) =>
      if i in s.threads && s.threads[i].HalfDone? && (order == BelowFirst ==> s.lock.None?)
      then
        var v := s.threads[i].version;
        var ended := s.(threads := s.threads - {i}, done := Greatest(s.done, v));
        if order == BelowFirst then InvalidatedAbove(ended) else InvalidatedBelow(ended, v)
      else s
    case Expire => if s.lock.None? then s.(snapshot := None) else s
    case ExpireBelow => s.(cache := None)
  }

  function Run(order: Sequence, s: State, steps: seq<Step>): State
  {
    if |steps| == 0 then s else Next(order, Run(order, s, steps[..|steps| - 1]), steps[|steps| - 1])
  }

  /** No read is answered with a snapshot older than a write invalidated in both before it began. */
  predicate Fresh(s: State)
  {
    forall k :: 0 <= k < |s.served| ==> s.served[k].base >= s.served[k].fence
  }

  predicate Holds(t: Thread)
  {
    t.Looking? || t.Fetching? || t.Built?
  }

  predicate ThreadInOrder(s: State, i: nat)
    requires i in s.threads
  {
    && (Holds(s.threads[i]) ==> s.lock == Some(i))
    && match s.threads[i]
       case Reading(f) => f <= s.done
       case Looking(f) => f <= s.done
       case Fetching(f, base, g) =>
         f <= s.done <= base <= s.version && g <= s.generation && (g == s.generation ==> base >= s.below)
       case Built(f, base) => f <= s.done <= base <= s.version
       case FetchingBelow(base, g) => base <= s.version && g <= s.generation && (g == s.generation ==> base >= s.below)
       case Written(v) => v <= s.version
       case HalfDone(v) => v <= s.below
  }

  /** Invalidating below first, nothing is done above that is not done below. */
  predicate Bounded(s: State)
  {
    && s.done <= s.below <= s.version
    && (s.cache.Some? ==> s.below <= s.cache.value <= s.version)
    && (s.snapshot.Some? ==> s.done <= s.snapshot.value <= s.version)
  }

  predicate LockHeld(s: State)
  {
    s.lock.Some? ==> s.lock.value in s.threads && Holds(s.threads[s.lock.value])
  }

  predicate Invariant(s: State)
  {
    Fresh(s) && Bounded(s) && LockHeld(s) && forall i :: i in s.threads ==> ThreadInOrder(s, i)
  }

  lemma StepKeeps(s: State, step: Step)
    requires Invariant(s)
    ensures Invariant(Next(BelowFirst, s, step))
  {
    forall i | i in Next(BelowFirst, s, step).threads ensures ThreadInOrder(Next(BelowFirst, s, step), i) {
      ThreadKeeps(s, step, i);
    }
    StaysFresh(s, step);
    ValuesKeep(s, step);
    LockKeeps(s, step);
  }

  lemma StaysFresh(s: State, step: Step)
    requires Invariant(s)
    ensures Fresh(Next(BelowFirst, s, step))
  {
    if (step.Hit? || step.Store?) && step.id in s.threads {
      assert ThreadInOrder(s, step.id);
    }
  }

  lemma ValuesKeep(s: State, step: Step)
    requires Invariant(s)
    ensures Bounded(Next(BelowFirst, s, step))
  {
    if (step.Store? || step.InvalidateSecond? || step.InvalidateFirst? || step.Fetched?) && step.id in s.threads {
      assert ThreadInOrder(s, step.id);
    }
  }

  lemma LockKeeps(s: State, step: Step)
    requires Invariant(s)
    ensures LockHeld(Next(BelowFirst, s, step))
  {
    if !step.Expire? && !step.ExpireBelow? && step.id in s.threads {
      assert ThreadInOrder(s, step.id);
    }
  }

  lemma ThreadKeeps(s: State, step: Step, i: nat)
    requires Invariant(s) && i in Next(BelowFirst, s, step).threads
    ensures ThreadInOrder(Next(BelowFirst, s, step), i)
  {
    if step.Expire? || step.ExpireBelow? || i != step.id {
      OtherKeeps(s, step, i);
    } else {
      ActorKeeps(s, step);
    }
  }

  lemma ActorKeeps(s: State, step: Step)
    requires Invariant(s) && !step.Expire? && !step.ExpireBelow? && step.id in Next(BelowFirst, s, step).threads
    ensures ThreadInOrder(Next(BelowFirst, s, step), step.id)
  {
    assert step.id in s.threads ==> ThreadInOrder(s, step.id);
  }

  lemma OtherKeeps(s: State, step: Step, i: nat)
    requires Invariant(s) && i in s.threads && (step.Expire? || step.ExpireBelow? || i != step.id)
    ensures i in Next(BelowFirst, s, step).threads && ThreadInOrder(Next(BelowFirst, s, step), i)
  {
    assert ThreadInOrder(s, i);
    if !step.Expire? && !step.ExpireBelow? && step.id in s.threads {
      assert ThreadInOrder(s, step.id);
    }
    LockedOut(s, step, i);
    Undisturbed(s, Next(BelowFirst, s, step), i);
  }

  /** While one thread holds the lock, no other's step moves it or what is done. */
  lemma LockedOut(s: State, step: Step, i: nat)
    requires i in s.threads && (step.Expire? || step.ExpireBelow? || i != step.id)
    requires Holds(s.threads[i]) ==> s.lock == Some(i)
    requires !step.Expire? && !step.ExpireBelow? && step.id in s.threads && Holds(s.threads[step.id]) ==>
               s.lock == Some(step.id)
    ensures var after := Next(BelowFirst, s, step);
            && i in after.threads && after.threads[i] == s.threads[i]
            && (Holds(s.threads[i]) ==> after.lock == s.lock && after.done == s.done)
  {
  }

  lemma Undisturbed(s: State, after: State, i: nat)
    requires i in s.threads && i in after.threads && after.threads[i] == s.threads[i] && ThreadInOrder(s, i)
    requires Holds(s.threads[i]) ==> after.lock == s.lock && after.done == s.done
    requires s.version <= after.version && s.generation <= after.generation
    requires s.below <= after.below && s.done <= after.done
    requires s.generation == after.generation ==> s.below == after.below
    ensures ThreadInOrder(after, i)
  {
  }

  /** Freshness of the snapshot over the cache below, in the code's order of invalidations. */
  lemma {:induction false} SnapshotIsFresh(steps: seq<Step>)
    ensures Fresh(Run(BelowFirst, START, steps)) && Invariant(Run(BelowFirst, START, steps))
  {
    if |steps| > 0 {
      SnapshotIsFresh(steps[..|steps| - 1]);
      StepKeeps(Run(BelowFirst, START, steps[..|steps| - 1]), steps[|steps| - 1]);
    }
  }

  /** A read of the snapshot that nothing disturbs. */
  function WholeRead(order: Sequence, s: State, i: nat): State
  {
    var began := Next(order, s, BeginRead(i));
    if s.snapshot.Some? then Next(order, began, Hit(i))
    else Next(order, Next(order, Next(order, Next(order, began, Miss(i)), LookUp(i)), Fetched(i)), Store(i))
  }

  predicate Idle(s: State)
  {
    s.lock.None? && s.threads == map[]
  }

  /** It is served the snapshot, or else what is cached below, or else all the writes there are; and that is kept. */
  lemma QuietReadIsServed(order: Sequence, s: State, i: nat)
    requires Idle(s)
    ensures var base := if s.snapshot.Some? then s.snapshot.value
                        else if s.cache.Some? then s.cache.value else s.version;
            WholeRead(order, s, i)
            == s.(snapshot := Some(base), cache := if s.snapshot.Some? then s.cache else Some(base),
                  served := s.served + [Served(s.done, base)])
  {
    var began := Next(order, s, BeginRead(i));
    assert began.threads - {i} == s.threads;
    if s.snapshot.None? {
      var looked := Next(order, Next(order, began, Miss(i)), LookUp(i));
      var built := Next(order, looked, Fetched(i));
      assert built.threads - {i} == s.threads;
    }
  }

  /** A build that is given up frees the lock, and what is cached, above or below, can always expire. */
  lemma LockIsFreed(order: Sequence, s: State, i: nat)
    requires s.lock == Some(i) && i in s.threads && Holds(s.threads[i])
    ensures var freed := Next(order, s, GiveUp(i));
            freed == s.(threads := s.threads - {i}, lock := None) && Next(order, freed, Expire).snapshot.None?
    ensures Next(order, s, ExpireBelow) == s.(cache := None)
  {
  }

  /** A read of the cache below that nothing disturbs leaves all the writes there are in it. */
  lemma QuietReadBelow(order: Sequence, s: State, i: nat)
    requires Idle(s) && s.cache.None?
    ensures Next(order, Next(order, s, ReadBelow(i)), Fetched(i)) == s.(cache := Some(s.version))
  {
    assert s.threads[i := FetchingBelow(s.version, s.generation)] - {i} == s.threads;
  }

  /** Whoever writes and invalidates both is seen by the next read, in either order of the two. */
  lemma NextReadSeesWrite(order: Sequence, s: State, w: nat, i: nat)
    requires Idle(s)
    ensures var written := Next(order, Next(order, Next(order, s, Write(w)), InvalidateFirst(w)), InvalidateSecond(w));
            var after := WholeRead(order, written, i);
            && after.version == s.version + 1 && after.snapshot == after.cache == Some(after.version)
            && after.served == s.served + [Served(Greatest(s.done, after.version), after.version)]
  {
    var half := Next(order, Next(order, s, Write(w)), InvalidateFirst(w));
    var written := Next(order, half, InvalidateSecond(w));
    assert half.threads - {w} == s.threads;
    QuietReadIsServed(order, written, i);
  }

  lemma RunOn(order: Sequence, steps: seq<Step>, step: Step)
    ensures Run(order, START, steps + [step]) == Next(order, Run(order, START, steps), step)
  {
    assert (steps + [step])[..|steps|] == steps;
  }

  /**
    In the other order it fails: the snapshot is dropped first, a reader builds it
    again out of the old value below, and it outlives the second invalidation.
  */
  lemma AboveFirstServesStale() returns (steps: seq<Step>)
    ensures steps == [ReadBelow(0), Fetched(0), Write(1), InvalidateFirst(1), BeginRead(2), Miss(2), LookUp(2),
                      Store(2), InvalidateSecond(1), BeginRead(3), Hit(3)]
    ensures !Fresh(Run(AboveFirst, START, steps))
  {
    steps := OldSnapshotBuilt();
    steps := Extended(steps, Store(2));
    steps := Extended(steps, InvalidateSecond(1));
    assert Run(AboveFirst, START, steps) == State(1, 1, 1, 1, None, Some(0), None, map[], [Served(0, 0)]);
    steps := Extended(steps, BeginRead(3));
    steps := Extended(steps, Hit(3));
    assert Run(AboveFirst, START, steps).served[1] == Served(1, 0);
  }

  lemma OldSnapshotBuilt() returns (steps: seq<Step>)
    ensures steps == [ReadBelow(0), Fetched(0), Write(1), InvalidateFirst(1), BeginRead(2), Miss(2), LookUp(2)]
    ensures Run(AboveFirst, START, steps)
            == State(1, 0, 0, 0, Some(0), None, Some(2), map[1 := HalfDone(1), 2 := Built(0, 0)], [])
  {
    steps := Extended([], ReadBelow(0));
    steps := Extended(steps, Fetched(0));
    assert Run(AboveFirst, START, steps) == START.(cache := Some(0));
    steps := Extended(steps, Write(1));
    steps := Extended(steps, InvalidateFirst(1));
    assert Run(AboveFirst, START, steps) == State(1, 0, 0, 0, Some(0), None, None, map[1 := HalfDone(1)], []);
    steps := Extended(steps, BeginRead(2));
    steps := Extended(steps, Miss(2));
    assert Run(AboveFirst, START, steps)
        == State(1, 0, 0, 0, Some(0), None, Some(2), map[1 := HalfDone(1), 2 := Looking(0)], []);
    steps := Extended(steps, LookUp(2));
  }

  lemma Extended(steps: seq<Step>, step: Step) returns (longer: seq<Step>)
    ensures longer == steps + [step]
    ensures Run(AboveFirst, START, longer) == Next(AboveFirst, Run(AboveFirst, START, steps), step)
  {
    longer := steps + [step];
    RunOn(AboveFirst, steps, step);
  }
}
