/**
  Callers of one process that miss the same snapshot. Each takes the lock of the snapshot key from
  a dictionary that holds its locks weakly, reads again, and only then asks the provider. One step
  of the model is what happens between two points at which a caller may be suspended; the lock is
  dropped from the dictionary at any moment at which no caller refers to it.
*/
module SingleFlight {
  import opened Wrappers

  type Lock = nat

  datatype Phase =
    | Idle                    // has not read yet
    | Missed                  // read nothing usable, has not asked for the lock
    | Waiting(lock: Lock)
    | Holding(lock: Lock)     // owns the lock, has not read again
    | LookedUp(lock: Lock)    // the second read found nothing usable
    | Producing(lock: Lock)   // inside the provider call, or writing its result
    | Published(lock: Lock)   // the write has landed, the lock is still owned
    | Leaving(lock: Lock)     // has released the lock, still refers to it
    | Done
  {
    predicate Refers() { !Idle? && !Missed? && !Done? }
    predicate Critical() { Holding? || LookedUp? || Producing? || Published? }
  }

  /** `calls`, `losses` and `failures` count what has happened so far. */
  datatype State = State(
    phase: seq<Phase>, registry: Option<Lock>, locked: set<Lock>, next: Lock, present: bool,
    calls: nat, losses: nat, failures: nat)

  datatype Action =
    | Read(c: nat) | Ask(c: nat) | Acquire(c: nat) | ReadAgain(c: nat) | Call(c: nat)
    | Publish(c: nat)         // the provider's rows pass the gate and the write lands
    | Fail(c: nat)            // incomplete, refused, raising or cancelled: nothing is written
    | Release(c: nat) | Leave(c: nat)
    | Abandon(c: nat)         // cancelled outside production
    | Collect                 // the unreferenced lock is dropped
    | Foreign                 // another writer publishes: the prefetch run, or an owner's write-back
    | Lose                    // the snapshot expires or is evicted

  function Start(callers: nat): State { State(seq(callers, _ => Idle), None, {}, 0, false, 0, 0, 0) }

  predicate Enabled(s: State, a: Action) {
    match a
    case Read(c) => c < |s.phase| && s.phase[c].Idle?
    case Ask(c) => c < |s.phase| && s.phase[c].Missed?
    case Acquire(c) => c < |s.phase| && s.phase[c].Waiting? && s.phase[c].lock !in s.locked
    case ReadAgain(c) => c < |s.phase| && s.phase[c].Holding?
    case Call(c) => c < |s.phase| && s.phase[c].LookedUp?
    case Publish(c) => c < |s.phase| && s.phase[c].Producing?
    case Fail(c) => c < |s.phase| && s.phase[c].Producing?
    case Release(c) => c < |s.phase| && s.phase[c].Published?
    case Leave(c) => c < |s.phase| && s.phase[c].Leaving?
    case Abandon(c) => c < |s.phase| && !s.phase[c].Producing? && !s.phase[c].Done?
    case Collect =>
      s.registry.Some? && forall c :: 0 <= c < |s.phase| && s.phase[c].Refers() ==> s.phase[c].lock != s.registry.value
    case Foreign => true
    case Lose => s.present
  }

  function Move(s: State, c: nat, p: Phase): State
    requires c < |s.phase|
  {
    s.(phase := s.phase[c := p])
  }

  /** Gives the lock back, if the caller owns it, and moves on. */
  function Unlock(s: State, c: nat, p: Phase): State
    requires c < |s.phase|
  {
    var now := Move(s, c, p);
    if s.phase[c].Critical() then now.(locked := s.locked - {s.phase[c].lock}) else now
  }

  function Do(s: State, a: Action): State
    requires Enabled(s, a)
  {
    match a
    case Read(c) => Move(s, c, if s.present then Done else Missed)
    case Ask(c) =>
      if s.registry.Some? then Move(s, c, Waiting(s.registry.value))
      else Move(s, c, Waiting(s.next)).(registry := Some(s.next), next := s.next + 1)
    case Acquire(c) => Move(s, c, Holding(s.phase[c].lock)).(locked := s.locked + {s.phase[c].lock})
    case ReadAgain(c) =>
      if s.present then Unlock(s, c, Leaving(s.phase[c].lock)) else Move(s, c, LookedUp(s.phase[c].lock))
    case Call(c) => Move(s, c, Producing(s.phase[c].lock)).(calls := s.calls + 1)
    case Publish(c) => Move(s, c, Published(s.phase[c].lock)).(present := true)
    case Fail(c) => Unlock(s, c, Leaving(s.phase[c].lock)).(failures := s.failures + 1)
    case Release(c) => Unlock(s, c, Leaving(s.phase[c].lock))
    case Leave(c) => Move(s, c, Done)
    case Abandon(c) => Unlock(s, c, Done)
    case Collect => s.(registry := None)
    case Foreign => s.(present := true)
    case Lose => s.(present := false, losses := s.losses + 1)
  }

  ghost predicate Possible(s: State, run: seq<Action>)
    decreases |run|
  {
    run == [] || (Enabled(s, run[0]) && Possible(Do(s, run[0]), run[1..]))
  }

  ghost function Final(s: State, run: seq<Action>): State
    requires Possible(s, run)
    decreases |run|
  {
    if run == [] then s else Final(Do(s, run[0]), run[1..])
  }

  // ---------------------------------------------------------------- one lock, one owner

  /** A lock that anyone refers to is the one in the dictionary, so all callers share it. */
  ghost predicate Shared(s: State) {
    && (forall c :: 0 <= c < |s.phase| && s.phase[c].Refers() ==> s.registry == Some(s.phase[c].lock))
    && (forall l :: l in s.locked ==> l < s.next) && (s.registry.Some? ==> s.registry.value < s.next)
  }

  ghost predicate Exclusive(s: State) {
    && (forall c :: 0 <= c < |s.phase| && s.phase[c].Critical() ==> s.phase[c].lock in s.locked)
    && (forall c, d :: 0 <= c < |s.phase| && 0 <= d < |s.phase| && s.phase[c].Critical() && s.phase[d].Critical() ==>
        c == d)
  }

  /** A lock is owned only by a caller that will give it back. */
  ghost predicate Owned(s: State) {
    forall l :: l in s.locked ==> exists c :: 0 <= c < |s.phase| && s.phase[c].Critical() && s.phase[c].lock == l
  }

  /** A usable snapshot is there and nobody is past the second read. */
  ghost predicate Sealed(s: State) {
    s.present && forall c :: 0 <= c < |s.phase| ==> !s.phase[c].LookedUp?
  }

  ghost predicate InProduction(s: State) { exists c :: 0 <= c < |s.phase| && s.phase[c].Producing? }

  /** Every provider call but the last is paid for by a loss or by a failed production. */
  ghost predicate Rationed(s: State) {
    s.calls <= s.losses + s.failures + (if Sealed(s) || InProduction(s) then 1 else 0)
  }

  lemma SharedStep(s: State, a: Action)
    requires Shared(s) && Enabled(s, a)
    ensures Shared(Do(s, a))
  {
  }

  /** While someone owns the shared lock nobody can acquire it. */
  lemma AcquireIsAlone(s: State, c: nat)
    requires Shared(s) && Exclusive(s) && Enabled(s, Acquire(c))
    ensures forall d :: 0 <= d < |s.phase| ==> !s.phase[d].Critical()
  {
    assert s.phase[c].Refers();
    forall d | 0 <= d < |s.phase| && s.phase[d].Critical()
      ensures false
    {
      assert s.phase[d].Refers();
    }
  }

  /** Nobody enters the critical section but by acquiring. */
  lemma CriticalBefore(s: State, a: Action, c: nat)
    requires Enabled(s, a) && !a.Acquire? && c < |s.phase| && Do(s, a).phase[c].Critical()
    ensures s.phase[c].Critical() && s.phase[c].lock == Do(s, a).phase[c].lock
  {
  }

  lemma LockStays(s: State, a: Action, c: nat)
    requires Exclusive(s) && Enabled(s, a) && !a.Acquire? && c < |s.phase| && Do(s, a).phase[c].Critical()
    ensures Do(s, a).phase[c].lock in Do(s, a).locked
  {
    CriticalBefore(s, a, c);
  }

  lemma ExclusiveStep(s: State, a: Action)
    requires Shared(s) && Exclusive(s) && Enabled(s, a)
    ensures Exclusive(Do(s, a))
  {
    var t := Do(s, a);
    if a.Acquire? {
      AcquireIsAlone(s, a.c);
    } else {
      forall c | 0 <= c < |t.phase| && t.phase[c].Critical()
        ensures s.phase[c].Critical() && t.phase[c].lock in t.locked
      {
        CriticalBefore(s, a, c);
        LockStays(s, a, c);
      }
    }
  }

  lemma OwnedStep(s: State, a: Action)
    requires Exclusive(s) && Owned(s) && Enabled(s, a)
    ensures Owned(Do(s, a))
  {
    var t := Do(s, a);
    forall l | l in t.locked
      ensures exists c :: 0 <= c < |t.phase| && t.phase[c].Critical() && t.phase[c].lock == l
    {
      if l in s.locked {
        var c :| 0 <= c < |s.phase| && s.phase[c].Critical() && s.phase[c].lock == l;
        assert t.phase[c].Critical() && t.phase[c].lock == l;
      } else {
        assert t.phase[a.c].Critical() && t.phase[a.c].lock == l;
      }
    }
  }

  /** A provider call starts only when nothing sealed the snapshot and nobody is producing. */
  lemma CallIsAlone(s: State, c: nat)
    requires Exclusive(s) && Enabled(s, Call(c))
    ensures !Sealed(s) && !InProduction(s)
  {
    assert s.phase[c].Critical();
  }

  /** The producer's own publication seals: whoever gets the lock next reads it. */
  lemma PublishSeals(s: State, c: nat)
    requires Exclusive(s) && Enabled(s, Publish(c))
    ensures Sealed(Do(s, Publish(c)))
  {
    assert s.phase[c].Critical();
    forall d | 0 <= d < |s.phase|
      ensures !Do(s, Publish(c)).phase[d].LookedUp?
    {
      assert d != c && s.phase[d].LookedUp? ==> s.phase[d].Critical();
    }
  }

  lemma SealedStep(s: State, a: Action)
    requires Sealed(s) && Enabled(s, a) && !a.Lose?
    ensures Sealed(Do(s, a)) && Do(s, a).calls == s.calls
  {
  }

  lemma ProductionStep(s: State, a: Action)
    requires InProduction(s) && Enabled(s, a) && !a.Publish? && !a.Fail?
    ensures InProduction(Do(s, a))
  {
    var c :| 0 <= c < |s.phase| && s.phase[c].Producing?;
    assert Do(s, a).phase[c].Producing?;
  }

  lemma RationedStep(s: State, a: Action)
    requires Exclusive(s) && Rationed(s) && Enabled(s, a)
    ensures Rationed(Do(s, a))
  {
    match a
    case Call(c) =>
      CallIsAlone(s, c);
      assert Do(s, a).phase[c].Producing?;
    case Publish(c) => PublishSeals(s, c);
    case Fail(c) =>
    case Lose =>
    case _ =>
      if Sealed(s) {
        SealedStep(s, a);
      } else if InProduction(s) {
        ProductionStep(s, a);
      }
  }

  ghost predicate Inv(s: State) { Shared(s) && Exclusive(s) && Owned(s) && Rationed(s) }

  lemma {:induction false} RunKeeps(s: State, run: seq<Action>)
    requires Inv(s) && Possible(s, run)
    ensures Inv(Final(s, run))
    decreases |run|
  {
    if run != [] {
      SharedStep(s, run[0]);
      ExclusiveStep(s, run[0]);
      OwnedStep(s, run[0]);
      RationedStep(s, run[0]);
      RunKeeps(Do(s, run[0]), run[1..]);
    }
  }

  // ---------------------------------------------------------------- main results

  /**
    In every interleaving of any number of callers at most one is inside the provider call, and
    the calls exceed the losses and the failed productions by at most one.
  */
  lemma ProductionIsExclusive(callers: nat, run: seq<Action>)
    requires Possible(Start(callers), run)
    ensures var s := Final(Start(callers), run);
            && (forall c, d :: 0 <= c < |s.phase| && 0 <= d < |s.phase| ==>
                  s.phase[c].Producing? && s.phase[d].Producing? ==> c == d)
            && s.calls <= 1 + s.losses + s.failures
  {
    RunKeeps(Start(callers), run);
  }

  /** How often something of a kind happens in a run. */
  function Times(run: seq<Action>, p: Action -> bool): nat {
    if run == [] then 0 else (if p(run[0]) then 1 else 0) + Times(run[1..], p)
  }

  predicate Calls(a: Action) { a.Call? }
  predicate Loses(a: Action) { a.Lose? }
  predicate Fails(a: Action) { a.Fail? }

  lemma {:induction false} CountersCount(s: State, run: seq<Action>)
    requires Possible(s, run)
    ensures Final(s, run).calls == s.calls + Times(run, Calls)
    ensures Final(s, run).losses == s.losses + Times(run, Loses)
    ensures Final(s, run).failures == s.failures + Times(run, Fails)
    decreases |run|
  {
    if run != [] {
      CountersCount(Do(s, run[0]), run[1..]);
    }
  }

  /** In every run the provider is called at most once more often than snapshots are lost and productions fail. */
  lemma CallsRationed(callers: nat, run: seq<Action>)
    requires Possible(Start(callers), run)
    ensures Times(run, Calls) <= 1 + Times(run, Loses) + Times(run, Fails)
  {
    ProductionIsExclusive(callers, run);
    CountersCount(Start(callers), run);
  }

  /** The caller finds a snapshot, or its own production comes to an end, or it is cancelled. */
  predicate SettledBy(s: State, a: Action, c: nat) {
    || (s.present && (a == Read(c) || a == ReadAgain(c)))
    || a == Publish(c) || a == Fail(c) || a == Abandon(c)
  }

  ghost predicate Settles(s: State, run: seq<Action>, c: nat)
    requires Possible(s, run)
    decreases |run|
  {
    run != [] && (SettledBy(s, run[0], c) || Settles(Do(s, run[0]), run[1..], c))
  }

  predicate Past(p: Phase) { p.Published? || p.Leaving? || p.Done? }

  lemma {:induction false} PastIsSettled(s: State, run: seq<Action>, c: nat)
    requires Possible(s, run) && c < |s.phase| && !Past(s.phase[c])
    requires c < |Final(s, run).phase| && Past(Final(s, run).phase[c])
    ensures Settles(s, run, c)
    decreases |run|
  {
    if run != [] && !SettledBy(s, run[0], c) {
      PastIsSettled(Do(s, run[0]), run[1..], c);
    }
  }

  lemma {:induction false} CallersStay(s: State, run: seq<Action>)
    requires Possible(s, run)
    ensures |Final(s, run).phase| == |s.phase|
    decreases |run|
  {
    if run != [] {
      CallersStay(Do(s, run[0]), run[1..]);
    }
  }

  /** Nobody is done who did not find a snapshot, produce, fail to, or get cancelled. */
  lemma DoneIsSettled(callers: nat, run: seq<Action>, c: nat)
    requires Possible(Start(callers), run) && c < callers
    ensures c < |Final(Start(callers), run).phase|
    ensures Final(Start(callers), run).phase[c].Done? ==> Settles(Start(callers), run, c)
  {
    CallersStay(Start(callers), run);
    if Final(Start(callers), run).phase[c].Done? {
      PastIsSettled(Start(callers), run, c);
    }
  }

  /** The caller reads, the first or the second time, and finds nothing usable. */
  predicate MissedBy(s: State, a: Action, c: nat, again: bool) {
    !s.present && a == if again then ReadAgain(c) else Read(c)
  }

  ghost predicate Misses(s: State, run: seq<Action>, c: nat, again: bool)
    requires Possible(s, run)
    decreases |run|
  {
    run != [] && (MissedBy(s, run[0], c, again) || Misses(Do(s, run[0]), run[1..], c, again))
  }

  /** Phases that a caller reaches only after its first, or its second, read found nothing. */
  predicate AfterMiss(p: Phase, again: bool) {
    if again then p.LookedUp? || p.Producing? || p.Published?
    else p.Missed? || p.Waiting? || p.Holding? || p.LookedUp? || p.Producing? || p.Published? || p.Leaving?
  }

  lemma {:induction false} MissesFrom(s: State, run: seq<Action>, c: nat, again: bool)
    requires Possible(s, run) && c < |s.phase| && !AfterMiss(s.phase[c], again)
    requires c < |Final(s, run).phase| && AfterMiss(Final(s, run).phase[c], again)
    ensures Misses(s, run, c, again)
    decreases |run|
  {
    if run != [] && !MissedBy(s, run[0], c, again) {
      MissesFrom(Do(s, run[0]), run[1..], c, again);
    }
  }

  /** Nobody refers to the lock who did not first miss the snapshot, and nobody produces who did not miss it again. */
  lemma ProducersMissedTwice(callers: nat, run: seq<Action>, c: nat)
    requires Possible(Start(callers), run) && c < callers
    ensures c < |Final(Start(callers), run).phase|
    ensures Final(Start(callers), run).phase[c].Refers() ==> Misses(Start(callers), run, c, false)
    ensures Final(Start(callers), run).phase[c].Producing? ==>
              Misses(Start(callers), run, c, false) && Misses(Start(callers), run, c, true)
  {
    CallersStay(Start(callers), run);
    if Final(Start(callers), run).phase[c].Refers() {
      MissesFrom(Start(callers), run, c, false);
    }
    if Final(Start(callers), run).phase[c].Producing? {
      MissesFrom(Start(callers), run, c, true);
    }
  }

  /** A waiting caller can take the lock, unless another caller owns it. */
  lemma NeverStuck(callers: nat, run: seq<Action>, c: nat)
    requires Possible(Start(callers), run)
    requires c < |Final(Start(callers), run).phase| && Final(Start(callers), run).phase[c].Waiting?
    ensures var s := Final(Start(callers), run);
            Enabled(s, Acquire(c)) || exists d :: 0 <= d < |s.phase| && d != c && s.phase[d].Critical()
  {
    RunKeeps(Start(callers), run);
    var s := Final(Start(callers), run);
    if s.phase[c].lock in s.locked {
      var d :| 0 <= d < |s.phase| && s.phase[d].Critical() && s.phase[d].lock == s.phase[c].lock;
      assert d != c;
    }
  }

  ghost predicate Lossless(run: seq<Action>) { forall i :: 0 <= i < |run| ==> !run[i].Lose? }

  lemma {:induction false} SealedRun(s: State, run: seq<Action>)
    requires Sealed(s) && Possible(s, run) && Lossless(run)
    ensures Final(s, run).calls == s.calls
    decreases |run|
  {
    if run != [] {
      SealedStep(s, run[0]);
      assert Lossless(run[1..]);
      SealedRun(Do(s, run[0]), run[1..]);
    }
  }

  /**
    Once a producer's publication has landed, no run without a loss calls the provider again,
    although the lock may be dropped and made anew in between.
  */
  lemma PublishedOnce(callers: nat, before: seq<Action>, c: nat, after: seq<Action>)
    requires Possible(Start(callers), before) && Enabled(Final(Start(callers), before), Publish(c))
    requires var s := Do(Final(Start(callers), before), Publish(c)); Possible(s, after) && Lossless(after)
    ensures var s := Do(Final(Start(callers), before), Publish(c)); Final(s, after).calls == s.calls
  {
    RunKeeps(Start(callers), before);
    PublishSeals(Final(Start(callers), before), c);
    SealedRun(Do(Final(Start(callers), before), Publish(c)), after);
  }

  /**
    A snapshot published outside the lock gives the same promise exactly when no caller is between
    its second read and its provider call.
  */
  lemma ForeignPromise(s: State)
    ensures var t := Do(s, Foreign);
            (forall run :: Possible(t, run) && Lossless(run) ==> Final(t, run).calls == t.calls) <==>
            (forall c :: 0 <= c < |s.phase| ==> !s.phase[c].LookedUp?)
  {
    var t := Do(s, Foreign);
    if Sealed(t) {
      forall run | Possible(t, run) && Lossless(run)
        ensures Final(t, run).calls == t.calls
      {
        SealedRun(t, run);
      }
    } else {
      var c :| 0 <= c < |s.phase| && s.phase[c].LookedUp?;
      var run := [Call(c)];
      assert run[1..] == [];
      assert Possible(Do(t, Call(c)), run[1..]);
      assert Possible(t, run) && Lossless(run) && Final(t, run) == Final(Do(t, Call(c)), run[1..]);
    }
  }
}
