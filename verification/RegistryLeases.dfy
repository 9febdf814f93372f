/** What a lease of the runner registry guarantees: single flight, freshness after an
    invalidation, and the exact condition for running out of capacity. */
module RegistryLeases {
  import opened Options
  import opened Registry

  /** At most one factory call per key is in flight, and none for a key in the cache. */
  lemma SingleFlight(s: State, b: Id, b': Id)
    requires Reachable(s) && b in s.builds && b' in s.builds && s.builds[b].key == s.builds[b'].key
    ensures b == b' && s.builds[b].key !in s.entries
  {
    ReachableInv(s);
  }

  /** Every cached runner, and every build still allowed to be cached, under a key of `matching`
      was registered at step `n` or later. */
  ghost predicate Fresh(s: State, matching: Key -> bool, n: nat) {
    FreshEntries(s.entries, matching, n) && FreshBuilds(s.builds, matching, n)
  }

  ghost predicate FreshEntries(entries: map<Key, Id>, matching: Key -> bool, n: nat) {
    forall k <- entries :: matching(k) ==> entries[k] >= n
  }

  ghost predicate FreshBuilds(builds: map<Id, Build>, matching: Key -> bool, n: nat) {
    forall b <- builds :: matching(builds[b].key) && !builds[b].invalidated ==> b >= n
  }

  lemma InvalidationIsFresh(s: State, matching: Key -> bool)
    requires !s.closed
    ensures Fresh(Apply(s, SInvalidateMatching(matching)), matching, s.clock + 1)
  {
  }

  lemma AcquireKeepsFresh(s: State, k: Key, now: int, victim: Option<Key>, matching: Key -> bool, n: nat)
    requires Fresh(s, matching, n) && n <= s.clock
    ensures Fresh(Acquire(s, k, now, victim), matching, n)
  {
    match AcquireOutcome(s, k, now, victim)
    case Leased =>
    case Full => EvictionKeepsFresh(s, now, victim, matching, n);
    case Building => EvictionKeepsFresh(s, now, victim, matching, n);
    case _ =>
  }

  lemma EvictionKeepsFresh(s: State, now: int, victim: Option<Key>, matching: Key -> bool, n: nat)
    requires Fresh(s, matching, n)
    ensures Fresh(AfterEviction(s, now, victim), matching, n) && AfterEviction(s, now, victim).clock == s.clock
  {
    EvictionKeeps(s, now, victim);
  }

  lemma FinishKeepsFresh(s: State, b: Id, cancelled: bool, now: int, matching: Key -> bool, n: nat)
    requires Fresh(s, matching, n) && b in s.builds && s.builds[b].factory.Returned?
    ensures Fresh(FinishBuild(s, b, cancelled, now), matching, n)
  {
  }

  lemma StepKeepsFresh(s: State, step: Step, matching: Key -> bool, n: nat)
    requires Enabled(s, step) && Fresh(s, matching, n) && n <= s.clock
    ensures Fresh(Apply(s, step), matching, n)
  {
    match step
    case SAcquire(k, now, victim) => AcquireKeepsFresh(s, k, now, victim, matching, n);
    case SFinishBuild(b, cancelled, now) => FinishKeepsFresh(s, b, cancelled, now, matching, n);
    case _ =>
  }

  lemma {:induction false} RunKeepsFresh(s: State, steps: seq<Step>, matching: Key -> bool, n: nat)
    requires CanRun(s, steps) && Fresh(s, matching, n) && n <= s.clock
    ensures Fresh(Run(s, steps), matching, n) && n <= Run(s, steps).clock
    decreases |steps|
  {
    if steps != [] {
      RunKeepsFresh(s, Front(steps), matching, n);
      StepKeepsFresh(Run(s, Front(steps)), Last(steps), matching, n);
    }
  }

  /** Lease `l` of runner `r` exists in `s`. */
  predicate Holds(s: State, r: Id, l: Id) {
    r in s.table && l in s.table[r].holders
  }

  lemma AcquireGrants(s: State, k: Key, now: int, victim: Option<Key>, r: Id, l: Id)
    requires Inv(s) && Holds(Acquire(s, k, now, victim), r, l) && !Holds(s, r, l)
    ensures k in s.entries && s.entries[k] == r
  {
    match AcquireOutcome(s, k, now, victim)
    case Leased =>
    case Closed => assert false;
    case Wait => assert false;
    case _ =>
      EvictionKeeps(s, now, victim);
      EvictionKeepsCore(s, now, victim, r);
      assert false;
  }

  lemma CloseRegistryGrantsNothing(s: State, r: Id)
    requires r in s.table
    ensures r in CloseRegistry(s).table && CloseRegistry(s).table[r].holders == s.table[r].holders
  {
    hide Detach, Cached;
    DetachKeepsCore(s.(builds := MarkBuilds(s.builds, k => true)), s.entries.Keys, false, r);
  }

  lemma OtherStepsGrantNothing(s: State, step: Step, r: Id, l: Id)
    requires Enabled(s, step) && !step.SAcquire? && !step.SFinishBuild?
    requires Holds(Section(s, step), r, l)
    ensures Holds(s, r, l)
  {
    hide CloseRegistry, Detach;
    OnlyFinishingAddsEntries(s, step);
    match step
    case SInvalidateMatching(matching) =>
      DetachKeepsCore(s.(builds := MarkBuilds(s.builds, matching)), MatchingKeys(s, matching), true, r);
    case SClose => CloseRegistryGrantsNothing(s, r);
    case _ =>
  }

  lemma FinishGrants(s: State, b: Id, cancelled: bool, now: int, r: Id, l: Id)
    requires b in s.builds && s.builds[b].factory.Returned?
    requires Holds(FinishBuild(s, b, cancelled, now), r, l) && !Holds(s, r, l)
    ensures r == b && Accepted(s, b, cancelled) && FinishBuild(s, b, cancelled, now).table[r].key == s.builds[b].key
  {
  }

  /** A step can only grant a lease of a runner at least as new as the bound kept by `Fresh`. */
  lemma GrantIsFresh(s: State, step: Step, r: Id, l: Id, matching: Key -> bool, n: nat)
    requires Inv(s) && Enabled(s, step) && Fresh(s, matching, n)
    requires Holds(Section(s, step), r, l) && !Holds(s, r, l) && matching(Section(s, step).table[r].key)
    ensures r >= n
  {
    match step
    case SAcquire(k, now, victim) =>
      AcquireGrants(s, k, now, victim, r, l);
      AcquireKeepsKey(s, k, now, victim, r);
    case SFinishBuild(b, cancelled, now) => FinishGrants(s, b, cancelled, now, r, l);
    case _ => OtherStepsGrantNothing(s, step, r, l);
  }

  lemma AcquireKeepsKey(s: State, k: Key, now: int, victim: Option<Key>, r: Id)
    requires r in s.table
    ensures r in Acquire(s, k, now, victim).table && Acquire(s, k, now, victim).table[r].key == s.table[r].key
  {
    match AcquireOutcome(s, k, now, victim)
    case Leased =>
    case Full => EvictionKeepsCore(s, now, victim, r);
    case Building => EvictionKeepsCore(s, now, victim, r);
    case _ =>
  }

  /** Freshness: a lease granted any time after an invalidation, under a key it matched, is of a
      runner whose build registered, and so whose factory call began, after the invalidation. */
  lemma LeaseAfterInvalidationIsFresh(s: State, matching: Key -> bool, steps: seq<Step>, step: Step, r: Id, l: Id)
    requires Reachable(s) && !s.closed
    requires CanRun(Apply(s, SInvalidateMatching(matching)), steps)
    requires var s' := Run(Apply(s, SInvalidateMatching(matching)), steps);
             && Enabled(s', step) && Holds(Section(s', step), r, l) && !Holds(s', r, l)
             && matching(Section(s', step).table[r].key)
    ensures r > s.clock
  {
    var s1 := Apply(s, SInvalidateMatching(matching));
    ReachableInv(s);
    StepKeepsInv(s, SInvalidateMatching(matching));
    RunKeepsInv(s1, steps);
    InvalidationIsFresh(s, matching);
    RunKeepsFresh(s1, steps, matching, s.clock + 1);
    GrantIsFresh(Run(s1, steps), step, r, l, matching, s.clock + 1);
  }

  // ---- Capacity ----

  /** Every slot is borrowed or under construction. */
  predicate Exhausted(s: State) {
    Slots(s) == s.maxEntries && forall k <- s.entries :: !Idle(s, k)
  }

  lemma VictimFreesASlot(s: State, victim: Option<Key>)
    requires Bounded(s) && LegalVictim(s, victim) && Slots(s) == s.maxEntries
    ensures Slots(if victim.Some? then Detach(s, {victim.value}, false) else s) >= s.maxEntries <==>
            forall k <- s.entries :: !Idle(s, k)
  {
    if victim.Some? {
      DetachBounded(s, {victim.value}, false);
      assert s.entries.Keys * {victim.value} == {victim.value};
      assert Idle(s, victim.value);
    }
  }

  lemma ExpiryFreesASlot(s: State, now: int, k: Key)
    requires Bounded(s) && k in ExpiredKeys(s, now)
    ensures Slots(AfterIdleEviction(s, now)) < s.maxEntries
  {
    DetachBounded(s, ExpiredKeys(s, now), false);
    assert k in s.entries.Keys * ExpiredKeys(s, now);
  }

  lemma EvictionFreesASlot(s: State, now: int, victim: Option<Key>)
    requires Bounded(s) && Slots(s) == s.maxEntries
    requires Slots(AfterIdleEviction(s, now)) >= s.maxEntries ==> LegalVictim(AfterIdleEviction(s, now), victim)
    ensures Slots(AfterEviction(s, now, victim)) >= s.maxEntries <==> forall k <- s.entries :: !Idle(s, k)
  {
    if ExpiredKeys(s, now) == {} {
      NothingToDetach(s);
      VictimFreesASlot(s, victim);
    } else {
      var k :| k in ExpiredKeys(s, now);
      ExpiryFreesASlot(s, now, k);
      assert Idle(s, k);
    }
  }

  /** The cache never outgrows its bound, and an acquisition reports that it is full exactly when
      every slot is borrowed or under construction: otherwise one eviction is enough. */
  lemma FullExactlyWhenExhausted(s: State, k: Key, now: int, victim: Option<Key>)
    requires Reachable(s) && !s.closed && k !in s.entries && k !in s.pending
    requires VictimFits(s, k, now, victim)
    ensures Slots(s) <= s.maxEntries
    ensures AcquireOutcome(s, k, now, victim).Full? <==> Exhausted(s)
  {
    ReachableInv(s);
    if Slots(s) == s.maxEntries {
      EvictionFreesASlot(s, now, victim);
    } else {
      DetachBounded(s, ExpiredKeys(s, now), false);
    }
    EvictionKeeps(s, now, victim);
  }
}
