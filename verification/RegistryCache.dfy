/** The runner registry as its callers see it: a bounded cache of shared runners, without reference
    counts, detached entries, channels or owed closes. */
module RegistryCache {
  import opened Options
  import opened Registry
  import opened RegistryLeases

  /** A cached runner, and when it was last taken or became unused. */
  datatype Slot = Slot(runner: Id, since: int)

  /** `users` has the leases of every runner in use, in the cache or out of it. */
  datatype Cache = Cache(
    limit: nat, ttl: int, closed: bool, clock: nat,
    cached: map<Key, Slot>, users: map<Id, set<Id>>, building: map<Key, Id>, builds: map<Id, Build>)

  function SeenSlots(entries: map<Key, Id>, table: map<Id, Entry>): map<Key, Slot>
    requires CacheIndexed(entries, table)
  {
    map k | k in entries :: Slot(entries[k], table[entries[k]].lastUsed)
  }

  function SeenUsers(table: map<Id, Entry>): map<Id, set<Id>> {
    map r | r in table && table[r].holders != {} :: table[r].holders
  }

  function Seen(s: State): Cache
    requires CacheIndexed(s.entries, s.table)
  {
    Cache(s.maxEntries, s.idleTTL, s.closed, s.clock,
          SeenSlots(s.entries, s.table), SeenUsers(s.table), s.pending, s.builds)
  }

  // ---------------------------------------------------------------------------------------------
  // The cache
  // ---------------------------------------------------------------------------------------------

  predicate Unused(c: Cache, k: Key)
    requires k in c.cached
  {
    c.cached[k].runner !in c.users
  }

  /** The entries whose runner nobody uses and whose time is up. */
  predicate TimeIsUp(c: Cache, k: Key, now: int)
    requires k in c.cached
  {
    Unused(c, k) && c.ttl > 0 && now - c.cached[k].since >= c.ttl
  }

  function Unexpired(c: Cache, now: int): Cache {
    c.(cached := map k | k in c.cached && !TimeIsUp(c, k, now) :: c.cached[k])
  }

  predicate Crowded(c: Cache) { |c.cached| + |c.building| >= c.limit }

  /** `victim` is the least recently used of the unused entries, if there are any. */
  predicate MayGo(c: Cache, victim: Option<Key>) {
    match victim
    case None => forall k <- c.cached :: !Unused(c, k)
    case Some(v) =>
      v in c.cached && Unused(c, v) && forall k <- c.cached :: Unused(c, k) ==> c.cached[v].since <= c.cached[k].since
  }

  /** The cache once expired entries, and if it is still crowded one more, have made room. */
  function Reduced(c: Cache, now: int, victim: Option<Key>): Cache {
    var c := Unexpired(c, now);
    if Crowded(c) && victim.Some? then c.(cached := c.cached - {victim.value}) else c
  }

  function Answer(c: Cache, k: Key, now: int, victim: Option<Key>): Outcome {
    if c.closed then Closed
    else if k in c.cached then Leased
    else if k in c.building then Wait
    else if Crowded(Reduced(c, now, victim)) then Full
    else Building
  }

  function UsersOf(c: Cache, r: Id): set<Id> { if r in c.users then c.users[r] else {} }

  /** A cached runner is shared; otherwise a build is registered if there is room. */
  function Taken(c: Cache, k: Key, now: int, victim: Option<Key>): Cache {
    match Answer(c, k, now, victim)
    case Closed => c
    case Leased =>
      var r := c.cached[k].runner;
      c.(cached := c.cached[k := Slot(r, now)], users := c.users[r := UsersOf(c, r) + {c.clock}])
    case Wait => c
    case Full => Reduced(c, now, victim)
    case Building =>
      Reduced(c, now, victim).(building := c.building[k := c.clock], builds := c.builds[c.clock := Build(k, false, Running)])
  }

  /** A build ends: its runner is cached and lent to the builder, unless something speaks against it. */
  function Built(c: Cache, b: Id, cancelled: bool, now: int): Cache
    requires b in c.builds
  {
    var build := c.builds[b];
    var c' := c.(building := c.building - {build.key}, builds := c.builds - {b});
    if build.factory == Returned(true, false) && !cancelled && !c.closed && !build.invalidated
    then c'.(cached := c.cached[build.key := Slot(b, now)], users := c.users[b := {c.clock}])
    else c'
  }

  /** Keys are taken out of the cache, and what is being built for them is no longer wanted. */
  function Invalidated(c: Cache, gone: Key -> bool): Cache {
    if c.closed then c
    else
      c.(cached := map k | k in c.cached && !gone(k) :: c.cached[k],
         builds := map b | b in c.builds ::
                     if gone(c.builds[b].key) then c.builds[b].(invalidated := true) else c.builds[b])
  }

  function Touched(cached: map<Key, Slot>, r: Id, now: int): map<Key, Slot> {
    map k | k in cached :: if cached[k].runner == r then Slot(r, now) else cached[k]
  }

  /** A lease is given back; the last one leaves its runner unused from now on. */
  function GivenBack(c: Cache, r: Id, l: Id, now: int): Cache {
    var left := UsersOf(c, r) - {l};
    if left != {} then c.(users := c.users[r := left])
    else
      c.(users := c.users - {r}, cached := Touched(c.cached, r, now))
  }

  function Shows(c: Cache, step: Step): Cache
    requires step.SFinishBuild? || step.SFactoryReturns? ==> step.b in c.builds
  {
    var c' := match step
      case SAcquire(k, now, victim) => Taken(c, k, now, victim)
      case SFactoryReturns(b, some, failed) => c.(builds := c.builds[b := c.builds[b].(factory := Returned(some, failed))])
      case SFinishBuild(b, cancelled, now) => Built(c, b, cancelled, now)
      case SInvalidateMatching(matching) => Invalidated(c, matching)
      case SClose => Invalidated(c, k => true).(closed := true)
      case SRelease(r, l, now) => GivenBack(c, r, l, now)
      case _ => c;
    c'.(clock := c.clock + 1)
  }

  // ---------------------------------------------------------------------------------------------
  // Eviction
  // ---------------------------------------------------------------------------------------------

  lemma IdleIsUnused(s: State, k: Key)
    requires CacheIndexed(s.entries, s.table) && AllSound(s.entries, s.table) && k in s.entries
    ensures Idle(s, k) <==> Unused(Seen(s), k)
  {
    assert Sound(s.table[s.entries[k]], Cached(s.entries, s.table, s.entries[k]));
  }

  /** The tables differ at most in what callers do not see. */
  ghost predicate SameSight(table: map<Id, Entry>, table': map<Id, Entry>) {
    && table'.Keys == table.Keys
    && forall r <- table :: table'[r].holders == table[r].holders && table'[r].lastUsed == table[r].lastUsed
  }

  lemma SameSightShows(entries: map<Key, Id>, table: map<Id, Entry>, entries': map<Key, Id>, table': map<Id, Entry>)
    requires SameSight(table, table') && CacheIndexed(entries, table) && CacheIndexed(entries', table')
    requires forall k <- entries' :: k in entries && entries'[k] == entries[k]
    ensures SeenUsers(table') == SeenUsers(table)
    ensures SeenSlots(entries', table') == map k | k in SeenSlots(entries, table) && k in entries' :: SeenSlots(entries, table)[k]
  {
  }

  lemma DetachSight(s: State, keys: set<Key>, failFast: bool)
    ensures SameSight(s.table, Detach(s, keys, failFast).table)
  {
    hide Cached;
  }

  lemma DetachFields(s: State, keys: set<Key>, failFast: bool)
    ensures var s' := Detach(s, keys, failFast); s' == s.(entries := s.entries - keys, table := s'.table)
  {
  }

  /** Taking keys out of the cache takes their slots away and touches no lease. */
  lemma DetachShows(s: State, keys: set<Key>, failFast: bool)
    requires CacheIndexed(s.entries, s.table)
    ensures CacheIndexed(Detach(s, keys, failFast).entries, Detach(s, keys, failFast).table)
    ensures Seen(Detach(s, keys, failFast)) == Seen(s).(cached := Seen(s).cached - keys)
  {
    hide Detach, CacheIndexed, SameSight, SeenUsers;
    var s' := Detach(s, keys, failFast);
    DetachIndexed(s, keys, failFast);
    DetachSight(s, keys, failFast);
    DetachFields(s, keys, failFast);
    SameSightShows(s.entries, s.table, s'.entries, s'.table);
  }

  lemma IdleEvictionShows(s: State, now: int)
    requires CacheIndexed(s.entries, s.table) && AllSound(s.entries, s.table)
    ensures var s' := AfterIdleEviction(s, now);
      CacheIndexed(s'.entries, s'.table) && AllSound(s'.entries, s'.table) && Seen(s') == Unexpired(Seen(s), now)
  {
    hide Detach, AllSound, CacheIndexed, SeenUsers, Unused;
    DetachShows(s, ExpiredKeys(s, now), false);
    DetachSound(s, ExpiredKeys(s, now), false);
    forall k | k in s.entries { IdleIsUnused(s, k); }
  }

  lemma VictimShows(s: State, victim: Option<Key>)
    requires CacheIndexed(s.entries, s.table) && AllSound(s.entries, s.table)
    ensures LegalVictim(s, victim) <==> MayGo(Seen(s), victim)
  {
    hide AllSound, SeenUsers, Unused;
    forall k | k in s.entries { IdleIsUnused(s, k); }
  }

  lemma SlotsShow(s: State)
    requires CacheIndexed(s.entries, s.table)
    ensures Slots(s) >= s.maxEntries <==> Crowded(Seen(s))
  {
    assert Seen(s).cached.Keys == s.entries.Keys;
    assert |Seen(s).cached| == |Seen(s).cached.Keys| && |s.entries| == |s.entries.Keys|;
  }

  lemma EvictionShows(s: State, now: int, victim: Option<Key>)
    requires CacheIndexed(s.entries, s.table) && AllSound(s.entries, s.table)
    ensures var s' := AfterEviction(s, now, victim);
      CacheIndexed(s'.entries, s'.table) && Seen(s') == Reduced(Seen(s), now, victim)
  {
    hide AfterIdleEviction, Detach, AllSound, CacheIndexed, SeenUsers, Unexpired, Slots, Crowded;
    var s1 := AfterIdleEviction(s, now);
    IdleEvictionShows(s, now);
    SlotsShow(s1);
    if victim.Some? {
      DetachShows(s1, {victim.value}, false);
    }
  }

  // ---------------------------------------------------------------------------------------------
  // Acquisition
  // ---------------------------------------------------------------------------------------------

  lemma AnswerShows(s: State, k: Key, now: int, victim: Option<Key>)
    requires Inv(s)
    ensures AcquireOutcome(s, k, now, victim) == Answer(Seen(s), k, now, victim)
  {
    hide AfterEviction, Reduced, Slots, Crowded, SeenUsers;
    if k in s.entries {
      CachedIsUsable(s, k);
    } else {
      EvictionShows(s, now, victim);
      EvictionKeeps(s, now, victim);
      SlotsShow(AfterEviction(s, now, victim));
    }
  }

  lemma FitsShows(s: State, k: Key, now: int, victim: Option<Key>)
    requires Inv(s) && CacheIndexed(s.entries, s.table) && AllSound(s.entries, s.table)
    ensures VictimFits(s, k, now, victim) <==>
      (Answer(Seen(s), k, now, victim) in {Full, Building} && Crowded(Unexpired(Seen(s), now)) ==>
         MayGo(Unexpired(Seen(s), now), victim))
  {
    hide Inv, CacheIndexed, AllSound, Detach, Unexpired, Reduced, Slots, Crowded, SeenUsers, LegalVictim, MayGo;
    if k in s.entries {
      CachedIsUsable(s, k);
    }
    IdleEvictionShows(s, now);
    SlotsShow(AfterIdleEviction(s, now));
    DetachFields(s, ExpiredKeys(s, now), false);
    VictimShows(AfterIdleEviction(s, now), victim);
  }

  /** An acquisition evicts the least recently used of the unused entries, and only when expiry made no room. */
  lemma EvictsLeastRecent(s: State, k: Key, now: int, victim: Option<Key>)
    requires Reachable(s)
    ensures CacheIndexed(s.entries, s.table)
    ensures Enabled(s, SAcquire(k, now, victim)) <==>
      (Answer(Seen(s), k, now, victim) in {Full, Building} && Crowded(Unexpired(Seen(s), now)) ==>
         MayGo(Unexpired(Seen(s), now), victim))
  {
    hide Reachable, Inv, CacheIndexed, AllSound, VictimFits, Answer, Crowded, MayGo;
    ReachableInv(s);
    InvParts(s);
    FitsShows(s, k, now, victim);
  }

  /** A key in the cache is leased at once, whoever else uses it: its runner gets one more lease and a new time
      of use, and nothing else changes. */
  lemma CachedKeyIsShared(s: State, k: Key, now: int, victim: Option<Key>)
    requires Reachable(s) && !s.closed && k in s.entries
    ensures Enabled(s, SAcquire(k, now, victim)) && AcquireOutcome(s, k, now, victim) == Leased
    ensures var r := s.entries[k];
      && r in s.table && s.clock !in s.table[r].holders
      && Apply(s, SAcquire(k, now, victim)) ==
         s.(clock := s.clock + 1,
            table := s.table[r := s.table[r].(refs := |s.table[r].holders| + 1, lastUsed := now,
                                              holders := s.table[r].holders + {s.clock})])
  {
    ReachableInv(s);
    CachedIsUsable(s, k);
    assert Sound(s.table[s.entries[k]], true);
  }

  /** An acquisition is leased exactly when the registry is open and the key cached, waits exactly when it is being
      built, and is turned away exactly when the registry is closed or, for any other key, crowded for good. */
  lemma AcquireAnswersExactly(s: State, k: Key, now: int, victim: Option<Key>)
    requires Reachable(s) && Enabled(s, SAcquire(k, now, victim))
    ensures AcquireOutcome(s, k, now, victim) ==
      if s.closed then Closed
      else if k in s.entries then Leased
      else if k in s.pending then Wait
      else if Exhausted(s) then Full
      else Building
    ensures k in s.entries ==> k !in s.pending
  {
    ReachableInv(s);
    if k in s.entries {
      CachedIsUsable(s, k);
    } else if !s.closed && k !in s.pending {
      FullExactlyWhenExhausted(s, k, now, victim);
    }
  }

  lemma AcquireShows(s: State, k: Key, now: int, victim: Option<Key>)
    requires Inv(s)
    ensures var s' := Acquire(s, k, now, victim);
      CacheIndexed(s'.entries, s'.table) && Seen(s') == Taken(Seen(s), k, now, victim)
  {
    AnswerShows(s, k, now, victim);
    match AcquireOutcome(s, k, now, victim)
    case Leased => RetainShows(s, k, now);
    case Full => EvictionShows(s, now, victim);
    case Building =>
      hide AfterEviction, Reduced;
      EvictionShows(s, now, victim);
      EvictionKeeps(s, now, victim);
    case _ =>
  }

  lemma UpdateUsers(table: map<Id, Entry>, r: Id, e: Entry)
    ensures SeenUsers(table[r := e]) == if e.holders != {} then SeenUsers(table)[r := e.holders] else SeenUsers(table) - {r}
  {
  }

  lemma UpdateSlots(entries: map<Key, Id>, table: map<Id, Entry>, r: Id, e: Entry)
    requires CacheIndexed(entries, table) && r in table && e.key == table[r].key
    ensures CacheIndexed(entries, table[r := e])
    ensures SeenSlots(entries, table[r := e]) == Touched(SeenSlots(entries, table), r, e.lastUsed)
    ensures e.lastUsed == table[r].lastUsed ==> SeenSlots(entries, table[r := e]) == SeenSlots(entries, table)
  {
  }

  lemma InvParts(s: State)
    requires Inv(s)
    ensures CacheIndexed(s.entries, s.table) && AllSound(s.entries, s.table) && BuildsIndexed(s.pending, s.builds)
  {
  }

  lemma RetainShows(s: State, k: Key, now: int)
    requires Inv(s) && CacheIndexed(s.entries, s.table) && k in s.entries
    ensures var s', c, r := Retain(s, s.entries[k], now), Seen(s), s.entries[k];
      && CacheIndexed(s'.entries, s'.table)
      && Seen(s') == c.(cached := c.cached[k := Slot(r, now)], users := c.users[r := UsersOf(c, r) + {c.clock}])
  {
    hide SeenUsers, Inv, UsersOf;
    var r := s.entries[k];
    var e := Retained(s.table[r], s.clock, now);
    UpdateUsers(s.table, r, e);
    UpdateSlots(s.entries, s.table, r, e);
    forall k' | k' in s.entries && k' != k ensures s.entries[k'] != r {
      DistinctRunners(s, k, k');
    }
    UsersAre(s, r);
    assert s.clock in e.holders;
    assert Touched(Seen(s).cached, r, now) == Seen(s).cached[k := Slot(r, now)];
  }

  lemma UsersAre(s: State, r: Id)
    requires CacheIndexed(s.entries, s.table) && r in s.table
    ensures UsersOf(Seen(s), r) == s.table[r].holders
  {
  }

  // ---------------------------------------------------------------------------------------------
  // The other sections
  // ---------------------------------------------------------------------------------------------

  lemma FinishShows(s: State, b: Id, cancelled: bool, now: int)
    requires Inv(s) && CacheIndexed(s.entries, s.table) && b in s.builds && s.builds[b].factory.Returned?
    ensures var s' := FinishBuild(s, b, cancelled, now);
      CacheIndexed(s'.entries, s'.table) && Seen(s') == Built(Seen(s), b, cancelled, now)
  {
    hide SeenUsers, SeenSlots, Inv, CacheIndexed;
    var k := s.builds[b].key;
    BuildsHaveNoEntry(s, b);
    NewEntryShows(s.entries, s.table, b, NewEntry(k, s.clock, now));
    NewEntryShows(s.entries, s.table, b, RejectedEntry(k, s.clock));
    assert s.builds[b].factory == Returned(s.builds[b].factory.some, s.builds[b].factory.failed);
  }

  lemma NewEntryShows(entries: map<Key, Id>, table: map<Id, Entry>, b: Id, e: Entry)
    requires CacheIndexed(entries, table) && b !in table
    ensures CacheIndexed(entries, table[b := e]) && CacheIndexed(entries[e.key := b], table[b := e])
    ensures SeenSlots(entries, table[b := e]) == SeenSlots(entries, table)
    ensures SeenSlots(entries[e.key := b], table[b := e]) == SeenSlots(entries, table)[e.key := Slot(b, e.lastUsed)]
    ensures SeenUsers(table[b := e]) == if e.holders == {} then SeenUsers(table) else SeenUsers(table)[b := e.holders]
  {
    NewSlotShows(entries, table, b, e);
    UpdateUsers(table, b, e);
    assert b !in SeenUsers(table);
    hide SeenSlots, CacheIndexed;
  }

  lemma NewSlotShows(entries: map<Key, Id>, table: map<Id, Entry>, b: Id, e: Entry)
    requires CacheIndexed(entries, table) && b !in table
    ensures CacheIndexed(entries, table[b := e]) && CacheIndexed(entries[e.key := b], table[b := e])
    ensures SeenSlots(entries, table[b := e]) == SeenSlots(entries, table)
    ensures SeenSlots(entries[e.key := b], table[b := e]) == SeenSlots(entries, table)[e.key := Slot(b, e.lastUsed)]
  {
  }

  lemma InvalidateShows(s: State, matching: Key -> bool)
    requires CacheIndexed(s.entries, s.table)
    ensures var s' := InvalidateMatching(s, matching);
      CacheIndexed(s'.entries, s'.table) && Seen(s') == Invalidated(Seen(s), matching)
  {
    hide Detach, SeenUsers, CacheIndexed;
    if !s.closed {
      var s1 := s.(builds := MarkBuilds(s.builds, matching));
      DetachShows(s1, MatchingKeys(s, matching), true);
    }
  }

  lemma AwaitShows(before: State, s: State)
    requires CacheIndexed(s.entries, s.table)
    ensures CacheIndexed(s.entries, Await(before, s).table) && Seen(Await(before, s)) == Seen(s)
  {
    hide SeenUsers;
    var s' := Await(before, s);
    assert s' == s.(table := s'.table) && SameSight(s.table, s'.table);
    SameSightShows(s.entries, s.table, s.entries, s'.table);
    assert SeenSlots(s.entries, s'.table) == SeenSlots(s.entries, s.table);
  }

  lemma CloseShows(s: State)
    requires CacheIndexed(s.entries, s.table)
    ensures var s' := CloseRegistry(s);
      CacheIndexed(s'.entries, s'.table) && Seen(s') == Invalidated(Seen(s), k => true).(closed := true)
  {
    hide Detach, SeenUsers, CacheIndexed, Await;
    if !s.closed {
      var s1 := s.(builds := MarkBuilds(s.builds, k => true));
      DetachShows(s1, s.entries.Keys, false);
      var s2 := Detach(s1, s.entries.Keys, false);
      AwaitShows(s, s2);
      assert Await(s, s2).entries == s2.entries by { hide *; AwaitEntries(s, s2); }
    }
  }

  lemma AwaitEntries(before: State, s: State)
    ensures Await(before, s).entries == s.entries
  {
  }

  lemma ReleaseShows(s: State, r: Id, l: Id, now: int)
    requires CacheIndexed(s.entries, s.table) && AllSound(s.entries, s.table) && r in s.table && l in s.table[r].holders
    ensures var s' := Release(s, r, l, now);
      CacheIndexed(s'.entries, s'.table) && Seen(s') == GivenBack(Seen(s), r, l, now)
  {
    hide SeenUsers, SeenSlots, Touched, UsersOf, AllSound, CacheIndexed, Released;
    var e := s.table[r];
    var e' := Released(e, l, e.invalidated || s.closed, s.clock, now);
    ReleasedEntry(s, r, l, now);
    UpdateUsers(s.table, r, e');
    UpdateSlots(s.entries, s.table, r, e');
    UsersAre(s, r);
  }

  /** The last lease, and no other, leaves the entry unused since `now`. */
  lemma ReleasedEntry(s: State, r: Id, l: Id, now: int)
    requires AllSound(s.entries, s.table) && r in s.table && l in s.table[r].holders
    ensures var e := s.table[r];
      var e' := Released(e, l, e.invalidated || s.closed, s.clock, now);
      && e'.key == e.key && e'.holders == e.holders - {l}
      && e'.lastUsed == if e'.holders == {} then now else e.lastUsed
  {
    var e := s.table[r];
    assert Sound(e, Cached(s.entries, s.table, r));
    assert |e.holders - {l}| == |e.holders| - 1;
  }

  lemma CloseOwedShows(s: State, r: Id, fails: bool)
    requires CacheIndexed(s.entries, s.table) && r in s.table
    ensures var s' := CloseOwed(s, r, fails); CacheIndexed(s'.entries, s'.table) && Seen(s') == Seen(s)
  {
    hide SeenUsers, Abandons;
    var s' := CloseOwed(s, r, fails);
    assert s' == s.(table := s'.table) && SameSight(s.table, s'.table);
    SameSightShows(s.entries, s.table, s.entries, s'.table);
    assert SeenSlots(s.entries, s'.table) == SeenSlots(s.entries, s.table);
  }

  lemma CloseWaitedShows(s: State, r: Id)
    requires CacheIndexed(s.entries, s.table) && r in s.table
    ensures var s' := CloseWaited(s, r); CacheIndexed(s'.entries, s'.table) && Seen(s') == Seen(s)
  {
    hide SeenUsers;
    var s' := CloseWaited(s, r);
    assert SameSight(s.table, s'.table);
    SameSightShows(s.entries, s.table, s.entries, s'.table);
    assert SeenSlots(s.entries, s'.table) == SeenSlots(s.entries, s.table);
  }

  lemma SectionShows(s: State, step: Step)
    requires Inv(s) && CacheIndexed(s.entries, s.table) && Enabled(s, step)
    ensures var s' := Section(s, step);
      && CacheIndexed(s'.entries, s'.table) && (step.SFinishBuild? || step.SFactoryReturns? ==> step.b in s.builds)
      && Seen(s').(clock := s.clock + 1) == Shows(Seen(s), step)
  {
    hide Inv, CacheIndexed, SeenSlots, SeenUsers, Acquire, FinishBuild, InvalidateMatching, CloseRegistry, CloseWaited, Release, CloseOwed;
    hide Taken, Built, Invalidated, GivenBack;
    match step
    case SAcquire(k, now, victim) => AcquireShows(s, k, now, victim);
    case SFactoryReturns(b, some, failed) => FactoryShows(s, b, some, failed);
    case SFinishBuild(b, cancelled, now) => FinishShows(s, b, cancelled, now);
    case SInvalidateMatching(matching) => InvalidateShows(s, matching);
    case SClose => CloseShows(s);
    case SRelease(r, l, now) => InvParts(s); ReleaseShows(s, r, l, now);
    case SCloseOwed(r, fails) => CloseOwedShows(s, r, fails);
    case SCloseWaited(r) => CloseWaitedShows(s, r);
  }

  lemma FactoryShows(s: State, b: Id, some: bool, failed: bool)
    requires CacheIndexed(s.entries, s.table) && b in s.builds
    ensures var s' := FactoryReturns(s, b, some, failed);
      Seen(s') == Seen(s).(builds := s.builds[b := s.builds[b].(factory := Returned(some, failed))])
  {
  }

  /** The registry with its counts, marks and channels does what the cache does: for every reachable state and
      step, what acquisitions answer, what is cached, since when unused, by whom used, and what is being built. */
  lemma StepRefinesCache(s: State, step: Step)
    requires Reachable(s) && Enabled(s, step)
    ensures CacheIndexed(s.entries, s.table) && CacheIndexed(Apply(s, step).entries, Apply(s, step).table)
    ensures step.SFinishBuild? || step.SFactoryReturns? ==> step.b in s.builds
    ensures Seen(Apply(s, step)) == Shows(Seen(s), step)
    ensures step.SAcquire? ==>
      AcquireOutcome(s, step.k, step.now, step.victim) == Answer(Seen(s), step.k, step.now, step.victim)
  {
    hide Reachable, Inv, CacheIndexed, SeenSlots, SeenUsers, Section, Shows;
    ReachableInv(s);
    InvParts(s);
    SectionShows(s, step);
    if step.SAcquire? {
      AnswerShows(s, step.k, step.now, step.victim);
    }
  }
}
