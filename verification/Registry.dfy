/**
 The runner registry: a reference-counted, single-flight, bounded cache of runners with
 invalidation, eviction and shutdown.

 The state below is what every thread together can see.  One step is one section under the
 registry mutex, one return of a factory call, or one call of a runner's Close; any thread may
 take the next step.  The number of steps taken so far, `clock`, names whatever a step creates: a
 build, a lease, or an operation that now has entries to close.  A runner and its entry carry the
 name of the build that made them, so the name of a runner is also the time its build registered.
 */
module Registry {
  import opened Options

  type Key = nat
  type Id = nat

  /** Who has taken on closing an entry: nobody, or an operation, which may be one that stops
      closing at its first error. */
  datatype Owner = Nobody | Operation(id: Id, failFast: bool)

  /** A cache entry.  `zeroClosed` says that the channel `zero` is closed and `once` that
      `closeOnce` has run.  The rest records what the threads do with it: the calls of the
      runner's Close, the leases not yet released, the operation that will close it, whether the
      closing registry waits for it, and whether its operation stopped before closing it. */
  datatype Entry = Entry(
    key: Key, refs: int, lastUsed: int, invalidated: bool, zeroClosed: bool, once: bool,
    closes: nat, holders: set<Id>, owner: Owner, waited: bool, abandoned: bool)

  datatype Factory = Running | Returned(some: bool, failed: bool)

  datatype Build = Build(key: Key, invalidated: bool, factory: Factory)

  datatype State = State(
    maxEntries: nat, idleTTL: int, closed: bool,
    entries: map<Key, Id>, pending: map<Key, Id>,
    table: map<Id, Entry>,     // every entry ever made
    builds: map<Id, Build>,    // the builds whose finishing section has not run
    panicked: bool, clock: nat)

  function Initial(maxEntries: nat, idleTTL: int): State {
    State(maxEntries, idleTTL, false, map[], map[], map[], map[], false, 0)
  }

  predicate Cached(entries: map<Key, Id>, table: map<Id, Entry>, r: Id) {
    r in table && table[r].key in entries && entries[table[r].key] == r
  }

  function Slots(s: State): nat { |s.entries| + |s.pending| }

  // ---- Sections ----

  /** An entry taken out of the cache: closing it falls to operation `op` unless it is borrowed. */
  function Detached(e: Entry, op: Owner): Entry {
    if e.refs == 0 then e.(invalidated := true, owner := op) else e.(invalidated := true)
  }

  function Detach(s: State, keys: set<Key>, failFast: bool): State {
    s.(entries := s.entries - keys,
       table := map r | r in s.table ::
                  if Cached(s.entries, s.table, r) && s.table[r].key in keys then Detached(s.table[r], Operation(s.clock, failFast)) else s.table[r])
  }

  predicate Idle(s: State, k: Key) {
    k in s.entries && s.entries[k] in s.table && s.table[s.entries[k]].refs == 0
  }

  predicate Expired(s: State, k: Key, now: int) {
    Idle(s, k) && s.idleTTL > 0 && now >= s.table[s.entries[k]].lastUsed + s.idleTTL
  }

  function ExpiredKeys(s: State, now: int): set<Key> { set k | k in s.entries && Expired(s, k, now) }

  /** Capacity eviction takes the least recently used idle entry, any of them on a tie. */
  predicate LegalVictim(s: State, victim: Option<Key>) {
    match victim
    case None => forall k <- s.entries :: !Idle(s, k)
    case Some(v) => Idle(s, v) && forall k <- s.entries :: Idle(s, k) ==> s.table[s.entries[v]].lastUsed <= s.table[s.entries[k]].lastUsed
  }

  function AfterIdleEviction(s: State, now: int): State { Detach(s, ExpiredKeys(s, now), false) }

  function AfterEviction(s: State, now: int, victim: Option<Key>): State {
    var s := AfterIdleEviction(s, now);
    if Slots(s) >= s.maxEntries && victim.Some? then Detach(s, {victim.value}, false) else s
  }

  function Retained(e: Entry, lease: Id, now: int): Entry {
    e.(refs := e.refs + 1, lastUsed := now, zeroClosed := e.refs != 0 && e.zeroClosed, holders := e.holders + {lease})
  }

  function Retain(s: State, r: Id, now: int): State
    requires r in s.table
  {
    s.(table := s.table[r := Retained(s.table[r], s.clock, now)])
  }

  function Register(s: State, k: Key): State {
    s.(pending := s.pending[k := s.clock], builds := s.builds[s.clock := Build(k, false, Running)])
  }

  datatype Outcome = Closed | Leased | Wait | Full | Building

  predicate Usable(s: State, k: Key) {
    k in s.entries && s.entries[k] in s.table && !s.table[s.entries[k]].invalidated
  }

  /** The victim is one `evictCapacityLocked` may choose, if the acquisition calls it at all. */
  predicate VictimFits(s: State, k: Key, now: int, victim: Option<Key>) {
    !s.closed && !Usable(s, k) && k !in s.pending && Slots(AfterIdleEviction(s, now)) >= s.maxEntries ==>
      LegalVictim(AfterIdleEviction(s, now), victim)
  }

  function AcquireOutcome(s: State, k: Key, now: int, victim: Option<Key>): Outcome {
    if s.closed then Closed
    else if Usable(s, k) then Leased
    else if k in s.pending then Wait
    else if Slots(AfterEviction(s, now, victim)) >= s.maxEntries then Full
    else Building
  }

  function Acquire(s: State, k: Key, now: int, victim: Option<Key>): State {
    match AcquireOutcome(s, k, now, victim)
    case Closed => s
    case Leased => Retain(s, s.entries[k], now)
    case Wait => s
    case Full => AfterEviction(s, now, victim)
    case Building => Register(AfterEviction(s, now, victim), k)
  }

  function FactoryReturns(s: State, b: Id, some: bool, failed: bool): State
    requires b in s.builds
  {
    s.(builds := s.builds[b := s.builds[b].(factory := Returned(some, failed))])
  }

  predicate Accepted(s: State, b: Id, cancelled: bool)
    requires b in s.builds && s.builds[b].factory.Returned?
  {
    s.builds[b].factory.some && !s.builds[b].factory.failed && !cancelled && !s.closed && !s.builds[b].invalidated
  }

  function NewEntry(k: Key, lease: Id, now: int): Entry {
    Entry(k, 1, now, false, false, false, 0, {lease}, Nobody, false, false)
  }

  /** The entry made around a runner that is turned away: its builder closes it. */
  function RejectedEntry(k: Key, op: Id): Entry {
    Entry(k, 0, 0, false, false, false, 0, {}, Operation(op, false), false, false)
  }

  function Unregister(s: State, b: Id): State
    requires b in s.builds
  {
    s.(pending := s.pending - {s.builds[b].key}, builds := s.builds - {b})
  }

  function FinishBuild(s: State, b: Id, cancelled: bool, now: int): State
    requires b in s.builds && s.builds[b].factory.Returned?
  {
    var k := s.builds[b].key;
    if Accepted(s, b, cancelled) then
      Unregister(s, b).(entries := s.entries[k := b], table := s.table[b := NewEntry(k, s.clock, now)])
    else if s.builds[b].factory.some then
      Unregister(s, b).(table := s.table[b := RejectedEntry(k, s.clock)])
    else Unregister(s, b)
  }

  function MarkBuilds(builds: map<Id, Build>, matching: Key -> bool): map<Id, Build> {
    map b | b in builds :: if matching(builds[b].key) then builds[b].(invalidated := true) else builds[b]
  }

  function MatchingKeys(s: State, matching: Key -> bool): set<Key> { set k | k in s.entries && matching(k) }

  function InvalidateMatching(s: State, matching: Key -> bool): State {
    if s.closed then s
    else Detach(s.(builds := MarkBuilds(s.builds, matching)), MatchingKeys(s, matching), true)
  }

  /** The entries the closing registry waits for: those of `before` that are still borrowed. */
  function Await(before: State, s: State): State {
    s.(table := map r | r in s.table ::
                  if Cached(before.entries, before.table, r) && s.table[r].refs > 0 then s.table[r].(waited := true) else s.table[r])
  }

  function CloseRegistry(s: State): State {
    if s.closed then s
    else Await(s, Detach(s.(builds := MarkBuilds(s.builds, k => true)), s.entries.Keys, false)).(closed := true)
  }

  /** `entry.close()`: the first call closes the runner. */
  function ClosedOnce(e: Entry): Entry {
    if e.once then e else e.(once := true, closes := e.closes + 1)
  }

  function CloseWaited(s: State, r: Id): State
    requires r in s.table
  {
    s.(table := s.table[r := ClosedOnce(s.table[r]).(waited := false)])
  }

  /** What `release` does to its entry; `closing` is its test that the entry must be closed. */
  function Released(e: Entry, lease: Id, closing: bool, op: Id, now: int): Entry {
    var e := e.(holders := e.holders - {lease});
    if e.refs < 1 then e
    else if e.refs > 1 then e.(refs := e.refs - 1)
    else if closing then e.(refs := 0, lastUsed := now, zeroClosed := true, owner := Operation(op, false))
    else e.(refs := 0, lastUsed := now)
  }

  function Release(s: State, r: Id, l: Id, now: int): State
    requires r in s.table
  {
    var e := s.table[r];
    var closing := e.invalidated || s.closed;
    s.(table := s.table[r := Released(e, l, closing, s.clock, now)],
       panicked := s.panicked || (e.refs == 1 && closing && e.zeroClosed))
  }

  /** The entries the owner of `r` still has to close besides `r`. */
  function Behind(s: State, r: Id): set<Id>
    requires r in s.table
  {
    set x | x in s.table && x != r && s.table[x].owner == s.table[r].owner
  }

  /** The close of `r` makes its operation stop with entries left over. */
  predicate Abandons(s: State, r: Id, fails: bool)
    requires r in s.table
  {
    fails && s.table[r].owner.Operation? && s.table[r].owner.failFast && Behind(s, r) != {}
  }

  function CloseOwed(s: State, r: Id, fails: bool): State
    requires r in s.table
  {
    s.(table := map x | x in s.table ::
                  if x == r then ClosedOnce(s.table[r]).(owner := Nobody)
                  else if Abandons(s, r, fails) && s.table[x].owner == s.table[r].owner then s.table[x].(owner := Nobody, abandoned := true)
                  else s.table[x])
  }

  // ---- Runs ----

  datatype Step =
    | SAcquire(k: Key, now: int, victim: Option<Key>)
    | SFactoryReturns(b: Id, some: bool, failed: bool)
    | SFinishBuild(b: Id, cancelled: bool, now: int)
    | SInvalidateMatching(matching: Key -> bool)
    | SClose
    | SCloseWaited(r: Id)
    | SRelease(r: Id, l: Id, now: int)
    | SCloseOwed(r: Id, fails: bool)

  predicate Enabled(s: State, step: Step) {
    match step
    case SAcquire(k, now, victim) => VictimFits(s, k, now, victim)
    case SFactoryReturns(b, _, _) => b in s.builds && s.builds[b].factory.Running?
    case SFinishBuild(b, _, _) => b in s.builds && s.builds[b].factory.Returned?
    case SInvalidateMatching(_) => true
    case SClose => true
    case SCloseWaited(r) => r in s.table && s.table[r].waited && s.table[r].zeroClosed
    case SRelease(r, l, _) => r in s.table && l in s.table[r].holders
    case SCloseOwed(r, _) => r in s.table && s.table[r].owner.Operation?
  }

  function Section(s: State, step: Step): State
    requires Enabled(s, step)
  {
    match step
    case SAcquire(k, now, victim) => Acquire(s, k, now, victim)
    case SFactoryReturns(b, some, failed) => FactoryReturns(s, b, some, failed)
    case SFinishBuild(b, cancelled, now) => FinishBuild(s, b, cancelled, now)
    case SInvalidateMatching(matching) => InvalidateMatching(s, matching)
    case SClose => CloseRegistry(s)
    case SCloseWaited(r) => CloseWaited(s, r)
    case SRelease(r, l, now) => Release(s, r, l, now)
    case SCloseOwed(r, fails) => CloseOwed(s, r, fails)
  }

  function Apply(s: State, step: Step): State
    requires Enabled(s, step)
  {
    Section(s, step).(clock := s.clock + 1)
  }

  predicate CanRun(s: State, steps: seq<Step>)
    decreases |steps|, 0
  {
    steps == [] || (CanRun(s, Front(steps)) && Enabled(Run(s, Front(steps)), Last(steps)))
  }

  function Run(s: State, steps: seq<Step>): State
    requires CanRun(s, steps)
    decreases |steps|, 1
  {
    if steps == [] then s else Apply(Run(s, Front(steps)), Last(steps))
  }

  function Front<T>(xs: seq<T>): seq<T>
    requires xs != []
  {
    xs[..|xs| - 1]
  }

  function Last<T>(xs: seq<T>): T
    requires xs != []
  {
    xs[|xs| - 1]
  }

  // ---- What every step keeps ----

  /** What holds of an entry, given whether it is in the cache. */
  predicate Sound(e: Entry, cached: bool) {
    && e.refs == |e.holders|
    && e.closes == (if e.once then 1 else 0)
    && (cached ==> !e.invalidated && !e.waited)
    && (cached || e.refs > 0 ==> !e.once && !e.zeroClosed && e.owner.Nobody? && !e.abandoned)
    && (!cached && e.refs > 0 ==> e.invalidated)
    && (!cached && e.refs == 0 ==> e.owner.Operation? || e.once || e.abandoned)
    && (e.abandoned ==> e.owner.Nobody? && !e.once && !e.waited)
    && (e.owner.Operation? && e.owner.failFast ==> !e.once && !e.waited)
    && (e.waited && e.refs == 0 ==> e.zeroClosed)
  }

  predicate AllSound(entries: map<Key, Id>, table: map<Id, Entry>) {
    forall r <- table :: Sound(table[r], Cached(entries, table, r))
  }

  predicate EntryNamed(e: Entry, n: nat) {
    (forall l <- e.holders :: l < n) && (e.owner.Operation? ==> e.owner.id < n)
  }

  /** Names were made before step `n`, and a runner's entry is made after its build is over. */
  predicate Named(table: map<Id, Entry>, builds: map<Id, Build>, n: nat) {
    && (forall r <- table :: r < n && EntryNamed(table[r], n))
    && (forall b <- builds :: b < n && b !in table)
  }

  /** The maps by key mirror the entries and builds they lead to. */
  predicate CacheIndexed(entries: map<Key, Id>, table: map<Id, Entry>) {
    forall k <- entries :: entries[k] in table && table[entries[k]].key == k
  }

  predicate BuildsIndexed(pending: map<Key, Id>, builds: map<Id, Build>) {
    && (forall k <- pending :: pending[k] in builds && builds[pending[k]].key == k)
    && (forall b <- builds :: builds[b].key in pending && pending[builds[b].key] == b)
  }

  predicate Bounded(s: State) {
    && s.entries.Keys !! s.pending.Keys
    && Slots(s) <= s.maxEntries && (s.closed ==> s.entries == map[]) && !s.panicked
  }

  predicate Good(s: State, n: nat) {
    && Named(s.table, s.builds, n)
    && CacheIndexed(s.entries, s.table) && BuildsIndexed(s.pending, s.builds)
    && AllSound(s.entries, s.table)
    && Bounded(s)
  }

  predicate Inv(s: State) { Good(s, s.clock) }

  lemma GoodLater(s: State)
    requires Inv(s)
    ensures Good(s, s.clock + 1)
  {
  }

  // Detaching

  lemma DetachNamed(s: State, keys: set<Key>, failFast: bool, n: nat)
    requires Named(s.table, s.builds, n) && s.clock < n
    ensures Named(Detach(s, keys, failFast).table, s.builds, n)
  {
  }

  lemma DetachIndexed(s: State, keys: set<Key>, failFast: bool)
    requires CacheIndexed(s.entries, s.table)
    ensures CacheIndexed(Detach(s, keys, failFast).entries, Detach(s, keys, failFast).table)
  {
  }

  lemma DetachSound(s: State, keys: set<Key>, failFast: bool)
    requires AllSound(s.entries, s.table)
    ensures AllSound(Detach(s, keys, failFast).entries, Detach(s, keys, failFast).table)
  {
  }

  lemma DetachBounded(s: State, keys: set<Key>, failFast: bool)
    requires Bounded(s)
    ensures Bounded(Detach(s, keys, failFast))
    ensures Slots(Detach(s, keys, failFast)) == Slots(s) - |s.entries.Keys * keys|
  {
    assert Detach(s, keys, failFast).entries.Keys == s.entries.Keys - (s.entries.Keys * keys);
  }

  lemma DetachGood(s: State, keys: set<Key>, failFast: bool, n: nat)
    requires Good(s, n) && s.clock < n
    ensures Good(Detach(s, keys, failFast), n)
  {
    DetachNamed(s, keys, failFast, n);
    DetachIndexed(s, keys, failFast);
    DetachSound(s, keys, failFast);
    DetachBounded(s, keys, failFast);
  }

  // Changing one entry

  lemma UpdateGood(s: State, r: Id, e: Entry, n: nat)
    requires Good(s, n) && r in s.table && e.key == s.table[r].key
    requires Sound(e, Cached(s.entries, s.table, r)) && EntryNamed(e, n)
    ensures Good(s.(table := s.table[r := e]), n)
  {
  }

  // Acquire

  lemma RetainGood(s: State, k: Key, now: int)
    requires Inv(s) && k in s.entries
    ensures s.entries[k] in s.table && Good(Retain(s, s.entries[k], now), s.clock + 1)
  {
    var r := s.entries[k];
    assert Sound(s.table[r], true) && EntryNamed(s.table[r], s.clock);
    GoodLater(s);
    UpdateGood(s, r, Retained(s.table[r], s.clock, now), s.clock + 1);
  }

  lemma RegisterIndexed(s: State, k: Key)
    requires BuildsIndexed(s.pending, s.builds) && s.clock !in s.builds && k !in s.pending
    ensures BuildsIndexed(Register(s, k).pending, Register(s, k).builds)
  {
  }

  lemma RegisterBounded(s: State, k: Key)
    requires Bounded(s) && k !in s.entries && k !in s.pending && Slots(s) < s.maxEntries
    ensures Bounded(Register(s, k))
  {
    assert Register(s, k).pending.Keys == s.pending.Keys + {k};
  }

  lemma RegisterNamed(s: State, k: Key)
    requires Named(s.table, s.builds, s.clock + 1) && s.clock !in s.table
    ensures Named(s.table, Register(s, k).builds, s.clock + 1)
  {
  }

  lemma RegisterGood(s: State, k: Key)
    requires Good(s, s.clock + 1) && s.clock !in s.builds && s.clock !in s.table
    requires k !in s.entries && k !in s.pending && Slots(s) < s.maxEntries
    ensures Good(Register(s, k), s.clock + 1)
  {
    RegisterIndexed(s, k);
    RegisterBounded(s, k);
    RegisterNamed(s, k);
  }

  lemma DetachKeeps(s: State, keys: set<Key>, failFast: bool)
    ensures var s' := Detach(s, keys, failFast);
            && s'.entries.Keys <= s.entries.Keys && s'.table.Keys == s.table.Keys
            && s' == s.(entries := s'.entries, table := s'.table)
  {
  }

  lemma EvictionGood(s: State, now: int, victim: Option<Key>)
    requires Inv(s)
    ensures Good(AfterEviction(s, now, victim), s.clock + 1)
  {
    hide Good, Detach, ExpiredKeys, Slots;
    GoodLater(s);
    DetachGood(s, ExpiredKeys(s, now), false, s.clock + 1);
    DetachKeeps(s, ExpiredKeys(s, now), false);
    if victim.Some? {
      DetachGood(AfterIdleEviction(s, now), {victim.value}, false, s.clock + 1);
    }
  }

  lemma CachedIsUsable(s: State, k: Key)
    requires Inv(s) && k in s.entries
    ensures Usable(s, k)
  {
    assert Sound(s.table[s.entries[k]], true);
  }

  lemma EvictionKeeps(s: State, now: int, victim: Option<Key>)
    ensures var s' := AfterEviction(s, now, victim);
            && s'.entries.Keys <= s.entries.Keys && s'.table.Keys == s.table.Keys
            && s' == s.(entries := s'.entries, table := s'.table)
  {
    hide Detach, ExpiredKeys, Slots;
    DetachKeeps(s, ExpiredKeys(s, now), false);
    if victim.Some? {
      DetachKeeps(AfterIdleEviction(s, now), {victim.value}, false);
    }
  }

  lemma BuildingGood(s: State, k: Key, e: State)
    requires Inv(s) && !Usable(s, k) && k !in s.pending
    requires Good(e, s.clock + 1) && e.entries.Keys <= s.entries.Keys && e.table.Keys == s.table.Keys
    requires e.pending == s.pending && e.builds == s.builds && e.clock == s.clock && Slots(e) < e.maxEntries
    ensures Good(Register(e, k), s.clock + 1)
  {
    if k in s.entries {
      CachedIsUsable(s, k);
    }
    RegisterGood(e, k);
  }

  lemma AcquireGood(s: State, k: Key, now: int, victim: Option<Key>)
    requires Inv(s)
    ensures Good(Acquire(s, k, now, victim), s.clock + 1)
  {
    match AcquireOutcome(s, k, now, victim)
    case Leased => RetainGood(s, k, now);
    case Building =>
      EvictionGood(s, now, victim);
      EvictionKeeps(s, now, victim);
      BuildingGood(s, k, AfterEviction(s, now, victim));
    case Full => EvictionGood(s, now, victim);
    case _ => GoodLater(s);
  }

  // Builds

  lemma UnregisterGood(s: State, b: Id)
    requires Inv(s) && b in s.builds
    ensures Good(Unregister(s, b), s.clock + 1)
    ensures var s' := Unregister(s, b);
            && Slots(s') < s.maxEntries && b <= s.clock && b !in s.table && b !in s'.builds
            && s.builds[b].key !in s.entries && s.builds[b].key !in s'.pending
  {
    var k := s.builds[b].key;
    assert k in s.pending;
    assert Unregister(s, b).pending.Keys == s.pending.Keys - {k};
  }

  lemma InsertSound(entries: map<Key, Id>, table: map<Id, Entry>, k: Key, b: Id, e: Entry, cached: bool)
    requires AllSound(entries, table) && CacheIndexed(entries, table)
    requires b !in table && k !in entries && e.key == k && Sound(e, cached)
    ensures AllSound(if cached then entries[k := b] else entries, table[b := e])
    ensures CacheIndexed(if cached then entries[k := b] else entries, table[b := e])
  {
  }

  lemma InsertNamed(table: map<Id, Entry>, builds: map<Id, Build>, b: Id, e: Entry, n: nat)
    requires Named(table, builds, n) && b !in builds && b < n && EntryNamed(e, n)
    ensures Named(table[b := e], builds, n)
  {
  }

  lemma InsertBounded(s: State, k: Key, b: Id)
    requires Bounded(s) && k !in s.entries && k !in s.pending && Slots(s) < s.maxEntries && !s.closed
    ensures Bounded(s.(entries := s.entries[k := b]))
  {
    assert s.entries[k := b].Keys == s.entries.Keys + {k};
  }

  lemma AcceptGood(s: State, k: Key, b: Id, e: Entry, n: nat)
    requires Good(s, n) && b !in s.table && b !in s.builds && b < n
    requires k !in s.entries && k !in s.pending && Slots(s) < s.maxEntries && !s.closed
    requires e.key == k && Sound(e, true) && EntryNamed(e, n)
    ensures Good(s.(table := s.table[b := e], entries := s.entries[k := b]), n)
  {
    InsertSound(s.entries, s.table, k, b, e, true);
    InsertNamed(s.table, s.builds, b, e, n);
    InsertBounded(s, k, b);
  }

  lemma RejectGood(s: State, k: Key, b: Id, e: Entry, n: nat)
    requires Good(s, n) && b !in s.table && b !in s.builds && b < n
    requires k !in s.entries && e.key == k && Sound(e, false) && EntryNamed(e, n)
    ensures Good(s.(table := s.table[b := e]), n)
  {
    InsertSound(s.entries, s.table, k, b, e, false);
    InsertNamed(s.table, s.builds, b, e, n);
  }

  lemma FreshEntriesSound(k: Key, op: Id, now: int)
    ensures Sound(NewEntry(k, op, now), true) && EntryNamed(NewEntry(k, op, now), op + 1)
    ensures Sound(RejectedEntry(k, op), false) && EntryNamed(RejectedEntry(k, op), op + 1)
  {
  }

  lemma FinishShape(s: State, b: Id, cancelled: bool, now: int)
    requires b in s.builds && s.builds[b].factory.Returned?
    ensures var k, s1 := s.builds[b].key, Unregister(s, b);
            s1.closed == s.closed && s1.entries == s.entries && s1.table == s.table && s1.maxEntries == s.maxEntries
            && FinishBuild(s, b, cancelled, now) ==
              if Accepted(s, b, cancelled) then s1.(table := s1.table[b := NewEntry(k, s.clock, now)], entries := s1.entries[k := b])
              else if s.builds[b].factory.some then s1.(table := s1.table[b := RejectedEntry(k, s.clock)])
              else s1
  {
  }

  lemma FinishGood(s: State, b: Id, cancelled: bool, now: int)
    requires Inv(s) && b in s.builds && s.builds[b].factory.Returned?
    ensures Good(FinishBuild(s, b, cancelled, now), s.clock + 1)
  {
    hide Good, Sound, EntryNamed, Unregister, FinishBuild, Slots;
    var k := s.builds[b].key;
    var s1 := Unregister(s, b);
    FreshEntriesSound(k, s.clock, now);
    UnregisterGood(s, b);
    FinishShape(s, b, cancelled, now);
    if Accepted(s, b, cancelled) {
      AcceptGood(s1, k, b, NewEntry(k, s.clock, now), s.clock + 1);
    } else if s.builds[b].factory.some {
      RejectGood(s1, k, b, RejectedEntry(k, s.clock), s.clock + 1);
    }
  }

  lemma FactoryReturnsGood(s: State, b: Id, some: bool, failed: bool)
    requires Inv(s) && b in s.builds
    ensures Good(FactoryReturns(s, b, some, failed), s.clock + 1)
  {
    GoodLater(s);
    var builds := FactoryReturns(s, b, some, failed).builds;
    assert builds.Keys == s.builds.Keys;
  }

  // Invalidation and shutdown

  lemma MarkGood(s: State, matching: Key -> bool, n: nat)
    requires Good(s, n)
    ensures Good(s.(builds := MarkBuilds(s.builds, matching)), n)
  {
    assert MarkBuilds(s.builds, matching).Keys == s.builds.Keys;
  }

  lemma InvalidateGood(s: State, matching: Key -> bool)
    requires Inv(s)
    ensures Good(InvalidateMatching(s, matching), s.clock + 1)
  {
    GoodLater(s);
    MarkGood(s, matching, s.clock + 1);
    DetachGood(s.(builds := MarkBuilds(s.builds, matching)), MatchingKeys(s, matching), true, s.clock + 1);
  }

  lemma AwaitGood(before: State, s: State, n: nat)
    requires Good(s, n) && s.entries == map[]
    ensures Good(Await(before, s), n)
  {
    AwaitSound(before, s);
    AwaitNamed(before, s, n);
  }

  lemma AwaitSound(before: State, s: State)
    requires AllSound(map[], s.table)
    ensures AllSound(map[], Await(before, s).table)
  {
  }

  lemma AwaitNamed(before: State, s: State, n: nat)
    requires Named(s.table, s.builds, n)
    ensures Named(Await(before, s).table, s.builds, n)
  {
  }

  lemma CloseRegistryGood(s: State)
    requires Inv(s)
    ensures Good(CloseRegistry(s), s.clock + 1)
  {
    GoodLater(s);
    MarkGood(s, k => true, s.clock + 1);
    var marked := s.(builds := MarkBuilds(s.builds, k => true));
    DetachGood(marked, s.entries.Keys, false, s.clock + 1);
    AwaitGood(s, Detach(marked, s.entries.Keys, false), s.clock + 1);
  }

  // Closing and releasing entries

  lemma CloseWaitedGood(s: State, r: Id)
    requires Inv(s) && r in s.table && s.table[r].waited && s.table[r].zeroClosed
    ensures Good(CloseWaited(s, r), s.clock + 1)
  {
    GoodLater(s);
    assert Sound(s.table[r], Cached(s.entries, s.table, r)) && EntryNamed(s.table[r], s.clock + 1);
    UpdateGood(s, r, ClosedOnce(s.table[r]).(waited := false), s.clock + 1);
  }

  lemma ReleasedSound(e: Entry, cached: bool, l: Id, closing: bool, op: Id, now: int)
    requires Sound(e, cached) && EntryNamed(e, op + 1) && l in e.holders && (closing <==> e.invalidated) && closing != cached
    ensures Sound(Released(e, l, closing, op, now), cached) && EntryNamed(Released(e, l, closing, op, now), op + 1)
    ensures !(e.refs == 1 && closing && e.zeroClosed)
  {
    assert |e.holders - {l}| == |e.holders| - 1;
  }

  /** A borrowed entry must be closed by its last release exactly when it has left the cache. */
  lemma BorrowedIsCached(s: State, r: Id)
    requires Inv(s) && r in s.table && s.table[r].holders != {}
    ensures var e := s.table[r];
            && Sound(e, Cached(s.entries, s.table, r)) && EntryNamed(e, s.clock + 1)
            && (e.invalidated || s.closed <==> e.invalidated) && e.invalidated != Cached(s.entries, s.table, r)
  {
    var e := s.table[r];
    assert Sound(e, Cached(s.entries, s.table, r)) && EntryNamed(e, s.clock);
    assert |e.holders| > 0;
  }

  lemma ReleaseGood(s: State, r: Id, l: Id, now: int)
    requires Inv(s) && r in s.table && l in s.table[r].holders
    ensures Good(Release(s, r, l, now), s.clock + 1)
  {
    hide Good, Sound, EntryNamed, Cached, Released;
    GoodLater(s);
    var e := s.table[r];
    BorrowedIsCached(s, r);
    ReleasedSound(e, Cached(s.entries, s.table, r), l, e.invalidated || s.closed, s.clock, now);
    ReleasedKey(e, l, e.invalidated || s.closed, s.clock, now);
    UpdateGood(s, r, Released(e, l, e.invalidated || s.closed, s.clock, now), s.clock + 1);
  }

  lemma ReleasedKey(e: Entry, l: Id, closing: bool, op: Id, now: int)
    ensures Released(e, l, closing, op, now).key == e.key
  {
  }

  lemma CloseOwedSound(s: State, r: Id, fails: bool)
    requires AllSound(s.entries, s.table) && r in s.table && s.table[r].owner.Operation?
    ensures AllSound(s.entries, CloseOwed(s, r, fails).table)
  {
    assert Sound(s.table[r], Cached(s.entries, s.table, r));
  }

  lemma CloseOwedGood(s: State, r: Id, fails: bool)
    requires Inv(s) && r in s.table && s.table[r].owner.Operation?
    ensures Good(CloseOwed(s, r, fails), s.clock + 1)
  {
    GoodLater(s);
    CloseOwedSound(s, r, fails);
    CloseOwedNamed(s, r, fails, s.clock + 1);
  }

  lemma CloseOwedNamed(s: State, r: Id, fails: bool, n: nat)
    requires Named(s.table, s.builds, n) && CacheIndexed(s.entries, s.table) && r in s.table
    ensures Named(CloseOwed(s, r, fails).table, s.builds, n)
    ensures CacheIndexed(s.entries, CloseOwed(s, r, fails).table)
  {
  }

  lemma SectionGood(s: State, step: Step)
    requires Inv(s) && Enabled(s, step)
    ensures Good(Section(s, step), s.clock + 1)
  {
    match step
    case SAcquire(k, now, victim) => AcquireGood(s, k, now, victim);
    case SFactoryReturns(b, some, failed) => FactoryReturnsGood(s, b, some, failed);
    case SFinishBuild(b, cancelled, now) => FinishGood(s, b, cancelled, now);
    case SInvalidateMatching(matching) => InvalidateGood(s, matching);
    case SClose => CloseRegistryGood(s);
    case SCloseWaited(r) => CloseWaitedGood(s, r);
    case SRelease(r, l, now) => ReleaseGood(s, r, l, now);
    case SCloseOwed(r, fails) => CloseOwedGood(s, r, fails);
  }

  lemma StepKeepsInv(s: State, step: Step)
    requires Inv(s) && Enabled(s, step)
    ensures Inv(Apply(s, step))
  {
    SectionGood(s, step);
    ClockGood(Section(s, step), s.clock + 1);
  }

  lemma ClockGood(s: State, n: nat)
    requires Good(s, n)
    ensures Inv(s.(clock := n))
  {
  }

  lemma {:induction false} RunKeepsInv(s: State, steps: seq<Step>)
    requires Inv(s) && CanRun(s, steps)
    ensures Inv(Run(s, steps))
    decreases |steps|
  {
    if steps != [] {
      RunKeepsInv(s, Front(steps));
      StepKeepsInv(Run(s, Front(steps)), Last(steps));
    }
  }

  lemma {:induction false} RunsKeepInv(maxEntries: nat, idleTTL: int, steps: seq<Step>)
    requires CanRun(Initial(maxEntries, idleTTL), steps)
    ensures Inv(Run(Initial(maxEntries, idleTTL), steps))
  {
    RunKeepsInv(Initial(maxEntries, idleTTL), steps);
  }

  // ---- Leases and closes ----

  /** What `NewRunnerRegistry` makes, defaults filled in. */
  predicate ValidConfig(maxEntries: nat, idleTTL: int) { maxEntries >= 1 && idleTTL >= 1 }

  ghost predicate Reachable(s: State) {
    exists maxEntries, idleTTL, steps ::
      ValidConfig(maxEntries, idleTTL) && CanRun(Initial(maxEntries, idleTTL), steps) && Run(Initial(maxEntries, idleTTL), steps) == s
  }

  lemma ReachableInv(s: State)
    requires Reachable(s)
    ensures Inv(s)
  {
    var maxEntries, idleTTL, steps :|
      ValidConfig(maxEntries, idleTTL) && CanRun(Initial(maxEntries, idleTTL), steps) && Run(Initial(maxEntries, idleTTL), steps) == s;
    RunsKeepInv(maxEntries, idleTTL, steps);
  }

  /** `refs` counts the unreleased leases, a leased runner is open, no runner is closed twice, and
      no `zero` channel is closed twice. */
  lemma LeasedRunnersAreOpen(s: State, r: Id)
    requires Reachable(s) && r in s.table
    ensures s.table[r].refs == |s.table[r].holders|
    ensures s.table[r].holders != {} ==> s.table[r].closes == 0
    ensures s.table[r].closes <= 1
    ensures !s.panicked
  {
    ReachableInv(s);
    assert Sound(s.table[r], Cached(s.entries, s.table, r));
  }

  /** Where the runner named `r` can be once its factory call has returned it. */
  datatype Place = WithBuilder | InCache | OnLoan | Owed | ClosedForGood | Dropped

  ghost predicate At(s: State, r: Id, place: Place) {
    match place
    case WithBuilder => r in s.builds && s.builds[r].factory.Returned? && s.builds[r].factory.some
    case InCache => Cached(s.entries, s.table, r)
    case OnLoan => r in s.table && !Cached(s.entries, s.table, r) && s.table[r].holders != {}
    case Owed => r in s.table && s.table[r].owner.Operation? && s.table[r].closes == 0
    case ClosedForGood => r in s.table && s.table[r].closes == 1
    case Dropped => r in s.table && s.table[r].abandoned
  }

  /** Conservation: a returned runner is in exactly one place. */
  lemma RunnerIsInOnePlace(s: State, r: Id) returns (place: Place)
    requires Reachable(s)
    requires r in s.table || At(s, r, WithBuilder)
    ensures At(s, r, place) && forall other :: At(s, r, other) ==> other == place
  {
    ReachableInv(s);
    if r in s.builds {
      return WithBuilder;
    }
    var e := s.table[r];
    assert Sound(e, Cached(s.entries, s.table, r));
    return if Cached(s.entries, s.table, r) then InCache
           else if e.holders != {} then OnLoan
           else if e.abandoned then Dropped
           else if e.closes == 1 then ClosedForGood
           else Owed;
  }

  // ---- Shutdown ----

  /** The registry is closed, every lease is released and every thread has finished. */
  ghost predicate Quiescent(s: State) {
    s.closed && s.builds == map[] && forall r <- s.table :: s.table[r].holders == {} && s.table[r].owner.Nobody?
  }

  /** Closing waits for exactly the runners on loan from the cache, and stops waiting for one exactly when its last
      lease is released. */
  lemma ClosingWaitsForLeases(s: State, r: Id)
    requires Reachable(s) && r in s.table
    ensures Enabled(s, SCloseWaited(r)) <==> s.table[r].waited && s.table[r].holders == {}
    ensures !s.closed ==> r in CloseRegistry(s).table
    ensures !s.closed ==>
      (CloseRegistry(s).table[r].waited <==> s.table[r].waited || (Cached(s.entries, s.table, r) && s.table[r].holders != {}))
  {
    hide Reachable, Inv, CloseRegistry;
    ReachableInv(s);
    SoundHere(s, r);
    if !s.closed {
      CloseMarks(s, r);
    }
  }

  lemma SoundHere(s: State, r: Id)
    requires Inv(s) && r in s.table
    ensures Sound(s.table[r], Cached(s.entries, s.table, r))
  {
  }

  lemma CloseMarks(s: State, r: Id)
    requires r in s.table && !s.closed
    ensures r in CloseRegistry(s).table
    ensures CloseRegistry(s).table[r].waited <==> s.table[r].waited || (Cached(s.entries, s.table, r) && s.table[r].refs > 0)
  {
    hide Detach, Cached;
    DetachKeepsCore(s.(builds := MarkBuilds(s.builds, k => true)), s.entries.Keys, false, r);
  }

  /** Only an invalidation may stop at its first error; evictions, closing and releases close all they owe. */
  lemma OnlyInvalidationsFailFast(s: State, step: Step, r: Id)
    requires Enabled(s, step) && r in Section(s, step).table && FailFast(Section(s, step).table[r])
    ensures r in s.table
    ensures Section(s, step).table[r].owner == s.table[r].owner || (step.SInvalidateMatching? && step.matching(s.table[r].key))
  {
    hide Acquire, Detach, InvalidateMatching, CloseRegistry;
    if step.SFinishBuild? {
      FinishOwners(s, step.b, step.cancelled, step.now, r);
    } else {
      OnlyFinishingAddsEntries(s, step);
      if step.SAcquire? {
        AcquireOwners(s, step.k, step.now, step.victim, r);
      } else if step.SInvalidateMatching? {
        InvalidateOwners(s, step.matching, r);
      } else if step.SClose? {
        CloseOwners(s, r);
      }
    }
  }

  lemma FinishOwners(s: State, b: Id, cancelled: bool, now: int, r: Id)
    requires b in s.builds && s.builds[b].factory.Returned?
    requires r in FinishBuild(s, b, cancelled, now).table && FailFast(FinishBuild(s, b, cancelled, now).table[r])
    ensures r in s.table && FinishBuild(s, b, cancelled, now).table[r] == s.table[r]
  {
  }

  lemma InvalidateOwners(s: State, matching: Key -> bool, r: Id)
    requires r in s.table
    ensures r in InvalidateMatching(s, matching).table
    ensures InvalidateMatching(s, matching).table[r].owner == s.table[r].owner || matching(s.table[r].key)
  {
  }

  lemma CloseOwners(s: State, r: Id)
    requires r in s.table
    ensures r in CloseRegistry(s).table
    ensures FailFast(CloseRegistry(s).table[r]) ==> CloseRegistry(s).table[r].owner == s.table[r].owner
  {
    hide Detach, Cached;
    DetachOwners(s.(builds := MarkBuilds(s.builds, k => true)), s.entries.Keys, r);
  }

  predicate FailFast(e: Entry) { e.owner.Operation? && e.owner.failFast }

  lemma DetachOwners(s: State, keys: set<Key>, r: Id)
    requires r in s.table
    ensures r in Detach(s, keys, false).table
    ensures FailFast(Detach(s, keys, false).table[r]) ==> Detach(s, keys, false).table[r].owner == s.table[r].owner
  {
  }

  lemma AcquireOwners(s: State, k: Key, now: int, victim: Option<Key>, r: Id)
    requires r in Acquire(s, k, now, victim).table
    ensures r in s.table
    ensures FailFast(Acquire(s, k, now, victim).table[r]) ==> Acquire(s, k, now, victim).table[r].owner == s.table[r].owner
  {
    AcquireAddsNoEntry(s, k, now, victim);
    hide Detach;
    DetachOwners(s, ExpiredKeys(s, now), r);
    DetachKeeps(s, ExpiredKeys(s, now), false);
    if victim.Some? {
      DetachOwners(AfterIdleEviction(s, now), {victim.value}, r);
    }
  }

  ghost predicate SomeDropped(s: State) { exists r :: r in s.table && s.table[r].abandoned }

  /** The step is a failing close that makes an invalidation stop early. */
  ghost predicate StopsEarly(s: State, step: Step) {
    step.SCloseOwed? && step.r in s.table && Abandons(s, step.r, step.fails)
  }

  ghost predicate RunStopsEarly(s: State, steps: seq<Step>)
    requires CanRun(s, steps)
    decreases |steps|
  {
    steps != [] && (RunStopsEarly(s, Front(steps)) || StopsEarly(Run(s, Front(steps)), Last(steps)))
  }

  predicate SameFate(e: Entry, e': Entry) {
    e'.abandoned == e.abandoned && (e.abandoned ==> e'.closes == e.closes)
  }

  /** The part of an entry that leaving the cache does not touch. */
  function Core(e: Entry): Entry { e.(invalidated := false, owner := Nobody) }

  lemma DetachKeepsCore(s: State, keys: set<Key>, failFast: bool, r: Id)
    requires r in s.table
    ensures r in Detach(s, keys, failFast).table && Core(Detach(s, keys, failFast).table[r]) == Core(s.table[r])
  {
  }

  lemma EvictionKeepsCore(s: State, now: int, victim: Option<Key>, r: Id)
    requires r in s.table
    ensures r in AfterEviction(s, now, victim).table && Core(AfterEviction(s, now, victim).table[r]) == Core(s.table[r])
  {
    DetachKeepsCore(s, ExpiredKeys(s, now), false, r);
    if victim.Some? {
      DetachKeepsCore(AfterIdleEviction(s, now), {victim.value}, false, r);
    }
  }

  lemma AcquireKeepsFate(s: State, k: Key, now: int, victim: Option<Key>, r: Id)
    requires r in s.table
    ensures r in Acquire(s, k, now, victim).table && SameFate(s.table[r], Acquire(s, k, now, victim).table[r])
  {
    match AcquireOutcome(s, k, now, victim)
    case Leased =>
    case Full => EvictionKeepsCore(s, now, victim, r);
    case Building => EvictionKeepsCore(s, now, victim, r);
    case _ =>
  }

  lemma CloseRegistryKeepsFate(s: State, r: Id)
    requires r in s.table
    ensures r in CloseRegistry(s).table && SameFate(s.table[r], CloseRegistry(s).table[r])
  {
    hide Detach, Cached;
    DetachKeepsCore(s.(builds := MarkBuilds(s.builds, k => true)), s.entries.Keys, false, r);
  }

  lemma SectionKeepsFate(s: State, step: Step, r: Id)
    requires Inv(s) && Enabled(s, step) && r in s.table && !step.SCloseOwed?
    ensures r in Section(s, step).table && SameFate(s.table[r], Section(s, step).table[r])
  {
    hide Good, Acquire, Detach, CloseRegistry;
    match step
    case SAcquire(k, now, victim) => AcquireKeepsFate(s, k, now, victim, r);
    case SFinishBuild(b, cancelled, now) => BuildsHaveNoEntry(s, b);
    case SInvalidateMatching(matching) =>
      DetachKeepsCore(s.(builds := MarkBuilds(s.builds, matching)), MatchingKeys(s, matching), true, r);
    case SClose => CloseRegistryKeepsFate(s, r);
    case SCloseWaited(r') => WaitedIsNotDropped(s, r');
    case _ =>
  }

  lemma BuildsHaveNoEntry(s: State, b: Id)
    requires Inv(s) && b in s.builds
    ensures b !in s.table
  {
  }

  lemma WaitedIsNotDropped(s: State, r: Id)
    requires Inv(s) && r in s.table && s.table[r].waited
    ensures !s.table[r].abandoned
  {
    assert Sound(s.table[r], Cached(s.entries, s.table, r));
  }

  lemma CloseOwedKeepsFate(s: State, r: Id, fails: bool, x: Id)
    requires Inv(s) && r in s.table && s.table[r].owner.Operation? && x in s.table
    ensures var e := CloseOwed(s, r, fails).table[x];
            && (e.abandoned <==> s.table[x].abandoned || (Abandons(s, r, fails) && x in Behind(s, r)))
            && (s.table[x].abandoned ==> e.closes == s.table[x].closes)
  {
    assert Sound(s.table[r], Cached(s.entries, s.table, r)) && Sound(s.table[x], Cached(s.entries, s.table, x));
  }

  lemma AcquireAddsNoEntry(s: State, k: Key, now: int, victim: Option<Key>)
    ensures Acquire(s, k, now, victim).table.Keys == s.table.Keys
  {
    match AcquireOutcome(s, k, now, victim)
    case Leased =>
    case Full => EvictionKeeps(s, now, victim);
    case Building => EvictionKeeps(s, now, victim);
    case _ =>
  }

  lemma OnlyFinishingAddsEntries(s: State, step: Step)
    requires Enabled(s, step) && !step.SFinishBuild?
    ensures Section(s, step).table.Keys == s.table.Keys
  {
    match step
    case SAcquire(k, now, victim) => AcquireAddsNoEntry(s, k, now, victim);
    case _ =>
  }

  /** Entries are dropped by exactly the steps that stop an invalidation early. */
  lemma StepDrops(s: State, step: Step)
    requires Inv(s) && Enabled(s, step)
    ensures SomeDropped(Apply(s, step)) <==> SomeDropped(s) || StopsEarly(s, step)
  {
    if step.SCloseOwed? {
      CloseOwedDrops(s, step.r, step.fails);
    } else {
      hide Inv, Enabled, Section;
      forall x | x in s.table { SectionKeepsFate(s, step, x); }
      NewEntriesAreNotDropped(s, step);
    }
  }

  lemma CloseOwedDrops(s: State, r: Id, fails: bool)
    requires Inv(s) && r in s.table && s.table[r].owner.Operation?
    ensures SomeDropped(CloseOwed(s, r, fails)) <==> SomeDropped(s) || Abandons(s, r, fails)
  {
    hide Inv;
    var s' := CloseOwed(s, r, fails);
    forall x | x in s.table { CloseOwedKeepsFate(s, r, fails, x); }
    assert s'.table.Keys == s.table.Keys;
    if Abandons(s, r, fails) {
      var x :| x in Behind(s, r);
      assert s'.table[x].abandoned;
    }
  }

  lemma NewEntriesAreNotDropped(s: State, step: Step)
    requires Enabled(s, step)
    ensures forall x | x in Section(s, step).table && x !in s.table :: !Section(s, step).table[x].abandoned
  {
    if !step.SFinishBuild? {
      hide Enabled, Section;
      OnlyFinishingAddsEntries(s, step);
    }
  }

  lemma {:induction false} RunDrops(s: State, steps: seq<Step>)
    requires Inv(s) && CanRun(s, steps)
    ensures SomeDropped(Run(s, steps)) <==> SomeDropped(s) || RunStopsEarly(s, steps)
    decreases |steps|
  {
    if steps != [] {
      RunKeepsInv(s, Front(steps));
      RunDrops(s, Front(steps));
      StepDrops(Run(s, Front(steps)), Last(steps));
    }
  }

  /** Once everything is over, every runner has been closed exactly once if and only if no
      invalidation stopped at a failing close with entries still to close behind it. */
  lemma AllClosedUnlessStoppedEarly(maxEntries: nat, idleTTL: int, steps: seq<Step>)
    requires CanRun(Initial(maxEntries, idleTTL), steps) && Quiescent(Run(Initial(maxEntries, idleTTL), steps))
    ensures (forall r <- Run(Initial(maxEntries, idleTTL), steps).table :: Run(Initial(maxEntries, idleTTL), steps).table[r].closes == 1)
            <==> !RunStopsEarly(Initial(maxEntries, idleTTL), steps)
  {
    var s := Run(Initial(maxEntries, idleTTL), steps);
    RunsKeepInv(maxEntries, idleTTL, steps);
    RunDrops(Initial(maxEntries, idleTTL), steps);
    forall r | r in s.table ensures s.table[r].closes == 1 <==> !s.table[r].abandoned {
      assert Sound(s.table[r], Cached(s.entries, s.table, r));
    }
  }

  /** A dropped runner is never closed, whatever happens later. */
  lemma {:induction false} DroppedForever(s: State, steps: seq<Step>, r: Id)
    requires Inv(s) && CanRun(s, steps) && r in s.table && s.table[r].abandoned
    ensures r in Run(s, steps).table && Run(s, steps).table[r].abandoned && Run(s, steps).table[r].closes == 0
    decreases |steps|
  {
    if steps == [] {
      assert Sound(s.table[r], Cached(s.entries, s.table, r));
    } else {
      RunKeepsInv(s, Front(steps));
      DroppedForever(s, Front(steps), r);
      StepKeepsDropped(Run(s, Front(steps)), Last(steps), r);
    }
  }

  lemma StepKeepsDropped(s: State, step: Step, r: Id)
    requires Inv(s) && Enabled(s, step) && r in s.table && s.table[r].abandoned
    ensures r in Apply(s, step).table && Apply(s, step).table[r].abandoned && Apply(s, step).table[r].closes == s.table[r].closes
  {
    if step.SCloseOwed? {
      CloseOwedKeepsFate(s, step.r, step.fails, r);
    } else {
      SectionKeepsFate(s, step, r);
    }
  }

  /** Two idle entries match an invalidation and the first close fails: the other is dropped. */
  lemma FailedCloseDropsTheRest(s: State, matching: Key -> bool, k: Key, k': Key)
    requires Inv(s) && !s.closed && k != k' && Idle(s, k) && Idle(s, k') && matching(k) && matching(k')
    ensures var s1 := Apply(s, SInvalidateMatching(matching));
            var step := SCloseOwed(s.entries[k], true);
            && Enabled(s1, step) && StopsEarly(s1, step)
            && s.entries[k'] in Apply(s1, step).table && Apply(s1, step).table[s.entries[k']].abandoned
  {
    hide Apply, StopsEarly, Inv;
    InvalidationOwns(s, matching, k);
    InvalidationOwns(s, matching, k');
    DistinctRunners(s, k, k');
    FailedCloseDrops(Apply(s, SInvalidateMatching(matching)), s.entries[k], s.entries[k']);
  }

  lemma FailedCloseDrops(s: State, r: Id, r': Id)
    requires r in s.table && r' in s.table && r != r'
    requires s.table[r].owner == s.table[r'].owner && s.table[r].owner.Operation? && s.table[r].owner.failFast
    ensures var step := SCloseOwed(r, true);
      Enabled(s, step) && StopsEarly(s, step) && r' in Apply(s, step).table && Apply(s, step).table[r'].abandoned
  {
    assert r' in Behind(s, r);
  }

  lemma DistinctRunners(s: State, k: Key, k': Key)
    requires Inv(s) && k != k' && k in s.entries && k' in s.entries
    ensures s.entries[k] != s.entries[k']
  {
  }

  /** An invalidation takes over the idle entries it matches. */
  lemma InvalidationOwns(s: State, matching: Key -> bool, k: Key)
    requires Inv(s) && !s.closed && Idle(s, k) && matching(k)
    ensures var s1 := Apply(s, SInvalidateMatching(matching));
      s.entries[k] in s1.table && s1.table[s.entries[k]].owner == Operation(s.clock, true)
  {
  }

  lemma NothingToDetach(s: State)
    ensures Detach(s, {}, false) == s
  {
    assert Detach(s, {}, false).table == s.table && Detach(s, {}, false).entries == s.entries;
  }

  /** The state after an acquisition of `k`, its build, and the release of the lease. */
  function AfterVisit(s: State, k: Key): State {
    s.(entries := s.entries[k := s.clock],
       table := s.table[s.clock := NewEntry(k, s.clock + 2, 0).(refs := 0, holders := {})], clock := s.clock + 4)
  }

  function Visiting(s: State, k: Key, factory: Factory): State {
    s.(pending := s.pending[k := s.clock], builds := s.builds[s.clock := Build(k, false, factory)])
  }

  function Visited(s: State, k: Key): State {
    s.(entries := s.entries[k := s.clock], table := s.table[s.clock := NewEntry(k, s.clock + 2, 0)], clock := s.clock + 3)
  }

  lemma OneStepFurther(s: State, step: Step, s': State)
    requires Reachable(s) && Enabled(s, step) && Apply(s, step) == s'
    ensures Reachable(s')
  {
    hide Apply, Enabled;
    var maxEntries, idleTTL, steps :|
      ValidConfig(maxEntries, idleTTL) && CanRun(Initial(maxEntries, idleTTL), steps) && Run(Initial(maxEntries, idleTTL), steps) == s;
    assert Front(steps + [step]) == steps;
    assert CanRun(Initial(maxEntries, idleTTL), steps + [step]);
  }

  lemma VisitAcquires(s: State, k: Key)
    requires Reachable(s) && !s.closed && ExpiredKeys(s, 0) == {} && k !in s.entries && k !in s.pending && Slots(s) < s.maxEntries
    ensures Reachable(Visiting(s, k, Running).(clock := s.clock + 1))
  {
    NothingToDetach(s);
    OneStepFurther(s, SAcquire(k, 0, None), Visiting(s, k, Running).(clock := s.clock + 1));
  }

  lemma VisitBuildStep(s: State, k: Key, s1: State)
    requires s1 == Visiting(s, k, Running).(clock := s.clock + 1)
    ensures var step := SFactoryReturns(s.clock, true, false);
            Enabled(s1, step) && Apply(s1, step) == Visiting(s, k, Returned(true, false)).(clock := s.clock + 2)
  {
  }

  lemma VisitBuilds(s: State, k: Key)
    requires Reachable(Visiting(s, k, Running).(clock := s.clock + 1))
    ensures Reachable(Visiting(s, k, Returned(true, false)).(clock := s.clock + 2))
  {
    var s1 := Visiting(s, k, Running).(clock := s.clock + 1);
    VisitBuildStep(s, k, s1);
    OneStepFurther(s1, SFactoryReturns(s.clock, true, false), Visiting(s, k, Returned(true, false)).(clock := s.clock + 2));
  }

  lemma VisitFinishStep(s: State, k: Key, s2: State)
    requires !s.closed && s.clock !in s.builds && k !in s.pending && s2 == Visiting(s, k, Returned(true, false)).(clock := s.clock + 2)
    ensures Enabled(s2, SFinishBuild(s.clock, false, 0)) && Apply(s2, SFinishBuild(s.clock, false, 0)) == Visited(s, k)
  {
    assert s2.builds - {s.clock} == s.builds && s2.pending - {k} == s.pending;
  }

  lemma VisitReleaseStep(s: State, k: Key, s3: State, step: Step)
    requires !s.closed && s3 == Visited(s, k) && step == SRelease(s.clock, s.clock + 2, 0)
    ensures Enabled(s3, step) && Apply(s3, step) == AfterVisit(s, k)
  {
    assert {s.clock + 2} - {s.clock + 2} == {};
  }

  lemma VisitFinishes(s: State, k: Key, s2: State)
    requires !s.closed && s.clock !in s.builds && k !in s.pending && s2 == Visiting(s, k, Returned(true, false)).(clock := s.clock + 2)
    requires Reachable(s2)
    ensures Reachable(Visited(s, k))
  {
    VisitFinishStep(s, k, s2);
    OneStepFurther(s2, SFinishBuild(s.clock, false, 0), Visited(s, k));
  }

  lemma VisitReleases(s: State, k: Key)
    requires !s.closed && Reachable(Visited(s, k))
    ensures Reachable(AfterVisit(s, k))
  {
    VisitReleaseStep(s, k, Visited(s, k), SRelease(s.clock, s.clock + 2, 0));
    OneStepFurther(Visited(s, k), SRelease(s.clock, s.clock + 2, 0), AfterVisit(s, k));
  }

  lemma VisitLeavesIdleEntry(s: State, k: Key)
    requires Reachable(s) && !s.closed && ExpiredKeys(s, 0) == {} && k !in s.entries && k !in s.pending && Slots(s) < s.maxEntries
    requires s.clock !in s.builds
    ensures Reachable(AfterVisit(s, k))
  {
    VisitAcquires(s, k);
    VisitBuilds(s, k);
    VisitFinishes(s, k, Visiting(s, k, Returned(true, false)).(clock := s.clock + 2));
    VisitReleases(s, k);
  }

  lemma InitialReachable(maxEntries: nat, idleTTL: int)
    requires ValidConfig(maxEntries, idleTTL)
    ensures Reachable(Initial(maxEntries, idleTTL))
  {
    assert CanRun(Initial(maxEntries, idleTTL), []) && Run(Initial(maxEntries, idleTTL), []) == Initial(maxEntries, idleTTL);
  }

  lemma TwoIdleEntries(maxEntries: nat, idleTTL: int) returns (s: State)
    requires maxEntries >= 2 && idleTTL >= 1
    ensures Reachable(s) && s.maxEntries == maxEntries && s.idleTTL == idleTTL
    ensures !s.closed && Idle(s, 7) && Idle(s, 8)
  {
    hide Reachable;
    var s0 := Initial(maxEntries, idleTTL);
    InitialReachable(maxEntries, idleTTL);
    VisitLeavesIdleEntry(s0, 7);
    var s1 := AfterVisit(s0, 7);
    assert ExpiredKeys(s1, 0) == {};
    VisitLeavesIdleEntry(s1, 8);
    s := AfterVisit(s1, 8);
  }

  /** Every registry with room for two entries can leak: it can reach a state with a runner that no step
      will ever close. */
  lemma RunnerCanLeak(maxEntries: nat, idleTTL: int) returns (s: State, r: Id)
    requires maxEntries >= 2 && idleTTL >= 1
    ensures Reachable(s) && s.maxEntries == maxEntries && s.idleTTL == idleTTL && r in s.table && s.table[r].abandoned
  {
    hide Reachable, Apply, Inv;
    var s2 := TwoIdleEntries(maxEntries, idleTTL);
    ReachableInv(s2);
    var everything := (k: Key) => true;
    FailedCloseDropsTheRest(s2, everything, 7, 8);
    var s3 := Apply(s2, SInvalidateMatching(everything));
    OneStepFurther(s2, SInvalidateMatching(everything), s3);
    s, r := Apply(s3, SCloseOwed(s2.entries[7], true)), s2.entries[8];
    OneStepFurther(s3, SCloseOwed(s2.entries[7], true), s);
    SameLimits(s2, everything, s3, s2.entries[7]);
  }

  lemma SameLimits(s: State, matching: Key -> bool, s': State, r: Id)
    requires r in s'.table && s'.table[r].owner.Operation?
    ensures var s1, s2 := Apply(s, SInvalidateMatching(matching)), Apply(s', SCloseOwed(r, true));
      s1.maxEntries == s.maxEntries && s1.idleTTL == s.idleTTL && s2.maxEntries == s'.maxEntries && s2.idleTTL == s'.idleTTL
  {
  }
}
