/** The registry object itself: its mutex sections with the loops of the program, each proved to be
    the corresponding section of the step machine. */
module RegistryObject {
  import opened Options
  import opened Registry

  /** `table` is that of `s` after `gone` has been taken out of the cache. */
  ghost predicate Swept(s: State, gone: set<Key>, failFast: bool, entries: map<Key, Id>, table: map<Id, Entry>) {
    && entries == s.entries - gone
    && table.Keys == s.table.Keys
    && forall r <- s.table :: table[r] ==
         if Cached(s.entries, s.table, r) && s.table[r].key in gone then Detached(s.table[r], Operation(s.clock, failFast)) else s.table[r]
  }

  lemma SweptIsDetached(s: State, gone: set<Key>, failFast: bool, s': State)
    requires Swept(s, gone, failFast, s'.entries, s'.table) && s' == s.(entries := s'.entries, table := s'.table)
    ensures s' == Detach(s, gone, failFast)
  {
    assert s'.table == Detach(s, gone, failFast).table;
  }

  lemma SweepOne(s: State, gone: set<Key>, failFast: bool, entries: map<Key, Id>, table: map<Id, Entry>, k: Key)
    requires CacheIndexed(s.entries, s.table) && Swept(s, gone, failFast, entries, table) && k in s.entries && k !in gone
    ensures k in entries && entries[k] in table && table[entries[k]] == s.table[s.entries[k]]
    ensures Swept(s, gone + {k}, failFast, entries - {k}, table[entries[k] := Detached(table[entries[k]], Operation(s.clock, failFast))])
  {
    hide Detached;
    var r := s.entries[k];
    var table' := table[r := Detached(table[r], Operation(s.clock, failFast))];
    assert entries - {k} == s.entries - (gone + {k});
    assert Cached(s.entries, s.table, r) && s.table[r].key == k;
    forall x <- s.table
      ensures table'[x] == if Cached(s.entries, s.table, x) && s.table[x].key in gone + {k}
                           then Detached(s.table[x], Operation(s.clock, failFast)) else s.table[x]
    {
      assert Cached(s.entries, s.table, x) && s.table[x].key == k ==> x == r;
    }
  }

  lemma OneLeftLess<T>(all: set<T>, todo: set<T>, x: T)
    requires x in todo
    ensures all - (todo - {x}) == (all - todo) + if x in all then {x} else {}
  {
  }

  class RunnerRegistry {
    const maxEntries: nat
    const idleTTL: int
    var closed: bool
    var entries: map<Key, Id>
    var pending: map<Key, Id>
    var table: map<Id, Entry>
    var builds: map<Id, Build>
    var panicked: bool
    var clock: nat

    ghost function View(): State
      reads this
    {
      State(maxEntries, idleTTL, closed, entries, pending, table, builds, panicked, clock)
    }

    constructor (maxEntries: nat, idleTTL: int)
      ensures View() == Initial(maxEntries, idleTTL)
    {
      this.maxEntries, this.idleTTL := maxEntries, idleTTL;
      closed, panicked, clock := false, false, 0;
      entries, pending, table, builds := map[], map[], map[], map[];
    }

    /** `delete(registry.entries, key)` with the marking of its entry, as part of a sweep over `s`. */
    method Drop(k: Key, failFast: bool, ghost s: State, ghost gone: set<Key>)
      requires CacheIndexed(s.entries, s.table) && Swept(s, gone, failFast, entries, table)
      requires k in s.entries && k !in gone && s.clock == clock
      modifies this`entries, this`table
      ensures Swept(s, gone + {k}, failFast, entries, table)
    {
      SweepOne(s, gone, failFast, entries, table, k);
      var r := entries[k];
      entries := entries - {k};
      table := table[r := Detached(table[r], Operation(clock, failFast))];
    }

    /** One turn of the loop of `evictIdleLocked`; `all` holds the keys of expired entries. */
    method DropIfExpired(k: Key, now: int, ghost s: State, ghost gone: set<Key>, ghost all: set<Key>)
      requires CacheIndexed(s.entries, s.table) && Swept(s, gone, false, entries, table)
      requires k in s.entries && k !in gone && s.clock == clock && s.idleTTL == idleTTL
      requires k in all <==> Expired(s, k, now)
      modifies this`entries, this`table
      ensures Swept(s, gone + if k in all then {k} else {}, false, entries, table)
    {
      SweepOne(s, gone, false, entries, table, k);
      var e := table[entries[k]];
      if e.refs == 0 && idleTTL > 0 && now >= e.lastUsed + idleTTL {
        Drop(k, false, s, gone);
      } else {
        assert gone + {} == gone;
      }
    }

    method EvictIdleLocked(now: int)
      requires CacheIndexed(entries, table)
      modifies this`entries, this`table
      ensures View() == AfterIdleEviction(old(View()), now)
    {
      ghost var s := View();
      ghost var all := ExpiredKeys(s, now);
      ghost var gone: set<Key> := {};
      var todo := entries.Keys;
      while todo != {}
        invariant todo <= s.entries.Keys && gone == all - todo
        invariant Swept(s, gone, false, entries, table)
        decreases todo
      {
        var k :| k in todo;
        OneLeftLess(all, todo, k);
        DropIfExpired(k, now, s, gone, all);
        gone := gone + if k in all then {k} else {};
        todo := todo - {k};
      }
      assert gone == all;
      SweptIsDetached(s, all, false, View());
    }
  
    /** The least recently used entry nobody borrows. */
    method FindVictim() returns (oldest: Option<Key>)
      requires CacheIndexed(entries, table)
      ensures LegalVictim(View(), oldest)
    {
      oldest := None;
      var todo := entries.Keys;
      while todo != {}
        invariant todo <= entries.Keys
        invariant oldest.Some? ==> Idle(View(), oldest.value)
        invariant forall k <- entries :: k !in todo && Idle(View(), k) ==>
                    oldest.Some? && table[entries[oldest.value]].lastUsed <= table[entries[k]].lastUsed
        decreases todo
      {
        var k :| k in todo;
        if table[entries[k]].refs == 0 {
          if oldest == None || table[entries[k]].lastUsed < table[entries[oldest.value]].lastUsed {
            oldest := Some(k);
          }
        }
        todo := todo - {k};
      }
    }

    method EvictCapacityLocked() returns (victim: Option<Key>)
      requires CacheIndexed(entries, table)
      modifies this`entries, this`table
      ensures LegalVictim(old(View()), victim)
      ensures View() == if victim.Some? then Detach(old(View()), {victim.value}, false) else old(View())
    {
      ghost var s := View();
      victim := FindVictim();
      if victim.Some? {
        Drop(victim.value, false, s, {});
        assert {} + {victim.value} == {victim.value};
        SweptIsDetached(s, {victim.value}, false, View());
      }
    }

    method MakeRoom(now: int) returns (victim: Option<Key>)
      requires CacheIndexed(entries, table)
      modifies this`entries, this`table
      ensures var s := AfterIdleEviction(old(View()), now); Slots(s) >= maxEntries ==> LegalVictim(s, victim)
      ensures View() == AfterEviction(old(View()), now, victim)
    {
      victim := None;
      DetachIndexed(View(), ExpiredKeys(View(), now), false);
      EvictIdleLocked(now);
      if |entries| + |pending| >= maxEntries {
        victim := EvictCapacityLocked();
      }
    }

    method StartBuild(k: Key)
      modifies this`pending, this`builds
      ensures View() == Register(old(View()), k)
    {
      pending := pending[k := clock];
      builds := builds[clock := Build(k, false, Running)];
    }

    /** The part of `acquireOnce` for a key that is neither cached nor being built. */
    method AcquireNew(k: Key, now: int) returns (outcome: Outcome, victim: Option<Key>)
      requires CacheIndexed(entries, table) && !closed && !Usable(View(), k) && k !in pending
      modifies this`entries, this`table, this`pending, this`builds
      ensures VictimFits(old(View()), k, now, victim)
      ensures outcome == AcquireOutcome(old(View()), k, now, victim)
      ensures View() == Acquire(old(View()), k, now, victim)
    {
      victim := MakeRoom(now);
      if |entries| + |pending| >= maxEntries {
        outcome := Full;
      } else {
        StartBuild(k);
        outcome := Building;
      }
    }

    method AcquireOnce(k: Key, now: int) returns (outcome: Outcome, victim: Option<Key>)
      requires CacheIndexed(entries, table)
      modifies this
      ensures VictimFits(old(View()), k, now, victim)
      ensures outcome == AcquireOutcome(old(View()), k, now, victim)
      ensures View() == Acquire(old(View()), k, now, victim).(clock := old(clock) + 1)
    {
      hide AfterEviction, AfterIdleEviction, LegalVictim, Slots, Retained, Register;
      victim := None;
      if closed {
        outcome := Closed;
      } else if k in entries && !table[entries[k]].invalidated {
        var r := entries[k];
        table := table[r := Retained(table[r], clock, now)];
        outcome := Leased;
      } else if k in pending {
        outcome := Wait;
      } else {
        outcome, victim := AcquireNew(k, now);
      }
      clock := clock + 1;
    }

    method FinishBuild(b: Id, cancelled: bool, now: int)
      requires b in builds && builds[b].factory.Returned?
      modifies this
      ensures View() == Registry.FinishBuild(old(View()), b, cancelled, now).(clock := old(clock) + 1)
    {
      var build := builds[b];
      pending := pending - {build.key};
      builds := builds - {b};
      if build.factory.some && !build.factory.failed && !cancelled && !closed && !build.invalidated {
        table := table[b := NewEntry(build.key, clock, now)];
        entries := entries[build.key := b];
      } else if build.factory.some {
        table := table[b := RejectedEntry(build.key, clock)];
      }
      clock := clock + 1;
    }

    /** The loop over the pending builds in `InvalidateMatching` and `Close`. */
    method MarkPending(matching: Key -> bool)
      modifies this`builds
      ensures builds == MarkBuilds(old(builds), matching)
    {
      ghost var before := builds;
      var todo := builds.Keys;
      while todo != {}
        invariant todo <= before.Keys && builds.Keys == before.Keys
        invariant forall b <- before :: builds[b] ==
                    if b !in todo && matching(before[b].key) then before[b].(invalidated := true) else before[b]
        decreases todo
      {
        var b :| b in todo;
        if matching(builds[b].key) {
          builds := builds[b := builds[b].(invalidated := true)];
        }
        todo := todo - {b};
      }
    }

    method InvalidateMatching(matching: Key -> bool)
      requires CacheIndexed(entries, table)
      modifies this
      ensures View() == Registry.InvalidateMatching(old(View()), matching).(clock := old(clock) + 1)
    {
      if closed {
        clock := clock + 1;
        return;
      }
      MarkPending(matching);
      DropMatching(matching, true);
      clock := clock + 1;
    }

    method MarkOne(k: Key)
      requires BuildsIndexed(pending, builds)
      modifies this`builds
      ensures builds == MarkBuilds(old(builds), x => x == k)
    {
      if k in pending {
        builds := builds[pending[k] := builds[pending[k]].(invalidated := true)];
      }
    }

    /** `Invalidate` for one key is an invalidation that matches just that key. */
    method Invalidate(k: Key)
      requires CacheIndexed(entries, table) && BuildsIndexed(pending, builds)
      modifies this
      ensures View() == Registry.InvalidateMatching(old(View()), x => x == k).(clock := old(clock) + 1)
    {
      if !closed {
        ghost var before := View();
        MarkOne(k);
        DropOne(k);
        assert MatchingKeys(before, x => x == k) == before.entries.Keys * {k};
      }
      clock := clock + 1;
    }

    method DropOne(k: Key)
      requires CacheIndexed(entries, table)
      modifies this`entries, this`table
      ensures View() == Detach(old(View()), old(entries).Keys * {k}, true)
    {
      ghost var s := View();
      if k in entries {
        Drop(k, true, s, {});
        assert s.entries.Keys * {k} == {} + {k};
        SweptIsDetached(s, {} + {k}, true, View());
      } else {
        assert s.entries.Keys * {k} == {};
        SweptIsDetached(s, {}, true, View());
      }
    }

    method DropIf(k: Key, drop: bool, failFast: bool, ghost s: State, ghost gone: set<Key>)
      requires CacheIndexed(s.entries, s.table) && Swept(s, gone, failFast, entries, table)
      requires k in s.entries && k !in gone && s.clock == clock
      modifies this`entries, this`table
      ensures Swept(s, gone + if drop then {k} else {}, failFast, entries, table)
    {
      if drop {
        Drop(k, failFast, s, gone);
      } else {
        assert gone + {} == gone;
      }
    }

    /** The loop over the entries in `InvalidateMatching` and `Close`. */
    method DropMatching(matching: Key -> bool, failFast: bool)
      requires CacheIndexed(entries, table)
      modifies this`entries, this`table
      ensures View() == Detach(old(View()), MatchingKeys(old(View()), matching), failFast)
    {
      ghost var s := View();
      ghost var all := MatchingKeys(s, matching);
      ghost var gone: set<Key> := {};
      var todo := entries.Keys;
      while todo != {}
        invariant todo <= s.entries.Keys && gone == all - todo
        invariant Swept(s, gone, failFast, entries, table)
        decreases todo
      {
        var k :| k in todo;
        OneLeftLess(all, todo, k);
        DropIf(k, matching(k), failFast, s, gone);
        gone := gone + if matching(k) then {k} else {};
        todo := todo - {k};
      }
      assert gone == all;
      SweptIsDetached(s, all, failFast, View());
    }

    /** Note which of the entries cached in `before` the closing thread has to wait for. */
    method AwaitBorrowed(ghost before: State, borrowed: set<Id>)
      requires forall r <- table :: r in borrowed <==> Cached(before.entries, before.table, r) && table[r].refs > 0
      modifies this`table
      ensures View() == Await(before, old(View()))
    {
      table := map r | r in table :: if r in borrowed then table[r].(waited := true) else table[r];
    }

    method Borrowed() returns (borrowed: set<Id>)
      ensures forall r <- table :: r in borrowed <==> Cached(entries, table, r) && table[r].refs > 0
    {
      borrowed := set r | r in table && table[r].key in entries && entries[table[r].key] == r && table[r].refs > 0;
    }

    method Close()
      requires CacheIndexed(entries, table)
      modifies this
      ensures View() == CloseRegistry(old(View())).(clock := old(clock) + 1)
    {
      if !closed {
        ghost var before := View();
        var borrowed := Borrowed();
        MarkPending(k => true);
        DropMatching(k => true, false);
        assert MatchingKeys(before, k => true) == before.entries.Keys;
        AwaitBorrowed(before, borrowed);
        closed := true;
      }
      clock := clock + 1;
    }

    /** What `release` does to its entry, and whether it closes `zero` a second time. */
    static method ReleaseEntry(e: Entry, l: Id, closing: bool, op: Id, now: int) returns (released: Entry, panics: bool)
      ensures released == Released(e, l, closing, op, now)
      ensures panics == (e.refs == 1 && closing && e.zeroClosed)
    {
      released, panics := e.(holders := e.holders - {l}), false;
      if released.refs < 1 {
        return;
      }
      released := released.(refs := released.refs - 1);
      if released.refs == 0 {
        released := released.(lastUsed := now);
        if closing {
          panics := released.zeroClosed;
          released := released.(zeroClosed := true, owner := Operation(op, false));
        }
      }
    }

    method Release(r: Id, l: Id, now: int)
      requires r in table && l in table[r].holders
      modifies this
      ensures View() == Registry.Release(old(View()), r, l, now).(clock := old(clock) + 1)
    {
      hide Released;
      var e, panics := ReleaseEntry(table[r], l, table[r].invalidated || closed, clock, now);
      table := table[r := e];
      panicked := panicked || panics;
      clock := clock + 1;
    }
  }
}
