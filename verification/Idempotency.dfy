/**
 The in-process idempotency store: at most one execution per key, and a stored answer for
 duplicates until it expires.

 Every call is one section under the store's mutex.  `claims` holds the claims handed out and not
 yet finished; an entry remembers the claim that made it.  `Complete` and `Fail` find their entry by
 key only, which is why it matters whether a pending entry can expire under its claim.
 */
module Idempotency {

  type Key = string
  type Events = seq<string>

  datatype Phase = Pending | Completed(events: Events) | Failed

  datatype Entry = Entry(phase: Phase, expiresAt: int, claim: nat)

  datatype State = State(ttl: int, maxEntries: nat, closed: bool, entries: map<Key, Entry>, claims: map<nat, Key>, clock: nat)

  datatype Outcome = Closed | Duplicate | Replay(events: Events) | Full | Claimed

  /** What `NewIdempotencyStore` makes, defaults filled in. */
  predicate ValidConfig(ttl: int, maxEntries: nat) { ttl >= 1 && maxEntries >= 1 }

  function Initial(ttl: int, maxEntries: nat): State { State(ttl, maxEntries, false, map[], map[], 0) }

  function Pruned(entries: map<Key, Entry>, now: int): map<Key, Entry> {
    map k | k in entries && now < entries[k].expiresAt :: entries[k]
  }

  /** The entries once expired ones, and a failed one under `k`, are out of the way. */
  function Cleared(entries: map<Key, Entry>, k: Key, now: int): map<Key, Entry> {
    var entries := Pruned(entries, now);
    if k in entries && entries[k].phase.Failed? then entries - {k} else entries
  }

  function BeginOutcome(s: State, k: Key, now: int): Outcome {
    var entries := Cleared(s.entries, k, now);
    if s.closed then Closed
    else if k in entries && entries[k].phase.Pending? then Duplicate
    else if k in entries && entries[k].phase.Completed? then Replay(entries[k].phase.events)
    else if |entries| >= s.maxEntries then Full
    else Claimed
  }

  function AfterBegin(s: State, k: Key, now: int): State {
    if s.closed then s
    else
      var entries := Cleared(s.entries, k, now);
      if BeginOutcome(s, k, now).Claimed? then
        s.(entries := entries[k := Entry(Pending, now + s.ttl, s.clock)], claims := s.claims[s.clock := k])
      else s.(entries := entries)
  }

  /** `Complete` and `Fail`: only a pending entry changes, and a claim acts once. */
  function AfterFinish(s: State, c: nat, phase: Phase, now: int): State
    requires c in s.claims
  {
    var k := s.claims[c];
    var s := s.(claims := s.claims - {c});
    if k in s.entries && s.entries[k].phase.Pending? then
      s.(entries := s.entries[k := s.entries[k].(phase := phase, expiresAt := now + s.ttl)])
    else s
  }

  function AfterClose(s: State): State { s.(closed := true, entries := map[]) }

  class IdempotencyStore {
    const ttl: int
    const maxEntries: nat
    var closed: bool
    var entries: map<Key, Entry>
    var claims: map<nat, Key>
    var clock: nat

    ghost function View(): State
      reads this
    {
      State(ttl, maxEntries, closed, entries, claims, clock)
    }

    constructor (ttl: int, maxEntries: nat)
      ensures View() == Initial(ttl, maxEntries)
    {
      this.ttl, this.maxEntries := ttl, maxEntries;
      closed, entries, claims, clock := false, map[], map[], 0;
    }

    method PruneLocked(now: int)
      modifies this`entries
      ensures entries == Pruned(old(entries), now)
    {
      var todo := entries.Keys;
      while todo != {}
        invariant todo <= entries.Keys && entries.Keys <= old(entries).Keys
        invariant forall k <- entries :: entries[k] == old(entries)[k]
        invariant forall k <- old(entries) :: k !in todo ==> (k in entries <==> now < old(entries)[k].expiresAt)
        decreases todo
      {
        var k :| k in todo;
        if now >= entries[k].expiresAt {
          entries := entries - {k};
        }
        todo := todo - {k};
      }
    }

    method Begin(k: Key, now: int) returns (outcome: Outcome)
      modifies this
      ensures outcome == BeginOutcome(old(View()), k, now)
      ensures View() == AfterBegin(old(View()), k, now).(clock := old(clock) + 1)
    {
      hide Pruned;
      clock := clock + 1;
      if closed {
        return Closed;
      }
      PruneLocked(now);
      if k in entries {
        match entries[k].phase {
          case Pending => return Duplicate;
          case Completed(events) => return Replay(events);
          case Failed => entries := entries - {k};
        }
      }
      if |entries| >= maxEntries {
        return Full;
      }
      entries := entries[k := Entry(Pending, now + ttl, clock - 1)];
      claims := claims[clock - 1 := k];
      return Claimed;
    }

    /** `Complete(events)` of a claim that has not finished yet. */
    method Complete(c: nat, events: Events, now: int)
      requires c in claims
      modifies this
      ensures View() == AfterFinish(old(View()), c, Completed(events), now).(clock := old(clock) + 1)
    {
      var k := claims[c];
      claims := claims - {c};
      if k in entries && entries[k].phase.Pending? {
        entries := entries[k := entries[k].(phase := Completed(events), expiresAt := now + ttl)];
      }
      clock := clock + 1;
    }

    /** `Fail()` of a claim that has not finished yet. */
    method Fail(c: nat, now: int)
      requires c in claims
      modifies this
      ensures View() == AfterFinish(old(View()), c, Failed, now).(clock := old(clock) + 1)
    {
      var k := claims[c];
      claims := claims - {c};
      if k in entries && entries[k].phase.Pending? {
        entries := entries[k := entries[k].(phase := Failed, expiresAt := now + ttl)];
      }
      clock := clock + 1;
    }

    method Close()
      modifies this
      ensures View() == AfterClose(old(View())).(clock := old(clock) + 1)
    {
      closed := true;
      entries := map[];
      clock := clock + 1;
    }
  }

  // ---- Runs ----

  datatype Step =
    | SBegin(k: Key, now: int) | SComplete(c: nat, events: Events, now: int) | SFail(c: nat, now: int) | SClose

  predicate Enabled(s: State, step: Step) {
    step.SComplete? || step.SFail? ==> step.c in s.claims
  }

  function Apply(s: State, step: Step): State
    requires Enabled(s, step)
  {
    var s' := match step
              case SBegin(k, now) => AfterBegin(s, k, now)
              case SComplete(c, events, now) => AfterFinish(s, c, Completed(events), now)
              case SFail(c, now) => AfterFinish(s, c, Failed, now)
              case SClose => AfterClose(s);
    s'.(clock := s.clock + 1)
  }

  predicate CanRun(s: State, steps: seq<Step>)
    decreases |steps|, 0
  {
    steps == [] || (CanRun(s, steps[..|steps| - 1]) && Enabled(Run(s, steps[..|steps| - 1]), steps[|steps| - 1]))
  }

  function Run(s: State, steps: seq<Step>): State
    requires CanRun(s, steps)
    decreases |steps|, 1
  {
    if steps == [] then s else Apply(Run(s, steps[..|steps| - 1]), steps[|steps| - 1])
  }

  // ---- Capacity ----

  ghost predicate Inv(s: State) {
    && |s.entries| <= s.maxEntries
    && (forall c <- s.claims :: c < s.clock)
    && (s.closed ==> s.entries == map[])
  }

  lemma ClearedIsSmaller(entries: map<Key, Entry>, k: Key, now: int)
    ensures Cleared(entries, k, now).Keys <= entries.Keys && |Cleared(entries, k, now)| <= |entries|
    ensures k in entries && k !in Cleared(entries, k, now) ==> |Cleared(entries, k, now)| < |entries|
  {
    var keys := Cleared(entries, k, now).Keys;
    assert entries.Keys == keys + (entries.Keys - keys);
  }

  lemma BeginKeepsInv(s: State, k: Key, now: int)
    requires Inv(s)
    ensures Inv(AfterBegin(s, k, now).(clock := s.clock + 1))
  {
    hide Cleared;
    ClearedIsSmaller(s.entries, k, now);
    var cleared := Cleared(s.entries, k, now);
    var more := cleared[k := Entry(Pending, now + s.ttl, s.clock)];
    assert more.Keys == cleared.Keys + {k};
    assert |more| == |more.Keys| && |cleared| == |cleared.Keys|;
  }

  lemma FinishKeepsInv(s: State, c: nat, phase: Phase, now: int)
    requires Inv(s) && c in s.claims
    ensures Inv(AfterFinish(s, c, phase, now).(clock := s.clock + 1))
  {
    var s' := AfterFinish(s, c, phase, now);
    assert s'.entries.Keys == s.entries.Keys;
    assert |s'.entries| == |s'.entries.Keys| && |s.entries| == |s.entries.Keys|;
  }

  lemma StepKeepsInv(s: State, step: Step)
    requires Inv(s) && Enabled(s, step)
    ensures Inv(Apply(s, step))
  {
    hide AfterBegin, AfterFinish;
    match step
    case SBegin(k, now) => BeginKeepsInv(s, k, now);
    case SComplete(c, events, now) => FinishKeepsInv(s, c, Completed(events), now);
    case SFail(c, now) => FinishKeepsInv(s, c, Failed, now);
    case SClose =>
  }

  lemma {:induction false} RunKeepsInv(s: State, steps: seq<Step>)
    requires Inv(s) && CanRun(s, steps)
    ensures Inv(Run(s, steps))
  {
    if steps != [] {
      RunKeepsInv(s, steps[..|steps| - 1]);
      StepKeepsInv(Run(s, steps[..|steps| - 1]), steps[|steps| - 1]);
    }
  }

  lemma {:induction false} NeverMoreThanMaxEntries(ttl: int, maxEntries: nat, steps: seq<Step>)
    requires CanRun(Initial(ttl, maxEntries), steps)
    ensures |Run(Initial(ttl, maxEntries), steps).entries| <= Run(Initial(ttl, maxEntries), steps).maxEntries
  {
    RunKeepsInv(Initial(ttl, maxEntries), steps);
  }

  // ---- At most one unfinished claim per key ----

  ghost predicate OneClaimPerKey(s: State) {
    forall c, c' | c in s.claims && c' in s.claims && s.claims[c] == s.claims[c'] :: c == c'
  }

  /** Unfinished claims and pending entries match up one to one. */
  ghost predicate Matched(s: State) {
    && (forall c <- s.claims :: s.claims[c] in s.entries && s.entries[s.claims[c]].phase.Pending? && s.entries[s.claims[c]].claim == c)
    && (forall k <- s.entries :: s.entries[k].phase.Pending? ==> s.entries[k].claim in s.claims && s.claims[s.entries[k].claim] == k)
  }

  ghost predicate Exclusive(s: State) {
    OneClaimPerKey(s) && (!s.closed ==> Matched(s))
  }

  /** No pending entry is past its expiry when the step prunes. */
  ghost predicate ClaimsOutlived(s: State, step: Step) {
    step.SBegin? ==> forall k <- s.entries :: s.entries[k].phase.Pending? ==> step.now < s.entries[k].expiresAt
  }

  ghost predicate RunOutlivesClaims(s: State, steps: seq<Step>)
    requires CanRun(s, steps)
  {
    steps != [] ==>
      && RunOutlivesClaims(s, steps[..|steps| - 1])
      && ClaimsOutlived(Run(s, steps[..|steps| - 1]), steps[|steps| - 1])
  }

  lemma ClearedMatched(s: State, k: Key, now: int)
    requires Matched(s) && ClaimsOutlived(s, SBegin(k, now))
    ensures Matched(s.(entries := Cleared(s.entries, k, now)))
  {
  }

  lemma ClaimMatched(s: State, k: Key, expiresAt: int)
    requires Matched(s) && k !in s.entries && s.clock !in s.claims
    ensures Matched(s.(entries := s.entries[k := Entry(Pending, expiresAt, s.clock)], claims := s.claims[s.clock := k]))
  {
  }

  lemma BeginMatched(s: State, k: Key, now: int)
    requires Inv(s) && !s.closed && Matched(s) && ClaimsOutlived(s, SBegin(k, now))
    ensures Matched(AfterBegin(s, k, now))
  {
    ClearedMatched(s, k, now);
    if BeginOutcome(s, k, now).Claimed? {
      ClaimMatched(s.(entries := Cleared(s.entries, k, now)), k, now + s.ttl);
    }
  }

  lemma FinishMatched(s: State, c: nat, phase: Phase, now: int)
    requires !s.closed && Matched(s) && c in s.claims && !phase.Pending?
    ensures Matched(AfterFinish(s, c, phase, now))
  {
  }

  lemma MatchedIsExclusive(s: State)
    requires Matched(s)
    ensures OneClaimPerKey(s)
  {
  }

  lemma StepKeepsExclusive(s: State, step: Step)
    requires Inv(s) && Exclusive(s) && Enabled(s, step) && ClaimsOutlived(s, step)
    ensures Exclusive(Apply(s, step))
  {
    if !s.closed {
      match step
      case SBegin(k, now) => BeginMatched(s, k, now);
      case SComplete(c, events, now) => FinishMatched(s, c, Completed(events), now);
      case SFail(c, now) => FinishMatched(s, c, Failed, now);
      case SClose =>
    }
    if !Apply(s, step).closed {
      MatchedIsExclusive(Apply(s, step));
    }
  }

  lemma {:induction false} RunKeepsExclusive(s: State, steps: seq<Step>)
    requires Inv(s) && Exclusive(s) && CanRun(s, steps) && RunOutlivesClaims(s, steps)
    ensures Exclusive(Run(s, steps))
  {
    if steps != [] {
      var front := steps[..|steps| - 1];
      RunKeepsExclusive(s, front);
      RunKeepsInv(s, front);
      StepKeepsExclusive(Run(s, front), steps[|steps| - 1]);
    }
  }

  /** If every claim finishes before its pending entry is pruned, no key ever has two. */
  lemma OutlivedClaimsAreExclusive(ttl: int, maxEntries: nat, steps: seq<Step>)
    requires CanRun(Initial(ttl, maxEntries), steps) && RunOutlivesClaims(Initial(ttl, maxEntries), steps)
    ensures OneClaimPerKey(Run(Initial(ttl, maxEntries), steps))
  {
    RunKeepsExclusive(Initial(ttl, maxEntries), steps);
  }

  // ---- Exactly when a key is claimed twice ----

  predicate IsClaimed(s: State, k: Key) { exists c <- s.claims :: s.claims[c] == k }

  /** The store still answers for `k` itself: with a duplicate error, or with stored events. */
  predicate Answers(s: State, k: Key, now: int) {
    k in s.entries && now < s.entries[k].expiresAt && !s.entries[k].phase.Failed?
  }

  /** `Begin` finds room once expired entries, and a failed one under `k`, are gone. */
  predicate HasRoom(s: State, k: Key, now: int) { |Cleared(s.entries, k, now)| < s.maxEntries }

  /** A `Begin` that finds its key claimed, but nothing left in the store that says so. */
  predicate Reclaims(s: State, step: Step) {
    step.SBegin? && !s.closed && IsClaimed(s, step.k) && !Answers(s, step.k, step.now) && HasRoom(s, step.k, step.now)
  }

  lemma ClaimsWhenUnanswered(s: State, k: Key, now: int)
    ensures BeginOutcome(s, k, now).Claimed? <==> !s.closed && !Answers(s, k, now) && HasRoom(s, k, now)
  {
  }

  /** Whatever the state, a step leaves a key with two unfinished claims exactly when it is such a `Begin`. */
  lemma SecondClaimExactly(s: State, step: Step)
    requires Inv(s) && Enabled(s, step) && OneClaimPerKey(s)
    ensures OneClaimPerKey(Apply(s, step)) <==> !Reclaims(s, step)
  {
    hide Cleared;
    var s' := Apply(s, step);
    if step.SBegin? {
      ClaimsWhenUnanswered(s, step.k, step.now);
      if Reclaims(s, step) {
        var c :| c in s.claims && s.claims[c] == step.k;
        assert s'.claims[s.clock] == step.k == s'.claims[c];
      }
    }
  }

  /** The store hands out one claim per key at every point of a run. */
  ghost predicate OneClaimThroughout(s: State, steps: seq<Step>)
    requires CanRun(s, steps)
  {
    OneClaimPerKey(Run(s, steps)) && (steps != [] ==> OneClaimThroughout(s, steps[..|steps| - 1]))
  }

  ghost predicate NeverReclaims(s: State, steps: seq<Step>)
    requires CanRun(s, steps)
  {
    steps != [] ==>
      NeverReclaims(s, steps[..|steps| - 1]) && !Reclaims(Run(s, steps[..|steps| - 1]), steps[|steps| - 1])
  }

  /** A run never leaves a key with two unfinished claims if and only if none of its `Begin`s finds its
      key claimed and, with room for an entry, unanswered: absent, expired or failed. */
  lemma {:induction false} AtMostOneClaim(ttl: int, maxEntries: nat, steps: seq<Step>)
    requires CanRun(Initial(ttl, maxEntries), steps)
    ensures OneClaimThroughout(Initial(ttl, maxEntries), steps) <==> NeverReclaims(Initial(ttl, maxEntries), steps)
  {
    hide Reclaims, Inv, Apply, Enabled;
    var s := Initial(ttl, maxEntries);
    if steps == [] {
      assert s.claims == map[];
    } else {
      var front := steps[..|steps| - 1];
      AtMostOneClaim(ttl, maxEntries, front);
      StartsEmpty(ttl, maxEntries);
      RunKeepsInv(s, front);
      if OneClaimThroughout(s, front) {
        SecondClaimExactly(Run(s, front), steps[|steps| - 1]);
      }
    }
  }

  lemma StartsEmpty(ttl: int, maxEntries: nat)
    ensures Inv(Initial(ttl, maxEntries))
  {
  }

  // With ordered clock samples the condition is a matter of time.

  /** Clock samples of `Begin` never go back. */
  ghost predicate Ordered(steps: seq<Step>) {
    forall i, j | 0 <= i < j < |steps| && steps[i].SBegin? && steps[j].SBegin? :: steps[i].now <= steps[j].now
  }

  /** Some `Begin` has seen the clock at `time` or later. */
  ghost predicate Reached(steps: seq<Step>, time: int) { exists i | 0 <= i < |steps| :: steps[i].SBegin? && steps[i].now >= time }

  /** Claim `c` was handed out by step `c`, and its pending entry is there unless its time has been reached. */
  ghost predicate Traced(s: State, steps: seq<Step>, c: nat) {
    && c in s.claims && c < |steps| && steps[c].SBegin? && steps[c].k == s.claims[c]
    && (if s.claims[c] in s.entries then s.entries[s.claims[c]] == Entry(Pending, steps[c].now + s.ttl, c)
        else Reached(steps, steps[c].now + s.ttl))
  }

  lemma ReachedLater(steps: seq<Step>, step: Step, time: int)
    ensures Reached(steps, time) ==> Reached(steps + [step], time)
    ensures step.SBegin? && step.now >= time ==> Reached(steps + [step], time)
  {
    var more := steps + [step];
    if Reached(steps, time) {
      var i :| 0 <= i < |steps| && steps[i].SBegin? && steps[i].now >= time;
      assert more[i] == steps[i];
    }
    assert more[|steps|] == step;
  }

  lemma BeginKeepsTrace(s: State, steps: seq<Step>, step: Step, c: nat)
    requires Inv(s) && step.SBegin? && !s.closed && c in s.claims && Traced(s, steps, c)
    requires OneClaimPerKey(Apply(s, step))
    ensures Traced(Apply(s, step), steps + [step], c)
  {
    hide HasRoom;
    var k, s' := s.claims[c], Apply(s, step);
    ReachedLater(steps, step, steps[c].now + s.ttl);
    assert (steps + [step])[c] == steps[c];
    if BeginOutcome(s, step.k, step.now).Claimed? {
      assert s'.claims[c] == k && s'.claims[s.clock] == step.k;
    }
    assert k in s'.entries ==> k in s.entries && s'.entries[k] == s.entries[k];
  }

  lemma FinishKeepsTrace(s: State, steps: seq<Step>, step: Step, c: nat)
    requires Enabled(s, step) && (step.SComplete? || step.SFail?) && OneClaimPerKey(s)
    requires c in s.claims && c != step.c && Traced(s, steps, c)
    ensures Traced(Apply(s, step), steps + [step], c)
  {
    ReachedLater(steps, step, steps[c].now + s.ttl);
    assert (steps + [step])[c] == steps[c];
    assert s.claims[step.c] != s.claims[c];
  }

  /** One step keeps track of an unfinished claim, as long as its key is not claimed again. */
  lemma StepKeepsTrace(s: State, steps: seq<Step>, step: Step, c: nat)
    requires Inv(s) && s.clock == |steps| && Enabled(s, step) && !s.closed && !Apply(s, step).closed
    requires OneClaimPerKey(s) && OneClaimPerKey(Apply(s, step))
    requires c in Apply(s, step).claims && (c in s.claims ==> Traced(s, steps, c))
    ensures Traced(Apply(s, step), steps + [step], c)
  {
    if c !in s.claims {
      assert c == s.clock && (steps + [step])[c] == step;
    } else if step.SBegin? {
      BeginKeepsTrace(s, steps, step, c);
    } else {
      FinishKeepsTrace(s, steps, step, c);
    }
  }

  lemma {:induction false} RunKeepsTrace(ttl: int, maxEntries: nat, steps: seq<Step>, c: nat)
    requires CanRun(Initial(ttl, maxEntries), steps) && OneClaimThroughout(Initial(ttl, maxEntries), steps)
    requires !Run(Initial(ttl, maxEntries), steps).closed && c in Run(Initial(ttl, maxEntries), steps).claims
    ensures Traced(Run(Initial(ttl, maxEntries), steps), steps, c)
  {
    hide Traced, Inv, Apply, Enabled;
    var s0 := Initial(ttl, maxEntries);
    if steps != [] {
      var front, step := steps[..|steps| - 1], steps[|steps| - 1];
      var s := Run(s0, front);
      StartsEmpty(ttl, maxEntries);
      RunKeepsInv(s0, front);
      ClockCounts(s0, front);
      StaysClosed(s, step);
      if c in s.claims {
        RunKeepsTrace(ttl, maxEntries, front, c);
      }
      StepKeepsTrace(s, front, step, c);
      assert steps == front + [step];
    }
  }

  lemma StepTicks(s: State, step: Step)
    requires Enabled(s, step)
    ensures Apply(s, step).clock == s.clock + 1 && Apply(s, step).ttl == s.ttl && Apply(s, step).maxEntries == s.maxEntries
  {
  }

  lemma {:induction false} ClockCounts(s: State, steps: seq<Step>)
    requires CanRun(s, steps)
    ensures Run(s, steps).clock == s.clock + |steps| && Run(s, steps).ttl == s.ttl && Run(s, steps).maxEntries == s.maxEntries
  {
    hide Apply, Enabled;
    if steps != [] {
      var front := steps[..|steps| - 1];
      ClockCounts(s, front);
      StepTicks(Run(s, front), steps[|steps| - 1]);
    }
  }

  lemma StaysClosed(s: State, step: Step)
    requires Enabled(s, step)
    ensures s.closed ==> Apply(s, step).closed
  {
  }

  /** With ordered clock samples, a `Begin` of a claimed key hands out a second claim exactly when the
      time to live has passed since the `Begin` that took the claim, and there is room for an entry. */
  lemma SecondClaimByTheClock(ttl: int, maxEntries: nat, steps: seq<Step>, c: nat, now: int)
    requires CanRun(Initial(ttl, maxEntries), steps) && OneClaimThroughout(Initial(ttl, maxEntries), steps)
    requires !Run(Initial(ttl, maxEntries), steps).closed && c in Run(Initial(ttl, maxEntries), steps).claims
    requires Ordered(steps + [SBegin(Run(Initial(ttl, maxEntries), steps).claims[c], now)])
    ensures c < |steps| && steps[c].SBegin? && steps[c].k == Run(Initial(ttl, maxEntries), steps).claims[c]
    ensures var s := Run(Initial(ttl, maxEntries), steps);
            OneClaimPerKey(Apply(s, SBegin(steps[c].k, now))) <==>
              now < steps[c].now + ttl || !HasRoom(s, steps[c].k, now)
  {
    hide Run, CanRun, Inv, Apply, HasRoom, Ordered;
    var s0 := Initial(ttl, maxEntries);
    var s := Run(s0, steps);
    StartsEmpty(ttl, maxEntries);
    RunKeepsInv(s0, steps);
    ClockCounts(s0, steps);
    RunKeepsTrace(ttl, maxEntries, steps, c);
    SecondClaimExactly(s, SBegin(steps[c].k, now));
    if Reached(steps, steps[c].now + ttl) {
      NowIsLatest(steps, SBegin(steps[c].k, now), steps[c].now + ttl);
    }
  }

  lemma NowIsLatest(steps: seq<Step>, step: Step, time: int)
    requires step.SBegin? && Ordered(steps + [step]) && Reached(steps, time)
    ensures step.now >= time
  {
    var more := steps + [step];
    var i :| 0 <= i < |steps| && steps[i].SBegin? && steps[i].now >= time;
    assert more[i] == steps[i] && more[|steps|] == step;
  }

  // ---- What Begin answers ----

  /** The other keys with an entry that has not expired. */
  function OtherKeys(s: State, k: Key, now: int): set<Key> {
    set j | j in s.entries && j != k && now < s.entries[j].expiresAt
  }

  /** Every answer, read off the entries: a live pending entry is a duplicate, a live completed one gives back its
      events, and otherwise the key is claimed if the other live entries leave room for it. */
  lemma BeginAnswersExactly(s: State, k: Key, now: int)
    ensures BeginOutcome(s, k, now) ==
      if s.closed then Closed
      else if Answers(s, k, now) then
        match s.entries[k].phase case Completed(events) => Replay(events) case _ => Duplicate
      else if |OtherKeys(s, k, now)| >= s.maxEntries then Full
      else Claimed
  {
    if !Answers(s, k, now) {
      assert Cleared(s.entries, k, now).Keys == OtherKeys(s, k, now);
    }
  }

  /** The step does not finish a claim of `k`. */
  predicate Spares(s: State, step: Step, k: Key) {
    (step.SComplete? || step.SFail?) && step.c in s.claims ==> s.claims[step.c] != k
  }

  ghost predicate RunSpares(s: State, steps: seq<Step>, k: Key)
    requires CanRun(s, steps)
    decreases |steps|
  {
    steps == [] || (RunSpares(s, steps[..|steps| - 1], k) && Spares(Run(s, steps[..|steps| - 1]), steps[|steps| - 1], k))
  }

  lemma {:induction false} PendingStays(s: State, steps: seq<Step>, k: Key)
    requires CanRun(s, steps) && !s.closed && k in s.entries && s.entries[k].phase.Pending?
    requires RunSpares(s, steps, k) && forall step <- steps :: Before(step, s.entries[k].expiresAt)
    ensures !Run(s, steps).closed && k in Run(s, steps).entries && Run(s, steps).entries[k] == s.entries[k]
  {
    if steps != [] {
      PendingStays(s, steps[..|steps| - 1], k);
      assert Before(steps[|steps| - 1], s.entries[k].expiresAt);
    }
  }

  /** From a claim until it is finished or expires every further `Begin` of the key is a duplicate, whatever else
      happens in between. */
  lemma ClaimedIsDuplicate(s: State, k: Key, at: int, steps: seq<Step>, now: int)
    requires BeginOutcome(s, k, at) == Claimed && CanRun(Apply(s, SBegin(k, at)), steps)
    requires RunSpares(Apply(s, SBegin(k, at)), steps, k)
    requires (forall step <- steps :: Before(step, at + s.ttl)) && now < at + s.ttl
    ensures BeginOutcome(Run(Apply(s, SBegin(k, at)), steps), k, now) == Duplicate
  {
    PendingStays(Apply(s, SBegin(k, at)), steps, k);
  }

  // ---- Replays ----

  /** The step neither closes the store nor prunes what lives until `expiry`. */
  predicate Before(step: Step, expiry: int) {
    match step
    case SBegin(_, now) => now < expiry
    case SClose => false
    case _ => true
  }

  lemma {:induction false} CompletedStays(s: State, steps: seq<Step>, k: Key)
    requires CanRun(s, steps) && !s.closed && k in s.entries && s.entries[k].phase.Completed?
    requires forall step <- steps :: Before(step, s.entries[k].expiresAt)
    ensures !Run(s, steps).closed && k in Run(s, steps).entries && Run(s, steps).entries[k] == s.entries[k]
  {
    if steps != [] {
      CompletedStays(s, steps[..|steps| - 1], k);
      assert Before(steps[|steps| - 1], s.entries[k].expiresAt);
    }
  }

  /** Between a `Complete` that finds its entry pending and the expiry of that entry every `Begin` returns those very events
      and no claim, whatever else happens in between. */
  lemma CompleteThenReplay(s: State, c: nat, events: Events, at: int, steps: seq<Step>, now: int)
    requires !s.closed && c in s.claims && s.claims[c] in s.entries && s.entries[s.claims[c]].phase.Pending?
    requires CanRun(Apply(s, SComplete(c, events, at)), steps)
    requires forall step <- steps :: Before(step, at + s.ttl)
    requires now < at + s.ttl
    ensures var s' := Run(Apply(s, SComplete(c, events, at)), steps);
            && BeginOutcome(s', s.claims[c], now) == Replay(events)
            && Apply(s', SBegin(s.claims[c], now)).claims == s'.claims
  {
    CompletedStays(Apply(s, SComplete(c, events, at)), steps, s.claims[c]);
  }

  /** A failed key can be claimed again at once. */
  lemma FailedCanBeReclaimed(s: State, c: nat, at: int, now: int)
    requires Inv(s) && !s.closed && c in s.claims && s.claims[c] in s.entries && s.entries[s.claims[c]].phase.Pending?
    ensures BeginOutcome(Apply(s, SFail(c, at)), s.claims[c], now) == Claimed
  {
    var s' := Apply(s, SFail(c, at));
    StepKeepsInv(s, SFail(c, at));
    ClearedIsSmaller(s'.entries, s.claims[c], now);
  }

  function TwoClaims(ttl: int, maxEntries: nat, k: Key): State {
    State(ttl, maxEntries, false, map[k := Entry(Pending, ttl + ttl, 1)], map[0 := k, 1 := k], 2)
  }

  /** Why the proviso matters: at the expiry of a pending entry its key is claimed again ... */
  lemma ExpiryAllowsTwoClaims(ttl: int, maxEntries: nat, k: Key)
    requires ValidConfig(ttl, maxEntries)
    ensures Apply(Apply(Initial(ttl, maxEntries), SBegin(k, 0)), SBegin(k, ttl)) == TwoClaims(ttl, maxEntries, k)
    ensures !OneClaimPerKey(TwoClaims(ttl, maxEntries, k))
  {
    var s1 := Apply(Initial(ttl, maxEntries), SBegin(k, 0));
    assert s1.entries == map[k := Entry(Pending, ttl, 0)] && s1.claims == map[0 := k];
    assert Cleared(s1.entries, k, ttl) == map[];
    var s2 := TwoClaims(ttl, maxEntries, k);
    assert s2.claims[0] == s2.claims[1];
  }

  /** ... and then the stale claim decides what the key answers. */
  lemma StaleClaimAnswersForNewer(ttl: int, maxEntries: nat, k: Key, stale: Events, newer: Events)
    requires ValidConfig(ttl, maxEntries)
    ensures var s3 := Apply(TwoClaims(ttl, maxEntries, k), SComplete(0, stale, ttl));
            && Enabled(s3, SComplete(1, newer, ttl))
            && BeginOutcome(Apply(s3, SComplete(1, newer, ttl)), k, ttl) == Replay(stale)
  {
    var s3 := Apply(TwoClaims(ttl, maxEntries, k), SComplete(0, stale, ttl));
    assert s3.entries == map[k := Entry(Completed(stale), ttl + ttl, 1)] && 1 in s3.claims && s3.claims[1] == k;
  }

  function TwoKeys(ttl: int, maxEntries: nat, a: Key, b: Key): State {
    State(ttl, maxEntries, false, map[b := Entry(Pending, ttl + ttl, 1)], map[0 := a, 1 := b], 2)
  }

  lemma OtherKeyPrunes(ttl: int, maxEntries: nat, a: Key, b: Key)
    requires ValidConfig(ttl, maxEntries) && a != b
    ensures Apply(Apply(Initial(ttl, maxEntries), SBegin(a, 0)), SBegin(b, ttl)) == TwoKeys(ttl, maxEntries, a, b)
  {
    var s1 := Apply(Initial(ttl, maxEntries), SBegin(a, 0));
    assert s1.entries == map[a := Entry(Pending, ttl, 0)] && s1.claims == map[0 := a];
    assert Cleared(s1.entries, b, ttl) == map[];
  }

  /** A `Begin` of another key is enough: it prunes the expired entry, and then the key is claimed again
      without an entry of its own that could expire. */
  lemma OtherKeyAllowsTwoClaims(ttl: int, maxEntries: nat, a: Key, b: Key)
    requires ValidConfig(ttl, maxEntries) && maxEntries >= 2 && a != b
    ensures var s := Apply(Apply(Initial(ttl, maxEntries), SBegin(a, 0)), SBegin(b, ttl));
            OneClaimPerKey(s) && a !in s.entries && !OneClaimPerKey(Apply(s, SBegin(a, ttl)))
  {
    OtherKeyPrunes(ttl, maxEntries, a, b);
    var s := TwoKeys(ttl, maxEntries, a, b);
    assert Cleared(s.entries, a, ttl) == s.entries && |s.entries| == 1;
    var s' := Apply(s, SBegin(a, ttl));
    assert s'.claims[0] == a == s'.claims[2];
  }
}
