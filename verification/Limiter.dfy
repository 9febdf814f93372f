/**
 The per-tenant admission limiter: a fixed request window and a bound on leases in flight.

 Every call is one section under the limiter's mutex.  A caller samples the clock before it gets
 the mutex, so the samples need not be ordered unless a statement says so.  Besides the counters of
 the program an entry keeps the leases not yet released and the admissions so far.
 */
module Limiter {

  type Tenant = string

  datatype Admission = Admission(time: int, window: int)

  datatype Entry = Entry(windowStart: int, requests: int, active: int, holders: set<nat>, log: seq<Admission>)

  datatype Config = Config(maxConcurrent: int, maxRequests: int, window: int)

  /** What `NewTenantLimiter` accepts, defaults filled in. */
  predicate ValidConfig(c: Config) { c.maxConcurrent >= 1 && c.maxRequests >= 1 && c.window >= 1 }

  datatype State = State(config: Config, closed: bool, entries: map<Tenant, Entry>, clock: nat)

  datatype Outcome = Closed | RateLimited | Admitted

  function Initial(c: Config): State { State(c, false, map[], 0) }

  /** The entry an acquisition looks at: a new one, or the stored one with its window renewed if
      it has run out.  Leases in flight survive the renewal. */
  function Current(s: State, t: Tenant, now: int): Entry {
    if t !in s.entries then Entry(now, 0, 0, {}, [])
    else if now >= s.entries[t].windowStart + s.config.window then s.entries[t].(windowStart := now, requests := 0)
    else s.entries[t]
  }

  function Admit(e: Entry, lease: nat, now: int): Entry {
    e.(requests := e.requests + 1, active := e.active + 1, holders := e.holders + {lease}, log := e.log + [Admission(now, e.windowStart)])
  }

  function AcquireOutcome(s: State, t: Tenant, now: int): Outcome {
    var e := Current(s, t, now);
    if s.closed then Closed
    else if e.requests >= s.config.maxRequests || e.active >= s.config.maxConcurrent then RateLimited
    else Admitted
  }

  function AfterAcquire(s: State, t: Tenant, now: int): State {
    match AcquireOutcome(s, t, now)
    case Closed => s
    case RateLimited => s.(entries := s.entries[t := Current(s, t, now)])
    case Admitted => s.(entries := s.entries[t := Admit(Current(s, t, now), s.clock, now)])
  }

  function AfterRelease(s: State, t: Tenant, lease: nat): State {
    if t in s.entries then
      var e := s.entries[t].(holders := s.entries[t].holders - {lease});
      s.(entries := s.entries[t := if e.active > 0 then e.(active := e.active - 1) else e])
    else s
  }

  function AfterClose(s: State): State { s.(closed := true, entries := map[]) }

  class TenantLimiter {
    const config: Config
    var closed: bool
    var entries: map<Tenant, Entry>
    var clock: nat

    ghost function View(): State
      reads this
    {
      State(config, closed, entries, clock)
    }

    constructor (config: Config)
      ensures View() == Initial(config)
    {
      this.config := config;
      closed, entries, clock := false, map[], 0;
    }

    method Acquire(t: Tenant, now: int) returns (outcome: Outcome)
      modifies this
      ensures outcome == AcquireOutcome(old(View()), t, now)
      ensures View() == AfterAcquire(old(View()), t, now).(clock := old(clock) + 1)
    {
      if closed {
        clock := clock + 1;
        return Closed;
      }
      var entry;
      if t !in entries {
        entry := Entry(now, 0, 0, {}, []);
      } else {
        entry := entries[t];
        if now >= entry.windowStart + config.window {
          entry := entry.(windowStart := now, requests := 0);
        }
      }
      entries := entries[t := entry];
      if entry.requests >= config.maxRequests || entry.active >= config.maxConcurrent {
        clock := clock + 1;
        return RateLimited;
      }
      entries := entries[t := Admit(entry, clock, now)];
      clock := clock + 1;
      return Admitted;
    }

    method Release(t: Tenant, lease: nat)
      modifies this
      ensures View() == AfterRelease(old(View()), t, lease).(clock := old(clock) + 1)
    {
      if t in entries {
        var entry := entries[t];
        entry := entry.(holders := entry.holders - {lease});
        if entry.active > 0 {
          entry := entry.(active := entry.active - 1);
        }
        entries := entries[t := entry];
      }
      clock := clock + 1;
    }

    method Close()
      modifies this
      ensures View() == AfterClose(old(View())).(clock := old(clock) + 1)
    {
      closed := true;
      entries := map[];
      clock := clock + 1;
    }
  }

  // ---- Runs ----

  datatype Step = SAcquire(t: Tenant, now: int) | SRelease(t: Tenant, lease: nat) | SClose

  /** A lease is released at most once; after Close there is nothing left to release. */
  predicate Enabled(s: State, step: Step) {
    step.SRelease? && step.t in s.entries ==> step.lease in s.entries[step.t].holders
  }

  function Apply(s: State, step: Step): State {
    var s' := match step
              case SAcquire(t, now) => AfterAcquire(s, t, now)
              case SRelease(t, lease) => AfterRelease(s, t, lease)
              case SClose => AfterClose(s);
    s'.(clock := s.clock + 1)
  }

  predicate CanRun(c: Config, steps: seq<Step>)
    decreases |steps|, 0
  {
    steps == [] || (CanRun(c, steps[..|steps| - 1]) && Enabled(Run(c, steps[..|steps| - 1]), steps[|steps| - 1]))
  }

  function Run(c: Config, steps: seq<Step>): State
    requires CanRun(c, steps)
    decreases |steps|, 1
  {
    if steps == [] then Initial(c) else Apply(Run(c, steps[..|steps| - 1]), steps[|steps| - 1])
  }

  /** The clock samples of the acquisitions by `t`, and those of the admitted ones. */
  function Samples(steps: seq<Step>, t: Tenant): seq<int> {
    if steps == [] then []
    else
      var step := steps[|steps| - 1];
      Samples(steps[..|steps| - 1], t) + if step.SAcquire? && step.t == t then [step.now] else []
  }

  predicate Admits(s: State, step: Step, t: Tenant) {
    step.SAcquire? && step.t == t && AcquireOutcome(s, t, step.now).Admitted?
  }

  function AdmittedTimes(c: Config, steps: seq<Step>, t: Tenant): seq<int>
    requires CanRun(c, steps)
  {
    if steps == [] then []
    else
      var step := steps[|steps| - 1];
      var s := Run(c, steps[..|steps| - 1]);
      AdmittedTimes(c, steps[..|steps| - 1], t)
      + if Admits(s, step, t) then [step.now] else []
  }

  // ---- What every step keeps ----

  function InWindow(log: seq<Admission>, w: int): nat {
    if log == [] then 0
    else InWindow(log[..|log| - 1], w) + if log[|log| - 1].window == w then 1 else 0
  }

  /** `w` is a later window than `v`: it starts no earlier than `v` ends. */
  predicate Follows(v: int, w: int, length: int) { v == w || v + length <= w }

  ghost predicate LogSound(log: seq<Admission>, c: Config) {
    && (forall i, j | 0 <= i <= j < |log| :: Follows(log[i].window, log[j].window, c.window))
    && (forall i | 0 <= i < |log| :: log[i].time < log[i].window + c.window)
    && (forall w :: InWindow(log, w) <= c.maxRequests)
  }

  ghost predicate EntrySound(e: Entry, c: Config) {
    && e.active == |e.holders| <= c.maxConcurrent
    && LogSound(e.log, c)
    && (forall i | 0 <= i < |e.log| :: Follows(e.log[i].window, e.windowStart, c.window))
    && InWindow(e.log, e.windowStart) == e.requests
  }

  ghost predicate Older(leases: set<nat>, clock: nat) { forall l <- leases :: l < clock }

  ghost predicate Inv(s: State) {
    && ValidConfig(s.config)
    && (forall t <- s.entries :: EntrySound(s.entries[t], s.config) && Older(s.entries[t].holders, s.clock))
  }

  lemma {:induction false} NotYetInWindow(log: seq<Admission>, w: int)
    requires forall i | 0 <= i < |log| :: log[i].window != w
    ensures InWindow(log, w) == 0
  {
    if log != [] {
      NotYetInWindow(log[..|log| - 1], w);
    }
  }

  lemma CurrentSound(s: State, t: Tenant, now: int)
    requires Inv(s)
    ensures EntrySound(Current(s, t, now), s.config)
    ensures now < Current(s, t, now).windowStart + s.config.window
    ensures Older(Current(s, t, now).holders, s.clock)
  {
    var e := Current(s, t, now);
    if t in s.entries && e != s.entries[t] {
      NotYetInWindow(e.log, now);
    }
  }

  lemma AdmitSound(e: Entry, c: Config, lease: nat, now: int)
    requires EntrySound(e, c) && lease !in e.holders
    requires now < e.windowStart + c.window && e.requests < c.maxRequests && e.active < c.maxConcurrent
    ensures EntrySound(Admit(e, lease, now), c)
  {
    var log := Admit(e, lease, now).log;
    assert log[..|log| - 1] == e.log;
  }

  lemma StoreSound(s: State, t: Tenant, e: Entry)
    requires Inv(s) && EntrySound(e, s.config) && Older(e.holders, s.clock + 1)
    ensures Inv(s.(entries := s.entries[t := e], clock := s.clock + 1))
  {
  }

  lemma ReleaseSound(e: Entry, c: Config, lease: nat)
    requires EntrySound(e, c) && lease in e.holders
    ensures e.active > 0 && EntrySound(e.(holders := e.holders - {lease}, active := e.active - 1), c)
  {
    assert |e.holders - {lease}| == |e.holders| - 1;
  }

  lemma AcquireKeepsInv(s: State, t: Tenant, now: int)
    requires Inv(s)
    ensures Inv(AfterAcquire(s, t, now).(clock := s.clock + 1))
  {
    hide EntrySound, Current;
    var e := Current(s, t, now);
    CurrentSound(s, t, now);
    match AcquireOutcome(s, t, now)
    case Closed =>
    case RateLimited => StoreSound(s, t, e);
    case Admitted =>
      AdmitSound(e, s.config, s.clock, now);
      StoreSound(s, t, Admit(e, s.clock, now));
  }

  lemma ReleaseKeepsInv(s: State, t: Tenant, lease: nat)
    requires Inv(s) && (t in s.entries ==> lease in s.entries[t].holders)
    ensures Inv(AfterRelease(s, t, lease).(clock := s.clock + 1))
  {
    hide EntrySound;
    if t in s.entries {
      var e := s.entries[t];
      ReleaseSound(e, s.config, lease);
      StoreSound(s, t, e.(holders := e.holders - {lease}, active := e.active - 1));
    }
  }

  lemma StepKeepsInv(s: State, step: Step)
    requires Inv(s) && Enabled(s, step)
    ensures Inv(Apply(s, step))
  {
    hide EntrySound, AfterAcquire, AfterRelease;
    match step
    case SAcquire(t, now) => AcquireKeepsInv(s, t, now);
    case SRelease(t, lease) => ReleaseKeepsInv(s, t, lease);
    case SClose =>
  }

  lemma {:induction false} RunKeepsInv(c: Config, steps: seq<Step>)
    requires ValidConfig(c) && CanRun(c, steps)
    ensures Inv(Run(c, steps)) && Run(c, steps).config == c
  {
    if steps != [] {
      RunKeepsInv(c, steps[..|steps| - 1]);
      StepKeepsInv(Run(c, steps[..|steps| - 1]), steps[|steps| - 1]);
    }
  }

  /** A tenant's `active` is the number of its unreleased leases and never exceeds the bound,
      across any number of window renewals; no window admits more than `maxRequests`. */
  lemma ConcurrencyBound(c: Config, steps: seq<Step>, t: Tenant, w: int)
    requires ValidConfig(c) && CanRun(c, steps) && t in Run(c, steps).entries
    ensures var e := Run(c, steps).entries[t];
            e.active == |e.holders| <= c.maxConcurrent && InWindow(e.log, w) <= c.maxRequests
  {
    RunKeepsInv(c, steps);
    assert EntrySound(Run(c, steps).entries[t], c);
  }

  // ---- Any interval of one window length ----

  ghost predicate Nondecreasing(times: seq<int>) {
    forall i, j | 0 <= i <= j < |times| :: times[i] <= times[j]
  }

  function Between(times: seq<int>, from: int, until: int): nat {
    if times == [] then 0
    else Between(times[..|times| - 1], from, until) + if from <= times[|times| - 1] < until then 1 else 0
  }

  function Times(log: seq<Admission>): (r: seq<int>)
    ensures |r| == |log| && forall i | 0 <= i < |log| :: r[i] == log[i].time
  {
    if log == [] then [] else Times(log[..|log| - 1]) + [log[|log| - 1].time]
  }

  predicate Hit(a: Admission, from: int, length: int) { from <= a.time < from + length }

  /** Two windows cover every admission in the interval. */
  lemma TwoWindowsCover(log: seq<Admission>, c: Config, from: int) returns (v: int, w: int)
    requires LogSound(log, c) && forall i | 0 <= i < |log| :: log[i].window <= log[i].time
    ensures forall i | 0 <= i < |log| && Hit(log[i], from, c.window) :: log[i].window == v || log[i].window == w
  {
    v, w := 0, 0;
    if i :| 0 <= i < |log| && Hit(log[i], from, c.window) {
      v, w := log[i].window, log[i].window;
      if j :| 0 <= j < |log| && Hit(log[j], from, c.window) && log[j].window != v {
        w := log[j].window;
        forall k | 0 <= k < |log| && Hit(log[k], from, c.window) ensures log[k].window == v || log[k].window == w {
          ThirdWindowIsTooFar(log, c, from, i, j, k);
        }
      }
    }
  }

  lemma ThirdWindowIsTooFar(log: seq<Admission>, c: Config, from: int, i: int, j: int, k: int)
    requires LogSound(log, c) && 0 <= i < |log| && 0 <= j < |log| && 0 <= k < |log|
    requires forall x | 0 <= x < |log| :: log[x].window <= log[x].time
    requires Hit(log[i], from, c.window) && Hit(log[j], from, c.window) && Hit(log[k], from, c.window)
    requires log[i].window != log[j].window
    ensures log[k].window == log[i].window || log[k].window == log[j].window
  {
    assert Follows(log[if i <= j then i else j].window, log[if i <= j then j else i].window, c.window);
    assert Follows(log[if i <= k then i else k].window, log[if i <= k then k else i].window, c.window);
    assert Follows(log[if k <= j then k else j].window, log[if k <= j then j else k].window, c.window);
  }

  lemma {:induction false} CoveredCount(log: seq<Admission>, from: int, length: int, v: int, w: int)
    requires forall i | 0 <= i < |log| && Hit(log[i], from, length) :: log[i].window == v || log[i].window == w
    ensures Between(Times(log), from, from + length) <= InWindow(log, v) + InWindow(log, w)
  {
    if log != [] {
      var rest, last := log[..|log| - 1], log[|log| - 1];
      CoveredCount(rest, from, length, v, w);
      assert Times(log)[..|log| - 1] == Times(rest);
      assert Hit(last, from, length) ==> last.window == v || last.window == w;
    }
  }

  /** With ordered clock samples no window starts after an admission it counts. */
  ghost predicate Timely(e: Entry, latest: int) {
    e.windowStart <= latest && forall i | 0 <= i < |e.log| :: e.log[i].window <= e.log[i].time
  }

  lemma StepIsTimely(s: State, step: Step, t: Tenant, latest: int)
    requires t in Apply(s, step).entries
    requires t in s.entries ==> Timely(s.entries[t], latest)
    requires step.SAcquire? && step.t == t ==> (t in s.entries ==> latest <= step.now)
    ensures Timely(Apply(s, step).entries[t], if step.SAcquire? && step.t == t then step.now else latest)
  {
  }

  lemma {:induction false} OrderedSamplesAreTimely(c: Config, steps: seq<Step>, t: Tenant)
    requires CanRun(c, steps) && Nondecreasing(Samples(steps, t))
    ensures t in Run(c, steps).entries ==>
              Samples(steps, t) != [] && Timely(Run(c, steps).entries[t], Samples(steps, t)[|Samples(steps, t)| - 1])
  {
    hide Timely, Apply, Enabled;
    if steps != [] {
      var front, step := steps[..|steps| - 1], steps[|steps| - 1];
      var before, after := Samples(front, t), Samples(steps, t);
      assert before == after[..|before|];
      OrderedSamplesAreTimely(c, front, t);
      if t in Run(c, steps).entries {
        var latest := if before == [] then 0 else before[|before| - 1];
        if t !in Run(c, front).entries {
          NewTenantsAcquire(Run(c, front), step, t);
        }
        assert step.SAcquire? && step.t == t && before != [] ==> after[|before| - 1] <= after[|before|] == step.now;
        StepIsTimely(Run(c, front), step, t, latest);
      }
    }
  }

  /** Only an acquisition makes an entry. */
  lemma NewTenantsAcquire(s: State, step: Step, t: Tenant)
    requires t in Apply(s, step).entries && t !in s.entries
    ensures step.SAcquire? && step.t == t
  {
  }

  function TimesOf(s: State, t: Tenant): seq<int> {
    if t in s.entries then Times(s.entries[t].log) else []
  }

  lemma StepLogs(s: State, step: Step, t: Tenant)
    requires t in Apply(s, step).entries
    ensures TimesOf(Apply(s, step), t) == TimesOf(s, t) + if Admits(s, step, t) then [step.now] else []
  {
    if Admits(s, step, t) {
      var e := Current(s, t, step.now);
      assert (e.log + [Admission(step.now, e.windowStart)])[..|e.log|] == e.log;
    }
  }

  lemma {:induction false} LogIsAdmissions(c: Config, steps: seq<Step>, t: Tenant)
    requires CanRun(c, steps) && t in Run(c, steps).entries
    ensures Times(Run(c, steps).entries[t].log) == AdmittedTimes(c, steps, t)
  {
    var front := steps[..|steps| - 1];
    StepLogs(Run(c, front), steps[|steps| - 1], t);
    if t in Run(c, front).entries {
      LogIsAdmissions(c, front, t);
    } else {
      NoEntryNoAdmissions(c, front, t);
    }
  }

  /** Before Close a tenant without an entry has never been admitted. */
  lemma {:induction false} NoEntryNoAdmissions(c: Config, steps: seq<Step>, t: Tenant)
    requires CanRun(c, steps) && t !in Run(c, steps).entries && !Run(c, steps).closed
    ensures AdmittedTimes(c, steps, t) == []
  {
    if steps != [] {
      NoEntryNoAdmissions(c, steps[..|steps| - 1], t);
    }
  }

  /** What any interval of one window length may admit: an interval of one instant meets one window, a
      longer one two. */
  function Most(c: Config): int { if c.window == 1 then c.maxRequests else 2 * c.maxRequests }

  lemma EntryInterval(e: Entry, c: Config, from: int, latest: int)
    requires EntrySound(e, c) && Timely(e, latest)
    ensures Between(Times(e.log), from, from + c.window) <= Most(c)
  {
    hide Between, InWindow, Times;
    if c.window == 1 {
      InstantCount(e.log, from);
    } else {
      var v, w := TwoWindowsCover(e.log, c, from);
      CoveredCount(e.log, from, c.window, v, w);
      assert InWindow(e.log, v) <= c.maxRequests && InWindow(e.log, w) <= c.maxRequests;
    }
  }

  lemma {:induction false} InstantCount(log: seq<Admission>, from: int)
    requires forall i | 0 <= i < |log| :: log[i].window == log[i].time
    ensures Between(Times(log), from, from + 1) == InWindow(log, from)
  {
    if log != [] {
      InstantCount(log[..|log| - 1], from);
      assert Times(log)[..|log| - 1] == Times(log[..|log| - 1]);
    }
  }

  /** With ordered clock samples, any half-open interval of one window length admits at most
      twice `maxRequests`. */
  lemma IntervalBound(c: Config, steps: seq<Step>, t: Tenant, from: int)
    requires ValidConfig(c) && CanRun(c, steps) && Nondecreasing(Samples(steps, t))
    requires !Run(c, steps).closed
    ensures Between(AdmittedTimes(c, steps, t), from, from + c.window) <= Most(c) <= 2 * c.maxRequests
  {
    var s := Run(c, steps);
    RunKeepsInv(c, steps);
    if t in s.entries {
      LogIsAdmissions(c, steps, t);
      OrderedSamplesAreTimely(c, steps, t);
      EntryInterval(s.entries[t], c, from, Samples(steps, t)[|Samples(steps, t)| - 1]);
    } else {
      NoEntryNoAdmissions(c, steps, t);
    }
  }

  /** A request is refused exactly when its tenant has as many leases out as allowed, or its current
      window, if it still runs, has admitted its whole budget; a closed limiter admits nobody. */
  lemma RefusedExactly(c: Config, steps: seq<Step>, t: Tenant, now: int)
    requires ValidConfig(c) && CanRun(c, steps)
    ensures var s := Run(c, steps);
            var refused :=
              && t in s.entries
              && (|| |s.entries[t].holders| == c.maxConcurrent
                  || (now < s.entries[t].windowStart + c.window
                      && InWindow(s.entries[t].log, s.entries[t].windowStart) == c.maxRequests));
            AcquireOutcome(s, t, now) == if s.closed then Closed else if refused then RateLimited else Admitted
  {
    hide LogSound, Run;
    RunKeepsInv(c, steps);
    var s := Run(c, steps);
    if t in s.entries {
      assert EntrySound(s.entries[t], c);
      WindowBudget(s.entries[t], c);
    }
  }

  /** The leases of a tenant that are out. */
  function Leases(s: State, t: Tenant): set<nat> { if t in s.entries then s.entries[t].holders else {} }

  /** Every step moves exactly the lease it is about: an admission adds a new one, a release takes its own back,
      closing forgets them all, and nothing else touches any tenant's leases. */
  lemma LeasesMoveExactly(c: Config, steps: seq<Step>, step: Step, t: Tenant)
    requires ValidConfig(c) && CanRun(c, steps) && Enabled(Run(c, steps), step)
    ensures var s := Run(c, steps);
            && s.clock !in Leases(s, t)
            && Leases(Apply(s, step), t) ==
               if step.SClose? then {}
               else if Admits(s, step, t) then Leases(s, t) + {s.clock}
               else if step.SRelease? && step.t == t then Leases(s, t) - {step.lease}
               else Leases(s, t)
  {
    hide EntrySound, Run;
    RunKeepsInv(c, steps);
  }

  lemma WindowBudget(e: Entry, c: Config)
    requires EntrySound(e, c)
    ensures InWindow(e.log, e.windowStart) <= c.maxRequests
  {
  }

  // ---- The bound is tight, and needs the order ----

  /** One more step, and what it does to the admissions and the samples of `t`. */
  lemma Extend(c: Config, steps: seq<Step>, step: Step, t: Tenant, from: int, until: int)
    requires CanRun(c, steps) && Enabled(Run(c, steps), step)
    ensures CanRun(c, steps + [step]) && Run(c, steps + [step]) == Apply(Run(c, steps), step)
    ensures Between(AdmittedTimes(c, steps + [step], t), from, until)
      == Between(AdmittedTimes(c, steps, t), from, until)
         + if Admits(Run(c, steps), step, t) && from <= step.now < until then 1 else 0
    ensures Samples(steps + [step], t) == Samples(steps, t) + if step.SAcquire? && step.t == t then [step.now] else []
  {
    assert (steps + [step])[..|steps|] == steps;
    var times := AdmittedTimes(c, steps, t);
    if Admits(Run(c, steps), step, t) {
      assert (times + [step.now])[..|times|] == times;
    } else {
      assert times + [] == times;
    }
  }

  /** The samples are in order, up to `latest`. */
  ghost predicate OrderedUpTo(samples: seq<int>, latest: int) {
    Nondecreasing(samples) && forall i | 0 <= i < |samples| :: samples[i] <= latest
  }

  lemma LaterSample(samples: seq<int>, latest: int, now: int)
    requires OrderedUpTo(samples, latest) && latest <= now
    ensures OrderedUpTo(samples + [now], now)
  {
  }

  /** The tenant has `n` leases out and `r` admissions in the window starting at `w`. */
  ghost predicate Holding(s: State, c: Config, t: Tenant, w: int, r: int, n: int) {
    && Inv(s) && s.config == c && !s.closed && t in s.entries
    && s.entries[t].windowStart == w && s.entries[t].requests == r && s.entries[t].active == n
  }

  lemma AcquireSlot(s: State, c: Config, t: Tenant, n: int, w: int)
    requires Inv(s) && s.config == c && !s.closed && 0 <= n < c.maxConcurrent
    requires if n == 0 then t !in s.entries
             else t in s.entries && s.entries[t].active == n && s.entries[t].windowStart + c.window <= w
    ensures Admits(s, SAcquire(t, w), t) && Holding(Apply(s, SAcquire(t, w)), c, t, w, 1, n + 1)
  {
    hide Inv;
    StepKeepsInv(s, SAcquire(t, w));
    assert ValidConfig(c) by { HasValidConfig(s); }
  }

  lemma HasValidConfig(s: State)
    requires Inv(s)
    ensures ValidConfig(s.config)
  {
  }

  /** Slots taken in windows of their own, the last one in the window starting at `w`. */
  lemma {:induction false} TakeSlots(c: Config, t: Tenant, n: nat, w: int, from: int, until: int)
    returns (steps: seq<Step>)
    requires ValidConfig(c) && 1 <= n <= c.maxConcurrent && w < from
    ensures CanRun(c, steps) && Holding(Run(c, steps), c, t, w, 1, n)
    ensures Between(AdmittedTimes(c, steps, t), from, until) == 0 && OrderedUpTo(Samples(steps, t), w)
    decreases n
  {
    hide Inv, Apply, Admits, Nondecreasing;
    steps := [];
    if n == 1 {
      RunKeepsInv(c, steps);
      LaterSample([], w, w);
    } else {
      steps := TakeSlots(c, t, n - 1, w - c.window, from, until);
      LaterSample(Samples(steps, t), w - c.window, w);
    }
    AcquireSlot(Run(c, steps), c, t, n - 1, w);
    Extend(c, steps, SAcquire(t, w), t, from, until);
    steps := steps + [SAcquire(t, w)];
  }

  /** A refused request renews the window. */
  lemma Renew(c: Config, before: seq<Step>, t: Tenant, w: int, r: int, now: int, from: int, until: int)
    returns (steps: seq<Step>)
    requires CanRun(c, before) && Holding(Run(c, before), c, t, w, r, c.maxConcurrent)
    requires w + c.window <= now
    ensures CanRun(c, steps) && Holding(Run(c, steps), c, t, now, 0, c.maxConcurrent)
    ensures Between(AdmittedTimes(c, steps, t), from, until) == Between(AdmittedTimes(c, before, t), from, until)
    ensures Samples(steps, t) == Samples(before, t) + [now]
  {
    hide CanRun, Run, Samples, AdmittedTimes, Between, Inv;
    var step := SAcquire(t, now);
    StepKeepsInv(Run(c, before), step);
    Extend(c, before, step, t, from, until);
    steps := before + [step];
  }

  lemma SwapLease(s: State, c: Config, t: Tenant, w: int, r: int, now: int) returns (lease: nat)
    requires Holding(s, c, t, w, r, c.maxConcurrent) && now < w + c.window && r < c.maxRequests
    ensures var s1 := Apply(s, SRelease(t, lease));
      && Enabled(s, SRelease(t, lease)) && Admits(s1, SAcquire(t, now), t)
      && Holding(Apply(s1, SAcquire(t, now)), c, t, w, r + 1, c.maxConcurrent)
  {
    lease := SomeLease(s, t);
    hide Inv;
    StepKeepsInv(s, SRelease(t, lease));
    StepKeepsInv(Apply(s, SRelease(t, lease)), SAcquire(t, now));
  }

  lemma SomeLease(s: State, t: Tenant) returns (lease: nat)
    requires Inv(s) && t in s.entries && s.entries[t].active == s.config.maxConcurrent
    ensures lease in s.entries[t].holders && s.config.maxConcurrent > 0
  {
    var holders := s.entries[t].holders;
    assert |holders| > 0;
    lease :| lease in holders;
  }

  /** One lease is given back and another one taken. */
  lemma Swap(c: Config, before: seq<Step>, t: Tenant, w: int, r: int, now: int, from: int, until: int)
    returns (steps: seq<Step>)
    requires CanRun(c, before) && Holding(Run(c, before), c, t, w, r, c.maxConcurrent)
    requires now < w + c.window && r < c.maxRequests
    ensures CanRun(c, steps) && Holding(Run(c, steps), c, t, w, r + 1, c.maxConcurrent)
    ensures Between(AdmittedTimes(c, steps, t), from, until)
      == Between(AdmittedTimes(c, before, t), from, until) + if from <= now < until then 1 else 0
    ensures Samples(steps, t) == Samples(before, t) + [now]
  {
    hide CanRun, Run, Samples, AdmittedTimes, Between, Holding, Apply, AcquireOutcome;
    var lease := SwapLease(Run(c, before), c, t, w, r, now);
    steps := before + [SRelease(t, lease)];
    Extend(c, before, SRelease(t, lease), t, from, until);
    Extend(c, steps, SAcquire(t, now), t, from, until);
    steps := steps + [SAcquire(t, now)];
  }

  /** A renewed window, and `r` admissions of it at one instant. */
  lemma {:induction false} Burst(c: Config, before: seq<Step>, t: Tenant, w: int, r0: int, renew: int, now: int, r: nat,
                                 from: int, until: int)
    returns (steps: seq<Step>)
    requires CanRun(c, before) && Holding(Run(c, before), c, t, w, r0, c.maxConcurrent)
    requires w + c.window <= renew && now < renew + c.window && r <= c.maxRequests
    ensures CanRun(c, steps) && Holding(Run(c, steps), c, t, renew, r, c.maxConcurrent)
    ensures Between(AdmittedTimes(c, steps, t), from, until)
      == Between(AdmittedTimes(c, before, t), from, until) + if from <= now < until then r else 0
    ensures OrderedUpTo(Samples(before, t), renew) && renew <= now ==> OrderedUpTo(Samples(steps, t), now)
    decreases r
  {
    hide CanRun, Run, Holding, AdmittedTimes, Samples, Between, Nondecreasing;
    if r == 0 {
      steps := Renew(c, before, t, w, r0, renew, from, until);
      if OrderedUpTo(Samples(before, t), renew) && renew <= now {
        LaterSample(Samples(before, t), renew, renew);
      }
    } else {
      var front := Burst(c, before, t, w, r0, renew, now, r - 1, from, until);
      steps := Swap(c, front, t, renew, r - 1, now, from, until);
      if OrderedUpTo(Samples(before, t), renew) && renew <= now {
        LaterSample(Samples(front, t), now, now);
      }
    }
  }

  /** Every configuration reaches the bound in every interval, with ordered samples. */
  lemma BoundIsReached(c: Config, t: Tenant, from: int) returns (steps: seq<Step>)
    requires ValidConfig(c)
    ensures CanRun(c, steps) && Nondecreasing(Samples(steps, t)) && !Run(c, steps).closed
    ensures Between(AdmittedTimes(c, steps, t), from, from + c.window) == Most(c)
  {
    hide CanRun, Run, AdmittedTimes, Samples, Between, Nondecreasing, Inv;
    var length, until := c.window, from + c.window;
    var w := from + 1 - 2 * length;
    steps := TakeSlots(c, t, c.maxConcurrent, w, from, until);
    steps := Burst(c, steps, t, w, 1, w + length, from, c.maxRequests, from, until);
    steps := Burst(c, steps, t, w + length, c.maxRequests, from + 1, from + 1, c.maxRequests, from, until);
  }

  /** With samples out of order every configuration can exceed it in every interval. */
  lemma OrderIsNeeded(c: Config, t: Tenant, from: int) returns (steps: seq<Step>)
    requires ValidConfig(c)
    ensures CanRun(c, steps) && !Run(c, steps).closed
    ensures Between(AdmittedTimes(c, steps, t), from, from + c.window) > 2 * c.maxRequests
  {
    hide CanRun, Run, AdmittedTimes, Samples, Between, Nondecreasing, Inv;
    var length, until := c.window, from + c.window;
    var w := from - 1;
    steps := TakeSlots(c, t, c.maxConcurrent, w, from, until);
    steps := Burst(c, steps, t, w, 1, w + length, from, c.maxRequests, from, until);
    steps := Burst(c, steps, t, w + length, c.maxRequests, w + 2 * length, from, c.maxRequests, from, until);
    steps := Burst(c, steps, t, w + 2 * length, c.maxRequests, w + 3 * length, from, c.maxRequests, from, until);
  }
}
