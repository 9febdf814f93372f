/**
 The cancellable reader/writer lock of the in-memory Agent App repository.

 Blocked threads wait on a notify channel.  Waking means closing the current
 channel and installing a new one, so a channel is named here by the order in
 which it was made: every channel but the installed one is closed.  One step is
 one section under the internal `state` mutex; between sections any other thread
 may run, and any waiting thread may be cancelled.
 */
module RwLock {

  datatype Notify = NoChannel | Channel(id: nat)

  /** The fields of the lock.  `made` counts the channels made so far and `panicked` records
      a runtime panic: closing a nil channel, or unlocking a lock that is not held. */
  datatype Shared = Shared(readers: int, writer: bool, waitingWriters: int, notify: Notify, made: nat, panicked: bool)

  datatype Turn = Entered | Cancelled | Parked(channel: nat)

  const UNUSED := Shared(0, false, 0, NoChannel, 0, false)

  function WithChannel(m: Shared): (r: Shared)
    ensures r.notify.Channel?
  {
    if m.notify.NoChannel? then m.(notify := Channel(m.made), made := m.made + 1) else m
  }

  function Wake(m: Shared): Shared {
    if m.notify.NoChannel? then m.(panicked := true)
    else m.(notify := Channel(m.made), made := m.made + 1)
  }

  function WriterLeaves(m: Shared): Shared {
    Wake(m.(waitingWriters := m.waitingWriters - 1))
  }

  /** One pass through the loop of `lock`. */
  function WriterTurn(m: Shared, cancelled: bool): (Shared, Turn)
    requires m.notify.Channel?
  {
    if cancelled then (WriterLeaves(m), Cancelled)
    else if !m.writer && m.readers == 0 then
      (m.(writer := true, waitingWriters := m.waitingWriters - 1), Entered)
    else (m, Parked(m.notify.id))
  }

  /** One pass through the loop of `rlock`. */
  function ReaderTurn(m: Shared, cancelled: bool): (Shared, Turn)
    requires m.notify.Channel?
  {
    if cancelled then (m, Cancelled)
    else if !m.writer && m.waitingWriters == 0 then (m.(readers := m.readers + 1), Entered)
    else (m, Parked(m.notify.id))
  }

  function BeginWrite(m: Shared, cancelled: bool): (Shared, Turn) {
    var m := WithChannel(m);
    WriterTurn(m.(waitingWriters := m.waitingWriters + 1), cancelled)
  }

  function EndWrite(m: Shared): Shared {
    if !m.writer then m.(panicked := true) else Wake(m.(writer := false))
  }

  function EndRead(m: Shared): Shared {
    if m.readers == 0 then m.(panicked := true)
    else if m.readers == 1 then Wake(m.(readers := 0))
    else m.(readers := m.readers - 1)
  }

  /** The lock object.  Each method is one section under the internal mutex. */
  class ContextRWMutex {
    var readers: int
    var writer: bool
    var waitingWriters: int
    var notify: Notify
    var made: nat
    var panicked: bool

    constructor ()
      ensures View() == UNUSED
    {
      readers, writer, waitingWriters, notify, made, panicked := 0, false, 0, NoChannel, 0, false;
    }

    ghost function View(): Shared
      reads this
    {
      Shared(readers, writer, waitingWriters, notify, made, panicked)
    }

    method InitLocked()
      modifies this
      ensures View() == WithChannel(old(View()))
    {
      if notify == NoChannel {
        notify, made := Channel(made), made + 1;
      }
    }

    method WakeLocked()
      modifies this
      ensures View() == Wake(old(View()))
    {
      if notify == NoChannel {
        panicked := true;
      } else {
        notify, made := Channel(made), made + 1;
      }
    }

    /** The body of the loop in `lock`, up to waiting on the captured channel. */
    method TryWrite(cancelled: bool) returns (turn: Turn)
      requires notify.Channel?
      modifies this
      ensures (View(), turn) == WriterTurn(old(View()), cancelled)
    {
      if cancelled {
        CancelWrite();
        return Cancelled;
      }
      if !writer && readers == 0 {
        writer := true;
        waitingWriters := waitingWriters - 1;
        return Entered;
      }
      turn := Parked(notify.id);
    }

    method Lock(cancelled: bool) returns (turn: Turn)
      modifies this
      ensures (View(), turn) == BeginWrite(old(View()), cancelled)
    {
      InitLocked();
      waitingWriters := waitingWriters + 1;
      turn := TryWrite(cancelled);
    }

    method ResumeLock(cancelled: bool) returns (turn: Turn)
      modifies this
      ensures (View(), turn) == WriterTurn(WithChannel(old(View())), cancelled)
    {
      InitLocked();
      turn := TryWrite(cancelled);
    }

    method CancelWrite()
      modifies this
      ensures View() == WriterLeaves(old(View()))
    {
      waitingWriters := waitingWriters - 1;
      WakeLocked();
    }

    method Unlock()
      modifies this
      ensures View() == EndWrite(old(View()))
    {
      if !writer {
        panicked := true;
        return;
      }
      writer := false;
      WakeLocked();
    }

    method RLock(cancelled: bool) returns (turn: Turn)
      modifies this
      ensures (View(), turn) == ReaderTurn(WithChannel(old(View())), cancelled)
    {
      InitLocked();
      if cancelled {
        return Cancelled;
      }
      if !writer && waitingWriters == 0 {
        readers := readers + 1;
        return Entered;
      }
      turn := Parked(notify.id);
    }

    method RUnlock()
      modifies this
      ensures View() == EndRead(old(View()))
    {
      if readers == 0 {
        panicked := true;
        return;
      }
      readers := readers - 1;
      if readers == 0 {
        WakeLocked();
      }
    }
  }

  /** The threads inside the lock: writers and readers parked on a channel, and the holders. */
  datatype System = System(lock: Shared, writersParked: map<nat, nat>, readersParked: map<nat, nat>,
                           writing: set<nat>, reading: set<nat>)

  datatype Step =
    | Lock(t: nat, cancelled: bool) | ResumeLock(t: nat, cancelled: bool) | CancelLock(t: nat) | Unlock(t: nat)
    | RLock(t: nat, cancelled: bool) | ResumeRLock(t: nat, cancelled: bool) | CancelRLock(t: nat) | RUnlock(t: nat)

  const START := System(UNUSED, map[], map[], {}, {})

  predicate Closed(s: System, channel: nat) {
    s.lock.notify != Channel(channel)
  }

  predicate Outside(s: System, t: nat) {
    t !in s.writersParked && t !in s.readersParked && t !in s.writing && t !in s.reading
  }

  /** A parked thread resumes once its channel is closed, and may be cancelled at any time. */
  predicate Enabled(s: System, step: Step) {
    match step
    case Lock(t, _) => Outside(s, t)
    case RLock(t, _) => Outside(s, t)
    case ResumeLock(t, _) => t in s.writersParked && Closed(s, s.writersParked[t])
    case ResumeRLock(t, _) => t in s.readersParked && Closed(s, s.readersParked[t])
    case CancelLock(t) => t in s.writersParked
    case CancelRLock(t) => t in s.readersParked
    case Unlock(t) => t in s.writing
    case RUnlock(t) => t in s.reading
  }

  function AfterWriterTurn(s: System, t: nat, r: (Shared, Turn)): System {
    match r.1
    case Entered => s.(lock := r.0, writersParked := s.writersParked - {t}, writing := s.writing + {t})
    case Cancelled => s.(lock := r.0, writersParked := s.writersParked - {t})
    case Parked(c) => s.(lock := r.0, writersParked := s.writersParked[t := c])
  }

  function AfterReaderTurn(s: System, t: nat, r: (Shared, Turn)): System {
    match r.1
    case Entered => s.(lock := r.0, readersParked := s.readersParked - {t}, reading := s.reading + {t})
    case Cancelled => s.(lock := r.0, readersParked := s.readersParked - {t})
    case Parked(c) => s.(lock := r.0, readersParked := s.readersParked[t := c])
  }

  function Apply(s: System, step: Step): System {
    match step
    case Lock(t, cancelled) => AfterWriterTurn(s, t, BeginWrite(s.lock, cancelled))
    case ResumeLock(t, cancelled) => AfterWriterTurn(s, t, WriterTurn(WithChannel(s.lock), cancelled))
    case CancelLock(t) => s.(lock := WriterLeaves(s.lock), writersParked := s.writersParked - {t})
    case Unlock(t) => s.(lock := EndWrite(s.lock), writing := s.writing - {t})
    case RLock(t, cancelled) => AfterReaderTurn(s, t, ReaderTurn(WithChannel(s.lock), cancelled))
    case ResumeRLock(t, cancelled) => AfterReaderTurn(s, t, ReaderTurn(WithChannel(s.lock), cancelled))
    case CancelRLock(t) => s.(readersParked := s.readersParked - {t})
    case RUnlock(t) => s.(lock := EndRead(s.lock), reading := s.reading - {t})
  }

  predicate CanRun(s: System, steps: seq<Step>)
    decreases |steps|
  {
    steps == [] || (Enabled(s, steps[0]) && CanRun(Apply(s, steps[0]), steps[1..]))
  }

  function Run(s: System, steps: seq<Step>): System
    decreases |steps|
  {
    if steps == [] then s else Run(Apply(s, steps[0]), steps[1..])
  }

  ghost predicate Reachable(s: System) {
    exists steps :: CanRun(START, steps) && Run(START, steps) == s
  }

  ghost predicate WriterBlocked(m: Shared) { m.writer || m.readers > 0 }
  ghost predicate ReaderBlocked(m: Shared) { m.writer || m.waitingWriters > 0 }

  /** The counters count the threads they are about, and a writer excludes everybody. */
  ghost predicate Tallied(s: System) {
    && !s.lock.panicked
    && s.lock.waitingWriters == |s.writersParked|
    && s.lock.readers == |s.reading|
    && |s.writing| == (if s.lock.writer then 1 else 0)
    && (s.lock.writer ==> s.reading == {})
    && s.writersParked.Keys !! s.writing && s.readersParked.Keys !! s.reading
  }

  ghost predicate Made(parked: map<nat, nat>, made: nat) { forall t <- parked :: parked[t] < made }

  /** Parked threads wait on channels that were made, and there is none before the first call. */
  ghost predicate Channelled(s: System) {
    && (if s.lock.notify.Channel? then s.lock.notify.id < s.lock.made
        else s.writersParked == map[] && s.readersParked == map[] && s.writing == {} && s.reading == {})
    && Made(s.writersParked, s.lock.made) && Made(s.readersParked, s.lock.made)
  }

  /** Every thread parked on the channel that is still open is blocked. */
  ghost predicate Waiting(parked: map<nat, nat>, notify: Notify, blocked: bool) {
    forall t <- parked :: notify == Channel(parked[t]) ==> blocked
  }

  ghost predicate NoLostWakeup(s: System) {
    && Waiting(s.writersParked, s.lock.notify, WriterBlocked(s.lock))
    && Waiting(s.readersParked, s.lock.notify, ReaderBlocked(s.lock))
  }

  ghost predicate Inv(s: System) { Tallied(s) && Channelled(s) && NoLostWakeup(s) }

  lemma MapSizes(m: map<nat, nat>, t: nat, c: nat)
    ensures |m - {t}| == |m| - if t in m then 1 else 0
    ensures |m[t := c]| == |m| + if t in m then 0 else 1
  {
    assert (m - {t}).Keys == m.Keys - {t};
    assert m[t := c].Keys == m.Keys + {t};
  }

  /** The lock once writer `t` is counted among those waiting, whether it just arrived or resumed. */
  function Queued(s: System, t: nat): Shared {
    WithChannel(s.lock).(waitingWriters := |s.writersParked| + if t in s.writersParked then 0 else 1)
  }

  lemma CancelledTurnKeepsInv(s: System, t: nat)
    requires Inv(s) && (t in s.writersParked || Outside(s, t))
    ensures Inv(AfterWriterTurn(s, t, WriterTurn(Queued(s, t), true)))
  {
    MapSizes(s.writersParked, t, 0);
  }

  lemma WriterTurnKeepsTally(s: System, t: nat)
    requires Tallied(s) && (t in s.writersParked || Outside(s, t))
    ensures Tallied(AfterWriterTurn(s, t, WriterTurn(Queued(s, t), false)))
  {
    MapSizes(s.writersParked, t, Queued(s, t).notify.id);
  }

  lemma WriterTurnKeepsChannels(s: System, t: nat)
    requires Channelled(s)
    ensures Channelled(AfterWriterTurn(s, t, WriterTurn(Queued(s, t), false)))
  {
  }

  lemma WriterTurnKeepsWakeups(s: System, t: nat)
    requires Tallied(s) && Channelled(s) && NoLostWakeup(s)
    ensures NoLostWakeup(AfterWriterTurn(s, t, WriterTurn(Queued(s, t), false)))
  {
  }

  lemma WriterTurnKeepsInv(s: System, t: nat)
    requires Inv(s) && (t in s.writersParked || Outside(s, t))
    ensures Inv(AfterWriterTurn(s, t, WriterTurn(Queued(s, t), false)))
  {
    hide Tallied, Channelled, NoLostWakeup, AfterWriterTurn, WriterTurn;
    WriterTurnKeepsTally(s, t);
    WriterTurnKeepsChannels(s, t);
    WriterTurnKeepsWakeups(s, t);
  }

  /** A reader that enters, leaves or parks is never on both sides. */
  lemma ReaderMoves(parked: map<nat, nat>, reading: set<nat>, t: nat, c: nat)
    requires parked.Keys !! reading && t !in reading
    ensures (parked - {t}).Keys !! reading + {t} && (parked - {t}).Keys !! reading && parked[t := c].Keys !! reading
    ensures |reading + {t}| == |reading| + 1
  {
  }

  lemma ReaderTurnKeepsTally(s: System, t: nat, cancelled: bool)
    requires Tallied(s) && t !in s.reading
    ensures Tallied(AfterReaderTurn(s, t, ReaderTurn(WithChannel(s.lock), cancelled)))
  {
    ReaderMoves(s.readersParked, s.reading, t, WithChannel(s.lock).notify.id);
  }

  lemma ReaderTurnKeepsChannels(s: System, t: nat, cancelled: bool)
    requires Channelled(s)
    ensures Channelled(AfterReaderTurn(s, t, ReaderTurn(WithChannel(s.lock), cancelled)))
  {
  }

  lemma ReaderTurnKeepsWakeups(s: System, t: nat, cancelled: bool)
    requires Tallied(s) && Channelled(s) && NoLostWakeup(s)
    ensures NoLostWakeup(AfterReaderTurn(s, t, ReaderTurn(WithChannel(s.lock), cancelled)))
  {
  }

  lemma ReaderTurnKeepsInv(s: System, t: nat, cancelled: bool)
    requires Inv(s) && t !in s.reading
    ensures Inv(AfterReaderTurn(s, t, ReaderTurn(WithChannel(s.lock), cancelled)))
  {
    hide Tallied, Channelled, NoLostWakeup, AfterReaderTurn, ReaderTurn;
    ReaderTurnKeepsTally(s, t, cancelled);
    ReaderTurnKeepsChannels(s, t, cancelled);
    ReaderTurnKeepsWakeups(s, t, cancelled);
  }

  predicate Leaving(step: Step) { step.CancelLock? || step.CancelRLock? || step.Unlock? || step.RUnlock? }

  lemma UnlockKeepsTally(s: System, t: nat)
    requires Tallied(s) && Channelled(s) && t in s.writing
    ensures Tallied(Apply(s, Unlock(t)))
  {
  }

  lemma RUnlockKeepsTally(s: System, t: nat)
    requires Tallied(s) && Channelled(s) && t in s.reading
    ensures Tallied(Apply(s, RUnlock(t)))
  {
  }

  lemma CancelLockKeepsTally(s: System, t: nat)
    requires Tallied(s) && Channelled(s) && t in s.writersParked
    ensures Tallied(Apply(s, CancelLock(t)))
  {
    MapSizes(s.writersParked, t, 0);
  }

  lemma CancelRLockKeepsTally(s: System, t: nat)
    requires Tallied(s) && t in s.readersParked
    ensures Tallied(Apply(s, CancelRLock(t)))
  {
  }

  lemma LeavingKeepsTally(s: System, step: Step)
    requires Tallied(s) && Channelled(s) && Leaving(step) && Enabled(s, step)
    ensures Tallied(Apply(s, step))
  {
    hide Tallied, Channelled;
    if step.Unlock? {
      UnlockKeepsTally(s, step.t);
    } else if step.RUnlock? {
      RUnlockKeepsTally(s, step.t);
    } else if step.CancelLock? {
      CancelLockKeepsTally(s, step.t);
    } else {
      CancelRLockKeepsTally(s, step.t);
    }
  }

  lemma LeavingKeepsChannels(s: System, step: Step)
    requires Channelled(s) && Leaving(step) && Enabled(s, step)
    ensures Channelled(Apply(s, step))
  {
  }

  lemma LeavingKeepsWakeups(s: System, step: Step)
    requires Tallied(s) && Channelled(s) && NoLostWakeup(s) && Leaving(step) && Enabled(s, step)
    ensures NoLostWakeup(Apply(s, step))
  {
  }

  lemma LeavingKeepsInv(s: System, step: Step)
    requires Inv(s) && Enabled(s, step)
    requires Leaving(step)
    ensures Inv(Apply(s, step))
  {
    hide Tallied, Channelled, NoLostWakeup, Enabled, Apply;
    LeavingKeepsTally(s, step);
    LeavingKeepsChannels(s, step);
    LeavingKeepsWakeups(s, step);
  }

  lemma StepKeepsInv(s: System, step: Step)
    requires Inv(s) && Enabled(s, step)
    ensures Inv(Apply(s, step))
  {
    match step
    case Lock(t, cancelled) => if cancelled { CancelledTurnKeepsInv(s, t); } else { WriterTurnKeepsInv(s, t); }
    case ResumeLock(t, cancelled) => if cancelled { CancelledTurnKeepsInv(s, t); } else { WriterTurnKeepsInv(s, t); }
    case RLock(t, cancelled) => ReaderTurnKeepsInv(s, t, cancelled);
    case ResumeRLock(t, cancelled) => ReaderTurnKeepsInv(s, t, cancelled);
    case _ => LeavingKeepsInv(s, step);
  }

  lemma {:induction false} RunKeepsInv(s: System, steps: seq<Step>)
    requires Inv(s) && CanRun(s, steps)
    ensures Inv(Run(s, steps))
    decreases |steps|
  {
    if steps != [] {
      StepKeepsInv(s, steps[0]);
      RunKeepsInv(Apply(s, steps[0]), steps[1..]);
    }
  }

  lemma ReachableInv(s: System)
    requires Reachable(s)
    ensures Inv(s)
  {
    var steps :| CanRun(START, steps) && Run(START, steps) == s;
    RunKeepsInv(START, steps);
  }

  // ---- What callers see ----

  /** The lock without counters and channels: who waits, who holds it, and which waiters have not been
      woken since they last looked. */
  datatype Monitor = Monitor(
    writersWaiting: set<nat>, readersWaiting: set<nat>, writing: set<nat>, reading: set<nat>,
    writersAsleep: set<nat>, readersAsleep: set<nat>)

  /** The threads parked on the channel that is still open. */
  function Asleep(parked: map<nat, nat>, notify: Notify): set<nat> {
    set t | t in parked && notify == Channel(parked[t])
  }

  function Seen(s: System): Monitor {
    Monitor(s.writersParked.Keys, s.readersParked.Keys, s.writing, s.reading,
            Asleep(s.writersParked, s.lock.notify), Asleep(s.readersParked, s.lock.notify))
  }

  function WakeAll(m: Monitor): Monitor { m.(writersAsleep := {}, readersAsleep := {}) }

  /** A writer enters when nobody holds the lock and goes to sleep otherwise; a cancelled one wakes everybody. */
  function WriterTries(m: Monitor, t: nat, cancelled: bool): Monitor {
    if cancelled then WakeAll(m.(writersWaiting := m.writersWaiting - {t}))
    else if m.writing == {} && m.reading == {} then
      m.(writersWaiting := m.writersWaiting - {t}, writersAsleep := m.writersAsleep - {t}, writing := {t})
    else m.(writersWaiting := m.writersWaiting + {t}, writersAsleep := m.writersAsleep + {t})
  }

  /** A reader enters when no writer holds the lock or waits for it and goes to sleep otherwise; a cancelled
      one just leaves. */
  function ReaderTries(m: Monitor, t: nat, cancelled: bool): Monitor {
    if cancelled then m.(readersWaiting := m.readersWaiting - {t}, readersAsleep := m.readersAsleep - {t})
    else if m.writing == {} && m.writersWaiting == {} then
      m.(readersWaiting := m.readersWaiting - {t}, readersAsleep := m.readersAsleep - {t}, reading := m.reading + {t})
    else m.(readersWaiting := m.readersWaiting + {t}, readersAsleep := m.readersAsleep + {t})
  }

  function Shows(m: Monitor, step: Step): Monitor {
    match step
    case Lock(t, cancelled) => WriterTries(m, t, cancelled)
    case ResumeLock(t, cancelled) => WriterTries(m, t, cancelled)
    case CancelLock(t) => WriterTries(m, t, true)
    case RLock(t, cancelled) => ReaderTries(m, t, cancelled)
    case ResumeRLock(t, cancelled) => ReaderTries(m, t, cancelled)
    case CancelRLock(t) => ReaderTries(m, t, true)
    case Unlock(t) => WakeAll(m.(writing := {}))
    case RUnlock(t) => if m.reading == {t} then WakeAll(m.(reading := {})) else m.(reading := m.reading - {t})
  }

  /** A waiting thread may go on exactly when it has been woken. */
  predicate MayGoOn(m: Monitor, step: Step) {
    match step
    case ResumeLock(t, _) => t in m.writersWaiting - m.writersAsleep
    case ResumeRLock(t, _) => t in m.readersWaiting - m.readersAsleep
    case CancelLock(t) => t in m.writersWaiting
    case CancelRLock(t) => t in m.readersWaiting
    case Unlock(t) => t in m.writing
    case RUnlock(t) => t in m.reading
    case _ => step.t !in m.writersWaiting + m.readersWaiting + m.writing + m.reading
  }

  /** Closing the channel wakes every thread parked so far. */
  lemma NobodyAsleep(parked: map<nat, nat>, made: nat)
    requires Made(parked, made)
    ensures forall t :: Asleep(parked - {t}, Channel(made)) == {}
    ensures Asleep(parked, Channel(made)) == {}
  {
  }

  /** Parking, and leaving, changes the sleepers by the one thread. */
  lemma OneAsleep(parked: map<nat, nat>, notify: Notify, t: nat)
    ensures Asleep(parked - {t}, notify) == Asleep(parked, notify) - {t}
    ensures notify.Channel? ==> Asleep(parked[t := notify.id], notify) == Asleep(parked, notify) + {t}
    ensures (parked - {t}).Keys == parked.Keys - {t} && parked[t := 0].Keys == parked.Keys + {t}
  {
  }

  lemma NoChannelNobodyAsleep(s: System)
    requires Channelled(s)
    ensures Asleep(s.writersParked, WithChannel(s.lock).notify) == Asleep(s.writersParked, s.lock.notify)
    ensures Asleep(s.readersParked, WithChannel(s.lock).notify) == Asleep(s.readersParked, s.lock.notify)
  {
  }

  /** The tests of the counters are tests of the threads they count. */
  lemma GuardsCount(s: System)
    requires Tallied(s)
    ensures !s.lock.writer && s.lock.waitingWriters == 0 <==> s.writing == {} && s.writersParked.Keys == {}
    ensures !s.lock.writer && s.lock.readers == 0 <==> s.writing == {} && s.reading == {}
  {
    assert |s.writersParked| == |s.writersParked.Keys|;
  }

  lemma ReaderTurnShows(s: System, t: nat, cancelled: bool)
    requires Tallied(s) && Channelled(s)
    ensures Seen(AfterReaderTurn(s, t, ReaderTurn(WithChannel(s.lock), cancelled))) == ReaderTries(Seen(s), t, cancelled)
  {
    hide Asleep, Tallied, Channelled;
    GuardsCount(s);
    NoChannelNobodyAsleep(s);
    OneAsleep(s.readersParked, WithChannel(s.lock).notify, t);
  }

  lemma WriterTurnShows(s: System, t: nat, cancelled: bool)
    requires Tallied(s) && Channelled(s)
    ensures Seen(AfterWriterTurn(s, t, WriterTurn(Queued(s, t), cancelled))) == WriterTries(Seen(s), t, cancelled)
  {
    hide Seen, Tallied, Channelled, AfterWriterTurn, WriterTries;
    if cancelled {
      CancelledShows(s, t);
    } else {
      LiveWriterShows(s, t, Queued(s, t));
    }
  }

  lemma LiveWriterShows(s: System, t: nat, m: Shared)
    requires Tallied(s) && Channelled(s)
    requires m.notify == WithChannel(s.lock).notify && m.writer == s.lock.writer && m.readers == s.lock.readers
    ensures Seen(AfterWriterTurn(s, t, WriterTurn(m, false))) == WriterTries(Seen(s), t, false)
  {
    hide Asleep, Tallied, Channelled, WithChannel;
    GuardsCount(s);
    NoChannelNobodyAsleep(s);
    OneAsleep(s.writersParked, m.notify, t);
    assert {} + {t} == {t};
  }

  lemma CancelledShows(s: System, t: nat)
    requires Channelled(s)
    ensures Seen(AfterWriterTurn(s, t, WriterTurn(Queued(s, t), true))) == WriterTries(Seen(s), t, true)
  {
    hide Asleep;
    NobodyAsleep(s.writersParked, WithChannel(s.lock).made);
    NobodyAsleep(s.readersParked, WithChannel(s.lock).made);
    OneAsleep(s.writersParked, s.lock.notify, t);
  }

  lemma LeavingShows(s: System, step: Step)
    requires Tallied(s) && Channelled(s) && Leaving(step) && Enabled(s, step)
    ensures Seen(Apply(s, step)) == Shows(Seen(s), step)
  {
    hide Asleep;
    NobodyAsleep(s.writersParked, s.lock.made);
    NobodyAsleep(s.readersParked, s.lock.made);
    if step.CancelLock? {
      OneAsleep(s.writersParked, s.lock.notify, step.t);
    } else if step.CancelRLock? {
      OneAsleep(s.readersParked, s.lock.notify, step.t);
    } else if step.Unlock? {
      assert |s.writing - {step.t}| == 0;
    } else {
      assert |s.reading - {step.t}| == |s.reading| - 1;
      assert s.reading == {step.t} <==> s.reading - {step.t} == {};
    }
  }

  /** The counters and channels do what the monitor does: for every reachable lock and every thread, who may
      take a step and who then waits, sleeps and holds the lock. */
  lemma StepRefinesMonitor(s: System, step: Step)
    requires Reachable(s)
    ensures Enabled(s, step) <==> MayGoOn(Seen(s), step)
    ensures Enabled(s, step) ==> Seen(Apply(s, step)) == Shows(Seen(s), step)
  {
    ReachableInv(s);
    hide Reachable, Tallied, Channelled, NoLostWakeup, Seen, WriterTries, ReaderTries, Apply, Enabled;
    MayStep(s, step);
    if Enabled(s, step) {
      match step
      case Lock(t, cancelled) => WriterTakesTurn(s, step); WriterTurnShows(s, t, cancelled);
      case ResumeLock(t, cancelled) => WriterTakesTurn(s, step); WriterTurnShows(s, t, cancelled);
      case RLock(t, cancelled) => ReaderTakesTurn(s, step); ReaderTurnShows(s, t, cancelled);
      case ResumeRLock(t, cancelled) => ReaderTakesTurn(s, step); ReaderTurnShows(s, t, cancelled);
      case _ => LeavingShows(s, step);
    }
  }

  lemma WriterTakesTurn(s: System, step: Step)
    requires Tallied(s) && Enabled(s, step) && (step.Lock? || step.ResumeLock?)
    ensures Apply(s, step) == AfterWriterTurn(s, step.t, WriterTurn(Queued(s, step.t), step.cancelled))
  {
    hide AfterWriterTurn, WriterTurn;
  }

  lemma ReaderTakesTurn(s: System, step: Step)
    requires step.RLock? || step.ResumeRLock?
    ensures Apply(s, step) == AfterReaderTurn(s, step.t, ReaderTurn(WithChannel(s.lock), step.cancelled))
  {
    hide AfterReaderTurn, ReaderTurn;
  }

  lemma MayStep(s: System, step: Step)
    ensures Enabled(s, step) <==> MayGoOn(Seen(s), step)
  {
  }

  /** Unlocking panics exactly when the lock is not held that way. */
  lemma MisusePanics(s: System)
    requires Reachable(s)
    ensures EndWrite(s.lock).panicked <==> s.writing == {}
    ensures EndRead(s.lock).panicked <==> s.reading == {}
  {
    ReachableInv(s);
  }

  /** A writer excludes every other thread. */
  lemma MutualExclusion(s: System, t: nat)
    requires Reachable(s) && t in s.writing
    ensures s.writing == {t} && s.reading == {}
  {
    ReachableInv(s);
    assert |s.writing - {t}| == 0;
  }

  /** A step that lets a reader in happens while no writer holds or waits for the lock. */
  lemma ReadersNeverOvertakeWriters(s: System, step: Step)
    requires Reachable(s) && Enabled(s, step) && !(Apply(s, step).reading <= s.reading)
    ensures s.writersParked == map[] && s.writing == {}
  {
    ReachableInv(s);
  }

  /** No wakeup is lost: a parked thread whose guard is true has had its channel closed, and
      its next turn lets it in. */
  lemma FreeWaiterEnters(s: System, t: nat)
    requires Reachable(s)
    ensures t in s.writersParked && !WriterBlocked(s.lock) ==>
              Enabled(s, ResumeLock(t, false)) && t in Apply(s, ResumeLock(t, false)).writing
    ensures t in s.readersParked && !ReaderBlocked(s.lock) ==>
              Enabled(s, ResumeRLock(t, false)) && t in Apply(s, ResumeRLock(t, false)).reading
  {
    ReachableInv(s);
  }

  /** No deadlock: when nobody holds the lock, some waiting thread can enter at once, however
      the other waiters were cancelled before. */
  lemma SomeWaiterEnters(s: System) returns (step: Step)
    requires Reachable(s) && s.writing == {} && s.reading == {}
    requires s.writersParked != map[] || s.readersParked != map[]
    ensures Enabled(s, step)
    ensures step.t in Apply(s, step).writing + Apply(s, step).reading
  {
    ReachableInv(s);
    if s.writersParked != map[] {
      var t :| t in s.writersParked;
      FreeWaiterEnters(s, t);
      return ResumeLock(t, false);
    }
    var t :| t in s.readersParked;
    FreeWaiterEnters(s, t);
    return ResumeRLock(t, false);
  }

  ghost predicate WaitsThroughout(s: System, steps: seq<Step>, w: nat)
    decreases |steps|
  {
    w in s.writersParked && (steps != [] ==> WaitsThroughout(Apply(s, steps[0]), steps[1..], w))
  }

  /** While a writer waits the readers can only drain: none enters until it has had its turn. */
  lemma {:induction false} ReadersDrain(s: System, steps: seq<Step>, w: nat)
    requires Inv(s) && CanRun(s, steps) && WaitsThroughout(s, steps, w)
    ensures Run(s, steps).reading <= s.reading
    decreases |steps|
  {
    if steps != [] {
      assert s.lock.waitingWriters > 0;
      StepKeepsInv(s, steps[0]);
      ReadersDrain(Apply(s, steps[0]), steps[1..], w);
    }
  }
}
