/**
 Forwarding a runner's events to the caller: the stream translator, the terminal audit record, the
 handoff and the durable outcome, under any cancellation and any failure of the calls it makes.
 */
module Dispatch {
  import opened Options
  import opened Text

  // ---------------------------------------------------------------------------------------------
  // Runner events and the stream
  // ---------------------------------------------------------------------------------------------

  datatype Choice = Choice(delta: string, message: string)

  datatype RunnerEvent = Blank | Response(failed: bool, choices: seq<Choice>, done: bool, partial: bool)

  datatype Item = Message(text: string) | Progress(status: string) | Fault(error: string) | Done(status: string)

  function ChoiceText(c: Choice): string { if c.delta == "" then c.message else c.delta }

  function ResponseText(choices: seq<Choice>): string {
    if choices == [] then "" else ResponseText(choices[..|choices| - 1]) + ChoiceText(choices[|choices| - 1])
  }

  method BuildText(choices: seq<Choice>) returns (text: string)
    ensures text == ResponseText(choices)
  {
    text := "";
    for i := 0 to |choices|
      invariant text == ResponseText(choices[..i])
    {
      assert choices[..i + 1][..i] == choices[..i];
      var part := choices[i].delta;
      if part == "" {
        part := choices[i].message;
      }
      if part != "" {
        text := text + part;
      }
    }
    assert choices[..|choices|] == choices;
  }

  /** The message text of an event; an event that reports an error has none. */
  function EventText(e: RunnerEvent): string {
    if e.Response? && !e.failed then ResponseText(e.choices) else ""
  }

  /** `mapRunnerEvent`: the items for the stream, and whether the event ends it. */
  function MapEvent(e: RunnerEvent): (seq<Item>, bool) {
    match e
    case Blank => ([Progress("progress")], false)
    case Response(failed, choices, done, partial) =>
      if failed then ([Fault("execution"), Done("error")], true)
      else
        var message := if EventText(e) == "" then [] else [Message(EventText(e))];
        if done then (message + [Done("complete")], true)
        else if message == [] then ([Progress(if partial then "partial" else "progress")], false)
        else (message, false)
  }

  // ---------------------------------------------------------------------------------------------
  // The calls a dispatch makes
  // ---------------------------------------------------------------------------------------------

  datatype Kind = Completed | Failed | Canceled

  datatype Error = ExecutionError | AuditError | ContextError(deadline: bool)

  /**
   What is configured, and how each call turns out: the n-th audit append, handoff, blocking send of
   an item and non-blocking send, the send of the last item, the materialization, and the transition
   that stores the outcome of the message. A blocking send fails only because the context ended, with
   `deadline` or without.
   */
  datatype Env = Env(
    hasAudit: bool, hasHandoff: bool, hasMaterializer: bool, durable: bool, deadline: bool,
    audit: nat -> bool, handoff: nat -> bool, send: nat -> bool, trySend: nat -> bool,
    sendDone: bool, materialize: bool, transition: bool)

  /**
   The variables of `forward`; `records` are the audit appends that succeeded, `requested` is the
   outcome the store is asked to record and `durable` the one it has recorded.
   */
  datatype State = State(
    output: seq<Item>, reply: string, error: Option<Error>, kind: Option<Kind>,
    finalized: bool, records: seq<Kind>,
    audits: nat, handoffs: nat, sends: nat, tries: nat,
    materialized: Option<string>, requested: Option<Kind>, durable: Option<Kind>, released: nat)

  const START := State([], "", None, None, false, [], 0, 0, 0, 0, None, None, None, 0)

  /** `finalizeAudit`: one successful append is enough, and without a writer there is nothing to append. */
  function Audit(w: Env, s: State, kind: Kind): (State, bool) {
    if s.finalized then (s, true)
    else if !w.hasAudit then (s.(finalized := true), true)
    else
      var ok := w.audit(s.audits);
      (s.(audits := s.audits + 1, finalized := ok, records := if ok then s.records + [kind] else s.records), ok)
  }

  function Handoff(w: Env, s: State): (State, bool) {
    if !w.hasHandoff then (s, true)
    else (s.(handoffs := s.handoffs + 1), w.handoff(s.handoffs))
  }

  function Send(w: Env, s: State, item: Item): (State, bool) {
    var ok := w.send(s.sends);
    (s.(sends := s.sends + 1, output := if ok then s.output + [item] else s.output), ok)
  }

  function TrySend(w: Env, s: State, item: Item): State {
    s.(tries := s.tries + 1, output := if w.trySend(s.tries) then s.output + [item] else s.output)
  }

  function FinishAuditFailure(w: Env, s: State): State {
    TrySend(w, TrySend(w, s, Fault("audit write failed")), Done("error"))
  }

  function FinishCanceled(w: Env, s: State): State {
    TrySend(w, TrySend(w, s, Fault("execution canceled")), Done(if w.deadline then "deadline_exceeded" else "canceled"))
  }

  // ---------------------------------------------------------------------------------------------
  // The handlers
  // ---------------------------------------------------------------------------------------------

  /** The audit record and the handoff that both endings write; `None` when one of them failed. */
  function Conclude(w: Env, s: State, kind: Kind): (State, bool) {
    var (s1, audited) := Audit(w, s.(kind := Some(kind)), kind);
    if audited then Handoff(w, s1) else (s1, false)
  }

  function StreamClosed(w: Env, s: State): State {
    var (s1, ok) := Conclude(w, s, Completed);
    if ok then TrySend(w, s1, Done("complete")).(error := None)
    else FinishAuditFailure(w, s1).(error := Some(AuditError))
  }

  function Cancellation(w: Env, s: State): State {
    var (s1, ok) := Conclude(w, s, Canceled);
    if ok then FinishCanceled(w, s1).(error := Some(ContextError(w.deadline)))
    else FinishAuditFailure(w, s1).(error := Some(AuditError))
  }

  /** What an item adds to the reply, or says about the run. */
  function Noted(s: State, item: Item): State {
    match item
    case Message(text) => s.(reply := s.reply + text)
    case Fault(_) => s.(error := Some(ExecutionError))
    case _ => s
  }

  /** The items before the last one, with what each adds to the reply; stops when a send fails. */
  function SendItems(w: Env, s: State, items: seq<Item>): (State, bool)
    decreases |items|
  {
    if items == [] then (s, true)
    else if items[0].Done? then SendItems(w, s, items[1..])
    else
      var s1 := Noted(s, items[0]);
      var (s2, ok) := Send(w, s1, items[0]);
      if ok then SendItems(w, s2, items[1..]) else (s2.(error := Some(ContextError(w.deadline))), false)
  }

  /** The handoff, and then the last item. */
  function HandOver(w: Env, s: State, last: Item): State {
    var (s1, handed) := Handoff(w, s);
    if handed then s1.(output := if w.sendDone then s1.output + [last] else s1.output)
    else FinishAuditFailure(w, s1.(error := Some(AuditError)))
  }

  /** The end of a run that its last event ended and the audit recorded. */
  function Deliver(w: Env, s: State, items: seq<Item>): State
    requires items != []
  {
    var (s1, sent) := SendItems(w, s, items);
    if sent then HandOver(w, s1, items[|items| - 1]) else s1
  }

  /** `handleForwardRunnerEvent`: the new state, and whether forwarding is over. */
  function Event(w: Env, s: State, e: RunnerEvent): (State, bool) {
    var (items, done) := MapEvent(e);
    if !done then
      var (s1, ok) := SendItems(w, s, items);
      (s1, !ok)
    else
      var error := if e.failed then Some(ExecutionError) else None;
      var kind := if e.failed then Failed else Completed;
      var (s1, audited) := Audit(w, s.(error := error, kind := Some(kind)), kind);
      if audited then (Deliver(w, s1, items), true)
      else (FinishAuditFailure(w, s1.(error := Some(ExecutionError))), true)
  }

  /** The transition of the message, whose error is discarded. */
  function Store(w: Env, s: State, outcome: Kind): State {
    s.(requested := Some(outcome), durable := if w.transition then Some(outcome) else None)
  }

  /** `finishDurable`. */
  function FinishDurable(w: Env, s: State): State {
    if !w.durable then s
    else if s.error.Some? then Store(w, s, Failed)
    else if !w.hasMaterializer || Trim(s.reply) == "" then Store(w, s, Completed)
    else if w.materialize then Store(w, s.(materialized := Some(s.reply)), Completed)
    else Store(w, s, Failed)
  }

  function Else<T>(o: Option<T>, e: T): Option<T> { if o.Some? then o else Some(e) }

  /** The kind of a run whose handlers set none. */
  function DefaultKind(error: Option<Error>): Kind {
    match error
    case None => Completed
    case Some(ContextError(_)) => Canceled
    case Some(_) => Failed
  }

  /** The first part of `finalizeForward`: the handoff, and a missing audit record, are tried again. */
  function TryAgain(w: Env, s: State): State {
    var kind := Else(s.kind, DefaultKind(s.error)).value;
    var (s1, handed) := Handoff(w, s);
    var s2 := if handed then s1 else s1.(error := Else(s1.error, AuditError));
    var (s3, audited) := Audit(w, s2, kind);
    if audited then s3 else s3.(error := Else(s3.error, ExecutionError))
  }

  /** `finalizeForward`, and the deferred release. */
  function Finalize(w: Env, s: State): State {
    var s1 := FinishDurable(w, TryAgain(w, s));
    s1.(released := s1.released + 1)
  }

  // ---------------------------------------------------------------------------------------------
  // The whole run
  // ---------------------------------------------------------------------------------------------

  /** How the events stop coming: the runner closes its channel, or the context ends. */
  datatype Ending = Closed | ContextDone

  /** Handling the first `n` events; the flag says that one of them ended the run. */
  function Handled(w: Env, events: seq<RunnerEvent>, n: nat): (State, bool)
    requires n <= |events|
  {
    if n == 0 then (START, false)
    else
      var (s, over) := Handled(w, events, n - 1);
      if over then (s, true) else Event(w, s, events[n - 1])
  }

  function Looped(w: Env, events: seq<RunnerEvent>, ending: Ending): State {
    var (s, over) := Handled(w, events, |events|);
    if over then s else match ending case Closed => StreamClosed(w, s) case ContextDone => Cancellation(w, s)
  }

  function Forward(w: Env, events: seq<RunnerEvent>, ending: Ending): State {
    Finalize(w, Looped(w, events, ending))
  }

  /** The loop, which leaves as soon as a handler says so. */
  method ForwardEvents(w: Env, events: seq<RunnerEvent>, ending: Ending) returns (s: State)
    ensures s == Forward(w, events, ending)
  {
    hide Event, Finalize, StreamClosed, Cancellation;
    s := START;
    var over, i := false, 0;
    while !over && i < |events|
      invariant i <= |events|
      invariant (s, over) == Handled(w, events, i)
      decreases |events| - i
    {
      var (next, stop) := Event(w, s, events[i]);
      s, over, i := next, stop, i + 1;
    }
    if over {
      OverStaysOver(w, events, i, |events|);
    } else {
      match ending {
        case Closed => s := StreamClosed(w, s);
        case ContextDone => s := Cancellation(w, s);
      }
    }
    s := Finalize(w, s);
  }

  lemma {:induction false} OverStaysOver(w: Env, events: seq<RunnerEvent>, i: nat, n: nat)
    requires i <= n <= |events| && Handled(w, events, i).1
    ensures Handled(w, events, n) == Handled(w, events, i)
  {
    hide Event;
    if i < n {
      OverStaysOver(w, events, i, n - 1);
    }
  }

  // ---------------------------------------------------------------------------------------------
  // What the handlers keep
  // ---------------------------------------------------------------------------------------------

  function ItemText(item: Item): string { if item.Message? then item.text else "" }

  /** The message texts on a stream, in order. */
  function Texts(items: seq<Item>): string {
    if items == [] then "" else Texts(items[..|items| - 1]) + ItemText(items[|items| - 1])
  }

  /** The message texts of a runner's events, in order. */
  function AllText(events: seq<RunnerEvent>): string {
    if events == [] then "" else AllText(events[..|events| - 1]) + EventText(events[|events| - 1])
  }

  predicate NoDone(items: seq<Item>) { forall i | 0 <= i < |items| :: !items[i].Done? }

  predicate NoFault(items: seq<Item>) { forall i | 0 <= i < |items| :: !items[i].Fault? }

  /** At most one `Done`, and nothing after it. */
  predicate DoneLast(items: seq<Item>) { items == [] || NoDone(items[..|items| - 1]) }

  lemma TextsAppend(items: seq<Item>, item: Item)
    ensures Texts(items + [item]) == Texts(items) + ItemText(item)
    ensures !item.Message? ==> Texts(items + [item]) == Texts(items)
  {
    assert (items + [item])[..|items|] == items;
  }

  lemma AppendLast(items: seq<Item>, item: Item)
    requires NoDone(items)
    ensures DoneLast(items + [item]) && (!item.Done? ==> NoDone(items + [item]))
  {
    assert (items + [item])[..|items|] == items;
  }

  predicate Unstored(s: State) {
    s.materialized == None && s.requested == None && s.durable == None && s.released == 0
  }

  /** While events are forwarded: nothing recorded, nothing failed, and the reply is what was streamed. */
  predicate Open(s: State) {
    && s.error == None && s.kind == None && !s.finalized && s.records == [] && Unstored(s)
    && NoDone(s.output) && s.reply == Texts(s.output)
  }

  /** What is recorded so far is at most the one terminal record of the run's kind. */
  predicate Recorded(w: Env, s: State) {
    if s.finalized then s.kind.Some? && s.records == (if w.hasAudit then [s.kind.value] else []) else s.records == []
  }

  /** Only a completed run is free of error. */
  predicate Judged(s: State) {
    && (s.kind != Some(Completed) ==> s.error.Some?)
    && (s.kind == None ==> !s.finalized)
  }

  /** After the loop. */
  predicate Settled(w: Env, s: State) {
    && DoneLast(s.output) && Recorded(w, s) && Judged(s)
    && (s.error.None? ==> s.finalized && s.reply == Texts(s.output)) && Unstored(s)
  }

  lemma ItemsKept(w: Env, s: State, items: seq<Item>)
    requires NoDone(s.output) && s.reply == Texts(s.output)
    ensures var (s', ok) := SendItems(w, s, items);
      && NoDone(s'.output)
      && s' == s.(output := s'.output, reply := s'.reply, error := s'.error, sends := s'.sends)
      && (ok ==> s'.reply == Texts(s'.output))
      && (ok && NoFault(items) ==> s'.error == s.error)
      && (ok && s.error == Some(ExecutionError) ==> s'.error == s.error)
      && (!ok ==> s'.error == Some(ContextError(w.deadline)))
    decreases |items|
  {
    hide Texts, NoDone;
    if items != [] {
      if items[0].Done? {
        ItemsKept(w, s, items[1..]);
      } else {
        TextsAppend(s.output, items[0]);
        AppendLast(s.output, items[0]);
        var s1 := Noted(s, items[0]);
        var (s2, ok) := Send(w, s1, items[0]);
        if ok {
          ItemsKept(w, s2, items[1..]);
        }
      }
    }
  }

  lemma AuditFailureSettles(w: Env, s: State)
    requires NoDone(s.output)
    ensures var s' := FinishAuditFailure(w, s);
      DoneLast(s'.output) && s' == s.(output := s'.output, tries := s'.tries)
  {
    TwoTries(w, s, Fault("audit write failed"), Done("error"));
  }

  lemma TwoTries(w: Env, s: State, first: Item, last: Item)
    requires NoDone(s.output) && !first.Done?
    ensures var s' := TrySend(w, TrySend(w, s, first), last);
      DoneLast(s'.output) && s' == s.(output := s'.output, tries := s'.tries)
  {
    hide NoDone, DoneLast;
    AppendLast(s.output, first);
    AppendLast(TrySend(w, s, first).output, last);
    NoDoneIsLast(s.output);
    NoDoneIsLast(TrySend(w, s, first).output);
  }

  lemma NoDoneIsLast(items: seq<Item>)
    ensures NoDone(items) ==> DoneLast(items)
  {
  }

  lemma ConcludeKept(w: Env, s: State, kind: Kind)
    requires Open(s)
    ensures var (s', ok) := Conclude(w, s, kind);
      && s'.output == s.output && s'.reply == s.reply && s'.kind == Some(kind) && s'.error == None
      && Recorded(w, s') && (ok ==> s'.finalized) && Unstored(s')
  {
  }

  lemma EndingSettles(w: Env, s: State, ending: Ending)
    requires Open(s)
    ensures Settled(w, match ending case Closed => StreamClosed(w, s) case ContextDone => Cancellation(w, s))
  {
    hide Settled, StreamClosed, Cancellation;
    match ending
    case Closed => ClosingSettles(w, s);
    case ContextDone => CancellationSettles(w, s);
  }

  lemma ClosingSettles(w: Env, s: State)
    requires Open(s)
    ensures Settled(w, StreamClosed(w, s))
  {
    hide NoDone, DoneLast, Texts, Conclude, FinishAuditFailure;
    ConcludeKept(w, s, Completed);
    var (s1, ok) := Conclude(w, s, Completed);
    AuditFailureSettles(w, s1);
    NoDoneIsLast(s1.output);
    AppendLast(s1.output, Done("complete"));
    TextsAppend(s1.output, Done("complete"));
  }

  lemma CancellationSettles(w: Env, s: State)
    requires Open(s)
    ensures Settled(w, Cancellation(w, s))
  {
    hide NoDone, DoneLast, Texts, Conclude, FinishAuditFailure, TrySend;
    ConcludeKept(w, s, Canceled);
    var (s1, ok) := Conclude(w, s, Canceled);
    AuditFailureSettles(w, s1);
    TwoTries(w, s1, Fault("execution canceled"), Done(if w.deadline then "deadline_exceeded" else "canceled"));
  }

  /** An event maps to at most one item besides the last, and that item carries the event's text. */
  lemma MappedItems(e: RunnerEvent)
    ensures var (items, done) := MapEvent(e);
      && 1 <= |items| <= 2 && (done <==> items[|items| - 1].Done?) && (|items| == 2 ==> done && !items[0].Done?)
      && (done ==> e.Response?)
      && ItemText(items[0]) == EventText(e)
      && (NoFault(items) <==> !(e.Response? && e.failed)) && (NoFault(items) || done)
  {
  }

  /** Sending the items of an event puts its text on the stream, or nothing when the send fails. */
  lemma ItemsText(w: Env, s: State, items: seq<Item>)
    requires 1 <= |items| <= 2 && (|items| == 2 ==> !items[0].Done? && items[1].Done?)
    ensures var (s', ok) := SendItems(w, s, items);
      Texts(s'.output) == Texts(s.output) + if ok then ItemText(items[0]) else ""
  {
    hide Texts;
    TextsAppend(s.output, items[0]);
    assert |items| == 2 ==> items[1..] == [items[1]];
    assert |items| == 1 ==> items[1..] == [];
    assert forall t :: SendItems(w, t, []) == (t, true);
    assert forall t :: |items| == 2 ==> SendItems(w, t, [items[1]]) == (t, true);
  }

  lemma QuietEventKept(w: Env, s: State, e: RunnerEvent)
    requires Open(s) && !MapEvent(e).1
    ensures var (s', over) := Event(w, s, e);
      && (if over then Settled(w, s') else Open(s'))
      && Texts(s'.output) == Texts(s.output) + if over then "" else EventText(e)
  {
    hide MapEvent, SendItems, Texts, NoDone, DoneLast, NoFault;
    var items := MapEvent(e).0;
    MappedItems(e);
    ItemsKept(w, s, items);
    ItemsText(w, s, items);
    NoDoneIsLast(SendItems(w, s, items).0.output);
  }

  /** The state once the terminal record of a run that its last event ended is written. */
  predicate Concluded(w: Env, s: State, failed: bool) {
    && s.error == (if failed then Some(ExecutionError) else None)
    && s.kind == Some(if failed then Failed else Completed)
    && s.finalized && Recorded(w, s) && Unstored(s)
    && NoDone(s.output) && s.reply == Texts(s.output)
  }

  lemma HandOverSettles(w: Env, s: State, failed: bool, last: Item)
    requires Concluded(w, s, failed) && last.Done?
    ensures Settled(w, HandOver(w, s, last)) && Texts(HandOver(w, s, last).output) == Texts(s.output)
  {
    hide Texts, NoDone, DoneLast, FinishAuditFailure;
    var (s1, handed) := Handoff(w, s);
    if handed {
      AppendLast(s.output, last);
      TextsAppend(s.output, last);
      NoDoneIsLast(s.output);
    } else {
      FailureTexts(w, s1.(error := Some(AuditError)));
      AuditFailureSettles(w, s1.(error := Some(AuditError)));
    }
  }

  lemma DeliverSettles(w: Env, s: State, e: RunnerEvent)
    requires MapEvent(e).1 && e.Response? && MapEvent(e).0 != [] && Concluded(w, s, e.failed)
    ensures Settled(w, Deliver(w, s, MapEvent(e).0))
    ensures var texts := Texts(Deliver(w, s, MapEvent(e).0).output);
      texts == Texts(s.output) || texts == Texts(s.output) + EventText(e)
  {
    hide MapEvent, SendItems, Texts, NoDone, DoneLast, NoFault, HandOver, EventText, ItemText;
    var items := MapEvent(e).0;
    MappedItems(e);
    ItemsKept(w, s, items);
    ItemsText(w, s, items);
    var (s1, sent) := SendItems(w, s, items);
    if sent {
      assert Concluded(w, s1, e.failed);
      HandOverSettles(w, s1, e.failed, items[|items| - 1]);
    } else {
      NoDoneIsLast(s1.output);
    }
  }

  lemma LastEventKept(w: Env, s: State, e: RunnerEvent)
    requires Open(s) && MapEvent(e).1
    ensures var (s', over) := Event(w, s, e);
      && over && Settled(w, s')
      && (Texts(s'.output) == Texts(s.output) || Texts(s'.output) == Texts(s.output) + EventText(e))
  {
    hide MapEvent, Deliver, Texts, NoDone, DoneLast, NoFault, FinishAuditFailure;
    MappedItems(e);
    var error := if e.failed then Some(ExecutionError) else None;
    var kind := if e.failed then Failed else Completed;
    var (s1, audited) := Audit(w, s.(error := error, kind := Some(kind)), kind);
    if audited {
      DeliverSettles(w, s1, e);
    } else {
      AuditFailureSettles(w, s1.(error := Some(ExecutionError)));
      FailureTexts(w, s1.(error := Some(ExecutionError)));
    }
  }

  lemma FailureTexts(w: Env, s: State)
    ensures Texts(FinishAuditFailure(w, s).output) == Texts(s.output)
  {
    hide Texts;
    var s1 := TrySend(w, s, Fault("audit write failed"));
    TextsAppend(s.output, Fault("audit write failed"));
    TextsAppend(s1.output, Done("error"));
  }

  // ---------------------------------------------------------------------------------------------
  // Every run
  // ---------------------------------------------------------------------------------------------

  /** The stream carries the texts of the first events, in the runner's order. */
  ghost predicate InOrder(output: seq<Item>, events: seq<RunnerEvent>) {
    exists k | 0 <= k <= |events| :: Texts(output) == AllText(events[..k])
  }

  lemma {:induction false} HandledKept(w: Env, events: seq<RunnerEvent>, n: nat)
    requires n <= |events|
    ensures var (s, over) := Handled(w, events, n);
      if over then Settled(w, s) && InOrder(s.output, events)
      else Open(s) && Texts(s.output) == AllText(events[..n])
  {
    hide Event, Open, Settled, MapEvent, Texts;
    if n == 0 {
      StartIsOpen(events);
    } else {
      HandledKept(w, events, n - 1);
      var (s, over) := Handled(w, events, n - 1);
      if !over {
        var e := events[n - 1];
        assert events[..n][..n - 1] == events[..n - 1];
        if MapEvent(e).1 {
          LastEventKept(w, s, e);
        } else {
          QuietEventKept(w, s, e);
        }
      }
    }
  }

  lemma StartIsOpen(events: seq<RunnerEvent>)
    ensures Open(START) && Texts(START.output) == AllText(events[..0])
  {
  }

  lemma LoopedSettles(w: Env, events: seq<RunnerEvent>, ending: Ending)
    ensures Settled(w, Looped(w, events, ending))
  {
    hide Open, Settled, StreamClosed, Cancellation, InOrder;
    HandledKept(w, events, |events|);
    var (s, over) := Handled(w, events, |events|);
    if !over {
      EndingSettles(w, s, ending);
    }
  }

  /** What a finished run guarantees. */
  predicate Finished(w: Env, s: State) {
    && DoneLast(s.output) && |s.records| <= 1 && s.released == 1
    && (s.materialized.Some? ==> s.materialized.value == Texts(s.output) && s.requested == Some(Completed))
    && (s.requested == Some(Completed) ==> s.records == if w.hasAudit then [Completed] else [])
    && (w.durable <==> s.requested.Some?)
    && s.durable == if w.transition then s.requested else None
  }

  /** Before the durable outcome is recorded. */
  predicate Ready(w: Env, s: State) {
    && DoneLast(s.output) && |s.records| <= 1
    && (s.error.None? ==> s.reply == Texts(s.output) && s.records == if w.hasAudit then [Completed] else [])
    && Unstored(s)
  }

  lemma TryAgainReadies(w: Env, s: State)
    requires Settled(w, s)
    ensures Ready(w, TryAgain(w, s)) && TryAgain(w, s).output == s.output
  {
    hide DoneLast, Texts;
    var records := TryAgain(w, s).records;
    assert records != [] ==> records[0] == Else(s.kind, DefaultKind(s.error)).value;
  }

  lemma FinalizeFinishes(w: Env, s: State)
    requires Settled(w, s)
    ensures Finished(w, Finalize(w, s)) && Finalize(w, s).output == s.output
  {
    hide DoneLast, Texts, Trim, TryAgain, Settled;
    TryAgainReadies(w, s);
  }

  /** A run ends with at most one `Done`, last; at most one terminal record; and the lease released once. */
  lemma RunsEndProperly(w: Env, events: seq<RunnerEvent>, ending: Ending)
    ensures var s := Forward(w, events, ending);
      && (forall i | 0 <= i < |s.output| :: s.output[i].Done? ==> i == |s.output| - 1)
      && |s.records| <= 1 && s.released == 1
  {
    hide Looped, Settled, Finalize, Texts;
    LoopedSettles(w, events, ending);
    FinalizeFinishes(w, Looped(w, events, ending));
    var output := Forward(w, events, ending).output;
    forall i | 0 <= i < |output| - 1 ensures !output[i].Done? {
      assert output[i] == output[..|output| - 1][i];
    }
  }

  /** A materialized reply is the concatenation of the messages on the stream. */
  lemma ReplyIsTheStream(w: Env, events: seq<RunnerEvent>, ending: Ending)
    ensures var s := Forward(w, events, ending);
      s.materialized.Some? ==> s.materialized.value == Texts(s.output)
  {
    hide Looped, Settled, Finalize, Texts, DoneLast;
    LoopedSettles(w, events, ending);
    FinalizeFinishes(w, Looped(w, events, ending));
  }

  /** Those messages are the texts of the first events, in the runner's order. */
  lemma StreamIsInOrder(w: Env, events: seq<RunnerEvent>, ending: Ending)
    ensures InOrder(Forward(w, events, ending).output, events)
  {
    hide Open, Settled, Finalize, InOrder, Texts, StreamClosed, Cancellation;
    HandledKept(w, events, |events|);
    var (s, over) := Handled(w, events, |events|);
    LoopedSettles(w, events, ending);
    FinalizeFinishes(w, Looped(w, events, ending));
    if !over {
      EndingTexts(w, s, ending);
      WholeIsInOrder(Looped(w, events, ending).output, events);
    }
  }

  lemma WholeIsInOrder(output: seq<Item>, events: seq<RunnerEvent>)
    requires Texts(output) == AllText(events[..|events|])
    ensures InOrder(output, events)
  {
  }

  lemma EndingTexts(w: Env, s: State, ending: Ending)
    ensures Texts((match ending case Closed => StreamClosed(w, s) case ContextDone => Cancellation(w, s)).output)
      == Texts(s.output)
  {
    hide Texts, Audit, Handoff;
    var kind := match ending case Closed => Completed case ContextDone => Canceled;
    ConcludeOutput(w, s, kind);
    var s1 := Conclude(w, s, kind).0;
    FailureTexts(w, s1);
    TextsAppend(s1.output, Done("complete"));
    var s2 := TrySend(w, s1, Fault("execution canceled"));
    TextsAppend(s1.output, Fault("execution canceled"));
    TextsAppend(s2.output, Done(if w.deadline then "deadline_exceeded" else "canceled"));
  }

  lemma ConcludeOutput(w: Env, s: State, kind: Kind)
    ensures Conclude(w, s, kind).0.output == s.output
  {
  }

  /** A message is recorded completed, or asked to be, only when the audit says so too. */
  lemma CompletionIsAudited(w: Env, events: seq<RunnerEvent>, ending: Ending)
    requires w.hasAudit
    requires Forward(w, events, ending).requested == Some(Completed) || Forward(w, events, ending).durable == Some(Completed)
    ensures Forward(w, events, ending).records == [Completed]
  {
    hide Looped, Settled, Finalize, Texts, DoneLast;
    LoopedSettles(w, events, ending);
    FinalizeFinishes(w, Looped(w, events, ending));
  }

  // ---------------------------------------------------------------------------------------------
  // Exactly when a run is recorded as completed
  // ---------------------------------------------------------------------------------------------

  predicate Ends(e: RunnerEvent) { e.Response? && (e.failed || e.done) }

  /** The place of the first event that ends the stream, or the number of events. */
  function FirstEnd(events: seq<RunnerEvent>): (n: nat)
    ensures n <= |events| && (n < |events| ==> Ends(events[n]))
    ensures forall i | 0 <= i < n :: !Ends(events[i])
  {
    if events == [] || Ends(events[0]) then 0 else 1 + FirstEnd(events[1..])
  }

  /** The runner reports success: by its last event, or by closing its channel. */
  predicate Succeeds(events: seq<RunnerEvent>, ending: Ending) {
    var n := FirstEnd(events);
    if n < |events| then !events[n].failed else ending == Closed
  }

  /** The events up to the end, and what they say. */
  function Told(events: seq<RunnerEvent>): string {
    var n := FirstEnd(events);
    AllText(if n < |events| then events[..n + 1] else events[..n])
  }

  /** The last event still has a message to send. */
  predicate HasLastMessage(events: seq<RunnerEvent>) {
    var n := FirstEnd(events);
    n < |events| && EventText(events[n]) != ""
  }

  predicate AllSent(w: Env, n: nat) { forall i: nat | i < n :: w.send(i) }

  /** The terminal record says completed: the runner succeeds, every item before the end is sent, and the
      append succeeds at the first or the second attempt. */
  predicate AuditsCompletion(w: Env, events: seq<RunnerEvent>, ending: Ending) {
    w.hasAudit && Succeeds(events, ending) && AllSent(w, FirstEnd(events)) && (w.audit(0) || w.audit(1))
  }

  /** The run is over and nothing failed: besides, the last message, the first append and both handoffs
      succeed wherever they are called for. */
  predicate Completes(w: Env, events: seq<RunnerEvent>, ending: Ending) {
    && Succeeds(events, ending)
    && AllSent(w, FirstEnd(events)) && (HasLastMessage(events) ==> w.send(FirstEnd(events)))
    && (w.hasAudit ==> w.audit(0))
    && (w.hasHandoff ==> w.handoff(0) && w.handoff(1))
  }

  /** There is a reply to materialize. */
  predicate HasReply(w: Env, events: seq<RunnerEvent>) { w.hasMaterializer && Trim(Told(events)) != "" }

  /** The message is stored as completed: besides, a needed materialization and the transition succeed. */
  predicate StoresCompletion(w: Env, events: seq<RunnerEvent>, ending: Ending) {
    w.durable && w.transition && Completes(w, events, ending) && (HasReply(w, events) ==> w.materialize)
  }

  lemma EndsAreMapped(e: RunnerEvent)
    ensures MapEvent(e).1 <==> Ends(e)
    ensures Ends(e) && !e.failed ==> (MapEvent(e).0[0].Done? <==> EventText(e) == "")
  {
  }

  /** Sending the items of one event is one send, unless there is only the last item. */
  lemma ItemsSent(w: Env, s: State, items: seq<Item>)
    requires 1 <= |items| <= 2 && (|items| == 2 ==> !items[0].Done? && items[1].Done?)
    ensures var (s', ok) := SendItems(w, s, items);
      && (ok <==> items[0].Done? || w.send(s.sends))
      && s'.sends == s.sends + (if items[0].Done? then 0 else 1)
      && (ok ==> s'.reply == s.reply + ItemText(items[0]))
  {
    assert |items| == 2 ==> items[1..] == [items[1]];
    assert |items| == 1 ==> items[1..] == [];
    assert forall t :: SendItems(w, t, []) == (t, true);
    assert forall t :: |items| == 2 ==> SendItems(w, t, [items[1]]) == (t, true);
  }

  /** After `n` events that do not end the stream, all sent. */
  predicate Forwarding(s: State, events: seq<RunnerEvent>, n: nat)
    requires n <= |events|
  {
    && Open(s) && s.sends == n && s.audits == 0 && s.handoffs == 0 && s.tries == 0
    && s.reply == AllText(events[..n])
  }

  /** A send failed before the end: no audit record, no kind, and an error. */
  predicate Interrupted(s: State) { s.kind == None && s.error.Some? && s.error.value.ContextError? && !s.finalized && s.records == [] }

  lemma QuietEventSent(w: Env, s: State, e: RunnerEvent)
    requires Open(s) && !Ends(e)
    ensures var (s', over) := Event(w, s, e);
      && (over <==> !w.send(s.sends)) && s'.sends == s.sends + 1
      && s'.audits == s.audits && s'.handoffs == s.handoffs && s'.tries == s.tries
      && (over ==> Interrupted(s'))
      && (!over ==> Open(s') && s'.reply == s.reply + EventText(e))
  {
    hide MapEvent, SendItems, Texts, NoDone, DoneLast, NoFault, EventText, ItemText;
    var items := MapEvent(e).0;
    EndsAreMapped(e);
    MappedItems(e);
    ItemsKept(w, s, items);
    ItemsSent(w, s, items);
    QuietEventKept(w, s, e);
  }

  lemma {:induction false} ForwardedUpTo(w: Env, events: seq<RunnerEvent>, n: nat)
    requires n <= FirstEnd(events)
    ensures var (s, over) := Handled(w, events, n);
      && (over <==> !AllSent(w, n))
      && (if over then Interrupted(s) else Forwarding(s, events, n))
  {
    hide Event, Open, FirstEnd;
    if n == 0 {
      StartIsOpen(events);
    } else {
      ForwardedUpTo(w, events, n - 1);
      var (s, over) := Handled(w, events, n - 1);
      if !over {
        assert events[..n][..n - 1] == events[..n - 1];
        QuietEventSent(w, s, events[n - 1]);
      }
    }
  }

  function Once(called: bool): nat { if called then 1 else 0 }

  /** The end of a run whose runner succeeded; `well` says that nothing after the audit append failed. */
  predicate EndedWell(w: Env, s: State, well: bool, told: string) {
    && s.kind == Some(Completed) && s.audits == Once(w.hasAudit)
    && (s.finalized <==> (w.hasAudit ==> w.audit(0)))
    && s.records == (if w.hasAudit && s.finalized then [Completed] else [])
    && (s.error.None? <==> s.finalized && well)
    && (s.error.None? ==> s.handoffs == Once(w.hasHandoff) && s.reply == told)
  }

  lemma ClosedEndsWell(w: Env, s: State, events: seq<RunnerEvent>)
    requires Forwarding(s, events, |events|)
    ensures EndedWell(w, StreamClosed(w, s), w.hasHandoff ==> w.handoff(0), AllText(events))
  {
    hide AllText, Texts, NoDone, Conclude;
    assert events[..|events|] == events;
    ConcludesOnce(w, s, Completed);
  }

  lemma ConcludesOnce(w: Env, s: State, kind: Kind)
    requires Open(s) && s.audits == 0 && s.handoffs == 0
    ensures var (s', ok) := Conclude(w, s, kind);
      && s'.kind == Some(kind) && s'.audits == Once(w.hasAudit) && s'.reply == s.reply
      && (s'.finalized <==> (w.hasAudit ==> w.audit(0)))
      && s'.records == (if w.hasAudit && s'.finalized then [kind] else [])
      && (ok <==> s'.finalized && (w.hasHandoff ==> w.handoff(0))) && (ok ==> s'.handoffs == Once(w.hasHandoff))
  {
  }

  lemma HandOverEndsWell(w: Env, s: State, last: Item, well: bool, told: string)
    requires EndedWell(w, s.(handoffs := Once(w.hasHandoff)), well, told) && s.error.None? && s.handoffs == 0
    ensures EndedWell(w, HandOver(w, s, last), well && (w.hasHandoff ==> w.handoff(0)), told)
  {
  }

  lemma DoneEndsWell(w: Env, s: State, e: RunnerEvent)
    requires Open(s) && s.audits == 0 && s.handoffs == 0 && Ends(e) && !e.failed
    ensures EndedWell(w, Event(w, s, e).0,
      (EventText(e) != "" ==> w.send(s.sends)) && (w.hasHandoff ==> w.handoff(0)), s.reply + EventText(e))
  {
    hide MapEvent, SendItems, Texts, NoDone, NoFault, EventText, ItemText, HandOver;
    EndsAreMapped(e);
    MappedItems(e);
    var items := MapEvent(e).0;
    var (s1, audited) := Audit(w, s.(error := None, kind := Some(Completed)), Completed);
    if audited {
      ItemsKept(w, s1, items);
      ItemsSent(w, s1, items);
      var (s2, sent) := SendItems(w, s1, items);
      if sent {
        HandOverEndsWell(w, s2, items[|items| - 1], EventText(e) != "" ==> w.send(s.sends), s.reply + EventText(e));
      }
    }
  }

  /** Every other end leaves a kind other than completed, or none, and an error. */
  predicate EndedIll(s: State) { s.kind != Some(Completed) && s.error.Some? && Completed !in s.records }

  lemma FailedEndsIll(w: Env, s: State, e: RunnerEvent)
    requires Open(s) && Ends(e) && e.failed
    ensures EndedIll(Event(w, s, e).0)
  {
    hide Texts, NoDone, NoFault, SendItems;
    EndsAreMapped(e);
    MappedItems(e);
    var items := MapEvent(e).0;
    var s1 := Audit(w, s.(error := Some(ExecutionError), kind := Some(Failed)), Failed).0;
    ItemsKept(w, s1, items);
  }

  lemma CanceledEndsIll(w: Env, s: State)
    requires Open(s)
    ensures EndedIll(Cancellation(w, s))
  {
  }

  /** What the second attempts add to the end of a run whose runner succeeded. */
  lemma TryAgainDecides(w: Env, s: State, well: bool, told: string)
    requires EndedWell(w, s, well, told)
    ensures var s' := TryAgain(w, s);
      && (s'.records == [Completed] <==> w.hasAudit && (w.audit(0) || w.audit(1)))
      && (s'.error.None? <==> (w.hasAudit ==> w.audit(0)) && well && (w.hasHandoff ==> w.handoff(1)))
      && (s'.error.None? ==> s'.reply == told)
  {
  }

  lemma TryAgainStaysIll(w: Env, s: State)
    requires EndedIll(s)
    ensures TryAgain(w, s).error.Some? && TryAgain(w, s).records != [Completed]
  {
    var s' := TryAgain(w, s);
    if s'.records != s.records {
      assert s'.records[|s.records|] != Completed;
    }
    assert Completed in [Completed];
  }

  /** The two ends, told apart by what goes in. */
  lemma EndOfLoop(w: Env, events: seq<RunnerEvent>, ending: Ending)
    ensures var s, n := Looped(w, events, ending), FirstEnd(events);
      if Succeeds(events, ending) && AllSent(w, n)
      then EndedWell(w, s, (HasLastMessage(events) ==> w.send(n)) && (w.hasHandoff ==> w.handoff(0)), Told(events))
      else EndedIll(s)
  {
    hide FirstEnd, Event, StreamClosed, Cancellation, Open, EndedWell, AllSent, EventText;
    var n := FirstEnd(events);
    ForwardedUpTo(w, events, n);
    var (s, over) := Handled(w, events, n);
    if over {
      OverStaysOver(w, events, n, |events|);
    } else if n < |events| {
      var e := events[n];
      assert events[..n + 1][..n] == events[..n];
      if e.failed {
        FailedEndsIll(w, s, e);
      } else {
        DoneEndsWell(w, s, e);
      }
      assert Handled(w, events, n + 1) == Event(w, s, e);
      EndsRun(w, s, e);
      OverStaysOver(w, events, n + 1, |events|);
    } else {
      assert events[..n] == events;
      match ending
      case Closed => ClosedEndsWell(w, s, events);
      case ContextDone => CanceledEndsIll(w, s);
    }
  }

  lemma EndsRun(w: Env, s: State, e: RunnerEvent)
    requires Ends(e)
    ensures Event(w, s, e).1
  {
    EndsAreMapped(e);
  }

  lemma EndOfTryAgain(w: Env, events: seq<RunnerEvent>, ending: Ending)
    ensures var s := TryAgain(w, Looped(w, events, ending));
      && Ready(w, s)
      && (s.records == [Completed] <==> AuditsCompletion(w, events, ending))
      && (s.error.None? <==> Completes(w, events, ending))
      && (s.error.None? ==> s.reply == Told(events))
  {
    hide Looped, TryAgain, EndedWell, EndedIll, FirstEnd, AllSent, Told, HasLastMessage, Succeeds, Settled, Ready;
    var s, n := Looped(w, events, ending), FirstEnd(events);
    EndOfLoop(w, events, ending);
    if Succeeds(events, ending) && AllSent(w, n) {
      TryAgainDecides(w, s, (HasLastMessage(events) ==> w.send(n)) && (w.hasHandoff ==> w.handoff(0)), Told(events));
    } else {
      TryAgainStaysIll(w, s);
    }
    LoopedSettles(w, events, ending);
    TryAgainReadies(w, s);
  }

  /** The terminal record and the stored outcome, each decided by what goes in: the events, the ending and
      the calls that succeed. */
  lemma OutcomesExactly(w: Env, events: seq<RunnerEvent>, ending: Ending)
    ensures Forward(w, events, ending).records == [Completed] <==> AuditsCompletion(w, events, ending)
    ensures Forward(w, events, ending).durable == Some(Completed) <==> StoresCompletion(w, events, ending)
  {
    hide Looped, TryAgain, Told, Trim, AuditsCompletion, Completes, Texts, DoneLast;
    EndOfTryAgain(w, events, ending);
  }

  /** The reply is materialized exactly when nothing failed before and the call itself succeeds, and then it
      is what the events say. */
  lemma MaterializedExactly(w: Env, events: seq<RunnerEvent>, ending: Ending)
    ensures Forward(w, events, ending).materialized
      == if w.durable && Completes(w, events, ending) && HasReply(w, events) && w.materialize
         then Some(Told(events)) else None
  {
    hide Looped, TryAgain, Told, Trim, AuditsCompletion, Completes, Texts, DoneLast;
    EndOfTryAgain(w, events, ending);
  }

  /** A run audited as completed is stored as completed exactly when none of the later calls it depends on
      fails: first append, last message, handoffs, materialization, transition. */
  lemma AuditAgreesExactlyWithoutFaults(w: Env, events: seq<RunnerEvent>, ending: Ending)
    requires Forward(w, events, ending).records == [Completed]
    ensures Forward(w, events, ending).durable == Some(Completed) <==>
      && w.durable && w.transition && w.audit(0)
      && (HasLastMessage(events) ==> w.send(FirstEnd(events)))
      && (w.hasHandoff ==> w.handoff(0) && w.handoff(1))
      && (w.hasMaterializer && Trim(Told(events)) != "" ==> w.materialize)
  {
    hide Forward, FirstEnd, AllSent, Told, Trim, HasLastMessage, Succeeds;
    OutcomesExactly(w, events, ending);
  }

  // ---------------------------------------------------------------------------------------------
  // Exactly what is recorded
  // ---------------------------------------------------------------------------------------------

  /** How many of the first `n` sends succeed before one fails. */
  function Sent(w: Env, n: nat): (k: nat)
    ensures k <= n && AllSent(w, k) && (k < n ==> !w.send(k))
  {
    if n == 0 then 0 else if Sent(w, n - 1) == n - 1 && w.send(n - 1) then n else Sent(w, n - 1)
  }

  /** How the run ended: a send that fails before the end means that the context ended. */
  function TerminalKind(w: Env, events: seq<RunnerEvent>, ending: Ending): Kind {
    var n := FirstEnd(events);
    if Sent(w, n) < n then Canceled
    else if n < |events| then (if events[n].Response? && events[n].failed then Failed else Completed)
    else if ending == Closed then Completed
    else Canceled
  }

  /** The handlers tried once to write the record of a run of this kind. */
  predicate AttemptedOnce(w: Env, s: State, kind: Kind) {
    && s.kind == Some(kind) && s.audits == Once(w.hasAudit)
    && (s.finalized <==> (w.hasAudit ==> w.audit(0)))
    && s.records == if w.hasAudit && s.finalized then [kind] else []
  }

  predicate SameRecord(s: State, s': State) {
    s'.kind == s.kind && s'.audits == s.audits && s'.finalized == s.finalized && s'.records == s.records
  }

  lemma {:induction false} ItemsRecordNothing(w: Env, s: State, items: seq<Item>)
    ensures SameRecord(s, SendItems(w, s, items).0)
    decreases |items|
  {
    if items != [] {
      var s1 := Noted(s, items[0]);
      ItemsRecordNothing(w, s, items[1..]);
      ItemsRecordNothing(w, Send(w, s1, items[0]).0, items[1..]);
    }
  }

  lemma DeliveryRecordsNothing(w: Env, s: State, items: seq<Item>)
    requires items != []
    ensures SameRecord(s, Deliver(w, s, items))
  {
    hide SendItems;
    ItemsRecordNothing(w, s, items);
  }

  lemma EndEventAttempts(w: Env, s: State, e: RunnerEvent)
    requires Open(s) && s.audits == 0 && Ends(e)
    ensures AttemptedOnce(w, Event(w, s, e).0, if e.failed then Failed else Completed)
  {
    hide MapEvent, Deliver;
    EndsAreMapped(e);
    MappedItems(e);
    var error := if e.failed then Some(ExecutionError) else None;
    var kind := if e.failed then Failed else Completed;
    DeliveryRecordsNothing(w, Audit(w, s.(error := error, kind := Some(kind)), kind).0, MapEvent(e).0);
  }

  lemma EndingAttempts(w: Env, s: State, ending: Ending)
    requires Open(s) && s.audits == 0
    ensures AttemptedOnce(w, match ending case Closed => StreamClosed(w, s) case ContextDone => Cancellation(w, s),
                          if ending == Closed then Completed else Canceled)
  {
    hide Texts, NoDone;
  }

  lemma LoopAttempts(w: Env, events: seq<RunnerEvent>, ending: Ending)
    ensures var s, n := Looped(w, events, ending), FirstEnd(events);
      if Sent(w, n) < n then Interrupted(s) && s.audits == 0 else AttemptedOnce(w, s, TerminalKind(w, events, ending))
  {
    hide FirstEnd, Event, StreamClosed, Cancellation, Open, AttemptedOnce;
    var n := FirstEnd(events);
    ForwardedUpTo(w, events, n);
    var (s, over) := Handled(w, events, n);
    if over {
      OverStaysOver(w, events, n, |events|);
      NothingAttempted(w, events, n);
    } else if n < |events| {
      EndEventAttempts(w, s, events[n]);
      EndsRun(w, s, events[n]);
      assert Handled(w, events, n + 1) == Event(w, s, events[n]);
      OverStaysOver(w, events, n + 1, |events|);
    } else {
      EndingAttempts(w, s, ending);
    }
  }

  lemma {:induction false} NothingAttempted(w: Env, events: seq<RunnerEvent>, n: nat)
    requires n <= FirstEnd(events)
    ensures Handled(w, events, n).0.audits == 0
  {
    hide FirstEnd, Event, Open;
    if n > 0 {
      NothingAttempted(w, events, n - 1);
      ForwardedUpTo(w, events, n - 1);
      if !Handled(w, events, n - 1).1 {
        QuietEventSent(w, Handled(w, events, n - 1).0, events[n - 1]);
      }
    }
  }

  lemma SecondAttempt(w: Env, s: State, kind: Kind, interrupted: bool)
    requires if interrupted then Interrupted(s) && s.audits == 0 && kind == Canceled else AttemptedOnce(w, s, kind)
    ensures TryAgain(w, s).records ==
      if w.hasAudit && (w.audit(0) || (!interrupted && w.audit(1))) then [kind] else []
  {
  }

  /** For every input: the one terminal record says how the run ended, and is there if the append succeeds at the
      first attempt, or at the second where there is one; a durable message is asked to be stored as completed
      when nothing failed, and as failed otherwise. */
  lemma RecordsExactly(w: Env, events: seq<RunnerEvent>, ending: Ending)
    ensures Forward(w, events, ending).records ==
      if w.hasAudit && (w.audit(0) || (Sent(w, FirstEnd(events)) == FirstEnd(events) && w.audit(1)))
      then [TerminalKind(w, events, ending)] else []
    ensures Forward(w, events, ending).requested ==
      if !w.durable then None
      else if Completes(w, events, ending) && (HasReply(w, events) ==> w.materialize) then Some(Completed)
      else Some(Failed)
  {
    hide Looped, TryAgain, Told, Trim, AuditsCompletion, Completes, Texts, DoneLast, TerminalKind, FirstEnd, Interrupted, AttemptedOnce;
    EndOfTryAgain(w, events, ending);
    LoopAttempts(w, events, ending);
    var n := FirstEnd(events);
    assert Sent(w, n) < n ==> TerminalKind(w, events, ending) == Canceled by { CanceledWhenInterrupted(w, events, ending); }
    SecondAttempt(w, Looped(w, events, ending), TerminalKind(w, events, ending), Sent(w, n) < n);
  }

  lemma CanceledWhenInterrupted(w: Env, events: seq<RunnerEvent>, ending: Ending)
    ensures Sent(w, FirstEnd(events)) < FirstEnd(events) ==> TerminalKind(w, events, ending) == Canceled
  {
  }

  // ---------------------------------------------------------------------------------------------
  // Exactly what is streamed
  // ---------------------------------------------------------------------------------------------

  /** What an event that does not end the stream shows the caller. */
  function Shown(e: RunnerEvent): Item {
    if EventText(e) != "" then Message(EventText(e))
    else Progress(if e.Response? && e.partial then "partial" else "progress")
  }

  /** One item per event. */
  function ShownAll(events: seq<RunnerEvent>): seq<Item> {
    if events == [] then [] else ShownAll(events[..|events| - 1]) + [Shown(events[|events| - 1])]
  }

  function Tried(w: Env, k: nat, item: Item): seq<Item> { if w.trySend(k) then [item] else [] }

  function AuditFailureShown(w: Env): seq<Item> { Tried(w, 0, Fault("audit write failed")) + Tried(w, 1, Done("error")) }

  predicate FirstCallsSucceed(w: Env) { (w.hasAudit ==> w.audit(0)) && (w.hasHandoff ==> w.handoff(0)) }

  /** What the event that ends the stream says before the last item. */
  function LastWords(e: RunnerEvent): seq<Item> {
    if e.Response? && e.failed then [Fault("execution")] else if EventText(e) != "" then [Message(EventText(e))] else []
  }

  /** What follows the items of the quiet events when event `e`, the `n`th, ends the stream. */
  function EndShown(w: Env, e: RunnerEvent, n: nat): seq<Item> {
    if w.hasAudit && !w.audit(0) then AuditFailureShown(w)
    else if LastWords(e) != [] && !w.send(n) then []
    else if w.hasHandoff && !w.handoff(0) then LastWords(e) + AuditFailureShown(w)
    else if w.sendDone then LastWords(e) + [Done(if e.Response? && e.failed then "error" else "complete")]
    else LastWords(e)
  }

  /** What follows them when no event does. */
  function EndingShown(w: Env, ending: Ending): seq<Item> {
    if !FirstCallsSucceed(w) then AuditFailureShown(w)
    else match ending
      case Closed => Tried(w, 0, Done("complete"))
      case ContextDone =>
        Tried(w, 0, Fault("execution canceled")) + Tried(w, 1, Done(if w.deadline then "deadline_exceeded" else "canceled"))
  }

  /** The whole stream, read off the events, the ending and the calls that succeed. */
  function Stream(w: Env, events: seq<RunnerEvent>, ending: Ending): seq<Item> {
    var n := FirstEnd(events);
    if Sent(w, n) < n then ShownAll(events[..Sent(w, n)])
    else ShownAll(events[..n]) + if n < |events| then EndShown(w, events[n], n) else EndingShown(w, ending)
  }

  lemma QuietEventShows(w: Env, s: State, e: RunnerEvent)
    requires !Ends(e)
    ensures Event(w, s, e).0.output == if w.send(s.sends) then s.output + [Shown(e)] else s.output
  {
    assert MapEvent(e) == ([Shown(e)], false);
    assert [Shown(e)][1..] == [];
    assert forall t :: SendItems(w, t, []) == (t, true);
  }

  lemma ShowOneMore(events: seq<RunnerEvent>, n: nat)
    requires n < |events|
    ensures ShownAll(events[..n]) + [Shown(events[n])] == ShownAll(events[..n + 1])
  {
    hide Shown;
    assert events[..n + 1][..n] == events[..n];
  }

  lemma {:induction false} ShownUpTo(w: Env, events: seq<RunnerEvent>, n: nat)
    requires n <= FirstEnd(events)
    ensures Handled(w, events, n).0.output == ShownAll(events[..Sent(w, n)])
  {
    hide Event, FirstEnd, ShownAll, Forwarding, Interrupted, AllSent, Sent;
    if n == 0 {
      NothingShown(w, events);
    } else {
      ShownUpTo(w, events, n - 1);
      ForwardedUpTo(w, events, n - 1);
      SentOneMore(w, n - 1);
      var (s, over) := Handled(w, events, n - 1);
      if !over {
        ForwardingCounts(s, events, n - 1);
        OneMoreShown(w, s, events, n - 1);
      }
    }
  }

  lemma OneMoreShown(w: Env, s: State, events: seq<RunnerEvent>, n: nat)
    requires n < FirstEnd(events) && s.sends == n && s.output == ShownAll(events[..n])
    ensures Event(w, s, events[n]).0.output == if w.send(n) then ShownAll(events[..n + 1]) else ShownAll(events[..n])
  {
    hide Event, ShownAll, Shown;
    QuietEventShows(w, s, events[n]);
    ShowOneMore(events, n);
  }

  lemma SentOneMore(w: Env, n: nat)
    ensures AllSent(w, n) <==> Sent(w, n) == n
    ensures Sent(w, n + 1) == if Sent(w, n) == n && w.send(n) then n + 1 else Sent(w, n)
  {
  }

  lemma NothingShown(w: Env, events: seq<RunnerEvent>)
    ensures START.output == ShownAll(events[..0]) && Sent(w, 0) == 0
  {
  }

  lemma ForwardingCounts(s: State, events: seq<RunnerEvent>, n: nat)
    requires n <= |events| && Forwarding(s, events, n)
    ensures s.sends == n && s.audits == 0 && s.handoffs == 0 && s.tries == 0 && !s.finalized
  {
  }

  lemma FailureShows(w: Env, s: State)
    requires s.tries == 0
    ensures FinishAuditFailure(w, s).output == s.output + AuditFailureShown(w)
  {
  }

  lemma EndEventShows(w: Env, s: State, e: RunnerEvent)
    requires Ends(e) && s.audits == 0 && s.handoffs == 0 && s.tries == 0 && !s.finalized
    ensures Event(w, s, e).0.output == s.output + EndShown(w, e, s.sends)
  {
    hide FinishAuditFailure, AuditFailureShown, Deliver, EventText;
    var last := Done(if e.failed then "error" else "complete");
    EndMapped(e);
    hide MapEvent;
    var error := if e.failed then Some(ExecutionError) else None;
    var kind := if e.failed then Failed else Completed;
    var (s1, audited) := Audit(w, s.(error := error, kind := Some(kind)), kind);
    if audited {
      DeliverShows(w, s1, LastWords(e), last);
    } else {
      FailureShows(w, s1.(error := Some(ExecutionError)));
    }
  }

  lemma EndMapped(e: RunnerEvent)
    requires Ends(e)
    ensures MapEvent(e) == (LastWords(e) + [Done(if e.failed then "error" else "complete")], true)
  {
    hide EventText;
    assert [Fault("execution")] + [Done("error")] == [Fault("execution"), Done("error")];
  }

  lemma DeliverShows(w: Env, s: State, words: seq<Item>, last: Item)
    requires |words| <= 1 && (words != [] ==> !words[0].Done?) && last.Done? && s.handoffs == 0 && s.tries == 0
    ensures Deliver(w, s, words + [last]).output ==
      if words != [] && !w.send(s.sends) then s.output
      else if w.hasHandoff && !w.handoff(0) then s.output + (words + AuditFailureShown(w))
      else if w.sendDone then s.output + (words + [last])
      else s.output + words
  {
    hide FinishAuditFailure, AuditFailureShown;
    WordsSent(w, s, words, last);
    hide SendItems;
    var (s1, sent) := SendItems(w, s, words + [last]);
    if sent {
      FailureShows(w, Handoff(w, s1).0.(error := Some(AuditError)));
    }
  }

  lemma WordsSent(w: Env, s: State, words: seq<Item>, last: Item)
    requires |words| <= 1 && (words != [] ==> !words[0].Done?) && last.Done?
    ensures var (s1, sent) := SendItems(w, s, words + [last]);
      && (sent <==> words == [] || w.send(s.sends)) && s1.handoffs == s.handoffs && s1.tries == s.tries
      && s1.output == if sent then s.output + words else s.output
  {
    hide Send, Noted;
    var items := words + [last];
    if words == [] {
      assert items == [last] && s.output + words == s.output;
      NothingSent(w, s, last);
    } else {
      var s1 := Noted(s, words[0]);
      var (s2, ok) := Send(w, s1, words[0]);
      assert items[0] == words[0] && items[1..] == [last] && words == [words[0]];
      NothingSent(w, s2, last);
      OneSent(w, s1, words[0]);
      NotedKeeps(s, words[0]);
    }
  }

  lemma NotedKeeps(s: State, item: Item)
    ensures var s' := Noted(s, item); s' == s.(reply := s'.reply, error := s'.error)
  {
  }

  lemma NothingSent(w: Env, s: State, last: Item)
    requires last.Done?
    ensures SendItems(w, s, [last]) == (s, true)
  {
    assert [last][1..] == [];
  }

  lemma OneSent(w: Env, s: State, item: Item)
    ensures var (s1, ok) := Send(w, s, item);
      (ok <==> w.send(s.sends)) && s1 == s.(sends := s.sends + 1, output := if ok then s.output + [item] else s.output)
  {
  }

  lemma EndingShows(w: Env, s: State, ending: Ending)
    requires s.audits == 0 && s.handoffs == 0 && s.tries == 0 && !s.finalized
    ensures (match ending case Closed => StreamClosed(w, s) case ContextDone => Cancellation(w, s)).output
      == s.output + EndingShown(w, ending)
  {
    hide FinishAuditFailure, AuditFailureShown;
    var kind := match ending case Closed => Completed case ContextDone => Canceled;
    ConcludeCalls(w, s, kind);
    hide Conclude, FirstCallsSucceed;
    FailureShows(w, Conclude(w, s, kind).0);
  }

  lemma ConcludeCalls(w: Env, s: State, kind: Kind)
    requires s.audits == 0 && s.handoffs == 0 && !s.finalized
    ensures var (s1, ok) := Conclude(w, s, kind);
      (ok <==> FirstCallsSucceed(w)) && s1.output == s.output && s1.tries == s.tries
  {
  }

  /** For every input, the stream: one item per event up to the end or the first send that fails, then the
      last words and the `Done` that tells how the run ended, as far as the calls before them succeed. */
  lemma StreamExactly(w: Env, events: seq<RunnerEvent>, ending: Ending)
    ensures Forward(w, events, ending).output == Stream(w, events, ending)
  {
    hide FirstEnd, Event, StreamClosed, Cancellation, ShownAll, EndShown, EndingShown, Finalize, Settled, Interrupted, Forwarding;
    LoopedSettles(w, events, ending);
    FinalizeFinishes(w, Looped(w, events, ending));
    var n := FirstEnd(events);
    ForwardedUpTo(w, events, n);
    ShownUpTo(w, events, n);
    var (s, over) := Handled(w, events, n);
    if over {
      OverStaysOver(w, events, n, |events|);
    } else {
      ForwardingCounts(s, events, n);
      if n < |events| {
        EndEventShows(w, s, events[n]);
        EndsRun(w, s, events[n]);
        assert Handled(w, events, n + 1) == Event(w, s, events[n]);
        OverStaysOver(w, events, n + 1, |events|);
      } else {
        EndingShows(w, s, ending);
      }
    }
  }

  /** When every call succeeds the stream ends in one `Done`: complete after a runner that succeeded, error after
      one that failed, and otherwise the reason the context ended; before it stands one item per event, in order. */
  lemma StreamWithoutFaults(w: Env, events: seq<RunnerEvent>, ending: Ending)
    requires FirstCallsSucceed(w) && w.sendDone && forall k :: w.send(k) && w.trySend(k)
    ensures var n := FirstEnd(events);
      Forward(w, events, ending).output == ShownAll(events[..n]) +
        if n < |events| && events[n].failed then [Fault("execution"), Done("error")]
        else if n < |events| && EventText(events[n]) != "" then [Message(EventText(events[n])), Done("complete")]
        else if n < |events| || ending == Closed then [Done("complete")]
        else [Fault("execution canceled"), Done(if w.deadline then "deadline_exceeded" else "canceled")]
  {
    hide FirstEnd, Forward, ShownAll, EventText, EndShown, EndingShown, FirstCallsSucceed;
    StreamExactly(w, events, ending);
    var n := FirstEnd(events);
    assert Sent(w, n) == n;
    if n < |events| {
      EndWithoutFaults(w, events[n], n);
    } else {
      EndingWithoutFaults(w, ending);
    }
  }

  lemma EndWithoutFaults(w: Env, e: RunnerEvent, n: nat)
    requires Ends(e) && FirstCallsSucceed(w) && w.sendDone && w.send(n)
    ensures EndShown(w, e, n) ==
      if e.failed then [Fault("execution"), Done("error")]
      else if EventText(e) != "" then [Message(EventText(e)), Done("complete")]
      else [Done("complete")]
  {
    hide EventText;
    assert [] + [Done("complete")] == [Done("complete")];
  }

  lemma EndingWithoutFaults(w: Env, ending: Ending)
    requires FirstCallsSucceed(w) && w.trySend(0) && w.trySend(1)
    ensures EndingShown(w, ending) ==
      if ending == Closed then [Done("complete")]
      else [Fault("execution canceled"), Done(if w.deadline then "deadline_exceeded" else "canceled")]
  {
  }

  /** A handoff that fails once: the audit says completed, the message is recorded failed. */
  lemma AuditCanDisagree()
    ensures exists w: Env ::
      w.durable && Forward(w, [], Closed).records == [Completed] && Forward(w, [], Closed).durable == Some(Failed)
  {
    var w := Env(true, true, false, true, false, n => true, n => n > 0, n => true, n => true, true, true, true);
    assert Handled(w, [], 0) == (START, false);
    var s := StreamClosed(w, START);
    assert s.error == Some(AuditError) && s.records == [Completed] && s.finalized;
    assert Finalize(w, s).durable == Some(Failed) && Finalize(w, s).records == [Completed];
  }

  /** Everything else succeeds and the store refuses the transition: the audit says completed, and the
      message stays as it was. */
  lemma TransitionCanBeLost()
    ensures exists w: Env ::
      && w.durable && AllSent(w, 0) && w.audit(0) && w.handoff(0) && w.handoff(1) && w.materialize
      && Forward(w, [], Closed).records == [Completed] && Forward(w, [], Closed).durable == None
  {
    var w := Env(true, true, true, true, false, n => true, n => true, n => true, n => true, true, true, false);
    LoopedSettles(w, [], Closed);
    FinalizeFinishes(w, Looped(w, [], Closed));
    OutcomesExactly(w, [], Closed);
    assert AuditsCompletion(w, [], Closed);
  }
}
