/** The repository's own maps, updated in place; each operation is the step the model describes. */
module AgentStore {
  import opened Options
  import opened Text
  import opened Revisions
  import opened AgentApps
  import opened AgentRepository

  /** What a request answers: why it is refused, or the event it appends to the log, if any. */
  datatype Answer = Answer(error: Option<Error>, event: Option<Event>)

  function Answered(r: Record, outcome: Outcome): Answer {
    match outcome
    case Failed(error) => Answer(Some(error), None)
    case Done(r') => Answer(None, if |r'.log| > |r.log| then Some(r'.log[|r.log|]) else None)
  }

  function AnswerTo(s: State, scope: Scope, version: int, request: Request, clock: nat, hash: Hash): Answer {
    if scope !in s.records then Answer(Some(NotFound), None)
    else Answered(s.records[scope], Handle(s.records[scope], version, request, clock, hash))
  }

  /** The step a request takes, and its answer, in terms of the record it finds. */
  lemma StepOf(s: State, scope: Scope, version: int, request: Request, clock: nat, hash: Hash)
    ensures scope !in s.records ==>
      && Apply(s, Ask(scope, version, request, clock), hash) == s
      && AnswerTo(s, scope, version, request, clock, hash) == Answer(Some(NotFound), None)
    ensures scope in s.records ==>
      var outcome := Handle(s.records[scope], version, request, clock, hash);
      && Apply(s, Ask(scope, version, request, clock), hash) == After(s, scope, outcome)
      && AnswerTo(s, scope, version, request, clock, hash) == Answered(s.records[scope], outcome)
  {
    hide Handle;
  }

  /** Every App is stored under its own identifiers. */
  predicate Placed(apps: map<Scope, App>) {
    forall scope <- apps :: Scope(apps[scope].tenant, apps[scope].id) == scope
  }

  /** A number no draft has yet been given reads as zero. */
  function NumberAt(next: map<Scope, int>, scope: Scope): int { if scope in next then next[scope] else 0 }

  /** The four maps as one. */
  function Assembled(apps: map<Scope, App>, revisions: map<Scope, map<int, Revision>>, next: map<Scope, int>,
                     logs: map<Scope, seq<Event>>): map<Scope, Record>
    requires apps.Keys == revisions.Keys == logs.Keys
  {
    map scope | scope in apps :: Record(apps[scope], revisions[scope], NumberAt(next, scope), logs[scope])
  }

  /** Looking up the record of one App. */
  lemma AssembledGet(apps: map<Scope, App>, revisions: map<Scope, map<int, Revision>>, next: map<Scope, int>,
                     logs: map<Scope, seq<Event>>, scope: Scope)
    requires apps.Keys == revisions.Keys == logs.Keys
    ensures scope in Assembled(apps, revisions, next, logs) <==> scope in apps
    ensures scope in apps ==>
      Assembled(apps, revisions, next, logs)[scope] == Record(apps[scope], revisions[scope], NumberAt(next, scope), logs[scope])
  {
  }

  /** Rewriting the entries of one App rewrites one record. */
  lemma AssembledAt(apps: map<Scope, App>, revisions: map<Scope, map<int, Revision>>, next: map<Scope, int>,
                    logs: map<Scope, seq<Event>>, scope: Scope, r: Record, next': map<Scope, int>)
    requires apps.Keys == revisions.Keys == logs.Keys
    requires forall other | other != scope :: NumberAt(next', other) == NumberAt(next, other)
    requires NumberAt(next', scope) == r.next
    ensures Assembled(apps[scope := r.app], revisions[scope := r.revisions], next', logs[scope := r.log])
      == Assembled(apps, revisions, next, logs)[scope := r]
  {
    hide NumberAt;
  }

  lemma PlacedInsert(apps: map<Scope, App>, a: App)
    requires Placed(apps)
    ensures Placed(apps[Scope(a.tenant, a.id) := a])
  {
  }

  class InMemoryRepository {
    const hash: Hash
    var apps: map<Scope, App>
    var byKey: map<Key, string>
    var revisions: map<Scope, map<int, Revision>>
    var next: map<Scope, int>
    ghost var logs: map<Scope, seq<Event>>

    /** Every App has its revision table and its log. */
    ghost predicate Valid()
      reads this
    {
      && revisions.Keys == apps.Keys && logs.Keys == apps.Keys && next.Keys <= apps.Keys
      && Placed(apps)
    }

    ghost function RecordOf(scope: Scope): Record
      requires Valid() && scope in apps
      reads this
    {
      Record(apps[scope], revisions[scope], NumberAt(next, scope), logs[scope])
    }

    ghost function View(): State
      requires Valid()
      reads this
    {
      State(Assembled(apps, revisions, next, logs), byKey)
    }

    constructor (hash: Hash)
      ensures Valid() && View() == EMPTY && this.hash == hash
    {
      this.hash := hash;
      apps, byKey, revisions, next, logs := map[], map[], map[], map[], map[];
    }

    /** `storeAppLocked`, with the events that go with the change. */
    method StoreApp(a: App, ghost events: seq<Event>)
      requires Valid() && Scope(a.tenant, a.id) in apps
      modifies this`apps, this`logs
      ensures Valid()
      ensures apps == old(apps)[Scope(a.tenant, a.id) := a]
      ensures RecordOf(Scope(a.tenant, a.id)) ==
        old(RecordOf(Scope(a.tenant, a.id))).(app := a, log := old(logs[Scope(a.tenant, a.id)]) + events)
      ensures View() == After(old(View()), Scope(a.tenant, a.id), Done(RecordOf(Scope(a.tenant, a.id))))
    {
      var scope := Scope(a.tenant, a.id);
      hide Assembled;
      ghost var r := RecordOf(scope).(app := a, log := logs[scope] + events);
      AssembledAt(apps, revisions, next, logs, scope, r, next);
      assert revisions[scope := r.revisions] == revisions;
      apps := apps[scope := a];
      logs := logs[scope := logs[scope] + events];
    }

    method StoreRevision(scope: Scope, number: int, revision: Revision)
      requires Valid() && scope in apps
      modifies this`revisions
      ensures Valid()
      ensures RecordOf(scope) == old(RecordOf(scope)).(revisions := old(revisions[scope])[number := revision])
      ensures View() == After(old(View()), scope, Done(RecordOf(scope)))
    {
      hide Assembled;
      ghost var r := RecordOf(scope).(revisions := revisions[scope][number := revision]);
      AssembledAt(apps, revisions, next, logs, scope, r, next);
      assert apps[scope := r.app] == apps && logs[scope := r.log] == logs;
      revisions := revisions[scope := revisions[scope][number := revision]];
    }

    /** The two writes that end the creation of a draft. */
    method StoreDraft(scope: Scope, number: int, draft: Revision)
      requires Valid() && scope in apps
      modifies this`revisions, this`next
      ensures Valid()
      ensures View() == After(old(View()), scope,
        Done(old(RecordOf(scope)).(revisions := old(revisions[scope])[number := draft], next := number)))
    {
      hide Assembled, Placed;
      ghost var r := RecordOf(scope).(revisions := revisions[scope][number := draft], next := number);
      AssembledAt(apps, revisions, next, logs, scope, r, next[scope := number]);
      assert apps[scope := r.app] == apps && logs[scope := r.log] == logs;
      revisions := revisions[scope := revisions[scope][number := draft]];
      next := next[scope := number];
    }

    /** The two writes that end a publication. */
    method StorePublication(a: App, number: int, revision: Revision, ghost event: Event)
      requires Valid() && Scope(a.tenant, a.id) in apps
      modifies this`apps, this`revisions, this`logs
      ensures Valid()
      ensures View() == After(old(View()), Scope(a.tenant, a.id),
        Done(old(RecordOf(Scope(a.tenant, a.id))).(app := a, log := old(logs[Scope(a.tenant, a.id)]) + [event],
          revisions := old(revisions[Scope(a.tenant, a.id)])[number := revision])))
    {
      hide Assembled, Placed;
      StoreApp(a, [event]);
      StoreRevision(Scope(a.tenant, a.id), number, revision);
    }

    method Create(tenant: string, key: string, name: string, description: string, id: string, clock: nat)
      returns (error: Option<Error>)
      requires Valid()
      modifies this
      ensures Valid()
      ensures View() == Apply(old(View()), Step.Create(tenant, key, name, description, id, clock), hash)
      ensures error == CreateError(old(View()), NewApp(tenant, key, name, description, id, clock))
    {
      hide NewApp, Assembled, Placed, Handle, After;
      var made := NewApp(tenant, key, name, description, id, clock);
      if made.None? {
        return Some(Invalid);
      }
      var a := made.value;
      var scope, unique := Scope(a.tenant, a.id), Key(a.tenant, a.key);
      AssembledGet(apps, revisions, next, logs, scope);
      if scope in apps {
        return Some(DuplicateKey);
      }
      if unique in byKey {
        return Some(DuplicateKey);
      }
      PlacedInsert(apps, a);
      AssembledAt(apps, revisions, next, logs, scope, Record(a, map[], 0, []), next);
      apps := apps[scope := a];
      byKey := byKey[unique := a.id];
      revisions := revisions[scope := map[]];
      logs := logs[scope := []];
      return None;
    }

    /** `mutableAppLocked`. */
    method MutableApp(scope: Scope, version: int) returns (error: Option<Error>)
      requires Valid()
      ensures error == if scope in apps then Refusal(apps[scope], version) else Some(NotFound)
    {
      if scope !in apps {
        return Some(NotFound);
      }
      if apps[scope].status == Disabled {
        return Some(DisabledApp);
      }
      if version != apps[scope].version {
        return Some(Conflict);
      }
      return None;
    }

    method UpdateMetadata(scope: Scope, version: int, name: string, description: string, clock: nat)
      returns (error: Option<Error>)
      requires Valid()
      modifies this
      ensures Valid() && View() == Apply(old(View()), Ask(scope, version, AskMetadata(name, description), clock), hash)
      ensures Answer(error, None) == AnswerTo(old(View()), scope, version, AskMetadata(name, description), clock, hash)
    {
      hide ValidApp, Trim, Assembled, Apply, AnswerTo;
      AssembledGet(apps, revisions, next, logs, scope);
      StepOf(View(), scope, version, AskMetadata(name, description), clock, hash);
      error := MutableApp(scope, version);
      if error.Some? {
        return;
      }
      var a := apps[scope];
      var updated := a.(name := Trim(name), description := Trim(description), version := a.version + 1,
                        updatedAt := Max(clock, a.updatedAt));
      if !ValidApp(updated) {
        return Some(Invalid);
      }
      StoreApp(updated, []);
    }

    method CreateDraft(scope: Scope, version: int, kind: string, schema: int, c: Configuration, clock: nat)
      returns (error: Option<Error>)
      requires Valid()
      modifies this
      ensures Valid() && View() == Apply(old(View()), Ask(scope, version, AskDraft(kind, schema, c), clock), hash)
      ensures Answer(error, None) == AnswerTo(old(View()), scope, version, AskDraft(kind, schema, c), clock, hash)
    {
      hide NewRevision, Assembled, Apply, AnswerTo;
      AssembledGet(apps, revisions, next, logs, scope);
      StepOf(View(), scope, version, AskDraft(kind, schema, c), clock, hash);
      error := MutableApp(scope, version);
      if error.Some? {
        return;
      }
      var number := NumberAt(next, scope) + 1;
      var draft := NewRevision(scope.tenant, scope.app, number, kind, schema, c, clock);
      if draft.None? {
        return Some(Invalid);
      }
      StoreDraft(scope, number, draft.value);
    }

    /** The checks that `UpdateDraft` and `Publish` share. */
    method MutableDraft(scope: Scope, number: int, draftVersion: int) returns (error: Option<Error>)
      requires Valid() && scope in apps
      ensures error == DraftRefusal(RecordOf(scope), number, draftVersion)
    {
      if number !in revisions[scope] {
        return Some(NotFound);
      }
      if revisions[scope][number].state != Draft {
        return Some(Immutable);
      }
      if draftVersion != revisions[scope][number].draftVersion {
        return Some(Conflict);
      }
      return None;
    }

    method UpdateDraft(scope: Scope, version: int, number: int, draftVersion: int, c: Configuration, clock: nat)
      returns (error: Option<Error>)
      requires Valid()
      modifies this
      ensures Valid() && View() == Apply(old(View()), Ask(scope, version, AskRedraft(number, draftVersion, c), clock), hash)
      ensures Answer(error, None) == AnswerTo(old(View()), scope, version, AskRedraft(number, draftVersion, c), clock, hash)
    {
      hide NewRevision, ValidRevision, Assembled, Apply, AnswerTo;
      AssembledGet(apps, revisions, next, logs, scope);
      StepOf(View(), scope, version, AskRedraft(number, draftVersion, c), clock, hash);
      error := MutableApp(scope, version);
      if error.Some? {
        return;
      }
      error := MutableDraft(scope, number, draftVersion);
      if error.Some? {
        return;
      }
      var existing := revisions[scope][number];
      var made := NewRevision(scope.tenant, scope.app, number, existing.kind, existing.schema, c, clock);
      if made.None? {
        return Some(Invalid);
      }
      var candidate := made.value.(draftVersion := existing.draftVersion + 1, createdAt := existing.createdAt,
                                   updatedAt := Max(clock, existing.updatedAt));
      if !ValidRevision(candidate, hash) {
        return Some(Invalid);
      }
      StoreRevision(scope, number, candidate);
    }

    method Publish(scope: Scope, version: int, number: int, draftVersion: int, clock: nat)
      returns (error: Option<Error>, event: Option<Event>)
      requires Valid()
      modifies this
      ensures Valid() && View() == Apply(old(View()), Ask(scope, version, AskPublish(number, draftVersion), clock), hash)
      ensures Answer(error, event) == AnswerTo(old(View()), scope, version, AskPublish(number, draftVersion), clock, hash)
    {
      hide ValidApp, Revisions.Publish, Assembled, Apply, AnswerTo;
      AssembledGet(apps, revisions, next, logs, scope);
      StepOf(View(), scope, version, AskPublish(number, draftVersion), clock, hash);
      event := None;
      error := MutableApp(scope, version);
      if error.Some? {
        return;
      }
      error := MutableDraft(scope, number, draftVersion);
      if error.Some? {
        return;
      }
      var a, draft := apps[scope], revisions[scope][number];
      var now := Max(clock, Max(a.updatedAt, draft.updatedAt));
      var published := Revisions.Publish(draft, now, hash);
      if published.None? {
        return Some(Invalid), None;
      }
      var updated := a.(current := Some(number), canary := None, version := a.version + 1, updatedAt := now);
      if updated.status == Unpublished {
        updated := updated.(status := Active);
      }
      if !ValidApp(updated) {
        return Some(Invalid), None;
      }
      event := Some(NewEvent(Publication, updated, a.status, a.current, published.value.digest, a.version, now));
      StorePublication(updated, number, published.value, event.value);
    }

    method Rollback(scope: Scope, version: int, target: int, clock: nat)
      returns (error: Option<Error>, event: Option<Event>)
      requires Valid()
      modifies this
      ensures Valid() && View() == Apply(old(View()), Ask(scope, version, AskRollback(target), clock), hash)
      ensures Answer(error, event) == AnswerTo(old(View()), scope, version, AskRollback(target), clock, hash)
    {
      hide ValidApp, Assembled, Apply, AnswerTo;
      AssembledGet(apps, revisions, next, logs, scope);
      StepOf(View(), scope, version, AskRollback(target), clock, hash);
      event := None;
      error := MutableApp(scope, version);
      if error.Some? {
        return;
      }
      if target !in revisions[scope] {
        return Some(NotFound), None;
      }
      var a, revision := apps[scope], revisions[scope][target];
      if revision.state != Published {
        return Some(Invalid), None;
      }
      if a.current.None? || a.current.value == target {
        return Some(Invalid), None;
      }
      var now := Max(clock, a.updatedAt);
      var updated := a.(current := Some(target), canary := None, version := a.version + 1, updatedAt := now);
      if !ValidApp(updated) {
        return Some(Invalid), None;
      }
      event := Some(NewEvent(RolledBack, updated, a.status, a.current, revision.digest, a.version, now));
      StoreApp(updated, [event.value]);
    }

    method SetCanary(scope: Scope, version: int, candidate: Option<int>, clock: nat)
      returns (error: Option<Error>, event: Option<Event>)
      requires Valid()
      modifies this
      ensures Valid() && View() == Apply(old(View()), Ask(scope, version, AskCanary(candidate), clock), hash)
      ensures Answer(error, event) == AnswerTo(old(View()), scope, version, AskCanary(candidate), clock, hash)
    {
      hide ValidApp, Assembled, Apply, AnswerTo;
      AssembledGet(apps, revisions, next, logs, scope);
      StepOf(View(), scope, version, AskCanary(candidate), clock, hash);
      event := None;
      error := MutableApp(scope, version);
      if error.Some? {
        return;
      }
      var a, digest := apps[scope], "";
      if a.status != Active {
        return Some(Invalid), None;
      }
      if candidate.Some? {
        if candidate.value < 1 {
          return Some(Invalid), None;
        }
        if candidate.value !in revisions[scope] {
          return Some(NotFound), None;
        }
        if revisions[scope][candidate.value].state != Published {
          return Some(Invalid), None;
        }
        if a.current.None? || a.current.value == candidate.value {
          return Some(Invalid), None;
        }
        digest := revisions[scope][candidate.value].digest;
      }
      if a.canary == candidate {
        return Some(Invalid), None;
      }
      var now := Max(clock, a.updatedAt);
      var updated := a.(canary := candidate, version := a.version + 1, updatedAt := now);
      if !ValidApp(updated) {
        return Some(Invalid), None;
      }
      var change := if updated.canary.Some? then CanaryStarted else CanaryStopped;
      event := Some(NewCanaryEvent(change, updated, a.canary, digest, a.version, now));
      StoreApp(updated, [event.value]);
    }

    method TransitionStatus(scope: Scope, version: int, to: Status, clock: nat)
      returns (error: Option<Error>, event: Option<Event>)
      requires Valid()
      modifies this
      ensures Valid() && View() == Apply(old(View()), Ask(scope, version, AskStatus(to), clock), hash)
      ensures Answer(error, event) == AnswerTo(old(View()), scope, version, AskStatus(to), clock, hash)
    {
      hide ValidApp, Assembled, Apply, AnswerTo;
      AssembledGet(apps, revisions, next, logs, scope);
      StepOf(View(), scope, version, AskStatus(to), clock, hash);
      event := None;
      error := MutableApp(scope, version);
      if error.Some? {
        return;
      }
      var a, digest := apps[scope], "";
      if !CanTransition(a.status, to) {
        return Some(InvalidTransition), None;
      }
      var now := Max(clock, a.updatedAt);
      var updated := a.(status := to, version := a.version + 1, updatedAt := now);
      if !ValidApp(updated) {
        return Some(Invalid), None;
      }
      if updated.current.Some? {
        if updated.current.value !in revisions[scope] {
          return Some(NotFound), None;
        }
        digest := revisions[scope][updated.current.value].digest;
      }
      event := Some(NewEvent(StatusChange(to), updated, a.status, a.current, digest, a.version, now));
      StoreApp(updated, [event.value]);
    }

    method Get(scope: Scope) returns (a: Option<App>)
      requires Valid()
      ensures a == GetApp(View(), scope)
    {
      return if scope in apps then Some(apps[scope]) else None;
    }

    method GetStoredRevision(scope: Scope, number: int) returns (revision: Option<Revision>)
      requires Valid()
      ensures revision == GetRevision(View(), scope, number)
    {
      if scope !in apps || number !in revisions[scope] {
        return None;
      }
      return Some(revisions[scope][number]);
    }
  }
}
