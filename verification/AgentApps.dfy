/**
 The agent App control plane: drafts, publication, rollback, canary and lifecycle of one App under
 an optimistic version, and the change events these emit.
 */
module AgentApps {
  import opened Options
  import opened Text
  import opened Revisions
  import Ulid

  // ---------------------------------------------------------------------------------------------
  // The App root
  // ---------------------------------------------------------------------------------------------

  datatype Status = Unpublished | Active | Suspended | Disabled

  datatype App = App(
    tenant: string, id: string, key: string, name: string, description: string,
    status: Status, current: Option<int>, canary: Option<int>,
    version: int, createdAt: nat, updatedAt: nat)

  predicate ValidMetadata(name: string, description: string) {
    1 <= |Trim(name)| <= 200 && |Trim(description)| <= 2000
  }

  /** `validateLifecycle`. */
  predicate ValidLifecycle(a: App) {
    && (match a.status
        case Unpublished => a.current.None?
        case Active => a.current.Some? && a.current.value >= 1
        case Suspended => a.current.Some? && a.current.value >= 1
        case Disabled => a.current.Some? ==> a.current.value >= 1)
    && (a.canary.Some? ==> a.canary.value >= 1 && a.current.Some? && a.canary != a.current)
  }

  predicate ValidIdentity(tenant: string, id: string, key: string, name: string, description: string) {
    && Ulid.ValidTenantId(tenant) && ValidAppId(id) && NormalizeKey(key) == Some(key)
    && ValidMetadata(name, description)
    && name == Trim(name) && description == Trim(description)
  }

  /** `App.Validate`. */
  predicate ValidApp(a: App) {
    && ValidIdentity(a.tenant, a.id, a.key, a.name, a.description) && ValidLifecycle(a)
    && a.version >= 1 && a.createdAt != 0 && a.updatedAt >= a.createdAt
  }

  /** `NewApp`; `id` is the generated identifier. */
  function NewApp(tenant: string, key: string, name: string, description: string, id: string, now: nat): Option<App> {
    if !Ulid.ValidTenantId(tenant) || NormalizeKey(key).None? || !ValidMetadata(name, description) then None
    else Some(App(tenant, id, NormalizeKey(key).value, Trim(name), Trim(description), Unpublished, None, None, 1, now, now))
  }

  lemma NewAppIsValid(tenant: string, key: string, name: string, description: string, id: string, now: nat)
    requires ValidAppId(id) && now > 0 && NewApp(tenant, key, name, description, id, now).Some?
    ensures ValidApp(NewApp(tenant, key, name, description, id, now).value)
  {
    hide Trim, Lower, ValidKey, Ulid.ValidTenantId, ValidAppId;
    NormalKeyIsFixed(NormalizeKey(key).value);
    TrimIsIdempotent(name);
    TrimIsIdempotent(description);
  }

  predicate CanTransition(from: Status, to: Status) {
    match from
    case Unpublished => to == Disabled
    case Active => to == Suspended || to == Disabled
    case Suspended => to == Active || to == Disabled
    case Disabled => false
  }

  predicate CanExecute(a: App) { a.status == Active && a.current.Some? && a.current.value >= 1 }

  // ---------------------------------------------------------------------------------------------
  // Change events
  // ---------------------------------------------------------------------------------------------

  datatype Change = Publication | RolledBack | CanaryStarted | CanaryStopped | Suspension | Resumption | Disablement

  datatype Event = Event(
    change: Change, previousRevision: Option<int>, currentRevision: Option<int>, digest: string,
    previousStatus: Status, currentStatus: Status, previousVersion: int, nextVersion: int, at: nat)

  function NewEvent(change: Change, a: App, previousStatus: Status, previousRevision: Option<int>, digest: string,
                    previousVersion: int, at: nat): Event
  {
    Event(change, previousRevision, a.current, digest, previousStatus, a.status, previousVersion, a.version, at)
  }

  /** A canary event names the candidate as its current revision. */
  function NewCanaryEvent(change: Change, a: App, previousRevision: Option<int>, digest: string, previousVersion: int,
                          at: nat): Event
  {
    NewEvent(change, a, a.status, previousRevision, digest, previousVersion, at).(currentRevision := a.canary)
  }

  function StatusChange(next: Status): Change {
    match next
    case Suspended => Suspension
    case Active => Resumption
    case _ => Disablement
  }

  // ---------------------------------------------------------------------------------------------
  // Operations on one App
  // ---------------------------------------------------------------------------------------------

  /** One App with its revisions, its last revision number, and every event it emitted. */
  datatype Record = Record(app: App, revisions: map<int, Revision>, next: int, log: seq<Event>)

  datatype Error = Invalid | NotFound | Conflict | DuplicateKey | DisabledApp | InvalidTransition | Immutable

  datatype Outcome = Failed(error: Error) | Done(record: Record)

  function Max(a: nat, b: nat): nat { if a < b then b else a }

  /** `mutableAppLocked`: why the App cannot be changed by a caller that expects `version`. */
  function Refusal(a: App, version: int): Option<Error> {
    if a.status == Disabled then Some(DisabledApp) else if version != a.version then Some(Conflict) else None
  }

  /** Stores a new root, if it is valid, and appends its event. */
  function Store(r: Record, a: App, events: seq<Event>): Outcome {
    if ValidApp(a) then Done(r.(app := a, log := r.log + events)) else Failed(Invalid)
  }

  function UpdateMetadata(r: Record, version: int, name: string, description: string, clock: nat): Outcome {
    match Refusal(r.app, version)
    case Some(error) => Failed(error)
    case None =>
      Store(r, r.app.(name := Trim(name), description := Trim(description), version := r.app.version + 1,
                      updatedAt := Max(clock, r.app.updatedAt)), [])
  }

  function CreateDraft(r: Record, version: int, kind: string, schema: int, c: Configuration, clock: nat): Outcome {
    match Refusal(r.app, version)
    case Some(error) => Failed(error)
    case None =>
      match NewRevision(r.app.tenant, r.app.id, r.next + 1, kind, schema, c, clock)
      case None => Failed(Invalid)
      case Some(draft) => Done(r.(revisions := r.revisions[r.next + 1 := draft], next := r.next + 1))
  }

  /** The draft a caller that expects `draftVersion` may change, or why not. */
  function DraftRefusal(r: Record, number: int, draftVersion: int): Option<Error> {
    if number !in r.revisions then Some(NotFound)
    else if r.revisions[number].state != Draft then Some(Immutable)
    else if draftVersion != r.revisions[number].draftVersion then Some(Conflict)
    else None
  }

  function UpdateDraft(r: Record, version: int, number: int, draftVersion: int, c: Configuration, clock: nat,
                       hash: Hash): Outcome
  {
    match (Refusal(r.app, version), DraftRefusal(r, number, draftVersion))
    case (Some(error), _) => Failed(error)
    case (None, Some(error)) => Failed(error)
    case (None, None) =>
      var was := r.revisions[number];
      match NewRevision(r.app.tenant, r.app.id, number, was.kind, was.schema, c, clock)
      case None => Failed(Invalid)
      case Some(made) =>
        var candidate := made.(draftVersion := was.draftVersion + 1, createdAt := was.createdAt,
                                updatedAt := Max(clock, was.updatedAt));
        if ValidRevision(candidate, hash) then Done(r.(revisions := r.revisions[number := candidate]))
        else Failed(Invalid)
  }

  function PublishDraft(r: Record, version: int, number: int, draftVersion: int, clock: nat, hash: Hash): Outcome {
    match (Refusal(r.app, version), DraftRefusal(r, number, draftVersion))
    case (Some(error), _) => Failed(error)
    case (None, Some(error)) => Failed(error)
    case (None, None) =>
      var was := r.revisions[number];
      var now := Max(clock, Max(r.app.updatedAt, was.updatedAt));
      match Publish(was, now, hash)
      case None => Failed(Invalid)
      case Some(published) =>
        var a := r.app.(current := Some(number), canary := None,
                        status := if r.app.status == Unpublished then Active else r.app.status,
                        version := r.app.version + 1, updatedAt := now);
        Store(r.(revisions := r.revisions[number := published]), a,
              [NewEvent(Publication, a, r.app.status, r.app.current, published.digest, r.app.version, now)])
  }

  function Rollback(r: Record, version: int, target: int, clock: nat): Outcome {
    match Refusal(r.app, version)
    case Some(error) => Failed(error)
    case None =>
      if target !in r.revisions then Failed(NotFound)
      else if r.revisions[target].state != Published then Failed(Invalid)
      else if r.app.current.None? || r.app.current.value == target then Failed(Invalid)
      else
        var now := Max(clock, r.app.updatedAt);
        var a := r.app.(current := Some(target), canary := None, version := r.app.version + 1, updatedAt := now);
        Store(r, a, [NewEvent(RolledBack, a, r.app.status, r.app.current, r.revisions[target].digest, r.app.version, now)])
  }

  /** Why `candidate` cannot be the canary. */
  function CandidateRefusal(r: Record, candidate: int): Option<Error> {
    if candidate < 1 then Some(Invalid)
    else if candidate !in r.revisions then Some(NotFound)
    else if r.revisions[candidate].state != Published then Some(Invalid)
    else if r.app.current.None? || r.app.current.value == candidate then Some(Invalid)
    else None
  }

  function SetCanary(r: Record, version: int, candidate: Option<int>, clock: nat): Outcome {
    match Refusal(r.app, version)
    case Some(error) => Failed(error)
    case None =>
      if r.app.status != Active then Failed(Invalid)
      else if candidate.Some? && CandidateRefusal(r, candidate.value).Some? then
        Failed(CandidateRefusal(r, candidate.value).value)
      else if r.app.canary == candidate then Failed(Invalid)
      else
        var now := Max(clock, r.app.updatedAt);
        var a := r.app.(canary := candidate, version := r.app.version + 1, updatedAt := now);
        var digest := if candidate.Some? then r.revisions[candidate.value].digest else "";
        var change := if candidate.Some? then CanaryStarted else CanaryStopped;
        Store(r, a, [NewCanaryEvent(change, a, r.app.canary, digest, r.app.version, now)])
  }

  function Transition(r: Record, version: int, next: Status, clock: nat): Outcome {
    match Refusal(r.app, version)
    case Some(error) => Failed(error)
    case None =>
      if !CanTransition(r.app.status, next) then Failed(InvalidTransition)
      else
        var now := Max(clock, r.app.updatedAt);
        var a := r.app.(status := next, version := r.app.version + 1, updatedAt := now);
        if !ValidApp(a) then Failed(Invalid)
        else if a.current.Some? && a.current.value !in r.revisions then Failed(NotFound)
        else
          var digest := if a.current.Some? then r.revisions[a.current.value].digest else "";
          Store(r, a, [NewEvent(StatusChange(next), a, r.app.status, r.app.current, digest, r.app.version, now)])
  }

  /** What a caller asks of one App. Metadata of the change and the tenant's state were checked before. */
  datatype Request =
    | AskMetadata(name: string, description: string)
    | AskDraft(kind: string, schema: int, configuration: Configuration)
    | AskRedraft(number: int, draftVersion: int, configuration: Configuration)
    | AskPublish(number: int, draftVersion: int)
    | AskRollback(target: int)
    | AskCanary(candidate: Option<int>)
    | AskStatus(next: Status)

  function Handle(r: Record, version: int, request: Request, clock: nat, hash: Hash): Outcome {
    match request
    case AskMetadata(name, description) => UpdateMetadata(r, version, name, description, clock)
    case AskDraft(kind, schema, c) => CreateDraft(r, version, kind, schema, c, clock)
    case AskRedraft(number, draftVersion, c) => UpdateDraft(r, version, number, draftVersion, c, clock, hash)
    case AskPublish(number, draftVersion) => PublishDraft(r, version, number, draftVersion, clock, hash)
    case AskRollback(target) => Rollback(r, version, target, clock)
    case AskCanary(candidate) => SetCanary(r, version, candidate, clock)
    case AskStatus(next) => Transition(r, version, next, clock)
  }

  // ---------------------------------------------------------------------------------------------
  // What the log says
  // ---------------------------------------------------------------------------------------------

  /** What a reader of the event log knows of an App. */
  datatype Summary = Summary(status: Status, current: Option<int>, canary: Option<int>)

  predicate IsCanary(e: Event) { e.change == CanaryStarted || e.change == CanaryStopped }

  /** A publication or a rollback ends a canary; a canary event moves nothing else. */
  function Absorb(s: Summary, e: Event): Summary {
    match e.change
    case Publication => Summary(e.currentStatus, e.currentRevision, None)
    case RolledBack => Summary(e.currentStatus, e.currentRevision, None)
    case CanaryStarted => Summary(e.currentStatus, s.current, e.currentRevision)
    case CanaryStopped => Summary(e.currentStatus, s.current, e.currentRevision)
    case _ => Summary(e.currentStatus, e.currentRevision, s.canary)
  }

  function Fold(log: seq<Event>): Summary {
    if log == [] then Summary(Unpublished, None, None)
    else Absorb(Fold(log[..|log| - 1]), log[|log| - 1])
  }

  /** The event starts where the summary is, and raises the version by one. */
  predicate Follows(s: Summary, e: Event) {
    && e.previousStatus == s.status && e.nextVersion == e.previousVersion + 1
    && e.previousRevision == if IsCanary(e) then s.canary else s.current
  }

  /** Every event follows the ones before it, at a version they have reached. */
  predicate Chained(log: seq<Event>) {
    log == [] ||
    (var front, last := log[..|log| - 1], log[|log| - 1];
     && Chained(front) && Follows(Fold(front), last)
     && (front == [] || front[|front| - 1].nextVersion <= last.previousVersion))
  }

  lemma AppendEvent(log: seq<Event>, e: Event)
    requires Chained(log) && Follows(Fold(log), e)
    requires log == [] || log[|log| - 1].nextVersion <= e.previousVersion
    ensures Chained(log + [e]) && Fold(log + [e]) == Absorb(Fold(log), e)
  {
    assert (log + [e])[..|log|] == log;
  }

  // ---------------------------------------------------------------------------------------------
  // What every request keeps
  // ---------------------------------------------------------------------------------------------

  /** Revisions are numbered 1, 2, ..., `next`; each is valid and belongs to the App. */
  ghost predicate RevisionsKept(tenant: string, id: string, revisions: map<int, Revision>, next: int, hash: Hash) {
    && next >= 0
    && (forall n :: n in revisions <==> 1 <= n <= next)
    && (forall n <- revisions ::
          && ValidRevision(revisions[n], hash)
          && revisions[n].number == n && revisions[n].tenant == tenant && revisions[n].app == id)
  }

  predicate IsPublished(revisions: map<int, Revision>, number: Option<int>) {
    number.Some? ==> number.value in revisions && revisions[number.value].state == Published
  }

  /** The current and the canary revision exist and are published; `ValidApp` says that they differ. */
  predicate SelectionsKept(a: App, revisions: map<int, Revision>) {
    IsPublished(revisions, a.current) && IsPublished(revisions, a.canary)
  }

  /** The log tells the stored state, and no event is newer than the App. */
  predicate LogKept(a: App, log: seq<Event>) {
    && Chained(log) && Fold(log) == Summary(a.status, a.current, a.canary)
    && (log != [] ==> log[|log| - 1].nextVersion <= a.version)
  }

  ghost predicate Kept(r: Record, hash: Hash) {
    && ValidApp(r.app)
    && RevisionsKept(r.app.tenant, r.app.id, r.revisions, r.next, hash)
    && SelectionsKept(r.app, r.revisions)
    && LogKept(r.app, r.log)
  }

  /** How a record may change: published content stays, the version rises by one with the root, the log grows. */
  predicate Advances(r: Record, r': Record) {
    && (forall n <- r.revisions :: n in r'.revisions && (r.revisions[n].state == Published ==> r'.revisions[n] == r.revisions[n]))
    && (r'.app == r.app || r'.app.version == r.app.version + 1)
    && r'.app.tenant == r.app.tenant && r'.app.id == r.app.id && r'.app.key == r.app.key
    && r'.app.createdAt == r.app.createdAt && r'.app.updatedAt >= r.app.updatedAt
    && r.log <= r'.log && r.next <= r'.next && (r.app.current.Some? ==> r'.app.current.Some?)
    && (r.app.status == Disabled ==> r' == r)
  }

  lemma MetadataKeeps(r: Record, version: int, name: string, description: string, clock: nat, hash: Hash)
    requires Kept(r, hash) && UpdateMetadata(r, version, name, description, clock).Done?
    ensures Kept(UpdateMetadata(r, version, name, description, clock).record, hash)
    ensures Advances(r, UpdateMetadata(r, version, name, description, clock).record)
  {
    hide Trim, ValidApp, ValidRevision, Chained, Fold;
    assert r.log + [] == r.log;
  }

  lemma DraftKeeps(r: Record, version: int, kind: string, schema: int, c: Configuration, clock: nat, hash: Hash)
    requires clock > 0 && Kept(r, hash) && CreateDraft(r, version, kind, schema, c, clock).Done?
    ensures Kept(CreateDraft(r, version, kind, schema, c, clock).record, hash)
    ensures Advances(r, CreateDraft(r, version, kind, schema, c, clock).record)
  {
    hide ValidApp, ValidRevision, Normalize, ValidDefinition, Ulid.ValidTenantId, ValidAppId, LogKept;
    NewRevisionIsValid(r.app.tenant, r.app.id, r.next + 1, kind, schema, c, clock, hash);
  }

  lemma RedraftKeeps(r: Record, version: int, number: int, draftVersion: int, c: Configuration, clock: nat, hash: Hash)
    requires clock > 0 && Kept(r, hash) && UpdateDraft(r, version, number, draftVersion, c, clock, hash).Done?
    ensures Kept(UpdateDraft(r, version, number, draftVersion, c, clock, hash).record, hash)
    ensures Advances(r, UpdateDraft(r, version, number, draftVersion, c, clock, hash).record)
  {
    hide ValidApp, ValidRevision, Normalize, ValidDefinition, Ulid.ValidTenantId, ValidAppId, LogKept;
  }

  /** A new root with the event that tells the change. */
  lemma RootChanges(r: Record, a: App, e: Event, hash: Hash)
    requires Kept(r, hash) && r.app.status != Disabled && ValidApp(a) && SelectionsKept(a, r.revisions)
    requires a.tenant == r.app.tenant && a.id == r.app.id && a.key == r.app.key && a.createdAt == r.app.createdAt
    requires a.version == r.app.version + 1 && a.updatedAt >= r.app.updatedAt && (r.app.current.Some? ==> a.current.Some?)
    requires Follows(Summary(r.app.status, r.app.current, r.app.canary), e)
    requires e.previousVersion == r.app.version && e.nextVersion == a.version
    requires Absorb(Summary(r.app.status, r.app.current, r.app.canary), e) == Summary(a.status, a.current, a.canary)
    ensures Kept(r.(app := a, log := r.log + [e]), hash) && Advances(r, r.(app := a, log := r.log + [e]))
  {
    hide ValidApp, RevisionsKept, SelectionsKept, Chained, Fold, Follows, Absorb;
    AppendEvent(r.log, e);
  }

  lemma KeptSelections(r: Record, hash: Hash)
    requires Kept(r, hash)
    ensures SelectionsKept(r.app, r.revisions)
  {
  }

  lemma RollbackKeeps(r: Record, version: int, target: int, clock: nat, hash: Hash)
    requires Kept(r, hash) && Rollback(r, version, target, clock).Done?
    ensures Kept(Rollback(r, version, target, clock).record, hash)
    ensures Advances(r, Rollback(r, version, target, clock).record)
  {
    hide ValidApp, Kept, Advances;
    KeptSelections(r, hash);
    var r' := Rollback(r, version, target, clock).record;
    RootChanges(r, r'.app, r'.log[|r.log|], hash);
  }

  /** The published revision takes the place of its draft. */
  lemma DraftIsReplaced(r: Record, number: int, published: Revision, hash: Hash)
    requires Kept(r, hash) && number in r.revisions && r.revisions[number].state == Draft
    requires ValidRevision(published, hash) && published.number == number
    requires published.tenant == r.app.tenant && published.app == r.app.id
    ensures Kept(r.(revisions := r.revisions[number := published]), hash)
  {
    hide ValidApp, ValidRevision, LogKept;
  }

  lemma PublishKeeps(r: Record, version: int, number: int, draftVersion: int, clock: nat, hash: Hash)
    requires Kept(r, hash) && PublishDraft(r, version, number, draftVersion, clock, hash).Done?
    ensures Kept(PublishDraft(r, version, number, draftVersion, clock, hash).record, hash)
    ensures Advances(r, PublishDraft(r, version, number, draftVersion, clock, hash).record)
  {
    hide ValidApp, ValidRevision, Digest, Kept, Advances;
    var r' := PublishDraft(r, version, number, draftVersion, clock, hash).record;
    var published := r'.revisions[number];
    OwnRevision(r, number, hash);
    DraftIsReplaced(r, number, published, hash);
    var middle := r.(revisions := r.revisions[number := published]);
    KeptSelections(middle, hash);
    RootChanges(middle, r'.app, r'.log[|r.log|], hash);
    AdvancesFromDraft(r, middle, r', number);
  }

  lemma OwnRevision(r: Record, number: int, hash: Hash)
    requires Kept(r, hash) && number in r.revisions
    ensures r.revisions[number].number == number
    ensures r.revisions[number].tenant == r.app.tenant && r.revisions[number].app == r.app.id
  {
    hide ValidApp, ValidRevision, LogKept;
  }

  lemma AdvancesFromDraft(r: Record, middle: Record, r': Record, number: int)
    requires number in r.revisions && r.revisions[number].state == Draft && number in middle.revisions
    requires middle == r.(revisions := r.revisions[number := middle.revisions[number]]) && Advances(middle, r')
    requires r.app.status != Disabled
    ensures Advances(r, r')
  {
  }

  lemma CanaryKeeps(r: Record, version: int, candidate: Option<int>, clock: nat, hash: Hash)
    requires Kept(r, hash) && SetCanary(r, version, candidate, clock).Done?
    ensures Kept(SetCanary(r, version, candidate, clock).record, hash)
    ensures Advances(r, SetCanary(r, version, candidate, clock).record)
  {
    hide ValidApp, Kept, Advances;
    KeptSelections(r, hash);
    var r' := SetCanary(r, version, candidate, clock).record;
    RootChanges(r, r'.app, r'.log[|r.log|], hash);
  }

  lemma TransitionKeeps(r: Record, version: int, next: Status, clock: nat, hash: Hash)
    requires Kept(r, hash) && Transition(r, version, next, clock).Done?
    ensures Kept(Transition(r, version, next, clock).record, hash)
    ensures Advances(r, Transition(r, version, next, clock).record)
  {
    hide ValidApp, Kept, Advances;
    KeptSelections(r, hash);
    var r' := Transition(r, version, next, clock).record;
    RootChanges(r, r'.app, r'.log[|r.log|], hash);
  }

  /** Whatever is asked, a request that is granted keeps the invariant and only advances the record. */
  lemma RequestKeeps(r: Record, version: int, request: Request, clock: nat, hash: Hash)
    requires clock > 0 && Kept(r, hash) && Handle(r, version, request, clock, hash).Done?
    ensures Kept(Handle(r, version, request, clock, hash).record, hash)
    ensures Advances(r, Handle(r, version, request, clock, hash).record)
  {
    hide Kept, Advances, UpdateMetadata, CreateDraft, UpdateDraft, PublishDraft, Rollback, SetCanary, Transition;
    match request
    case AskMetadata(name, description) => MetadataKeeps(r, version, name, description, clock, hash);
    case AskDraft(kind, schema, c) => DraftKeeps(r, version, kind, schema, c, clock, hash);
    case AskRedraft(number, draftVersion, c) => RedraftKeeps(r, version, number, draftVersion, c, clock, hash);
    case AskPublish(number, draftVersion) => PublishKeeps(r, version, number, draftVersion, clock, hash);
    case AskRollback(target) => RollbackKeeps(r, version, target, clock, hash);
    case AskCanary(candidate) => CanaryKeeps(r, version, candidate, clock, hash);
    case AskStatus(next) => TransitionKeeps(r, version, next, clock, hash);
  }

  // ---------------------------------------------------------------------------------------------
  // What was asked is what is stored
  // ---------------------------------------------------------------------------------------------

  /** The part of the root that requests other than metadata changes do not touch. */
  predicate SameText(a: App, a': App) { a'.name == a.name && a'.description == a.description }

  predicate SameSelection(a: App, a': App) { a'.status == a.status && a'.current == a.current && a'.canary == a.canary }

  /** The revision is in this state and holds this content, normalized. */
  predicate Holds(revision: Revision, state: RevisionState, c: Configuration) {
    revision.state == state && Normalize(c) == Some(revision.configuration)
  }

  /** The log has grown by one event, of this kind and about this content, at the time of the change. */
  predicate Tells(r: Record, r': Record, change: Change, digest: string) {
    |r'.log| == |r.log| + 1 && r'.log[|r.log|].change == change && r'.log[|r.log|].digest == digest
    && r'.log[|r.log|].at == r'.app.updatedAt
  }

  function DigestAt(r: Record, number: Option<int>): string {
    if number.Some? && number.value in r.revisions then r.revisions[number.value].digest else ""
  }

  predicate TakesEffect(r: Record, request: Request, clock: nat, r': Record) {
    match request
    case AskMetadata(name, description) =>
      && r'.app.name == Trim(name) && r'.app.description == Trim(description)
      && SameSelection(r.app, r'.app) && r'.revisions == r.revisions && r'.log == r.log
      && r'.app.updatedAt == Max(clock, r.app.updatedAt)
    case AskDraft(_, _, c) =>
      && r'.app == r.app && r'.log == r.log && r'.next == r.next + 1 && r'.next in r'.revisions
      && r'.revisions == r.revisions[r'.next := r'.revisions[r'.next]] && Holds(r'.revisions[r'.next], Draft, c)
      && r'.revisions[r'.next].draftVersion == 1 && r'.revisions[r'.next].createdAt == r'.revisions[r'.next].updatedAt == clock
    case AskRedraft(number, draftVersion, c) =>
      && r'.app == r.app && r'.log == r.log && r'.next == r.next && number in r.revisions && number in r'.revisions
      && r'.revisions == r.revisions[number := r'.revisions[number]] && Holds(r'.revisions[number], Draft, c)
      && r'.revisions[number].draftVersion == draftVersion + 1
      && r'.revisions[number].createdAt == r.revisions[number].createdAt
      && r'.revisions[number].updatedAt == Max(clock, r.revisions[number].updatedAt)
    case AskPublish(number, _) =>
      && number in r.revisions && number in r'.revisions && r'.revisions == r.revisions[number := r'.revisions[number]]
      && r'.revisions[number].state == Published
      && r'.revisions[number].configuration == r.revisions[number].configuration
      && r'.app.current == Some(number) && r'.app.canary == None && SameText(r.app, r'.app)
      && r'.app.status == (if r.app.status == Unpublished then Active else r.app.status)
      && r'.app.updatedAt == r'.revisions[number].updatedAt == Max(clock, Max(r.app.updatedAt, r.revisions[number].updatedAt))
      && Tells(r, r', Publication, r'.revisions[number].digest)
    case AskRollback(target) =>
      && r'.app.current == Some(target) && r'.app.canary == None && r'.app.status == r.app.status
      && SameText(r.app, r'.app) && r'.revisions == r.revisions && r'.app.updatedAt == Max(clock, r.app.updatedAt)
      && Tells(r, r', RolledBack, DigestAt(r, Some(target)))
    case AskCanary(candidate) =>
      && r'.app.canary == candidate && r'.app.current == r.app.current && r'.app.status == r.app.status
      && SameText(r.app, r'.app) && r'.revisions == r.revisions && r'.app.updatedAt == Max(clock, r.app.updatedAt)
      && Tells(r, r', if candidate.Some? then CanaryStarted else CanaryStopped, DigestAt(r, candidate))
    case AskStatus(next) =>
      && r'.app.status == next && r'.app.current == r.app.current && r'.app.canary == r.app.canary
      && SameText(r.app, r'.app) && r'.revisions == r.revisions && r'.app.updatedAt == Max(clock, r.app.updatedAt)
      && Tells(r, r', if next == Active then Resumption else if next == Suspended then Suspension else Disablement,
               DigestAt(r, r.app.current))
  }

  /** A granted request stores what was asked and leaves the rest alone. */
  lemma RequestTakesEffect(r: Record, version: int, request: Request, clock: nat, hash: Hash)
    requires Handle(r, version, request, clock, hash).Done?
    ensures TakesEffect(r, request, clock, Handle(r, version, request, clock, hash).record)
  {
    hide Trim, Normalize, ValidApp, ValidRevision, ValidDefinition, Ulid.ValidTenantId, ValidAppId, Digest;
    assert r.log + [] == r.log;
  }

  // ---------------------------------------------------------------------------------------------
  // The final checks cannot fail
  // ---------------------------------------------------------------------------------------------

  /** On a kept record a publication is refused only for the App, the draft or their versions. */
  lemma PublicationIsGranted(r: Record, version: int, number: int, draftVersion: int, clock: nat, hash: Hash)
    requires Kept(r, hash)
    ensures PublishDraft(r, version, number, draftVersion, clock, hash).Done? <==>
      Refusal(r.app, version).None? && DraftRefusal(r, number, draftVersion).None?
  {
    hide Trim, ValidRevision, Publish, ValidIdentity, LogKept;
    if number in r.revisions {
      PublishSucceeds(r.revisions[number], Max(clock, Max(r.app.updatedAt, r.revisions[number].updatedAt)), hash);
      StoredTimesAreSet(r.revisions[number], hash);
    }
  }

  lemma StoredTimesAreSet(revision: Revision, hash: Hash)
    requires ValidRevision(revision, hash)
    ensures revision.updatedAt != 0
  {
  }

  /** A draft is rewritten unless the App, the draft, their versions or the new content is refused. */
  lemma RedraftIsGranted(r: Record, version: int, number: int, draftVersion: int, c: Configuration, clock: nat, hash: Hash)
    requires clock > 0 && Kept(r, hash)
    ensures UpdateDraft(r, version, number, draftVersion, c, clock, hash).Done? <==>
      && Refusal(r.app, version).None? && DraftRefusal(r, number, draftVersion).None?
      && NewRevision(r.app.tenant, r.app.id, number, r.revisions[number].kind, r.revisions[number].schema, c, clock).Some?
  {
    hide ValidApp, ValidRevision, NewRevision, LogKept;
    if Refusal(r.app, version).None? && DraftRefusal(r, number, draftVersion).None? {
      var was := r.revisions[number];
      if NewRevision(was.tenant, was.app, was.number, was.kind, was.schema, c, clock).Some? {
        RewrittenDraftIsValid(was, c, clock, Max(clock, was.updatedAt), hash);
      }
    }
  }

  /** A lifecycle change is refused only for the App's version or a transition the lifecycle does not have. */
  lemma TransitionIsGranted(r: Record, version: int, next: Status, clock: nat, hash: Hash)
    requires Kept(r, hash)
    ensures Transition(r, version, next, clock).Done? <==>
      Refusal(r.app, version).None? && CanTransition(r.app.status, next)
  {
    hide Trim, ValidRevision, RevisionsKept, ValidIdentity, LogKept;
  }

  // ---------------------------------------------------------------------------------------------
  // Exactly which requests are granted
  // ---------------------------------------------------------------------------------------------

  /** Content a draft may have; an empty kind or a schema version of zero selects the default. */
  predicate Acceptable(kind: string, schema: int, c: Configuration) {
    && (kind == "" || kind == "llm") && (schema == 0 || schema == 1)
    && Normalize(c).Some? && ValidDefinition("llm", 1, Normalize(c).value)
  }

  /** The revision is published and can take the place of the current one. */
  predicate Selectable(r: Record, n: int) {
    n in r.revisions && r.revisions[n].state == Published && r.app.current.Some? && r.app.current != Some(n)
  }

  predicate IsDraft(r: Record, n: int, draftVersion: int) {
    n in r.revisions && r.revisions[n].state == Draft && r.revisions[n].draftVersion == draftVersion
  }

  predicate Granted(r: Record, version: int, request: Request) {
    && r.app.status != Disabled && version == r.app.version
    && match request
       case AskMetadata(name, description) => 1 <= |Trim(name)| <= 200 && |Trim(description)| <= 2000
       case AskDraft(kind, schema, c) => Acceptable(kind, schema, c)
       case AskRedraft(number, draftVersion, c) => IsDraft(r, number, draftVersion) && Acceptable("llm", 1, c)
       case AskPublish(number, draftVersion) => IsDraft(r, number, draftVersion)
       case AskRollback(target) => Selectable(r, target)
       case AskCanary(None) => r.app.status == Active && r.app.canary.Some?
       case AskCanary(Some(n)) => r.app.status == Active && Selectable(r, n) && r.app.canary != Some(n)
       case AskStatus(Active) => r.app.status == Suspended
       case AskStatus(Suspended) => r.app.status == Active
       case AskStatus(next) => next == Disabled
  }

  /** What a refused caller is told. */
  function Reason(r: Record, version: int, request: Request): Error {
    if r.app.status == Disabled then DisabledApp
    else if version != r.app.version then Conflict
    else match request
      case AskStatus(_) => InvalidTransition
      case AskRollback(target) => if target in r.revisions then Invalid else NotFound
      case AskCanary(Some(n)) => if r.app.status == Active && n > r.next then NotFound else Invalid
      case AskRedraft(number, draftVersion, _) => DraftReason(r, number, draftVersion)
      case AskPublish(number, draftVersion) => DraftReason(r, number, draftVersion)
      case _ => Invalid
  }

  function DraftReason(r: Record, number: int, draftVersion: int): Error {
    if number !in r.revisions then NotFound
    else if r.revisions[number].state == Published then Immutable
    else if r.revisions[number].draftVersion != draftVersion then Conflict
    else Invalid
  }

  /** The request is decided as `Granted` says, and a refusal says why. */
  ghost predicate Decides(r: Record, version: int, request: Request, outcome: Outcome) {
    && (outcome.Done? <==> Granted(r, version, request))
    && (outcome.Failed? ==> outcome.error == Reason(r, version, request))
  }

  lemma MetadataDecided(r: Record, version: int, name: string, description: string, clock: nat, hash: Hash)
    requires Kept(r, hash)
    ensures Decides(r, version, AskMetadata(name, description), UpdateMetadata(r, version, name, description, clock))
  {
    hide Trim, ValidRevision, RevisionsKept, LogKept, NormalizeKey, Ulid.ValidTenantId, ValidAppId;
    TrimIsIdempotent(name);
    TrimIsIdempotent(description);
  }

  lemma DraftDecided(r: Record, version: int, kind: string, schema: int, c: Configuration, clock: nat, hash: Hash)
    requires Kept(r, hash)
    ensures Decides(r, version, AskDraft(kind, schema, c), CreateDraft(r, version, kind, schema, c, clock))
  {
    hide Trim, ValidRevision, LogKept, NormalizeKey, Ulid.ValidTenantId, ValidAppId, Normalize;
    hide ValidGeneration, ValidPolicy, NormalizeTools;
  }

  lemma RedraftDecided(r: Record, version: int, number: int, draftVersion: int, c: Configuration, clock: nat, hash: Hash)
    requires clock > 0 && Kept(r, hash)
    ensures Decides(r, version, AskRedraft(number, draftVersion, c), UpdateDraft(r, version, number, draftVersion, c, clock, hash))
  {
    hide Kept, ValidRevision, Normalize, ValidDefinition, Ulid.ValidTenantId, ValidAppId;
    RedraftIsGranted(r, version, number, draftVersion, c, clock, hash);
    if number in r.revisions {
      StoredKind(r, number, hash);
    }
  }

  lemma StoredKind(r: Record, number: int, hash: Hash)
    requires Kept(r, hash) && number in r.revisions
    ensures r.revisions[number].kind == "llm" && r.revisions[number].schema == 1 && number >= 1
    ensures Ulid.ValidTenantId(r.app.tenant) && ValidAppId(r.app.id)
  {
    hide Trim, Normalize, LogKept, NormalizeKey, Ulid.ValidTenantId, ValidAppId, SameConfiguration;
    assert ValidRevision(r.revisions[number], hash);
  }

  lemma PublicationDecided(r: Record, version: int, number: int, draftVersion: int, clock: nat, hash: Hash)
    requires Kept(r, hash)
    ensures Decides(r, version, AskPublish(number, draftVersion), PublishDraft(r, version, number, draftVersion, clock, hash))
  {
    hide Kept, Publish, Store;
    PublicationIsGranted(r, version, number, draftVersion, clock, hash);
  }

  lemma RollbackDecided(r: Record, version: int, target: int, clock: nat, hash: Hash)
    requires Kept(r, hash)
    ensures Decides(r, version, AskRollback(target), Rollback(r, version, target, clock))
  {
    hide Trim, ValidRevision, ValidIdentity, LogKept;
  }

  lemma CanaryDecided(r: Record, version: int, candidate: Option<int>, clock: nat, hash: Hash)
    requires Kept(r, hash)
    ensures Decides(r, version, AskCanary(candidate), SetCanary(r, version, candidate, clock))
  {
    hide Trim, ValidRevision, ValidIdentity, LogKept;
  }

  lemma TransitionDecided(r: Record, version: int, next: Status, clock: nat, hash: Hash)
    requires Kept(r, hash)
    ensures Decides(r, version, AskStatus(next), Transition(r, version, next, clock))
  {
    hide Kept, Store;
    TransitionIsGranted(r, version, next, clock, hash);
  }

  /** On a kept record a request is granted exactly when the App, the version, the revisions and the content
      allow it, and a refusal names the first thing that does not. */
  lemma GrantedExactly(r: Record, version: int, request: Request, clock: nat, hash: Hash)
    requires clock > 0 && Kept(r, hash)
    ensures Handle(r, version, request, clock, hash).Done? <==> Granted(r, version, request)
    ensures !Granted(r, version, request) ==> Handle(r, version, request, clock, hash) == Failed(Reason(r, version, request))
  {
    hide Kept, Granted, Reason, UpdateMetadata, CreateDraft, UpdateDraft, PublishDraft, Rollback, SetCanary, Transition;
    match request
    case AskMetadata(name, description) => MetadataDecided(r, version, name, description, clock, hash);
    case AskDraft(kind, schema, c) => DraftDecided(r, version, kind, schema, c, clock, hash);
    case AskRedraft(number, draftVersion, c) => RedraftDecided(r, version, number, draftVersion, c, clock, hash);
    case AskPublish(number, draftVersion) => PublicationDecided(r, version, number, draftVersion, clock, hash);
    case AskRollback(target) => RollbackDecided(r, version, target, clock, hash);
    case AskCanary(candidate) => CanaryDecided(r, version, candidate, clock, hash);
    case AskStatus(next) => TransitionDecided(r, version, next, clock, hash);
  }
}
