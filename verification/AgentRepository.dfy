/**
 The in-memory repository of agent Apps: every run of its operations, and the gateway's two separate
 reads between which other operations may run.
 */
module AgentRepository {
  import opened Options
  import opened Text
  import opened Revisions
  import opened AgentApps
  import Ulid

  datatype Scope = Scope(tenant: string, app: string)

  datatype Key = Key(tenant: string, key: string)

  datatype State = State(records: map<Scope, Record>, byKey: map<Key, string>)

  /** One operation under the repository lock; the clock and the new identifier come from outside. */
  datatype Step =
    | Create(tenant: string, key: string, name: string, description: string, id: string, clock: nat)
    | Ask(scope: Scope, version: int, request: Request, clock: nat)

  predicate Enabled(step: Step) { step.clock > 0 && (step.Create? ==> ValidAppId(step.id)) }

  /** `Create` after `NewApp`: the identifier and the key must be unused in the tenant. */
  function Insert(s: State, a: App): Option<State> {
    if Scope(a.tenant, a.id) in s.records || Key(a.tenant, a.key) in s.byKey then None
    else Some(State(s.records[Scope(a.tenant, a.id) := Record(a, map[], 0, [])],
                    s.byKey[Key(a.tenant, a.key) := a.id]))
  }

  /** What `Create` answers. */
  function CreateError(s: State, made: Option<App>): Option<Error> {
    if made.None? then Some(Invalid) else if Insert(s, made.value).None? then Some(DuplicateKey) else None
  }

  function After(s: State, scope: Scope, outcome: Outcome): State {
    match outcome
    case Failed(_) => s
    case Done(record) => s.(records := s.records[scope := record])
  }

  function Apply(s: State, step: Step, hash: Hash): State {
    match step
    case Create(tenant, key, name, description, id, clock) =>
      (match NewApp(tenant, key, name, description, id, clock)
       case None => s
       case Some(a) => match Insert(s, a) case None => s case Some(s') => s')
    case Ask(scope, version, request, clock) =>
      if scope !in s.records then s
      else After(s, scope, Handle(s.records[scope], version, request, clock, hash))
  }

  // ---------------------------------------------------------------------------------------------
  // Runs
  // ---------------------------------------------------------------------------------------------

  const EMPTY := State(map[], map[])

  predicate AllEnabled(steps: seq<Step>) { forall step <- steps :: Enabled(step) }

  function Run(s: State, steps: seq<Step>, hash: Hash): State {
    if steps == [] then s else Apply(Run(s, steps[..|steps| - 1], hash), steps[|steps| - 1], hash)
  }

  /** Every App is found under its key. */
  ghost predicate Findable(records: map<Scope, Record>, byKey: map<Key, string>) {
    forall scope <- records ::
      && records[scope].app.tenant == scope.tenant && records[scope].app.id == scope.app
      && Key(scope.tenant, records[scope].app.key) in byKey
      && byKey[Key(scope.tenant, records[scope].app.key)] == scope.app
  }

  /** Every key finds an App that bears it. */
  ghost predicate Truthful(records: map<Scope, Record>, byKey: map<Key, string>) {
    forall key <- byKey ::
      && Scope(key.tenant, byKey[key]) in records
      && records[Scope(key.tenant, byKey[key])].app.key == key.key
  }

  /** The key index and the App map say the same. */
  ghost predicate Indexed(s: State) { Findable(s.records, s.byKey) && Truthful(s.records, s.byKey) }

  ghost predicate AllKept(s: State, hash: Hash) {
    forall scope <- s.records :: Kept(s.records[scope], hash)
  }

  ghost predicate Inv(s: State, hash: Hash) { Indexed(s) && AllKept(s, hash) }

  /** How a record may have changed over a run. */
  predicate Grown(r: Record, r': Record) {
    && (forall n <- r.revisions :: n in r'.revisions && (r.revisions[n].state == Published ==> r'.revisions[n] == r.revisions[n]))
    && r.app.version <= r'.app.version && (r'.app.version == r.app.version ==> r'.app == r.app)
    && r'.app.tenant == r.app.tenant && r'.app.id == r.app.id && r'.app.key == r.app.key
    && r.log <= r'.log && r.next <= r'.next && (r.app.current.Some? ==> r'.app.current.Some?)
    && (r.app.status == Disabled ==> r' == r)
  }

  predicate Evolves(s: State, s': State) {
    forall scope <- s.records :: scope in s'.records && Grown(s.records[scope], s'.records[scope])
  }

  lemma GrownTransitive(a: Record, b: Record, c: Record)
    requires Grown(a, b) && Grown(b, c)
    ensures Grown(a, c)
  {
  }

  lemma EvolvesTransitive(a: State, b: State, c: State)
    requires Evolves(a, b) && Evolves(b, c)
    ensures Evolves(a, c)
  {
    hide Grown;
    forall scope <- a.records ensures scope in c.records && Grown(a.records[scope], c.records[scope]) {
      GrownTransitive(a.records[scope], b.records[scope], c.records[scope]);
    }
  }

  lemma EvolvesItself(s: State)
    ensures Evolves(s, s)
  {
  }

  lemma NewRecordIsKept(a: App, hash: Hash)
    requires ValidApp(a) && a.status == Unpublished && a.current == None && a.canary == None
    ensures Kept(Record(a, map[], 0, []), hash)
  {
    hide ValidApp;
  }

  lemma InsertKeepsIndex(s: State, a: App)
    requires Indexed(s) && Insert(s, a).Some?
    ensures Indexed(Insert(s, a).value)
  {
    hide Findable, Truthful;
    InsertIsFindable(s, a);
    InsertIsTruthful(s, a);
  }

  lemma InsertIsFindable(s: State, a: App)
    requires Findable(s.records, s.byKey) && Insert(s, a).Some?
    ensures Findable(Insert(s, a).value.records, Insert(s, a).value.byKey)
  {
  }

  lemma InsertIsTruthful(s: State, a: App)
    requires Truthful(s.records, s.byKey) && Insert(s, a).Some?
    ensures Truthful(Insert(s, a).value.records, Insert(s, a).value.byKey)
  {
  }

  lemma InsertKeepsInv(s: State, a: App, hash: Hash)
    requires Inv(s, hash) && Insert(s, a).Some? && Kept(Record(a, map[], 0, []), hash)
    ensures Inv(Insert(s, a).value, hash) && Evolves(s, Insert(s, a).value)
  {
    hide Kept, Indexed;
    InsertKeepsIndex(s, a);
  }

  lemma AskKeepsIndex(s: State, scope: Scope, r: Record)
    requires Indexed(s) && scope in s.records
    requires r.app.tenant == scope.tenant && r.app.id == scope.app && r.app.key == s.records[scope].app.key
    ensures Indexed(s.(records := s.records[scope := r]))
  {
  }

  lemma AskKeepsInv(s: State, scope: Scope, r: Record, hash: Hash)
    requires Inv(s, hash) && scope in s.records && Kept(r, hash) && Advances(s.records[scope], r)
    ensures Inv(s.(records := s.records[scope := r]), hash)
    ensures Evolves(s, s.(records := s.records[scope := r]))
  {
    hide Kept;
    AskKeepsIndex(s, scope, r);
  }

  lemma StepKeepsInv(s: State, step: Step, hash: Hash)
    requires Inv(s, hash) && Enabled(step)
    ensures Inv(Apply(s, step, hash), hash) && Evolves(s, Apply(s, step, hash))
  {
    hide Indexed, Kept, Advances, Evolves, Handle, Insert, ValidApp, ValidAppId;
    EvolvesItself(s);
    match step
    case Create(tenant, key, name, description, id, clock) =>
      var a := NewApp(tenant, key, name, description, id, clock);
      if a.Some? {
        NewAppIsValid(tenant, key, name, description, id, clock);
        NewRecordIsKept(a.value, hash);
        if Insert(s, a.value).Some? {
          InsertKeepsInv(s, a.value, hash);
        }
      }
    case Ask(scope, version, request, clock) =>
      if scope in s.records && Handle(s.records[scope], version, request, clock, hash).Done? {
        RequestKeeps(s.records[scope], version, request, clock, hash);
        AskKeepsInv(s, scope, Handle(s.records[scope], version, request, clock, hash).record, hash);
      }
  }

  lemma {:induction false} RunKeepsInv(s: State, steps: seq<Step>, hash: Hash)
    requires Inv(s, hash) && AllEnabled(steps)
    ensures Inv(Run(s, steps, hash), hash) && Evolves(s, Run(s, steps, hash))
  {
    hide Inv, Evolves, Apply, Enabled;
    if steps == [] {
      EvolvesItself(s);
    } else {
      var front, last := steps[..|steps| - 1], steps[|steps| - 1];
      RunKeepsInv(s, front, hash);
      StepKeepsInv(Run(s, front, hash), last, hash);
      EvolvesTransitive(s, Run(s, front, hash), Run(s, steps, hash));
    }
  }

  ghost predicate Reachable(s: State, hash: Hash) {
    exists steps :: AllEnabled(steps) && s == Run(EMPTY, steps, hash)
  }

  /** Where an operation leads from a reachable state is reachable. */
  lemma StepStaysReachable(s: State, step: Step, hash: Hash)
    requires Reachable(s, hash) && Enabled(step)
    ensures Reachable(Apply(s, step, hash), hash)
  {
    hide Apply, Enabled;
    var steps :| AllEnabled(steps) && s == Run(EMPTY, steps, hash);
    var more := steps + [step];
    assert more[..|more| - 1] == steps;
    assert AllEnabled(more) && Run(EMPTY, more, hash) == Apply(s, step, hash);
  }

  lemma ReachableInv(s: State, hash: Hash)
    requires Reachable(s, hash)
    ensures Inv(s, hash)
  {
    hide AllEnabled;
    var steps :| AllEnabled(steps) && s == Run(EMPTY, steps, hash);
    RunKeepsInv(EMPTY, steps, hash);
  }

  // ---------------------------------------------------------------------------------------------
  // What holds of every run
  // ---------------------------------------------------------------------------------------------

  /** The current and the canary revision exist, are published and differ; numbers run from 1 without a gap. */
  lemma SelectedArePublished(s: State, scope: Scope, hash: Hash)
    requires Reachable(s, hash) && scope in s.records
    ensures var r := s.records[scope];
      && IsPublished(r.revisions, r.app.current) && IsPublished(r.revisions, r.app.canary)
      && (r.app.canary.Some? ==> r.app.current.Some? && r.app.canary != r.app.current)
      && (forall n :: n in r.revisions <==> 1 <= n <= r.next)
  {
    hide Reachable, LogKept, ValidRevision, ValidIdentity;
    ReachableInv(s, hash);
    assert Kept(s.records[scope], hash);
  }

  /** Some App of the tenant bears the key. */
  ghost predicate KeyTaken(s: State, tenant: string, key: string) {
    exists scope :: scope in s.records && scope.tenant == tenant && s.records[scope].app.key == key
  }

  /** An App is created exactly when its identity is well-formed and neither its identifier nor its key is taken
      in the tenant; it starts unpublished, with the normalized key and texts, and nothing else changes. */
  lemma CreatedExactly(s: State, tenant: string, key: string, name: string, description: string, id: string, clock: nat,
                       hash: Hash)
    requires Reachable(s, hash)
    ensures var s', error := Apply(s, Create(tenant, key, name, description, id, clock), hash),
                             CreateError(s, NewApp(tenant, key, name, description, id, clock));
      if !Ulid.ValidTenantId(tenant) || NormalizeKey(key).None? || !(1 <= |Trim(name)| <= 200 && |Trim(description)| <= 2000)
      then error == Some(Invalid) && s' == s
      else if Scope(tenant, id) in s.records || KeyTaken(s, tenant, NormalizeKey(key).value)
      then error == Some(DuplicateKey) && s' == s
      else
        && error == None
        && s'.records == s.records[Scope(tenant, id) := s'.records[Scope(tenant, id)]]
        && (var r := s'.records[Scope(tenant, id)];
            && r.revisions == map[] && r.log == [] && r.app.status == Unpublished && r.app.version == 1
            && (r.app.tenant, r.app.id, r.app.key) == (tenant, id, NormalizeKey(key).value)
            && (r.app.name, r.app.description) == (Trim(name), Trim(description)))
  {
    hide Reachable, AllKept, NormalizeKey, Trim, Ulid.ValidTenantId;
    ReachableInv(s, hash);
    if NormalizeKey(key).Some? {
      IndexedKeys(s, tenant, NormalizeKey(key).value);
    }
  }

  lemma IndexedKeys(s: State, tenant: string, key: string)
    requires Indexed(s)
    ensures Key(tenant, key) in s.byKey <==> KeyTaken(s, tenant, key)
  {
    if Key(tenant, key) in s.byKey {
      assert Scope(tenant, s.byKey[Key(tenant, key)]) in s.records;
    }
  }

  /** A published revision is never changed and never disappears. */
  lemma {:induction false} PublishedForever(s: State, scope: Scope, n: int, steps: seq<Step>, hash: Hash)
    requires Reachable(s, hash) && AllEnabled(steps)
    requires scope in s.records && n in s.records[scope].revisions && s.records[scope].revisions[n].state == Published
    ensures var s' := Run(s, steps, hash);
      scope in s'.records && n in s'.records[scope].revisions
      && s'.records[scope].revisions[n] == s.records[scope].revisions[n]
  {
    hide Reachable, Inv, Run, AllEnabled;
    ReachableInv(s, hash);
    RunKeepsInv(s, steps, hash);
    assert Grown(s.records[scope], Run(s, steps, hash).records[scope]);
  }

  /** A revision that was current once can be made current again by a rollback, whatever happened since,
      unless the App is disabled or the revision is current still. */
  lemma {:induction false} RollbackStaysPossible(s: State, scope: Scope, n: int, steps: seq<Step>, clock: nat, hash: Hash)
    requires Reachable(s, hash) && AllEnabled(steps) && clock > 0
    requires scope in s.records && s.records[scope].app.current == Some(n)
    ensures scope in Run(s, steps, hash).records
    ensures var s' := Run(s, steps, hash);
      var a := s'.records[scope].app;
      var s'' := Apply(s', Ask(scope, a.version, AskRollback(n), clock), hash);
      && scope in s''.records
      && (a.status != Disabled ==> s''.records[scope].app.current == Some(n))
      && (a.status != Disabled && a.current != Some(n) ==> Handle(s'.records[scope], a.version, AskRollback(n), clock, hash).Done?)
  {
    hide Reachable, Inv, Run, AllEnabled, Grown, Kept, Handle, Granted;
    ReachableInv(s, hash);
    SelectedArePublished(s, scope, hash);
    PublishedForever(s, scope, n, steps, hash);
    RunKeepsInv(s, steps, hash);
    var r, r' := s.records[scope], Run(s, steps, hash).records[scope];
    StaysSelected(s, Run(s, steps, hash), scope, hash);
    GrantedExactly(r', r'.app.version, AskRollback(n), clock, hash);
    RollbackIsGranted(r', n);
    if Granted(r', r'.app.version, AskRollback(n)) {
      RequestTakesEffect(r', r'.app.version, AskRollback(n), clock, hash);
    }
  }

  lemma StaysSelected(s: State, s': State, scope: Scope, hash: Hash)
    requires Evolves(s, s') && Inv(s', hash) && scope in s.records && s.records[scope].app.current.Some?
    ensures scope in s'.records && s'.records[scope].app.current.Some? && Kept(s'.records[scope], hash)
  {
    hide Kept;
    assert Grown(s.records[scope], s'.records[scope]);
  }

  lemma RollbackIsGranted(r: Record, n: int)
    requires n in r.revisions && r.revisions[n].state == Published && r.app.current.Some?
    ensures Granted(r, r.app.version, AskRollback(n)) <==> r.app.status != Disabled && r.app.current != Some(n)
  {
  }

  /** A disabled App and all its revisions are frozen. */
  lemma {:induction false} DisabledForever(s: State, scope: Scope, steps: seq<Step>, hash: Hash)
    requires Reachable(s, hash) && AllEnabled(steps)
    requires scope in s.records && s.records[scope].app.status == Disabled
    ensures scope in Run(s, steps, hash).records && Run(s, steps, hash).records[scope] == s.records[scope]
  {
    hide Reachable, Inv, Run, AllEnabled;
    ReachableInv(s, hash);
    RunKeepsInv(s, steps, hash);
    assert Grown(s.records[scope], Run(s, steps, hash).records[scope]);
  }

  /** Two reads of an App at one version return the same root: the version identifies it. */
  lemma {:induction false} VersionIdentifiesRoot(s: State, scope: Scope, steps: seq<Step>, hash: Hash)
    requires Reachable(s, hash) && AllEnabled(steps) && scope in s.records
    ensures scope in Run(s, steps, hash).records
    ensures s.records[scope].app.version <= Run(s, steps, hash).records[scope].app.version
    ensures s.records[scope].app.version == Run(s, steps, hash).records[scope].app.version
      ==> s.records[scope].app == Run(s, steps, hash).records[scope].app
  {
    hide Reachable, Inv, Run, AllEnabled;
    ReachableInv(s, hash);
    RunKeepsInv(s, steps, hash);
    assert Grown(s.records[scope], Run(s, steps, hash).records[scope]);
  }

  /** The key finds the App it belongs to, and only that one. */
  lemma KeysFindTheirApp(s: State, tenant: string, key: string, id: string, hash: Hash)
    requires Reachable(s, hash)
    ensures Key(tenant, key) in s.byKey && s.byKey[Key(tenant, key)] == id <==>
      Scope(tenant, id) in s.records && s.records[Scope(tenant, id)].app.key == key
  {
    hide Reachable, AllKept;
    ReachableInv(s, hash);
  }

  /** Reading the events of an App from the start tells its status, current and canary revision. */
  lemma EventsTellTheState(s: State, scope: Scope, hash: Hash)
    requires Reachable(s, hash) && scope in s.records
    ensures var r := s.records[scope];
      Fold(r.log) == Summary(r.app.status, r.app.current, r.app.canary)
  {
    hide Reachable, ValidRevision, ValidIdentity;
    ReachableInv(s, hash);
    assert Kept(s.records[scope], hash);
  }

  /** Each event starts where the earlier ones end, and raises a version they have not passed. */
  lemma EventsFollow(s: State, scope: Scope, i: nat, hash: Hash)
    requires Reachable(s, hash) && scope in s.records && i < |s.records[scope].log|
    ensures var log := s.records[scope].log;
      && Follows(Fold(log[..i]), log[i])
      && log[i].previousStatus == (if i == 0 then Unpublished else log[i - 1].currentStatus)
      && (i > 0 ==> log[i - 1].nextVersion <= log[i].previousVersion)
      && log[i].nextVersion <= s.records[scope].app.version
  {
    hide Reachable, ValidRevision, ValidIdentity;
    ReachableInv(s, hash);
    assert Kept(s.records[scope], hash);
    ChainedAt(s.records[scope].log, i);
  }

  lemma {:induction false} ChainedAt(log: seq<Event>, i: nat)
    requires Chained(log) && i < |log|
    ensures Follows(Fold(log[..i]), log[i])
    ensures log[i].previousStatus == (if i == 0 then Unpublished else log[i - 1].currentStatus)
    ensures i > 0 ==> log[i - 1].nextVersion <= log[i].previousVersion
    ensures log[i].nextVersion <= log[|log| - 1].nextVersion
  {
    var front := log[..|log| - 1];
    if i < |front| {
      ChainedAt(front, i);
      assert front[..i] == log[..i];
    } else if i > 0 {
      assert Fold(front).status == front[|front| - 1].currentStatus;
    }
  }

  // ---------------------------------------------------------------------------------------------
  // The gateway's two reads
  // ---------------------------------------------------------------------------------------------

  /** `Get`. */
  function GetApp(s: State, scope: Scope): Option<App> {
    if scope in s.records then Some(s.records[scope].app) else None
  }

  /** `GetRevision`. */
  function GetRevision(s: State, scope: Scope, number: int): Option<Revision> {
    if scope in s.records && number in s.records[scope].revisions then Some(s.records[scope].revisions[number])
    else None
  }

  /** The revision an execution uses: the canary when there is one. */
  function Selected(a: App): Option<int> { if a.current.None? then None else if a.canary.Some? then a.canary else a.current }

  /** The App and Revision part of `validateExecutionState`. */
  predicate Executable(a: App, revision: Revision, hash: Hash) {
    && ValidApp(a) && CanExecute(a)
    && ValidRevision(revision, hash) && revision.state == Published
    && a.tenant == revision.tenant && a.id == revision.app
    && (a.current == Some(revision.number) || a.canary == Some(revision.number))
  }

  /**
   Operations between the two reads do no harm: the revision obtained is the one a single read of
   both would have given, and it passes validation whenever the App does.
   */
  lemma {:induction false} TornReadIsHarmless(s: State, scope: Scope, steps: seq<Step>, hash: Hash)
    requires Reachable(s, hash) && AllEnabled(steps)
    requires GetApp(s, scope).Some? && Selected(GetApp(s, scope).value).Some?
    ensures var a := GetApp(s, scope).value;
      var read := GetRevision(Run(s, steps, hash), scope, Selected(a).value);
      && read.Some? && read == GetRevision(s, scope, Selected(a).value)
      && (Executable(a, read.value, hash) <==> a.status == Active)
  {
    hide Reachable, Run, AllEnabled, ValidRevision, ValidIdentity, LogKept;
    ReachableInv(s, hash);
    var r := s.records[scope];
    assert Kept(r, hash);
    PublishedForever(s, scope, Selected(r.app).value, steps, hash);
  }
}
