# Verified model of a multi-tenant agent platform

The platform admits messages for many tenants, keeps a cache of runners that execute them, forwards a
runner's events to the caller, and keeps versioned configuration for agents and backends in stores that
are migrated in place. This project models the parts of it whose correctness depends on interleavings,
crashes, failing calls or canonical forms, and proves what they promise for every run and every input.
`dafny verify dfyconfig.toml` checks it.

How the model reads:

- **Concurrency.** A component guarded by a mutex is a step machine: one step is one section under the
  mutex, one return of an outside call, or one delivery, and any thread may take the next step. A run is
  any finite sequence of enabled steps. Beside each machine stands a class whose methods are the
  sections, with the loops of the program, each proved to be exactly one step.
- **Outside.** Clocks, generated identifiers, random bytes, factories, servers, channels and hash
  functions are parameters. A theorem quantifies over all of them; where one needs an assumption
  (ordered clock samples, statements that may be repeated, a stable canonical endpoint, an injective encoding), its
  `requires` says so.
- **Text.** A `char` is one code point, except in length-prefixed identities, where it is one byte. Times
  are integers. Integers are unbounded except where 64-bit parsing decides.

Four promises do not hold as such, and the model keeps the code as it is:

- `InvalidateMatching` returns at the first runner that fails to close (registry.go:340-344), so the idle
  runners after it are never closed. `Registry.AllClosedUnlessStoppedEarly` is the exact condition under
  which every runner is closed, `Registry.FailedCloseDropsTheRest` the failing family and
  `Registry.RunnerCanLeak` a concrete run.
- A claim of an idempotency key is exclusive only while the store still answers for the key. A run keeps
  claims exclusive if and only if no `Begin` finds its key claimed, with room for an entry, and its entry
  absent, expired or failed (`Idempotency.AtMostOneClaim`); with ordered clock samples that is a matter of
  the time to live alone (`Idempotency.SecondClaimByTheClock`). `Idempotency.ExpiryAllowsTwoClaims` and
  `Idempotency.OtherKeyAllowsTwoClaims` are failing runs, and `Idempotency.StaleClaimAnswersForNewer` shows
  what follows from one.
- The terminal audit record can say "completed" while the message is not stored as completed, because the
  record is written first and is retried with its old kind (dispatch.go:610, 680), and because the error of
  the storing transition is discarded (dispatch.go:480-486). `Dispatch.OutcomesExactly` decides both from the
  events, the ending and the calls that succeed; `Dispatch.AuditCanDisagree` and
  `Dispatch.TransitionCanBeLost` are failing runs; the other direction, `Dispatch.CompletionIsAudited`,
  always holds.
- The splitter does not respect every compound body: inside one it takes any control word for the beginning
  of a block, a function call such as `IF(a, b, c)` included (mysql.go:555-561).
  `StatementGrammar.NeutralIsStatement` is the exact condition under which a text is taken for one statement,
  and `StatementGrammar.LooseControlWordTakesTheRest` the failing family.

| file | component |
|---|---|
| `RwLock.dfy` | cancellable reader/writer lock |
| `Registry.dfy`, `RegistryLeases.dfy`, `RegistryCache.dfy`, `RegistryObject.dfy` | runner registry: step machine, leases, the cache it refines, the object |
| `Migrations.dfy`, `MigrationRunner.dfy`, `PgMigrations.dfy` | migration runners for MySQL and PostgreSQL |
| `Splitter.dfy`, `StatementGrammar.dfy` | MySQL statement splitter, and the grammar of what it takes for one statement |
| `Revisions.dfy`, `AgentApps.dfy`, `AgentRepository.dfy`, `AgentStore.dfy` | agent revisions, Apps, every run of their repository, the repository object |
| `Dispatch.dfy` | event forwarding |
| `Idempotency.dfy`, `Limiter.dfy` | admission |
| `Identity.dfy`, `Ulid.dfy` | identity codecs |
| `Backend.dfy`, `BackendDigest.dfy` | backend profiles: normal forms, digest |
| `Options.dfy`, `Text.dfy`, `Decimals.dfy`, `Sorting.dfy` | shared vocabulary |

## Model

| member | source | states |
|---|---|---|
| RwLock.StepKeepsInv | trpcservice/agent/inmemory/rwmutex.go:18-105 | every section, by any thread, keeps the counters equal to the threads they count, a writer alone, and every thread parked on the open channel blocked |
| RwLock.StepRefinesMonitor | trpcservice/agent/inmemory/rwmutex.go:18-114 | for every reachable lock and step, the counters and channels do what a monitor of thread sets does: a live reader enters exactly when no writer holds or waits and sleeps otherwise, a live writer exactly when nobody holds the lock, a cancelled one leaves, every wakeup wakes all sleepers, and exactly the woken may go on |
| RwLock.MisusePanics | trpcservice/agent/inmemory/rwmutex.go:49-94 | unlocking panics exactly when the lock is not held that way |
| RwLock.MutualExclusion | trpcservice/agent/inmemory/rwmutex.go:18-94 | in every reachable state a writer excludes readers and other writers |
| RwLock.ReadersNeverOvertakeWriters | trpcservice/agent/inmemory/rwmutex.go:60-81 | no reader enters while a writer waits or holds the lock |
| RwLock.FreeWaiterEnters | trpcservice/agent/inmemory/rwmutex.go:96-114 | no wakeup is lost: a parked thread whose guard is true has been woken, and its next turn lets it in |
| RwLock.SomeWaiterEnters | trpcservice/agent/inmemory/rwmutex.go:18-114 | no deadlock: when nobody holds the lock some waiter can enter at once, however others were cancelled |
| RwLock.ReadersDrain | trpcservice/agent/inmemory/rwmutex.go:18-94 | while a writer waits, over any run, the set of readers only shrinks |
| RwLock.ContextRWMutex.Lock | trpcservice/agent/inmemory/rwmutex.go:18-47 | entering `lock` counts the writer as waiting and takes its first turn |
| RwLock.ContextRWMutex.ResumeLock | trpcservice/agent/inmemory/rwmutex.go:22-46 | a woken writer enters, parks again or leaves cancelled |
| RwLock.ContextRWMutex.CancelWrite | trpcservice/agent/inmemory/rwmutex.go:37-43 | a writer cancelled while parked is no longer counted and wakes the others |
| RwLock.ContextRWMutex.Unlock | trpcservice/agent/inmemory/rwmutex.go:49-58 | unlocking frees the lock and wakes everybody, or panics when it was not held |
| RwLock.ContextRWMutex.RLock | trpcservice/agent/inmemory/rwmutex.go:60-81 | a reader enters unless a writer holds or waits, and then parks on the open channel unless it is cancelled |
| RwLock.ContextRWMutex.RUnlock | trpcservice/agent/inmemory/rwmutex.go:83-94 | the last reader out wakes everybody |
| Registry.StepKeepsInv | trpcservice/gateway/registry.go:187-581 | every step of acquiring, building, invalidating, evicting, closing and releasing keeps the registry invariant |
| Registry.LeasedRunnersAreOpen | trpcservice/gateway/registry.go:187-278 | in every interleaving `refs` counts the unreleased leases, a leased runner is open, none is closed twice, and `zero` is never closed twice |
| Registry.RunnerIsInOnePlace | trpcservice/gateway/registry.go:234-346 | conservation: a returned runner is always in exactly one of builder, cache, on loan, owed a close by one operation, closed, dropped |
| Registry.AllClosedUnlessStoppedEarly | trpcservice/gateway/registry.go:311-446 | once the registry is closed, leases are released and threads are done, every runner was closed exactly once if and only if no invalidation stopped at a failing close with entries left |
| Registry.ClosingWaitsForLeases | trpcservice/gateway/registry.go:386-431 | closing waits for exactly the runners on loan from the cache, and is done with one exactly when its last lease is released |
| Registry.OnlyInvalidationsFailFast | trpcservice/gateway/registry.go:318-446 | only an invalidation may stop at its first error; evictions, closing and releases close all they owe |
| Registry.StepDrops | trpcservice/gateway/registry.go:340-344 | the steps that drop runners are exactly the failing closes of an invalidation with entries behind them |
| Registry.FailedCloseDropsTheRest | trpcservice/gateway/registry.go:340-344 | two idle entries match and the first close fails: the other is dropped |
| Registry.DroppedForever | trpcservice/gateway/registry.go:340-344 | a dropped runner is never closed in any continuation |
| Registry.RunnerCanLeak | trpcservice/gateway/registry.go:311-346 | every registry with room for two entries can reach a state with a runner nobody will close |
| RegistryLeases.SingleFlight | trpcservice/gateway/registry.go:199-220 | at most one factory call per key is in flight, and none for a cached key |
| RegistryLeases.LeaseAfterInvalidationIsFresh | trpcservice/gateway/registry.go:311-346 | a lease granted any time after an invalidation, under a key it matched, holds a runner whose factory call began after it |
| RegistryLeases.FullExactlyWhenExhausted | trpcservice/gateway/registry.go:205-219 | slots never exceed the bound, and an acquisition reports capacity exactly when every slot is borrowed or being built |
| RegistryCache.StepRefinesCache | trpcservice/gateway/registry.go:187-581 | for every reachable state and step, the registry with its counts, marks and channels does what a plain cache does: what an acquisition answers, what is cached and since when unused, who uses which runner, and what is being built and still wanted |
| RegistryCache.CachedKeyIsShared | trpcservice/gateway/registry.go:193-197 | a cached key is leased at once, however many leases are out: its runner gets exactly one more lease and a new time of use, and nothing else changes |
| RegistryCache.AcquireAnswersExactly | trpcservice/gateway/registry.go:187-220 | every answer: closed, leased exactly for a cached key, wait exactly for one being built, full exactly when every slot is borrowed or being built, and otherwise a build |
| RegistryCache.EvictsLeastRecent | trpcservice/gateway/registry.go:205-213 | room is made by expiry first, and otherwise by the least recently used entry nobody uses |
| RegistryObject.RunnerRegistry.AcquireOnce | trpcservice/gateway/registry.go:187-220 | the section of an acquisition, evictions included, is the acquisition step |
| RegistryObject.RunnerRegistry.EvictIdleLocked | trpcservice/gateway/registry.go:460-473 | the loop takes out exactly the idle entries whose time has run out |
| RegistryObject.RunnerRegistry.FindVictim | trpcservice/gateway/registry.go:475-492 | the loop finds a least recently used idle entry, or there is no idle entry |
| RegistryObject.RunnerRegistry.EvictCapacityLocked | trpcservice/gateway/registry.go:475-492 | capacity eviction takes out one least recently used idle entry, if there is one |
| RegistryObject.RunnerRegistry.FinishBuild | trpcservice/gateway/registry.go:241-263 | the section that ends a build caches the runner or turns it away, as the finishing step does |
| RegistryObject.RunnerRegistry.InvalidateMatching | trpcservice/gateway/registry.go:318-339 | its two loops mark the matching builds and detach the matching entries, as the invalidation step does |
| RegistryObject.RunnerRegistry.Invalidate | trpcservice/gateway/registry.go:286-302 | invalidating one key is the invalidation step for that key |
| RegistryObject.RunnerRegistry.Close | trpcservice/gateway/registry.go:376-405 | the closing section empties the cache, marks every build and waits for exactly the borrowed entries |
| RegistryObject.RunnerRegistry.Release | trpcservice/gateway/registry.go:558-581 | releasing a lease is the release step, closing `zero` and owing the close when it must |
| Migrations.EffectsAreAPrefix | migrations/mysql.go:82-136 | a log in which each statement is the next new one or the latest again covers exactly a prefix of all statements |
| Migrations.RunKeepsSafe | migrations/mysql.go:44-136 | one run, with any errors and any crash point, leaves a recoverable database |
| Migrations.CrashesAreSafe | migrations/mysql.go:91-136 | after any number of faulty runs from an empty history the statements executed and accepted are a prefix, at most one ahead of the checkpoint, and the schema is the clean one of that prefix if the statements executed twice change nothing the second time |
| Migrations.SuccessIsComplete | migrations/mysql.go:156-164 | a run that succeeds leaves every statement executed and accepted, the clean schema under the same condition, and a history `VerifyMySQL` accepts |
| Migrations.RecoverySucceeds | migrations/mysql.go:70-136 | a run without faults recovers from any earlier faults exactly when the files are numbered 1, 2, 3, ... and the server accepts the rest of the clean run; of the statements ahead only the one in doubt after the last fault has to be repeatable |
| Migrations.MismatchFailsClosed | migrations/mysql.go:91-124 | whoever wrote the history, a run succeeds only if every recorded digest matches, and ends with every file applied |
| Migrations.VerifiedIsUpToDate | migrations/mysql.go:156-164 | whoever wrote it, a history the verification accepts is one the runner has nothing to do for |
| Migrations.VerifyAcceptsExactly | migrations/mysql.go:156-164 | after any faulty runs the verification accepts exactly the databases a run leaves alone, and then every statement was executed and accepted |
| Migrations.RunStopsForAReason | migrations/mysql.go:91-136 | whatever the history, a run without faults stops only at a file the history does not allow or at a statement the server refuses, and then the history names it as failed |
| MigrationRunner.NextVersion | migrations/mysql.go:478-486 | the loop yields the one version that follows all recorded ones directly |
| MigrationRunner.ValidateHistory | migrations/mysql.go:465-476 | the loop accepts exactly the histories with known versions and known states |
| MigrationRunner.Connection.ApplyMySqlStatement | migrations/mysql.go:126-136 | one statement, its checkpoint or its failure record, under any fault |
| MigrationRunner.Connection.ApplyMigration | migrations/mysql.go:91-124 | one file from its checkpoint to its closing record, with the runner's copy of the history in step with the table |
| MigrationRunner.Connection.ApplyMySql | migrations/mysql.go:70-89 | the whole run equals the reference run that the crash theorems are about |
| MigrationRunner.Connection.VerifyHistory | migrations/mysql.go:156-164 | the loop decides exactly the history check |
| PgMigrations.RecordedIsApplied | migrations/migrations.go:105-131 | after any runs, however their commits went, the schema is exactly what the recorded migrations give |
| PgMigrations.PgSuccessIsComplete | migrations/migrations.go:136-162 | a successful run leaves the clean schema of all files and a history `Verify` accepts |
| PgMigrations.PgRecoverySucceeds | migrations/migrations.go:105-133 | without faults a run succeeds exactly when the files are numbered 1, 2, 3, ... and each can be executed |
| PgMigrations.PgVerifyAcceptsExactly | migrations/migrations.go:136-162 | after any runs `Verify` accepts exactly the databases `Apply` leaves alone, and these have the clean schema of all files |
| PgMigrations.PgConnection.ApplyMigrations | migrations/migrations.go:105-133 | the loop with its own copy of the history is the reference run |
| Splitter.SegmentsAreADecomposition | migrations/mysql.go:529-595 | the text between cuts, joined by semicolons, is the script, and every text before a cut is neutral: no cut inside, nothing left open, depth 0 |
| Splitter.DecompositionIsUnique | migrations/mysql.go:529-595 | no other way to divide a script at semicolons has that property |
| Splitter.SplitJoin | migrations/mysql.go:529-595 | splitting the semicolon-joined text of neutral, trimmed statements returns them |
| Splitter.SplitJoinTerminated | migrations/mysql.go:529-595 | so does splitting a script whose last statement is terminated too |
| Splitter.StatementsAreTrimmed | migrations/mysql.go:580-594 | every statement returned is trimmed and not empty |
| Splitter.SkipFlagAgrees | migrations/mysql.go:568-574 | peeking at the word after `END` and skipping it later amounts to remembering that `END` was just read |
| Splitter.SplitStatements | migrations/mysql.go:529-595 | the one-pass scanner with its depth counter, skip flag and lookahead computes the reference split, in bounds |
| Splitter.SkipComment | migrations/mysql.go:623-644 | a comment is recognized exactly where one opens and skipped to its end or the end of the script |
| Splitter.SkipQuote | migrations/mysql.go:650-668 | a quotation is skipped past escapes and doubled marks to its end or the end of the script |
| Splitter.NextWord | migrations/mysql.go:605-621 | the word after blanks, or nothing when something else follows |
| Splitter.UpperFolds | migrations/mysql.go:548 | words are alike exactly when they differ at most in the case of their letters |
| StatementGrammar.NeutralIsStatement | migrations/mysql.go:524-595 | the texts the scanner takes for one statement are exactly those of a grammar of the text: quotations, comments, words and signs, with no semicolon outside blocks, `BEGIN` and inside blocks control words opening blocks that `END` closes, and no other word meaning anything |
| StatementGrammar.StatementsAreSplit | migrations/mysql.go:529-595 | splitting such statements joined by semicolons returns each of them, with or without a last semicolon |
| StatementGrammar.SegmentsAreStatements | migrations/mysql.go:529-595 | every segment of any script but the last is such a statement |
| StatementGrammar.PlainTextIsAStatement | migrations/mysql.go:555-561 | text without `BEGIN` and without a semicolon is one statement whatever control words it has, as in `IF NOT EXISTS` |
| StatementGrammar.LooseControlWordTakesTheRest | migrations/mysql.go:555-567 | a control word inside a block that opens nothing in SQL, as in `IF(a, b, c)`, keeps the block open and the rest of the script in one statement |
| StatementGrammar.LexemeRead | migrations/mysql.go:597-668 | the scanner's first token is the quotation, comment, word or sign the text begins with |
| Text.TrimRemovesSpace | migrations/mysql.go:582-593 | trimming removes white space at both ends, all of it and nothing else |
| Revisions.NormalIsFixed | trpcservice/agent/revision.go:405-423 | exactly the trimmed, sorted tool lists without duplicates are unchanged by normalization |
| Revisions.ToolOrderIsIrrelevant | trpcservice/agent/revision.go:405-423 | any order of the same tools normalizes to the same list, or is refused alike |
| Revisions.NormalizeToolList | trpcservice/agent/revision.go:405-423 | the loop with its table of seen names computes the normal form |
| Revisions.NormalizeIsIdempotent | trpcservice/agent/revision.go:329-343 | normalizing a configuration twice changes nothing more |
| Revisions.NormalFormSays | trpcservice/agent/revision.go:329-343 | what the normal form of each field is, numbers keeping their value, and that only unusable or repeated tool names are refused |
| Revisions.NormalFormIgnoresOrder | trpcservice/agent/revision.go:329-343 | the normal form ignores tool order and the space around names and texts |
| Revisions.NewRevisionIsValid | trpcservice/agent/revision.go:120-165 | every draft the constructor makes is one `Validate` accepts |
| Revisions.RewrittenDraftIsValid | trpcservice/agent/inmemory/inmemory.go:182-195 | the final `Validate` of a draft update cannot fail |
| Revisions.PublishSucceeds | trpcservice/agent/revision.go:303-327 | a valid draft is published exactly when the time is set and not before its last update, and the result is valid |
| Revisions.DigestIgnoresToolOrder | trpcservice/agent/revision.go:265-300 | the content digest does not depend on the order of the tools |
| Text.NormalKeyIsFixed | trpcservice/agent/app.go:205-217 | exactly the well-formed keys are their own normal form |
| Text.NormalKeyIgnoresCase | trpcservice/agent/app.go:205-217 | neither the case of its letters nor surrounding space matters to a key |
| AgentApps.NewAppIsValid | trpcservice/agent/app.go:69-96 | every App the constructor makes is one `Validate` accepts |
| AgentApps.RequestKeeps | trpcservice/agent/inmemory/inmemory.go:99-452 | any granted request keeps the selected revisions, numbering, validity and log, changes no published revision, raises the version by one when the root changes, and leaves a disabled App alone |
| AgentApps.RequestTakesEffect | trpcservice/agent/inmemory/inmemory.go:99-452 | a granted request stores what was asked, a draft its normalized content and a publication its unchanged content, and leaves every other field and revision alone |
| AgentApps.PublicationIsGranted | trpcservice/agent/inmemory/inmemory.go:240-275 | a publication is refused only for a disabled App, a missing or published draft, or a version conflict |
| AgentApps.RedraftIsGranted | trpcservice/agent/inmemory/inmemory.go:171-203 | a draft update is refused only for those reasons or for content the constructor refuses |
| AgentApps.TransitionIsGranted | trpcservice/agent/app.go:178-189 | a lifecycle change is refused only for a version conflict or a transition the lifecycle does not have |
| AgentApps.GrantedExactly | trpcservice/agent/inmemory/inmemory.go:99-452 | each of the seven requests is granted if and only if the App is not disabled, the version matches, and the named revisions and content allow it, so a rollback exactly to a published revision other than the current one; a refusal names the first thing that does not |
| AgentRepository.StepKeepsInv | trpcservice/agent/inmemory/inmemory.go:49-491 | every repository operation keeps the invariant of all Apps and of the key index |
| AgentRepository.StepStaysReachable | trpcservice/agent/inmemory/inmemory.go:49-491 | an operation on a reachable repository leads to a reachable one, so what holds of every run holds of the object after each call |
| AgentRepository.SelectedArePublished | trpcservice/agent/app.go:145-167 | in every reachable state the current and canary revision exist, are published and differ, and revisions are numbered 1 to the last without a gap |
| AgentRepository.PublishedForever | trpcservice/agent/inmemory/inmemory.go:160-282 | a published revision never changes and never disappears, over any continuation |
| AgentRepository.RollbackStaysPossible | trpcservice/agent/inmemory/inmemory.go:285-329 | a revision that was current once can be made current again by a rollback after any operations, unless the App is disabled |
| AgentRepository.CreatedExactly | trpcservice/agent/inmemory/inmemory.go:49-77 | an App is created if and only if its identity is well-formed and neither its identifier nor its key is taken in the tenant, with the normalized key and texts, and otherwise the error says which |
| AgentRepository.DisabledForever | trpcservice/agent/inmemory/inmemory.go:462-474 | a disabled App and all its revisions are frozen, over any continuation |
| AgentRepository.VersionIdentifiesRoot | trpcservice/agent/inmemory/inmemory.go:99-124 | versions never fall, and two reads at one version return the same root |
| AgentRepository.KeysFindTheirApp | trpcservice/agent/inmemory/inmemory.go:63-76 | a key finds an App if and only if that App bears it |
| AgentRepository.EventsTellTheState | trpcservice/agent/inmemory/inmemory.go:504-530 | folding an App's events from a fresh draft gives its status, current and canary revision, although metadata updates emit none |
| AgentRepository.EventsFollow | trpcservice/agent/inmemory/inmemory.go:504-519 | each event starts at the status and revision the earlier ones end at, raises a version by one, and never one they have passed |
| AgentRepository.TornReadIsHarmless | trpcservice/gateway/resolver.go:118-132 | whatever runs between reading the App and reading its selected revision, the revision is the one an atomic read gives, and the pair passes validation exactly when the App is active |
| AgentStore.InMemoryRepository.Create | trpcservice/agent/inmemory/inmemory.go:49-77 | creating an App is the creation step, with its errors |
| AgentStore.InMemoryRepository.UpdateMetadata | trpcservice/agent/inmemory/inmemory.go:99-124 | is exactly the repository step for a metadata request, with its error |
| AgentStore.InMemoryRepository.CreateDraft | trpcservice/agent/inmemory/inmemory.go:127-157 | is exactly the repository step for a new draft, with its error |
| AgentStore.InMemoryRepository.UpdateDraft | trpcservice/agent/inmemory/inmemory.go:160-203 | is exactly the repository step for a draft update, with its error |
| AgentStore.InMemoryRepository.Publish | trpcservice/agent/inmemory/inmemory.go:225-282 | is exactly the repository step for a publication, and returns its error or the event it logs |
| AgentStore.InMemoryRepository.Rollback | trpcservice/agent/inmemory/inmemory.go:285-329 | is exactly the repository step for a rollback, and returns its error or the event it logs |
| AgentStore.InMemoryRepository.SetCanary | trpcservice/agent/inmemory/inmemory.go:334-398 | is exactly the repository step for a canary request, and returns its error or the event it logs |
| AgentStore.InMemoryRepository.TransitionStatus | trpcservice/agent/inmemory/inmemory.go:408-452 | is exactly the repository step for a lifecycle request, and returns its error or the event it logs |
| AgentStore.InMemoryRepository.Get | trpcservice/agent/inmemory/inmemory.go:80-96 | reads the stored root |
| AgentStore.InMemoryRepository.GetStoredRevision | trpcservice/agent/inmemory/inmemory.go:206-222 | reads the stored revision |
| Dispatch.RunsEndProperly | trpcservice/gateway/dispatch.go:511-704 | for every event sequence, cancellation point and pattern of failing calls: at most one `Done`, last; at most one terminal audit record; the lease released once |
| Dispatch.StreamExactly | trpcservice/gateway/dispatch.go:557-779 | for every input, the whole stream: one item per event up to the end or the first send that fails, then the last words and the `Done` that tells how the run ended, as far as the calls before them succeed |
| Dispatch.StreamWithoutFaults | trpcservice/gateway/dispatch.go:557-779 | when every call succeeds the stream ends in one `Done`, complete, error, canceled or deadline exceeded, after one item per event in order |
| Dispatch.ReplyIsTheStream | trpcservice/gateway/dispatch.go:456-487 | a materialized reply is the concatenation of the messages put on the stream |
| Dispatch.MaterializedExactly | trpcservice/gateway/dispatch.go:456-479 | for every input: the reply is materialized if and only if the message is durable, nothing failed before, there is a text to keep and the call succeeds; then it is what the events up to the end say |
| Dispatch.StreamIsInOrder | trpcservice/gateway/dispatch.go:596-651 | those messages are the texts of the first events, in the runner's order |
| Dispatch.CompletionIsAudited | trpcservice/gateway/dispatch.go:653-685 | a message is stored as completed, or asked to be, only with a completed audit record |
| Dispatch.OutcomesExactly | trpcservice/gateway/dispatch.go:456-704 | for every input: the audit says completed if and only if the runner succeeds, every item before its end is sent, and the first or second append succeeds; the message is stored as completed if and only if, besides, the first append, both handoffs, the last message, a needed materialization and the storing transition succeed |
| Dispatch.RecordsExactly | trpcservice/gateway/dispatch.go:511-685 | for every input, the one audit record that is written and the outcome the store is asked for |
| Dispatch.AuditAgreesExactlyWithoutFaults | trpcservice/gateway/dispatch.go:456-685 | a run audited as completed is stored as completed if and only if the first append, the last message, both handoffs, a needed materialization and the transition succeed |
| Dispatch.AuditCanDisagree | trpcservice/gateway/dispatch.go:583-594 | one failing handoff: audited completed, stored failed |
| Dispatch.TransitionCanBeLost | trpcservice/gateway/dispatch.go:480-486 | everything else succeeds and the store refuses the transition: audited completed, nothing stored |
| Dispatch.ForwardEvents | trpcservice/gateway/dispatch.go:557-580 | the loop over events and cancellation, and the deferred finalization, is the run the theorems are about |
| Dispatch.BuildText | trpcservice/gateway/dispatch.go:782-797 | the builder loop concatenates each choice's delta, or its message when the delta is empty |
| Idempotency.NeverMoreThanMaxEntries | trpcservice/gateway/idempotency.go:98-144 | entries never exceed the bound in any run |
| Idempotency.BeginAnswersExactly | trpcservice/gateway/idempotency.go:122-144 | every answer of `Begin`: a live pending entry is a duplicate, a live completed one gives back its events, and otherwise the key is claimed if the other live entries leave room |
| Idempotency.ClaimedIsDuplicate | trpcservice/gateway/idempotency.go:131-132 | from a claim until it is finished or expires every further `Begin` of its key is a duplicate, whatever else happens |
| Idempotency.AtMostOneClaim | trpcservice/gateway/idempotency.go:98-178 | over every run: no key ever has two unfinished claims if and only if no `Begin` finds its key claimed, unanswered by the store and with room for an entry |
| Idempotency.OutlivedClaimsAreExclusive | trpcservice/gateway/idempotency.go:98-178 | so if every claim finishes before its pending entry is pruned, no key ever has two |
| Idempotency.SecondClaimExactly | trpcservice/gateway/idempotency.go:128-143 | in any state with one claim per key, a step makes a second claim if and only if it is such a `Begin` |
| Idempotency.SecondClaimByTheClock | trpcservice/gateway/idempotency.go:128-143 | with ordered clock samples, a `Begin` of a claimed key gets a second claim if and only if the time to live has passed since the claim was taken and there is room |
| Idempotency.CompleteThenReplay | trpcservice/gateway/idempotency.go:147-161 | between a `Complete` that finds its entry pending and the expiry of that entry every `Begin` returns those very events and no claim |
| Idempotency.FailedCanBeReclaimed | trpcservice/gateway/idempotency.go:164-178 | after a `Fail` the next `Begin` gets a new claim |
| Idempotency.ExpiryAllowsTwoClaims | trpcservice/gateway/idempotency.go:192-198 | a pending entry that expires leaves two claims for one key |
| Idempotency.OtherKeyAllowsTwoClaims | trpcservice/gateway/idempotency.go:192-198 | so does a `Begin` of another key, which prunes the expired entry first |
| Idempotency.StaleClaimAnswersForNewer | trpcservice/gateway/idempotency.go:147-161 | then the stale claim decides what the key answers, because entries are found by key only |
| Idempotency.IdempotencyStore.PruneLocked | trpcservice/gateway/idempotency.go:192-198 | the loop removes exactly the expired entries |
| Idempotency.IdempotencyStore.Begin | trpcservice/gateway/idempotency.go:122-144 | the section of `Begin` is the begin step, with its answer |
| Idempotency.IdempotencyStore.Complete | trpcservice/gateway/idempotency.go:147-161 | the section of `Complete` is the completion step |
| Idempotency.IdempotencyStore.Fail | trpcservice/gateway/idempotency.go:164-178 | the section of `Fail` is the failure step |
| Idempotency.IdempotencyStore.Close | trpcservice/gateway/idempotency.go:181-190 | closing drops every entry |
| Limiter.ConcurrencyBound | trpcservice/gateway/limits.go:93-149 | before `Close` a tenant's `active` is the number of its unreleased leases and never exceeds the bound, across window resets; no window admits more than its budget |
| Limiter.IntervalBound | trpcservice/gateway/limits.go:111-133 | with nondecreasing clock samples any half-open interval of the window's length admits at most twice the budget, and the budget itself if the window is one clock unit |
| Limiter.BoundIsReached | trpcservice/gateway/limits.go:111-133 | for every valid configuration and every such interval some run with ordered samples reaches that bound |
| Limiter.OrderIsNeeded | trpcservice/gateway/limits.go:120-126 | for every valid configuration and every such interval some run without ordered samples exceeds it |
| Limiter.RefusedExactly | trpcservice/gateway/limits.go:120-130 | a request is refused exactly when its tenant has all its leases out, or its current window still runs and has admitted its whole budget; a closed limiter admits nobody and every other request is admitted |
| Limiter.LeasesMoveExactly | trpcservice/gateway/limits.go:93-161 | every step moves exactly the lease it is about, of its own tenant |
| Limiter.LogIsAdmissions | trpcservice/gateway/limits.go:128-133 | the instrumented log is exactly the admissions of the run |
| Limiter.TenantLimiter.Acquire | trpcservice/gateway/limits.go:111-134 | the section of `Acquire` is the acquisition step, with its answer |
| Limiter.TenantLimiter.Release | trpcservice/gateway/limits.go:137-149 | the section of `Release` is the release step |
| Limiter.TenantLimiter.Close | trpcservice/gateway/limits.go:152-161 | closing drops every entry |
| Identity.DecodeEncode | trpcservice/channels/routing.go:451-459 | decoding recovers every part of every encoding |
| Identity.EncodeDecode | trpcservice/channels/routing.go:451-459 | the decoder accepts encodings only |
| Identity.EncodeIdentityParts | trpcservice/channels/routing.go:451-459 | the builder loop writes the encoding |
| Identity.UnscopeNamespaced | trpcservice/tenant/runtime.go:87-92 | tenant and external identity can be read back from a namespaced one |
| Identity.NamespacedUnscope | trpcservice/tenant/runtime.go:87-92 | and nothing else reads back |
| Identity.IdentityIsDefined | trpcservice/channels/routing.go:416-449 | a caller gets an identity exactly when its tenant and, on a channel, its routing target, kind and identifiers are acceptable |
| Identity.SessionsAreInjective | trpcservice/gateway/dispatch.go:846-879 | two dispatches share a session if and only if they agree on tenant, channel and binding or API app, kind, conversation and thread |
| Identity.UsersAreInjective | trpcservice/gateway/dispatch.go:846-879 | two dispatches share a user if and only if they agree on tenant, scope and external user or subject |
| Identity.KindsNeverCollide | trpcservice/gateway/dispatch.go:846-879 | a user identity is never a session identity, and an API identity never a channel one |
| Identity.KeysAreInjective | trpcservice/gateway/idempotency.go:208-226 | equal idempotency keys come from equal messages of equal principals, routing target included |
| Identity.KeyIsDefined | trpcservice/gateway/idempotency.go:208-219 | a key is refused only to an unknown kind of principal or to a channel principal without a routing target |
| Decimals.CountDecimal | trpcservice/channels/routing.go:451-459 | a decimal count reads back as the same number and has no superfluous zero |
| Ulid.ValueSurvives | trpcservice/tenant/tenant.go:394-400 | every 128-bit value has a valid identifier that decodes to it |
| Ulid.ValidIdentifiersAreValues | trpcservice/tenant/tenant.go:311-324 | every valid identifier is that of exactly one 128-bit value |
| Ulid.PaddingIsTheBound | trpcservice/tenant/tenant.go:315-317 | the check of the first digit is exactly the 128-bit bound |
| Ulid.IdentifiersAreOrdered | trpcservice/tenant/tenant.go:394-400 | identifiers sort as their values |
| Ulid.EarlierSortsFirst | trpcservice/tenant/tenant.go:384-401 | an identifier of an earlier millisecond sorts first, whatever the random bytes |
| Ulid.WriteTimestamp | trpcservice/tenant/tenant.go:387-390 | the loop writes the last 48 bits of the clock, big-endian, and nothing else |
| Ulid.EncodeDigits | trpcservice/tenant/tenant.go:395-399 | the loop writes the 26 digits |
| Ulid.NewTenantId | trpcservice/tenant/tenant.go:384-401 | a new identifier is valid and decodes to its timestamp and random bytes; there is none exactly when the random source fails |
| Backend.NormalizeValueTwice | trpcservice/backend/backend.go:836-873 | a normalized string, boolean, integer or enum option value is its own normal form |
| Backend.ValuesByMeaning | trpcservice/backend/backend.go:836-873 | an option value is accepted if and only if it is readable and says something the option takes; its normal form says the same, and values have one normal form if and only if they say the same |
| Backend.CompiledOptionIsKept | trpcservice/backend/backend.go:478-505 | a compiled option's default is a normal value of it, and a required option has none |
| Backend.CompiledProviderSays | trpcservice/backend/backend.go:455-505 | a compiled provider is the declared one, its options taking the declared values with the declared defaults |
| Backend.NewCatalogIsKept | trpcservice/backend/backend.go:394-476 | every provider of an accepted catalog has a normal name, acceptable option keys and normal defaults, which is what normalization relies on |
| Backend.CatalogHoldsDeclared | trpcservice/backend/backend.go:394-419 | a catalog holds exactly the declared providers, each for its own capabilities |
| Backend.NormalizedBindingIsNormal | trpcservice/backend/backend.go:613-654 | a normalized binding, defaults included, is its own normal form |
| Backend.NormalFormByMeaning | trpcservice/backend/backend.go:613-654 | accepted bindings have one normal form if and only if they ask for the same: provider, endpoint, secret, and the meaning of every option, given or by default; and the normal form asks for it too |
| Backend.NormalizedListIsNormal | trpcservice/backend/backend.go:421-453 | a normalized list is the normal forms of exactly the given bindings, in the order of the capabilities |
| Backend.NormalizeIsIdempotent | trpcservice/backend/backend.go:421-453 | normalizing a binding list twice changes nothing more |
| Backend.BindingOrderIsIrrelevant | trpcservice/backend/backend.go:421-453 | any order of the same bindings normalizes to the same list, or is refused alike |
| Backend.NormalizeBindingList | trpcservice/backend/backend.go:421-453 | the loop with its table of seen capabilities computes the normal form |
| BackendDigest.PreimageIsInjective | trpcservice/backend/backend.go:969-997 | different schema versions or bindings never feed the hash the same bytes |
| BackendDigest.PreimageDecides | trpcservice/backend/backend.go:241-253 | two accepted configurations feed the hash the same bytes exactly when their normal forms are the same |
| BackendDigest.DigestIgnoresOrder | trpcservice/backend/backend.go:241-253 | the digest does not depend on the order of the bindings |
| BackendDigest.NewProfileIsValid | trpcservice/backend/backend.go:122-220 | every profile the constructor makes is one `Validate` accepts, with the status asked for, or active if none was |
| BackendDigest.NewProfileExactly | trpcservice/backend/backend.go:122-166 | a profile is made if and only if its parts are acceptable, and it is made of them in normal form |
| BackendDigest.SortKeys | trpcservice/backend/backend.go:977-981 | keys collected in any map order come out in one order |
| BackendDigest.WriteDigest | trpcservice/backend/backend.go:969-997 | the digest loops write the preimage |

## Left out

- SQL repositories for agents, audit and models: their transitions live in SQL; the in-memory repository carries the same rules.
- Durable inbound claims, the outbox and its worker: their leases and fencing belong to storage code outside the modelled files; materialization is one call that receives the reply.
- Bootstrap, command line, HTTP, administration, metrics and tracing: wiring.
- Parsing of URLs, hosts and addresses, and the list of sensitive option names: parameters of the backend catalog, with the canonical endpoint assumed stable.
- JSON, UTF-8 and SHA-256: the agent digest is any function of the normalized content, the backend digest any function of its preimage under an injective encoding.
- Repositories of model profiles and channel bindings: the same lifecycle as the agent repository.
- Live schema checks of `VerifyMySQL` and the advisory locks: one runner at a time is assumed.
- Reading migration files from the embedded file system, and stripping `BEGIN` and `COMMIT` from PostgreSQL scripts: the files come ordered by version, and executing one is a single call.
- Errors that precede a section (cancelled contexts, malformed identifiers, incomplete change metadata, inactive tenants): nothing has changed when they are returned.
- Text of actors and reasons in change events, and text of errors: carried along unchanged.
- Timeouts of `Close` in the registry: the closing thread may stop waiting at any point, since no step is forced to happen.
- Text.Lower: folds the code points whose lower case is an ASCII letter, which decides every key and provider name; folding among other letters, which only enum option values could show, is library data.
- Result and error type written to the handoff store: only whether each call succeeds matters to the stream, the audit record and the stored outcome.
