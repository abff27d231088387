# AI Agent Security Lab: a verified model

The project models the state that AI Agent Security Lab keeps and the algorithms it relies on, and proves
what they promise for every input, every run and every interleaving.

**The leased run queue and its publisher.** Workers claim evaluation runs under expiring leases with fencing
tokens, renew them, move them through a status machine, race with cancels, and publish two report artifacts
together with COMPLETED. `RunTable`, `ProjectTable` and `ArtifactTable` say what each statement does to the
tables. `Repositories` and `FileStore` are the source's objects, updating their fields step by step, each method
proved equal to its statement, and `Statements` says over the rows what each of these does. `History` runs
statements of any clients in any order; a two-step operation appears there as its guarded update carrying
whatever an earlier read saw, so every interleaving is a history. `Fencing`, `Queue`, `Idempotency`,
`OptimisticLock` and `Tenancy` are the theorems about all histories. `Worker` is `process_next` as a machine of
any number of workers whose steps interleave with each other, with clients, and with exceptions and crashes at
every point. `Journal` shows that its tables are those of a history, `Publication` proves its invariant,
`Objects` follows each stored object from its put to its deletion, `Orphans` says which objects have no row,
`Reports` which report a row records, and `Atomicity`, `Revocation` and `Attempts` what follows for readers and
workers.
`Service` is `process_next` as the program runs it, with loops and an exception handler, others acting between
its transactions; each call is proved to take exactly the machine's steps, `ConcurrentCalls` that calls among
others are runs of the machine, and `CallOrder` in which order a call that returns its run did what.

**Algorithms.** `EditDistance` (two-row dynamic program against edit scripts, metric laws), `BraceScan`, `Json`
and `JudgePayload` (scanner against a grammar, printer and scanner round trip), `PathPolicy` and `PosixPath`
(depth count against cancelling `..`), `ArtifactStore` (keys, paths and a write-once tree), `PutRace` (overlapping
puts), `CycleSampling`, `Detector` and `Correlation`.

The assumptions are few. New identifiers are fresh (they are random UUIDs). A database statement is one step,
`claim_next` included because its row is locked; a transaction that raises changes nothing. Times are integers
the caller passes; only the theorems that say so need a clock that never goes back. Runs are created by the
service. SHA-256, `json.loads`, the sensitive-path pattern, the detection patterns and the random source are
arbitrary functions; for `json.loads` the round trip asks only that a text it reads as an object is one balanced
block with whitespace around it.

## Where code and promise differ

- The repository's API documentation calls cancelling idempotent. A cancel whose read precedes another cancel's
  update reports failure although the run is cancelled: `Fencing.CancelRaceExample`; `Fencing.RepeatedCancel` gives
  the exact condition.
- Its documentation limits the uniqueness of an idempotency key to 24 hours. The code has no window:
  a key stays bound as long as its run exists (`Idempotency.BindingPersists`).
- The exception handler of `process_next` also runs when the read after the commit raises. It then deletes the
  published objects of a completed run: `Revocation.FailureAfterCommitLosesReports` says so of every reachable
  world, and `Attempts.LateFailureExample` is a run in which it happens. The object of a row matches its checksum
  exactly when no call failed after its commit and then deleted it: `Revocation.ObjectsMatchUnlessLateFailure`.
  Only the maker of an object can lose it that way (`Revocation.RevocationNeedsLateFailure`), and the entity's own
  validation never causes it (`Journal.RunReadsNeverRaise`).
- `build_artifact_key` accepts the identifiers `.` and `..`. A key shares its file with another key exactly when one
  of its tenant and run is `.` and the other is not (`ArtifactStore.AliasedExactly`, with the pair of
  `ArtifactStore.DotIdentifiersAlias`), and `..` is refused later; `ArtifactStore.BuiltKeyPath` says exactly when a
  key is accepted.
- A put refuses an existing key, but tests and replaces in two steps, so overlapping puts of one key can overwrite
  (`PutRace.OverlapOverwrites`). `PutRace.OverwritesExactly` gives the exact condition, which puts of different
  artifacts never meet (`PutRace.FreshPutsAreWhole`); the service puts each report under a new identifier.
- A brace in the prose before a judge's object can hide the object: `JudgePayload.EarlierBraceHidesTheObject`;
  `JudgePayload.BlockIsFoundExactly` and `JudgePayload.PayloadExactly` say exactly when, and what a reply yields.

## Model

| member | source | states |
|---|---|---|
| Ordering.InOrderSorts | src/ai_agent_lab/storage/run_repository.py:84 | the order of `created_at, id` lists every row once, each before those that sort after it |
| Ordering.FirstUnique | src/ai_agent_lab/storage/run_repository.py:84-87 | the row that sorts before all others is unique, so `LIMIT 1` has one answer |
| Ordering.StringLessExactly | src/ai_agent_lab/storage/run_repository.py:84 | the order of identifiers looks at the first place where two of them differ |
| Repositories.SelectFirst | src/ai_agent_lab/storage/run_repository.py:74-87 | scanning the matching rows in any order finds the first by `created_at, id`, or nothing exactly when there is none |
| Repositories.EvaluationRunRepository.CreateIdempotent | src/ai_agent_lab/storage/run_repository.py:34-55 | new tables and result are those of the creation statement: existing run, created and stored run, or the error with nothing changed |
| Repositories.EvaluationRunRepository.Get | src/ai_agent_lab/storage/run_repository.py:57-64 | the tenant's own valid row, nothing for another tenant's, an error for a row that breaks the entity rules |
| Repositories.EvaluationRunRepository.ClaimNext | src/ai_agent_lab/storage/run_repository.py:66-99 | the first claimable run becomes PREPARING under the next token and attempt; arguments that `_validate_lease` rejects raise and change nothing |
| Repositories.EvaluationRunRepository.Heartbeat | src/ai_agent_lab/storage/run_repository.py:101-125 | only the unexpired holder of the current token on an active run moves the expiry, and nothing else changes |
| Repositories.EvaluationRunRepository.Transition | src/ai_agent_lab/storage/run_repository.py:127-160 | read, edge check, guarded update: new tables and answer are those of the uninterrupted transition |
| Repositories.EvaluationRunRepository.Cancel | src/ai_agent_lab/storage/run_repository.py:162-185 | missing, cancelled, otherwise terminal and active runs each get their own answer; only an active one changes |
| Statements.ClaimableExactly | src/ai_agent_lab/storage/run_repository.py:74-83 | a run may be claimed exactly when it is the tenant's own and queued, or working under a lease that is over |
| Statements.ClaimTakesOldest | src/ai_agent_lab/storage/run_repository.py:72-99 | a claim hands out the claimable run with the least created_at and then id, over the rows themselves, and writes exactly its lease, token, attempt, version and time; nothing is handed out only when nothing is claimable |
| Statements.ClaimedUntilExpiry | src/ai_agent_lab/storage/run_repository.py:76-92 | a claimed run cannot be claimed again before now plus the lease, and can be from then on |
| Statements.HeartbeatExactly | src/ai_agent_lab/storage/run_repository.py:108-125 | a heartbeat succeeds exactly under the current lease of an unfinished run, and sets the expiry to now plus the lease |
| Statements.RenewedUntilExpiry | src/ai_agent_lab/storage/run_repository.py:119-123 | after it a working run cannot be claimed before now plus the lease, and can be from then on |
| Statements.EdgesExactly | src/ai_agent_lab/domain/runs.py:26-39 | the edges by name: four steps forward, and failure or cancel from every unfinished status |
| Statements.TransitionExactly | src/ai_agent_lab/storage/run_repository.py:134-160 | a transition raises off the edges and otherwise moves the run, column by column, exactly under the current lease |
| Statements.TransitionIsReadThenUpdate | src/ai_agent_lab/storage/run_repository.py:134-160 | it equals its read followed at once by its guarded update |
| Statements.CancelExactly | src/ai_agent_lab/storage/run_repository.py:162-185 | a cancel answers true exactly for unfinished and cancelled runs; an unfinished one becomes CANCELLED without a lease, and nothing else changes |
| Statements.CancelIsReadThenUpdate | src/ai_agent_lab/storage/run_repository.py:162-185 | it equals its read followed at once by its guarded update |
| Statements.CancelledIsOut | src/ai_agent_lab/storage/run_repository.py:162-185 | after a cancel that answered true no worker can claim the run and no claim can move it |
| Statements.GetExactly | src/ai_agent_lab/storage/run_repository.py:57-64 | a run is found exactly by its own tenant |
| Statements.CreateStores | src/ai_agent_lab/storage/run_repository.py:34-55 | the tables change exactly when a creation reports a new run, and then by exactly that row |
| Statements.InsertExactly | src/ai_agent_lab/storage/run_repository.py:35-55 | another tenant's run, a used id, a missing project and a used key are refused, each with its error |
| Statements.CreateIsLookupThenInsert | src/ai_agent_lab/storage/run_repository.py:37-55 | a creation equals its lookup followed at once by its insert |
| Statements.CreatedIsQueued | src/ai_agent_lab/application/service.py:85-94 | a run just created can be read by its tenant and claimed by a worker |
| Statements.AddProjectExactly | src/ai_agent_lab/storage/repositories.py:45-59 | a project is stored, or refused for its tenant, its id or its name |
| Statements.GetProjectExactly | src/ai_agent_lab/storage/repositories.py:61-68 | a project is found exactly by its own tenant |
| Statements.PageExactly | src/ai_agent_lab/storage/repositories.py:70-82 | a page has as many projects as limit and offset leave, and its k-th entry has exactly offset + k of the tenant's projects before it by created_at and id |
| Statements.RenameExactly | src/ai_agent_lab/storage/repositories.py:84-114 | a rename writes name, time and version exactly at the expected version, under a name that is neither blank, overlong nor taken |
| Statements.DeleteExactly | src/ai_agent_lab/storage/repositories.py:116-123 | a delete takes the project, its runs and their artifacts, and nothing else |
| Statements.AddArtifactExactly | src/ai_agent_lab/storage/artifact_repository.py:19-44 | an artifact is stored, or refused for its tenant, its run, its id or its key |
| Statements.GetForRunExactly | src/ai_agent_lab/storage/artifact_repository.py:56-67 | what is found is a matching row that is not marked deleted, and nothing is found exactly when there is none |
| Statements.MarkDeletedExactly | src/ai_agent_lab/storage/artifact_repository.py:69-79 | marking hides the row, once |
| Statements.PublishExactly | src/ai_agent_lab/application/service.py:185-193 | both rows and COMPLETED are written exactly under the current lease in EVALUATING, column by column |
| History.StepRun | src/ai_agent_lab/storage/run_repository.py:66-185 | the only ways any statement can change an existing run row: each needs its guard, and the new row is fixed by the old one |
| History.StepNewRun | src/ai_agent_lab/storage/run_repository.py:51-55 | a run row appears only by inserting it |
| History.KeyedAt | src/ai_agent_lab/storage/models.py:104-126 | in every reachable state each row sits under its own primary key |
| Provenance.RunOrigin | src/ai_agent_lab/storage/run_repository.py:51-55 | every run row goes back to one insert, whose identity columns it still has |
| Provenance.IdentityIsForever | src/ai_agent_lab/storage/run_repository.py:34-185 | id, tenant, project, suite, seed, key and creation time of a run never change |
| Provenance.RunLivesBetween | src/ai_agent_lab/storage/run_repository.py:51-55 | a run present at two moments was present at every moment between |
| Provenance.SoundAt | src/ai_agent_lab/storage/models.py:53-149 | unique names, keys and object keys, and rows sharing the tenant of their parent, hold in every reachable state |
| Provenance.StepSound | src/ai_agent_lab/storage/models.py:105-141 | every statement keeps those constraints, the cascade of a project delete included |
| Provenance.InsertsStayOwn | src/ai_agent_lab/storage/run_repository.py:45-55 | the read of a project that a creation makes stays valid until its insert |
| Fencing.SucceedsOrInert | src/ai_agent_lab/storage/run_repository.py:109-185 | an update under a lease, or a cancel, reports success exactly when it changed its run; otherwise no table changed |
| Fencing.StatusWritesAreLegal | src/ai_agent_lab/domain/runs.py:26-39 | every status write follows an edge of the table under the same token, or reclaims an active run to PREPARING under the next token, and moves (token, rank) strictly up; even with stale reads |
| Fencing.Progress | src/ai_agent_lab/storage/run_repository.py:127-185 | (token, status rank) never decreases along a history |
| Fencing.TerminalIsFrozen | src/ai_agent_lab/storage/run_repository.py:162-185 | once terminal, no statement changes any column of the run |
| Fencing.NoReturn | src/ai_agent_lab/storage/run_repository.py:134-160 | a (token, status) pair that was left never comes back, so a stale read cannot match later by accident |
| Fencing.OneTerminalWrite | src/ai_agent_lab/storage/run_repository.py:127-185 | a run gets at most one terminal write, ever |
| Fencing.CancelCompleteRace | src/ai_agent_lab/storage/run_repository.py:162-185 | of a cancel and a completion the first whose guard holds wins; the other never has any effect |
| Fencing.TransitionActsAtomically | src/ai_agent_lab/storage/run_repository.py:127-160 | when the update of a two-step transition takes effect, nothing moved since its read, and it equals an uninterrupted transition |
| Fencing.UninterruptedTransition | src/ai_agent_lab/storage/run_repository.py:127-160 | the guarded update is the whole transition when the status is still what was read |
| Fencing.RowInvariantAt | src/ai_agent_lab/storage/run_repository.py:90-97 | every reachable row: attempt equals token, QUEUED has token 0 and no lease, a lease exactly in the three working statuses, version is one plus the number of changes |
| Fencing.ReadsNeverRaise | src/ai_agent_lab/domain/runs.py:59-80 | reading, looking up and claiming service-created runs never trips the entity's own validation |
| Fencing.LeaseComesFromLatestClaim | src/ai_agent_lab/storage/run_repository.py:90-99 | the owner and token on a leased row are those of the latest claim of that run |
| Fencing.OnlyLatestClaimActs | src/ai_agent_lab/storage/run_repository.py:109-160 | with no assumption on clocks, a heartbeat, transition or publication that changes anything carries the latest claim |
| Fencing.IssuedToken | src/ai_agent_lab/storage/run_repository.py:90-99 | a claim names the row it just wrote, with the previous token plus one |
| Fencing.TokensStrictlyIncrease | src/ai_agent_lab/storage/run_repository.py:94 | tokens issued for one run strictly increase, so each names one claim |
| Fencing.StaleClaimIsInert | src/ai_agent_lab/storage/run_repository.py:109-160 | after a newer claim, statements carrying an older one change no row and never report success |
| Fencing.ActionsPrecedeExpiry | src/ai_agent_lab/storage/run_repository.py:108-125 | with a clock that never goes back, everything done under a lease happened before its present expiry, although heartbeats can shorten it |
| Fencing.TokenGrowsByClaim | src/ai_agent_lab/storage/run_repository.py:76-96 | whenever the token passes a value, one claim took it from that value |
| Fencing.ReclaimSeesExpiry | src/ai_agent_lab/storage/run_repository.py:76-83 | a claim of a run claimed before finds its lease expired |
| Fencing.LeasesAreDisjoint | src/ai_agent_lab/storage/run_repository.py:76-160 | with a clock that never goes back, every action under a token is strictly earlier than the issue of any later token |
| Fencing.RepeatedCancel | src/ai_agent_lab/storage/run_repository.py:162-185 | a second cancel reports success exactly when its read came after the first one's update |
| Fencing.CancelRaceExample | src/ai_agent_lab/storage/run_repository.py:162-185 | a concrete history in which a cancel of a run that ends up cancelled reports failure |
| Queue.ClaimTakesFirst | src/ai_agent_lab/storage/run_repository.py:73-99 | one claim takes the first claimable run and leaves exactly the others claimable |
| Queue.DrainsInOrder | src/ai_agent_lab/storage/run_repository.py:73-99 | claims at one instant return the claimable runs in (created_at, id) order, then nothing |
| Queue.ReachableAt | src/ai_agent_lab/storage/run_repository.py:90-97 | the tables of every history of the service's runs meet the condition of the queue theorems |
| Queue.DrainsByAge | src/ai_agent_lab/storage/run_repository.py:73-99 | of two runs handed out at one instant the first has the smaller created_at, or the same and the smaller id |
| Queue.DrainReachesEveryRun | src/ai_agent_lab/storage/run_repository.py:73-99 | enough claims reach every claimable run and hand none out twice |
| Queue.StuckExactlyWithoutLease | src/ai_agent_lab/storage/run_repository.py:78-82 | an active row can ever be claimed exactly when it is queued or has a lease |
| Queue.NoRunIsStuck | src/ai_agent_lab/storage/run_repository.py:73-99 | every reachable unfinished run is claimable exactly while queued or from its lease expiry on |
| Idempotency.CreatesExactlyWhen | src/ai_agent_lab/storage/run_repository.py:34-55 | a creation reports a new run exactly when the key is new in the tenant, the project is its own and the id is unused |
| Idempotency.LookupFindsTheRun | src/ai_agent_lab/storage/run_repository.py:37-44 | the lookup by key finds the one run with that key |
| Idempotency.ExistingKeyWins | src/ai_agent_lab/storage/run_repository.py:37-44 | a request with a used key returns the old run whatever its other fields; a racing insert is refused |
| Idempotency.BindingPersists | src/ai_agent_lab/storage/run_repository.py:34-55 | whatever claims, moves and cancels follow, the key stays bound to that run |
| Idempotency.OnlyDeletionRemoves | src/ai_agent_lab/storage/repositories.py:116-123 | a run disappears only by its own tenant deleting its project |
| Idempotency.CreatedAtMostOnce | src/ai_agent_lab/storage/run_repository.py:34-55 | for one tenant and key, two creations need a deletion of the project between them |
| Tenancy.StatementCommutes | src/ai_agent_lab/storage/run_repository.py:34-185 | every statement gives the same answer, and the same own rows, when run on the tenant's own rows alone |
| Tenancy.DeleteCommutes | src/ai_agent_lab/storage/repositories.py:116-123 | a project delete and its cascades, seen by the tenant itself |
| Tenancy.DeleteSparesOthers | src/ai_agent_lab/storage/models.py:108-141 | the cascade never reaches another tenant's rows |
| Tenancy.AgreementIsKept | src/ai_agent_lab/storage/repositories.py:61-123 | two databases that agree on a tenant's rows answer its statements equally and still agree |
| Tenancy.OthersAreUntouched | src/ai_agent_lab/storage/artifact_repository.py:19-79 | a statement of one tenant leaves all rows of the others as they were |
| Tenancy.NonInterference | src/ai_agent_lab/storage/run_repository.py:34-64 | over whole histories a tenant's answers and final rows depend only on its own commands |
| Repositories.ProjectRepository.Add | src/ai_agent_lab/storage/repositories.py:45-59 | inserts under the unique name and id, or raises and changes nothing |
| Repositories.ProjectRepository.Get | src/ai_agent_lab/storage/repositories.py:61-68 | the tenant's own project rebuilt from its row, nothing for another tenant's, an error for a row that breaks the entity rules |
| Repositories.ProjectRepository.List | src/ai_agent_lab/storage/repositories.py:70-82 | the requested page of the tenant's projects in (created_at, id) order, each rebuilt from its row |
| Repositories.ProjectRepository.Rename | src/ai_agent_lab/storage/repositories.py:84-114 | compare-and-set on the version: the row changes only at the expected version with a valid, free name |
| Repositories.ProjectRepository.Delete | src/ai_agent_lab/storage/repositories.py:116-123 | the project goes with exactly its runs and their artifacts |
| Repositories.ReportArtifactRepository.Add | src/ai_agent_lab/storage/artifact_repository.py:19-44 | needs a run of the tenant and a free id and object key |
| Repositories.ReportArtifactRepository.GetForRun | src/ai_agent_lab/storage/artifact_repository.py:56-67 | a visible row of that tenant, run and format, any of them when there are several, or nothing exactly when there is none |
| Repositories.ReportArtifactRepository.MarkDeleted | src/ai_agent_lab/storage/artifact_repository.py:69-79 | only a visible row is marked, once |
| ArtifactTable.PublishIsAtomic | src/ai_agent_lab/application/service.py:185-193 | both artifact rows appear together with COMPLETED, or no table changes; and exactly when |
| OptimisticLock.StepVersion | src/ai_agent_lab/storage/repositories.py:101-113 | the only change any statement makes to a project row is a rename at its own version, which raises the version by one |
| OptimisticLock.VersionTellsChange | src/ai_agent_lab/storage/repositories.py:101-113 | along a history versions never fall, and an unmoved version means an unchanged row |
| OptimisticLock.NoLostUpdate | src/ai_agent_lab/storage/repositories.py:84-114 | a rename with the version that was read takes effect only if nothing changed the project since that read |
| OptimisticLock.OneRenamePerVersion | src/ai_agent_lab/storage/repositories.py:101-114 | of renames with the same expected version at most one ever succeeds |
| OptimisticLock.ProjectReadsNeverRaise | src/ai_agent_lab/storage/repositories.py:138-148 | whatever renames happened, rebuilding a project from its row never raises |
| ArtifactStore.KeyInjective | src/ai_agent_lab/storage/artifact_store.py:105-116 | different (tenant, run, artifact, format) give different keys, for all accepted identifiers |
| ArtifactStore.KeyBuildsExactly | src/ai_agent_lab/storage/artifact_store.py:105-116 | a key builds exactly for the two formats and identifiers of 1 to 128 characters of the alphabet |
| ArtifactStore.KeyText | src/ai_agent_lab/storage/artifact_store.py:116 | it spells tenant, run and artifact between slashes, with the extension of the format |
| ArtifactStore.ForeignKeysAreRefused | src/ai_agent_lab/storage/artifact_store.py:84-91 | empty and absolute keys and keys with a backslash raise |
| ArtifactStore.BadPiecesAreRefused | src/ai_agent_lab/storage/artifact_store.py:86-91 | so does a key with a piece that is `..`, too long or outside the alphabet, wherever it stands |
| ArtifactStore.BuiltKeyPath | src/ai_agent_lab/storage/artifact_store.py:83-116 | a built key is accepted exactly when neither tenant nor run is `..` and the file part fits in 128 characters; its path is then the identifiers with single dots dropped |
| ArtifactStore.SameFileExactly | src/ai_agent_lab/storage/artifact_store.py:83-116 | two accepted keys denote one file exactly when artifact and format agree and tenant and run do, up to swapping them when one is a single dot |
| ArtifactStore.AliasedExactly | src/ai_agent_lab/storage/artifact_store.py:83-116 | an accepted key shares its file with another accepted key exactly when one of its tenant and run is a single dot and the other is not; the other key has the two swapped |
| ArtifactStore.BuiltPathsAreDistinct | src/ai_agent_lab/storage/artifact_store.py:83-116 | so different reports are stored at different places, for identifiers other than dots |
| ArtifactStore.DotIdentifiersAlias | src/ai_agent_lab/storage/artifact_store.py:111-116 | a concrete pair of different runs, one with tenant `.` and one with run `.`, that share a place |
| ArtifactStore.PathNamesItsArtifact | src/ai_agent_lab/storage/artifact_store.py:105-116 | the file part of a built key names its artifact |
| ArtifactStore.StoredPathsArePrefixFree | src/ai_agent_lab/storage/artifact_store.py:92-98 | no stored part list is a prefix of another |
| ArtifactStore.PutAddsOneFile | src/ai_agent_lab/storage/artifact_store.py:39-65 | a put adds exactly one entry or none, never replaces one, and keeps the tree well formed |
| ArtifactStore.DeleteKeepsTree | src/ai_agent_lab/storage/artifact_store.py:75-81 | a delete removes at most that entry |
| ArtifactStore.PutRaises | src/ai_agent_lab/storage/artifact_store.py:42-46 | which error a refused put raises |
| ArtifactStore.TamperingIsNoticed | src/ai_agent_lab/storage/artifact_store.py:67-73 | reading with the original checksum returns other bytes only when they have that checksum |
| ArtifactStore.MissingIsRaised | src/ai_agent_lab/storage/artifact_store.py:67-69 | which error reading a missing file raises |
| ArtifactStore.DeleteRemovesOne | src/ai_agent_lab/storage/artifact_store.py:75-81 | a delete answers true exactly when it removed the file, and touches nothing else |
| FileStore.FileArtifactStore.MakeParents | src/ai_agent_lab/storage/artifact_store.py:92-98 | the parents are made one by one up to the first file in the way |
| FileStore.FileArtifactStore.Put | src/ai_agent_lab/storage/artifact_store.py:39-65 | new tree, size, checksum and errors are those of the write-once map |
| FileStore.FileArtifactStore.Read | src/ai_agent_lab/storage/artifact_store.py:67-73 | the stored bytes, or the error for a bad key, a missing file, a directory or a wrong checksum |
| FileStore.FileArtifactStore.Delete | src/ai_agent_lab/storage/artifact_store.py:75-81 | true exactly when an entry was removed |
| FileStore.TreeStaysWellFormed | src/ai_agent_lab/storage/artifact_store.py:39-102 | every history of puts, reads and deletes keeps the tree well formed |
| FileStore.PutIsVisibleUntilDeleted | src/ai_agent_lab/storage/artifact_store.py:39-81 | after a put every read of that path returns its bytes, and every further put there fails, until it is deleted |
| FileStore.DeletedStaysGone | src/ai_agent_lab/storage/artifact_store.py:75-81 | a deleted path reads as an error until some later put succeeds there |
| PutRace.BackToBackIsPut | src/ai_agent_lab/storage/artifact_store.py:39-65 | the test and the replacement of a put, with nothing in between, are the one-step put |
| PutRace.ConsistentAt | src/ai_agent_lab/storage/artifact_store.py:39-102 | however the steps of puts and deletes interleave, the tree stays well formed and every target keeps its directories |
| PutRace.FlightsWereTested | src/ai_agent_lab/storage/artifact_store.py:44-46 | every put under way passed its test at an earlier step, when its target was no file |
| PutRace.OverwritesExactly | src/ai_agent_lab/storage/artifact_store.py:45-61 | a replacement overwrites a file exactly when another put wrote that path since this one was tested, and nothing has removed it since |
| PutRace.OverlapOverwrites | src/ai_agent_lab/storage/artifact_store.py:45-61 | two overlapping puts of one key: both succeed and the second file replaces the first |
| PutRace.FreshPutsAreWhole | src/ai_agent_lab/storage/artifact_store.py:45-61 | among puts of different artifacts every replacement is a whole put at its own instant, so none overwrites, whatever other callers do meanwhile |
| Publication.StepKeeps | src/ai_agent_lab/application/service.py:110-206 | every step of every worker, every failure and crash, and every client statement keeps the publication invariant |
| Publication.InvariantAt | src/ai_agent_lab/application/service.py:110-206 | so it holds in every reachable world, under every interleaving |
| Publication.ClientKeepsTables | src/ai_agent_lab/application/service.py:76-108 | no client statement adds report rows or completes a run |
| Publication.CommitKeeps | src/ai_agent_lab/application/service.py:185-193 | the publishing transaction keeps the invariant |
| Publication.PutKeeps | src/ai_agent_lab/application/service.py:155-164 | so does each put, also one that stores and then raises |
| Publication.DeleteKeeps | src/ai_agent_lab/application/service.py:195-197 | so does each delete of the exception handler |
| Objects.StepFiles | src/ai_agent_lab/application/service.py:155-197 | an object appears by the put of its own report, disappears by a delete of its maker's handler, and no step replaces it |
| Objects.ObjectsWerePut | src/ai_agent_lab/application/service.py:155-164 | every object of every reachable world is what one put stored, unchanged since |
| Objects.HandlerDeletes | src/ai_agent_lab/application/service.py:195-197 | every delete of the exception handler finds its object and succeeds |
| Objects.StepKeepsStored | src/ai_agent_lab/application/service.py:155-197 | a published report stays stored or revoked through every step, whatever becomes of its row |
| Objects.StoredForGood | src/ai_agent_lab/application/service.py:155-197 | so it does in every later world |
| Objects.PublishedBytesWerePut | src/ai_agent_lab/application/service.py:155-183 | what a row's object holds, as long as it is there, is what its call put for that artifact and format |
| Orphans.StepEnds | src/ai_agent_lab/application/service.py:110-206 | a call ends by finishing after its commit, by failing its run once everything is deleted, or by a crash |
| Orphans.NewRow | src/ai_agent_lab/application/service.py:185-193 | a row that appears is that of an object which a call before its commit has recorded |
| Orphans.RowWasPublished | src/ai_agent_lab/application/service.py:185-193 | an object that a committed call records had its row published |
| Orphans.RowStaysOrDrops | src/ai_agent_lab/storage/models.py:128-149 | a published row is still there, or went with its project |
| Orphans.NeverAgain | src/ai_agent_lab/application/service.py:185-193 | once its maker is past its commit, an object without a row never gets one |
| Orphans.ObjectsWithoutRow | src/ai_agent_lab/application/service.py:155-197 | in every reachable world an object has no row exactly when its put raised after storing it, its call has not committed or crashed before it did, or its project was deleted |
| Atomicity.RowsExactlyForCompletedRuns | src/ai_agent_lab/application/service.py:185-193 | in every reachable world an artifact row exists only for a COMPLETED run, and such a run has exactly one json and one markdown row |
| Atomicity.ObjectsMatchUnlessRevoked | src/ai_agent_lab/application/service.py:155-197 | at any moment after a row was seen, its object matches the recorded checksum and size exactly when no handler deleted it after the commit |
| Reports.WritingWasEvaluated | src/ai_agent_lab/application/service.py:140-152 | the reports a call writes are those it evaluated, for the run it had claimed |
| Reports.HeldWasPut | src/ai_agent_lab/application/service.py:155-183 | every artifact a call holds is one it put |
| Reports.RowWasHeld | src/ai_agent_lab/application/service.py:185-188 | every artifact row was held by the call that committed it, and only its mark of deletion can differ |
| Reports.RowsDescribeTheirReports | src/ai_agent_lab/application/service.py:153-183 | in every reachable world an artifact row has the content type of its format, the checksum, size and time of a report its call evaluated, expires after the retention days, and is keyed by its own identifiers |
| Reports.PublishedBytesAreReports | src/ai_agent_lab/application/service.py:140-164 | what a row's object holds is the report of its format that its call evaluated |
| Atomicity.CompletedRunsAreReadable | src/ai_agent_lab/application/service.py:208-223 | the row of a completed run read at one moment and its object at any later one: the report its call evaluated for that format, with `application/json` or `text/markdown; charset=utf-8`; nothing when the row is marked deleted, or an error when the object was revoked |
| Atomicity.ReadReportExactly | src/ai_agent_lab/application/service.py:208-223 | for any tables and tree: nothing without a matching row, the bytes and content type of one, or an error when its object is gone or has another checksum |
| Atomicity.WorkersTouchOnlyTheirOwn | src/ai_agent_lab/application/service.py:155-197 | a worker changes no other call and no object but those of artifacts it made |
| Atomicity.StaleWorkerIsHarmless | src/ai_agent_lab/application/service.py:195-206 | a worker whose lease was lost, replaced or ended changes no table, whatever it does |
| Atomicity.CommitsExactlyWhenHeld | src/ai_agent_lab/application/service.py:185-193 | with both objects put, the commit succeeds exactly while the lease is held in EVALUATING |
| Atomicity.CompensationLeavesNothing | src/ai_agent_lab/application/service.py:195-197 | when the handler is done, no object of that call is left, except one whose put raised after storing |
| Revocation.StepRevokes | src/ai_agent_lab/application/service.py:195-197 | a step destroys a published object exactly when it deletes it in the handler of a call that had committed |
| Revocation.LateExactly | src/ai_agent_lab/application/service.py:194-197 | a call is in its handler after its commit exactly when it failed after its commit |
| Revocation.RevokedExactly | src/ai_agent_lab/application/service.py:194-197 | a path is revoked exactly when some worker failed after its commit and later deleted that path |
| Revocation.RevocationNeedsLateFailure | src/ai_agent_lab/application/service.py:194-197 | only the worker that made an object revokes it, after its own late failure; failures elsewhere endanger nothing |
| Revocation.ObjectsMatchUnlessLateFailure | src/ai_agent_lab/application/service.py:155-197 | at any moment after a row was seen, its object matches the checksum exactly when no call had failed after its commit and then deleted it |
| Revocation.FailureAfterCommitLosesReports | src/ai_agent_lab/application/service.py:194-197 | in every reachable world, a committed call that fails loses both its reports while the tables stay |
| Attempts.BeginRunsTheClaim | src/ai_agent_lab/application/service.py:117-128 | in every reachable world the first transaction ends with the claimed run RUNNING under the new lease, never claimed but idle |
| Attempts.FirstTransaction | src/ai_agent_lab/application/service.py:117-128 | the same over the rows: of the claimable runs the oldest becomes RUNNING, five minutes under the next token, one millisecond on; otherwise nothing changes |
| Attempts.EvaluatesExactlyWhenHeld | src/ai_agent_lab/application/service.py:147-152 | a call moves on to EVALUATING exactly under its current lease, and otherwise enters its handler |
| Attempts.RefusedPutRaises | src/ai_agent_lab/application/service.py:155-164 | a refused put takes the call to its handler with nothing stored or recorded |
| Attempts.CompletesExactlyWhenHeld | src/ai_agent_lab/application/service.py:185-193 | with both reports put, both rows and COMPLETED are written exactly under the current lease, and otherwise the call enters its handler |
| Attempts.HandlerRemovesOne | src/ai_agent_lab/application/service.py:195-197 | each turn of the handler removes the next recorded object and nothing else |
| Attempts.FailsExactlyWhenHeld | src/ai_agent_lab/application/service.py:198-206 | the last transaction of the handler makes the run FAILED without a lease exactly under the current lease |
| Attempts.FailingBenchmarkFailsTheRun | src/ai_agent_lab/application/service.py:117-206 | from every reachable world, a call whose benchmark fails within its lease leaves the oldest claimable run FAILED, and nothing else changed |
| Attempts.PutSucceeds | src/ai_agent_lab/application/service.py:155-183 | a report whose identifiers, file name and size fit and whose place is clear is stored and recorded |
| Attempts.UndisturbedAttemptCompletes | src/ai_agent_lab/application/service.py:110-194 | from every reachable world an undisturbed attempt completes the run it claims, given a claimable run, times within the lease, fresh ids and reports the store takes |
| Attempts.LateFailureExample | src/ai_agent_lab/application/service.py:194-197 | a concrete run of the machine that commits, fails after the commit, and can then read neither report of the completed run |
| Journal.TablesAreLogged | src/ai_agent_lab/application/service.py:110-206 | the tables of every world are those of the history of statements committed so far |
| Journal.LogIsAdmissible | src/ai_agent_lab/storage/run_repository.py:34-55 | that history is one of the service's runs, so the theorems on histories hold of workers too |
| Journal.StepsAreAllowed | src/ai_agent_lab/storage/run_repository.py:45-55 | a creation in any world still names a project of its own tenant |
| Journal.WorldsAreReachable | src/ai_agent_lab/storage/run_repository.py:90-97 | every row of every reachable world satisfies the row invariant |
| Journal.RunReadsNeverRaise | src/ai_agent_lab/application/service.py:194 | reading a run in a reachable world never trips the entity's validation |
| Journal.WorkersMayGoOn | src/ai_agent_lab/application/service.py:110-206 | whatever workers do next, the run stays one of those considered |
| Service.ProcessNextCall.Begin | src/ai_agent_lab/application/service.py:117-128 | claim and move to RUNNING in one transaction, rolled back when it raises |
| Service.ProcessNextCall.Evaluate | src/ai_agent_lab/application/service.py:147-152 | moves to EVALUATING, or enters the handler |
| Service.ProcessNextCall.StoreReport | src/ai_agent_lab/application/service.py:156-183 | one report stored under its key, and its row: checksum, size, content type by format, time and expiry |
| Service.ProcessNextCall.PutReport | src/ai_agent_lab/application/service.py:154-183 | one report stored under a new key, recorded with its row only after it is stored |
| Service.ProcessNextCall.AddReports | src/ai_agent_lab/application/service.py:186-188 | the rows are added one by one until one is refused |
| Service.ProcessNextCall.Publish | src/ai_agent_lab/application/service.py:185-193 | rows and COMPLETED in one transaction, rolled back as a whole |
| Service.ProcessNextCall.PutReports | src/ai_agent_lab/application/service.py:154-183 | the loop over the payloads: both are put, or the handler gets exactly the keys put so far |
| Service.ProcessNextCall.Attempt | src/ai_agent_lab/application/service.py:130-194 | the body of the `try`: finishes after its commit, or enters the handler with its keys |
| Service.ProcessNextCall.Compensate | src/ai_agent_lab/application/service.py:195-206 | deletes the recorded keys in order, then marks the run FAILED if the claim allows |
| Service.ProcessNextCall.MarkFailed | src/ai_agent_lab/application/service.py:198-205 | the run becomes FAILED without a lease exactly when it is readable, unfinished and still held; an edge error is suppressed |
| Service.ProcessNextCall.FailRun | src/ai_agent_lab/application/service.py:198-206 | re-reads the run, marks it so, and raises the original error, or that of the read |
| Service.ProcessNextCall.ProcessNext | src/ai_agent_lab/application/service.py:110-206 | the call is, step by step with others acting in between, exactly what the worker machine intends, until it is over; it returns normally exactly when nothing was claimed or it finished after its commit |
| Application.LabApplicationService.CreateRun | src/ai_agent_lab/application/service.py:76-94 | a created run is stored with the requested fields, queued and never claimed; every other answer changes nothing, and a field that is empty or too long raises |
| Application.LabApplicationService.ReadReport | src/ai_agent_lab/application/service.py:208-223 | the row first, and after others have acted its object, checked against the recorded checksum |
| ConcurrentCalls.MeanwhileIsTheirs | src/ai_agent_lab/application/service.py:110-206 | whatever clients and other workers do in a pause, they leave this call's own part as it was |
| CallOrder.OneStageOn | src/ai_agent_lab/application/service.py:110-194 | outside its handler a call goes one stage on with each of its steps |
| CallOrder.FinishedCallDid | src/ai_agent_lab/application/service.py:110-194 | a call that returns its run claimed, evaluated the reports of its benchmark, put the first and the second under its two identifiers, and committed, in this order |
| ConcurrentCalls.CallIsMachineRun | src/ai_agent_lab/application/service.py:110-206 | a program call among other workers and clients is a run of the worker machine |
| ConcurrentCalls.CallEndsReachable | src/ai_agent_lab/application/service.py:110-206 | so at each of its points it is in a reachable world, where the publication invariant holds |
| ConcurrentCalls.OthersKeepWhenTheyAct | src/ai_agent_lab/application/service.py:110-206 | others that are steps of an allowed run keep the invariant in every pause |
| ConcurrentCalls.CallKeepsInvariant | src/ai_agent_lab/application/service.py:110-206 | a whole call keeps the publication invariant whenever the others it meets keep it |
| EditDistance.EditDistance | src/ai_agent_lab/scenarios/supply_chain.py:85-98 | the two-row loop returns the full recursive table's last cell |
| EditDistance.ScriptWorks | src/ai_agent_lab/scenarios/supply_chain.py:85-98 | a script of exactly that many edits exists that turns left into right |
| EditDistance.NoScriptIsShorter | src/ai_agent_lab/scenarios/supply_chain.py:85-98 | no script of edits, in any order and at any places, is shorter |
| EditDistance.DistanceIsShortestScript | src/ai_agent_lab/scenarios/supply_chain.py:85-98 | the distance is at most n exactly when some script of at most n edits works |
| EditDistance.Bounds | src/ai_agent_lab/scenarios/supply_chain.py:85-98 | between the difference of the lengths and the longer length |
| EditDistance.ZeroOnlyOnEqual | src/ai_agent_lab/scenarios/supply_chain.py:85-98 | zero exactly on equal strings |
| EditDistance.Symmetric | src/ai_agent_lab/scenarios/supply_chain.py:85-98 | symmetric |
| EditDistance.Triangle | src/ai_agent_lab/scenarios/supply_chain.py:85-98 | the triangle inequality |
| EditDistance.DistanceOne | src/ai_agent_lab/scenarios/supply_chain.py:23-29 | distance one means different and one edit apart, so the equality test of the rule never decides |
| EditDistance.TyposquatFires | src/ai_agent_lab/scenarios/supply_chain.py:23-29 | the rule fires exactly when a name is expected, there is an install script, and the names are one edit apart |
| BraceScan.ScanFrom | src/ai_agent_lab/judge.py:244-265 | the loop over depth, string and escape flags returns the end of the span |
| BraceScan.ReadsBlock | src/ai_agent_lab/judge.py:244-265 | a printed balanced block is read to its last character, whatever follows |
| BraceScan.SpanWasPrinted | src/ai_agent_lab/judge.py:244-265 | whatever the scan accepts was printed by the grammar of balanced text |
| BraceScan.ScanFindsTheBalancedPrefix | src/ai_agent_lab/judge.py:239-269 | from an opening brace the scan ends after n characters exactly when these are a balanced block, and finds nothing exactly when no prefix is one |
| Json.TextIsBalanced | src/ai_agent_lab/judge.py:244-265 | the text of every JSON value is balanced, and of every object a block |
| Json.WrittenPrints | src/ai_agent_lab/judge.py:249-258 | every way RFC 8259 (section 7) escapes a character is passed over as the scanner does |
| JudgePayload.ParseJudgePayload | src/ai_agent_lab/judge.py:220-269 | fence, whole text, then first span: the payload of the specification |
| JudgePayload.PayloadExactly | src/ai_agent_lab/judge.py:228-269 | a reply yields an object exactly when all of it loads as that object, or does not load as any and the block at its first brace does |
| JudgePayload.FenceKeepsTheBlock | src/ai_agent_lab/judge.py:210-217 | stripping a fence removes text around a block only |
| JudgePayload.FenceLeavesTrimmed | src/ai_agent_lab/judge.py:210-217 | what it returns has no outer whitespace |
| JudgePayload.FenceIsRemoved | src/ai_agent_lab/judge.py:210-217 | what stands in a fence marked as JSON comes out without fence, mark and whitespace |
| JudgePayload.PlainFenceIsRemoved | src/ai_agent_lab/judge.py:210-217 | so does what stands in a plain fence |
| JudgePayload.NoFenceNoChange | src/ai_agent_lab/judge.py:211-213 | without a fence only the whitespace around the text goes |
| JudgePayload.BlockIsFoundExactly | src/ai_agent_lab/judge.py:232-269 | a block after prose is the first span of the text exactly when the prose has no opening brace |
| JudgePayload.BlockIsRecovered | src/ai_agent_lab/judge.py:220-269 | prose without a brace, a block that loads, any text after: exactly that block's object comes back |
| JudgePayload.PrintedObjectIsRecovered | src/ai_agent_lab/judge.py:220-269 | the round trip for every JSON object in every spelling, fenced or not, inside prose |
| JudgePayload.EarlierBraceHidesTheObject | src/ai_agent_lab/judge.py:241-265 | a concrete reply with a brace in its prose whose object is lost |
| Text.StripAround | src/ai_agent_lab/judge.py:211-214 | stripping stops at the first and last characters that stay |
| PathPolicy.EscapesWorkspace | src/ai_agent_lab/defender/policy.py:82-105 | the depth loop decides whether some prefix goes below zero, after the empty, sensitive, absolute and drive cases |
| PathPolicy.EscapesByCase | src/ai_agent_lab/defender/policy.py:90-96 | the empty path stays inside; sensitive, rooted and drive paths escape, with either slash |
| PathPolicy.ClimbsExactly | src/ai_agent_lab/defender/policy.py:97-105 | any other path escapes exactly when some beginning of it has more `..` than names |
| PathPolicy.DepthCounts | src/ai_agent_lab/defender/policy.py:97-104 | the depth is the number of names less the number of `..` |
| PathPolicy.SlashKindIsIrrelevant | src/ai_agent_lab/defender/policy.py:94 | spelling a path with backslashes or slashes gives the same parts and the same answer |
| PathPolicy.BackslashSeparates | src/ai_agent_lab/defender/policy.py:94-98 | a backslash separates parts as a slash does |
| PathPolicy.OnePart | src/ai_agent_lab/defender/policy.py:98 | a piece without slashes is one part, unless it is empty or a dot |
| PathPolicy.MinDepthIsLeast | src/ai_agent_lab/defender/policy.py:97-104 | the least prefix depth is reached and is a lower bound |
| PathPolicy.NormalFormShape | src/ai_agent_lab/defender/policy.py:97-104 | the normal form has minus the least prefix depth leading `..`, then names only, down to the final depth |
| PathPolicy.EscapesExactly | src/ai_agent_lab/defender/policy.py:97-105 | a counted path escapes exactly when its normal form begins with `..` |
| PathPolicy.AnyOrderReachesNormalForm | src/ai_agent_lab/defender/policy.py:97-104 | cancelling name and `..` in any order until nothing is left gives the same normal form |
| PathPolicy.CancellationExists | src/ai_agent_lab/defender/policy.py:97-104 | and such cancellations always reach it |
| PathPolicy.JoinEscapesExactly | src/ai_agent_lab/defender/policy.py:97-105 | below a path that stays inside, a second path escapes exactly when it climbs higher than the first descended; never when it stays inside by itself |
| PosixPath.JoinParts | src/ai_agent_lab/defender/policy.py:98 | joining two paths with a slash joins their parts |
| CycleSampling.Materialize | src/ai_agent_lab/attack_contracts.py:103-124 | chosen indexes are whole shuffles cut to length, the loop ends, and the attacks are the rendered payloads in order, or the exception of the first that cannot be rendered |
| CycleSampling.DeliverEach | src/ai_agent_lab/attack_contracts.py:111-124 | payloads are delivered by index and numbered from one, up to the first failure |
| CycleSampling.PlanDelivers | src/ai_agent_lab/attack_contracts.py:65-72 | the strategy of a valid plan refuses no payload of its attack; only its template can raise |
| CycleSampling.RunAtlasTactic | src/ai_agent_lab/runner.py:97-144 | drawing values and recovering indexes gives the plan's index sequence; bounds and double sources raise; each record carries its trace and the judge's answer or exception |
| CycleSampling.RecordEach | src/ai_agent_lab/runner.py:116-138 | each record is that of the variant chosen at its index; an exception of the agent ends the run |
| CycleSampling.IndexIsUnique | src/ai_agent_lab/atlas/__init__.py:24-29 | on distinct payloads the first index of a value is the one it came from |
| CycleSampling.CyclesAreShuffles | src/ai_agent_lab/attack_contracts.py:109-111 | each aligned block of choices is one shuffle of all payloads |
| CycleSampling.ChoiceAt | src/ai_agent_lab/attack_contracts.py:103-111 | the i-th choice is place i mod k of shuffle i div k |
| CycleSampling.DeliverExactly | src/ai_agent_lab/attack_contracts.py:65-72 | a payload is rendered exactly for a supported agent and with the marker |
| CycleSampling.UseIsBalanced | src/ai_agent_lab/attack_contracts.py:109-111 | after n choices of k payloads each was used floor(n / k) times or once more, exactly that often on full cycles |
| Detector.SearchHaystacks | src/ai_agent_lab/detector.py:390-397 | one rule stops at its first matching haystack |
| Detector.MatchRules | src/ai_agent_lab/detector.py:390-397 | the categories that fired, in the order of their first hits, each with its hits in rule order |
| Detector.GroupByMode | src/ai_agent_lab/detector.py:407-410 | the hits of each mode, category by category; a category without a mode raises |
| Detector.Escalate | src/ai_agent_lab/detector.py:413-436 | MALICIOUS exactly when a category or one of its hits is severe; one piece of evidence per hit, in order |
| Detector.HitsComeFromTheTrace | src/ai_agent_lab/detector.py:385-397 | a rule's hit is in the first text it matches of input, tool name and tool arguments, the latter two only for a tool call |
| Detector.VerdictExactly | src/ai_agent_lab/detector.py:383-440 | over the fields of the trace: safe exactly when no rule matches, malicious exactly on a severe match or a sensitive path beside an injection or an outbound address |
| Detector.Detect | src/ai_agent_lab/detector.py:383-451 | that verdict, and the matches, modes, all evidence and the first five pieces shown of their closed forms, or KeyError |
| Detector.RaisesExactly | src/ai_agent_lab/detector.py:407-410 | the call raises exactly when a rule fires whose category has no mode |
| Detector.FiredExactly | src/ai_agent_lab/detector.py:390-397 | a category is matched exactly when one of its rules fires, and none is listed twice |
| Detector.EvidenceExactly | src/ai_agent_lab/detector.py:428-434 | the evidence of the hits names exactly the rules that fired, each with its mode, category and hit |
| Detector.OneBitPerFiring | src/ai_agent_lab/detector.py:428-434 | there is one piece of it per rule that fired |
| Detector.ComboEvidence | src/ai_agent_lab/detector.py:415-440 | then come the pieces of the two combinations, exactly when the trace has them |
| Detector.JoinedOneMore | src/ai_agent_lab/detector.py:445 | the pieces shown are joined by a semicolon and a space |
| Detector.ModeHitsExactly | src/ai_agent_lab/detector.py:407-410 | the hits of a mode are exactly those of the firing rules whose categories have that mode |
| Detector.HitsExactly | src/ai_agent_lab/detector.py:390-397 | a category's hits are exactly those of its rules that fire |
| Detector.MatchedMeansFired | src/ai_agent_lab/detector.py:390-436 | dictionary of matches and closed form agree |
| Detector.MoreRulesNeverLower | src/ai_agent_lab/detector.py:364-451 | more rules, added anywhere, never lower the verdict |
| Detector.RuleOrderIsIrrelevant | src/ai_agent_lab/detector.py:390-451 | permuting the rules does not change it |
| Detector.MoreTextNeverLowers | src/ai_agent_lab/detector.py:385-396 | more text after the old never lowers it |
| Detector.ToolCallNeverLowers | src/ai_agent_lab/detector.py:385-388 | a trace with a tool call is never rated below the same input without one |
| Detector.FusedIsLeastUpperBound | src/ai_agent_lab/detector.py:595-604 | the fused verdict is the least upper bound of its parts, and detected exactly when one of them is |
| Detector.FusedByName | src/ai_agent_lab/detector.py:595-604 | malicious exactly when one part is, safe exactly when both are, the first alone without a second |
| Detector.DetectedByName | src/ai_agent_lab/detector.py:626-628 | detection from SUSPICIOUS on is everything but safe, from MALICIOUS on only that |
| Detector.DetectionIsKept | src/ai_agent_lab/detector.py:626-628 | what is detected stays detected under more rules and a tool call |
| Correlation.GroupByHost | src/ai_agent_lab/report/correlation.py:158-161 | findings grouped by host, in order of first occurrence |
| Correlation.LinkByScenario | src/ai_agent_lab/report/correlation.py:165-168 | the first finding of each scenario, in order |
| Correlation.CorrelateByTarget | src/ai_agent_lab/report/correlation.py:155-184 | the entries of the specification, host by host |
| Correlation.ReportedExactly | src/ai_agent_lab/report/correlation.py:158-170 | a host is reported exactly when two of its findings have different scenarios |
| Correlation.EntryExactly | src/ai_agent_lab/report/correlation.py:165-183 | distinct scenarios, all of the host's, each with the id of its first finding, in order; severity is the maximum over those findings alone |
| Correlation.SeverityByName | src/ai_agent_lab/report/correlation.py:172-175 | critical if one of the linked findings is, or else high if one is, and so on down |
| Correlation.NamelessIsUnknown | src/ai_agent_lab/report/correlation.py:167-170 | findings without a scenario all count as the scenario `unknown` |
| Correlation.EntriesInOrder | src/ai_agent_lab/report/correlation.py:163-184 | one entry per host, in order of first occurrence |
| Correlation.RepeatChangesNothing | src/ai_agent_lab/report/correlation.py:165-168 | a repeated host and scenario changes nothing |
| Correlation.SeverityMayBeLower | src/ai_agent_lab/report/correlation.py:172-175 | so an entry can be less severe than a finding on its host |

## Left out

- Tenant and API-key rows, authentication, roles and audit: a tenant is an identifier a repository is bound to, and
  its row is taken to exist.
- Project target policies: a project is its identifiers, name, times and version.
- SQL isolation beyond the row lock and the guarded updates: each statement is one step, and deadlocks or
  serialization failures are exceptions of a step.
- Timezones: lease arguments may lack one and are then refused; the times of transitions, cancels and creations are
  taken to be aware.
- The file system below the store: `os.replace` and `unlink` are single steps, there are no symbolic links, no
  foreign files, and temporary files are invisible. In `FileStore` and `Worker` a whole put is one step, which
  `PutRace.FreshPutsAreWhole` justifies for puts of different artifacts.
- A cap on column lengths beyond the entities' own checks: the model has none for object keys.
- Ordering.InOrderSorts: identifiers are compared by code point; a database collation may order ties of the creation
  time differently.
- JudgePayload.ParseJudgePayload: `json.loads` either yields a value or raises ValueError; running out of recursion
  depth is not modelled.
- Worker heartbeats inside `process_next`: the source sends none, so a run longer than its lease is reclaimed, as
  the model shows.
- Benchmark content, report rendering and clock readings: arbitrary inputs of a call, the benchmark may fail.
- The registries of tactics, agents and plug-ins: a tactic, an agent and a judge are given.
- The artifact entity's own checks (identifier lengths, hexadecimal digest, expiry after creation): taken to hold
  for the reports a call builds; a raise there is one of the failures of `Worker`.
- The constructor checks of the service (retention days) and of the store (size limit, root directory): the theorems
  hold for every value.
- `_coerce_confidence` and the mapping of a payload to a judge result: a clamp and look-ups, easy members only.
- The second detector of the fusion: its verdict is an arbitrary value, absent or given; the text that joins the
  evidence of both is left out.
- Regular expressions, attack corpora, agents, the effect oracle, metrics, the HTTP and command-line adapters,
  reports in Markdown, the sandbox and the backup: plumbing, foreign calls or easy members.
