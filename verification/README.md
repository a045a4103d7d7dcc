# Verified models of the adaptive tutor's stateful protocols

This project models the parts of the adaptive tutor in which many rows, steps or interleavings have
to keep one invariant, and proves what they promise. `dafny verify dfyconfig.toml` checks all of it.
Code that changes state is a class or a method with the source's branches and loops. Its contract says
outright what it answers and what it changes, and ties it to a transition function or a closed form;
the promises over whole runs are lemmas about that.

| module | what it models |
|---|---|
| `EnvelopeCodec`, `CompatibilityNames` | text envelopes and fresh names of migration 0018 |
| `VersionMigration` | 0018 on index versions: downgrade, upgrade, round trip |
| `TwoPhaseRename`, `CacheMigration` | 0018 on embedding cache rows, whose primary key itself is rewritten |
| `ProviderMigration` | 0018 over both tables in one transaction |
| `CheckpointCleanup` | clean-up intents under savepoints, against a database with snapshots and against each archive's fate |
| `TranscriptPaging` | projection of runs to messages, cursors, and joining pages while the transcript grows |
| `AssessmentLease` | claims, leases and fencing tokens of assessment submission |
| `RefreshRotation` | refresh-token chains, reuse detection, revocation |
| `CorpusSeeding` | V1 and V2 seeding of shared documents, and the validator |
| `ProductionEvaluation` | the A-versus-Best run that must put the active map back |
| `TokenFragments` | binary-search fragmentation and its optimality |
| `RetrievalMetrics` | rank metrics and the exact condition for a gain of at most one |
| `GoldEvidence` | chunk offsets and evidence search |
| `BusyQueue` | the per-key promise queue of the front end |
| `VersionCollapse` | the fold of migration 0017 |
| `GradingMerge` | merging deterministic and remote grades |
| `LatencyStatistics`, `CostEstimate` | percentiles, bootstrap interval, call estimates |
| `Prelude` | optional values, the order of strings, enumerations, decimal rendering, the pigeonhole principle |

## How things are modelled

- Tables are maps from primary keys to rows. A method that updates a table checks the unique key of
  the statement it stands for, so "every intermediate table" is every value the table field takes.
  The seeders call `CorpusSeeding.SeedSession.Flush`, which demands all table constraints, wherever
  the session flushes.
- SHA-256 is an injective function. The JSON and base64 pair is a function with an inverse that never
  makes a string shorter (`EnvelopeCodec.Codec.Faithful`); nothing else is assumed of either.
- A SELECT returns its rows in any order unless the result depends on the order. Which row of
  a group keeps its name in migration 0018 does not: the group is sorted by id
  (`VersionMigration.LeadsIs`).
- A transaction that locks its rows is one atomic step; workers interleave between steps, and a
  worker may present any claim it ever received, as late as it likes.
- Times are integers, measured quantities are reals, and the logarithmic discount is any positive
  discount that does not increase.
- `log`, `ops` and `landed` are histories: they exist to state properties of whole runs.

## What the proofs brought out

- Migration 0018, versions: the round trip is exact if and only if no legacy row's error message
  starts with the envelope prefix. Migration 0018, cache: it also takes that no row's id equals the
  envelope of another row; the downgrade is refused then. A legacy id that carries the prefix always
  spoils the round trip, since decoding makes ids shorter (`CacheMigration.NeverReturns`). Over both
  tables at once the conditions add up (`ProviderMigration.DowngradeThenUpgrade`).
- On tables that did not come from a downgrade the upgrade may pass its checks and still break a
  unique key on the way: exactly when a row gets back the key that a row read later still has
  (`VersionMigration.InTurn`, `CacheMigration.InTurn`).
- Paging with `limit=0` shows everything on one page and one empty page after it; a negative limit
  silently loses the oldest messages.
- An assessment can be finalised through two attempts: the branch for a known request id looks at its
  own attempt only (`AssessmentLease.AssessmentFinalisedTwice`, and the exact condition in
  `AssessmentLease.OneAtATimeUnlessInterfering`). Per attempt it is at most once.
- The evidence gain is not bounded by one in general: one chunk covering two gold anchors doubles it
  (`RetrievalMetrics.NdcgCanBeTwo`). It is at most one for every discount if and only if
  `RetrievalMetrics.Uncrowded`; for one fixed discount a crowded ranking may still stay below one.
- Deterministic grading quotes the case-folded signal, which need not occur in the answer as
  written; its own validation then raises in every grading mode, hybrid included
  (`GradingMerge.Grade` with `GradingMerge.FoldedSignalIsNotQuotable`).
- `paired_bootstrap` fails on deltas with no resample, and the tutor call estimate is not an upper
  bound for a negative warm-up count. A complete run without persistent conversation makes fewer
  tutor calls than estimated by exactly its retrieval errors, which stop an execution before the
  language model is called.

## Model

| member | source | states |
|---|---|---|
| `EnvelopeCodec.DecodeEncode` | backend/alembic/versions/20260730_0018_embedding_provider_identity.py:527-553 | decoding an envelope gives back the very object that was encoded, and the envelope is longer than every string inside it |
| `EnvelopeCodec.DecodeShrinks` | backend/alembic/versions/20260730_0018_embedding_provider_identity.py:539-553 | whatever text decodes, each string in the decoded object is strictly shorter than the text |
| `EnvelopeCodec.SomeCodecIsFaithful` | backend/alembic/versions/20260730_0018_embedding_provider_identity.py:527-553 | a digest and an encoder with these properties exist, so the round trips are not proved from contradictory assumptions |
| `CompatibilityNames.CandidatesDiffer` | backend/alembic/versions/20260730_0018_embedding_provider_identity.py:516-524 | two counters never give the same candidate name, whatever the identity |
| `CompatibilityNames.TakenCandidates` | backend/alembic/versions/20260730_0018_embedding_provider_identity.py:516-524 | if the first n candidates are all taken then at least n names are taken |
| `CompatibilityNames.CompatKey` | backend/alembic/versions/20260730_0018_embedding_provider_identity.py:516-524 | the search ends within (taken names + 1) tries with the first free candidate, and adds just that name |
| `CompatibilityNames.GroupRows` | backend/alembic/versions/20260730_0018_embedding_provider_identity.py:208-214 | the grouping pass puts every row into the one group of its document and build key and collects every name of a document |
| `CompatibilityNames.NameOne` | backend/alembic/versions/20260730_0018_embedding_provider_identity.py:225-235 | a later row of a group gets a name no row of its scope has or had |
| `CompatibilityNames.LegacyFirstSorts` | backend/alembic/versions/20260730_0018_embedding_provider_identity.py:217-223 | the group is visited in order: a legacy row first, then by id |
| `CompatibilityNames.NameGroup` | backend/alembic/versions/20260730_0018_embedding_provider_identity.py:217-250 | one group: its legacy row, or else its row with the smallest id, keeps the name; it fails only if two legacy rows share the group |
| `CompatibilityNames.AssignNames` | backend/alembic/versions/20260730_0018_embedding_provider_identity.py:208-250 | over all groups and any row order: a row keeps its name if and only if it is the legacy row of its group, or the group has none and no row of it has a smaller id; a complete naming exists unless two legacy rows share a group, and then it is found |
| `CompatibilityNames.NamingExcludesClash` | backend/alembic/versions/20260730_0018_embedding_provider_identity.py:247-250 | two legacy rows of one group admit no naming at all |
| `CompatibilityNames.NamePair` | backend/alembic/versions/20260730_0018_embedding_provider_identity.py:217-235 | two rows of one scope get different names, and a new name is nobody's old one |
| `VersionMigration.NoLegacyClash` | backend/alembic/versions/20260730_0018_embedding_provider_identity.py:247-250 | the unique key of the version table rules out the duplicate-legacy error |
| `VersionMigration.OneKeeperPerGroup` | backend/alembic/versions/20260730_0018_embedding_provider_identity.py:217-235 | exactly one version answers to a (document, build key) after the downgrade, a legacy one if there was one |
| `VersionMigration.LeadsIs` | backend/alembic/versions/20260730_0018_embedding_provider_identity.py:217-228 | which version that is: the legacy one, or in a group without one the version with the smallest id |
| `VersionMigration.EarliestLeads` | backend/alembic/versions/20260730_0018_embedding_provider_identity.py:200-228 | in the order in which the query lists the rows: the legacy version, or the first of a group without one |
| `VersionMigration.PreparedMixKeys` | backend/alembic/versions/20260730_0018_embedding_provider_identity.py:260-270 | with any set of preparation updates already issued the table still satisfies the unique key |
| `VersionMigration.PreparedIsNarrow` | backend/alembic/versions/20260730_0018_embedding_provider_identity.py:171-181 | after preparation (document, build key) is unique, so the provider column can be dropped |
| `VersionMigration.RowRoundTrip` | backend/alembic/versions/20260730_0018_embedding_provider_identity.py:225-246 | restoring a prepared row gives the row back, except a legacy row that already carried the prefix: that one comes back changed or not at all |
| `VersionMigration.CleanRoundTrip` | backend/alembic/versions/20260730_0018_embedding_provider_identity.py:353-405 | without such a row every check of the upgrade passes and the table is restored exactly |
| `VersionMigration.EnvelopedRoundTrip` | backend/alembic/versions/20260730_0018_embedding_provider_identity.py:353-405 | with one, the upgrade refuses or leaves a different table |
| `VersionMigration.TableRoundTrip` | backend/alembic/versions/20260730_0018_embedding_provider_identity.py:194-405 | a downgraded table is restored exactly if and only if no legacy row carried the envelope prefix |
| `VersionMigration.CheckRows` | backend/alembic/versions/20260730_0018_embedding_provider_identity.py:367-391 | the decoding loop accepts a table if and only if all rows decode and end up under different keys |
| `VersionMigration.UnreadableIsRefused` | backend/alembic/versions/20260730_0018_embedding_provider_identity.py:367-391 | one envelope that is not a readable object of format 1 with a build key and a provider is enough to refuse the table |
| `VersionMigration.PreparedOrderly` | backend/alembic/versions/20260730_0018_embedding_provider_identity.py:260-270 | no preparation update gives a row a key that another row has before or after it |
| `VersionMigration.OrderlyInTurn` | backend/alembic/versions/20260730_0018_embedding_provider_identity.py:393-405 | whether the restoring updates clash on the way depends on the row order only: no row may get back the key that a row read later still has |
| `VersionMigration.VersionStore.UpdateAll` | backend/alembic/versions/20260730_0018_embedding_provider_identity.py:260-270 | updates issued one by one under the unique key reach the target table if and only if none takes the key of a row updated later |
| `VersionMigration.VersionStore.PrepareRows` | backend/alembic/versions/20260730_0018_embedding_provider_identity.py:194-270 | preparation always succeeds, keeps every primary key, leaves the narrower key unique, and a version keeps its build key if and only if it is the legacy one of its group, or the first one listed of a group without one |
| `VersionMigration.VersionStore.RestoreRows` | backend/alembic/versions/20260730_0018_embedding_provider_identity.py:353-405 | the upgrade refuses exactly the tables its checks reject, before any update; it restores every row if and only if moreover no row gets back the key that a row read later still has, as is always so after a downgrade |
| `VersionMigration.VersionStore.DowngradeThenUpgrade` | backend/alembic/versions/20260730_0018_embedding_provider_identity.py:125-181 | downgrade then upgrade succeeds and gives back the table if and only if no legacy row carried the envelope prefix |
| `TwoPhaseRename.TemporaryIdsDiffer` | backend/alembic/versions/20260730_0018_embedding_provider_identity.py:472-475 | different counters give different temporary ids |
| `TwoPhaseRename.FreshTemporaryId` | backend/alembic/versions/20260730_0018_embedding_provider_identity.py:468-478 | a temporary id that is neither in use nor reserved is found within (used and reserved ids + 1) tries |
| `TwoPhaseRename.StageStep` | backend/alembic/versions/20260730_0018_embedding_provider_identity.py:479-487 | moving one row to its temporary id keeps primary and unique key and loses no row |
| `TwoPhaseRename.SettleStep` | backend/alembic/versions/20260730_0018_embedding_provider_identity.py:489-513 | when a staged row moves on, its target id is free, and the unique key still holds exactly if no row that is still staged has the new key |
| `TwoPhaseRename.TargetFree` | backend/alembic/versions/20260730_0018_embedding_provider_identity.py:463-487 | after staging, the next target id is taken by nobody, even in swaps and chains of ids |
| `TwoPhaseRename.CacheStore.UpdateRow` | backend/alembic/versions/20260730_0018_embedding_provider_identity.py:479-484 | an UPDATE that moves a row is refused exactly when the new id is taken or the unique key would break |
| `TwoPhaseRename.CacheStore.Stage` | backend/alembic/versions/20260730_0018_embedding_provider_identity.py:463-487 | the first phase always succeeds |
| `TwoPhaseRename.CacheStore.Settle` | backend/alembic/versions/20260730_0018_embedding_provider_identity.py:489-513 | if no two rows end up under one key, the second phase reaches the target table if and only if no update takes the key of a row updated later |
| `TwoPhaseRename.CacheStore.ApplyUpdates` | backend/alembic/versions/20260730_0018_embedding_provider_identity.py:457-513 | the two phases realise any injective assignment of ids, one legal UPDATE at a time, unless a new value clashes with a row updated later |
| `CacheMigration.RestorePrepared` | backend/alembic/versions/20260730_0018_embedding_provider_identity.py:317-326 | decoding a prepared id gives back id, provider and model, and the prepared id is longer |
| `CacheMigration.PreparedIdsDiffer` | backend/alembic/versions/20260730_0018_embedding_provider_identity.py:295-331 | without a collision the prepared ids of two rows differ |
| `CacheMigration.PreparesSafeKeys` | backend/alembic/versions/20260730_0018_embedding_provider_identity.py:336-345 | the updates the preparation collects never meet an occupied unique key on the way |
| `CacheMigration.EarliestLeads` | backend/alembic/versions/20260730_0018_embedding_provider_identity.py:280-316 | which cache row keeps its model name, in the order in which the query lists the rows: the legacy one, or the first of a group without one |
| `CacheMigration.PreparedIsNarrow` | backend/alembic/versions/20260730_0018_embedding_provider_identity.py:165-169 | after preparation (model, dimensions, hash) is unique without the provider |
| `CacheMigration.CollectUpdates` | backend/alembic/versions/20260730_0018_embedding_provider_identity.py:294-345 | the collecting loop fails if and only if some row's envelope is another row's id |
| `CacheMigration.PrepareRows` | backend/alembic/versions/20260730_0018_embedding_provider_identity.py:273-345 | preparation is refused exactly on such a collision, without a write; otherwise every row is hidden as promised, and a row keeps its model name if and only if it is the legacy one of its group, or the first one listed of a group without one |
| `CacheMigration.CheckRows` | backend/alembic/versions/20260730_0018_embedding_provider_identity.py:423-452 | the decoding loop accepts a table if and only if all ids decode to different ids and keys |
| `CacheMigration.UnreadableIsRefused` | backend/alembic/versions/20260730_0018_embedding_provider_identity.py:423-440 | one id with the prefix that is not a readable envelope is enough to refuse the table |
| `CacheMigration.RestoresFinalKeys` | backend/alembic/versions/20260730_0018_embedding_provider_identity.py:428-452 | the updates of an accepted table lead to different keys |
| `CacheMigration.OrderlyInTurn` | backend/alembic/versions/20260730_0018_embedding_provider_identity.py:454 | they clash on the way exactly when a row gets back the key that a row read later still has |
| `CacheMigration.RestoreRows` | backend/alembic/versions/20260730_0018_embedding_provider_identity.py:408-454 | the upgrade refuses exactly the tables its checks reject, before any update; it restores every row if and only if moreover no row gets back the key that a row read later still has, as is always so after a downgrade |
| `CacheMigration.ReturnedRow` | backend/alembic/versions/20260730_0018_embedding_provider_identity.py:316-326 | what one row becomes after downgrade and decoding, enveloped legacy ids included |
| `CacheMigration.CleanRoundTrip` | backend/alembic/versions/20260730_0018_embedding_provider_identity.py:273-454 | without an enveloped legacy id the upgrade can only give back the original table |
| `CacheMigration.NeverReturns` | backend/alembic/versions/20260730_0018_embedding_provider_identity.py:428-440 | no row comes back under the longest enveloped legacy id |
| `CacheMigration.EnvelopedRoundTrip` | backend/alembic/versions/20260730_0018_embedding_provider_identity.py:273-454 | with an enveloped legacy id the original table never comes back |
| `CacheMigration.DowngradeThenUpgrade` | backend/alembic/versions/20260730_0018_embedding_provider_identity.py:125-169 | downgrade then upgrade succeeds and gives back the table if and only if no legacy id carried the prefix and no envelope collided with an id |
| `ProviderMigration.Downgrade` | backend/alembic/versions/20260730_0018_embedding_provider_identity.py:189-191 | the downgrade is refused exactly on such a collision, and then the versions are back too; otherwise both tables fit the narrower keys |
| `ProviderMigration.Upgrade` | backend/alembic/versions/20260730_0018_embedding_provider_identity.py:348-350 | the upgrade goes through exactly if the checks of both tables pass and no update clashes; whatever raises leaves both tables as they were |
| `ProviderMigration.ReturnedIfClean` | backend/alembic/versions/20260730_0018_embedding_provider_identity.py:125-181 | if no legacy row of either table carried a prefix, the upgrade after a downgrade succeeds and both tables are back |
| `ProviderMigration.CleanIfReturned` | backend/alembic/versions/20260730_0018_embedding_provider_identity.py:125-181 | and only then |
| `ProviderMigration.DowngradeThenUpgrade` | backend/alembic/versions/20260730_0018_embedding_provider_identity.py:125-181 | the law of the whole migration: refused exactly on a collision and then without a trace, and both tables come back exactly under the conjunction of the conditions |
| `CheckpointCleanup.StepConsistent` | backend/app/application/conversation_service.py:27-63 | every session operation keeps: a frame's pending archives are exactly the difference between its snapshot and the next |
| `CheckpointCleanup.RunConsistent` | backend/app/application/conversation_service.py:27-63 | in every run all archives that reached a root commit are archived durably |
| `CheckpointCleanup.RunSits` | backend/app/application/conversation_service.py:27-53 | in every run each archive is pending in the frame its fate says, or landed, or gone |
| `CheckpointCleanup.RegistersArchive` | backend/app/application/conversation_service.py:246-251 | recording an intent keeps the registry equal to the archives pending per frame |
| `CheckpointCleanup.RegistersRelease` | backend/app/application/conversation_service.py:31-36 | a released savepoint hands its intents to its parent, later ones winning |
| `CheckpointCleanup.RegistersPop` | backend/app/application/conversation_service.py:56-63 | a closed frame leaves the registry of the others as it was |
| `CheckpointCleanup.CleanupSession.ScheduleAll` | backend/app/application/conversation_service.py:41-42 | every committed intent is scheduled with its own runtime, nothing else |
| `CheckpointCleanup.CleanupSession.AfterCommit` | backend/app/application/conversation_service.py:27-42 | the commit hook merges into the parent under a savepoint and schedules under the root |
| `CheckpointCleanup.CleanupSession.ArchiveThread` | backend/app/application/conversation_service.py:226-252 | archiving goes through exactly when the thread exists and is not both live and busy; then the row is archived and the innermost frame's intent for it is the runtime, if there is one; refused, it changes neither rows, intents nor schedule |
| `CheckpointCleanup.CleanupSession.ReleaseSavepoint` | backend/app/application/conversation_service.py:27-40 | a released savepoint hands its intents to its parent, over those the parent had, and schedules nothing |
| `CheckpointCleanup.CleanupSession.RollbackFrame` | backend/app/application/conversation_service.py:45-63 | a rollback to a frame, inner ones open or not, brings back the rows it started from, keeps the intents of the outer frames, and schedules nothing |
| `CheckpointCleanup.CleanupSession.CommitAll` | backend/app/application/conversation_service.py:27-42 | a commit keeps the rows, forgets all intents and schedules exactly what is due: for each thread the intent of the innermost frame that has one |
| `CheckpointCleanup.CleanupSession.RollbackToRoot` | backend/app/application/conversation_service.py:45-63 | rolling back everything brings back the rows before the first frame, forgets all intents and schedules nothing |
| `CheckpointCleanup.CleanupSession.CloseSession` | backend/app/application/conversation_service.py:56-63 | closing a session without a rollback hook leaves no intent behind either |
| `CheckpointCleanup.CleanupSession.ScheduledSoFar` | backend/app/application/conversation_service.py:27-42 | what a live session has scheduled, in terms of its history alone |
| `CheckpointCleanup.CommitSchedules` | backend/app/application/conversation_service.py:27-42 | what one commit schedules, for every thread |
| `CheckpointCleanup.RollbackLands` | backend/app/application/conversation_service.py:45-63 | what one rollback leaves of rows and intents |
| `CheckpointCleanup.ReleaseLands` | backend/app/application/conversation_service.py:31-36 | what one release leaves of them |
| `CheckpointCleanup.RowsFromFates` | backend/app/application/conversation_service.py:226-252 | at any moment a thread is archived if and only if it was before or an archive of it went through and was not rolled back since |
| `CheckpointCleanup.GoesThroughExactly` | backend/app/application/conversation_service.py:229-238 | which archives go through, told from the operations alone: the thread exists, and it is not busy unless an earlier archive of it still stands |
| `CheckpointCleanup.DurableExactly` | backend/app/application/conversation_service.py:226-252 | a thread is durably archived if and only if it was before or some archive of it was committed through all its savepoints |
| `CheckpointCleanup.ScheduledExactly` | backend/app/application/conversation_service.py:27-63 | a deletion is scheduled for exactly the threads with such an archive made while a runtime was in force |
| `CheckpointCleanup.ScheduledIsDurable` | backend/app/application/conversation_service.py:27-63 | a deletion is never scheduled for a thread that is not durably archived |
| `CheckpointCleanup.Reconcile` | backend/app/application/conversation_service.py:74-87 | exactly the archived threads are scheduled and counted |
| `CheckpointCleanup.RestartCovers` | backend/app/application/conversation_service.py:74-87 | after a stop at any point, a reconcile over the durable rows schedules every deletion that may have been lost |
| `TranscriptPaging.CursorRoundTrip` | backend/app/application/conversation_service.py:186-188 | the cursor parser accepts exactly the message ids and recovers run id and role, even if the run id contains colons |
| `TranscriptPaging.MessageOfRun` | backend/app/application/conversation_service.py:90-121 | every message stems from a chat run of the thread and carries that run's id |
| `TranscriptPaging.TranscriptTells` | backend/app/application/conversation_service.py:90-121 | a transcript shows exactly the questions of the thread's chat runs, at the time they started, and the answers of the successful ones, at the time they completed |
| `TranscriptPaging.TranscriptInOrder` | backend/app/application/conversation_service.py:90-121 | messages come in the order of the runs, each question before its answer |
| `TranscriptPaging.IdsDistinct` | backend/app/application/conversation_service.py:90-121 | no two messages of a transcript share an id |
| `TranscriptPaging.LoadBefore` | backend/app/application/conversation_service.py:185-224 | a load before a message's id shows exactly what precedes that message |
| `TranscriptPaging.LoadShowsPage` | backend/app/application/conversation_service.py:173-224 | a load shows a page if and only if the user has the thread and the cursor, if any, is the id of a message of its transcript |
| `TranscriptPaging.LoadNotFound` | backend/app/application/conversation_service.py:173-198 | it is not found if and only if there is no such thread or the cursor names a run of another thread; otherwise the cursor is invalid |
| `TranscriptPaging.AppendingExtends` | backend/app/application/conversation_service.py:200-208 | later runs only extend a transcript at its end |
| `TranscriptPaging.CompletingExtends` | backend/app/application/conversation_service.py:104-121 | so does the completion of the newest run |
| `TranscriptPaging.EndingExtends` | backend/app/application/conversation_service.py:104-121 | the end of a run extends the transcript of its thread if the thread has shown nothing since, and no other transcript |
| `TranscriptPaging.GrowthExtends` | backend/app/application/conversation_service.py:200-208 | whatever starts and ends meanwhile, a later transcript starts with the earlier one |
| `TranscriptPaging.PageStep` | backend/app/application/conversation_service.py:219-224 | what one page shows, and the next cursor, for every integer limit |
| `TranscriptPaging.LoadsAreFew` | backend/app/application/conversation_service.py:219-224 | with a positive limit the number of loads is the message count divided by the limit, rounded up |
| `TranscriptPaging.FollowPages` | backend/app/application/conversation_service.py:173-224 | following the cursor ends, and the pages joined are the transcript of the first load, although it may grow meanwhile, if and only if the limit is at least 0 or there is nothing to show |
| `TranscriptPaging.FollowThread` | backend/app/application/conversation_service.py:173-224 | the same while runs start and end between the loads |
| `AssessmentLease.StepRowOk` | backend/app/application/assessment_workflow_service.py:157-212 | every transaction keeps each attempt's row in agreement with its history: count, latest token, at most one final result |
| `AssessmentLease.RunRowOk` | backend/app/application/assessment_workflow_service.py:124-155 | so in every interleaving of workers and clock |
| `AssessmentLease.FinalisedAtMostOnce` | backend/app/application/assessment_workflow_service.py:245-250 | an attempt is finalised at most once in every run |
| `AssessmentLease.FinalisedByLatest` | backend/app/application/assessment_workflow_service.py:248-250 | the finalising worker holds the last token that is ever issued for the attempt |
| `AssessmentLease.StaleWorkersAreFenced` | backend/app/application/assessment_workflow_service.py:482-497 | with any other token neither finalising nor failing has an effect |
| `AssessmentLease.FinalisedNeverChanges` | backend/app/application/assessment_workflow_service.py:172-179 | a finalised attempt answers a replay with the stored response and another payload with a conflict, and nothing changes it |
| `AssessmentLease.FinalisedForGood` | backend/app/application/assessment_workflow_service.py:356-378 | its row is the same after any further operations |
| `AssessmentLease.LeaseIsExclusive` | backend/app/application/assessment_workflow_service.py:180-191 | no token is issued while a lease runs, nor beyond the maximum number of attempts |
| `AssessmentLease.TokensAreFresh` | backend/app/infrastructure/persistence/repositories/assessment_v2_repository.py:136-169 | no token is issued twice in a run |
| `AssessmentLease.OneAtATimeUnlessInterfering` | backend/app/application/assessment_workflow_service.py:171-212 | one attempt at a time per assessment is broken exactly by taking up a known request while another attempt is graded or being graded |
| `AssessmentLease.OneFinalPerAssessment` | backend/app/application/assessment_workflow_service.py:171-212 | without such a step an assessment is finalised through one attempt only |
| `AssessmentLease.AssessmentFinalisedTwice` | backend/app/application/assessment_workflow_service.py:183-191 | a run in which one assessment is finalised through two attempts |
| `AssessmentLease.SubmissionService.ActiveAttempt` | backend/app/infrastructure/persistence/repositories/assessment_v2_repository.py:116-121 | the query returns some attempt being graded if there is one |
| `AssessmentLease.SubmissionService.ClaimSubmission` | backend/app/application/assessment_workflow_service.py:157-212 | the claim transaction: for a known request of the owner with the same payload, unanswered and without a running lease, the claim is granted if and only if fewer than the maximum number of attempts were made, and otherwise the attempt fails and the assessment reopens; for a new request it is granted if and only if the assessment is active and no picked lease runs; a granted claim has a new token, a lease to now plus the lease time and one attempt more; every other reply changes nothing |
| `AssessmentLease.SubmissionService.FinalizeSubmission` | backend/app/application/assessment_workflow_service.py:245-253 | the result is stored if and only if the attempt is being graded under this token with the same payload; then attempt and assessment get the final status, token and lease go; otherwise nothing changes |
| `AssessmentLease.SubmissionService.FailClaim` | backend/app/application/assessment_workflow_service.py:482-497 | the attempt fails and the assessment reopens if and only if the attempt is being graded under this token; otherwise nothing changes |
| `AssessmentLease.SubmissionService.History` | backend/app/application/assessment_workflow_service.py:124-155 | what holds of any attempt of a live service |
| `RefreshRotation.RotateExtends` | backend/app/application/auth_service.py:155-161 | a rotation appends one unused token to the session's chain and moves both expiries together |
| `RefreshRotation.RotateElsewhere` | backend/app/application/auth_service.py:155-161 | it leaves the chains of all other sessions alone |
| `RefreshRotation.RevokeKeepsChain` | backend/app/infrastructure/persistence/repositories/auth_repository.py:53-55 | revoking keeps every chain and revokes all its tokens with the session |
| `RefreshRotation.LoginStartsChain` | backend/app/application/auth_service.py:179-186 | a new session starts with a chain of one token |
| `RefreshRotation.StepKeepsChain` | backend/app/application/auth_service.py:132-177 | every operation keeps every session's chain linear |
| `RefreshRotation.RunHasChains` | backend/app/application/auth_service.py:132-186 | in every reachable state each session's tokens form one linear chain with non-falling expiries |
| `RefreshRotation.ExactlyOneUnused` | backend/app/application/auth_service.py:132-186 | exactly one token of a session is unused, and it expires with the session's idle time, within the absolute one |
| `RefreshRotation.ParentInvertsReplacement` | backend/app/application/auth_service.py:157-159 | parent and replaced-by are inverse to each other |
| `RefreshRotation.RevokedExactly` | backend/app/application/auth_service.py:139-177 | a session of a run is revoked if and only if one operation logged it or its user out, or presented a verified, live, spent token of it outside the grace period or from another agent |
| `RefreshRotation.RotatesExactly` | backend/app/application/auth_service.py:132-164 | a refresh succeeds if and only if it presents the chain's end with the right secret in time, for an active session and user |
| `RefreshRotation.TokenKept` | backend/app/application/auth_service.py:132-161 | a token keeps its session, hash and expiry over any run, and is used exactly once it was rotated |
| `RefreshRotation.CookieWorks` | backend/app/application/auth_service.py:132-164 | an unused token with its secret is good for a rotation at every later moment before its expiry, unless it was rotated already or its session or user has ended, and at no other |
| `RefreshRotation.RotationGrants` | backend/app/application/auth_service.py:155-164 | so the cookie of a rotation works until the idle time from then or the session's absolute expiry, whichever is first |
| `RefreshRotation.LoginGrants` | backend/app/application/auth_service.py:179-186 | and the cookie of a login likewise |
| `RefreshRotation.RunSession` | backend/app/application/auth_service.py:144-161 | over any run: revoked stays revoked, the idle expiry never falls, the absolute one never moves |
| `RefreshRotation.DeadForGood` | backend/app/application/auth_service.py:141-151 | after revocation or absolute expiry no refresh of the session ever succeeds again |
| `RefreshRotation.SingleUse` | backend/app/application/auth_service.py:144-158 | a token is rotated at most once in every run |
| `RefreshRotation.AuthService.LogIn` | backend/app/application/auth_service.py:92-105 | a login is granted if and only if the user is active; it adds a session with the idle and absolute expiry and the agent's hash, and a token with the secret's hash that expires with the idle time |
| `RefreshRotation.AuthService.Rotation` | backend/app/application/auth_service.py:132-164 | when a refresh rotates: the new token's expiry and the session's idle expiry become the smaller of now plus the idle time and the absolute expiry, the old token is used and replaced; when it is a race and changes nothing; when a spent token revokes the session and all its tokens; in all other cases it is invalid and changes nothing |
| `RefreshRotation.AuthService.LogOut` | backend/app/application/auth_service.py:166-169 | just this session ends, and its tokens are revoked from now on unless they were before |
| `RefreshRotation.AuthService.LogOutAll` | backend/app/application/auth_service.py:171-177 | for an active user just their active sessions end with their tokens, and the token version goes up by one; otherwise nothing changes |
| `CorpusSeeding.SwitchedIsSound` | evals/runner/corpus_seed.py:268-286 | at every point of a switch at most one version per document is active |
| `CorpusSeeding.SwitchOne` | evals/runner/corpus_seed_v2.py:170-188 | retiring the active version and adding the new one switches one document |
| `CorpusSeeding.SwitchIdle` | evals/runner/corpus_seed.py:302-303 | activating what is active already changes nothing |
| `CorpusSeeding.SwitchedMeets` | evals/runner/corpus_seed_v2.py:170-188 | the tables meet all their constraints at every flush of a switch |
| `CorpusSeeding.SeededMeets` | evals/runner/corpus_seed.py:243 | a seeded database meets all its constraints when it is committed |
| `CorpusSeeding.Diagnose` | evals/runner/corpus_seed.py:126-153 | what the checks of the seeders find in each case that can arise |
| `CorpusSeeding.InstalledIsSeeded` | evals/runner/corpus_seed.py:194-243 | a successful seeding leaves whole cohorts only |
| `CorpusSeeding.InstalledIsAccepted` | evals/runner/retrieval_profile.py:47-83 | the validator accepts what a seeder produced, for the same embedding identity |
| `CorpusSeeding.ReseedingIsIdle` | evals/runner/corpus_seed.py:154-165 | seeding again changes nothing |
| `CorpusSeeding.V2KeepsV1` | evals/runner/corpus_seed_v2.py:164-188 | seeding V2 without reset leaves V1 versions, but for their status, and V1 chunks unchanged |
| `CorpusSeeding.SeedSession.Reset` | evals/runner/corpus_seed.py:100-105 | a reset empties the tables |
| `CorpusSeeding.SeedSession.ActivateVersions` | evals/runner/corpus_seed.py:296-316 | activation in any order retires the other versions first and ends with the cohort active |
| `CorpusSeeding.SeedSession.InsertChunks` | evals/runner/corpus_seed.py:214-242 | all expected chunks are stored, or the first one that cannot be embedded stops it |
| `CorpusSeeding.SeedSession.SeedV1` | evals/runner/corpus_seed.py:76-248 | V1 seeding succeeds exactly when the cohort is stored with this identity or the documents are absent and every chunk embeds; then the V1 chunks of a document are those with an index below its number of V1 chunks, and its V1 version alone is active; without a reset everything else stays, apart from retired versions; a failure commits nothing |
| `CorpusSeeding.SeedSession.CheckAndSeedV1` | evals/runner/corpus_seed.py:107-170 | its checks after the reset, branch by branch |
| `CorpusSeeding.SeedSession.SeedV2` | evals/runner/corpus_seed_v2.py:31-232 | V2 seeding succeeds exactly when the cohort is stored or there is a chunk and every chunk embeds; then the V2 chunks of a document for this identity are those with an index below its number of V2 chunks, and its V2 version alone is active; without a reset everything else stays, apart from retired versions; a failure commits nothing |
| `CorpusSeeding.SeedSession.CheckAndSeedV2` | evals/runner/corpus_seed_v2.py:72-139 | its checks after the reset, branch by branch |
| `CorpusSeeding.SeedSession.SwitchCohort` | evals/runner/corpus_seed_v2.py:170-188 | the flush-by-flush loop of V2 ends with the cohort active everywhere |
| `CorpusSeeding.SeedSession.Validate` | evals/runner/retrieval_profile.py:25-83 | no reason is collected if and only if the one active version of every document is the expected row, and the chunks stored under it are exactly those with an index below the document's number of chunks |
| `CorpusSeeding.SeedSession.ValidateDocument` | evals/runner/retrieval_profile.py:50-77 | the reasons for one document |
| `CorpusSeeding.RunIsSeeded` | evals/runner/corpus_seed.py:76-248 | from an empty database every sequence of V1 and V2 seedings, resets and failures keeps whole cohorts and one active version per document |
| `CorpusSeeding.SuccessIsAcceptedAndIdempotent` | evals/runner/retrieval_profile.py:25-83 | after any such run a successful seeding is accepted by the validator, and repeating it succeeds and changes nothing |
| `ProductionEvaluation.ActivatedIsReachable` | backend/app/infrastructure/persistence/repositories/document_index_repository.py:342-360 | an activation leaves one active version and only statuses that can be activated again |
| `ProductionEvaluation.EvaluationSession.Activate` | backend/app/infrastructure/persistence/repositories/document_index_repository.py:323-361 | it succeeds for a curated document and a version of it that is ready, active or retired, which becomes active while the active one is retired; otherwise nothing is written |
| `ProductionEvaluation.EvaluationSession.OriginalActive` | evals/runner/chunking_v3_production.py:143-163 | the recorded active map is exact, and it is total or empty or the run is rejected |
| `ProductionEvaluation.EvaluationSession.ActivateCohort` | evals/runner/chunking_v3_production.py:166-179 | a cohort is activated and committed as a whole and serves every document, or the failure is reported with nothing committed |
| `ProductionEvaluation.ServedIsDrawn` | evals/runner/chunking_v3_production.py:166-179 | once a cohort is activated, what is active for its documents is one version of the cohort for each of them |
| `ProductionEvaluation.ComparableExactly` | evals/runner/chunking_v3_production.py:127-163 | the checks pass exactly for two cohorts without repeated, missing or unfinished versions that cover the same documents, of which all or none have an active version |
| `ProductionEvaluation.BothFilled` | evals/runner/chunking_v3_production.py:90-108 | the report holds the entries of both variants for the last query of each id |
| `ProductionEvaluation.EvaluationSession.Evaluate` | evals/runner/chunking_v3_production.py:78-108 | wherever the body of the try stops, the table can be restored from there; if it ends, each variant was measured on versions of its own cohort |
| `ProductionEvaluation.EvaluationSession.RunQueries` | evals/runner/chunking_v3_production.py:90-108 | each query of a variant is answered from the versions active for the documents at that moment; the first failure ends it, and entries of other variants stay |
| `ProductionEvaluation.EvaluationSession.Protected` | evals/runner/chunking_v3_production.py:78-116 | the try and its finally: the active map is the one before, however it ends |
| `ProductionEvaluation.EvaluationSession.RestoreNothing` | evals/runner/chunking_v3_production.py:192-215 | restores an empty active map |
| `ProductionEvaluation.EvaluationSession.RestoreAll` | evals/runner/chunking_v3_production.py:216-225 | restores a total active map, even when an activation of the restore itself raises |
| `ProductionEvaluation.EvaluationSession.Run` | evals/runner/chunking_v3_production.py:37-124 | after the run, however it ends, the active map of the session and of the database is the one before; it is rejected exactly for bad arguments or cohorts that cannot be compared, and completes if nothing raises; a report compares the last query of each id under versions of A with the same query under versions of Best |
| `TokenFragments.SafeEnd` | evals/chunking_v3_runner.py:300-308 | for any counter the search ends at an end that fits and cannot be moved by one character, or stays at the start only if one character is too much |
| `TokenFragments.TokenSafeFragments` | evals/chunking_v3_runner.py:291-313 | fragments are non-empty, fit and concatenate to the text; the error names a single character beyond the limit |
| `TokenFragments.FragmentsAreMaximal` | evals/chunking_v3_runner.py:300-308 | with a monotone counter each fragment is the longest that fits from its start |
| `TokenFragments.StaysAhead` | evals/chunking_v3_runner.py:299-312 | after k fragments no other split has covered more text |
| `TokenFragments.GreedyIsOptimal` | evals/chunking_v3_runner.py:299-312 | no valid split uses fewer fragments |
| `TokenFragments.FragmentsExactly` | evals/chunking_v3_runner.py:291-313 | with a monotone counter it succeeds if and only if every character fits, which is when any split exists |
| `RetrievalMetrics.Scan` | evals/chunking_v3.py:186-200 | covered anchors, first hit, token total, and each covered anchor's tokens exactly once |
| `RetrievalMetrics.FirstHits` | evals/chunking_v3.py:202-205 | the rank of the first chunk that covers each anchor |
| `RetrievalMetrics.GainRatio` | evals/chunking_v3.py:206-209 | discounted gain of the first hits over the ideal one |
| `RetrievalMetrics.Score` | evals/chunking_v3.py:178-218 | every metric in terms of the covered anchors and first ranks: hit and reciprocal rank from the first chunk with a gold anchor |
| `RetrievalMetrics.RecallIs` | evals/chunking_v3.py:201 | recall is the share of the gold anchors that some selected chunk covers |
| `RetrievalMetrics.OneAnchor` | evals/chunking_v3.py:202-209 | with one gold anchor the gain is the discount of the rank that first covers it relative to that of the first rank, and 0 if none does |
| `RetrievalMetrics.PerfectIsOne` | evals/chunking_v3.py:202-209 | a ranking whose every chunk hits one new anchor, up to the ideal count, scores exactly one |
| `RetrievalMetrics.NdcgAtMostOneExactly` | evals/chunking_v3.py:202-209 | the normalised gain is at most one for every discount if and only if by each rank at most that many anchors have been hit |
| `RetrievalMetrics.CrowdedExceedsOne` | evals/chunking_v3.py:202-209 | otherwise some discount lifts it above one |
| `RetrievalMetrics.DistinctFirstHits` | evals/chunking_v3.py:202-209 | it is at most one when no chunk is the first hit of two gold anchors |
| `RetrievalMetrics.NdcgCanBeTwo` | evals/chunking_v3.py:202-209 | without that it can be two, for the logarithmic discount as well |
| `RetrievalMetrics.RecallGrows` | evals/chunking_v3.py:201 | a longer selection has at least the recall of a shorter one |
| `RetrievalMetrics.SelectWithin` | evals/chunking_v3.py:160-167 | the budget loop keeps exactly the prefix before the first overflow |
| `RetrievalMetrics.BudgetGrows` | evals/chunking_v3.py:160-167 | a larger budget never selects less |
| `RetrievalMetrics.ScoreCutoffs` | evals/chunking_v3.py:150-158 | recall and gain of every cutoff are those of the cut ranking |
| `RetrievalMetrics.WithinIsOnly` | evals/chunking_v3.py:160-167 | the selected prefix is the only one that fits chunk by chunk and cannot take the next |
| `RetrievalMetrics.WithinGrows` | evals/chunking_v3.py:160-167 | recall never falls as the budget grows |
| `RetrievalMetrics.ScoreBudgets` | evals/chunking_v3.py:160-174 | recall and gain of every budget are those of its prefix |
| `RetrievalMetrics.ScoreRanked` | evals/chunking_v3.py:138-175 | recall and gain at each cutoff and budget are those of the ranking cut there, and recall never falls as cutoff or budget grows |
| `GoldEvidence.PackingIsOnly` | src/adaptive_tutor/phase2/rag.py:149-163 | there is only one way to pack words so that chunks of several words stay below the limit and none could take the next word |
| `GoldEvidence.OneWord` | src/adaptive_tutor/phase2/rag.py:149-163 | a text without white space is one word |
| `GoldEvidence.WordsAcross` | src/adaptive_tutor/phase2/rag.py:149-163 | the words of two texts with white space between them are the words of both: with the former this fixes the words of every text |
| `GoldEvidence.SplitText` | src/adaptive_tutor/phase2/rag.py:149-163 | the chunks are that packing: not empty, below the limit or a single word, none able to take the next word, and they join to the flattened text |
| `GoldEvidence.BuildChunks` | evals/runner/gold_chunk_map.py:79-95 | each chunk's start, end and id |
| `GoldEvidence.SliceBack` | evals/runner/gold_chunk_map.py:80-95 | the offsets slice the joined document back to the chunk |
| `GoldEvidence.Locate` | evals/runner/gold_chunk_map.py:80-105 | every position of the document lies in a chunk or is the blank after one |
| `GoldEvidence.FlatStarts` | evals/runner/gold_chunk_map.py:100-101 | flattened evidence is empty or starts with a character that is not white space |
| `GoldEvidence.FindAll` | evals/runner/gold_chunk_map.py:107-114 | all occurrences are found, overlapping ones included, in order |
| `GoldEvidence.MatchingChunkIds` | evals/runner/gold_chunk_map.py:104-125 | a chunk is returned if and only if it touches an occurrence |
| `GoldEvidence.TouchedIsShared` | evals/runner/gold_chunk_map.py:120-124 | for non-empty chunks and evidence touching means sharing a character |
| `GoldEvidence.MapEvidence` | evals/runner/gold_chunk_map.py:73-125 | for one evidence span the result is exactly the chunks sharing a character with an occurrence, empty only if there is none; an evidence without words selects the chunks of two or more characters |
| `BusyQueue.StepIsSound` | frontend/components/learning-provider.tsx:580-610 | every turn of the event loop keeps order, chaining and the three refs consistent |
| `BusyQueue.OneRunning` | frontend/components/learning-provider.tsx:588-601 | at most one action of a key is running at any moment |
| `BusyQueue.FirstInFirstOut` | frontend/components/learning-provider.tsx:600-601 | an action begins only when all earlier ones of its key have settled, resolved or rejected |
| `BusyQueue.FlagCoversTheQueue` | frontend/components/learning-provider.tsx:584-610 | the flag is set from the first accepted action until the last one is cleaned up |
| `BusyQueue.QueueMovesOn` | frontend/components/learning-provider.tsx:600 | the queue never gets stuck |
| `BusyQueue.BusyWorks` | frontend/components/learning-provider.tsx:600-609 | as long as any of the three refs holds a key, one of its actions can move on |
| `BusyQueue.QueueDrains` | frontend/components/learning-provider.tsx:580-610 | without further accepted calls a key's actions take at most three turns each, and when no turn is left the three refs have forgotten the key |
| `BusyQueue.StaleActionsNeverRun` | frontend/components/learning-provider.tsx:586-589 | an action called under a former identity never runs, whatever comes |
| `BusyQueue.LearningProvider.RunBusy` | frontend/components/learning-provider.tsx:567-601 | a call is dropped if and only if it is gated or finds its key busy without leave to queue; else it is chained to the key's last action and all three refs hold the key |
| `BusyQueue.LearningProvider.Execute` | frontend/components/learning-provider.tsx:586-601 | an action that begins runs if the identity is the one it was called under, and resolves at once otherwise |
| `BusyQueue.LearningProvider.Finally` | frontend/components/learning-provider.tsx:604-609 | only the last accepted action clears the three refs of its key, and nothing else |
| `VersionCollapse.BeatsIsTotal` | backend/alembic/versions/20260729_0017_versioned_document_indexes.py:291-302 | of two rows exactly one is preferred |
| `VersionCollapse.BestIsUnique` | backend/alembic/versions/20260729_0017_versioned_document_indexes.py:287-302 | a document has one best version, whatever the row order |
| `VersionCollapse.BestIsPreferred` | backend/alembic/versions/20260729_0017_versioned_document_indexes.py:286-302 | which version that is: an active one if there is one, else ready, retired, building or failed, among equals the latest, and then the one with the greatest id |
| `VersionCollapse.SelectBest` | backend/alembic/versions/20260729_0017_versioned_document_indexes.py:287-302 | the fold picks the best version of every document for any row order |
| `VersionCollapse.Collapse` | backend/alembic/versions/20260729_0017_versioned_document_indexes.py:273-313 | each document that had chunks keeps exactly those of its best version |
| `GradingMerge.LocalModes` | backend/app/application/assessment_grading_service.py:38-43 | the mode of every item before a remote result is used |
| `GradingMerge.Bundle` | backend/app/application/assessment_grading_service.py:70-75 | open items take their remote grade, all others their deterministic one, in item order |
| `GradingMerge.MergedIsOk` | backend/app/domain/assessment/grading_policy.py:109-125 | a merged bundle is valid if and only if each remote grade is valid for its own item |
| `GradingMerge.UseRemote` | backend/app/application/assessment_grading_service.py:34-85 | with valid deterministic grades hybrid grading never fails; remote grades replace all open answers or none, exactly when they are usable, and the modes say so |
| `GradingMerge.ItemGradeOk` | backend/app/domain/assessment/grading_policy.py:109-125 | when a deterministic item grade passes validation |
| `GradingMerge.CriterionEarns` | backend/app/domain/assessment/grading_policy.py:18-92 | a criterion gets all its points or none: for a choice if and only if the stripped answer is the reference, for an open answer if and only if some non-empty signal occurs in it, both case-folded; the quote is the choice or the first such signal |
| `GradingMerge.GradableExactly` | backend/app/domain/assessment/grading_policy.py:13-125 | when deterministic grading does not raise: no item or criterion id repeats, and the first signal found stands in the answer as it is case-folded |
| `GradingMerge.DeterministicGrade` | backend/app/domain/assessment/grading_policy.py:13-106 | deterministic grading succeeds exactly when no item or criterion id repeats and every matched signal can be quoted from the answer |
| `GradingMerge.Grade` | backend/app/application/assessment_grading_service.py:28-85 | grading raises exactly on a submission that cannot be graded deterministically, in every mode; it is unavailable exactly in remote mode with an open item and no usable remote result; otherwise each item has the remote grade if it is open and the remote result is used, and else the points its answer earns, and the mode that says so |
| `GradingMerge.FoldedSignalIsNotQuotable` | backend/app/domain/assessment/grading_policy.py:62-75 | an answer that differs from its signal in case only makes it raise |
| `LatencyStatistics.PercentileIsMonotone` | evals/runner/timing.py:8-17 | a percentile lies between the extremes and does not fall as the percentage grows |
| `LatencyStatistics.PercentileAtRank` | evals/runner/timing.py:13-17 | at a whole position the percentile is the value found there |
| `LatencyStatistics.PercentileHalfWay` | evals/runner/timing.py:13-17 | half way between two positions it is the mean of the two values |
| `LatencyStatistics.SortedMoments` | evals/runner/timing.py:23-31 | mean and variance do not depend on the order of the values |
| `LatencyStatistics.VarianceIs` | evals/runner/timing.py:23-31 | the variance is the mean of the squares less the square of the mean |
| `LatencyStatistics.LatencySummary` | evals/runner/timing.py:20-32 | minimum, p50, p95 and maximum are in order and those of the sorted values, the mean between the extremes, the square of the standard deviation the population variance |
| `LatencyStatistics.ResampleMean` | evals/chunking_v3.py:231 | the mean of the drawn deltas, which lies between the extreme ones |
| `LatencyStatistics.PairedBootstrap` | evals/chunking_v3.py:221-240 | the interval ends are the sorted resample means at the whole parts of 2.5% of their number, less one, and 97.5%, within bounds, in order and between the extreme deltas; the indices fail exactly when there are deltas but no resample |
| `CostEstimate.EvaluationRunner.RunCase` | evals/runner/evaluation_runner.py:128-193 | one case costs an engine execution unless it is skipped, at most one tutor call, none after a retrieval error, and a judge call exactly for a parsed answer, even if its grading raises |
| `CostEstimate.EvaluationRunner.WarmUp` | evals/runner/evaluation_runner.py:85-103 | the warm-up never calls the judge, and the judge is back afterwards on every path |
| `CostEstimate.EvaluationRunner.RunDataset` | evals/runner/evaluation_runner.py:68-109 | executions and calls made by a whole run, complete or interrupted; a complete one calls the judge for exactly the parsed answers of the measured cases |
| `CostEstimate.EstimateIsUpperBound` | evals/runner/cost_estimation.py:41-47 | the tutor estimate bounds the planned engine executions if and only if the warm-up count is not negative |
| `CostEstimate.EstimateIsExact` | evals/runner/cost_estimation.py:41-47 | and when it equals them |
| `CostEstimate.SelectedIs` | evals/runner/evaluation_runner.py:68-83 | just the cases of the split are run, each as often as it is listed |
| `CostEstimate.JudgeEstimateIsMet` | evals/runner/cost_estimation.py:41-50 | the judge estimate is met by a run in which every answer is parsed |
| `CostEstimate.RunWithinEstimate` | evals/runner/cost_estimation.py:26-73 | a run never makes more tutor or judge calls than estimated; complete and without persistent conversation it makes exactly the estimated engine executions, and misses the tutor estimate by its retrieval errors |

## Left out

- SQL dialects, DDL, server defaults other than the provider column's, and column length limits.
- JSON values that Python takes for the integer 1 (`true`, `1.0`) in the format field of an envelope.
- Base64 and UTF-8: a text that does not decode is one outcome, whatever the reason.
- Sessions with autobegin switched off, and handles of closed savepoints: using one raises and is modelled as no change.
- `CheckpointCleanup.CleanupSession.RollbackFrame`: frame numbers stand for the savepoint handles of the session.
- Deleting checkpoints and retrying failed deletions: scheduling is where the model ends.
- Citations and grounding status of assistant messages: they are copied along and paging does not look at them.
- Transcripts in which a run other than the newest of its thread changes between two page loads: the joined pages then mix both states.
- `TranscriptPaging.FollowPages`: run ids are taken to be unique and not empty, as generated ids are.
- Mastery updates, plan proposals and audit rows written with a final grade: they belong to the same transaction and never decide a branch.
- Validation of answer item ids before a claim: it raises without changing anything.
- Limits that change while the service runs: lease time and maximum attempts are constants of a run.
- Parsing of the cookie text, password checks, access tokens and registration: a login is a login of an active user.
- Clocks that run backwards: the idle expiry of a session could then fall.
- `CorpusSeeding.SeedSession.SeedV1`: the tables hold rows of the evaluation documents only; ids of other documents never clash with theirs.
- The hybrid-v3 schema name, which validates as V2, and chunk texts and vectors.
- `ProductionEvaluation.EvaluationSession.Run`: restoring is not interrupted by anything but a document that may not be activated; a database that fails during the restore is not modelled.
- Scoring and traces of the evaluation queries: what a query yields is any function of variant, active versions and query.
- Floating-point rounding, and costs in money.
- `RetrievalMetrics.Score`: every gold anchor is known to the anchor table; a missing one would raise.
- `_normalize_text` and the metadata of chunks.
- Rendering of notifications in `runBusy`, and what the actions do.
- The rewrite of chunk metadata after the collapse of migration 0017.
- Feedback texts, confidences and reason tags of grades, and length limits of quotes.
- Provider retries and several model calls within one engine execution: an execution makes at most one tutor call.
- Token counts and the remaining columns of the cost estimate: products of the call counts.
- Mastery, observer and plan policies, the V3 chunkers, command lines and reports.
- The environment variable behind the grading mode: an unknown or blank value means hybrid.
