# StateWeave: a verified model of its durable core

StateWeave keeps facts, decisions and a state record as JSON files and changes them only through governed
writes. This project models the protocols and graph algorithms beneath that promise and proves what they keep
over every input, every run and every crash. `dafny verify dfyconfig.toml` checks all of it.

## What is modelled

| module | what it is |
|---|---|
| Transactions, TransactionStores, TransactionRuns, JournalSizes | the write-ahead journal of record batches: the store object with one durable write per step, rollback, crash recovery, idempotent replay, whole runs, and a journal as canonical JSON |
| WriterLocks | the directory lock: any number of processes, crashes, and recovery in separate steps |
| Graphs, Supersession, Conflicts | the supersession audit: cycle search, reachability search, reciprocity checks, the base-fact conflict rule |
| TaskOrder | the task order of an execution manifest |
| Ranking, Packing, ContextIndexes, ContextQueries, ContextPaths | retrieval: layered expansion, ranking, packing under a budget, the context index and its validity test, and when both reading paths agree |
| Candidates, CandidateInboxes | the candidate lifecycle on top of the transaction store |
| Captures, CaptureVaults | cursor-bound capture: envelopes, checkpoints, the chain audit |
| ContentInspection | the bounded content walk |
| Backups, Migrations | the backup round trip and migration with rollback |
| PairedGates | the exact binomial tail of the value experiment |
| Evidence, Orders | shared vocabulary: digests, faults, string order, sorting |

Objects whose files the source changes in place are classes: `TransactionStore`, `CandidateInbox`, `CaptureVault`
and `Project`. Each durable write asks a fault function, fixed but arbitrary, whether it works, fails or ends the
process, so a contract that holds for every fault function also speaks about every state a crash can leave.
Each such method is proved against a predicate on its old and new state, and the lemmas about runs use those
predicates.

SHA-256 over canonical JSON is an injective constructor. Schema validity, the record size limit, the length of
journals and indexes, the cross-record audit, filters, lexical scoring, content patterns and the JSON and path codecs
are parameters; what is needed of them is stated as a hypothesis (`Lossless` for names, `Reparses` for records
written with sorted keys and read again), and nothing else is.

## What the proofs found

- A rolled-back idempotency key is spent. A retry with the same request raises
  (src/stateweave/core/project.py:198-206); it never succeeds later. A promotion uses the key `promote:<id>`, so a
  candidate whose promotion was rolled back or recovered once can only be rejected (`Candidates.SpentPromotion`).
- A journal is written without a look at its length (src/stateweave/core/transactions.py:178-182) but loaded only up
  to 2 MiB (src/stateweave/core/transactions.py:26, 192), and the audit inside a batch loads it. So a batch that the
  schema, every precondition and the cross-record audit allow lands only if its applying journal is within that
  limit (`Transactions.CalmPut` in the contract of `PutRecords`). If it is not, it is rolled back, and its closed
  journal is longer still; and a batch at exactly the limit lands and returns with a committed journal one byte too
  long (`JournalSizes.JamsIffClosedIsTooLong`, `JournalSizes.JamsByLength`). With such a journal on disk the store is
  stuck for good (`TransactionRuns.UnreadableForever`). Ten thousand new facts are an input
  (`JournalSizes.LargeBatchJamsStore`).
- Recovery restores the files first and audits afterwards (src/stateweave/core/project.py:435-456). It closes the
  journal exactly when the snapshot from before the batch passes the audit and every journal can be loaded;
  otherwise the files are restored, if the batch's own journal can be loaded, and the journal stays open.
- The lock is exclusive only under three hypotheses, and each is necessary: there is a concrete run that breaks
  exclusion without it.
- docs/architecture.md describes the conflict rule as applying to any two facts unless one supersedes the other.
  The code compares each fact with one base fact only (src/stateweave/core/audit.py:364-392). On stores whose
  supersession audit is clean the two agree if and only if reciprocity is required
  (`Conflicts.RuleHoldsIffReciprocal`; `Conflicts.OneSidedHidesConflict` is the store on which they differ).
- The score of a related record is `max(1, s - 20)` (src/stateweave/context/compiler.py:193). It exceeds the score it
  was derived from exactly when the source is a direct match whose lexical score is not positive
  (`Ranking.RelatedExceedsSource`), and
  `Ranking.RelatedOutranksSource` is a store in which a related record is ranked before its source.
- Content warnings are collected before the byte budget is checked (src/stateweave/context/compiler.py:397-410). A
  bundle warns about a record it does not contain exactly when that record is not blocked, has warnings and goes
  over the byte budget while an item is left (`Packing.WarnedButLeftOut`; `Packing.EmptyBundleWarns` is an instance).
- After an interrupted promotion the record file, not the journal, protects the candidate: once a later update has
  moved the record, the candidate can be rejected although its batch is committed.
- Ingest checks only that a cursor advances (src/stateweave/capture/store.py:107-113). A cursor that recurs breaks
  the chain for good, and so does a crash between envelope and checkpoint that is followed by another new envelope
  instead of a replay. Nothing else does: `Captures.SoundIffOnTrack` is exact (`Captures.UnreplayedCrashForks` is
  the crash as a concrete sequence).
- docs/extensions.md:36-38 says that a verified index produces the same query result and bundle as the scan. But the
  index stores records with sorted keys (src/stateweave/context/index.py:73-82, 127) and lexical scoring prints a
  claim, or the items of the state record, in key order (src/stateweave/context/compiler.py:86-105). So a query can
  find a fact by the scan and miss it through an accepted index of the same files:
  examples/research-lab/memory/facts/FCT-dataset-v1.json and the term `release', 'object'`
  (`ContextPaths.UnsortedClaimSplitsPaths`). The paths agree on every query exactly when no text depends on the order
  (`ContextPaths.SameOnBothPaths`), which holds for every file that is canonical JSON.
- A context index is read only up to 128 MiB and written without that limit (src/stateweave/context/index.py:28, 139);
  a longer one is never used (`ContextIndexes.AcceptedIffUnchanged`).
- `apply_migration` writes the final journal status outside the protected block
  (src/stateweave/core/migrations.py:237-240). So a call that raises without a rollback-failed error may have changed
  the files: exactly when the plan runs to its end, every write before the closing one works, the closing one fails,
  and the plan changes something (`Migrations.CloseFails` in the contract of `ApplyMigration`; an input is in
  `Migrations.RaiseAfterMigrating`). And a failed migration can be rolled back only if every backed-up name is
  portable.
- For at most nine pairs the statistical gate is a small table: five wins without a loss, or seven with one.

## Model

| member | source | states |
|---|---|---|
| `TransactionRuns.AtomicHistory` | src/stateweave/core/project.py:257-342 | Main result. Over every run of batches and recoveries, with any write failing and any crash, the records a store stands for are the initial ones with the landed batches applied whole and in order. |
| `TransactionRuns.ClosedHistory` | src/stateweave/core/project.py:257-342 | When no journal is open the record files themselves are that history. |
| `TransactionRuns.EffectOnLogical` | src/stateweave/core/project.py:257-342 | One operation changes what the store stands for only by landing its whole batch. |
| `TransactionRuns.OnceOnly` | src/stateweave/core/project.py:195-206 | Once a journal exists for an idempotency key, no later call with it writes anything; it answers with the same destinations only for the committed request and raises otherwise. |
| `TransactionRuns.LandedIdsDiffer` | src/stateweave/core/project.py:195-206 | One idempotency key commits at most one batch over a run. |
| `TransactionRuns.RolledBackIsSpent` | src/stateweave/core/project.py:198-206 | A rolled-back key is spent: every later use raises and writes nothing. |
| `TransactionRuns.JournalsPersist` | src/stateweave/core/project.py:195-206 | Journals never disappear, never change their request, and a closed journal never changes. |
| `TransactionRuns.EffectOnJournal` | src/stateweave/core/project.py:359-382 | The only change another operation can make to a journal is to close an open one as rolled back. |
| `TransactionRuns.RecoveryRestores` | src/stateweave/core/project.py:393-469 | However many recoveries were cut short, one that completes leaves exactly the records from before the interrupted batch and no open journal. |
| `TransactionRuns.RecoverKeepsLogical` | src/stateweave/core/project.py:393-469 | Interrupted recoveries never change what the store stands for. |
| `TransactionRuns.Serve` | src/stateweave/core/project.py:141-342 | Any list of operations performed on one store object is such a run, whatever the faults, and every state it reaches, crashed ones included, is well formed: at most one open journal, no payload directory without its journal, a preparing batch has moved nothing, a prepared or applying one has every before payload intact. |
| `TransactionRuns.UnreadableForever` | src/stateweave/core/transactions.py:185-203 | Main result. Once a journal that cannot be loaded is on disk, for every later operation of every run: no batch lands, no recovery returns, no journal changes, and a call with an id that has no journal yet, or for that journal itself, raises and writes nothing. |
| `JournalSizes.LongBatchNeverLands` | src/stateweave/core/transactions.py:26 | A batch of enough records with ids of at least a given width never passes its own audit, whatever the store, and its journal cannot be loaded in any status: the canonical JSON is over the read limit. |
| `JournalSizes.JamsIffClosedIsTooLong` | src/stateweave/core/project.py:286-341 | Exactly when an admitted batch without faults leaves a journal that cannot be loaded: when its closed journal, committed or rolled back, is over the limit. |
| `JournalSizes.JamsByLength` | src/stateweave/core/project.py:286-341 | With canonical JSON lengths: a batch that returns has jammed the store exactly when its applying journal had the greatest length that can be loaded; a valid batch above that length is rolled back and jams it. |
| `JournalSizes.JournalLength` | src/stateweave/core/io.py:15-25 | The length of a journal as canonical JSON: what it depends on, and that a batch has its shortest journals while it is prepared or applying. |
| `JournalSizes.LargeBatchJamsStore` | src/stateweave/core/project.py:272-341 | A concrete input, however digests and time stamps are spelled: ten thousand valid new facts in one batch on an empty store without faults are rolled back, and afterwards a batch with one fact and a recovery both raise. |
| `TransactionStores.TransactionStore.PutRecords` | src/stateweave/core/project.py:141-342 | Refines the atomic batch step: committed with exactly the after bytes, or still standing for the old records; outside records untouched. An improper request, or a new id on a store that is not clean or whose records do not meet the preconditions, raises and writes nothing. Otherwise, without faults, the end is exact: no trace if the journal is invalid, landed if the audit accepts the result and the applying journal can be loaded, rolled back else. A batch that would land and meets one failed write is undone completely, or has landed already. The call is cut short exactly when its last write ended the process. |
| `TransactionStores.TransactionStore.RunBatch` | src/stateweave/core/project.py:272-342 | An admitted batch from its first durable write to its end, under any faults; without faults with the exact end state, and with a single failed write either landed or undone completely. |
| `TransactionStores.TransactionStore.ApplyBatch` | src/stateweave/core/project.py:272-307 | The protected block: it either commits exactly the applied items or leaves a state that rollback and recovery understand; unless a write fails it commits exactly when the audit accepts and the applying journal can be loaded. |
| `TransactionStores.TransactionStore.MoveRecords` | src/stateweave/core/project.py:292-307 | The part of it that moves records: replaced, audited and committed, or still in flight. |
| `TransactionStores.TransactionStore.StageEvidence` | src/stateweave/core/project.py:272-285 | Until the journal says prepared no record has moved; afterwards every payload file is on disk. |
| `TransactionStores.TransactionStore.StagePayloads` | src/stateweave/core/project.py:275-285 | The payload directory holds every after body and every before body there was, and nothing else. |
| `TransactionStores.TransactionStore.MarkApplying` | src/stateweave/core/project.py:286-291 | The journal moves through prepared to applying only over complete evidence. |
| `TransactionStores.TransactionStore.ReplaceRecords` | src/stateweave/core/project.py:292-293 | Whatever write fails, each batch record holds its old or its new bytes and no other record changes. |
| `TransactionStores.TransactionStore.CommitBatch` | src/stateweave/core/project.py:294-307 | The journal is committed only over records the audit accepts; otherwise nothing changes. |
| `TransactionStores.TransactionStore.RollBack` | src/stateweave/core/project.py:312-342 | The handler withdraws the batch: the store stands for the records it started from. |
| `TransactionStores.TransactionStore.RestorePrevious` | src/stateweave/core/project.py:313-326 | Every record is tried; with no failed write all hold their previous bytes. |
| `TransactionStores.TransactionStore.CloseRolledBack` | src/stateweave/core/project.py:327-341 | Closing the journal of an undone batch leaves the old records and nothing open. |
| `TransactionStores.TransactionStore.CleanupPayloads` | src/stateweave/core/project.py:385-390 | Only the directory of the finished batch is touched; without faults it is gone. |
| `TransactionStores.TransactionStore.AdmitBatch` | src/stateweave/core/project.py:214-255 | Admits a batch exactly when overwriting is asked for or none of its records exists, those that exist are within the size limit, and every expected revision is the observed one; and then records each previous body and revision. |
| `TransactionStores.TransactionStore.RecoverTransaction` | src/stateweave/core/project.py:393-469 | Never changes what the store stands for; refuses without a write when the journal cannot be loaded, a record was edited from outside or evidence is damaged; without faults it restores the files, and closes exactly when the restored snapshot passes the audit and every other journal can be loaded, leaving no payload directory. |
| `TransactionStores.TransactionStore.RestoreFromEvidence` | src/stateweave/core/project.py:435-446 | Puts back every file of the batch from the payload directory and touches no other record. |
| `TransactionStores.TransactionStore.CheckEvidence` | src/stateweave/core/project.py:410-434 | Reports a problem exactly when some record is out of place or some needed before payload is missing or altered. |
| `TransactionStores.TransactionStore.CloseRecovery` | src/stateweave/core/project.py:447-469 | Closes the journal exactly when the restored records pass the audit and the inspection of the transaction store. |
| `Transactions.ReplayMeaning` | src/stateweave/core/project.py:359-382 | A replay answers only for the committed request, with its destinations, while every record still holds its after bytes. |
| `Transactions.ReplayChangesMeaning` | src/stateweave/core/project.py:369-381 | The replay loop accepts exactly when every changed record is at its after revision. |
| `Transactions.InFlightSafe` | src/stateweave/core/project.py:272-342 | Wherever a crash strikes inside a batch, the store is well formed and stands for the old records. |
| `Transactions.UndoUnmoved` | src/stateweave/core/project.py:435-446 | Undoing a batch that moved nothing changes nothing. |
| `Transactions.UndoAgrees` | src/stateweave/core/project.py:435-446 | Undo depends on no record of the batch, so a half-applied batch undoes to the same records. |
| `Transactions.CommitMeaning` | src/stateweave/core/project.py:292-293 | After a commit the batch records hold their after bytes and every other record is as before. |
| `Transactions.CleanIsClosed` | src/stateweave/core/transactions.py:249-271 | A store the inspection passes has no open batch: its files are what it stands for. |
| `Transactions.CleanIffClosed` | src/stateweave/core/transactions.py:249-271 | Of a store that only these protocols wrote, the inspection reports nothing exactly when every journal can be loaded and no batch is open but the running one. |
| `Transactions.LostEvidenceIsReported` | src/stateweave/core/transactions.py:249-271 | The inspection reports a payload directory without its journal, and a prepared or applying journal without its payloads. |
| `Transactions.NoTraceIff` | src/stateweave/core/transactions.py:178-182 | A proper batch leaves no trace exactly when it has more records than a journal may list, or its journal is not well formed otherwise. |
| `Transactions.ProperIffChecked` | src/stateweave/core/project.py:153-187 | The checks before the lock pass for exactly the requests that name at least one record and none twice, with valid payloads and, if given, expected revisions for exactly these records. |
| `Transactions.AdmittedItems` | src/stateweave/core/project.py:217-243 | The item loop lets a batch through exactly when the three preconditions on the existing records hold. |
| `WriterLocks.AtMostOneHolder` | src/stateweave/core/locking.py:339-414 | Main result. For any number of processes and any interleaving of acquire, release, crash and recovery steps at most one is inside the lock, if mkdir fails only because the directory exists, recovery is run only against a stopped owner, and one recovery at a time. |
| `WriterLocks.RunKeepsInv` | src/stateweave/core/locking.py:339-414 | The lock invariant holds after every disciplined run. |
| `WriterLocks.ProcStepKeepsInv` | src/stateweave/core/locking.py:339-414 | Every step of acquire, release and crash keeps the invariant. |
| `WriterLocks.RecoveryStepKeepsInv` | src/stateweave/core/locking.py:241-297 | Every inspect, rename, re-inspect and delete step keeps it. |
| `WriterLocks.HolderCanRelease` | src/stateweave/core/locking.py:370-414 | In every state of a disciplined run an uninterrupted release verifies its token and frees the lock, and affects no other process. |
| `WriterLocks.ForeignLockIsKept` | src/stateweave/core/locking.py:370-382 | In every state, disciplined or not: a holder that does not find its own token in the lock stops, and its release changes neither the lock nor any other process. |
| `WriterLocks.VerifiedIffOwn` | src/stateweave/core/locking.py:373-382 | In any run at all, a process gets to removing the owner file exactly by checking, while it holds the lock, that the file carries its own token at that step. |
| `WriterLocks.OwnerFileStays` | src/stateweave/core/locking.py:339-414 | In every state: an owner file in the lock goes only when a process that made its directory writes it, a process that verified its own token removes it, or a confirmed recovery moves the directory aside as it is. |
| `WriterLocks.EnteredOnlyByMkdir` | src/stateweave/core/locking.py:339-347 | In every state: a process comes inside only by its own mkdir on a free lock, or by an mkdir that failed with an error; and a release goes on after the unlink only if there was an owner file to remove. |
| `WriterLocks.FreeLockAdmits` | src/stateweave/core/locking.py:339-347 | In every state of a disciplined run in which the lock is free nobody is inside, and an idle process that is not interrupted gets it with its own token and is then alone inside. |
| `WriterLocks.CrashedHolderBlocks` | src/stateweave/core/locking.py:343-361 | A lock whose maker has stopped keeps everybody out until a recovery renames it. |
| `WriterLocks.RecoveryUnblocks` | src/stateweave/core/locking.py:241-297 | One undisturbed recovery frees the lock for the next process. |
| `WriterLocks.RecoveryCompletes` | src/stateweave/core/locking.py:241-297 | Against unchanged evidence an undisturbed recovery runs to its end: lock and quarantined directory are gone and nothing else changed. |
| `WriterLocks.DeletesOnlyConfirmed` | src/stateweave/core/locking.py:250-297 | In any run at all, the owner file a recovery deletes is the very file that stood in the lock when this recovery was started, with its fingerprint and token, and found it stale; changed evidence is kept. |
| `WriterLocks.QuarantineIsKept` | src/stateweave/core/locking.py:267-297 | In any run at all, nothing but such a deletion changes or removes a quarantined owner file. |
| `WriterLocks.MkdirErrorBreaksExclusion` | src/stateweave/core/locking.py:362-368 | Without the first hypothesis exclusion fails: a concrete run in which the error handler removes the directory of a process that has not written its owner file. |
| `WriterLocks.RecoveringALiveOwnerBreaksExclusion` | src/stateweave/core/locking.py:250-270 | Without the second it fails: recovering a live owner lets a second process in. |
| `WriterLocks.ConcurrentRecoveriesBreakExclusion` | src/stateweave/core/locking.py:250-270 | Without the third it fails: the rename of a second recovery takes the lock of the next holder. |
| `Supersession.SupersessionCycle` | src/stateweave/core/audit.py:190-229 | Main result. Returns a list exactly when the supersedes graph of the known records has a cycle; the list is a simple cycle: first and last equal, every step an edge. |
| `Supersession.Explore` | src/stateweave/core/audit.py:199-228 | The search from one start with explicit stack markers: a cycle, or every visited node finished after all its successors; ends by the pair of uncoloured nodes and stack length. |
| `Supersession.ExpandTop` | src/stateweave/core/audit.py:206-228 | One expansion keeps the relation between colours, stack markers and active path. |
| `Supersession.PushSuccessors` | src/stateweave/core/audit.py:223-228 | Every known successor is finished, waits on the stack, or closes a cycle. |
| `Supersession.CloseAt` | src/stateweave/core/audit.py:223-226 | The active path from the gray node on, closed with it, is a simple cycle. |
| `Graphs.PrefixClosedIsAcyclic` | src/stateweave/core/audit.py:190-229 | A listing in which every node comes after its successors rules out a cycle. |
| `Graphs.TrapHasCycle` | src/stateweave/orchestration/graph.py:94-96 | A non-empty set of nodes each with an edge inside the set contains a cycle. |
| `Supersession.TransitivelySupersedes` | src/stateweave/core/audit.py:232-248 | The worklist search answers exactly whether a supersedes path leads from source to target. |
| `Supersession.ShutOut` | src/stateweave/core/audit.py:232-248 | A set closed under supersedes that misses the target refutes every path. |
| `Conflicts.AuditSupersession` | src/stateweave/core/audit.py:462-527 | Reports exactly these complaints: a superseded fact or decision without the status that says so; a supersedes target or successor that is no record, or one of another kind; and, if reciprocity is required, a target or successor that does not name it back. Silent exactly on stores without any. |
| `Conflicts.SoundIffConverse` | src/stateweave/core/audit.py:462-527 | Under reciprocity the audit is silent exactly when supersedes and superseded_by are converse relations among facts and decisions, kinds match and superseded ones have the right status. |
| `Conflicts.RecordErrors` | src/stateweave/core/audit.py:462-527 | Exactly the complaints about one record. |
| `Conflicts.AuditConflicts` | src/stateweave/core/audit.py:334-402 | Reports exactly the pairs of a base fact with a fact it is paired with, and an error exactly for the keys that have one, each key once, by subject, predicate and scope. |
| `Conflicts.GroupedFacts` | src/stateweave/core/audit.py:338-362 | Who takes part for a key: verified facts without successor whose claim has this non-empty subject, predicate and scope. |
| `Orders.StrOrder` | src/stateweave/core/audit.py:364-373 | Strings compare as in Python: a string stands before its extensions, and otherwise the first difference decides. |
| `Conflicts.PairWithBase` | src/stateweave/core/audit.py:364-392 | For one key: the base fact, and all facts with another object that no supersession exempts. |
| `Conflicts.PairObject` | src/stateweave/core/audit.py:376-392 | The same for one object. |
| `Conflicts.GroupFacts` | src/stateweave/core/audit.py:338-362 | Groups exactly the active verified facts with a complete claim key. |
| `Conflicts.BaseComparisonIsComplete` | src/stateweave/core/audit.py:364-402 | Main result. With reciprocity required and no supersession error, the facts paired with the base are exactly those whose object differs, and there are some exactly when two facts disagree, although only base-to-other pairs are compared. |
| `Conflicts.RuleHoldsIffReciprocal` | src/stateweave/core/audit.py:334-402 | Main result. For every store that passes the supersession audit the conflict error is the documented rule, two disagreeing facts of which neither supersedes the other, if and only if the policy requires reciprocity. |
| `Conflicts.ErrorIffDisagreement` | src/stateweave/core/audit.py:334-402 | A claim key then gets a conflict error exactly when two active verified facts with it assert different objects. |
| `Conflicts.ReportedDisagrees` | src/stateweave/core/audit.py:376-402 | Under any policy a reported pair really disagrees and neither side supersedes the other. |
| `Conflicts.ActiveIsNotReached` | src/stateweave/core/audit.py:474-500 | Under reciprocity no active record lies on a supersedes path from another record. |
| `Conflicts.PathSupersedes` | src/stateweave/core/audit.py:474-500 | Under reciprocity every record a supersedes path enters names its predecessor as its successor. |
| `Conflicts.OneSidedHidesConflict` | src/stateweave/core/audit.py:364-402 | Without reciprocity the shortcut is incomplete: three concrete facts where two disagree, neither supersedes the other, and no conflict is reported. |
| `TaskOrder.TopologicalOrder` | src/stateweave/orchestration/graph.py:55-97 | Main result. Succeeds exactly when ids are unique, dependencies exist and the graph is acyclic; the order is a permutation with dependencies first, and the lexicographically least such order. |
| `TaskOrder.Kahn` | src/stateweave/orchestration/graph.py:82-93 | The ready-list loop emits, at each point, the least ready id, and stops only when none is ready. |
| `TaskOrder.Relax` | src/stateweave/orchestration/graph.py:87-93 | Striking one finished task makes ready exactly the dependents whose last dependency it was. |
| `TaskOrder.GreedyIsLeast` | src/stateweave/orchestration/graph.py:82-93 | Taking the least ready id each time gives the lexicographically least topological order. |
| `TaskOrder.LeastIsUnique` | src/stateweave/orchestration/graph.py:55-97 | There is at most one such order. |
| `TaskOrder.InputOrderIrrelevant` | src/stateweave/orchestration/graph.py:55-97 | The answer does not depend on the order in which tasks are given. |
| `TaskOrder.StuckNodes` | src/stateweave/orchestration/graph.py:94-96 | If tasks are left and none is ready, there is a cycle. |
| `TaskOrder.OrderedIsAcyclic` | src/stateweave/orchestration/graph.py:94-97 | A complete order proves that there was none. |
| `TaskOrder.IndexTasks` | src/stateweave/orchestration/graph.py:58-65 | Detects duplicates exactly, and maps each id to its task. |
| `TaskOrder.Dependents` | src/stateweave/orchestration/graph.py:67-80 | The reverse edges of the dependency graph. |
| `Ranking.RankRecords` | src/stateweave/context/compiler.py:165-212 | Main result. The expanded entries, in strict ranking order, and the two filter counts; ranked, filtered and unmatched records add up to all records. |
| `Ranking.UpToIffWithin` | src/stateweave/context/compiler.py:185-197 | Expansion to depth d reaches exactly the eligible records within d links of a direct match, over eligible records only. |
| `Ranking.LayerIffShortest` | src/stateweave/context/compiler.py:182-199 | A record is found in layer k exactly when its shortest distance is k. |
| `Ranking.ExpandedMeaning` | src/stateweave/context/compiler.py:185-197 | Each expanded record carries its shortest distance and max(1, s - 20) for its least parent in the previous layer. |
| `Ranking.RelatedExceedsSource` | src/stateweave/context/compiler.py:192-195 | A related entry has a higher score than the record it was reached from exactly when that record is a direct match with a lexical score of at most zero. |
| `Ranking.RelatedOutranksSource` | src/stateweave/context/compiler.py:192-205 | A concrete store and query in which it does: a deprecated record with one body term scores -16, the record that refers to it scores 1 and is ranked first. |
| `Ranking.Expand` | src/stateweave/context/compiler.py:182-199 | The layered loop, with its early exit, computes that expansion. |
| `Ranking.ExpandLayer` | src/stateweave/context/compiler.py:185-197 | One depth: the records discovered are exactly the next layer. |
| `Ranking.ExpandSource` | src/stateweave/context/compiler.py:187-196 | One source of the frontier, visited in id order, claims exactly its undiscovered neighbours. |
| `Ranking.Relations` | src/stateweave/context/compiler.py:144-162 | The adjacency holds exactly the pairs of known records of which one names the other. |
| `Ranking.LinkedIffNamed` | src/stateweave/context/compiler.py:144-161 | Two records are linked exactly when both are known and one names the other: as a reference, as superseded, as its successor, or, from the state record, as the source of an item. |
| `Ranking.EmptyLayerStops` | src/stateweave/context/compiler.py:197-199 | Once a layer is empty nothing more is found at any depth. |
| `Ranking.RankingUnique` | src/stateweave/context/compiler.py:201-205 | The ranking is determined by the entries, so dictionary order does not matter. |
| `Ranking.RankingIsSorting` | src/stateweave/context/compiler.py:201-205 | Sorting by score and id gives that ranking whatever order the entries are listed in. |
| `Packing.Pack` | src/stateweave/context/compiler.py:385-413 | Selects a subsequence of the ranking within both budgets, counts every record once, sums the selected bytes, and collects content warnings of every record that was not blocked. |
| `Packing.WithinBudget` | src/stateweave/context/compiler.py:385-413 | Both budgets hold for every ranking; a record left out for size would have overflowed the bytes already taken. |
| `Packing.ItemLimitComesFirst` | src/stateweave/context/compiler.py:385-396 | A record is passed over for the item budget exactly when as many items as allowed have been taken, and is blocked by content policy only before that. |
| `Packing.LimitStays` | src/stateweave/context/compiler.py:386-388 | Once the items are used up every later record is passed over for that, blocked or not. |
| `Packing.WarnedButLeftOut` | src/stateweave/context/compiler.py:397-410 | A position of the ranking adds content warnings and no item exactly when an item was left, the record is not blocked and has warnings, and its size goes over the byte budget; the warnings stay in the bundle. |
| `Packing.EmptyBundleWarns` | src/stateweave/context/compiler.py:397-410 | A concrete budget under which the bundle is empty and carries a warning. |
| `Packing.PickedIsSubsequence` | src/stateweave/context/compiler.py:385-413 | Selected records keep their ranking order. |
| `Packing.CountsAddUp` | src/stateweave/context/compiler.py:385-413 | Selected and skipped records add up to the ranking. |
| `Packing.VerdictsUnique` | src/stateweave/context/compiler.py:385-413 | Ranking and budget determine what becomes of every record. |
| `ContextIndexes.IndexAgreesWithScan` | src/stateweave/context/index.py:131-217 | Main result. Whenever an index built in one state is accepted in a later one, that state is auditable, the accepted revisions, review items and conflicts are those its own audit and scan compute, and the accepted records are those its scan would load if every file were saved again with sorted keys. |
| `ContextIndexes.AcceptedIffUnchanged` | src/stateweave/context/index.py:131-217 | Exactly when a stored index is used: same configuration, date and record files, a sound layout and transaction store, and a file within the read limit, which the writer does not check. |
| `ContextIndexes.EntriesPinFiles` | src/stateweave/context/index.py:168-201 | Entries made in one state and accepted in another force the record files to be the same. |
| `ContextIndexes.SnapshotStands` | src/stateweave/context/index.py:73-82 | The entry list of a snapshot stands for that snapshot and passes every entry check. |
| `ContextIndexes.SnapshotUnique` | src/stateweave/core/audit.py:98-151 | Loading the same files gives the same records and revisions. |
| `ContextIndexes.BuildIndex` | src/stateweave/context/index.py:52-128 | Writes an index exactly when the repository is auditable and the index meets its contract; it holds what the scan loads, every record written with sorted keys. |
| `ContextIndexes.IndexOrders` | src/stateweave/context/index.py:88-108 | The index holds the review items of the audit by due date, id and reason, and its conflicts by left and right record. |
| `ContextIndexes.VerifyIndex` | src/stateweave/context/index.py:131-217 | Accepts exactly when every check holds, size and contract included, and returns what the entries stand for. |
| `ContextIndexes.DigestBindsBody` | src/stateweave/context/index.py:150-152 | Two accepted index files with one digest agree in every field of every entry except for key order. |
| `ContextIndexes.ForgedDigestIsRefused` | src/stateweave/context/index.py:150-152 | An accepted index carries the digest of its own configuration, date, snapshot, review items, conflicts and entries. |
| `ContextIndexes.CheckEntries` | src/stateweave/context/index.py:168-197 | The entry loop accepts exactly when each entry fits its file and no id repeats. |
| `ContextIndexes.LoadRecords` | src/stateweave/core/audit.py:98-151 | Loads exactly when every file can be parsed to a record of the kind its directory is for, valid for that kind, under the file name of its id, and no id repeats. |
| `ContextPaths.SameOnBothPaths` | src/stateweave/context/compiler.py:292-314 | Main result. Offered an index or not, a reader gets the same answer for every query, and the same bundle, whatever the budget, if and only if the index is not accepted or every record keeps its searched text when it is saved again with sorted keys. |
| `ContextPaths.SameQueryOnBothPaths` | src/stateweave/context/compiler.py:110-141 | For one query: equal scores of every record and its re-saved form give equal answers and bundles, and an answer with room for all records is equal only then. |
| `ContextPaths.CanonicalFilesKeepTexts` | src/stateweave/context/index.py:73-127 | A store whose files all are canonical JSON, as every file a batch writes is, keeps its texts. |
| `ContextPaths.UnsortedClaimSplitsPaths` | src/stateweave/context/compiler.py:86-141 | A concrete store and query: a fact whose claim keys are not sorted is scored 34 by the scan and not found through an accepted index of the same files. |
| `ContextPaths.SameScoresSameResults` | src/stateweave/context/compiler.py:165-212 | Two readings of the same records that differ at most in key order give the same answers and bundles if every record is scored alike. |
| `ContextPaths.ProbeSeparates` | src/stateweave/context/compiler.py:165-212 | Two readings that print some record differently give different answers and bundles for some query, under any budget. |
| `ContextQueries.IndexMeansScan` | src/stateweave/context/compiler.py:292-314 | An accepted index means what the scan of the same state means, except that every record has the searched text of its re-saved form. |
| `ContextQueries.IndexNeverWidens` | src/stateweave/context/compiler.py:292-314 | An index is used only where the scan would have succeeded too. |
| `ContextQueries.LoadSnapshot` | src/stateweave/context/compiler.py:292-314 | A snapshot exists exactly when the index is accepted or the repository is auditable, and is the one or the other. |
| `ContextQueries.QueryMemory` | src/stateweave/context/compiler.py:326-359 | Answers with the head of the ranking of that snapshot, its warnings, its conflicts and its digest, exactly when there is a snapshot and that answer meets its contract. |
| `ContextQueries.AnswerIsBest` | src/stateweave/context/compiler.py:337-347 | Every answer has as many matches as the budget and the retrieved records allow, in strict ranking order, each showing its own record, and every retrieved record left out ranks after all of them. |
| `ContextQueries.WarningsOfMatches` | src/stateweave/context/compiler.py:253-289 | An answer or bundle warns of exactly the governed statuses and the review items of its matches. |
| `ContextQueries.AnswerUnique` | src/stateweave/context/compiler.py:326-359 | The snapshot determines the answer. |
| `ContextQueries.Warnings` | src/stateweave/context/compiler.py:253-289 | Exactly the governed statuses and review items of the selected records. |
| `ContextQueries.CompileContext` | src/stateweave/context/compiler.py:362-457 | Bundles the greedy packing of the ranking of that snapshot, exactly when there is a snapshot and that bundle meets its contract. |
| `ContextQueries.BundleConserves` | src/stateweave/context/compiler.py:376-441 | For every store and query: both budgets hold, content_bytes is the sum of the items' sizes, and items plus the five exclusion counts equal the number of records. |
| `ContextQueries.BundleUnique` | src/stateweave/context/compiler.py:362-457 | The snapshot determines the bundle. |
| `Candidates.RunKeepsInv` | src/stateweave/continuity/store.py:544-588 | Main result. In every reachable inbox, crashed ones included, no candidate is stored as promoted and covered by a rejection, every promoted candidate names the digest of its proposed bytes and has a committed batch under its own key, and rejection drift never occurs. |
| `Candidates.OutcomesAreFinal` | src/stateweave/continuity/store.py:608-657 | Over any run no promotion, rejection or proposal is ever undone or altered, and a rejected candidate stays unpromoted. |
| `Candidates.PromotedAsReviewed` | src/stateweave/continuity/store.py:608-657 | A candidate turns promoted only in a promotion by a configured role with human approval and unblocked content; if its confirmed preview was taken earlier, candidate, situation and current revision are still the same, the situation is pending or promotion-needs-reconciliation, and the proposed bytes are in place. |
| `Candidates.InterruptedPromotion` | src/stateweave/continuity/store.py:365-398 | After a crash between the batch and the candidate file, the candidate cannot be rejected while the record is in place, and a newly reviewed promotion writes no record and completes exactly when the journal can be loaded. |
| `Candidates.SpentPromotion` | src/stateweave/continuity/store.py:630-639 | Once the promotion batch of a candidate has been rolled back, by the audit, a failed write or a recovery after a crash, the candidate stays pending in every later state of every run and no promotion of it returns. |
| `Candidates.RejectableUnlessInPlace` | src/stateweave/continuity/store.py:544-588 | A pending candidate can be rejected exactly when the target record does not hold the proposed bytes, even if its batch is committed. |
| `Candidates.RepeatedRejection` | src/stateweave/continuity/store.py:548-561 | Rejecting a rejected candidate again is answered exactly when preview, reason, role and time are those of the decision on disk. |
| `Candidates.StepKeepsInv` | src/stateweave/continuity/store.py:251-268 | Capture, promotion, rejection and any other batch or recovery keep the invariant. |
| `Candidates.PromoteStep` | src/stateweave/continuity/store.py:591-657 | So does a promotion cut short anywhere. |
| `Candidates.CommittedStays` | src/stateweave/core/project.py:195-206 | A committed promotion batch stays committed whatever happens on the disk. |
| `Candidates.PromotionTxDiffers` | src/stateweave/continuity/store.py:630-631 | Different candidates promote under different transaction ids. |
| `CandidateInboxes.CandidateInbox.Persist` | src/stateweave/continuity/store.py:251-268 | A capture whose id is on disk is answered with what is stored, promoted or not, and refused if the request differs; otherwise it is written. |
| `CandidateInboxes.CandidateInbox.Promote` | src/stateweave/continuity/store.py:591-657 | No write unless the confirmed preview is what is on disk now; without faults it succeeds exactly when already promoted, or reviewed and its batch returns. |
| `CandidateInboxes.CandidateInbox.PromoteReviewed` | src/stateweave/continuity/store.py:628-657 | The candidate file changes only after the batch is committed with the proposed bytes. |
| `CandidateInboxes.CandidateInbox.Reject` | src/stateweave/continuity/store.py:528-588 | Writes the decision only when the preview matches and no promotion is in progress; replays only the same decision; without faults succeeds exactly then. |
| `CandidateInboxes.FinishedBatch` | src/stateweave/continuity/store.py:632-640 | A promotion batch returns only from situation pending or promotion-needs-reconciliation. |
| `CandidateInboxes.BatchOutcome` | src/stateweave/core/project.py:141-206 | Exactly when a promotion batch returns: the replay holds, or the batch is admitted and its result passes the audit. |
| `CandidateInboxes.Handle` | src/stateweave/continuity/store.py:528-657 | The methods perform the steps of the run model. |
| `CaptureVaults.AuditChains` | src/stateweave/capture/store.py:405-451 | Main result. Reports nothing exactly when the envelopes of every source form one simple path of distinct cursors from the null cursor, with the checkpoint at its end, and no checkpoint is without envelopes. |
| `CaptureVaults.AuditSource` | src/stateweave/capture/store.py:414-448 | The same for one source; the walk ends on every input. |
| `CaptureVaults.IndexStarts` | src/stateweave/capture/store.py:415-423 | Reports a fork exactly when two envelopes start at the same cursor. |
| `CaptureVaults.WalkChain` | src/stateweave/capture/store.py:424-434 | The loop follows the index from the null cursor until no envelope starts at the cursor or one comes up again, and tells which. |
| `CaptureVaults.WalkAlong` | src/stateweave/capture/store.py:424-434 | Where there is such a path, the walk can only follow it. |
| `CaptureVaults.WalkIsChain` | src/stateweave/capture/store.py:424-434 | A walk that ends without a cycle is a path of distinct cursors. |
| `CaptureVaults.AuditSeesVault` | src/stateweave/capture/store.py:405-451 | The audit of a store's envelopes, listed in any order, passes exactly when every chain is sound. |
| `CaptureVaults.GroupBySource` | src/stateweave/capture/store.py:410-413 | Groups the envelopes by source without losing or reordering any. |
| `CaptureVaults.CaptureVault.Ingest` | src/stateweave/capture/store.py:266-340 | Whatever faults strike, the store is left after some number of the writes of one ingest; without faults it succeeds exactly when the request is acceptable, admitted and its candidate ids are free or its own. |
| `CaptureVaults.CaptureVault.PersistCandidates` | src/stateweave/capture/store.py:333-334 | Candidates are persisted in order, and existing ones are kept. |
| `CaptureVaults.Serve` | src/stateweave/capture/store.py:266-340 | Any list of captures, promotions, rejections, batches and recoveries on one store is such a run, whatever the faults, and keeps the candidate invariant. |
| `CaptureVaults.Perform` | src/stateweave/capture/store.py:266-340 | One call is one act of the run model. |
| `Captures.CrashThenReplay` | src/stateweave/capture/store.py:311-340 | Main result. After a crash between any two writes, replaying the request before another one from its source leaves the envelope, checkpoint and candidates of an uninterrupted run, and resets no candidate promoted in between. |
| `Captures.ReplayIsWholeRun` | src/stateweave/capture/store.py:311-340 | With nothing in between, crash and replay equal the uninterrupted run exactly. |
| `Captures.PersistResumes` | src/stateweave/continuity/store.py:251-268 | Persisting again from any interrupted state completes the same candidates and resets none. |
| `Captures.ResumesWithoutClash` | src/stateweave/continuity/store.py:251-268 | A replay meets an id conflict only if the first attempt had one. |
| `Captures.IngestKeepsSound` | src/stateweave/capture/store.py:311-340 | An uninterrupted ingest of a new request keeps every chain sound if and only if its after cursor is new to its source; a request already there changes no envelope and no checkpoint. |
| `Captures.AcceptedContent` | src/stateweave/capture/store.py:93-114 | A request is taken exactly when its event ids differ, its cursor moves, neither the request nor any event's record is blocked by content policy, and an event creates exactly when it expects no revision. |
| `Captures.StoredAsSent` | src/stateweave/capture/store.py:287-309 | After an ingest the envelope holds the request with one binding per event, for each event a candidate proposes just what the event says and names the envelope, and the checkpoint has moved to the after cursor. |
| `Captures.SoundIffOnTrack` | src/stateweave/capture/store.py:311-340 | Main result. Over every run of requests cut short anywhere and of anything else, exactly when all chains are sound: no source is half-written now, and never was a new envelope filed for a half-written source or with a cursor its source had used. Before the first such envelope every source lacks at most the checkpoint of its last envelope. |
| `Captures.TraceStep` | src/stateweave/capture/store.py:311-340 | One act that files no such envelope, cut anywhere, keeps every source on track. |
| `Captures.DerailedForks` | src/stateweave/capture/store.py:325-339 | A new envelope for a half-written source, or with a used cursor, forks the chain at once. |
| `Captures.ForkedStays` | src/stateweave/capture/store.py:405-451 | A forked chain stays forked, whatever is filed later, and is unsound. |
| `Captures.CompletedInTrace` | src/stateweave/capture/store.py:311-340 | A request admitted at one point of a run and completed later, however often it was cut in between, leaves the envelope, checkpoint and candidates of an uninterrupted run and resets no candidate promoted before the completing replay. |
| `Captures.CutAgain` | src/stateweave/capture/store.py:311-340 | A replay that is cut again leaves the store on the way of the first attempt. |
| `Captures.UnreplayedCrashForks` | src/stateweave/capture/store.py:325-339 | A crash between envelope and checkpoint followed by a different request from the same cursor: the second is admitted, and the chain is never sound again. |
| `Captures.ForksAreUnsound` | src/stateweave/capture/store.py:416-421 | Two envelopes of a source with a common before or after cursor rule out a sound chain. |
| `Captures.SoundCursors` | src/stateweave/capture/store.py:405-451 | In a sound chain every envelope starts where another ends, and none starts at the checkpoint. |
| `Captures.ExtendSound` | src/stateweave/capture/store.py:311-340 | An envelope that starts at the checkpoint and ends at a new cursor extends a sound chain. |
| `ContentInspection.Inspect` | src/stateweave/content/policy.py:55-117 | Main result. The explicit-stack loop reports, sorted and without repeats, exactly what the recursive sorted-key walk prescribes. |
| `ContentInspection.Collect` | src/stateweave/content/policy.py:61-112 | The stack visits the tree in the order of the recursive walk, up to the first broken bound. |
| `ContentInspection.PushParts` | src/stateweave/content/policy.py:74-81 | Pushing the parts of a value in reverse leaves exactly its walk to be done next. |
| `ContentInspection.LimitIffTooBig` | src/stateweave/content/policy.py:63-94 | An inspection_limit finding is reported exactly when the tree exceeds the node or text bound; otherwise the findings are those of the walk. |
| `ContentInspection.ReportEnds` | src/stateweave/content/policy.py:63-94 | Where the walk first breaks a bound the report ends, with that bound named. |
| `ContentInspection.UnblockedIffClean` | src/stateweave/content/policy.py:95-103 | A payload is unblocked exactly when it fits both bounds and no string inside it, however deep, matches the secret patterns. |
| `ContentInspection.ReportNamesStrings` | src/stateweave/content/policy.py:95-112 | Of a payload within both bounds the report names, under the path that leads to it and its own code, every string that matches a pattern, and nothing else. |
| `ContentInspection.WarnsIffInstruction` | src/stateweave/content/policy.py:104-112 | A payload within both bounds is warned about exactly when some string in it, however deep, is shaped like an instruction. |
| `ContentInspection.WalkVisitsAll` | src/stateweave/content/policy.py:61-83 | The walk visits exactly the values inside the tree, each under the path that leads to it: a dot and the name of each field, and the index of each item in brackets. |
| `Orders.DecimalReadsBack` | src/stateweave/content/policy.py:79-80 | An index in a path is written with digits only and without leading zeros, and reads back as itself. |
| `Backups.RoundTrip` | src/stateweave/core/backup.py:174-243 | Main result. A backup reads back if and only if every name is portable, none is the manifest's and the manifest fits; and then manifest and payloads are the originals. |
| `Backups.MakeManifest` | src/stateweave/core/backup.py:95-126 | Succeeds exactly when the size limits hold, with one entry per file in path order. |
| `Backups.TotalAdds` | src/stateweave/core/backup.py:100-111 | The running total is the sum of the file lengths, however the listing is split. |
| `Backups.ReadVerifiedBackup` | src/stateweave/core/backup.py:174-243 | Accepts exactly the intact archives and returns what they carry under the manifest's names. |
| `Backups.ReadEntries` | src/stateweave/core/backup.py:204-239 | The entry loop accepts exactly when every entry is safe, unrepeated, present, regular, within the limits and matches size and digest. |
| `Backups.PortableHolds` | src/stateweave/core/backup.py:204-239 | With portable names every entry of a fresh backup holds. |
| `Migrations.Project.ApplyMigration` | src/stateweave/core/migrations.py:172-240 | Main result. Returning means the plan ran to its end and the files are its result. A raise without a rollback-failed error has changed the files if and only if, before the call, the plan was bound to run to its end with every write working but the closing journal write, and its result differs. If a planned file is missing, unreadable or no longer has its planned content, the call never returns, and without faults an intact backup puts every file back. The process dies exactly when the last write it got to ended it. Nothing outside the plan ever changes and the backup of the old files is kept. |
| `Migrations.Project.Perform` | src/stateweave/core/migrations.py:199-240 | The same from the applying journal on: returning and raising at the closing write each exactly when the plan succeeds, every earlier write works, and the closing write works or fails. |
| `Migrations.RaiseAfterMigrating` | src/stateweave/core/migrations.py:237-240 | A concrete project, one-change plan and fault function for which the call raises, reports no failed rollback and has changed the file. |
| `Migrations.OneChangeCloseFails` | src/stateweave/core/migrations.py:237-240 | That input meets the exact condition. |
| `Migrations.Project.WriteRecords` | src/stateweave/core/migrations.py:200-212 | Writes a prefix of the plan, each record only if it has not drifted. |
| `Migrations.Project.RestoreOver` | src/stateweave/core/backup.py:326-339 | Writes back every member of a verified backup; any failure leaves each file old or restored. |
| `Migrations.PlannedExactly` | src/stateweave/core/migrations.py:200-210 | A plan with distinct paths that ran to its end changed exactly its files, each from its planned content to its planned bytes. |
| `Migrations.DriftIsSeenBefore` | src/stateweave/core/migrations.py:200-209 | For distinct paths, all drift checks along the way pass exactly when, before the call, every planned file is there, can be read and has the planned canonical form. |
| `Migrations.SucceedsIff` | src/stateweave/core/migrations.py:199-217 | For distinct paths a plan runs to its end exactly when nothing has drifted before the call, the result is valid, and no failure is injected within the number of its records. |
| `Migrations.RollbackNeedsPortableNames` | src/stateweave/core/migrations.py:218-231 | Exactly when the rollback of a failed migration can succeed. |
| `Migrations.RestoreBetween` | src/stateweave/core/backup.py:326-339 | A rollback writes the old bytes file by file and ends with exactly the old files. |
| `PairedGates.AdvantageIsImplied` | scripts/run_codex_value_experiment.py:1176-1178 | The first conjunct of the gate is implied by the second. |
| `PairedGates.HalfIffAdvantage` | scripts/run_codex_value_experiment.py:1086-1092 | The value is at most one half exactly when wins outnumber losses. |
| `PairedGates.PValueInRange` | scripts/run_codex_value_experiment.py:1086-1092 | It lies in (0, 1]. |
| `PairedGates.PValueFalls` | scripts/run_codex_value_experiment.py:1086-1092 | It falls strictly when a loss becomes a win. |
| `PairedGates.TailMirror` | scripts/run_codex_value_experiment.py:1086-1092 | The tail and the tail of its mirror image add up to all outcomes. |
| `PairedGates.TailAll` | scripts/run_codex_value_experiment.py:1086-1092 | All outcomes are counted: the full tail is a power of two. |
| `PairedGates.ChooseIsFactorials` | scripts/run_codex_value_experiment.py:1090-1092 | The binomial coefficient is the quotient of factorials. |
| `PairedGates.NinePairs` | scripts/run_codex_value_experiment.py:1176-1178 | With at most nine pairs the gate passes exactly for five or more wins without a loss, or seven or more with one. |
| `PairedGates.CountPairs` | scripts/run_codex_value_experiment.py:1136-1147 | Counts every discordant pair once, on the side that succeeded. |
| `PairedGates.PairedCheck` | scripts/run_codex_value_experiment.py:1136-1178 | The paired check of a three-task campaign, in terms of the cells. |

## Left out

- Schema validation and the date-time checks of section 5.6 of RFC 3339: a validity predicate, chosen freely.
- File systems below one named file: temporary files of atomic writes, fsync, permissions, symbolic links, Windows sharing retries. A write replaces its file or does nothing.
- Asynchronous interrupts after the commit write: the handler of src/stateweave/core/project.py:312 would then start to undo a committed transaction.
- Record paths and layout: a record is addressed by its id, so the checks that a journal path matches the id's destination have no counterpart.
- JournalSizes.JournalBytes: the two time stamps of a journal are taken to be of one length; the program prints microseconds only when they are not zero. Paths, ids and exception names are taken to be plain characters of one byte that need no escape, and an exception name of more than 200 characters, which would make a rolled-back journal invalid, does not occur.
- Transactions.CheckRequest: which defect is named when a request has several; the program goes through the payloads one by one.
- Transactions.Replay: the loop of `_idempotent_replay` only reads, and is a recursive function here.
- Transactions.StoreClean: `inspect_transaction_store` is stated by when it reports nothing; the texts and order of its messages, journals damaged from outside and stray directory entries are not modelled.
- WriterLocks.Next: the lock is a state machine over its file system steps, not an object, because the statement is about many processes; timeouts, polling and the age policy only decide when a step is tried.
- Regular expressions for secrets, instruction-shaped text, tokens and identifiers: predicates, chosen freely.
- Ranking.RankRecords: the filter is a free function of the record's value, and lexical score and reasons are a free function of value and searched text, so the substring tests and the weights behind them are not modelled. The query of ContextPaths.ProbeSeparates compares a whole text, where a term of the program has at most 200 characters and ignores case; for one given query the condition is that of ContextPaths.SameQueryOnBothPaths.
- ContextIndexes.Reparses: strings with unpaired surrogates, which the program parses but cannot write, do not occur.
- Conflicts.AuditSupersession: references, backlinks, state items and the expiry rule of facts are not part of the audit modelled here; the index and query modules take the whole audit as a parameter.
- ContextQueries.QueryMemory: outside edits while a query runs, which `_verify_snapshot` would detect, do not happen in the model; message texts are not modelled, and the contracts of the results are free predicates.
- ContextQueries.CompileContext: a content inspector sees the record as a JSON value; one that depends on key order, which the built-in one does not, could tell the two reading paths apart as well.
- Candidates.PreviewOf: `changed_fields` follows from the two contents whose digests the preview carries and is not repeated; target files that are not JSON objects or are over the record limit are not modelled.
- Candidates.SituationOf: the situation for a target that is a symbolic link or a directory.
- CaptureVaults.CaptureVault.Ingest: validation of stored envelopes and checkpoints, the 16 MiB limit for reading them and candidate files (the built-in inspector blocks content long before, a project's own inspector need not), and the audit of candidate bindings and orphans, which compare one file with another.
- ContentInspection.Walk: numbers are integers, which the inspector never looks into.
- Backups.ReadVerifiedBackup: ZIP encoding; an archive is a list of named members. Restoring into a new directory is left out.
- Migrations.Project.ApplyMigration: planning and the legacy fact conversion; a plan is given. Files outside the backed-up areas are not part of the project's files.
- PairedGates.PValue: floating point; the value is an exact rational.
- Adoption, the Codex bridge, episode ledgers, policy packs, telemetry, task routing and the execution audit: not modelled; most make one check before one write, under the same lock.
- `apply_mutation_plan`: it reads result hashes outside the lock after its batch and promises nothing beyond the transaction it calls.
- The command line, onboarding texts, plugin scripts, benchmark timing and the experiment's subprocess runner.
