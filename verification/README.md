# chkit: ingestion, planning and backfill, proved

A Dafny 4.11 model of the three parts of chkit that must survive failure or decide order, with proofs
about all inputs, all runs and all reachable states. `dafny verify dfyconfig.toml` checks everything.

## What is modelled

**Crash-recoverable ingestion** (`packages/plugin-ingest`). A reader is pulled through a bounded queue into
a loader; every batch goes to the sink under a deterministic token, and only then is a `batch_committed` fact
appended to the journal. `Digest` and `Journal` hold the identities, the validator and the two projections
of the checkpoint. `Appends` is the serialized, poisoning append chain. `Batching` and `Loading` are the
producer loop and the token-deduplicating sink, `BatchContents` what each batch holds. `Ingestion` puts them
together as a step machine: producer and consumer interleave with inserts and journal writes that land or lose their answer (a message once sent
may land later, any number of times), in-process retries, abandoned attempts, cancellation, crashes and
restarts. `IngestionInvariant`, `IngestionSteps` and `IngestionSafety` prove its invariant over every run;
`IngestionGuarantees`, `IngestionContent` and `IngestionBuffers` draw the conclusions. `Replay` and
`ExactlyOnce` prove that a replay-deterministic reader leaves each batch of a sync in the destination exactly
once when every batch carries the state of its last chunk; `SyncRuns` builds runs of a sync step by step, and
`Misaligned` uses them to prove that the condition is needed, `BudgetCuts` why a chunk budget needs chunks with
ids. `Executor` holds the imperative side, the classes `StreamProgress` and `JournalStore` with `append`,
`loadBatch` and `consume`, proved against the same functions and against the facts they leave in the journal. `BoundedQueue` is the queue with its wake list.
`Window` runs the step machine with the timestamp strategy, `WindowRuns` lets one execution follow another.

**Migration planner** (`packages/core`, `packages/codegen`). `DiffPrimitives`, `RenameSuggestions`,
`DependencyDepth`, `StableSort` and `Planner` are the diff, the rename inference, the memoised depth search
and the final sort. `PlanReplay` interprets the planned operations over a catalogue of objects and their
parts and proves that the plan is accepted statement by statement and reaches its target; `PlanFacts` says
when a plan is empty and when a target can be reached at all, `PlanOrder` what stands before what and what is
in place when a query is deployed. `CanonicalPlan` joins the canonical schemas to the planner's. `Canonical`,
`CanonicalList`, `Intervals`, `KeyClause`, `Projection` and `Codec` are the canonical forms, printers and parsers, character by character;
`ProjectionClean` and `ProjectionExact` prove exactly when the index normaliser is idempotent, on every text.
`TextForms`, `ExpressionGrammar`, `ProjectionGrammar` and `CanonMeaning` say what these forms mean without naming
them: words, written lists, and the fields of a definition. `SqlText` and `MigrationFile` are the statement
extractor and the file writer it undoes, `StatementGrammar` the statements as they are written, `OnCluster` the
clause injector and `PlannedSql` the statement heads it meets.

**Backfill** (`packages/plugin-backfill` and `chkit_python`). `Backfill` holds the per-chunk transitions,
reconciliation and polling; `BackfillRuns` and `BackfillSafety` the machine of server executions, processes,
state file, crashes, resumes and replays, `BackfillSync` the step between the two; `ThreadedProgress` the
two-lock snapshot protocol of the Python port.

The environment is a parameter throughout: readers, clocks, cutoffs, locale comparison, the fate of every
insert and journal write, and the schedule are universally quantified.

## Where the code falls short of its promise

Each of these is a proved lemma: a witness, and where the condition is known exactly, an "if and only if".

- `Journal.ZeroFillsAHole`: the validator counts sequence numbers, so a fact numbered 0 hides a hole. The
  executor starts at 1, which is why histories are safe.
- `Appends.LateLandingBreaksHistory`: a write landing after the next process has read the journal collides; the
  run is given.
- `Misaligned.ExactlyOnceIffAligned`: rows are stored exactly once in every successful run if and only if every
  batch with state takes it from its last chunk. Otherwise `Misaligned.StrayBatchRepeatsRows` gives the run that
  stores them twice; `Replay.RegroupableIsAligned` gives shapes of a source that are safe for every batch size.
- `BackfillSafety.UnflushedLogRunsTwice`, `BackfillSafety.SyncFindsSuccessExactlyWhenLogged` and
  `BackfillSafety.StaleFailureIff`: what an unflushed query log costs; `BackfillSafety.StaleFailureIsReported` is
  the run in which a chunk that succeeded is recorded as failed.
- `BackfillSafety.CancelledIsNotAbsorbing`: a process still running overwrites a cancellation and the run ends
  as completed; `BackfillSafety.CancelHoldsUntilResume` says when a cancellation does hold.
- `PlanFacts.ReachedIff`: validation compares keys that hold the kind, so a table and a view of one name pass it,
  and then no plan reaches the target.
- `PlanFacts.SharedKeyIff` and `PlanFacts.SharedKeyPlansNothing`: keys are joined with dots, so names with dots in
  the database can share one, and then nothing is planned between them.
- `PlanFacts.PlaceholderIsDeployed`: a `[HIDDEN]` source never causes a replace but travels with one, although
  the comment above it says that the literal must not be deployed.
- `CanonicalPlan.BlankTtlIsPlanned`: a TTL written as nothing but spaces plans a statement that sets an empty TTL.
- `Canonical.CanonSettlesIff`: the exact definitions with a stable canonical form; blank optional texts, engines with
  two `Shared` prefixes or a space behind the prefix, and some index projections have none.
- `ProjectionExact.IdempotentIff`: the index normaliser, which documents that it must be idempotent, is so exactly
  on these texts; `ProjectionLimits.UnbalancedChanges` and `ProjectionLimits.EmptyElementChanges` are families on
  which it is not.
- `BudgetCuts.BudgetCutRepeatsRows`: a chunk budget that ends a reading in the middle of a batch without state makes
  the next attempt store the rows of that batch again.
- `WindowRuns.EarlyClaimLeavesGap`: a reader of a windowed stream that yields state before its last chunk commits a
  watermark over rows that were not loaded.
- `RenameSuggestions.SuggestionsAreExact`: only the added side is checked for ambiguity, so of several dropped
  columns with one signature the first is suggested; `RenameSuggestions.AmbiguousSourceIsSuggested` is a witness.
- `StatementGrammar.QuoteClosesIff`: a single-quoted text that ends in an escaped backslash is not seen to close, so the
  statement swallows what follows it.
- `Codec.RoundTripIff`: a raw codec beside typed ones comes back as one raw codec.
- `BoundedQueue.LatePushOutlivesTheEnd`: a push behind `close` is accepted, so an item can be left behind the end;
  `BoundedQueue.EndMeansDrained` says exactly when the end is final.
- `Window.WatermarkMovesBackIff` and `WindowRuns.WatermarkMovesBack`: with an overlap, a clock that went back a
  little moves the watermark back.

## Model

| member | source | states |
|---|---|---|
| Digest.ComputeDigest | packages/plugin-ingest/src/journal.ts:221-229 | the hashing loop feeds exactly the length-prefixed encoding of the parts |
| Digest.FrameInjective | packages/plugin-ingest/src/journal.ts:221-229 | two lists of parts with one encoding are the same list, whatever characters the parts hold |
| Digest.BatchIdInjective | packages/plugin-ingest/src/executor.ts:377-412 | a batch id determines namespace, last success, version, position and discriminator |
| Digest.DecimalReads | packages/plugin-ingest/src/journal.ts:221-229 | a printed number is digits without a leading zero and stands for itself |
| Journal.PayloadDetermines | packages/plugin-ingest/src/journal.ts:157-197 | equal payload hashes mean equal facts, so a retry repeats a fact or is detected |
| Journal.ValidatorAcceptsExactlyHistories | packages/plugin-ingest/src/journal.ts:73-153 | from sequence 1 on, the validator accepts a stored history if and only if sequences are 1..head, one fact each, and commits chain by at most one; then it returns the projection |
| Journal.ZeroFillsAHole | packages/plugin-ingest/src/journal.ts:73-99 | the condition on sequence numbers is needed: 0 and 2 pass as a history |
| Journal.DuplicateKeepsHistory | packages/plugin-ingest/src/journal.ts:73-153 | a further physical copy of a stored fact changes neither validity nor checkpoint |
| Journal.NextFactKeepsHistory | packages/plugin-ingest/src/journal.ts:100-152 | the next fact keeps the history valid and moves head, version, envelope and last success as its fields say |
| Journal.LastSuccessIs | packages/plugin-ingest/src/journal.ts:97-111 | the last success is the highest sequence number of a stored success, 0 while there is none |
| Journal.CheckpointIsTheLastCommit | packages/plugin-ingest/src/journal.ts:97-111 | version and envelope are those of the commit with the highest sequence number, empty while nothing is committed |
| Journal.ProjectionsAgree | packages/plugin-ingest/src/testing.ts:27-39 | on every history the validator accepts, the in-memory projection equals the journal's |
| Journal.ProjectionsDifferOnADamagedHistory | packages/plugin-ingest/src/testing.ts:27-39 | on a history with a second writer they differ, and the validator refuses it |
| Appends.EveryHistoryIsValid | packages/plugin-ingest/src/executor.ts:502-543 | every history one process at a time can leave, over ambiguous appends, retries, cancellation, crashes and restarts, passes the validator, and both projections agree on it |
| Appends.CheckpointIsReadable | packages/plugin-ingest/src/journal.ts:73-153 | in every state of the append chain the checkpoint is read, never refused |
| Appends.LateLandingBreaksHistory | packages/plugin-ingest/src/executor.ts:502-543 | the assumption on restarts is needed: a run of seven steps in which a fact lands after the next process has read, and the journal is refused |
| Batching.Produce | packages/plugin-ingest/src/executor.ts:306-375 | the producer loop pushes exactly the specified batches, throws on an oversized chunk and ends at the chunk budget without the completion state |
| Batching.RowsConserved | packages/plugin-ingest/src/executor.ts:306-375 | pushed rows followed by held rows are the rows read, in order |
| Batching.PushesCover | packages/plugin-ingest/src/executor.ts:306-375 | the first k pushes carry exactly the rows of the chunks up to the last of them |
| Batching.IntervalIsItsOwnBatch | packages/plugin-ingest/src/executor.ts:306-375 | a chunk with an id never shares a batch with another chunk's rows |
| Batching.BatchesBounded | packages/plugin-ingest/src/executor.ts:306-375 | a batch holds at most batchSize - 1 + maxChunkRows rows, what is held less than batchSize |
| Batching.ReplayRegroups | packages/plugin-ingest/src/executor.ts:306-375 | reading again from behind any pushed batch regroups the rest identically |
| Batching.StateIsOfAReadChunk | packages/plugin-ingest/src/executor.ts:306-375 | a batch carries the state of a chunk that was read by then |
| BatchContents.BatchesTellTheirChunks | packages/plugin-ingest/src/executor.ts:306-375 | every batch holds the rows of the chunks between the mark of the batch before and its own, their ids if and only if all of them have one, and the state of the last one that has a state; what is held tells the rest |
| Loading.Load | packages/plugin-ingest/src/loader.ts:16-46 | a load succeeds exactly when every unit is acknowledged, and otherwise leaves a prefix of the units |
| Loading.InsertsCoverBatch | packages/plugin-ingest/src/loader.ts:23-37 | the write units cut the batch in order, none empty, none above maxRowsPerInsert, tokens numbered from 0 |
| Loading.ReplayAfterPartialWrite | packages/plugin-ingest/src/testing.ts:44-57 | repeating a write after any partial one leaves what one uninterrupted write leaves |
| Loading.MemoryDestination.Insert | packages/plugin-ingest/src/testing.ts:44-57 | an insert under a known token leaves the destination as it was, a new one appends its rows |
| IngestionSafety.StepKeeps | packages/plugin-ingest/src/executor.ts:201-543 | every step of producer, consumer, sink, journal, retry, abandonment, cancellation, crash and restart keeps the invariant |
| IngestionSafety.EnvelopeIsCarried | packages/plugin-ingest/src/executor.ts:377-436 | the committed envelope carries the state of a batch that was loaded |
| IngestionSafety.StartIsTheCheckpoint | packages/plugin-ingest/src/executor.ts:201-231 | a reader is created from exactly the committed checkpoint, whatever is still travelling |
| IngestionGuarantees.LoadedIsCovered | packages/plugin-ingest/src/executor.ts:377-412 | what an attempt loaded is exactly the rows read so far, all acknowledged, and its state was earned by them |
| IngestionGuarantees.NoUnacknowledgedCheckpoint | packages/plugin-ingest/src/executor.ts:280-436 | in every reachable state the journal is readable and its checkpoint covers only acknowledged rows, back to the first attempt |
| IngestionGuarantees.SuccessMeansEverything | packages/plugin-ingest/src/executor.ts:201-273 | a recorded outcome `succeeded` means every yielded row was acknowledged and every batch committed |
| IngestionGuarantees.CommitIsNeverRefused | packages/plugin-ingest/src/executor.ts:502-543 | a commit waiting in the chain always follows the stored version and envelope |
| IngestionGuarantees.RestartIsNeverRefused | packages/plugin-ingest/src/executor.ts:201-220 | after any run and any crash a new process can read the checkpoint and start |
| IngestionContent.AcknowledgedMeansStored | packages/plugin-ingest/src/executor.ts:440-489 | with identities that hold the content, every unit of a loaded batch is in the destination, in every reachable state |
| IngestionContent.TokenMeansRows | packages/plugin-ingest/src/loader.ts:23-37 | an accepted token stands for exactly the rows of the batch that has it |
| IngestionBuffers.BufferedRowsAreBounded | packages/plugin-ingest/src/executor.ts:306-375 | the rows between reader and loader have a fixed bound in the queue capacity, in every reachable state |
| Replay.RegroupableIsAligned | packages/plugin-ingest/src/executor.ts:306-375 | every chunk with an id, every chunk with state, or none with state: then every batch carries the state of its last chunk |
| Replay.RestartRecomputes | packages/plugin-ingest/src/executor.ts:201-231 | from any checkpoint a process can find, the reader recomputes exactly the missing batches |
| Replay.IdsDiffer | packages/plugin-ingest/src/executor.ts:377-412 | no two batches of a sync share an id |
| Replay.TokensDiffer | packages/plugin-ingest/src/loader.ts:23-37 | no two write units of a sync share a token |
| Replay.UnitsAreTheSource | packages/plugin-ingest/src/loader.ts:23-37 | the units of a sync are the rows of the source, in order, each once |
| ExactlyOnce.NeverTwiceNeverOutOfOrder | packages/plugin-ingest/src/executor.ts:377-489 | when every batch with state takes it from its last chunk: at every moment of every run the destination holds a prefix of the units of the sync, none twice, none out of order |
| ExactlyOnce.SuccessIsExactlyOnce | packages/plugin-ingest/src/executor.ts:201-489 | under the same condition, once a success of the sync is recorded the destination holds every row of the source exactly once and in order |
| ExactlyOnce.RegroupableIsExactlyOnce | packages/plugin-ingest/src/executor.ts:201-489 | so it is for every batch size when every chunk has an id, every chunk has state, or none has |
| Misaligned.StateIsOfAnOwnChunk | packages/plugin-ingest/src/executor.ts:306-375 | a batch takes its state from a chunk of its own |
| Misaligned.StrayBatchRepeatsRows | packages/plugin-ingest/src/executor.ts:201-489 | for every sync with a batch that resumes in front of its last chunk there is a successful run, with one crash, that stores the chunks in between twice and everything else once |
| Misaligned.ExactlyOnceIffAligned | packages/plugin-ingest/src/executor.ts:201-489 | when every chunk holds a row, all successful runs store every row once if and only if every batch with state takes it from its last chunk |
| Misaligned.TwoChunksStray | packages/plugin-ingest/src/executor.ts:306-375 | two chunks in one batch, the first with state and the second without, are such a sync |
| BudgetCuts.BudgetCutRepeatsRows | packages/plugin-ingest/src/executor.ts:306-375 | whenever a chunk budget ends a reading behind chunks still held back without state, and the discriminator tells that batch from the one they belong to, there is a successful run that stores those chunks twice |
| ExactlyOnce.FirstSyncStarts | packages/plugin-ingest/src/executor.ts:201-231 | the first execution of a stream meets the starting condition |
| ExactlyOnce.LaterSyncStarts | packages/plugin-ingest/src/executor.ts:201-231 | so does the execution that first reads a new success, after any run |
| Executor.StreamProgress.constructor | packages/plugin-ingest/src/executor.ts:201-220 | progress starts at the committed head, version, envelope and last success |
| Executor.JournalStore.Insert | packages/plugin-ingest/src/journal.ts:48-72 | one journal insert: stored or not, answered or not |
| Executor.StartStream | packages/plugin-ingest/src/executor.ts:201-220 | starting on a history the protocol left always succeeds and agrees with its projection, last success included |
| Executor.SendFact | packages/plugin-ingest/src/executor.ts:505-543 | the tries of one fact: confirmed if one is answered, stored as often as tries landed |
| Executor.ConfirmedIff | packages/plugin-ingest/src/executor.ts:502-543 | a fact is confirmed if and only if one of its four tries is answered |
| Executor.Append | packages/plugin-ingest/src/executor.ts:505-543 | an append takes the next sequence number, moves it only when confirmed, and poisons the chain otherwise; the history stays valid either way |
| Executor.LoadBatch | packages/plugin-ingest/src/executor.ts:440-489 | retried loads of one batch leave the destination as one uninterrupted write up to the furthest unit |
| Executor.FinishesIff | packages/plugin-ingest/src/executor.ts:440-489 | a load goes through if and only if one of its three tries is acknowledged to the end |
| Executor.CommitBatch | packages/plugin-ingest/src/executor.ts:385-412 | version, envelope and position move exactly when load and append go through; whatever the append stored is one fact, given field by field: its number, execution, work, attempt, the batch id in the tokens of the loaded units, expected and new version, checkpoint, sink evidence and counts |
| Executor.Consume | packages/plugin-ingest/src/executor.ts:377-412 | the consumer commits exactly the longest prefix of batches that goes through, under their planned identities, and keeps the journal valid; behind a failure the destination holds that prefix and what the tries of the next batch reached; the journal gains a fact for every committed batch, under the batch id whose tokens the destination holds, and otherwise at most copies of the one that failed |
| Executor.ConsumerFollowsPlan | packages/plugin-ingest/src/executor.ts:377-412 | fed a sync's plan, the consumer stands where the plan says and uses the plan's batch ids |
| BoundedQueue.Queue.constructor | packages/plugin-ingest/src/queue.ts:9-15 | the queue starts open and empty, its capacity is at least 1 |
| BoundedQueue.Queue.Push | packages/plugin-ingest/src/queue.ts:31-39 | one turn of a pushing caller: abort, wait while full, or append and wake |
| BoundedQueue.Queue.Pop | packages/plugin-ingest/src/queue.ts:40-50 | one turn of a popping caller: an item first, then end or abort, else wait |
| BoundedQueue.Queue.Close | packages/plugin-ingest/src/queue.ts:51-56 | closing wakes everyone and keeps the items |
| BoundedQueue.FirstInFirstOut | packages/plugin-ingest/src/queue.ts:9-56 | over every interleaving what was popped is a prefix of what was pushed, and the rest never exceeds max(1, capacity) |
| BoundedQueue.NoLostWakeUp | packages/plugin-ingest/src/queue.ts:9-56 | a sleeping pusher means full, a sleeping popper empty and open, both are registered, and the two kinds never sleep together |
| BoundedQueue.EndMeansDrained | packages/plugin-ingest/src/queue.ts:31-56 | when a pop reports the end everything pushed was handed out, over every interleaving; later items are those pushed behind that end, and without one nothing is left |
| BoundedQueue.LatePushOutlivesTheEnd | packages/plugin-ingest/src/queue.ts:31-56 | for every capacity there is a run in which an item pushed behind the end is accepted, waits with nobody to take it, and is handed out by a further pop |
| Window.NoGapBelowTheWatermark | packages/plugin-ingest/src/incremental.ts:76-94 | in every reachable state of the ingestion protocol the committed watermark ends a window all of whose rows were acknowledged, and every moment from the start to it lies in such a window |
| Window.NoGapBelowAnyWatermark | packages/plugin-ingest/src/incremental.ts:76-94 | the same for every watermark any stored fact ever committed |
| Window.WindowsMeet | packages/plugin-ingest/src/incremental.ts:76-94 | every attempt of every run reads from the configured start while nothing is committed, and otherwise from exactly the overlap before the end of an earlier attempt's whole window, up to its own cutoff |
| Window.WatermarkMovesBackIff | packages/plugin-ingest/src/incremental.ts:76-94 | every stored watermark is its execution's cutoff, and lies before the one it started from if and only if that cutoff does, by no more than the overlap |
| WindowRuns.WatermarkMovesBack | packages/plugin-ingest/src/incremental.ts:76-94 | whenever the second cutoff lies before the first by no more than the overlap there is a run of two successful executions after which the watermark is the earlier one |
| WindowRuns.EarlyClaimLeavesGap | packages/plugin-ingest/src/executor.ts:306-375 | whenever a batch of the first attempt carries state and rows are still to come, there is a run that commits its watermark with no window loaded whole |
| StableSort.SortSorts | packages/core/src/planner.ts:632-652 | under a total preorder the sort's result is sorted |
| StableSort.SortIsPermutation | packages/core/src/planner.ts:632-652 | sorting only permutes |
| StableSort.FilterSort | packages/core/src/planner.ts:632-652 | sorting commutes with picking elements out, which is stability |
| DiffPrimitives.DiffByName | packages/core/src/diff-primitives.ts:13-56 | the loops return the added, changed and removed items in their orders |
| DiffPrimitives.AddedExactly | packages/core/src/diff-primitives.ts:13-56 | an item is reported added if and only if it is new by name |
| DiffPrimitives.RemovedExactly | packages/core/src/diff-primitives.ts:13-56 | an item is reported removed if and only if its name is gone |
| DiffPrimitives.ChangedExactly | packages/core/src/diff-primitives.ts:13-56 | a change is reported if and only if the name stayed and the value differs |
| DiffPrimitives.DiffSettings | packages/core/src/diff-primitives.ts:58-85 | a reset for every setting that is gone and a change for every other difference, by key |
| RenameSuggestions.InferColumnRenameSuggestions | packages/core/src/planner.ts:216-262 | the grouping and consuming loops return the sorted suggestions of the specification |
| RenameSuggestions.SuggestionsAreExact | packages/core/src/planner.ts:216-262 | a pair is suggested if and only if the dropped column is the first of its signature and exactly one added column has it |
| RenameSuggestions.TargetsAreUsedOnce | packages/core/src/planner.ts:216-262 | no added column is the target of two suggestions |
| RenameSuggestions.SuggestionsAreOrdered | packages/core/src/planner.ts:662-670 | suggestions of a table are listed by dropped column, then by added column |
| RenameSuggestions.AmbiguousSourceIsSuggested | packages/core/src/planner.ts:216-262 | with two dropped columns of one signature the order decides which one is suggested |
| DependencyDepth.DepthSearch.Compute | packages/core/src/planner.ts:529-562 | the memoised search ends on every graph, restores its visiting set, and leaves depths above those of the dependencies off cycles |
| DependencyDepth.DepthSearch.Deepest | packages/core/src/planner.ts:529-562 | the loop over dependencies exceeds all their depths, or the view is on a cycle |
| DependencyDepth.CreationDepth | packages/core/src/planner.ts:529-562 | every view not on a cycle is deeper than each of its dependencies |
| DependencyDepth.CycleHasNoOrder | packages/core/src/planner.ts:529-562 | on a cycle no depths can put every view behind its dependencies |
| Planner.BuildGraph | packages/core/src/planner.ts:529-562 | the graph holds every materialized view of the target with the keys it depends on |
| Planner.CreateMap | packages/core/src/planner.ts:33-35 | the map holds the last definition of every key |
| Planner.EmitDrops | packages/core/src/planner.ts:564-577 | one drop for every old definition whose key is gone |
| Planner.EmitDiffs | packages/core/src/planner.ts:578-618 | the differences of every definition that stayed |
| Planner.EmitCreates | packages/core/src/planner.ts:619-627 | one create for every new definition, and its database once |
| Planner.BeforeIsPreorder | packages/core/src/planner.ts:632-652 | the operation comparator is a total preorder |
| Planner.PlanDiff | packages/core/src/planner.ts:564-670 | the plan is everything emitted, in the comparator's order, with the depths of the search |
| Planner.CreatedAfterDependencies | packages/core/src/planner.ts:632-652 | a materialized view not on a cycle is created after every dependency the plan creates |
| PlanOrder.PlannedOrder | packages/core/src/planner.ts:632-652 | in every plan drops stand first, then alterations, databases, tables, views, and last materialized views and dictionaries; among materialized views depth decides, else the key |
| PlanOrder.CreatedOverItsSources | packages/core/src/planner.ts:564-670 | when a plan creates a view, every table of the target is there as the target has it, part by part; beneath a materialized view or a dictionary every view too, and every dependency off a cycle; the one exception is a TTL that turned blank |
| PlanOrder.EveryStatementIsAccepted | packages/core/src/planner.ts:564-670 | with existence and these surroundings asked for together, a statement is accepted where it stands if and only if it does not set an empty TTL |
| PlanReplay.RunIsPartwise | packages/core/src/planner.ts:355-519 | a part of the replayed catalogue depends on the operations on it, in their order, and nothing else |
| PlanReplay.KeyTextInjective | packages/core/src/canonical.ts:215-217 | without dots in database names a key determines its object |
| PlanReplay.DotFreeKeysTell | packages/core/src/canonical.ts:215-217 | between schemas without dots in database names no two objects share a key |
| PlanReplay.EmittedPart | packages/core/src/planner.ts:355-627 | when no two objects share a key, the operations emitted on a part are exactly those its two definitions call for |
| PlanReplay.ReplayReachesTarget | packages/core/src/planner.ts:355-670 | when no two objects share a key, replaying the plan over the old catalogue yields the new one in every object and part, up to a placeholder source; it misses a part if and only if that is a TTL that turned blank |
| PlanReplay.EveryStatementIsLegal | packages/core/src/planner.ts:564-670 | a planned statement is accepted where it stands if and only if it does not set an empty TTL: no create hits an existing object or a missing database, every alteration and drop finds what it needs |
| PlanFacts.SameSchemaPlansNothing | packages/core/src/planner.ts:564-670 | a validated schema that did not change plans nothing |
| PlanFacts.AlikePlansNothing | packages/core/src/planner.ts:178-519 | schemas that differ only in what the planner does not compare plan nothing |
| PlanFacts.ReachedIff | packages/core/src/validate.ts:352-384 | a plan for a validated schema reaches it if and only if no two definitions, of whatever kinds, share a name and no TTL turns blank |
| PlanFacts.SharedKeyPlansNothing | packages/core/src/canonical.ts:215-217 | moving any object to another name with the same key plans nothing and misses the target |
| PlanFacts.SharedKeyIff | packages/core/src/canonical.ts:215-217 | two names of a kind share a key if and only if some move from one to the other misses its target |
| PlanFacts.BlankTtlIsPlanned | packages/core/src/planner.ts:506-513 | a plan sets an empty TTL on a table if and only if the table stays and its TTL turns blank |
| CanonicalPlan.BlankTtlIsPlanned | packages/core/src/canonical.ts:52-92 | from the written schemas: if and only if the old TTL says something and the new one is written as nothing but spaces |
| PlanFacts.PlaceholderIsDeployed | packages/core/src/planner.ts:319-353 | a placeholder source is deployed if and only if something else of the dictionary changed |
| PlanFacts.HiddenIff | packages/core/src/planner.ts:319-327 | a source is a placeholder if and only if the marker stands somewhere in it |
| KeyClause.SplitTopLevelComma | packages/core/src/key-clause.ts:1-49 | the loop computes the specified tokens |
| KeyClause.EveryTokenResplits | packages/core/src/key-clause.ts:1-49 | on every input each token is trimmed, non-empty and splits to itself |
| KeyClause.NormalizeIsIdempotent | packages/core/src/key-clause.ts:51-53 | normalising key columns twice is normalising once, on every input |
| ExpressionGrammar.ListSplits | packages/core/src/key-clause.ts:1-49 | a list of letters, quoted texts and groups is split at exactly the commas between its elements, whatever commas its quotes and groups hold |
| ExpressionGrammar.KeysAreAsWritten | packages/core/src/key-clause.ts:51-53 | the normalised key columns are the elements as written, in order, without the blanks around them |
| Projection.StripWrappingParens | packages/core/src/projection.ts:11-37 | the scan strips the outer parentheses exactly when they match each other and enclose everything |
| Projection.SpaceCommas | packages/core/src/projection.ts:40-64 | the loop puts one space behind every comma outside quotes |
| Projection.NormalizeProjectionIndex | packages/core/src/projection.ts:79-95 | peeling loop, splitting and recursion compute the specified form |
| ProjectionGrammar.WrappingIsNothing | packages/core/src/projection.ts:79-95 | a layer of parentheses around the whole expression changes nothing |
| ProjectionGrammar.ListBecomesTuple | packages/core/src/projection.ts:79-95 | a list becomes the tuple of its normalised elements |
| ProjectionGrammar.LoneIsSpaced | packages/core/src/projection.ts:40-95 | a lone element is written with one space behind every comma of its groups, its quoted texts untouched |
| Projection.SpacingIsIdempotent | packages/core/src/projection.ts:40-64 | spacing twice is spacing once |
| ProjectionClean.IdempotentIffClean | packages/core/src/projection.ts:79-95 | on a balanced expression normalising twice is normalising once if and only if every element of every list in it is something, and is a list itself or holds no stray comma; otherwise the second pass is shorter |
| ProjectionExact.IdempotentIff | packages/core/src/projection.ts:79-95 | on every text: no list, a balanced list of that kind, or an unbalanced one of which only the last element is not balanced |
| ProjectionLimits.UnbalancedChanges | packages/core/src/projection.ts:79-95 | one closing parenthesis too many in an earlier element, and the second pass changes the first one's result |
| ProjectionLimits.EmptyElementChanges | packages/core/src/projection.ts:79-95 | one empty list element, and the second pass changes the first one's result |
| Intervals.IntervalIsIdempotent | packages/core/src/canonical.ts:104-112 | canonical intervals are final, on every text |
| Intervals.IntervalIsSpelledInUnits | packages/core/src/canonical.ts:104-112 | a canonical interval is the words of the text with one space between them, the seven unit words and their plurals, in whatever case, in upper case and singular, every other character as it was |
| Codec.SplitTopLevelCommas | packages/core/src/codec.ts:112-128 | the loop computes the specified pieces |
| Codec.ParseCodec | packages/core/src/codec.ts:136-154 | the parser's loops compute the specified chain |
| Codec.CanonicalCodecIsIdempotent | packages/core/src/codec.ts:156-182 | filling in defaults twice is filling them in once |
| Codec.DefaultsAreFilledIn | packages/core/src/codec.ts:156-182 | level 1 of ZSTD, 9 of LZ4HC and size 1 of the preprocessors are written out, what is given stays, no step changes kind or place |
| Codec.NamesAreRead | packages/core/src/codec.ts:56-110 | each of the ten codec names alone is read as that codec with nothing given, FPC alone is not |
| Codec.EmptyCallsAreRead | packages/core/src/codec.ts:56-68 | parentheses with nothing or blanks in them are no arguments |
| Codec.LevelsAreRead | packages/core/src/codec.ts:56-110 | a level is read for LZ4HC and ZSTD if it is a number, and for no bare codec |
| Codec.SizesAreRead | packages/core/src/codec.ts:56-110 | a size is read for the three preprocessors if and only if it is 1, 2, 4 or 8 |
| Codec.PairsAreRead | packages/core/src/codec.ts:56-110 | FPC is read with a level and a float size of 4 or 8 |
| Codec.TypedRoundTrip | packages/core/src/codec.ts:28-154 | every non-empty chain of typed codecs is parsed back from its print |
| Codec.LoneRawRoundTrip | packages/core/src/codec.ts:136-154 | a lone raw codec comes back if and only if its text holds an atom the parser does not know |
| Codec.RoundTripIff | packages/core/src/codec.ts:28-182 | for canonical chains printing and parsing undo each other in exactly these two cases |
| Canonical.EngineSettlesIff | packages/core/src/sql-normalizer.ts:5-11 | the canonical engine is final if and only if nothing but one prefix is there to cut |
| Canonical.KeptSettlesIff | packages/core/src/canonical.ts:52-92 | an optional text is final if and only if it is not blank |
| Canonical.MembersAreFinalIff | packages/core/src/canonical.ts:40-61 | a sorted member list is final if and only if every member is |
| Canonical.RefreshIsFinal | packages/core/src/canonical.ts:114-149 | canonical refresh rules are final |
| Canonical.MemberSettlesIff | packages/core/src/canonical.ts:40-51 | the canonical form of an index or a projection is final if and only if its texts are not blank and its index expression is one of the final ones |
| Canonical.CanonIsFinal | packages/core/src/canonical.ts:52-213 | the canonical form of a definition that settles is final |
| Canonical.TableSettlesIff | packages/core/src/canonical.ts:52-92 | for every table it is final if and only if engine, optional texts, indexes and projections settle |
| Canonical.CanonSettlesIff | packages/core/src/canonical.ts:52-213 | for every definition it is final if and only if the definition settles; those of other kinds always do |
| CanonMeaning.CanonSays | packages/core/src/canonical.ts:28-213 | the canonical form of every definition says what was written, field by field: which texts lose blanks, what is sorted, which defaults are written out, and what stays |
| CanonMeaning.KeysSay | packages/core/src/canonical.ts:62-92 | a given primary key is kept, and the sorting key stands for one that is not given |
| CanonMeaning.OneCanonOneMeaning | packages/core/src/canonical.ts:52-92 | tables with one canonical form have the same columns, keys, texts up to blanks, settings and members |
| TextForms.TrimIs | packages/core/src/canonical.ts:28-92 | trimming cuts the blanks at both ends and nothing else |
| TextForms.SameFragmentIff | packages/core/src/sql-normalizer.ts:1-3 | two texts collapse to one if and only if they consist of the same words |
| CanonicalList.CanonicalizeDefinitions | packages/core/src/canonical.ts:219-233 | the loop over the map and the sort compute the canonical list |
| CanonicalList.OrderIsPreorder | packages/core/src/canonical.ts:226-232 | the definition comparator is a total preorder |
| CanonicalList.LastOneCounts | packages/core/src/canonical.ts:219-233 | a canonical list has every key once and holds the last definition written for it |
| CanonicalList.ListIsOrdered | packages/core/src/canonical.ts:226-232 | tables, views, materialized views, dictionaries; within a kind by database, then by name |
| CanonicalList.CanonAllIsIdempotent | packages/core/src/canonical.ts:219-233 | canonicalising a list twice is canonicalising it once when its definitions settle |
| Canonical.QuietTwice | packages/core/src/canonical.ts:52-213 | when engine and members settle, a second canonical form can differ from the first only in a blank partition key or TTL |
| CanonicalPlan.ComparedKeepsKey | packages/core/src/canonical.ts:215-217 | a canonical definition has the same key in the planner as in the canonical list |
| CanonicalPlan.EachPartIsCompared | packages/core/src/planner.ts:355-519 | columns, indexes, projections and settings are compared under their own names and in their own groups |
| CanonicalPlan.ComparedTellsApart | packages/core/src/planner.ts:355-519 | two tables that the planner cannot tell apart differ in comment and former name at most, beside what the text of engine and keys leaves out |
| CanonicalPlan.CanonicalPlansNothing | packages/core/src/planner.ts:564-568 | planning a schema against its canonical form yields nothing when engines and members settle, whatever the names and blank texts |
| SqlText.SplitSqlStatements | packages/core/src/sql-splitter.ts:1-91 | the splitting loop computes the specified statements |
| SqlText.ExtractExecutableStatements | packages/core/src/sql-splitter.ts:93-191 | the stripping loop and the splitter compute the specified statements |
| SqlText.TwoPassesAreOne | packages/core/src/sql-splitter.ts:1-191 | from any pair of matching states, stripping then splitting equals one fused pass, on every input |
| SqlText.ExtractIsOnePass | packages/core/src/sql-splitter.ts:93-191 | extraction equals the fused lexer |
| StatementGrammar.WellFormedIsQuiet | packages/core/src/sql-splitter.ts:1-191 | a text of plain pieces, single-quoted, double-quoted and backtick texts and block comments is one closed statement, whatever semicolons and dashes its quotes and comments hold |
| StatementGrammar.QuoteClosesIff | packages/core/src/sql-splitter.ts:23-34 | a text in single quotes that holds no quote is seen to close if and only if it does not end in a backslash |
| MigrationFile.ExtractionRecovers | packages/codegen/src/index.ts:115-136 | extraction of a written file gives every operation's statement, trimmed, in order |
| MigrationFile.RoundTrip | packages/codegen/src/index.ts:115-136 | it gives exactly the operations' SQL if and only if every statement is trimmed and not empty |
| MigrationFile.FileRoundTrip | packages/codegen/src/index.ts:98-136 | the same for the whole file with its header and hints |
| MigrationFile.HeaderCounts | packages/codegen/src/index.ts:98-114 | the counts of the header are read back from it as the numbers they are |
| StatementGrammar.WrittenStatementsComeBack | packages/codegen/src/index.ts:98-136 | a file of such statements is read back statement by statement exactly as written, if and only if none of them begins or ends in white space |
| OnCluster.InjectIsIdempotent | packages/core/src/on-cluster.ts:77-110 | injecting twice is injecting once, on every text |
| OnCluster.EjectUndoesInject | packages/core/src/on-cluster.ts:77-110 | whatever injection changed grew by one clause, and taking it out gives the statement back |
| OnCluster.RenderedIsTargeted | packages/core/src/sql.ts:94-260 | every statement of a listed verb, an optional guard, a plain name and a tail that holds no clause yet gets the clause right behind the name |
| OnCluster.ListedVerbIsTargeted | packages/core/src/on-cluster.ts:17-41 | so it is for each of the sixteen verbs and three guards, spelled out |
| OnCluster.RenameIsTargeted | packages/core/src/on-cluster.ts:48-90 | renames and exchanges get the clause at their end, in front of the terminator, whatever names they hold |
| PlannedSql.EveryStatementIsTargeted | packages/core/src/sql.ts:94-260 | the statement rendered for every planner operation gets the clause right behind the name of its object, once |
| OnCluster.TheAnchor | packages/core/src/on-cluster.ts:17-41 | at most one anchor fits a statement, and the search finds it |
| Backfill.QueryIdInjective | packages/plugin-backfill/src/async-backfill.ts:53-55 | within a plan a query id determines its chunk |
| Backfill.LatestByQueryId | packages/plugin-backfill/src/async-backfill.ts:171-178 | a query id is found if and only if a row has it, and then the first row that has it counts, rows being listed newest first |
| Backfill.ChunksToSync | packages/plugin-backfill/src/async-backfill.ts:128-150 | the chunks in need of reconciliation are those planned and not terminal |
| Backfill.SyncProgress | packages/plugin-backfill/src/async-backfill.ts:128-217 | every such chunk is reconciled with process list and log, everything else stays |
| Backfill.SyncedFollowsServer | packages/plugin-backfill/src/async-backfill.ts:180-214 | a done chunk stays, a running query makes it running, else the newest log row of its query makes it done with its rows or failed with its exception, and without one it stays |
| BackfillSync.SyncIsTheReconciliation | packages/plugin-backfill/src/async-backfill.ts:128-217 | when the two answers show the running and the logged executions, newest first and mixed over all chunks, the result is the reconciliation of the machine of whole runs |
| BackfillSync.ReplayForgetsFailures | packages/plugin-backfill/src/async-backfill.ts:292-306 | a failed chunk that is replayed is pending again, and its polls are answered from the executions started behind the reset alone |
| Backfill.PollChunk | packages/plugin-backfill/src/async-backfill.ts:219-258 | polling follows the server's answers, tolerates errors up to the limit, and hands over every change |
| Backfill.FirstDecisionEnds | packages/plugin-backfill/src/async-backfill.ts:219-258 | polling ends with the first final answer, or with the first error that is the last of `maxErrors` in a row, and says which; until then the chunk stays in flight |
| Backfill.OnlyChangesAreHanded | packages/plugin-backfill/src/async-backfill.ts:57-105 | a poll hands the chunk over if and only if it differs, takes over all metrics of a running query, and counts errors in a row only |
| Backfill.OnlyInFlightIsPolled | packages/plugin-backfill/src/async-backfill.ts:219-230 | a chunk that is not in flight, or has no query id, is not polled |
| Backfill.LastHandedIsFinal | packages/plugin-backfill/src/async-backfill.ts:219-258 | the last state handed over is the final one |
| Backfill.DoneIsServerSaid | packages/plugin-backfill/src/async-backfill.ts:57-105 | a poll ends as done only when the server reported the query finished |
| Backfill.PollsOnlyMoveOn | packages/plugin-backfill/src/async-backfill.ts:219-258 | polling never returns a chunk to pending and never changes its query id |
| BackfillSafety.FinishedRunCounts | packages/plugin-backfill/src/async-backfill.ts:260-362 | whatever happened before, when a run returns every chunk is done or failed, completed and failed make up the total, and the run is recorded as completed if and only if none failed |
| BackfillSafety.StepKeeps | packages/plugin-backfill/src/async-backfill.ts:128-362 | every step of server, process, state file, crash, resume and replay keeps the invariant |
| BackfillSafety.AtMostOneSuccess | packages/plugin-backfill/src/async-backfill.ts:128-362 | with a visible log each chunk has at most one successful execution over any sequence of runs, crashes, resumes and replays, and `done` means one |
| BackfillSafety.CompletedMeansEveryChunk | packages/plugin-backfill/src/plugin.ts:97-169 | a completed run has every chunk done, each with exactly one successful execution |
| BackfillSafety.CompletedIsAbsorbing | packages/plugin-backfill/src/plugin.ts:334-383 | once a run is completed and its process gone, its state file never changes again, over any later steps |
| BackfillSafety.CancelHoldsUntilResume | packages/plugin-backfill/src/queries.ts:54-88 | over any steps without a resume a cancelled run whose process is gone keeps its state file |
| BackfillSafety.CancelledCanResume | packages/plugin-backfill/src/plugin.ts:334-383 | a cancelled run can be started again by resume |
| BackfillSafety.CancelledIsNotAbsorbing | packages/plugin-backfill/src/queries.ts:54-88 | a run, step by step, that is cancelled while its process runs and ends as completed |
| BackfillSafety.DoneIsAbsorbing | packages/plugin-backfill/src/async-backfill.ts:128-362 | a chunk known as done stays so through sync, polls, replay, the end of the run and the process that resumes it; only a crash forgets |
| BackfillSafety.DoneHolds | packages/plugin-backfill/src/async-backfill.ts:128-362 | the same over any steps of a run without a crash |
| BackfillSafety.SyncFindsSuccessExactlyWhenLogged | packages/plugin-backfill/src/async-backfill.ts:128-217 | reconciliation finds a finished query if and only if the log shows it |
| BackfillSafety.UnflushedLogRunsTwice | packages/plugin-backfill/src/async-backfill.ts:260-362 | a run, step by step, in which an unflushed log leads to two successful executions |
| BackfillSafety.StaleFailureIff | packages/plugin-backfill/src/async-backfill.ts:219-258 | a poll calls a chunk failed whose newest execution succeeded if and only if that success is not logged yet and an older execution behind the mark is |
| BackfillSafety.StaleFailureIsReported | packages/plugin-backfill/src/async-backfill.ts:219-258 | a run, step by step, that ends with a succeeded chunk and the run recorded as failed |
| ThreadedProgress.DeliveriesAreOrdered | chkit_python/src/chkit_plugin_backfill/async_backfill.py:314-334 | for every schedule the delivered snapshots are states the dictionary was in, in order |
| ThreadedProgress.NoUpdateIsLost | chkit_python/src/chkit_plugin_backfill/async_backfill.py:314-334 | the dictionary always shows every chunk's latest update |
| ThreadedProgress.ReturnedMeansDelivered | chkit_python/src/chkit_plugin_backfill/async_backfill.py:331-334 | once `set_chunk` has returned, a snapshot copied behind its transition was delivered and shows it |
| ThreadedProgress.LocksExclude | chkit_python/src/chkit_plugin_backfill/async_backfill.py:314-334 | no two workers write, copy or deliver at once |

## Left out

Assumptions stated in the model:

- SHA-256 and its truncations are an injective constructor on the bytes fed; JSON text stands for the value it encodes.
- Texts are sequences of characters; UTF-16 units, UTF-8 byte lengths and Unicode normalisation are not modelled.
- `localeCompare` is a total preorder that puts dictionary keys before view keys.
- One journal namespace per model, one executor process at a time, and nothing unconfirmed lands after the next process has read the journal.
- The destination keeps its deduplication tokens for the length of a sync.
- Submitted queries show in the process list or the log at once, except in the lemmas about an unflushed log; the log is searched by execution index instead of by clock time with its 60 second buffer.
- Library retries are a bounded, nondeterministic repetition; timers, backoff and spans are not modelled.
- Printing and reading numbers in codecs is a parameter: reading undoes printing, and a printed number holds no space, comma or parenthesis.

Weaker or narrower than the code:

- ExactlyOnce.SuccessIsExactlyOnce: the chunk budget may cut a reading only when every chunk has an id, which `BudgetCuts` shows to be needed for held-back chunks without state; the budget count starts anew with every process.
- Replay.RegroupableIsAligned: the three named shapes of a source are sufficient; the exact condition is that every batch carries the state of its last chunk.
- Misaligned.ExactlyOnceIffAligned: every chunk holds a row and the sync is given two attempts; a stray batch whose re-read chunks are all empty repeats rows or not depending on the discriminator, which is a parameter.
- Replay.RestartRecomputes: the reader replays its source for the attempts of one sync; readers of different syncs need not agree.
- PlanReplay.ReplayReachesTarget: statements are abstract payloads, not SQL text; column order, table comments, plugins and `renamedFrom` are not compared, as in the code.
- PlanReplay.EveryStatementIsLegal: legality is existence of the object, its kind, its database and the altered part; ClickHouse's own rules on types are not modelled.
- Canonical.CanonIsFinal: settings whose names are integers, which JavaScript objects reorder, are not modelled.
- BackfillSafety.AtMostOneSuccess: reading and writing the state file is one step, torn files are not modelled; state writes may overtake each other, as in the code.
- Backfill.SyncProgress: failed reads of the process list or the log are not modelled.
- ThreadedProgress.DeliveriesAreOrdered: the callback itself is one step, which may raise.
- MigrationFile.FileRoundTrip: names and dates hold no line break, and statements are lexically closed and end in their only top-level semicolon.
- ExpressionGrammar.KeysAreAsWritten: written lists have matching parentheses and closed quotes; what unbalanced ones become is in `ProjectionExact` and `KeyClause` only.
- PlanOrder.CreatedOverItsSources: a query may read any table and view of the target schema; queries are not parsed, and views among views are ordered by name only, as in the code.
- BackfillSync.SyncIsTheReconciliation: the log's written rows and exception texts are fixed values in the machine.
- PlannedSql.EveryStatementIsTargeted: what stands behind the leading words of a statement, such as column texts, keys and queries, is a parameter; rename statements are covered by `OnCluster.RenameIsTargeted`.
- BoundedQueue.LatePushOutlivesTheEnd: the executor itself closes the queue behind its last push.
- Window.NoGapBelowTheWatermark: only the last chunk of a selection may carry state, and then that of the whole window; `WindowRuns.EarlyClaimLeavesGap` shows what an earlier one does. The `from` callback mode promises no coverage, and explicit ranges belong to backfill namespaces.

Not modelled:

- `restoreState` when the stream's strategy changed, run-level facts, pipeline permits and multi-stream scheduling.
- The in-process `retry` loop of a stream is a nondeterministic new attempt.
- Chunk planning of backfills, whose sources are not part of this model.
- The checks of `validate.ts` other than duplicate keys, and risk levels.
- How the planner compares key clauses, without blanks and backticks: the compared text is a parameter.
- Regular-expression parsers of ClickHouse's own DDL output, file rendering for `pull`, and the SQL text of CREATE and ALTER statements.
- CLI, configuration, authentication, the ClickHouse client and the hosted services.
