# PocketCQRS: a verified model

PocketCQRS is a single-writer event-sourcing engine. Commands are queued durably and decided many at a time
against an in-memory overlay of the event log, their events are committed in one transaction, and consumers follow
the log behind stored checkpoints. Around that core sit several smaller protocols over state that can crash, fail
or age at any step. This project models those protocols and proves what they keep.

How it is laid out:

- `EventLog`, `LogInvariant`, `LogRows`, `EventStore`: the append-only events table, what every writer keeps of it,
  what a row holds field by field, and the store object with its appends, batches, imports, reads and resume check.
- `Deciding`, `BatchWindow`, `CommandQueue`, `BatchReplay`, `BatchProtocol`, `BatchFrames`, `BatchSafety`,
  `BatchFinal`, `BatchLostMark`, `BatchTrace`, `BatchWriter`, `BatchPass`, `BatchOutcome`, `BatchStuck`: deciding one
  command, one window of commands against the same commands handled one by one, the durable queue, the batching
  protocol as a machine with crashes and other writers, what each of its steps may touch, when a command is settled
  for good, the caller's metadata from the queue to the log, the writer object whose passes are proved to be runs of
  that machine, and what a pass reports, marks and tells.
- `Delivery`, `DeliverySafety`, `DeliveryActs`, `DeliveryEngine`, `DeliveryPass`: checkpointed delivery and rebuild as
  a machine, what a delivery does to a consumer's state, the engine object whose passes are runs of the machine, and
  what a pass ends with.
- `Projection`, `ProjectionAgree`, `ProjectionRuns`, `ProjectionOps`, `ProjectionApply`, `ProjectionEvents`: row ops
  applied live and simulated, against each other and each field by field, op by op and event by event.
- `Verdicts`, `VerdictRuns`, `VerdictService`, `VerdictPruning`: the cache of token verdicts, what a verdict served
  rests on and what a saved yes buys.
- `Outbox`, `OutboxOrder`, `OutboxOutcome`: the external caller's work entries.
- `Reload`, `ReloadOutcome`, `ReloadPrediction`: the decider swap of a hot reload, what it leaves each aggregate with,
  and the set that predicts it.
- `Upcasting`, `UpcastChain`, `UpcastStore`: transform chains.
- `Filter`, `FilterPrint`, `FilterGrammar`; `Outcomes`; `Names`, `NamesSpelled`: a filter lexer and parser against a
  grammar of its characters, an outcome recogniser, name splitting.

Tables are sequences and maps, a transaction is one step that lands whole or not at all, and every place where a
read or a write can fail takes its outcome from outside (a `fault` argument or a schedule `Io`), so the theorems hold
for every schedule of failures. decide, reveal, protect, evolve, transform and project are uninterpreted deterministic
functions.

## Where the code does less than its comments promise

Each of these is a lemma; the code is modelled as it is, and where a promise fails the exact condition under which it
holds is proved beside the case.

- A refusal, or a success without events, is final if and only if its queue row is marked done, the queued meta lets
  no decision of it land, or its stream's sequences run ahead of its rows (`BatchFinal.FinalIff`). When the mark is
  lost the command may be decided again and commit events after its caller was told otherwise; `BatchLostMark` has two
  such runs.
- One decided event with an import marker fails the whole batch it is in, not just its command
  (`EventStore.Store.CommitBatch`), and so does one command on a stream with a gap, for what a command expects is
  counted in rows and what CommitBatch checks is MAX(sequence) (`BatchWindow.FitsIffUngapped`). Since the window is
  replayed as it was, its commands then wait for ever, and these two are the only things that do this
  (`BatchStuck.StuckForEver`, `BatchStuck.StuckIff`); with a gap no pass even reports a failure, and one imported event
  is enough (`BatchStuck.GapSticks`). Handled one by one, only the command concerned would fail
  (`BatchPass.PassIsTheSerialRunIff`).
- ImportEvents does not look at sequences: it keeps every stream at 1..n if and only if the batch itself is
  contiguous per stream (`LogInvariant.ImportKeepsLogOkIff`). No later import can fill the gap, since the collision
  rule keeps imports off every aggregate the log has (`BatchFinal.ImportLeavesStreams`).
- The dry run of a projection is not the live run for every op: it writes increments and groups into reserved and
  key fields that the live side ignores, reads only numbers where a record also reads booleans and texts, and does
  not recognise a group list that a script wrote as a plain array. `ProjectionAgree.OpAgreesIff` says exactly when
  one op agrees, `ProjectionRuns.DryIsLiveIff` exactly when a whole run does.
- Pruning the verdict cache can be observed when the ops tier's time to live is the longer one by more than the
  cache's rounding to milliseconds (`VerdictPruning.LongerOpsTells`).
- The prospective set of a reload is right about an aggregate if and only if what will be served declares what the
  last decider loaded for it declares (`ReloadPrediction.PredictionIff`); a refused decider is where it is not.
- The set of managed scripts names code the registry does not serve if and only if one reload loads a script that
  takes over and then, for the same aggregate, one that is refused (`ReloadPrediction.ManagedIsServedIff`).
- The loader accepts transform chains that never end (`Upcasting.PositiveVersionsMayCycle`), and `Upcasting.ChainEndsIff`
  says which do.
- Validation folds what the store's upcaster, still built of the old scripts, has made of each stream. That makes no
  difference if and only if the script's own chain makes good every single step of the chain the store runs, and
  fails wherever that one does (`UpcastStore.ValidationIgnoresTheStoreIff`): so for a script that keeps the old
  transforms as they are and only adds others, not for one that rewrites one (`UpcastStore.OlderChainShowsThrough`),
  and not for one that repairs a transform that throws, which is refused for a stream it would fold
  (`UpcastStore.RepairIsRefused`).

Two smaller remarks are lemmas too but not results: the stored 0 of a rebuild wins over any older position
(`DeliverySafety.StoredZeroWins`), and outside maintenance the registry predicts itself
(`ReloadPrediction.RunningIsPredicted`).

## Model

| member | source | states |
|---|---|---|
| EventStore.Store.Append | events/events.go:315-389 | an append lands whole, as the stream's next sequences at the log's next positions, or not at all; each row has its event's kind, data and metadata, the stream, the id and time drawn for its position, and version 1 where none was set; it fails exactly on a marker, a stale expectation or a refused commit, each with its own error, and never when there are no events; a well-formed log stays so |
| EventStore.Store.CommitBatch | events/batch.go:70-187 | all-or-nothing: a conflict leaves the table alone and gives every result an error; otherwise every command's own block lands in batch order; a marker in any command fails the whole call, and so, as a storage error, does a refused commit |
| EventStore.Store.Validate | events/batch.go:94-127 | the running map gives each command the verdict of its stream's running sequence in this batch, not the pre-batch one |
| EventStore.Store.AbortRest | events/batch.go:128-135 | after a conflict every command without an error of its own is aborted |
| EventStore.Store.InsertPass | events/batch.go:139-180 | the validated batch's rows, stamped and numbered from each base, or nothing when the commit is refused |
| EventStore.Store.ImportEvents | events/events.go:413-467 | imported rows keep their sequences and are refused whole on any collision with the log |
| EventStore.Store.LoadStream | events/events.go:543-549 | a stream in sequence order, upcast event by event; one failing transform fails the read |
| EventStore.Store.CommandApplied | events/batch.go:201-217 | true exactly when a row of that stream above the position carries the command's id |
| LogRows.AppendedRowsHold | events/events.go:351-379 | every row of an append, field by field: the event's own kind, data and metadata, its stream, the next sequence and position, the version given or 1 |
| LogRows.BatchedRowsHold | events/batch.go:139-170 | every row a batch lands, field by field: as an append's, in batch order, with the command's id added to the metadata |
| EventStore.LandedRowsHold | events/batch.go:139-170 | the rows each command of a batch is told of are those, its own block |
| LogRows.ImportedRowsHold | events/events.go:413-500 | an imported row is the event as it was, but for its position, the import mark and version 1 where none was set |
| LogRows.ImportRefusedIff | events/events.go:501-540 | an import is refused exactly on an aggregate the log has, or on an id or a place in a stream that is not unique |
| LogRows.VersionsOverEveryRun | events/events.go:367-369 | over every interleaving of appends, batches and imports, every row written has a version of at least 1 |
| LogRows.CurrentIsMax | events/events.go:338-346 | the current sequence is the greatest of the stream's rows, 0 when it has none |
| LogRows.LoadReadsTheStream | events/events.go:569-580 | a stream is read as exactly its own rows, each as often as the log has it, in sequence order |
| LogInvariant.CurrentIsLength | events/events.go:338-346 | on a well-formed log MAX(sequence) of a stream is its number of rows |
| LogInvariant.LoadIsStream | events/events.go:569-580 | on a well-formed log ordering by sequence is ordering by position |
| LogInvariant.AppendKeepsLogOk | events/events.go:315-389 | an append keeps positions increasing and every stream at 1..n, and touches no row there |
| LogInvariant.InsertBatchKeepsLogOk | events/batch.go:139-180 | so does a batch that passed the check |
| LogInvariant.BatchIsItsAppends | events/batch.go:107-180 | on any log a batch lands if and only if performing its appends one by one succeeds with every empty command also expecting the right sequence, and then with the same rows |
| LogInvariant.ImportKeepsLogOkIff | events/events.go:413-540 | an import keeps the log well-formed if and only if its batch is contiguous per stream |
| LogInvariant.LogOkOverEveryRun | events/batch.go:70-187 | over every interleaving of appends, batches and imports the log is well-formed at the end if and only if no import brought in a gap |
| Deciding.Registry.DecideWithMeta | decider/decider.go:330-407 | folds the given stream, decides (once more on what reveal opened when something sealed was read), protects and encodes the events, and reports them with the stream's length as expected sequence, each event with the caller's metadata key by key (and the time, where the caller gave none) over its own; each failure keeps its kind |
| Deciding.DecisionHolds | decider/decider.go:356-422 | whatever the decider, the events decided are the protected ones in order, each with its kind and version, its data encoded, every key of the caller's metadata on it and every other key its own |
| Deciding.DecisionFailsAs | decider/decider.go:330-407 | each way to fail gives that failure and no other, in the order the steps are taken |
| Deciding.FoldIsTheLastState | decider/decider.go:336-355 | a fold is the last of the states evolve leads through from the initial one |
| Deciding.Registry.HandleWithMeta | decider/decider.go:297-306 | decide against the store, then append: the table and the outcome of handling one command on its own; an append the storage refuses changes nothing, and a command without events cannot be refused by it |
| Deciding.SameShadowSameDecision | batching/overlay.go:53-71 | a fold that looks at nothing a staged event lacks decides the same on staged and on committed events |
| BatchWindow.Overlay.LoadStream | batching/overlay.go:34-48 | the durable stream followed by what this window staged for it |
| BatchWindow.Overlay.Record | batching/overlay.go:53-71 | a decided command's events are staged at the end of their own stream and of no other |
| BatchFrames.RecordedIsRead | batching/overlay.go:34-71 | after a decision the window reads, of that stream, what it read before and then the decided events, without anything the database draws |
| BatchFrames.RecordedElsewhere | batching/overlay.go:34-71 | and of every other stream what it read before |
| BatchFrames.QueuedIsDecided | batching/batching.go:222-247 | a queued command is decided as itself, with the payload and the metadata it was queued with |
| BatchFrames.LoadHolds | events/events.go:543-549 | the durable part is the stream with every row brought up to date, and fails when one cannot be |
| BatchWindow.FitsIffUngapped | batching/batching.go:220-257 | on any log the batch of a window passes CommitBatch's running check if and only if no stream it appends to has a gap, whatever the deciders do |
| BatchWindow.NeverConflictsWithItself | batching/batching.go:220-257 | so on contiguous streams every expected sequence a window computes passes the check, which then stands where the overlay does |
| BatchWindow.BatchedEqualsSerial | batching/batching.go:220-288 | for every log, gapped or not, and every list of commands whose batch CommitBatch accepts, the committed window is the serial run of HandleWithMeta up to stamped ids, and every command, refused or not, has the same outcome |
| BatchWindow.ContiguousBatchEqualsSerial | batching/batching.go:220-288 | on contiguous streams that is every list of commands whose batch carries no import marker |
| BatchWindow.RawVersionBreaksAgreement | batching/overlay.go:57-68 | a decider that reads the version a staged event lacks tells the two apart: the hypothesis on evolve is needed |
| BatchWindow.OldVersionBreaksAgreement | batching/overlay.go:53-71 | a decider that emits an older version than the store upcasts to tells them apart too, for staged events never meet the upcaster: the hypothesis on what deciders emit is needed |
| CommandQueue.Queue.EnqueueCommand | commandqueue/commandqueue.go:92-122 | a command is appended as pending; a repeated id inserts nothing |
| CommandQueue.Queue.MarkDone | commandqueue/commandqueue.go:169-191 | exactly the named rows are done, all together or none |
| CommandQueue.Queue.Pending | commandqueue/commandqueue.go:125-150 | the oldest rows not yet done, in arrival order, up to the limit (100 when it is not positive) |
| CommandQueue.Queue.Depth | commandqueue/commandqueue.go:156-164 | the number of rows not yet done |
| BatchOutcome.PendingHolds | commandqueue/commandqueue.go:125-150 | the window is the oldest undone rows, none passed over, at most the limit, or 100, of them |
| CommandQueue.NextWindowKeepsSurvivors | commandqueue/commandqueue.go:125-191 | after any rows are marked and others queued behind, the next window starts with this one's survivors in the same order |
| BatchReplay.RefusedLeaveNoTrace | batching/batching.go:222-247 | refused commands leave the overlay as it was, so dropping any of them changes no other verdict and no entry of the batch |
| BatchReplay.ReplayDecidesTheSame | batching/batching.go:192-257 | a pass that died before its commit is replayed: over the unchanged log the next pass decides the same batch first, and gives every command still pending the same verdict |
| BatchSafety.StepKeepsInv | batching/batching.go:110-310 | every step of enqueue, pass, commit, mark, signal, crash and foreign write keeps the protocol's invariant |
| BatchSafety.RunKeepsInv | batching/batching.go:110-310 | so does every run |
| BatchSafety.AtMostOneEffect | batching/batching.go:192-288 | in every reachable state the events with a command's id are one contiguous block of its stream above its mark, the resume check finds the command exactly when there are any, and no later step adds to or changes them |
| BatchSafety.OutcomesAreTruthful | batching/batching.go:300-310 | a waiter gets at most one outcome, and a success with events is exactly the command's durable block from then on |
| BatchFrames.StepTouches | batching/batching.go:110-310 | each step touches what it is for: only a commit or another writer grows the log, done rows stay done, no outcome is taken back, a waiter goes only with its outcome or in a crash, and a crash leaves log and queue |
| BatchTrace.RowsCarryTheQueuedMeta | decider/decider.go:410-422 | in every reachable state a row that carries a queued command's id has that command's queued metadata, key by key |
| BatchFinal.FinalIff | batching/batching.go:192-285 | in every reachable state a queued command without events never gets any if and only if its row is done, its meta does not decode or carries an import marker, or MAX(sequence) of its stream is above the stream's number of rows |
| BatchFinal.AheadHasNoEffect | events/batch.go:94-127 | once a stream's sequences run ahead of its rows they do in every later state, whatever is appended, committed or imported, and no command queued on it gets an event |
| BatchFinal.ImportLeavesStreams | events/events.go:501-540 | an import that passes the collision check leaves every stream of every aggregate that has a row as it is, so no import fills a gap |
| BatchFinal.RefusalFinalIff | batching/batching.go:235-247 | so a refusal just signalled is final if and only if its mark lands, the row was done already, or the meta or the stream is such |
| BatchFinal.EmptySuccessFinalIff | batching/batching.go:259-285 | and a success without events if and only if the batch's marks land, or the same |
| BatchLostMark.LostMarkUndoesRefusal | batching/batching.go:235-247 | a run on the other side of RefusalFinalIff: a waiter is told of a refusal, the mark is lost, and the command's event is in the log |
| BatchLostMark.LostMarkUndoesEmptySuccess | events/batch.go:139-142 | likewise of EmptySuccessFinalIff, for a success without events, which leaves no durable proof |
| BatchWriter.Writer.Enqueue | batching/batching.go:110-153 | admission, the captured clock, the sealed payload and the queue row, then the waiter; any failing read, sealing or insert refuses and changes nothing, and the row and the waiter are two steps of the protocol |
| BatchWriter.Writer.Resume | batching/batching.go:201-218 | commands already applied are marked and counted, the rest kept in order, up to the first check that cannot be read |
| BatchWriter.Writer.DecideWindow | batching/batching.go:220-257 | decides the window of the specification, signals and marks every refusal at once, and nothing else |
| BatchWriter.Writer.CommitWindow | batching/batching.go:259-285 | the batch lands, is reported in order and marked, or nothing happens at all; it fails exactly on a marker or a refused commit |
| BatchWriter.Writer.RunOnce | batching/batching.go:192-288 | a pass leaves exactly what its specification says, under any failures of its reads and writes, and is a run of the protocol from one idle state to another |
| BatchPass.WhoHearsWhat | batching/batching.go:222-288 | each caller of the window hears exactly its own verdict, once; when the batch does not land an accepted one hears nothing and keeps waiting, and when a read cuts the pass short all do |
| BatchOutcome.CallersHear | batching/batching.go:235-310 | what each waiting caller is sent, and that it waits no longer: its refusal, the rows that landed for it, or nothing yet |
| BatchOutcome.PassFailsIff | batching/batching.go:192-278 | a pass fails exactly when the queue or a resume check cannot be read, a decided event carries the import marker, or the database refuses a batch that fits |
| BatchOutcome.PassWritesIff | batching/batching.go:259-278 | the log changes exactly when the batch lands, and by that batch alone |
| BatchOutcome.PassMarksIff | batching/batching.go:201-285 | the rows a pass marks done, one by one: applied, refused and committed commands, each but for a lost mark |
| BatchOutcome.ProcessedIsWhatLeft | batching/batching.go:192-288 | what a pass reports as processed is how many commands left the queue, exactly when no mark is lost and never fewer |
| BatchPass.PassClearsTheWindow | batching/batching.go:192-288 | with no failure a window whose batch CommitBatch accepts leaves the queue whole, what was behind it stays, and processed is its length; on contiguous streams only a marker prevents that |
| BatchPass.UncommittedStaysPending | batching/batching.go:259-278 | a batch that does not land changes no row of the log and leaves every accepted command pending |
| BatchPass.PassIsTheSerialRun | batching/batching.go:192-288 | on any log, a pass that nothing stops leaves the serial run's log and tells every waiting caller the serial run's outcome |
| BatchPass.PassIsTheSerialRunIff | batching/batching.go:192-288 | with every caller waiting, on any log and under any failures, a pass agrees with the serial run on the log and on every outcome if and only if it has nothing to decide, or no read fails and its batch, if any, lands |
| BatchStuck.StuckForEver | batching/batching.go:192-278 | after any number of passes over a window whose batch CommitBatch refuses, whatever fails and whatever is queued behind, the log is as it was, the same batch is decided first, its commands are pending, and the next pass fails exactly on a failing read or a marker |
| BatchStuck.StuckIff | batching/batching.go:192-278 | an accepted command of a window waits after every number of passes if and only if its batch carries a marker or appends to a stream with a gap |
| BatchStuck.GapSticks | events/events.go:413-467 | one imported event whose sequence is not 1 and one accepted command behind it: the command waits for ever without any marker |
| BatchPass.ForeignAppendStopsTheBatch | batching/batching.go:265-278 | another writer's append to any stream of a decided batch stops the whole commit: the log keeps only that append and every decided command still waits |
| Delivery.UptoSplits | events/events.go:642-657 | the events Poll leaves out are exactly those at or below the position |
| DeliverySafety.OthersUntouched | consumers/consumers.go:560-566 | a step about one consumer leaves every other one's state, history and position alone |
| DeliverySafety.StepKeepsInv | consumers/consumers.go:100-171 | every delivery, checkpoint, request, wipe, reset, take-off and crash, failed or not, keeps the invariant |
| DeliverySafety.RunKeepsInv | consumers/consumers.go:574-654 | so does every run |
| DeliverySafety.RebuildSafety | consumers/consumers.go:124-171 | after any run a committing projection has its rebuild still requested, or holds exactly the fold of the events up to its position |
| DeliverySafety.DeliveryOnlyStutters | consumers/consumers.go:603-654 | after any run each event up to the checkpoint was delivered in order with none skipped, and only the event just past it can come again |
| DeliverySafety.ImportedNeverActedOn | consumers/consumers.go:100-111 | every delivery in an effect consumer's history is labelled applied exactly when its event is not imported; ApplyStepHolds ties each label to what was done to the state |
| DeliveryActs.ApplyStepHolds | consumers/consumers.go:100-111 | one delivery, landed or not: an effect consumer's state takes an imported event by Fold or not at all, any other event by Apply, and the label says which |
| DeliveryActs.CommitStepHolds | consumers/consumers.go:82-89 | a commit moves state and position together or neither |
| DeliveryActs.ImportedNeverReachesApply | consumers/consumers.go:41-67 | effect consumers that differ in what Apply makes of imported events only, and any that differ in what Fold makes of other events only, end every run with the same states, positions and histories |
| DeliveryActs.SaveStepsHold | consumers/consumers.go:603-654 | a position is saved where its consumer keeps it or nowhere, and a reset starts its history again |
| DeliveryActs.OtherStepsHold | consumers/consumers.go:131-171 | wipes, take-offs, requests and crashes change what they are for and nothing else |
| DeliverySafety.CaughtUpIsTheSinglePass | consumers/consumers.go:603-654 | a consumer that commits, or whose Apply is idempotent, holds the single-pass fold once its checkpoint is at the head |
| DeliveryEngine.Engine.constructor | consumers/consumers.go:339-353 | an engine that has delivered nothing is in a safe state |
| DeliveryEngine.Engine.Append | events/events.go:315-389 | rows appended to the log are a step of the machine, so the engine's safety survives them |
| DeliveryEngine.Engine.Poll | events/events.go:642-657 | the next events past a position, in order, up to the limit |
| DeliveryEngine.Engine.Position | consumers/consumers.go:481-498 | the consumer's own stored position, or the engine's when its own store has none |
| DeliveryEngine.Engine.Request | projections/rebuild.go:42-46 | a repeated request is the same request |
| DeliveryEngine.Engine.Commit | consumers/consumers.go:82-89 | state and position move together or not at all |
| DeliveryEngine.Engine.Apply | consumers/consumers.go:100-111 | an imported event leaves an effect consumer's state alone, or is folded into it by a folder; any other delivery is an Apply, and no other consumer's state changes |
| DeliveryEngine.Engine.RunOnceFor | consumers/consumers.go:603-654 | a consumer's turn delivers event by event across polls of 100 and stops at the first failure with everything before it kept |
| DeliveryEngine.Engine.TakeRebuilds | consumers/consumers.go:131-171 | each request is wiped, reset and taken off as far as its steps go through; one for an unknown consumer is kept, and all are when the list cannot be read |
| DeliveryEngine.Engine.RunOnce | consumers/consumers.go:574-597 | a pass keeps the machine's invariant, and every consumer whose turn did not fail ends at the head, whatever happened to the others |
| DeliveryEngine.TurnIsARun | consumers/consumers.go:603-654 | a turn under any schedule of failures is a run of the delivery machine, and reaches the head unless it reports a failure |
| DeliveryEngine.RebuildsAreARun | consumers/consumers.go:131-171 | so are the rebuild requests of a pass |
| DeliveryEngine.TurnsAreARun | consumers/consumers.go:590-596 | so are the turns of a pass |
| DeliveryPass.ApplyInTurn | consumers/consumers.go:630-654 | in a turn, a checkpoint moves only behind a delivery that was reported fine, and what landed is in the state |
| DeliveryPass.CommitInTurn | consumers/consumers.go:630-654 | and a commit refused or failed leaves nothing |
| DeliveryPass.TurnPollsByHundreds | consumers/consumers.go:603-630 | a turn polls a hundred events at a time and stops at a read that fails |
| DeliveryPass.TurnGoesThrough | consumers/consumers.go:603-654 | when its reads and writes go through, a turn ends well if and only if no projection throws on what is left of the log |
| DeliveryPass.RebuildHolds | consumers/consumers.go:131-171 | what a request leaves of its consumer, for every way it may fail: wiped and reset it is empty, at position 0 with nothing heard |
| DeliveryPass.RequestEndsIff | consumers/consumers.go:131-171 | a request is taken off exactly when every write of it went through |
| DeliveryPass.RebuildsClear | consumers/consumers.go:131-171 | with nothing failing every projection a pass was asked to rebuild ends empty, at position 0 and its request taken off, and the others are left alone |
| DeliveryPass.CleanPass | consumers/consumers.go:574-654 | after any run, a pass in which nothing fails leaves only requests for consumers it does not run, and every consumer at the head on the single pass of the whole log |
| ProjectionAgree.WriteAgreesIff | functions/projection.go:462-499 | for one row, the record as saved is the simulated row if and only if the op is safe on it |
| ProjectionAgree.OpAgreesIff | functions/dryrun.go:283-331 | on agreeing rows the two sides agree after an op if and only if it is safe: its target may be written and holds nothing only one side reads, or writing it back changes nothing |
| ProjectionRuns.OpAgrees | functions/projection.go:438-500 | an op within the discipline keeps both sides the same and the rows within the discipline |
| ProjectionRuns.DryIsLive | functions/dryrun.go:253-334 | for every list of events the simulation fails exactly when the live projection blocks, and holds exactly its rows at whatever event it has got to |
| ProjectionRuns.DryIsLiveIff | functions/dryrun.go:253-334 | for every projection whose keys print apart and every list of events, both sides hold the same rows after every op if and only if every op is safe on the live rows it meets |
| ProjectionRuns.RunSameEnd | functions/dryrun.go:253-334 | and then the simulation fails exactly when the live projection blocks, holding its rows |
| ProjectionRuns.ReservedCountDiffers | functions/dryrun.go:300-308 | counting in a reserved field makes the simulation report a row the live projection never saves |
| ProjectionOps.LiveOpDoes | functions/projection.go:438-500 | one op, live, field by field: an upsert sets every field it may, an increment and a group raise theirs by delta, a delete takes the keyed row away, a missing row is made last, and every other row and field is as before |
| ProjectionOps.DryOpDoes | functions/dryrun.go:277-331 | one op, simulated: the same of the row under its printed key |
| ProjectionOps.LiveOpsInOrder | functions/projection.go:398-412 | the ops of an event are applied one after another, each to the collection it resolves to and to no other |
| ProjectionOps.DryOpsInOrder | functions/dryrun.go:265-332 | and so they are simulated |
| ProjectionOps.OpsFailIff | functions/projection.go:398-412 | on either side the ops fail exactly when one of them names no declared schema |
| ProjectionEvents.OpsKeepTheirOrder | functions/projection.go:270-296 | the ops are what the script returned, in its order, without the values that are none |
| ProjectionEvents.ViewHolds | functions/projection_reads.go:46-84 | a script reads each collection by the printed key of its first declaration, the first of rows that print alike |
| ProjectionEvents.LiveRunHolds | functions/projection.go:438-500 | over every list of events: from empty collections, each event's ops in order over the rows its script read, up to the first event whose script throws or whose op names no schema |
| ProjectionEvents.DryRunHolds | functions/dryrun.go:253-334 | the simulation does so too, all the way or not at all |
| ProjectionEvents.CountsMore | functions/dryrun.go:253-332 | each event adds to the counts of ops and of values that are none what its script returned, nothing when it is not subscribed to |
| ProjectionApply.GroupByRowIndex | functions/projection.go:426-433 | the first entry whose group field holds the value, or none |
| ProjectionApply.NormalizeOps | functions/projection.go:270-296 | the ops among what a script returned, in order, and the number of values that are none |
| ProjectionApply.SetFields | functions/projection.go:491-498 | in whatever order they come, every given field but reserved and key ones has its given value, and every other is as before |
| ProjectionApply.Collections.ApplyOp | functions/projection.go:438-500 | the first matching record is changed or deleted, or a new one saved; an op on a reserved or key field saves nothing |
| ProjectionApply.Collections.Commit | functions/projection.go:73-138 | an event's ops and its position all land together, or, when one fails or the transaction does, none of them |
| ProjectionApply.Simulation.SimulateOp | functions/dryrun.go:283-331 | the simulated row is found by printed key or made, and changed in place; the op is counted as an upsert or a delete |
| ProjectionApply.Simulation.RunProjectionOver | functions/dryrun.go:253-334 | the rows and position after every event, with the number of handled events, ignored values, deletes and upserts, or an error at the first that fails |
| Verdicts.Cache.Prune | authverify/cache.go:138-144 | exactly the rows past their expiry by more than grace are gone |
| Verdicts.Verifier.RemoteVerify | authverify/verifier.go:189-213 | a yes is saved with its expiry capped at the token's own, a no evicts, an outage changes nothing |
| Verdicts.Verifier.VerifyTier | authverify/verifier.go:101-173 | case by case: an unexpired token with a row younger than the tier's time to live is served from it, otherwise the master's yes is saved to the millisecond, its no evicts, and an outage is unreachable but for the row within the grace window |
| Verdicts.Verifier.VerifyFresh | authverify/verifier.go:178-184 | always the master's answer, written through |
| VerdictRuns.RowsAreBacked | authverify/verifier.go:189-213 | every cached row goes back to a yes of the master that nothing has revoked since |
| VerdictRuns.BoundedTrust | authverify/verifier.go:132-173 | a verdict served without a fresh yes rests on a yes less than that tier's time to live ago, plus grace only when the master was found down, and on a token not yet expired |
| VerdictRuns.RejectionStopsService | authverify/verifier.go:190-197 | after a rejection that evicted the row nothing is served until the next yes |
| VerdictService.SavedYesIsServed | authverify/verifier.go:132-152 | over every run: a saved yes that no rejection, pruning or newer yes has displaced is served to each call of either tier that can read it, until it is older than that tier's time to live or the token expires, whatever the master would say, and no row changes |
| VerdictService.SavedYesIsServedInOutage | authverify/verifier.go:154-172 | and for the grace window longer to a call that finds the master down |
| VerdictPruning.PruningUnobservable | authverify/cache.go:138-144 | with the verifier's grace and a clock that never runs back, pruning at any points of a run changes no answer of either tier, when the ops tier is longer by no more than the rounding |
| VerdictPruning.NoLongerOpsIsEnough | authverify/verifier.go:115-121 | in particular when the ops tier is no longer than the general one |
| VerdictPruning.LongerOpsTells | authverify/cache.go:138-144 | beyond that a run of three actions tells whether the cache was pruned |
| Outbox.Consumer.constructor | extcaller/extcaller.go:192-194 | whatever is asked for, there is at least one attempt, which WorkEnds needs, and never fewer than asked |
| Outbox.Consumer.Handle | extcaller/extcaller.go:258-330 | one Handle makes the call if it has not been made, dispatches from the first follow-up left, and retries, finishes or dead-letters; an unreadable payload is dropped without a trace |
| Outbox.WorkEnds | extcaller/extcaller.go:270-278 | after 2*maxAttempts-1 Handles whose outcome was kept the entry is finished |
| Outbox.BoundIsTight | extcaller/extcaller.go:270-278 | one Handle fewer may leave it open |
| OutboxOutcome.HandleHolds | extcaller/extcaller.go:258-330 | how a Handle ends, from the world's answers alone: what is sent in which order, when it is retried and with what on record |
| OutboxOutcome.DeadLetteredIff | extcaller/extcaller.go:262-325 | the event is dead-lettered once, last, exactly when there is no rule, no request, a host not allowed, a response not handled, a rejected follow-up or a last try that fails; otherwise never |
| OutboxOrder.FollowUpsStayInOrder | extcaller/extcaller.go:301-328 | over every run, outcomes lost to crashes included, each follow-up is sent under its own key after every earlier one of its list was accepted, and what is on record as dispatched was accepted as itself |
| OutboxOrder.FinishedIsAccounted | extcaller/extcaller.go:301-330 | an entry is finished only with every follow-up of the list in hand accepted as itself, or its event dead-lettered |
| OutboxOrder.CalledOnceOnRecord | extcaller/extcaller.go:280-299 | no call out follows a persisted call |
| Reload.State.ProspectiveCommands | adminapi/reload.go:123-138 | the live registry outside maintenance, else the loaded commands over it with the scripts not loaded taken away |
| Reload.State.ReloadFunctions | adminapi/reload.go:312-346 | the registry, the managed set and the chains given to the store's upcaster after the swap, refusals and removals included |
| Reload.ReloadsKeepTheRegistry | adminapi/reload.go:312-346 | over every sequence of reloads and modes the built-ins are served as compiled in, the registry is exactly they and the managed scripts, and the store upcasts each aggregate by its managed script's chain and no other |
| ReloadOutcome.NothingReloads | adminapi/reload.go:280-289 | outside maintenance, or with schemas that do not reconcile, nothing changes |
| ReloadOutcome.BuiltInIsKept | adminapi/reload.go:316-322 | a built-in is kept whatever is loaded for its aggregate |
| ReloadOutcome.UnloadedIsDropped | adminapi/reload.go:338-346 | a script the load does not carry is served no more |
| ReloadOutcome.LoadedIsServed | adminapi/reload.go:316-338 | a loaded script that validates is served; one that does not leaves the script the aggregate had, or none |
| ReloadPrediction.PredictionIff | adminapi/reload.go:123-170 | the prospective set is right about an aggregate in a maintenance reload if and only if what will be served for it declares the commands of the last decider loaded for it |
| ReloadPrediction.DistinctPredictionIff | adminapi/reload.go:123-170 | with distinct aggregates that is: each loaded decider is accepted or declares what is served already |
| ReloadPrediction.CleanReloadIsPredicted | adminapi/reload.go:123-170 | after any history, a reload that refuses nothing is predicted |
| ReloadPrediction.ManagedIsServedIff | adminapi/reload.go:316-346 | after a maintenance reload a managed script is the code the registry serves if and only if its aggregate was not loaded with a script that took over and then a refused one |
| ReloadPrediction.ManagedIsServed | adminapi/reload.go:312-346 | in particular with distinct aggregates |
| ReloadPrediction.ServedThroughReloads | adminapi/reload.go:312-346 | over every sequence of reloads, while none displaces a script so, every managed script is the code the registry serves |
| ReloadPrediction.LoadedTwiceSplits | adminapi/reload.go:316-338 | the smallest such load: the registry serves one script and the managed set names another |
| Upcasting.Upcast | functions/decider.go:249-268 | the loop applies the first matching transform until none is left, for every chain that ends |
| UpcastChain.UpcastChains | functions/decider.go:249-268 | the chain of an event: the first transform declared for its type and version, given the data so far, changing data and version only, until none applies or one throws |
| UpcastChain.RoutedChains | functions/decider.go:230-245 | the store sends an event down the chain of the last decider given for its aggregate, and leaves any other event as it is |
| Upcasting.ChainEndsIff | functions/decider.go:249-268 | a chain ends at all if and only if it ends within as many steps as there are transforms |
| Upcasting.RisingEnds | functions/decider.go:249-268 | when every transform raises the version every chain ends |
| Upcasting.PositiveVersionsMayCycle | functions/loader.go:585-609 | positive versions, which is all the loader asks, do not make a chain end |
| UpcastStore.UpcastReachesLatest | functions/decider.go:249-268 | for every chain that ends: the result has no applicable transform and is the same event but for data and version, and its version does not fall when the transforms rise |
| UpcastStore.UpcastIsIdempotent | functions/decider.go:356-361 | upcasting again changes nothing, for every chain that ends |
| UpcastStore.StoreUpcastsEach | functions/decider.go:230-245 | the store's upcaster sends every stream through the chain of its aggregate's last decider, whatever deciders it was built of |
| UpcastStore.OlderChainHarmlessIff | functions/decider.go:356-361 | upcasting by an older chain first and then by a newer one is the newer one alone, on every event, if and only if that holds of every single step of the older chain |
| UpcastStore.ExtendingIsHarmless | functions/decider.go:356-361 | it does when the newer script has the older one's transforms, with the same result wherever that one had one |
| UpcastStore.KeepingIsHarmless | functions/decider.go:349-361 | a script that keeps the older one's transforms as they are and only adds others does so too, and fails wherever the older chain fails |
| UpcastStore.ValidationIgnoresTheStoreIff | functions/decider.go:349-371 | for every set of deciders the store's upcaster is built of, validating a script on what the store loads, or fails to load, is validating it on the raw streams if and only if it makes good every single step of the chain the store runs for its aggregate and fails wherever that chain does |
| UpcastStore.ValidatedAsRaw | adminapi/reload.go:324-346 | then the fold validation makes is the same, stream by stream, for streams that load and streams that do not |
| UpcastStore.ExtendedScriptValidatesAsRaw | adminapi/reload.go:324-346 | in particular for a script that extends the chain the store runs and fails wherever that one does |
| UpcastStore.KeptScriptValidatesAsRaw | adminapi/reload.go:324-346 | so a script that keeps the one it replaces is validated, before the swap of the upcaster, as on the raw stream |
| UpcastStore.FoldingTwiceIsFoldingOnce | functions/decider.go:349-371 | with the script's own chain in the store, folding what the store has upcast, upcast once more, is folding the raw stream upcast once |
| UpcastStore.OlderChainShowsThrough | functions/decider.go:356-361 | a script that rewrites a transform of the chain the store runs fails that condition: it is validated on the older chain's data |
| UpcastStore.RepairIsRefused | functions/decider.go:349-352 | so does one that repairs a transform that throws: it makes good every step, yet is refused for a stream that would fold |
| Filter.FilterLexer.SkipSpace | functions/projection_reads.go:187-191 | leaves the text after its leading white space |
| Filter.FilterLexer.Take | functions/projection_reads.go:193-199 | consumes a token exactly when it is next |
| Filter.FilterLexer.Ident | functions/projection_reads.go:205-211 | the longest identifier ahead |
| Filter.FilterLexer.Value | functions/projection_reads.go:213-251 | a quoted text with its escapes, a keyword or a number, or the error where it stands |
| Filter.FilterLexer.ParseFilter | functions/projection_reads.go:143-178 | ends on every text with the terms or the error of the language, its position never past the end |
| FilterPrint.UnquoteEscape | functions/projection_reads.go:217-233 | reading a quoted text undoes escaping it |
| FilterPrint.ParseInvertsPrint | functions/projection_reads.go:143-251 | every non-empty list of terms, printed in either quotes with any white space between tokens, parses back to itself |
| FilterPrint.ReprintedParsesTheSame | functions/projection_reads.go:143-251 | whatever parses, printed afresh, parses to the same terms |
| FilterGrammar.ParsesIffSpelled | functions/projection_reads.go:143-251 | the parser accepts exactly the texts a grammar over their characters spells, as exactly those terms |
| FilterGrammar.RefusedWithReason | functions/projection_reads.go:143-251 | and refuses any other with what is missing and the character where it is missing |
| Outcomes.FitsOutcome | emschema/verify.go:395-414 | true if and only if the events are the alternative's, each once in order or any number of times where repeated |
| Outcomes.GreedyExact | emschema/verify.go:393-414 | no backtracking is ever needed |
| Outcomes.LanguageStepsIff | emschema/verify.go:393-414 | what an alternative can emit, event by event: a repeated name none or once more, any other exactly once, and nothing after the last |
| Names.SplitWordsLoop | emschema/names.go:144-174 | the words the split specification finds, in any alphabet |
| Names.SplitLosesNothing | emschema/names.go:144-174 | the words of any text in any alphabet, none empty, concatenate back to it |
| Names.PascalLoop | emschema/names.go:178-202 | the identifier the pascal specification writes, in any alphabet |
| Names.NameRoundTrip | emschema/names.go:114-140 | the display name of every type name of regular letters and digits gives it back, whatever the id |
| Names.IdRoundTrip | emschema/names.go:114-132 | the id of the type an id gives is that id again, for every such type name |
| NamesSpelled.SplitsWhereWordsBegin | emschema/names.go:144-174 | a name is cut before a capital that follows none or is followed by a small letter, and nowhere else |
| NamesSpelled.IdIsTheLoweredName | emschema/names.go:120-132 | an id is the type name in small letters with a dash before each of those words but the first |
| NamesSpelled.NameIsTheSpacedName | emschema/names.go:134-139 | a display name is the type name with spaces there |
| NamesSpelled.PascalKeeps | emschema/names.go:178-202 | exactly the letters and the digits behind one are kept, and the first letter of each word is raised |
| NamesSpelled.TypeNameFrom | emschema/names.go:108-118 | the id, its dashes read as spaces, is used only when the name has no letter |
| Names.AsciiIsRegular | emschema/names.go:144-202 | every ASCII letter and digit is regular, so both round trips hold of every ASCII type name |

## Left out

- Deciding.Registry.DecideWithMeta: reveal, protect and encode answer as deterministic functions; a key service that answers differently the second time is not modelled, and an event with both Data and Payload is an encoding that fails.
- BatchWindow.BatchedEqualsSerial: assumes what the overlay's own design assumes, that evolve looks at nothing a staged event lacks and that deciders emit at the latest version (RawVersionBreaksAgreement and OldVersionBreaksAgreement have the other cases); a window CommitBatch refuses has no committed log to compare, so what happens then is stated by PassIsTheSerialRunIff and StuckIff.
- BatchFinal.FinalIff: a sequence is a natural number here, where the column would take a negative one from an import.
- BatchLostMark.LostMarkUndoesRefusal: one run of one decider; the general statement is RefusalFinalIff.
- BatchLostMark.LostMarkUndoesEmptySuccess: one run of one decider; the general statement is EmptySuccessFinalIff.
- BatchSafety.OutcomesAreTruthful: at most one outcome and a truthful one, not delivery: a row is inserted before its waiter is registered, so a pass may answer in between.
- BatchStuck.StuckForEver: with the same deciders throughout; a reload that changes what a command decides frees the window.
- BatchWriter.Writer.Enqueue: reads the log head and inserts the row as one step, where another append may fall between; the recorded position is then only lower, which the machine allows.
- DeliverySafety.RebuildSafety: the registered consumers and their code stay the same through a run; re-registering a name with other code is another catalog.
- DeliverySafety.CaughtUpIsTheSinglePass: not promised of a consumer that keeps its position in process memory, which starts again where that store does.
- DeliveryEngine.Engine.RunOnce: the log does not grow during a pass (Append grows it between passes, the machine between any two steps; a pass over a log that kept growing need not end), the stop signal is a crash between two events, and Status and lag are not recorded.
- Delivery: what Poll's upcaster does is part of each consumer's own function.
- ProjectionRuns.DryIsLive: keys that print alike are outside it, as they are one row to the simulation; the itemRows op is not modelled, for its planner is elsewhere; a script reads its rows as a map by printed key, so the order and limit of a read, and reading a record by id, which the dry run refuses, are not.
- ProjectionApply.Collections.ApplyOp: a field stores the value it is given; what a column's own type does to it on save is not modelled, an array entry that is no object decodes to an empty one, and a failing query or save is Commit's failing transaction.
- ProjectionApply.Simulation.SimulateOp: of the ops that share the live side's schema resolution; the itemRows op has its own simulation elsewhere.
- ProjectionApply.Simulation.RunProjectionOver: the shape checks that turn a value into an op or an error, which both sides share.
- Verdicts.Verifier.VerifyTier: one call is one step; concurrent calls sharing a round trip, the stale log line and a corrupt timestamp other than as a failed lookup are not modelled, and HashToken is taken to tell tokens apart where a statement is about one token.
- Verdicts: of a token only its exp claim; the iat and nbf checks of the JWT library only ever shorten trust.
- Outbox.Consumer.Handle: back-off times and the worker's polling are not modelled.
- Reload: effect functions, reactors, HTTP functions, cron jobs and projections swap in the same pass without touching the deciders, and the report's lists are not kept; an error before the decider swap is one outcome, a failed reconcile.
- Upcasting.Upcast: a chain that does not end is not run; for it ChainEndsIff says the loop does not stop (unless a transform throws).
- UpcastStore.OlderChainShowsThrough: one pair of chains; the general statement is ValidationIgnoresTheStoreIff.
- ReloadPrediction.LoadedTwiceSplits: one load; the general statement is ManagedIsServedIff.
- Filter: the rows a simulated read returns for its terms; a word that is a number is whatever the number parser says it is.
- FilterGrammar.ParsesIffSpelled: an empty text is taken to be no number, as the number parser has it.
- FilterPrint.ParseInvertsPrint: numbers round-trip as far as their printed digits are one word the number parser reads back.
- Names.NameRoundTrip: of letters whose capital comes back from its small letter, as all of ASCII does and a dotted capital I, say, does not.
- Names.IdRoundTrip: of the same letters.
- Metadata is a map of texts rather than a JSON object, so metadata that is not an object is not modelled; ids and timestamps are drawn once per position.
- Subscribers, nudges, tickers, goroutine scheduling, dead-letter listing, metrics and readiness: wiring around the protocols.
- The gateway, dashboard, catalog, encryption, import documents, schema mapping and lint: long, mostly one-branch code outside these protocols.
