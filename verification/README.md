# Verification of the bounded cores

The repository is a Windows automation server. Most of it is system calls; under
them sit several self-contained algorithms and protocols, and this project models
those in Dafny and proves what they are for:

- **Observation log** (`Observation*.dfy`, `src/observation.rs`): one event log shared
  by many watches, with caps per watch and for all; readers that follow a cursor;
  waits that decide satisfied, failed or timed out; restart from a checkpoint.
  `ObservationLog` has the operations on values, `ObservationAccounting` the store
  invariant and what an append evicts, `ObservationHistory` relates the log to
  everything ever recorded, `ObservationRecording` says what is recorded and when a
  watch stops, `ObservationRead` has pages and `ObservationFilter` what they hold, field
  by field, `ObservationWaits` has waits and `ObservationVerdicts` what each look decides,
  `ObservationRestart` has snapshots and `ObservationSnapshots` which ones restore,
  `ObservationLife` whole lives of a host over any number of crashes, and
  `ObservationStore` the class whose methods update the fields in place and are proved
  to compute those operations.
- **Workflow engine** (`JsonValue`, `JsonPointer`, `Workflow*.dfy`, `src/workflow.rs`):
  the validator and the evaluator of data bindings, proved to agree, with what a
  template may be (`WorkflowTemplates`), and the step machine with its write-ahead
  marker as a transition system with checkpoints, interruptions, closing connections
  and crashes; what is safe in every run (`WorkflowSafety`, `WorkflowTheorems`), what
  is decided and can be reached (`WorkflowProgress`), and what a step sees of the ones
  before it (`WorkflowMemory`).
- **Execution registry and startup** (`Execution*.dfy`, `src/execution.rs`): the budget
  of records and output bytes as a class, the startup protocol as a transition
  system over the registry lock, what it decides and can reach (`ExecutionProgress`),
  and the reservations of starts on top of it.
- **Frame changes** (`Frame*.dfy`, `src/desktop/observation.rs`): the tile comparison
  with its runs and regions, and the bounded frame cache.
- **OCR** (`Ocr*.dfy`, `Arithmetic.dfy`, `src/desktop/ocr.rs`): fitting, plane layout with
  signed stride, the pixel copy, the text budget, and the slot shared by caller and
  callback.
- **Overlay** (`Overlay*.dfy`, `src/overlay.rs`): the light table, the edge painter and
  the envelope.
- **Native runtime** (`NativeRuntime.dfy`, `src/runtime.rs`): the two semaphores.
- **Handshake** (`Handshake.dfy`, `src/handshake.rs`): the stream before `initialize`.

`Wrappers`, `FiniteSets` and `Arithmetic` hold what several of these share.

`dafny verify dfyconfig.toml` checks everything.

Code that updates state in place is a class or a method with loops, proved against
a function or a predicate about which the properties are then proved. Protocols that
several threads or tasks share are transition systems: one action is what happens
under one lock, every interleaving is a sequence of actions, and the main results
are about all such sequences. Beside what never happens stand what each step decides,
in terms of the state and the input alone, and runs that reach their goal.

## Conventions

- Identifiers (UUIDs, epochs, tokens) are numbers, and a new one is one not used
  before. Clocks, lateness of deadlines, encoded sizes, whether a provider has come
  to rest, and whether a system call succeeds are inputs of the step that uses them.
- A checkpoint is one cell that is replaced atomically; a failed write leaves it. What
  happened after the last one is lost in a crash; the model remembers it as the history
  that earlier results are judged by.
- A process tree that is terminated, or whose host dies, is gone: the job object ends
  it (`src/execution/native.rs:182-185`, `src/execution/native.rs:458`). A tree that the
  supervisor saw end stays ended.
- One assumption about text lengths is stated where it is used: a gap that replaces an
  event too large to keep encodes to at most 1024 bytes, the least byte cap of a watch.
- Where the validator and the evaluator of bindings stop at the first fault, the model
  has the set of all of them; it is empty exactly when the code finds none.
- `Codec` values hold what serialization contributes; JSON text itself is abstract.

## Results that are conditions

- `OcrBitmap.ValidMeansRowsFit`: acceptance of a plane is the same as "rows inside and
  disjoint" except that a plane of one row must still declare a stride as long as it.
- `OverlayEnvelope.TriggerReadsTheClock`: a trigger reads the level without advancing
  first, so it reads the level that the clock calls for if and only if the phase is not
  overdue; `OverlayEnvelope.TriggerDependsOnTicks` is an input where it is.
- `FrameCompare.Compare`: a comparison fails for a corner beyond 32 bits exactly when a
  run of changed tiles begins there.
- `ObservationLife.EveryCrashIsSurvived`: a checkpoint restores if and only if its cursor
  leaves room for one restart marker per persistent watch; otherwise the host does not
  come up.

## Model

| member | source | states |
|---|---|---|
| `ObservationLog.FirstOwn` | src/observation.rs:1704-1708 | the position found is the first event of that watch: no earlier event belongs to it |
| `ObservationAccounting.RemovedSums` | src/observation.rs:1640-1653 | removing any one event lowers the byte sum, and the count and sum of exactly its own watch, by exactly that event |
| `ObservationAccounting.DiscardKeepsConsistent` | src/observation.rs:1640-1653 | discarding at any position keeps ids increasing below the next id, all counters equal to sums over the log, and recorded = retained + dropped for every watch |
| `ObservationAccounting.DiscardKeepsCapped` | src/observation.rs:1640-1653 | a discard never breaks a per-watch or global cap |
| `ObservationAccounting.LeastDropIsLeast` | src/observation.rs:1694-1716 | the prefix dropped is the shortest after which the condition holds |
| `ObservationAccounting.OwnEvictionIsLeast` | src/observation.rs:1694-1713 | the per-watch loop ends, makes room under that watch's caps by dropping the shortest prefix of its own events, and touches no other watch's events |
| `ObservationAccounting.CrowdedHasEvents` | src/observation.rs:1714-1716 | with the accounts in order a full store is never empty, which is why the global loop ends |
| `ObservationAccounting.FrontEvictionIsLeast` | src/observation.rs:1714-1716 | the global loop ends and drops the shortest prefix of the whole log that makes room |
| `ObservationAccounting.AdmittedFits` | src/observation.rs:1655-1692 | an event of any size is stored as something that fits the event limit and the watch's byte cap, and is replaced, by a gap with the same identity, exactly when it does not fit |
| `ObservationAccounting.PushKeepsConsistent` | src/observation.rs:1717-1741 | adding the next event keeps every counter equal to its sum |
| `ObservationAccounting.PushKeepsLimited` | src/observation.rs:1723-1739 | the event that reaches a recording limit stops its watch: afterwards every starting or recording watch is below both limits |
| `ObservationAccounting.PushKeepsCapped` | src/observation.rs:1717-1741 | with room made, adding an event breaks no cap |
| `ObservationAccounting.AppendPhases` | src/observation.rs:1655-1741 | after both eviction phases the invariant holds, both kinds of room exist, and the pushed log is valid |
| `ObservationAccounting.AppendKeepsValid` | src/observation.rs:1655-1741 | append keeps the whole invariant for every event: accounts, caps, and that a watch at its recording limit is not live |
| `ObservationAccounting.AppendEvictsTheLeast` | src/observation.rs:1655-1741 | append stores the event last after the two shortest evictions, and every event is either retained or counted as dropped |
| `ObservationAccounting.EmptiedExactly` | src/observation.rs:1627-1638 | emptying a watch leaves the other watches' events in order and their counters as they were |
| `ObservationAccounting.ForgetRemovesExactly` | src/observation.rs:1627-1638 | forgetting removes the watch with exactly its events and keeps the log valid |
| `ObservationHistory.DiscardKeepsCovered` | src/observation.rs:1640-1653 | an event that leaves the log is covered by its watch's last dropped id |
| `ObservationHistory.OwnEvictionKeepsCovered` | src/observation.rs:1694-1713 | the same over the whole per-watch loop |
| `ObservationHistory.FrontEvictionKeepsCovered` | src/observation.rs:1714-1716 | the same over the whole global loop |
| `ObservationHistory.AppendKeepsGood` | src/observation.rs:1655-1741 | append extends the history by exactly the stored event; everything ever recorded stays retained or admitted as dropped |
| `ObservationHistory.StatusKeepsGood` | src/observation.rs:769-814 | changes of status alone keep the history true, and no inactive watch becomes active |
| `ObservationHistory.ForgetKeepsGood` | src/observation.rs:1627-1638 | forgetting one watch keeps the history true for all others |
| `ObservationHistory.CreateKeepsGood` | src/observation.rs:867-979 | a new watch starts with an empty, consistent account |
| `ObservationHistory.FinishKeepsGood` | src/observation.rs:1831-1854 | the end of a provider keeps the invariant, also when its watch is retired and forgotten |
| `ObservationHistory.StepKeepsGood` | src/observation.rs:1627-1854 | every operation keeps the invariant, and ids, gap marks and drop marks only move forward |
| `ObservationHistory.RunKeepsGood` | src/observation.rs:1627-1854 | so does every sequence of operations |
| `ObservationRead.HitsBelong` | src/observation.rs:1096-1116 | the wanted entries are exactly the retained ones after the cursor that are visible and match, in id order |
| `ObservationRead.ScanIsPrefix` | src/observation.rs:1096-1116 | a page is a prefix of the wanted entries, cut only by the limit or the byte budget |
| `ObservationRead.ScanStopsBefore` | src/observation.rs:1096-1116 | a cut page leaves its cursor before the first entry held back |
| `ObservationRead.PageMeaning` | src/observation.rs:1036-1131 | a page holds the first wanted entries; if it holds all, its cursor is the end of the recording, otherwise it delivered at least one and stands just before the next |
| `ObservationRead.PageIsTrue` | src/observation.rs:1036-1131 | whatever a page delivers was recorded, is wanted and lies in the range that the page covers |
| `ObservationRead.PageIsComplete` | src/observation.rs:1036-1131 | without a reported retention gap, a page delivers every recorded wanted event of its range |
| `ObservationRead.TurnKeepsFaithful` | src/observation.rs:1036-1131 | following the cursor never repeats an event, keeps id order, and loses nothing without a reported gap |
| `ObservationRead.TurnAdvances` | src/observation.rs:1036-1131 | a page that is not the last strictly advances |
| `ObservationRead.ReaderMissesNothing` | src/observation.rs:1036-1131 | over every interleaving with all operations, a reader has every matching event of a still present watch exactly once and in order, unless a page reported a retention gap |
| `ObservationRecording.EmissionIsStored` | src/observation.rs:1765-1782 | what a live watch emits is stored last, as described when it fits, and joins the history |
| `ObservationRecording.EmittedIsDelivered` | src/observation.rs:1036-1131 | what a live watch emits is exactly the next page of everyone who reads on from before it, may see the watch and asks for it: once, and without a gap report |
| `ObservationRecording.RecordSays` | src/observation.rs:1655-1692 | events, losses and failures are written down as told; one too large to keep is replaced by a gap that says so, with its size |
| `ObservationRecording.SpentIsNotLive` | src/observation.rs:1723-1739 | in every valid log a watch at its recording limit takes no more events |
| `ObservationRecording.StopStops` | src/observation.rs:769-1005 | a stop request, a failure, the end of the provider and, for a persistent watch, a lost checkpoint each end its taking of events |
| `ObservationRecording.StoppedStaysQuiet` | src/observation.rs:1765-1782 | over every run, a watch that is not live never records what its provider emits |
| `ObservationRecording.NothingPastTheLimit` | src/observation.rs:1723-1782 | over every run, nothing its provider emits is recorded once a watch has reached its recording limit |
| `ObservationRecording.EmitDecides` | src/observation.rs:1723-1782 | an emission counts one event, and the watch stays as it was exactly while it is below its limits; at a limit it is stopping |
| `ObservationRecording.LossIsTold` | src/observation.rs:1784-1808 | reported losses are added to the account and a gap newer than everything before marks them |
| `ObservationRecording.FailureIsTold` | src/observation.rs:1810-1829 | a failure is in the record of the watch and in the newest event |
| `ObservationRecording.CheckpointLossEnds` | src/observation.rs:769-814 | a lost checkpoint fails exactly the active persistent watches, with the reason |
| `ObservationRecording.RemovalDecides` | src/observation.rs:1007-1034 | a watch is removed on request if and only if it has ended and its provider has come to rest |
| `ObservationRecording.FinishDecides` | src/observation.rs:1831-1854 | the end of a provider stops its watch, unless it failed, and takes away a retired one |
| `ObservationRecording.StopDecides` | src/observation.rs:990-1005 | a stop request makes exactly an active watch stopping |
| `ObservationRecording.CloseForgetDecides` | src/observation.rs:1403-1441 | a closed connection forgets a watch at once exactly if its provider has come to rest |
| `ObservationRecording.CreatedIsReady` | src/observation.rs:867-979 | with room, an acceptable watch is created with what was asked for, and is recording once ready |
| `ObservationRecording.RunKeepsRetired` | src/observation.rs:1403-1441 | over every run a retired watch stays retired until it is gone |
| `ObservationRecording.ClosedIsForgotten` | src/observation.rs:1403-1441 | every watch of a closed connection is forgotten when its provider ends, or at once if that had come to rest, whatever happens in between |
| `ObservationRecording.OthersAreSpared` | src/observation.rs:1403-1441 | closing a connection retires no other watch, and no persistent one |
| `ObservationRecording.LogStaysSmall` | src/observation.rs:1694-1716 | a valid log holds at most 8192 events, 16 MiB and 128 watches |
| `ObservationFilter.WantedMeansAgrees` | src/observation.rs:493-540 | an event is wanted exactly when it is visible and agrees with every field of the filter, each spelled out |
| `ObservationFilter.AnsweredExactly` | src/observation.rs:1036-1075 | a read is answered exactly when filter, limit, watch and cursor are acceptable, each spelled out |
| `ObservationFilter.PageIsExact` | src/observation.rs:1036-1131 | a page holds exactly the retained events of its range that the reader may see and that agree with every field, time bounds included |
| `ObservationFilter.PageIsFull` | src/observation.rs:1096-1116 | a page begins with the first wanted events and holds one back only if it has as many as asked for or the next would exceed 4 MiB |
| `ObservationFilter.FlagsAreExact` | src/observation.rs:1117-1131 | a page reports a loss, a recording gap or a restart exactly when there is one for a watch it speaks for |
| `ObservationFilter.LooserLosesNothing` | src/observation.rs:493-540 | dropping a field or widening the window never removes an event |
| `ObservationFilter.WindowsSplit` | src/observation.rs:515-520 | an event is on exactly one of the pages until t and since t + 1, if it is on the page without bounds |
| `ObservationWaits.QuietPageIsProof` | src/observation.rs:1198-1290 | an empty page without gap reports proves that no event of its range matches or is a gap |
| `ObservationWaits.LookIsHonest` | src/observation.rs:1198-1290 | one iteration of a wait decides only what the recorded history supports |
| `ObservationWaits.LostMatchFails` | src/observation.rs:1198-1290 | a match that was recorded but is gone ends the wait as failed, never as timed out |
| `ObservationWaits.ChangeKeepsHonest` | src/observation.rs:1198-1290 | no operation on the log invalidates what a wait already settled |
| `ObservationWaits.StepKeepsInv` | src/observation.rs:1142-1461 | every step of waits, log, connections, cancellations, shutdown and checkpoints keeps all of it, including: a wait runs exactly when it has a handle, and each record is honest about the epoch it was started in |
| `ObservationWaits.TerminalIsAbsorbing` | src/observation.rs:1299-1322 | a terminal outcome never changes |
| `ObservationWaits.StepKeepsAsked` | src/observation.rs:1370-1382 | no step ends a wait as canceled whose token was not canceled, and canceled tokens stay canceled |
| `ObservationVerdicts.HitsAreMatches` | src/observation.rs:1198-1252 | the wanted entries of a look are the awaited events of the log, the first of them first |
| `ObservationVerdicts.LookIsRight` | src/observation.rs:1198-1297 | the verdict of every look, told by the log: a retained match ends it Satisfied with the first such event and its cursor; without a match a gap or a stopped watch ends it Failed; without those lateness ends it TimedOut; otherwise it goes on |
| `ObservationVerdicts.VerdictIsRecorded` | src/observation.rs:1299-1322 | what a look decided is what a running record shows once it settles |
| `ObservationVerdicts.DecisionStands` | src/observation.rs:1198-1297 | nobody else changes what a wait has decided |
| `ObservationVerdicts.MatchSatisfies` | src/observation.rs:1242-1252 | a look at a log that retains a match leaves the record Satisfied with the least such event |
| `ObservationVerdicts.GoingOnAdvances` | src/observation.rs:1283-1297 | a look that goes on leaves the record running and its cursor at the end of the recording |
| `ObservationVerdicts.WaitStarts` | src/observation.rs:1142-1197 | with room, a sound filter and an open connection a wait starts running at its cursor |
| `ObservationVerdicts.WaitIsRefused` | src/observation.rs:1142-1197 | a wait beyond 128, of a canceled connection or with an unsound filter does not start |
| `ObservationVerdicts.CancelIsNoted` | src/observation.rs:1370-1374 | canceling a wait cancels its own token and no other |
| `ObservationVerdicts.CancelIsRecorded` | src/observation.rs:1299-1322 | a canceled wait that still runs ends Canceled where it stood; one that has ended keeps its outcome |
| `ObservationVerdicts.ShutdownAsksAll` | src/observation.rs:1443-1448 | a host going down cancels every token and ends no wait by itself |
| `ObservationVerdicts.LossIsRecorded` | src/observation.rs:769-814 | a lost checkpoint fails exactly the persistent waits that still run, with the reason |
| `ObservationVerdicts.CloseTakesItsWaits` | src/observation.rs:1403-1441 | the close of a connection removes exactly its own waits and cancels those that run |
| `ObservationVerdicts.ForgetDecides` | src/observation.rs:1370-1382 | forgetting takes away one wait, and only once it has ended |
| `ObservationRestart.StepKeepsEncoded` | src/observation.rs:1655-1741 | stored sizes are those of the encoder after every operation, which restoring relies on |
| `ObservationRestart.WatchesLoad` | src/observation.rs:1532-1552 | saved persistent watches load, each once and interrupted |
| `ObservationRestart.WaitsLoad` | src/observation.rs:1553-1569 | saved persistent waits load, each once, none of them running |
| `ObservationRestart.EventsLoad` | src/observation.rs:1570-1594 | events in order and within the limits load back as the same entries |
| `ObservationRestart.RefilledShape` | src/observation.rs:1570-1594 | loading puts the events back in order and their bytes back into the sum |
| `ObservationRestart.RefilledWatch` | src/observation.rs:1570-1594 | and gives each watch back exactly the count and bytes of its own events |
| `ObservationRestart.RevivedIsValid` | src/observation.rs:1510-1594 | the reloaded log satisfies the whole invariant |
| `ObservationRestart.RevivedIsTrue` | src/observation.rs:1510-1594 | and is true to the part of the history that was persistent |
| `ObservationRestart.MarkersMeaning` | src/observation.rs:1595-1611 | appending the restart gaps keeps the log good and encoded and gives every watch a gap newer than everything before |
| `ObservationRestart.SnapshotLoads` | src/observation.rs:1479-1594 | a snapshot of any valid state passes every check of restore |
| `ObservationRestart.RestartTheorem` | src/observation.rs:1479-1611 | the snapshot of any good log, restored before or not, restores exactly when the cursor has room for the markers; the new log is as good as the old one; nothing is active or running; exactly the persistent watches and waits are there, finished waits as they were; each of their retained events is there or admitted as dropped; every watch has a gap newer than the old range |
| `ObservationRestart.OldCursorsSeeTheGap` | src/observation.rs:1117-1131 | a cursor from before the restart reads a page that reports the recording gap as soon as the page covers one watch that was carried over |
| `ObservationSnapshots.WatchesLoadExactly` | src/observation.rs:1532-1552 | watches load exactly when each is persistent, acceptable and there once |
| `ObservationSnapshots.WaitsLoadExactly` | src/observation.rs:1553-1569 | waits load exactly when each is persistent, with a sound filter and there once |
| `ObservationSnapshots.EventsLoadExactly` | src/observation.rs:1570-1594 | events load exactly when their ids increase below the next one, each has its watch and all fit |
| `ObservationSnapshots.RestoresExactly` | src/observation.rs:1510-1594 | any checkpoint, whoever wrote it, restores if and only if it meets all conditions, each spelled out |
| `ObservationSnapshots.RefusalSays` | src/observation.rs:1510-1594 | a refusal names what is wrong first: version, size, cursor, watches, waits or events |
| `ObservationRestart.TotalsGoOn` | src/observation.rs:1479-1531 | the totals of dropped events and bytes go on from where the last host left them |
| `ObservationRestart.MarkerSays` | src/observation.rs:1595-1611 | a restart gap names the restart and the previous epoch, an unknown loss, and that nothing was replayed |
| `ObservationLife.StepMovesForward` | src/observation.rs:1142-1461 | no step of a process takes the log back, and stored sizes stay those of the encoder |
| `ObservationLife.RestoredAreHonest` | src/observation.rs:1553-1569 | the wait records a crash hands on stay true to the history of the epochs they were started in |
| `ObservationLife.CrashKeepsAlive` | src/observation.rs:1510-1611 | ending the process anywhere and restoring its last checkpoint under a new epoch keeps the whole invariant, for the next crash as well |
| `ObservationLife.EventKeepsAlive` | src/observation.rs:712-767 | so does every step, checkpoint and crash |
| `ObservationLife.LifeKeepsAlive` | src/observation.rs:712-767 | and every sequence of them |
| `ObservationLife.EveryCrashIsSurvived` | src/observation.rs:1510-1611 | in every state reachable from a new host over any number of crashes: the next crash is survived exactly when the last checkpoint has room for the markers, and then exactly what it held persistently is there, marked as interrupted |
| `ObservationLife.TimeoutIsNeverAGuess` | src/observation.rs:1198-1290 | in every reachable state, over any number of crashes, a wait on a watch has timed out only if no event recorded for it in (start, final cursor], in the epoch of the wait, matches the deadline-clipped filter and none is a gap |
| `ObservationLife.SuccessIsReal` | src/observation.rs:1198-1290 | in every reachable state a satisfied wait holds an event that was recorded after its start, that its owner could see and that matches |
| `ObservationLife.CanceledWasAsked` | src/observation.rs:1370-1382 | in every reachable state a canceled wait had its token canceled |
| `ObservationLife.SweptOwnsNothing` | src/observation.rs:1403-1441 | in every reachable state a connection closed and then swept owns no wait, whatever starts raced with it and whatever was restored since |
| `ObservationLife.LifeKeepsTelling` | src/observation.rs:1595-1611 | the restart gap of a watch is never lost, over any steps, checkpoints and further crashes |
| `ObservationLife.InterruptionIsSeen` | src/observation.rs:1117-1131 | whatever happens after a survived crash, a reader from before it whose page covers a watch of that checkpoint is told of the recording gap, and of the restart exactly when its epoch is not the current one |
| `ObservationStore.Store.Discard` | src/observation.rs:1640-1653 | the fields afterwards are those of the discard whose sums are proved above |
| `ObservationStore.Store.Position` | src/observation.rs:1704-1708 | finds the first event of a watch |
| `ObservationStore.Store.ForgetWatch` | src/observation.rs:1627-1638 | the fields afterwards are those of forgetting |
| `ObservationStore.Store.MakeOwnRoom` | src/observation.rs:1694-1713 | the loop ends with the shortest eviction of the watch's own events |
| `ObservationStore.Store.MakeFrontRoom` | src/observation.rs:1714-1716 | the loop ends with the shortest eviction of the log |
| `ObservationStore.Store.Append` | src/observation.rs:1655-1741 | the fields afterwards are those of the append theorem; waits are untouched |
| `ObservationStore.Store.Emit` | src/observation.rs:1765-1782 | records only while the provider is not canceled and the watch is starting or recording; waits are untouched |
| `ObservationStore.Store.Lost` | src/observation.rs:1784-1808 | adds up the provider's losses as far as they are known and records a gap with them; waits are untouched |
| `ObservationStore.Store.Fail` | src/observation.rs:1810-1829 | fails the watch and records it; waits are untouched |
| `ObservationStore.Store.Finish` | src/observation.rs:1831-1854 | stops the watch unless it failed; a retired one is forgotten; waits are untouched |
| `ObservationStore.Store.Ready` | src/observation.rs:1751-1763 | a starting watch records from now on; nothing else changes |
| `ObservationStore.Store.RequestStop` | src/observation.rs:990-1005 | an active watch is stopping; nothing else changes |
| `ObservationStore.Store.ReadLoop` | src/observation.rs:1096-1116 | the loop computes the page whose meaning is proved above |
| `ObservationStore.Store.Survey` | src/observation.rs:1117-1131 | reports a gap exactly when a selected watch has one after the cursor |
| `ObservationStore.Store.Refuse` | src/observation.rs:1036-1075 | refuses exactly what the page theorem excludes |
| `ObservationStore.Store.Read` | src/observation.rs:1036-1131 | returns the page of the page theorem, or the refusal |
| `ObservationStore.Store.FinishWait` | src/observation.rs:1299-1322 | ends a running wait once, and no other |
| `ObservationStore.Store.SignalWait` | src/observation.rs:1370-1374 | cancels the token of a wait that has one and ends nothing |
| `ObservationStore.Store.SignalWaits` | src/observation.rs:1443-1448 | cancels every token and ends nothing |
| `ObservationStore.Store.SweepWaits` | src/observation.rs:1403-1441 | removes exactly the waits of the connection |
| `ObservationStore.Store.LosePersistence` | src/observation.rs:769-814 | fails every persistent active watch and running wait and nothing else |
| `ObservationStore.Store.TakeSnapshot` | src/observation.rs:1479-1508 | the snapshot is the one the restart theorem restores |
| `ObservationStore.LoadEvents` | src/observation.rs:1570-1594 | succeeds exactly when order, owners and limits are right, with the log that loading specifies |
| `ObservationStore.RestoreStore` | src/observation.rs:1510-1611 | for any snapshot, well formed or not: succeeds exactly when the specified restore does, with the same store |
| `JsonPointer.UnescapeEscape` | src/workflow.rs:1098-1110 | reading back an escaped token gives the token (section 4 of RFC 6901) |
| `JsonPointer.PointerRoundTrip` | src/workflow.rs:1098-1110 | a printed path of arbitrary keys reads back as that path and finds what walking it finds |
| `WorkflowBindings.ValidatedResolves` | src/workflow.rs:1042-1124 | an accepted template resolves exactly when all its bindings are available, and fails for nothing else: not for depth, shape or an unknown name |
| `WorkflowBindings.ResolveIsSubstitution` | src/workflow.rs:1086-1124 | the result shows at every path what one simultaneous substitution shows; substituted data are not scanned again |
| `WorkflowBindings.ShapesDetermine` | src/workflow.rs:1086-1124 | those shapes determine the result, so the reference is complete |
| `WorkflowBindings.NothingToResolve` | src/workflow.rs:1086-1124 | without bindings a template is its own resolution |
| `WorkflowEngine.Validate` | src/workflow.rs:991-1040 | the loop accepts exactly the definitions whose limits hold, names measured in UTF-8 bytes, whose tools exist, whose names differ and whose bindings name earlier steps |
| `WorkflowEngine.AcceptedStepResolves` | src/workflow.rs:590-609 | for every accepted definition, resolving step i fails only when an earlier result or pointer target is absent |
| `WorkflowTemplates.AcceptedExactly` | src/workflow.rs:1042-1084 | the validator accepts a template exactly when every node at every path is as it should be: depth at most 32, and bindings of the right shape to known names |
| `WorkflowTemplates.DecimalReadsBack` | src/workflow.rs:1098-1110 | an array index printed in decimal reads back as that index |
| `WorkflowTemplates.PointerFollows` | src/workflow.rs:1098-1110 | every place in a value, through objects and arrays, has a pointer that leads exactly there |
| `WorkflowTemplates.BindingHandsOver` | src/workflow.rs:1086-1124 | a binding hands over exactly the part of the earlier result that its pointer names |
| `WorkflowSafety.PrepareKeepsInv` | src/workflow.rs:590-613 | resolving a step keeps the log and the checkpoint consistent |
| `WorkflowSafety.EnterKeepsInv` | src/workflow.rs:464-514 | entering a step adds its marker at the end of the log, in declared order |
| `WorkflowSafety.RecordKeepsInv` | src/workflow.rs:515-588 | storing a result replaces the marker and goes on only past what may be passed |
| `WorkflowSafety.SnapshotKeepsInv` | src/workflow.rs:318-329 | a checkpoint being taken agrees with memory |
| `WorkflowSafety.WriteKeepsInv` | src/workflow.rs:318-366 | a checkpoint landing or failing keeps markers on disk for every dispatched step |
| `WorkflowSafety.SendKeepsInv` | src/workflow.rs:613-640 | dispatching keeps at-most-once and write-ahead |
| `WorkflowSafety.StartKeepsInv` | src/workflow.rs:377-462 | starting keeps the invariant, also when refused |
| `WorkflowSafety.FinishKeepsInv` | src/workflow.rs:715-748 | the end of a task leaves a terminal record, or none for a closed connection |
| `WorkflowSafety.CrashKeepsInv` | src/workflow.rs:922-962 | losing the process and restoring keeps it |
| `WorkflowSafety.StepKeepsInv` | src/workflow.rs:377-962 | so does every step of every interleaving |
| `WorkflowTheorems.MarkerPrecedesDispatch` | src/workflow.rs:610-619 | when a persistent action is dispatched, the durable checkpoint already shows its step running |
| `WorkflowTheorems.CheckpointsKeepTheStep` | src/workflow.rs:318-329 | from then on every checkpoint that lands holds the step, over every run and crash |
| `WorkflowTheorems.NeverDispatchedTwice` | src/workflow.rs:464-640 | no (workflow, step) is dispatched twice over any sequence of crashes and restarts |
| `WorkflowTheorems.RecoveryAdmitsTheAction` | src/workflow.rs:922-962 | after a restart a dispatched action is in the log, finished, with its result or saying that it may have completed |
| `WorkflowTheorems.StepLogIsPrefix` | src/workflow.rs:464-588 | in every reachable state the log is an in-order prefix of the declared steps with at most its last entry running; earlier failures allowed going on; every finished action has a result or may have completed |
| `WorkflowTheorems.SatisfiedMeansAll` | src/workflow.rs:464-588 | a satisfied workflow ran all declared steps, each satisfied |
| `WorkflowTheorems.RunningHasHandle` | src/workflow.rs:715-748 | a workflow runs exactly while it has a cancellation handle |
| `WorkflowTheorems.TerminalIsAbsorbing` | src/workflow.rs:715-748 | a terminal record never changes while the host lives |
| `WorkflowTheorems.SweptOwnsNothing` | src/workflow.rs:851-869 | a swept connection owns only workflows whose task has not finished yet |
| `WorkflowStore.Store.PutStep` | src/workflow.rs:675-690 | replaces the entry of that name or adds one at the end |
| `WorkflowStore.Store.PutResult` | src/workflow.rs:692-713 | refused exactly when there is no room or no marker; otherwise the result takes the marker's place |
| `WorkflowStore.Store.Finish` | src/workflow.rs:715-748 | for any identifier: ends a running record once, gives up its handle, and removes it if its connection is gone |
| `WorkflowStore.Store.Cancel` | src/workflow.rs:761-782 | not found for a stranger; otherwise the proved cancel transition, then forgetting exactly when asked and the workflow has ended |
| `WorkflowStore.Store.ShutdownConnection` | src/workflow.rs:851-869 | the fields are those of the proved sweep transition |
| `WorkflowStore.RecoverSteps` | src/workflow.rs:922-962 | every running step is failed and may have completed; the others are as they were |
| `WorkflowStore.Restore` | src/workflow.rs:922-962 | rejected exactly when too large, unfit or not persistent; otherwise every record is recovered |
| `WorkflowProgress.EndIsTheTruth` | src/workflow.rs:464-588 | in every run a task ends Satisfied if and only if every declared step was satisfied |
| `WorkflowProgress.EnterDecides` | src/workflow.rs:473-514 | the top of the loop in every run: past the last step the true outcome; otherwise canceled, timed out, or the next declared step with its marker |
| `WorkflowProgress.FinishIsTheTruth` | src/workflow.rs:715-748 | the record of a finished task in every run: gone with its connection, Failed after a failed clean-up or lost persistence, and otherwise Satisfied if and only if every declared step was |
| `WorkflowProgress.KeepDecides` | src/workflow.rs:558-585 | a result takes its marker's place, or a failure does when there is no room; a satisfied step, or a failed one that may be passed, is passed, and anything else ends the task with that outcome |
| `WorkflowProgress.ResultIsPutForward` | src/workflow.rs:515-557 | what a step that came back, timed out or was canceled puts forward, with whether its action may have happened |
| `WorkflowProgress.FailedWriteTells` | src/workflow.rs:318-366 | a failed checkpoint fails the step that waits for it; the worker's own ends persistence and cancels every running persistent workflow |
| `WorkflowProgress.CrashDecides` | src/workflow.rs:922-962 | exactly the saved workflows come back, as they were or, if running, failed with each running step possibly completed |
| `WorkflowProgress.StartDecides` | src/workflow.rs:377-462 | a workflow starts exactly if its connection is open, there is room and persistence works when asked for; otherwise nothing changes |
| `WorkflowProgress.WorkflowCanFinish` | src/workflow.rs:377-748 | from every good host with room, a workflow whose bindings resolve can run to its end, every action sent once in order, and is then Satisfied |
| `WorkflowMemory.ResultsAreFound` | src/workflow.rs:567-569 | with distinct names the results of a log are found under the names of their steps, and no others |
| `WorkflowMemory.StepKeepsMemory` | src/workflow.rs:464-588 | every step of every interleaving keeps: a task remembers exactly the results in its log |
| `WorkflowMemory.StepSeesTheLog` | src/workflow.rs:590-609 | in every run a step being prepared sees exactly the results of the steps before it |
| `WorkflowMemory.PrepareDecides` | src/workflow.rs:590-640 | in every run preparing fails exactly if what the step binds is not among those results, or is no object where an action needs one; persistent actions then wait for a checkpoint |
| `WorkflowMemory.SendDecides` | src/workflow.rs:613-640 | a canceled action does not go out; any other does, once more in the list of dispatches |
| `WorkflowMemory.CheckpointDecides` | src/workflow.rs:906-920 | a checkpoint holds every persistent workflow as it is, and no other |
| `WorkflowMemory.LandingDecides` | src/workflow.rs:318-340 | a checkpoint that lands is the durable one, and releases the step that waits for it |
| `WorkflowMemory.CancelDecides` | src/workflow.rs:761-782 | a running workflow is told to stop and says so, a finished one stays as it is, and no other is touched |
| `WorkflowMemory.ForgetDecides` | src/workflow.rs:761-782 | only a finished workflow is forgotten, and no other with it |
| `WorkflowMemory.SweepDecides` | src/workflow.rs:851-869 | the close of a connection removes its finished workflows, cancels and retires its running ones, and leaves persistent and foreign ones |
| `WorkflowStore.WhoSees` | src/workflow.rs:750-782 | a workflow is seen by its owner, and by everybody exactly if it is persistent |
| `ExecutionRegistry.Registry.Oldest` | src/execution.rs:497-508 | the oldest evictable entry, or none exactly when nothing is evictable |
| `ExecutionRegistry.Registry.MakeRoom` | src/execution.rs:494-518 | evicts only finished, process-free records, oldest first and no more than needed; full exactly when the request would not fit with all of them gone |
| `ExecutionRegistry.Registry.Reserve` | src/execution.rs:476-524 | the error for every input; capacity fails exactly when nothing evictable is left and it still does not fit; conservation is kept |
| `ExecutionRegistry.Registry.Commit` | src/execution.rs:645-658 | the reservation becomes the entry's budget: the total does not change |
| `ExecutionRegistry.Registry.Abandon` | src/execution.rs:396-408 | dropping a reservation gives back exactly what it took |
| `ExecutionRegistry.VerdictFrees` | src/execution.rs:1366-1407 | a watched record becomes evictable exactly when the supervisor gives its verdict |
| `ExecutionRegistry.Registry.Observe` | src/execution.rs:1366-1407 | a look of the supervisor changes this entry alone and not what it is charged; exactly a verdict frees it |
| `ExecutionRegistry.Registry.ObserveError` | src/execution.rs:1424-1432 | a lost process fails its record, which stays pinned unless its tree was already seen gone |
| `ExecutionRegistry.AcceptableMeansEachFits` | src/execution.rs:1166-1243 | checking record by record accepts exactly the checkpoints that are sound, without duplicates and within the budget |
| `ExecutionRegistry.RestoredEntriesCount` | src/execution.rs:1219-1243 | restored budgets add up to the registry's budget |
| `ExecutionRegistry.Restore` | src/execution.rs:1151-1248 | accepts exactly the acceptable checkpoints, and conservation holds afterwards |
| `ExecutionRegistry.RestoredIsEvictable` | src/execution.rs:1206-1243 | every restored record is finished and without a process, so it can be evicted |
| `ExecutionRegistry.AcceptableExactly` | src/execution.rs:1166-1243 | the conditions for restoring in full: persistent and unowned, each limit from 1 byte to 4 MiB, no identifier twice, all streams together within 64 MiB |
| `ExecutionRegistry.RestoredIsTruthful` | src/execution.rs:1206-1243 | a restored record says what was saved, charged by its streams, except that one that was running is interrupted |
| `ExecutionRegistry.OnlySavedAreRestored` | src/execution.rs:1172-1243 | nothing else is restored |
| `ExecutionRegistry.EvictableExactly` | src/execution.rs:497-508 | a record may be evicted exactly if it ended and its process tree is known to be gone or was lost with an earlier host |
| `ExecutionStartup.StepKeepsLocal` | src/execution.rs:568-815 | every step of a start, its supervisor and its termination keeps: only a resumed, registered start has a living child, and a canceled one is dead |
| `ExecutionStartup.TerminatedIsGone` | src/execution.rs:269-290 | an entry that was terminated without error, or was settled, has no living child |
| `ExecutionStartup.LifeComesFromResume` | src/execution.rs:739-766 | no step but resuming makes a child live |
| `ExecutionStartup.TokensKept` | src/execution.rs:445-474 | tokens are never shared between connections |
| `ExecutionStartup.SavesKept` | src/execution.rs:1096-1149 | a persistent start past its checkpoint stays in the durable one and in every one being written |
| `ExecutionStartup.RemovalSweepsTheLiving` | src/execution.rs:994-1009 | the close of a connection lists everything of it that is alive |
| `ExecutionStartup.SweepsKept` | src/execution.rs:994-1022 | what is alive after a close is still on its list or reported as an error |
| `ExecutionStartup.HaltsKept` | src/execution.rs:1033-1056 | the same for host shutdown |
| `ExecutionStartup.StepKeepsInv` | src/execution.rs:445-1149 | every step of every interleaving keeps all of this |
| `ExecutionTheorems.ResumeIsAllowed` | src/execution.rs:739-766 | a child begins to run only while the host is open and, for a connection, its connection is open and its request wanted; a persistent one only when the durable checkpoint holds it |
| `ExecutionTheorems.DeadStaysDead` | src/execution.rs:269-290 | a process tree that is gone never runs again over any run |
| `ExecutionTheorems.CanceledStaysQuiet` | src/execution.rs:994-1009 | from the cancellation of a connection on, nothing of it starts to run |
| `ExecutionTheorems.CleanCloseIsFinal` | src/execution.rs:994-1022 | after a close without errors nothing of the connection is running or ever will be |
| `ExecutionTheorems.CloseSparesPersistent` | src/execution.rs:994-1009 | a close leaves persistent executions as they are |
| `ExecutionTheorems.RefusingStaysQuiet` | src/execution.rs:1024-1045 | after a shutdown request or close no child starts to run |
| `ExecutionTheorems.CleanShutdownIsFinal` | src/execution.rs:1033-1094 | a shutdown without errors leaves no process tree of any lifetime |
| `ExecutionTheorems.LiveIsDurable` | src/execution.rs:735-766 | at every moment every running persistent child is in the durable checkpoint |
| `ExecutionTheorems.CrashEndsEverything` | src/execution.rs:1151-1248 | after a crash no start ever begun, suspended or running, runs again, whatever the next host does |
| `ExecutionTheorems.CrashLosesNoRecord` | src/execution.rs:1151-1248 | after a crash every persistent execution that was running has a record, finished and without a process |
| `ExecutionProgress.StartCanSucceed` | src/execution.rs:568-815 | wherever the host is open and idle at its checkpoint, a new request of an open connection, of either lifetime, can come to a running child with the right owner, on disk if persistent |
| `ExecutionProgress.RegisterDecides` | src/execution.rs:445-464 | a connection is added exactly while the host is open with fewer than 64, and gets a token of its own |
| `ExecutionProgress.AdmitDecides` | src/execution.rs:645-658 | a created child gets its entry exactly if neither request nor connection was given up |
| `ExecutionProgress.ResumeDecides` | src/execution.rs:739-766 | both ways: a ready start is resumed exactly if the host takes work, nobody asked to cancel and its connection is open, which a persistent one needs only for its cancel request to count; then the child runs |
| `ExecutionProgress.EndingEnds` | src/execution.rs:269-290 | every way of ending a job leaves its tree gone and the request noted, or everything as it was when it was settled or could not be ended |
| `ExecutionProgress.AbortEnds` | src/execution.rs:568-658 | a start that gives up before its entry leaves no living child |
| `ExecutionProgress.CleanupIsLast` | src/execution.rs:767-803 | a start that failed after admission is over once it has cleaned up |
| `ExecutionProgress.SweepDecides` | src/execution.rs:994-1022 | cleaning up after one entry takes it off the list, and only one that could not be ended counts as an error |
| `ExecutionProgress.HaltDecides` | src/execution.rs:1033-1056 | the same for the shutdown of the host |
| `ExecutionProgress.CloseDecides` | src/execution.rs:994-1009 | a close cancels its own token, touches no other connection and lists exactly its own entries |
| `ExecutionProgress.ShutdownDecides` | src/execution.rs:1033-1045 | a shutdown cancels every token and lists exactly the entries with a process |
| `ExecutionProgress.CheckpointDecides` | src/execution.rs:1096-1128 | a checkpoint holds every persistent record as it is, and no other |
| `ExecutionProgress.WriteDecides` | src/execution.rs:1129-1149 | landing makes it the durable one; either way the start that waits for it goes on accordingly |
| `ExecutionProgress.RestartDecides` | src/execution.rs:1151-1248 | a restarted host knows exactly the records of its checkpoint, without processes, unfinished ones as interrupted |
| `ExecutionProgress.WatchDecides` | src/execution.rs:1366-1407 | a look of the supervisor records what it saw, ends the record exactly with a verdict, and then the record can be evicted |
| `ExecutionProgress.EvictDecides` | src/execution.rs:494-518 | exactly finished records without a live tree leave the registry |
| `ExecutionProgress.CancelPreventsTheStart` | src/execution.rs:337-361 | canceling a request at any moment before its child runs keeps it from ever running on this host, over every run |
| `ExecutionProgress.GivingUpIsNoted` | src/execution.rs:994-1031 | canceling a connection or asking for shutdown is noted at once |
| `ExecutionProgress.FailureIsNoted` | src/execution.rs:767-803 | a failed start can only be cleaned up, never resumed |
| `ExecutionProgress.EndCanBeRecorded` | src/execution.rs:1366-1407 | from every state the end of a watched tree can be seen and recorded as what it was |
| `ExecutionProgress.RunKeepsUnclaimed` | src/execution.rs:1172-1182 | over every run, records without a process belong to no connection |
| `ExecutionProgress.EveryCloseCanBeClean` | src/execution.rs:994-1022 | in every run every connection can be closed without an error, with nothing of it left running |
| `ExecutionProgress.EveryShutdownCanBeClean` | src/execution.rs:1033-1056 | from every state the host can be shut down with no process tree left of any lifetime |
| `ExecutionCapacity.OutstandingKept` | src/execution.rs:390-408 | in every step reservations belong to starts without an entry: all that still work towards one and those that gave up and have not dropped theirs |
| `ExecutionCapacity.BalanceKept` | src/execution.rs:476-524 | reserving, committing, dropping, evicting and restarting keep both counters equal to what entries and reservations hold |
| `ExecutionCapacity.DiskKept` | src/execution.rs:1096-1149 | every checkpoint, written or in flight, is within the capacity that restoring checks |
| `ExecutionCapacity.EventKeepsSound` | src/execution.rs:476-1149 | every event keeps all of this together with the startup invariant |
| `ExecutionCapacity.CapacityIsConserved` | src/execution.rs:390-524 | over every run from an empty host: counters never negative, exactly the sums, at most 64 records and 64 MiB, and a checkpoint that restores |
| `ExecutionCapacity.SettledOnce` | src/execution.rs:390-408 | over every run a reservation is committed or dropped at most once, and exactly once when it is no longer outstanding and the process did not end |
| `ExecutionCapacity.ReserveDecides` | src/execution.rs:476-524 | a request of an open connection gets its reservation exactly if records and reservations are fewer than 64 and its bytes fit into 64 MiB |
| `ExecutionCapacity.OnlyStartsAreCharged` | src/execution.rs:390-408 | over every run nothing is held for an execution that was never begun |
| `ExecutionCapacity.ChargedAsAsked` | src/execution.rs:568-660 | over every run a start is charged exactly what it asked for: reserved, as an entry, on disk and after a restart |
| `FrameRegions.UnionStaysWithin` | src/desktop/observation.rs:219-228 | inside a frame the 32-bit cast of a union never wraps |
| `FrameRegions.BoxIsUnique` | src/desktop/observation.rs:219-228 | a bounding box is determined by its points |
| `FrameRegions.UnionIsBox` | src/desktop/observation.rs:219-228 | the union of two boxes is the bounding box of both point sets |
| `FrameRegions.EnvelopeIsBox` | src/desktop/observation.rs:210-215 | the fold at the limit is the bounding box of all regions |
| `FrameRegions.AddedDepicts` | src/desktop/observation.rs:196-217 | adding fresh points keeps the meaning: at most 256 regions inside the frame; disjoint and exact, or one bounding box |
| `FrameRegions.AddingDecides` | src/desktop/observation.rs:196-217 | a region right below others makes the last of them taller; any other joins the list while it has fewer than 256, and then all become one |
| `FrameRegions.AddedIsEconomical` | src/desktop/observation.rs:206-216 | regions are coalesced only when more than 256 were added |
| `FrameRegions.RegionList.FindLast` | src/desktop/observation.rs:201-205 | finds the last region that the new one continues |
| `FrameRegions.RegionList.Add` | src/desktop/observation.rs:196-217 | the list in place becomes what adding specifies, and stands for the old points and the new |
| `FrameTiles.RunIsMarked` | src/desktop/observation.rs:177-189 | a closed run covers exactly the points of its tiles |
| `FrameTiles.CloseRun` | src/desktop/observation.rs:177-189 | fails exactly when a corner exceeds 32 bits; otherwise the list stands for every changed tile up to the end of the run |
| `FrameTiles.AllAreCounted` | src/desktop/observation.rs:156-192 | in the end every run of changed tiles was counted, none twice |
| `FrameCompare.AllocationExactly` | src/desktop/observation.rs:147-155 | the sizes a capture may have, in numbers |
| `FrameCompare.ChangedMeansAPixel` | src/desktop/observation.rs:165-175 | a tile is changed exactly when one of its pixels differs in blue, green or red |
| `FrameCompare.ScanTile` | src/desktop/observation.rs:163-175 | counts exactly the differing pixels of the tile |
| `FrameCompare.StepRun` | src/desktop/observation.rs:176-189 | opens, continues or closes the run so that the list stands for every changed tile before the open run |
| `FrameCompare.ScanRow` | src/desktop/observation.rs:158-191 | one tile row adds exactly its changed tiles and its pixel count |
| `FrameCompare.ScanRows` | src/desktop/observation.rs:156-192 | all rows; an error only for a cancellation or a corner beyond 32 bits that is really there |
| `FrameCompare.Compare` | src/desktop/observation.rs:147-194 | success exactly when sizes are right, no row found a cancellation and corners fit; then the count is exact and the regions depict the changed tiles |
| `FrameCompare.EveryDifferenceIsReported` | src/desktop/observation.rs:147-194 | no differing pixel lies outside the regions, coalesced or not |
| `FrameCompare.RegionsAreExact` | src/desktop/observation.rs:147-194 | while not coalesced, a pixel is covered exactly when its tile has a differing pixel |
| `FrameCompare.FewRunsAreExact` | src/desktop/observation.rs:196-217 | a capture with at most 256 runs of changed tiles is reported exactly, tile by tile |
| `FrameCompare.ChangedByteIsReported` | src/desktop/observation.rs:163-175 | in bytes: every byte that differs, other than alpha, lies in a reported region |
| `FrameCompare.DiffersInBytes` | src/desktop/observation.rs:163-175 | a pixel counts as different exactly when one of its three colour bytes is |
| `FrameCompare.SameCaptureIsClean` | src/desktop/observation.rs:147-194 | a capture does not differ from itself |
| `FrameCompare.RegionsMeanChange` | src/desktop/observation.rs:147-194 | there is a region exactly when a pixel was counted |
| `FrameStore.CompatibleExactly` | src/desktop/observation.rs:137-145 | two captures can be compared exactly when target, session, desktop, bounds, scaling and layout agree |
| `FrameStore.FreshIsExact` | src/desktop/observation.rs:68-69 | expiry keeps exactly the frames younger than the retention |
| `FrameStore.EvictionsAreLeast` | src/desktop/observation.rs:108-117 | eviction drops no more of the oldest frames than needed |
| `FrameStore.Find` | src/desktop/observation.rs:80-81 | finds a stored frame with the identifier exactly when there is one |
| `FrameStore.CacheInNumbers` | src/desktop/observation.rs:11-13 | four frames and 64 MiB in all, each for 120 seconds |
| `FrameStore.CompareFrames` | src/desktop/observation.rs:90-99 | two frames compare exactly when sizes are right, nothing was canceled and corners fit, and then truly |
| `FrameStore.FrameStore.Retain` | src/desktop/observation.rs:108-127 | keeps at most 4 frames and 64 MiB by the least eviction of the oldest |
| `FrameStore.FrameStore.Observe` | src/desktop/observation.rs:61-134 | succeeds exactly when there is nothing to compare with or comparing is possible; a missing or incompatible baseline is reported as such and otherwise the comparison is true; an error stores nothing |
| `FrameStore.BaselineSurvives` | src/desktop/observation.rs:61-134 | looking a retained frame up by its identifier finds exactly it, whole, in every later observation before it expires, if at most three came between and all fit |
| `OcrBitmap.FittedIsRight` | src/desktop/ocr.rs:326-342 | fails exactly for bad sizes or no native limit; never enlarges; fits both limits; the longest side meets the limit and the other is in proportion |
| `OcrBitmap.ValidMeansRowsFit` | src/desktop/ocr.rs:349-372 | a plane is accepted exactly when all rows lie inside it and none overlap, for either sign of the stride (a one-row plane must still declare a stride as long as the row) |
| `OcrBitmap.SampleHoldsCentre` | src/desktop/ocr.rs:468-471 | the sample is the source pixel under the centre of the target pixel |
| `OcrBitmap.CentreIsOnce` | src/desktop/ocr.rs:468-471 | there is only one such pixel |
| `OcrBitmap.SampleIsIdentity` | src/desktop/ocr.rs:468-471 | equal sizes sample each pixel from itself |
| `OcrBitmap.SamplesAreOrdered` | src/desktop/ocr.rs:468-471 | samples keep the order of pixels |
| `OcrBitmap.SampleFits64` | src/desktop/ocr.rs:468-471 | for fitted sizes the product fits 64 bits |
| `OcrPixels.SampledPixel` | src/desktop/ocr.rs:456-463 | each pixel of a resized row is the nearest source pixel, opaque |
| `OcrPixels.CopyIsSampling` | src/desktop/ocr.rs:449-455 | copying a row and setting alpha equals sampling when the widths are equal |
| `OcrPixels.CopyRow` | src/desktop/ocr.rs:449-455 | writes the opaque row and nothing outside it |
| `OcrPixels.SampleRow` | src/desktop/ocr.rs:456-463 | writes the sampled row and nothing outside it |
| `OcrPixels.OtherRowsHold` | src/desktop/ocr.rs:349-372 | writing one row of an accepted plane leaves every other row |
| `OcrPixels.WritePixels` | src/desktop/ocr.rs:430-466 | the outcome for every input; on success every row holds its samples for either stride sign, and padding is untouched in every case |
| `OcrPixels.CopiedPixel` | src/desktop/ocr.rs:430-466 | byte by byte: after a copy every pixel, wherever the layout puts it, is blue, green and red of the source pixel under its centre, and opaque |
| `OcrText.DecodedReadsBack` | src/desktop/ocr.rs:596-611 | well-formed UTF-16 decodes to the text it encodes |
| `OcrText.LoneSurrogate` | src/desktop/ocr.rs:596-611 | a surrogate that is not half of a pair is replaced and the rest is read on its own |
| `OcrText.LengthIsEncoded` | src/desktop/ocr.rs:596-611 | the bytes charged for a character are those of its UTF-8 encoding (section 3 of RFC 3629) |
| `OcrText.TextBudget.Take` | src/desktop/ocr.rs:596-611 | takes the longest beginning of the decoded text that both limits allow, pays for exactly its bytes, and reports truncation exactly when text is left |
| `OcrSlot.StepKeepsInv` | src/desktop/ocr.rs:117-157 | every step of caller, callback, native operation and last release keeps: one holder, one operation, none while idle |
| `OcrSlot.OneOperation` | src/desktop/ocr.rs:117-157 | in every reachable state at most one native operation runs, and none while the slot is idle |
| `OcrSlot.IdleIsEarned` | src/desktop/ocr.rs:145-157 | the slot becomes idle only by the last release of a call that started nothing or whose completion ran |
| `OcrSlot.IdleIsReached` | src/desktop/ocr.rs:145-157 | and that release always frees it; any other quarantines it |
| `OcrSlot.QuarantineIsFinal` | src/desktop/ocr.rs:123-142 | a quarantined slot is never acquired again over any run |
| `OcrSlot.TroubleIsFinal` | src/desktop/ocr.rs:117-157 | a callback that cannot be registered, or a lost connection, quarantines the slot for good, over every run |
| `OcrSlot.SlotServes` | src/desktop/ocr.rs:117-157 | an idle slot can be used, and a call that goes well leaves it idle, in whichever order caller and callback let go |
| `OcrSlot.BusyIsRefused` | src/desktop/ocr.rs:123-138 | a slot in use or quarantined is given to nobody |
| `OverlayPaint.PaintEdgeRow` | src/overlay.rs:523-530 | a row near the top or bottom gets the light of each pixel's distance |
| `OverlayPaint.PaintMiddleRow` | src/overlay.rs:531-544 | mirrored strips alone give every pixel of a middle row its light |
| `OverlayPaint.Paint` | src/overlay.rs:496-547 | every pixel is the glow's table at its distance to the nearest edge, capped at the band, for every screen size and glow |
| `OverlayPaint.InteriorIsDark` | src/overlay.rs:486-495 | no pixel further in than the band has any light |
| `OverlayPaint.PaintedPixel` | src/overlay.rs:496-547 | pixel by pixel: the light of the distance to the nearest of the four edges within the band, and nothing further in |
| `OverlayLight.BandIsRight` | src/overlay.rs:497 | the band is eight hundredths of the shorter side to the nearest pixel, and at least one |
| `OverlayLight.AlphaIsRight` | src/overlay.rs:501-505 | alpha is the sum of both lobes at that depth, to the nearest of 256 levels |
| `OverlayLight.EdgeIsAtThePeak` | src/overlay.rs:501-505 | at the very edge the glow has its peak |
| `OverlayLight.PixelIsRight` | src/overlay.rs:506-515 | the bytes of a pixel: alpha, red as alpha, green and blue the nearest to 38 and 28 parts of 255 of it |
| `OverlayLight.BandEndsDark` | src/overlay.rs:486-517 | both lobes end at zero: the last entry of every table is dark |
| `OverlayLight.LightFades` | src/overlay.rs:501-505 | light never gets stronger on the way in |
| `OverlayLight.ChannelIsPremultiplied` | src/overlay.rs:506-513 | a channel is the nearest integer to its share of alpha and never above it |
| `OverlayLight.PackedBytes` | src/overlay.rs:514-515 | each byte of a pixel reads back as its channel |
| `OverlayPaint.LightIsMirrored` | src/overlay.rs:496-547 | the picture is symmetric in both directions |
| `OverlayEnvelope.Envelope.Advance` | src/overlay.rs:352-391 | the loop reaches the phase that the clock calls for and reports its level |
| `OverlayEnvelope.TicksDoNotMatter` | src/overlay.rs:352-391 | a tick in between does not change the later phase |
| `OverlayEnvelope.ScheduleDoesNotMatter` | src/overlay.rs:352-391 | so the level is the same for every schedule of ticks |
| `OverlayEnvelope.LevelIsBetween` | src/overlay.rs:304-324 | levels stay between dark and full |
| `OverlayEnvelope.TriggerReadsTheClock` | src/overlay.rs:336-347 | a trigger reads the level that the clock calls for exactly when the phase is not overdue |
| `OverlayEnvelope.TriggerDependsOnTicks` | src/overlay.rs:336-347 | a concrete overdue trigger that reads full instead of two thirds |
| `OverlayEnvelope.TriggerDoesNotJump` | src/overlay.rs:336-347 | a trigger goes on from the level it reads |
| `OverlayEnvelope.PulseOverTime` | src/overlay.rs:304-391 | the level at every moment after a trigger, whatever went before and for every schedule of ticks: a rise from the present level, a second at full, three seconds down |
| `OverlayEnvelope.PulseFromTheDark` | src/overlay.rs:304-391 | from the dark: full after 250 ms, until 1250 ms, and dark at 4250 ms |
| `NativeRuntime.StepKeepsInv` | src/runtime.rs:206-259 | permits are conserved by every step of callers, closures, timeouts and aborts |
| `NativeRuntime.RunKeepsInv` | src/runtime.rs:206-259 | and over every run |
| `NativeRuntime.RunIsTold` | src/runtime.rs:206-259 | over every run, each call is interactive or not as it was begun, and as far as its own actions say |
| `NativeRuntime.ExecutionIsBounded` | src/runtime.rs:206-259 | in every run from the start, told by the actions: at most N closures are started and not ended, and of calls begun as interactive at most one |
| `NativeRuntime.CanceledNeverBegins` | src/runtime.rs:121-145 | in every run no work comes after its cancellation and no start after the abort of its task |
| `NativeRuntime.FreeCallRuns` | src/runtime.rs:206-259 | a call that finds its permits free runs to its end and leaves them free |
| `NativeRuntime.CapacityComesBack` | src/runtime.rs:121-145 | capacity comes back exactly when a closure exits or is discarded unstarted |
| `NativeRuntime.AllComesBack` | src/runtime.rs:121-145 | with nobody left all permits are back |
| `NativeRuntime.NoCircularWait` | src/runtime.rs:217-232 | chains of waiting have at most three members and never close |
| `NativeRuntime.SomebodyMoves` | src/runtime.rs:217-259 | whenever a call waits, a waiter can get its permit or a closure can go on |
| `NativeRuntime.CanceledNeverWorks` | src/runtime.rs:121-145 | work canceled before it began never begins; a task aborted while queued never starts |
| `Handshake.AnswersAreResponses` | src/handshake.rs:73-112 | answered exactly when a request other than initialize; the answer is a response to its id, with the code of section 5.1 of JSON-RPC 2.0 for unknown methods |
| `Handshake.EveryMessageDecides` | src/handshake.rs:73-112 | what each message gets by its fields: served, dropped, the empty result of a ping, or the error with its code and text |
| `Handshake.LineEndsAtTheFirstNewline` | src/handshake.rs:46-53 | a line ends with the first line feed or with the stream |
| `Handshake.BufReader.ReadLine` | src/handshake.rs:46-53 | a line is the bytes up to the first newline, however reads are chunked; no byte is lost |
| `Handshake.AnswerProbes` | src/handshake.rs:37-71 | the stream handed on and the bytes written depend on the input alone, not on its chunks |
| `Handshake.HandoverIsExact` | src/handshake.rs:37-71 | consumed lines and the stream handed on are exactly the input, which continues at the first line to serve |
| `Handshake.OneReplyPerRequest` | src/handshake.rs:54-64 | one reply per request taken, in order, echoing its id; nothing else is written |

## Left out

- Windows calls, COM, WinRT, ETW, PowerShell and pipes, tool routers, schemas, logging and JSON text: their effects are inputs of the modelled steps.
- Access tokens, integrity checks, elevation, installation and client registration: system calls and single-key edits.
- `src/disasm.rs`, `src/binary.rs`, the execution byte buffer, input writer and native process code, and the debugger: not part of this model.
- Exhaustion of 64-bit counters: event ids and counters are unbounded, so the panic of `append` at the last id is not modelled; the room that restoring checks for is.
- ObservationHistory.StepKeepsGood: does not claim that every watch of a closed connection is forgotten, because the end of a provider tests and marks retirement in separate critical sections (`ObservationRecording.ClosedIsForgotten` covers a provider that ends after the retirement), nor that a stopped watch stays stopped, because a late failure overwrites it; it does prove that an inactive watch never becomes active.
- Flags beside the log: stop reasons, start and finish times, and the dropped totals and persistence error that a page also reports. Whether a provider's control is canceled is an input of emitting.
- ObservationWaits.StepKeepsInv: reading the start cursor and inserting the wait are one step; the model only asks that the cursor is not ahead.
- The wake-ups of waits and history queries: notification only decides when a wait looks again, and every schedule of looks is covered.
- Workflow execution is a transition system on values instead of the loop of `execute`; its in-place store methods are in `WorkflowStore`. Wall-clock times, error texts and the conversion of tool results are not modelled.
- WorkflowTheorems.TerminalIsAbsorbing: holds while the host lives; after a crash a workflow that ended since the last checkpoint comes back as that checkpoint recovers it.
- The shape of a workflow wait's source is abstract.
- WorkflowStore.Store.Finish: the persistence error is read in the same step in which the record ends; the code reads it just before.
- ExecutionCapacity.EventKeepsSound: evicting one record and reserving are separate steps; the code does both under one lock, which is one of the interleavings.
- ExecutionStartup.StepKeepsInv: checks of a start before its admission only make it fail sooner and are left to the environment; whether a pipe, reader or supervisor thread could start is too. A connection's entries are swept one by one in any order.
- ExecutionRegistry.Registry.Reserve: `reserve` holds the registry lock while it loops, so the records it reads are fixed; their status is that of the moment.
- Output draining, `wait`, `list`, `resize` and reading of executions: single lookups and copies.
- ExecutionTheorems.CleanShutdownIsFinal: the ten seconds of draining at the end of a shutdown are not modelled; termination itself is one step.
- FrameCompare.Compare: a cancellation check is asked once per tile row through a function of that row; memory allocation failures are not modelled.
- OcrPixels.WritePixels: numbers are unbounded; `OcrBitmap.SampleFits64` shows that for fitted sizes the 64-bit product does not wrap. Collecting lines and words, and mapping of coordinates in floating point, are not modelled.
- OcrSlot.StepKeepsInv: the slot's atomics are single steps; memory ordering is not modelled.
- OverlayPaint.Paint: floating point is exact real arithmetic, and the power of the second lobe is any curve that rises from zero to one. The bitmap is clear at first, as the system hands it out.
- Rounding of envelope levels and the alpha curve: levels are real numbers.
- NativeRuntime.StepKeepsInv: fairness of the semaphores, the condition variable of a cooperative sleep and the thread-local context are not modelled.
- Handshake.AnswerProbes: read and write errors, which end the call, are not modelled; parsing and encoding are functions of the bytes.
