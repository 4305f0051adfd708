# Nadi thread runtime: verified models

A Nadi thread lives in a single-threaded Durable Object whose methods suspend at every `await`, may
crash there, and are retried by alarms and callbacks. This project models the protocols that must
hold through all of that, and the algorithms behind them, and proves what they promise.

| files | what they model |
|---|---|
| `QueuedMessages`, `QueueProtocol`, `QueueSafety`, `QueueCalls` | the queue of user messages behind a running turn: serialized submit and cancel calls interleaved with the drain loop |
| `ModelSegments`, `ModelSwitchRestore`, `ModelSwitchCompactions` | which model produced which message, the reasoning sanitizer, and restoring a marker that one or several compactions archived |
| `WorkLedger`, `WorkDelivery`, `WorkSweep`, `WorkSweepRuns` | the background work ledger, who tells the model about finished work, one sweep, and the single alarm with its fallback |
| `InjectionBuffer`, `InjectionDrain` | the buffer of messages for the next step (a SQL table and an array), and peek, persist, delete with crashes |
| `CheckpointText`, `TranscriptBounding`, `Compaction`, `ContextBudget`, `Continuity` | checkpoint framing, text bounding, the compaction ladder, the budget arithmetic and the continuity index |
| `FeedbackRateLimit` | sliding windows over a truncated history |
| `Base64Url`, `ReasoningStream`, `UsageFlush` | the byte codec, the stream repair and usage accounting |
| `Archive`, `AutoArchive` | durable writes before an irreversible destroy, and the idle sweep's batches |

Protocols are step systems: a state, an event for everything that can happen between two awaits
(including crashes, throws and other writers), and an invariant every step keeps, so each theorem
speaks of every finite run. Code that updates fields or runs loops is also a class or a method,
proved equal to the function or the run the theorems are about. Calls into the SDK, D1 and the
compute backend are environment events or parameters; clocks are parameters.

## Where the code and its comments differ

- `cancelSteer` (src/agent/think-thread-agent.ts:6630-6646) is documented as free of races. A cancel
  that lands while a drain is storing the message still reports success; `InjectionDrain.CancelRaceExact`
  says exactly when, `InjectionDrain.CancelledSteerArrives` gives the run.
- Archive recovery (src/agent/archive-thread.ts:46-58) takes any stored row for a complete snapshot. A
  crash between two inserts lets the retry flag a partial one: `Archive.RecoveryWholeExactly` and
  `Archive.RecoveryCompactionsExactly` give the exact conditions. The object then keeps everything for ever:
  `Archive.TornKeepsObject`.
- The usage gauge is meant to show the newest reading. A failed flush puts its older reading back, and
  a later commit can store it over a newer one: `UsageFlush.StaleReturnExactly` says exactly when,
  `UsageFlush.GaugeCanGoBack` gives the run.
- With an empty continuity block a checkpoint whose prose begins with the block's heading loses prose
  when it is re-framed: `CheckpointText.EmptyBlockExact`, `CheckpointText.EmptyBlockLosesProse`.
- Stripping is documented to remove all framing of the previous cycle, and ends the continuity block at
  its first blank line (src/agent/compaction.ts:144-160), but a subagent's label is taken as it comes
  (src/agent/continuity-index.ts:112). A blank line in one leaves the rest of the block in the prose on
  every cycle: `CheckpointText.FramingNeverStacks` says exactly when, `Continuity.SpawnedLabelStacks`
  gives the labels.
- A compaction that archives an earlier model switch while later ones survive can let foreign reasoning
  back in: `ModelSwitchRestore.EarlierSwitchArchived` gives the exact condition,
  `ModelSwitchRestore.EarlierSwitchLeaks` the threads. So can archiving the latest switches in several
  spans while an older marker names the same model, since nothing is restored then:
  `ModelSwitchCompactions.CompactionsSafeExactly`, `ModelSwitchCompactions.SkippedRestoreLeaks`.
- The fallback alarm is said to need no floor for open rows, the sweep having closed every stale one
  (src/agent/think-thread-agent.ts:5177-5180). A sweep that throws before it gets there has not:
  `WorkSweep.FallbackHotExactly`, `WorkSweep.EarlyThrowArmsHot`.
- Threads that throw on every pass can fill the oldest-first batch and starve the rest:
  `AutoArchive.StarvesExactly` says exactly when, `AutoArchive.JammedStarves` shows a registry.

## Model

| member | source | states |
|---|---|---|
| `QueuedMessages.LatestWaiting` | src/agent/queued-user-messages.ts:389-413 | the newest submission a message may still be merged into, the earliest listed among equals, and none exactly when no submission qualifies |
| `QueuedMessages.FindWaitingQueuedBatch` | src/agent/queued-user-messages.ts:395-412 | the scan returns exactly that submission |
| `QueuedMessages.FindItem` | src/agent/queued-user-messages.ts:188-201 | the first item carrying the client message id, or the length when there is none |
| `QueuedMessages.ParsesExactly` | src/agent/queued-user-messages.ts:264-290 | stored metadata reads as a batch exactly when it is one legacy item or a list that is not empty; its messages count exactly when there is one for every item |
| `QueueProtocol.AppliedCheckExact` | src/agent/queued-user-messages.ts:304-314 | in every reachable state the applied check holds of a live batch exactly when one of its messages is already in the transcript |
| `QueueProtocol.SubmitStores` | src/agent/queued-user-messages.ts:415-433 | from the answer of the search on, a submit leaves one new pending row: the items and messages of the batch found, unless it has begun to be applied, then the new one, with the feedback it came with |
| `QueueProtocol.CancelStores` | src/agent/queued-user-messages.ts:435-457 | a cancel of one of several messages leaves one new pending row with exactly the others, in order, and no feedback |
| `QueueSafety.QueueConservesMessages` | src/agent/queued-user-messages.ts:415-457 | over every interleaving of serialized submits and cancels with claim and per-message apply steps, transcript, pending and held messages in order are exactly the submitted ones minus the cancelled ones, each once |
| `QueueSafety.AtMostOneWaitingBatch` | src/agent/queued-user-messages.ts:389-433 | at most one unapplied batch waits, and every live batch before it has started to be applied |
| `QueueSafety.AppliedBatchNeverAborted` | src/agent/queued-user-messages.ts:304-323 | no step aborts a submission one of whose messages is in the transcript |
| `QueueSafety.CancelledNeverApplied` | src/agent/queued-user-messages.ts:435-457 | a message whose cancel succeeded never appears in the transcript |
| `QueueSafety.CancelTakesEffectExactly` | src/agent/queued-user-messages.ts:435-457 | a cancel takes effect if and only if its target is still the waiting batch and still carries the message |
| `QueueSafety.RunKeepsInv` | src/agent/think-thread-agent.ts:6129-6149 | every step of the serialized calls and of the drain loop keeps the queue invariant |
| `QueueCalls.ThreadQueue.SubmitBatch` | src/agent/queued-user-messages.ts:415-433 | the submit call, suspended at each await, leaves exactly the state the step system reaches |
| `QueueCalls.ThreadQueue.CancelFromBatch` | src/agent/queued-user-messages.ts:435-457 | the cancel call, suspended at each await, leaves exactly the state the step system reaches |
| `QueueCalls.ThreadQueue.CheckAndCancel` | src/agent/queued-user-messages.ts:441-452 | the stretch without an await: check, take the message out, abort the batch |
| `QueueCalls.SubmitIsRun` | src/agent/queued-user-messages.ts:415-433 | a submit from any reachable state, whatever happens at its awaits, is a run of the step system |
| `QueueCalls.CancelIsRun` | src/agent/queued-user-messages.ts:435-457 | the same for a cancel |
| `ModelSegments.SegmentTuples` | src/agent/cross-model-reasoning-sanitize.ts:64-89 | the back-filling pass gives every message the last marker's target at or before it, else the first marker's source, and the current tuple |
| `ModelSegments.SanitizeCrossModelReasoning` | src/agent/cross-model-reasoning-sanitize.ts:29-45 | the loop with its changed flag returns the sanitized transcript, which `ForeignParts` and `OthersUntouched` describe part by part |
| `ModelSegments.SanitizeExact` | src/agent/cross-model-reasoning-sanitize.ts:29-45 | reasoning survives in a message exactly when it had some and belongs to the current tuple, and such messages are untouched |
| `ModelSegments.ForeignParts` | src/agent/cross-model-reasoning-sanitize.ts:36-62 | a message with reasoning of another tuple keeps exactly its other parts, in order, with their content; in none of them is the origin's provider mentioned any more, every other provider's entry stays, and a record left empty is gone |
| `ModelSegments.OthersUntouched` | src/agent/cross-model-reasoning-sanitize.ts:36-41 | every other message passes through untouched |
| `ModelSegments.OriginByMarker` | src/agent/cross-model-reasoning-sanitize.ts:64-89 | a message is attributed to the target of the last marker at or before it, by position, and before any marker to the source of the first one |
| `ModelSegments.CurrentByMarker` | src/agent/cross-model-reasoning-sanitize.ts:84-88 | the current tuple is the target of the last marker of all |
| `ModelSegments.UnknownWithoutMarkers` | src/agent/cross-model-reasoning-sanitize.ts:86-87 | a message's tuple, and the current one, is unknown if and only if no part of any message is a marker |
| `ModelSegments.SanitizeKeepsSegments` | src/agent/cross-model-reasoning-sanitize.ts:29-45 | sanitizing leaves every marker and every message's tuple as it was |
| `ModelSegments.SanitizeIdempotent` | src/agent/cross-model-reasoning-sanitize.ts:29-45 | sanitizing twice is sanitizing once |
| `ModelSegments.SanitizePrefixStable` | src/agent/cross-model-reasoning-sanitize.ts:29-45 | appending messages without a marker leaves the sanitized prefix as it was |
| `ModelSwitchRestore.ScanInjectionIndex` | src/agent/cross-model-reasoning-sanitize.ts:161-170 | the scan finds the anchor message, else the last summary |
| `ModelSwitchRestore.RestoreExactly` | src/agent/cross-model-reasoning-sanitize.ts:133-159 | restoring puts the marker in front of the parts of the first message with the anchor's id, or else of the last summary, and changes nothing else; it does so unless the switch changed nothing, the current tuple is already its target, or there is no such message |
| `ModelSwitchRestore.RestoreUndoesLostMarker` | src/agent/cross-model-reasoning-sanitize.ts:133-159 | restoring puts a lost marker back exactly where its anchor is |
| `ModelSwitchRestore.KeepsReasoningExact` | src/agent/cross-model-reasoning-sanitize.ts:29-45 | the reasoning criterion used below is what the sanitizer does |
| `ModelSwitchRestore.CompactionKeepsForeignReasoningOut` | src/agent/cross-model-reasoning-sanitize.ts:133-170 | for consistent switches, compacting one span that holds the latest marker and restoring lets no surviving message keep reasoning the full transcript would have lost |
| `ModelSwitchRestore.EarlierSwitchArchived` | src/agent/cross-model-reasoning-sanitize.ts:133-159 | when an earlier switch is archived but later ones survive, safety holds exactly when the span hid no stretch that returns to the current tuple with reasoning beside it |
| `ModelSwitchRestore.EarlierSwitchLeaks` | src/agent/cross-model-reasoning-sanitize.ts:133-159 | the failing inputs: A to B archived, then B to C and back kept, with reasoning from before all three, for any such tuples |
| `ModelSwitchCompactions.CompactionsSafeExactly` | src/agent/cross-model-reasoning-sanitize.ts:133-170 | after any number of compactions and restoring the latest switch, the current model is right, and no surviving message keeps reasoning the full transcript would have lost if and only if no surviving stretch opens with reasoning of another model that the surviving markers pass for the latest one's |
| `ModelSwitchCompactions.OneSpanSafe` | src/agent/cross-model-reasoning-sanitize.ts:133-170 | that is so whenever all archived markers were in one span, whatever other spans were archived |
| `ModelSwitchCompactions.RestoredIsSafe` | src/agent/cross-model-reasoning-sanitize.ts:133-170 | and whenever the archived markers are the latest ones, in any number of spans, and what is left ends on another model, so that the marker is put back |
| `ModelSwitchCompactions.SkippedRestoreLeaks` | src/agent/cross-model-reasoning-sanitize.ts:137-147 | the failing inputs: a surviving switch to B, then B to C and C to B archived one after the other with reasoning kept in between, so that nothing is restored |
| `WorkLedger.AliveMeansHorizonAhead` | src/agent/work-ledger.ts:331-350 | a row is classified alive exactly when it is closed, or no reset reached it, in terms of its generation and start, and neither its deadline nor its silence limit has passed |
| `WorkLedger.ResetWhenKnown` | src/agent/work-ledger.ts:347-359 | under a known generation an open row is faulted as reset if and only if its own is known and differs |
| `WorkLedger.NoResetWhenUnknown` | src/agent/work-ledger.ts:349-350 | under an unknown generation no row is |
| `WorkLedger.ResetWhenAbsent` | src/agent/work-ledger.ts:360-367 | with the sandbox absent, exactly the rows started strictly before it was first seen absent are |
| `WorkLedger.ClassifiedByTime` | src/agent/work-ledger.ts:341-345 | an open row no reset reached times out exactly past its deadline, is faulted for silence exactly within it and silent too long, and is alive otherwise |
| `WorkLedger.WorkLedgerStore.NextSweepAt` | src/agent/work-ledger.ts:375-383 | the least of the open rows' deadlines and ends of silence, none exactly when no row is open |
| `WorkLedger.WorkLedgerStore.Register` | src/agent/work-ledger-store.ts:224-248 | re-registering refreshes a row without rewinding its start or touching its terminal |
| `WorkLedger.WorkLedgerStore.StampAlive` | src/agent/work-ledger-store.ts:254-263 | liveness only moves forward, and only on an open row |
| `WorkLedger.WorkLedgerStore.Terminalize` | src/agent/work-ledger-store.ts:377-395 | first writer wins; true only for the call that closed the row |
| `WorkLedger.WorkLedgerStore.MarkDelivered` | src/agent/work-ledger-store.ts:420-431 | discharges a closed, owed row once |
| `WorkLedger.WorkLedgerStore.ListUndelivered` | src/agent/work-ledger-store.ts:445-452 | lists exactly the closed rows nobody was told about, each once |
| `WorkLedger.WorkLedgerStore.Prune` | src/agent/work-ledger-store.ts:506-512 | drops delivered expired terminals only |
| `WorkLedger.RegisterRefreshes` | src/agent/work-ledger-store.ts:224-248 | field by field: limits and generation are replaced, liveness is the later of the two, kind, start, terminal and delivery stay; a new row starts undelivered; no other row changes |
| `WorkLedger.StampForward` | src/agent/work-ledger-store.ts:254-263 | a stamp leaves an open row at least that lately alive, a closed one and all others as they were |
| `WorkLedger.CloseAndDeliver` | src/agent/work-ledger-store.ts:377-431 | terminalizing sets an open row's terminal and nothing else, marking delivered sets an owed row's delivery time and nothing else |
| `WorkLedger.PrunesExactly` | src/agent/work-ledger-store.ts:506-512 | a row goes if and only if it is closed, delivered and its terminal older than the given time |
| `WorkLedger.ClosedRowsStayClosed` | src/agent/work-ledger-store.ts:224-512 | no statement rewrites a terminal, reopens a row, discharges twice or prunes an owed row |
| `WorkDelivery.RunKeepsInv` | src/agent/think-thread-agent.ts:5232-5333 | every interleaving of sweeps, pushes, finishes, throws and crashes keeps the delivery books |
| `WorkDelivery.ToldAtMostOnce` | src/agent/think-thread-agent.ts:5399-5559 | each row's terminal is written once and its completion enqueued at most once over every run |
| `WorkDelivery.ClosedIsToldOrOwed` | src/agent/think-thread-agent.ts:5921-6021 | a closed row is exactly one of: told to the model, settled by a writer that owes nothing, or still listed as owed |
| `WorkDelivery.OpenIsUntold` | src/agent/think-thread-agent.ts:5232-5333 | an open row has never been closed or reported |
| `WorkDelivery.FinishNeverClearsOwed` | src/agent/think-thread-agent.ts:2719-2740 | a finishing run never clears a delivery another writer owes, and on a row already closed changes nothing |
| `WorkDelivery.TerminalNeverChanges` | src/agent/work-ledger-store.ts:377-395 | once written, a terminal stays as it is for as long as the row exists |
| `WorkDelivery.PushCloses` | src/agent/think-thread-agent.ts:5301-5316 | a pushed completion closes an open row as exited and, unless delivering throws, tells the model and stamps the row |
| `WorkDelivery.FinishCloses` | src/agent/think-thread-agent.ts:2719-2740 | a finishing run closes an open row with its own terminal and settles it without telling the model |
| `WorkSweep.Thread.DeliverWorkTerminal` | src/agent/think-thread-agent.ts:5232-5275 | enqueue then stamp; a throwing delivery enqueues nothing and leaves the row owed |
| `WorkSweep.Thread.TerminalizeWork` | src/agent/think-thread-agent.ts:5300-5333 | closes the row, and delivers only when this call closed it |
| `WorkSweep.Thread.RunWorkLedgerSweep` | src/agent/think-thread-agent.ts:5399-5559 | a sweep that runs through turns the ledger into exactly the row-by-row result, and one that throws stops in the middle of it; what that result is, when it throws and what is told say the rows below |
| `WorkSweep.SweepWhenKnown` | src/agent/think-thread-agent.ts:5426-5490 | under a known generation an open row is closed as (fault, sandbox reset) if and only if its own is known and differs; otherwise as (timeout, watch timeout) past its deadline, as (fault, no liveness) within it and silent too long, and left open if neither |
| `WorkSweep.SweepWhenUnknown` | src/agent/think-thread-agent.ts:5426-5490 | under an unknown generation only deadline and silence close it, in the same way |
| `WorkSweep.SweepWhenAbsent` | src/agent/think-thread-agent.ts:5426-5490 | with the sandbox absent it is closed as reset if and only if it started before that was first seen |
| `WorkSweep.TellsExactly` | src/agent/think-thread-agent.ts:5399-5552 | a whole sweep tells the model about exactly the rows it closes and the owed ones no live watcher speaks for, except where delivering throws, and stamps exactly those |
| `WorkSweep.SweepDropsExactly` | src/agent/think-thread-agent.ts:5425-5557 | it drops exactly the rows told, now or before, whose terminal is more than a day old, and none when nothing was open or owed |
| `WorkSweep.ThrowsExactly` | src/agent/think-thread-agent.ts:5425-5557 | one of which at most a number of rows get their turn throws if and only if some row is undelivered and no more than the undelivered ones get theirs |
| `WorkSweep.CutShortExact` | src/agent/think-thread-agent.ts:5432-5557 | it then has done some of the undelivered rows as a whole sweep does, no owed one before every open one, and left all others as they were |
| `WorkSweepRuns.SweepIsRun` | src/agent/think-thread-agent.ts:5399-5559 | from any state between sweeps some run of the interleaved step system leaves the ledger exactly as the uninterrupted sweep does, and has told what was told before followed by exactly the completions that sweep enqueues |
| `WorkSweepRuns.ReachableConsistent` | src/agent/think-thread-agent.ts:5232-5333 | every reachable ledger meets what that sweep expects: an open row has nothing delivered |
| `WorkSweep.SweepLeavesHorizonsAhead` | src/agent/think-thread-agent.ts:5432-5482 | after a completed sweep no open row's horizon lies before the sweep's own time |
| `WorkSweep.OwedAfterSweepExactly` | src/agent/think-thread-agent.ts:5484-5553 | exactly the rows whose delivery threw, or that a live watcher owes, are owed afterwards |
| `WorkSweep.SweepDropsOnlyDelivered` | src/agent/think-thread-agent.ts:5554-5558 | a sweep loses only rows delivered and past retention |
| `WorkSweep.Thread.WorkHorizon` | src/agent/think-thread-agent.ts:4784-4794 | the least of the open horizons and, with something owed, the retry time |
| `WorkSweep.Thread.RunSandboxEviction` | src/agent/think-thread-agent.ts:5082-5216 | whichever stage threw and however far the sweep got, if scheduling succeeds then open work, owed work or a known watcher means an armed alarm at the earliest of their times; the tick's own alarm is never replaced |
| `WorkSweep.FallbackIsLeast` | src/agent/think-thread-agent.ts:5194-5209 | the fallback is the least of the open rows' deadlines and ends of silence, a minute from now when a delivery is owed or the watchers' poll is overdue, and that poll when it is not |
| `WorkSweep.FallbackNeverHot` | src/agent/think-thread-agent.ts:5160-5210 | the fallback is never before the completed sweep's time, and strictly in the future when no row is open |
| `WorkSweep.FallbackHotExactly` | src/agent/think-thread-agent.ts:5160-5210 | whatever a sweep left behind, the fallback lies in the past if and only if some open row's horizon does |
| `WorkSweep.EarlyThrowLeavesRest` | src/agent/think-thread-agent.ts:5432-5559 | the rows a throwing sweep did not reach are as they were, open ones open and owed ones owed |
| `WorkSweep.LateThrowLeavesHorizonsAhead` | src/agent/think-thread-agent.ts:5432-5559 | a sweep that throws only after the classification pass leaves no open row whose horizon has passed |
| `WorkSweep.EarlyThrowArmsHot` | src/agent/think-thread-agent.ts:5118-5210 | the failing inputs: any stale open row the throwing sweep did not reach |
| `InjectionBuffer.SqlInjectionBuffer.EnqueueEntry` | src/agent/injection-buffer.ts:72-95 | appends under the next number unless the dedupe key is pending (the table, as its ordered listing) |
| `InjectionBuffer.SqlInjectionBuffer.PeekAll` | src/agent/injection-buffer.ts:97-108 | the pending rows, in strictly rising seq order (the table, as its ordered listing) |
| `InjectionBuffer.SqlInjectionBuffer.DeleteSeqs` | src/agent/injection-buffer.ts:110-114 | removes exactly the rows with the given seqs (the table, as its ordered listing) |
| `InjectionBuffer.SqlInjectionBuffer.KeysOf` | src/agent/injection-buffer.ts:116-124 | pending dedupe keys of one kind in seq order (the table, as its ordered listing) |
| `InjectionBuffer.SqlInjectionBuffer.RemoveKey` | src/agent/injection-buffer.ts:126-137 | takes out the pending entry of that key and kind and returns its message (the table, as its ordered listing) |
| `InjectionBuffer.SqlInjectionBuffer.IsEmpty` | src/agent/injection-buffer.ts:139-141 | true exactly when nothing is pending (the table, as its ordered listing) |
| `InjectionBuffer.MemoryInjectionBuffer.EnqueueEntry` | src/agent/injection-buffer.ts:148-157 | appends under the next number unless the dedupe key is pending (the array) |
| `InjectionBuffer.MemoryInjectionBuffer.PeekAll` | src/agent/injection-buffer.ts:158-160 | the pending rows, in strictly rising seq order (the array) |
| `InjectionBuffer.MemoryInjectionBuffer.DeleteSeqs` | src/agent/injection-buffer.ts:161-167 | removes exactly the rows with the given seqs (the array) |
| `InjectionBuffer.MemoryInjectionBuffer.KeysOf` | src/agent/injection-buffer.ts:168-170 | pending dedupe keys of one kind in seq order (the array) |
| `InjectionBuffer.MemoryInjectionBuffer.RemoveKey` | src/agent/injection-buffer.ts:171-177 | takes out the pending entry of that key and kind and returns its message (the array) |
| `InjectionBuffer.MemoryInjectionBuffer.IsEmpty` | src/agent/injection-buffer.ts:178-180 | true exactly when nothing is pending (the array) |
| `InjectionBuffer.MemoryRefinesSql` | src/agent/injection-buffer.ts:57-182 | over every operation sequence the specification numbered from zero gives the answers of the one numbered from one, up to that shift |
| `InjectionBuffer.Lockstep` | src/agent/injection-buffer.ts:57-182 | both classes, fresh and run side by side on any operation sequence: the array answers as specified, and the table answers the same with every seq one higher |
| `InjectionBuffer.PendingKeysExact` | src/agent/injection-buffer.ts:116-124 | the keys listed for a kind are those of its rows, one for each, in their order |
| `InjectionBuffer.EnqueueExact` | src/agent/injection-buffer.ts:72-95 | an entry goes behind the pending ones under the next seq, unless its key is pending already |
| `InjectionBuffer.RemoveExact` | src/agent/injection-buffer.ts:126-138 | removing a key splices out exactly its row, if it is of the kind asked for, and nothing when there is none |
| `InjectionDrain.NoInjectionLost` | src/agent/think-thread-agent.ts:1810-1825 | over every run, with a crash or throw between any two steps, a delivered entry no cancel took out is buffered or durable |
| `InjectionDrain.DeletedIsDurable` | src/agent/think-thread-agent.ts:5018-5023 | a drain or kick deletes only rows it peeked, all durable by then |
| `InjectionDrain.DeletesOnlyPeeked` | src/agent/injection-buffer.ts:110-114 | deleting by peeked seqs keeps a row exactly when it was not peeked |
| `InjectionDrain.DrainDelivers` | src/agent/think-thread-agent.ts:1810-1825 | from any reachable state a drain nobody disturbs stores everything buffered behind the transcript, nothing else, and leaves the buffer empty |
| `InjectionDrain.KickDelivers` | src/agent/think-thread-agent.ts:5018-5023 | a kick nobody disturbs puts everything buffered, in order, into a durable submission and leaves the buffer empty, whatever other kicks are under way |
| `InjectionDrain.DrainOnlyInOrder` | src/agent/think-thread-agent.ts:1810-1825 | without kicks the transcript holds each message at most once, in delivery order |
| `InjectionDrain.DrainIsFifo` | src/agent/think-thread-agent.ts:1810-1825 | without kicks and cancels the transcript is a prefix of the deliveries and the rest is still buffered |
| `InjectionDrain.CancelRaceExact` | src/agent/think-thread-agent.ts:6635-6646 | a successfully cancelled steer can still reach the model if and only if it was stored or held by a drain or kick at the moment of the cancel |
| `InjectionDrain.CancelledSteerArrives` | src/agent/think-thread-agent.ts:6635-6646 | a concrete run in which it does |
| `CheckpointText.StripUndoesBuild` | src/agent/compaction.ts:136-160 | stripping a checkpoint over a headed block without a blank line gives back the prose it was built from |
| `CheckpointText.Layout` | src/agent/compaction.ts:136-141 | a checkpoint over unframed prose is preamble, trimmed block and trimmed prose with blank lines between, and no gap where the block is empty |
| `CheckpointText.TrimExact` | src/agent/compaction.ts:138-158 | trimming takes exactly the white space off both ends |
| `CheckpointText.SpaceByCode` | src/agent/compaction.ts:138-158 | white space by code point, as String.prototype.trim defines it |
| `CheckpointText.StripLength` | src/agent/compaction.ts:136-160 | for every headed block: the prose comes back as it was when the block has no blank line inside, and strictly longer when it has one |
| `CheckpointText.FramingNeverStacks` | src/agent/compaction.ts:136-160 | for every headed block, re-framing its checkpoint under a new block equals framing its prose under it if and only if the trimmed block has no blank line |
| `CheckpointText.CyclesCarryOneFrame` | src/agent/compaction.ts:136-160 | any number of compaction cycles over headed blocks carries one preamble, one block and the first prose if and only if no block but the last has a blank line |
| `CheckpointText.EmptyBlockExact` | src/agent/compaction.ts:136-160 | with an empty block the frame comes off exactly when the stripped prose does not begin with the heading |
| `CheckpointText.EmptyBlockLosesProse` | src/agent/compaction.ts:136-160 | the failing inputs: an empty block over prose that is the heading, a blank line and a tail keeps only the tail when re-framed |
| `CheckpointText.EmptyBlockExample` | src/agent/compaction.ts:136-160 | one such input |
| `TranscriptBounding.BoundedFitsAndIsStable` | src/agent/transcript-bounding.ts:47-55 | bounded text meets its threshold, keeps both ends, and a second pass leaves it alone |
| `TranscriptBounding.BoundedTellsDropped` | src/agent/transcript-bounding.ts:29-54 | a text past head, tail and the 44 characters of the widest marker becomes its head, a marker whose decimal digits read as the number of characters dropped, and its tail |
| `TranscriptBounding.ShortTextKept` | src/agent/transcript-bounding.ts:51-52 | any other text is left alone |
| `TranscriptBounding.ResetTextBound` | src/agent/compaction.ts:253-276 | the reset's checkpoint never exceeds its budget or, if larger, the frame plus the marker plus one character |
| `TranscriptBounding.ResetUsesBudget` | src/agent/compaction.ts:261-266 | the reset keeps a summary that fits beside the frame whole, and otherwise fills the budget but for the marker |
| `TranscriptBounding.ResetFitsExactly` | src/agent/compaction.ts:253-276 | it fits the budget for every summary exactly when the frame, the marker and one character do |
| `Compaction.SelectHeadEnd` | src/agent/compaction.ts:204-208 | the boundary that follows the first user message, and 0 exactly without one |
| `Compaction.TailLoop` | src/agent/compaction.ts:212-221 | the longest suffix past the head within the tail budget, keeping at least the last message |
| `Compaction.TailCostIs` | src/agent/compaction.ts:216-221 | the cost it compares is the running sum, from the end, of each message's own estimate |
| `Compaction.FindTailCut` | src/agent/compaction.ts:212-224 | the longest affordable tail, widened to the minimum tail where the head leaves room for one, then aligned backward: the span never takes any of that minimum nor the last message |
| `Compaction.MiddleGrows` | src/agent/compaction.ts:348-356 | widening a span keeps what it already summarized |
| `Compaction.Reset` | src/agent/compaction.ts:237-276 | the reset replaces exactly the uncompacted span up to the current prompt, by the bounded summary framed, and reports how many messages it discarded and why |
| `Compaction.Ladder` | src/agent/compaction.ts:354-420 | every call but the last gave a summary that was too large, was reported with the reason, and was retried over a wider span; the last call decides outcome and result; reasons, costs, widths and outcomes are spelled out in the rows below |
| `Compaction.Compact` | src/agent/compaction.ts:309-421 | the whole function over the head end and tail cut of the two selections: a noop without a call, or that ladder |
| `Compaction.CompactionDetermined` | src/agent/compaction.ts:309-421 | that contract leaves no choice: any two runs meeting it on the same inputs have the same outcomes, calls and result |
| `Compaction.OneTerminal` | src/agent/compaction.ts:309-421 | retries only and then one terminal outcome, at most retries plus one calls, and a noop if and only if there is nothing to compact |
| `Compaction.NoopExactly` | src/agent/compaction.ts:310-346 | nothing is called or replaced if and only if the transcript is no longer than the protected messages, the tail begins within the head, or only summaries lie between them |
| `Compaction.FailsExactly` | src/agent/compaction.ts:358-375 | the outcome is a failure if and only if the last call threw or gave nothing but white space, and no earlier call did either |
| `Compaction.ShortenedShrinks` | src/agent/compaction.ts:377-416 | a summary that stands costs ceil(length / 4) tokens, strictly less than the estimate of the span it replaces and no more than the budget; the outcome carries that cost and the number of messages, the result its first and last id and the framed summary |
| `Compaction.OversizedReason` | src/agent/compaction.ts:377-403 | a summary retried, declined or reset is reported as not shrinking its source if and only if its cost is at least the estimate of its span, and as over budget if and only if it is below that and above the budget; it is retried if and only if attempts are left and the span stops short of the minimum tail |
| `Compaction.WidensHalfway` | src/agent/compaction.ts:336-392 | the next span ends at the boundary that follows the point halfway, rounded up, from the last end to the minimum tail |
| `Compaction.SpanExact` | src/agent/compaction.ts:340-340 | a span is exactly the messages of its range that are not summaries, in order |
| `Compaction.ResetSparesPrompt` | src/agent/compaction.ts:248-276 | a reset replaces everything from the head to the end, except a trailing user message, counts it, and carries the bounded summary framed |
| `Compaction.EndsRise` | src/agent/compaction.ts:341-345 | each retry ends strictly later than the one before, and only ends short of the widest allowed one are retried |
| `Compaction.ResultFollowsOutcome` | src/agent/compaction.ts:309-421 | null exactly on noop, failed and declined; a reset only where allowed; the reset itself never comes up empty |
| `Compaction.SpanKeepsFirstUser` | src/agent/compaction.ts:204-208 | the replaced span never contains the first user message |
| `Compaction.CheckpointSize` | src/agent/compaction.ts:237-276 | size bounds of the checkpoint on the shortened and on the reset path |
| `ContextBudget.ResolvesExactlyFrom` | src/agent/context-budget.ts:60-110 | a positive window resolves exactly from 4063 tokens up, and the non-convergence error is unreachable |
| `ContextBudget.FloorBelowTrigger` | src/agent/context-budget.ts:135-158 | past the summary check the enforced floor is below the trigger |
| `ContextBudget.TriggersOrdered` | src/agent/context-budget.ts:60-80 | compactAfter < proactive < inputBudget, strictly |
| `ContextBudget.BudgetInWholeNumbers` | src/agent/context-budget.ts:60-110 | every figure of the budget as a formula in whole numbers of the window |
| `ContextBudget.RetainedFitsTail` | src/agent/context-budget.ts:82-96 | the retained messages never exceed the tail budget |
| `Continuity.ExtractContinuity` | src/agent/continuity-index.ts:72-136 | the loops compute the extraction that the next rows describe on the fields of the parts |
| `Continuity.FilesReadExact` | src/agent/continuity-index.ts:83-92 | a path is listed as read if and only if some available read_file call has it as its path and it is not empty |
| `Continuity.FilesWrittenExact` | src/agent/continuity-index.ts:93-101 | a path is listed as written if and only if some available write_file call has it as its path, not empty, or some available apply_patch call has it among its expected hashes |
| `Continuity.RunsExact` | src/agent/continuity-index.ts:102-112 | a run is listed if and only if the first available spawn_subagent call with its id describes it so: by its label, else its task cut at 60, else its id, and its status or "unknown" |
| `Continuity.ArtifactsExact` | src/agent/continuity-index.ts:113-119 | an artifact is listed if and only if the first available exec_publish_artifact call with its url gives it that title, or none and the url stands in |
| `Continuity.SandboxExact` | src/agent/continuity-index.ts:126-127 | the sandbox is the last non-empty one that a named available call reports, whatever the tool |
| `Continuity.WorkbenchExact` | src/agent/continuity-index.ts:128-129 | likewise the workbench |
| `Continuity.BranchExact` | src/agent/continuity-index.ts:130-131 | and the branch |
| `Continuity.MergeContinuity` | src/agent/continuity-index.ts:152-176 | the in-place merge: later runs replace, files and artifacts keep their first entry, a later scalar wins |
| `Continuity.MergeIsExtract` | src/agent/continuity-index.ts:72-176 | extracting two spans and merging equals extracting the whole, on files, artifacts, scalars and ordered run ids |
| `Continuity.CyclesForgetNothing` | src/agent/continuity-index.ts:144-176 | merging over any number of spans equals extracting their concatenation |
| `Continuity.ExtractReports` | src/agent/continuity-index.ts:72-136 | extracting lists each run once, under its first report |
| `Continuity.CyclesKeepLatestReport` | src/agent/continuity-index.ts:144-176 | after merging any number of spans each run is listed once, under its first report in the last span that mentions it |
| `Continuity.RenderContinuity` | src/agent/continuity-index.ts:208-227 | the pushed lines are the rendered block |
| `Continuity.RenderedText` | src/agent/continuity-index.ts:208-227 | the block is the heading and then a line each for the environment, the files read, the files written, every run and every artifact, in order, with nothing for what is absent; an empty index gives no text |
| `Continuity.RenderedIsBlock` | src/agent/continuity-index.ts:208-227 | a rendered index whose lines hold no blank line is a well-formed checkpoint block |
| `Continuity.RenderedNeverStacks` | src/agent/compaction.ts:136-160 | a checkpoint carrying the rendered index re-frames to its own prose if and only if the trimmed rendering has no blank line |
| `Continuity.SpawnedLabelStacks` | src/agent/continuity-index.ts:105-115 | the failing inputs: one subagent call whose label holds a blank line, wherever it sits, makes framing stack |
| `Continuity.BoundContinuity` | src/agent/continuity-index.ts:186-206 | drops as few entries as make the index fit, and all droppable ones if none do |
| `Continuity.DroppedKeepsNewest` | src/agent/continuity-index.ts:186-206 | what remains are suffixes, read files going before written files before artifacts; subagents and scalars stay |
| `FeedbackRateLimit.FeedbackRateLimiter.ReserveFeedbackSlot` | src/agent/feedback-rate-limit.ts:45-112 | one reservation: the decision and the stored, capped history |
| `FeedbackRateLimit.WindowsHold` | src/agent/feedback-rate-limit.ts:45-112 | for non-decreasing clocks every hour holds at most 30 turns and 5 reports and every day at most 20 reports, although only 30 and 20 events are kept |
| `FeedbackRateLimit.TurnExact` | src/agent/feedback-rate-limit.ts:53-77 | over every history with a clock that does not go back, a turn is accepted if and only if its key took one of the last 30 slots within 24 hours, which costs nothing, or fewer than 30 slots were taken within the hour, and then it takes one |
| `FeedbackRateLimit.ReportExact` | src/agent/feedback-rate-limit.ts:79-112 | a report is accepted if and only if its key took a slot within 24 hours, which costs nothing, or fewer than 5 were taken within the hour and fewer than 20 within the day |
| `FeedbackRateLimit.ActiveExact` | src/agent/feedback-rate-limit.ts:27-29 | whatever is stored, a call works on the events of the last 24 hours, oldest first and equal times in stored order |
| `FeedbackRateLimit.RepeatedTurnIsFree` | src/agent/feedback-rate-limit.ts:52-60 | repeating a turn key accepted within the hour is accepted and takes no slot |
| `FeedbackRateLimit.RepeatedReportIsFree` | src/agent/feedback-rate-limit.ts:80-86 | repeating a report key accepted within the day is accepted and takes no slot |
| `FeedbackRateLimit.TurnRetryExact` | src/agent/feedback-rate-limit.ts:35-39 | a refused turn is accepted after exactly the advertised seconds and refused one second earlier |
| `FeedbackRateLimit.ReportRetryExact` | src/agent/feedback-rate-limit.ts:86-103 | a refused report stays refused until a second before the advertised time; from then on the hourly limit has lifted and the retry is accepted if and only if the day before it holds fewer than 20 reports, which after a daily refusal it always does |
| `Base64Url.BytesToBase64Url` | src/encoding.ts:17-21 | the byte loop computes the unpadded URL-safe encoding |
| `Base64Url.Base64UrlToBytes` | src/encoding.ts:29-36 | the decoder fills exactly the decoded bytes, or throws when decoding does |
| `Base64Url.RoundTrip` | src/encoding.ts:17-36 | decoding gives back every byte sequence, also with any number of trailing = appended |
| `Base64Url.EncodingShape` | src/encoding.ts:17-21 | length ceil(4n/3) and only URL-safe characters |
| `Base64Url.EncodesBits` | src/encoding.ts:17-21 | each character is the one of the URL-safe alphabet at the place of the next six bits, and the spare bits behind the last byte are zero |
| `Base64Url.DecodesBits` | src/encoding.ts:29-36 | text of either alphabet, with any padding, decodes if and only if its length is not one more than a multiple of four, to floor(3n/4) bytes whose bits are the places of its characters, less the spare bits of a short last group |
| `Base64Url.EncodingInjective` | src/encoding.ts:17-36 | no two byte sequences share an encoding |
| `Base64Url.AcceptsExactly` | src/encoding.ts:29-36 | input without white space decodes exactly when what precedes the trailing = is in either alphabet and leaves no single character over |
| `ReasoningStream.RepairTransform.Transform` | src/agent/reasoning-stream-repair.ts:14-50 | one part through the transform: the new active set and what is enqueued |
| `ReasoningStream.RepairTransform.Pipe` | src/agent/reasoning-stream-repair.ts:9-53 | a whole stream through a fresh transform is the repaired stream |
| `ReasoningStream.RepairedWellFormed` | src/agent/reasoning-stream-repair.ts:9-53 | every reasoning delta and end in the output lies inside an open start of its id in the same step |
| `ReasoningStream.EraseGivesInput` | src/agent/reasoning-stream-repair.ts:9-53 | taking the inserted starts out gives back the input |
| `ReasoningStream.InsertsOnlyStarts` | src/agent/reasoning-stream-repair.ts:20-43 | only starts are inserted, each directly before a part of its id with its metadata |
| `ReasoningStream.WellFormedUnchanged` | src/agent/reasoning-stream-repair.ts:9-53 | well-formed streams pass through unchanged |
| `ReasoningStream.RepairIdempotent` | src/agent/reasoning-stream-repair.ts:9-53 | repairing twice is repairing once |
| `ReasoningStream.RepairIsShortest` | src/agent/reasoning-stream-repair.ts:9-53 | no well-formed stream containing the input in order is shorter |
| `UsageFlush.TurnUsageAccumulator.Add` | src/agent/usage-recorder.ts:117-134 | each field of the key's entry grows by exactly the call's, the calls by one, and every other key stays as it is |
| `UsageFlush.TurnUsageAccumulator.RecordContext` | src/agent/usage-recorder.ts:143-157 | the newest reading replaces the one before; totals stay |
| `UsageFlush.TurnUsageAccumulator.Merge` | src/agent/usage-recorder.ts:175-191 | each field of every entry grows by the other accumulator's; its reading counts only where there is none |
| `UsageFlush.UsageConserved` | src/agent/think-thread-agent.ts:774-797 | over every interleaving of steps, overlapping flushes and failed batches, live plus in-flight plus stored usage is what was recorded, which the next row spells out |
| `UsageFlush.UsageIsReported` | src/agent/think-thread-agent.ts:774-824 | over every such run, each field of live plus in-flight plus stored usage of a key is the plain sum of that field over the finished steps with that key, and the calls are their number |
| `UsageFlush.FlushTakesAll` | src/agent/think-thread-agent.ts:774-780 | a flush moves everything live into one batch behind those in flight, and does nothing when nothing is live |
| `UsageFlush.SettlesWhole` | src/agent/think-thread-agent.ts:779-794 | the first batch in flight either is stored whole, field by field, with its reading as the gauge, or goes back whole behind what is live |
| `UsageFlush.ReadingsAreReported` | src/agent/think-thread-agent.ts:805-824 | every reading, stored, in flight or live, is exactly what the step it names reported |
| `UsageFlush.CommitsInStartOrder` | src/agent/think-thread-agent.ts:774-797 | flushes commit in the order they were started |
| `UsageFlush.FailureKeepsGaugeExactly` | src/agent/usage-recorder.ts:175-191 | a failed batch keeps the gauge's order exactly when it does not put a reading back behind a newer one in flight |
| `UsageFlush.GaugeNeverGoesBack` | src/agent/think-thread-agent.ts:774-824 | over every run in which no failed batch puts a reading back behind a newer one in flight, no step stores an older reading over a newer |
| `UsageFlush.StaleReturnExactly` | src/agent/think-thread-agent.ts:774-824 | after any such run, some continuation of a failed batch, itself without a failure, stores an older reading over a newer if and only if that batch put its reading back behind a newer one in flight |
| `UsageFlush.SlipsExactly` | src/agent/think-thread-agent.ts:774-824 | in every reachable state some failure-free continuation makes the stored gauge go back if and only if stored, in-flight and live readings are out of order |
| `UsageFlush.GaugeCanGoBack` | src/agent/think-thread-agent.ts:774-797 | a run of eight events from the start in which the stored reading of step 1 is overwritten by that of step 0 |
| `Archive.DestroyedIsSaved` | src/agent/archive-thread.ts:40-100 | whatever crashes and retries, a destroyed object's thread is flagged and its full non-empty transcript and compactions are stored |
| `Archive.OnlyFullCallsDestroy` | src/agent/archive-thread.ts:53-58 | only the last step of a full call destroys; recovery never does |
| `Archive.FlaggedDestroyedExactly` | src/agent/archive-thread.ts:40-58 | a flagged thread whose object is still there can be destroyed in some continuation if and only if the full call is about to destroy it |
| `Archive.TornKeepsObject` | src/agent/archive-thread.ts:46-58 | a thread flagged over part of its transcript or without its compactions keeps its object and everything stored over every continuation |
| `Archive.RecoveryWholeExactly` | src/agent/archive-thread.ts:46-58 | a thread can be archived with part of its transcript exactly when the transcript needs more than one insert |
| `Archive.RecoveryCompactionsExactly` | src/agent/archive-thread.ts:46-58 | and without its compactions exactly when it has both messages and compactions |
| `Archive.ThreadArchive.ReplaceMessages` | src/db/repositories/archived-messages.ts:24-35 | the chunked inserts store the whole list |
| `Archive.ThreadArchive.ReplaceCompactions` | src/db/repositories/archived-compactions.ts:28-50 | the same for compactions |
| `Archive.ThreadArchive.ArchiveThreadCore` | src/agent/archive-thread.ts:40-100 | the uninterrupted call: its outcome and everything it leaves behind |
| `Archive.OutcomeByState` | src/agent/archive-thread.ts:44-100 | the outcome by what is stored before and after: already archived exactly with the flag set, archived exactly when the call sets it, busy exactly when a turn is active and nothing is stored, empty exactly when nothing is stored or exported |
| `Archive.OutcomeLeaves` | src/agent/archive-thread.ts:44-100 | what each outcome leaves: nothing changed, only the skip stamped, only the flag set over what was stored, or everything stored, flagged and the object destroyed |
| `Archive.StoredInWholeInserts` | src/db/repositories/archived-messages.ts:24-35 | over every run with crashes, what is stored is a beginning of the transcript and of the compactions that ends after a whole number of inserts, of 25 messages and 12 compactions each, or is all of it |
| `Archive.GrownIsArchived` | src/agent/archive-thread.ts:40-100 | every non-empty transcript a thread can grow is archived whole, with its compactions, by one call |
| `Archive.CallIsRun` | src/agent/archive-thread.ts:40-100 | that call is a run of the crashable step system |
| `AutoArchive.SelectBatch` | src/agent/auto-archive.ts:37-55 | the oldest eligible threads, at most 25, nothing left out older than something taken |
| `AutoArchive.ThreadRegistry.AutoArchiveIdleThreads` | src/agent/auto-archive.ts:29-76 | one sweep processes exactly its batch, except threads mid-turn or throwing; the counters add up to the batch, and archived and failed are the threads that became archived and that threw |
| `AutoArchive.SweepExact` | src/agent/auto-archive.ts:37-73 | on the rows themselves: a sweep takes at most 25 threads, once each and oldest first, that are not archived, idle since before the cutoff and touched since they were last skipped, and leaves out no older one; it archives each, or stamps an empty one at its last touch, and changes no thread that is mid-turn, throws or is outside the batch |
| `AutoArchive.CountsExact` | src/agent/auto-archive.ts:54-76 | the counters add up to the batch; archived counts the threads newly archived and failed those that threw |
| `AutoArchive.TouchedComesBack` | src/agent/auto-archive.ts:37-49 | an empty thread once stamped is picked again if and only if it is touched later and then idle past the cutoff |
| `AutoArchive.EligibleAfter` | src/agent/auto-archive.ts:37-75 | a sweep takes out of the eligible set exactly the batch threads not held back |
| `AutoArchive.SweepProgress` | src/agent/auto-archive.ts:37-75 | with nothing held back it removes min(25, eligible) threads |
| `AutoArchive.SweepsDrain` | src/agent/auto-archive.ts:37-75 | over sweeps with advancing cutoffs and any activity in between, after k sweeps at most max(0, n - 25k) of the n threads eligible at first are left, and exactly that many if nothing else happened, so empty threads starve nobody |
| `AutoArchive.HeldSweepsDrain` | src/agent/auto-archive.ts:37-75 | likewise, with at most s of the first eligible threads held back in every sweep, s at most 25, at most max(0, n - (25 - s)k) of the n others are left |
| `AutoArchive.StarvesExactly` | src/agent/auto-archive.ts:37-75 | a thread that is not held back stops waiting within some number of sweeps, whatever batches they take, however the cutoffs advance and whatever else happens, if and only if fewer than 25 eligible threads that stay held back are as old as it or older |
| `AutoArchive.JammedStarves` | src/agent/auto-archive.ts:37-75 | a registry with 25 threads that stay held back, behind which a younger one is still waiting after any number of sweeps |

## Left out

- Queue: the submission listing is taken to be complete (the source asks for at most 50 rows), a crash between the cancel and the resubmit is not a step, message ids are fresh and equal the client message id, and submissions are not skipped or failed by the SDK before they are applied. Legacy single-message rows are read by the functions but do not occur in runs.
- Queue: parsing and normalising of stored metadata, previews and attachments.
- Work ledger: watcher polling (`pollWatcher`) is not a writer in the runs; the delivery theorems are about rows without a live watcher, and a skipped retry is the only trace a watcher leaves. Ids are not reused after a row is gone, and `deleteRow` is a step for open rows only.
- Work ledger: sweeps do not overlap, which is how the alarm runs them. Teardown after a delivery, labels and message texts are not modelled.
- Work sweep: a sweep throws between two rows or in pruning, not inside a row's own guard, and stamps all its deliveries with one time.
- InjectionDrain: message ids are fresh, one drain runs at a time (kicks may overlap it and each other), and a submission row becomes durable in one step. Starting the kicked turn itself, `_activeTurnInjections` and `assembleStepMessages` are not modelled.
- ModelSwitchRestore.CompactionKeepsForeignReasoningOut: one contiguous span and one summary; any number of them is the subject of `ModelSwitchCompactions`. The restored marker is the latest switch's, whose anchor lies in an archived span.
- Compaction: prompt texts and the target token count, which only feed the summarizer. The check for an already compacted middle is made once before the ladder, where it matters: wider spans only add messages.
- Compaction.CheckpointSize: on the shortened path only the prose is held to the summary budget, as in the source; the frame comes on top.
- ContextBudget: exact arithmetic; the source computes in floating point. Windows are positive integers.
- Continuity.MergeIsExtract: a subagent's label and outcome are excepted, because extraction keeps the first report and merging the last; `Continuity.CyclesKeepLatestReport` says which ones are carried.
- AutoArchive: the threads held back are the same in every sweep of a run, and a touched thread is stamped with a time past the sweep's cutoff.
- CheckpointText: the preamble and heading are parameters; white space is the set `trim` removes, and a character stands for a UTF-16 unit.
- Base64Url: `btoa` and `atob` are modelled from the encoding's definition and the forgiving decoder; input with white space is decoded but not characterised.
- UsageFlush: provider-specific token extraction, and the usage lost when the object itself crashes, since the accumulator is only in memory.
- Archive: calls for one thread do not overlap, nothing is appended while one runs, a stored snapshot is not appended to later, and the search projection is not modelled.
- FeedbackRateLimit: storage errors; the clock does not go back.
- Attachments, subagent progress timers, tools, prompts, routing, providers and D1 repositories other than the two archive tables.
