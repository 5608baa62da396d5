# A verified model of the Watcher indexer

Watcher follows many blockchains. For each chain a pipeline fetches the block
after its cursor, checks the parent hash, and either rolls back or commits block
and cursor together. It may jump to a head that is far away and leave the gap
to a backfill processor; a rescan worker pool re-reads ranges from a Redis queue.
This project models that core, and the accounting and filtering components
around it, and proves what they keep over whole runs.

The model takes the form of the source: objects are classes with mutable fields,
loops are loops. Each method is proved against a function of the old state, and
the run theorems are about those functions. What the outside world answers
(remote nodes, the database, Redis, the inner emitter, the clock, map iteration
order, which write fails) is a parameter that the theorems quantify over.

| module | what it holds |
|---|---|
| `Cursors` | the cursor manager and its transition table |
| `Stores` | the PostgreSQL tables of one chain |
| `Reorg` | safe-point search and rollback |
| `Pipeline`, `StepFacts`, `PipelineRuns`, `Convergence` | one indexing step; what it reports and when it jumps; invariants of every run; convergence to a remote chain |
| `GapMachine`, `GapPipeline`, `GapCompletion`, `Backfill`, `BackfillRuns`, `Gaps` | gap jump and backfill as an interleaved machine; which ranges can be completed; the processor and its histories; the gap query, the detector and a whole repair |
| `MixedRuns` | pipeline with gap jump mixed with backfill calls: when statuses stay right |
| `Delivery` | the pipeline step joined with the finality buffer |
| `Ranges`, `RangeText` | range algebra of the rescan queue; queue members as text |
| `RescanStore`, `RescanProtocol`, `RescanConservation`, `RescanLosses`, `RescanWorker` | shared keys; many workers as a machine; the fate of every block; two runs that lose one; the worker loop as a run of that machine |
| `Budget`, `RequestRing`, `Finality`, `Circuit` | rate limiter, minute-bucket ring, finality buffer, circuit breaker |
| `Sui`, `Bloom` | pre-filter soundness; Bloom filter and the Tron filter |

## Main results

- **Convergence** (`Convergence.Converges`, `AnyPastConverges`). After any
  adversarial past, once the remote serves a fixed chain above the cursor the
  pipeline holds exactly that chain after exactly
  (cursor − fork) + (height − fork) steps, and not before.
- **Every run keeps one chain** (`PipelineRuns.RunKeepsChain`, `RunSettled`,
  `RunTxSettled`, `InvalidIff`): stored blocks are hash-linked up to the cursor,
  processed up to it and orphaned above it, and a transaction is invalid exactly
  when it arrived so or a later rollback found its hash.
- **With gap jump and backfill** (`MixedRuns.RunRightIff`) the statuses stay right
  throughout if and only if no deep reorganisation and no fill above the cursor
  occurs.
- **No block is silently lost** (`GapMachine.NoBlockSilentlyLost`) under every
  interleaving of jump, rollback, gap detection and backfill; every pipeline step,
  processor call and detector call is shown to be a run of that machine. A repair
  (`Gaps.Repair`: scan, record, work off, scan again) ends clean, or exactly why not.
- **The fate of every rescanned block** (`RescanConservation.RequestedUnlessLost`):
  over every interleaving of any number of workers, with crashes, expiring keys and
  merges in three steps, a block is saved, queued or owed if and only if it was
  asked for and none of three named events lost it. Without those events
  conservation is exact (`NothingLostNothingAdded`), also again after crashes
  (`ConservedAgain`). The worker loop (`RescanWorker.RunOnce`) is a run of the machine.
- **Trace laws**: `Circuit.BreakerLaw`, `Budget.RefusedIff`, `CallsWithinLimits` and
  `SpanWithResets`, `RequestRing.RingRefinesLog` and `RingCountsLive`,
  `Finality.EventsConserved` and `SentInOrder`.
- **Emission and commit together** (`Delivery.OncePerCommitIff`): the buffer gets
  each committed block's events exactly once per commit if and only if no step
  emits and then fails to commit.
- **Filters lose nothing**: `Sui.SkippingIsSoundIff`, `Bloom.ExactOnAllIffCovered`.

## What turned out not to hold

Each comes with a lemma that says exactly when it does hold.

- The handler is called with the first block above the safe one, so where stored
  links are broken more than one block deep it leaves the upper blocks as they
  were (`PipelineRuns.DeepRollbackExact`). The pipeline alone never meets this
  (`PipelineRuns.SafePointIsPredecessor`); a run with a jump and a backfill does
  (`MixedRuns.DeepRollbackMissesABlock`). Exact condition over runs: `MixedRuns.RunRightIff`.
- A rollback cut off between its first write and the cursor move leaves the
  cursor's block orphaned; cut off before its last write it leaves the state
  reorg (`PipelineRuns.InterruptedRollbackExact`). The first survives the remote's
  return to the old branch (`InterruptionSurvivesReturn`), the second is ignored
  by the database path (`ReorgStateIsIgnored`).
- A transaction that comes back in the replacement of its block stays invalid
  (`PipelineRuns.ReincludedStaysInvalid`); exactly when a committed transaction has
  the status it came with: `PipelineRuns.OwnStatusIff`, and over runs `InvalidIff`.
- A backfill row whose fetch failed is never claimed again
  (`GapCompletion.AbandonedForever`); every other row can still be completed
  (`GapCompletion.CompletableIff`).
- The gap query fails as a whole exactly when a gap ends beyond 2^31 − 1
  (`Gaps.FindGaps`), and a second scan is clean exactly when the rows that were
  waiting before open no new gap (`Gaps.Repair`, `Gaps.RepairedIff`).
- A rescan block can be lost by a crash, by skipping a chunk whose lock has no live
  holder, which also hits requests made after the crash
  (`RescanLosses.LockLeftBehindLoses`), and by a merge that clears a range it has
  not read (`RescanLosses.StaleMergeLoses`). Exactly these: `RescanConservation.FateExact`.
- A reset inside a span allows one more limit's worth of calls
  (`Budget.ResetBreaksTheBound`); the exact bound is `Budget.SpanWithResets`.
- A commit that fails after emission makes the retry emit again
  (`Delivery.OncePerCommitIff`).
- Near 2^64 range sums wrap: the splitting loop gives the chunks of the range if and
  only if no sum wraps (`Ranges.SplitLoopExact`), and touching ranges are found
  except in the case `Ranges.OverlapsExact` names.
- Not-found answers never open the circuit breaker but prolong an open one
  (`Circuit.NotFoundProlongs`).
- The Sui pre-filter overlooks transactions exactly when the empty address is
  tracked and a transaction carries no sender (`Sui.SkippingIsSoundIff`).
- The Tron adapter builds its Bloom filter from the first address list only;
  addresses added later are lost unless their bits happen to be set
  (`Bloom.ExactOnAllIffCovered`, `Bloom.UncoveredIsLost`).

Where documentation and code differ the model follows the code: section 5 of
docs/architecture.md has the pipeline continue past a failed block, while the
code leaves the cursor where it is and asks for the same block again.

## Model

| member | source | states |
|---|---|---|
| `Cursors.Manager.Initialize` | internal/core/cursor/manager.go:83-104 | creates the row at the start block in state init, or changes nothing when the write fails |
| `Cursors.Manager.Advance` | internal/core/cursor/manager.go:107-199 | new row and outcome, all error branches, as a function of the old row |
| `Cursors.Manager.Jump` | internal/core/cursor/manager.go:202-232 | the same for a jump |
| `Cursors.Manager.SetState` | internal/core/cursor/manager.go:235-280 | the same for a state change, with the reported transition |
| `Cursors.Manager.Rollback` | internal/core/cursor/manager.go:283-327 | the same for a rollback, including a failure between its two writes |
| `Cursors.Manager.Pause` | internal/core/cursor/manager.go:330-332 | the same for pausing |
| `Cursors.Manager.Resume` | internal/core/cursor/manager.go:335-350 | the same for resuming, which needs the paused state |
| `Cursors.StateChangesAreReported` | internal/core/cursor/manager.go:235-327 | a call reports exactly the edge it took, the edge is in the table or leads into reorg, and it never removes the row |
| `Cursors.ReportedTransitionsArePath` | internal/core/cursor/state.go:18-54 | over every run the reported transitions form one path of legal edges from init to the stored state |
| `Cursors.MovesOnly` | internal/core/cursor/manager.go:107-327 | the position changes only by +1 through Advance, by Jump, or by Rollback; a paused cursor moves only through Rollback |
| `Cursors.AdvanceOutcome` | internal/core/cursor/manager.go:107-199 | success means at or beyond the block, with its hash when exact; failure changes nothing |
| `Cursors.TransitionsExact` | internal/core/cursor/state.go:18-54 | which edges succeed and which fail; none leads to itself or back to init |
| `Cursors.AdvanceIff` | internal/core/cursor/manager.go:107-199 | when an advance succeeds, when it moves, and which reason each failure has |
| `Cursors.OthersIff` | internal/core/cursor/manager.go:202-350 | when jump, state change, pause, resume and rollback succeed, and what they leave |
| `Cursors.NoRowNoEffect` | internal/core/cursor/manager.go:107-350 | without a readable row nothing happens, with the right reason |
| `Cursors.ReorgPersists` | internal/core/cursor/manager.go:235-327 | the state stays reorg until a transition to scanning or catchup succeeds |
| `Cursors.AdvanceAfterRollbackNeedsTransition` | internal/core/cursor/manager.go:107-327 | in any run, between a rollback and a later moving Advance such a transition happened |
| `Stores.MarkTx` | internal/infra/storage/postgres/sqlc/transactions.sql.go:270-274 | a status update reaches every row with the hash and no other |
| `Stores.HashesAt` | internal/indexing/reorg/handler.go:71-74 | exactly the hashes of the transactions found in a block |
| `Stores.InsertTxsExact` | internal/infra/storage/postgres/sqlc/transactions.sql.go:83-108 | insertion adds exactly the new keys, once each, and leaves existing rows as they were |
| `Stores.InsertStatus` | internal/infra/storage/postgres/sqlc/transactions.sql.go:83-108 | a row that is there keeps its status, otherwise the first new row with the key decides |
| `Reorg.FindSafePoint` | internal/indexing/reorg/detector.go:79-128 | the loop computes the backward walk, for any depth limit and any read failures |
| `Reorg.CheckParentHash` | internal/indexing/reorg/detector.go:31-75 | verdict as a function of the stored blocks |
| `Reorg.WalkExact` | internal/indexing/reorg/detector.go:79-128 | from any point of the walk, with any read failures: what its end means, when the depth limit cuts it off, and which blocks it asks for |
| `Reorg.FindSafePointExact` | internal/indexing/reorg/detector.go:79-128 | on every store: the highest block its successor names as parent, or the end of stored data, or zero; unknown exactly when the run of broken links exceeds the limit or a block asked for cannot be read |
| `Reorg.CompareExact` | internal/indexing/reorg/detector.go:31-75 | on every store: when there is no reorganisation, and what a detected or failed check means |
| `Reorg.SafePointUnique` | internal/indexing/reorg/detector.go:79-128 | at most one block meets that description |
| `Reorg.OrphanBlock` | internal/indexing/reorg/handler.go:64-93 | one block orphaned and its transactions invalidated, as far as the writes succeed |
| `Reorg.OrphanBlocks` | internal/indexing/reorg/handler.go:63-94 | the downward loop performs a prefix of the planned writes, all of them when none fails, and counts the blocks |
| `Reorg.RevertTransactions` | internal/indexing/reorg/handler.go:76-93 | the inner loop invalidates the first transactions the budget of writes allows |
| `Reorg.RollbackCursor` | internal/indexing/reorg/handler.go:96-104 | cursor back, then scanning, cut off after any number of writes |
| `Reorg.Rollback` | internal/indexing/reorg/handler.go:50-108 | the tables after a rollback stopped at any write, with the right counters |
| `Reorg.BlocksRollBack` | internal/indexing/reorg/handler.go:63-94 | exactly the stored blocks in (safe, from] orphaned, exactly the hashes found there invalidated |
| `Reorg.RollBackExact` | internal/indexing/reorg/handler.go:50-108 | a completed rollback also ends at the safe block in state scanning, as the manager's own Rollback and SetState would |
| `Pipeline.Indexer.ProcessNextBlock` | internal/indexing/indexer/pipeline.go:199-480 | one step as a function of tables and environment |
| `Pipeline.Indexer.FollowChain` | internal/indexing/indexer/pipeline.go:225-281 | fetch, parent check, then rollback or commit |
| `Pipeline.Indexer.CommitUnit` | internal/indexing/indexer/pipeline.go:408-456 | block, transactions and cursor change together or not at all; the cursor keeps its state; a hash stored under another number makes it fail |
| `Pipeline.Indexer.HandleFailure` | internal/indexing/indexer/pipeline.go:482-488 | the failed number is recorded, nothing else changes |
| `Pipeline.Indexer.Jump` | internal/indexing/indexer/pipeline_jump.go:24-64 | range recorded first, then the cursor moved; either may fail |
| `StepFacts.ChainStartsBelowHead` | internal/indexing/indexer/pipeline.go:199-224 | the chain starts ten blocks below the head seen by the first step that can create a cursor, or at the head if that is not above ten |
| `StepFacts.JumpIff` | internal/indexing/indexer/pipeline.go:227-249 | on any store: when a step records the gap, when it leaps, and where to |
| `StepFacts.StepVerdict` | internal/indexing/indexer/pipeline.go:199-488 | every outcome of a step: which number is recorded as failed, and when it goes on, waits or reports an error |
| `StepFacts.RunKeepsKeys` | internal/infra/storage/postgres/sqlc/transactions.sql.go:83-108 | no transaction key occurs twice in any state of any run |
| `PipelineRuns.SafePointIsPredecessor` | internal/indexing/reorg/detector.go:31-128 | on reachable states a mismatch always has cursor − 1 as safe point, whatever the depth limit |
| `PipelineRuns.RollbackPrefix` | internal/indexing/reorg/handler.go:50-108 | the tables after each prefix of the pipeline's rollback |
| `PipelineRuns.StepMoves` | internal/indexing/indexer/pipeline.go:199-480 | against any environment a step moves by +1 with the block stored, by −1 on a mismatch, or not at all; a failed fetch changes no block; the chain invariant is kept |
| `PipelineRuns.StepCommits` | internal/indexing/indexer/pipeline.go:225-480 | with the parent in place and no failure the step commits |
| `PipelineRuns.StepRollsBack` | internal/indexing/indexer/pipeline.go:225-281 | on a mismatch the step orphans exactly the cursor's block and steps back once the rollback completes |
| `PipelineRuns.DeepRollbackExact` | internal/indexing/indexer/pipeline.go:225-281 | on any store, all abandoned blocks end orphaned if and only if those above the first already were |
| `PipelineRuns.RunKeepsChain` | internal/indexing/indexer/pipeline.go:199-480 | every run, any environment: one stored, hash-linked chain from start to cursor, cursor never below start |
| `PipelineRuns.RunFromEmpty` | internal/indexing/indexer/pipeline.go:199-224 | the same from an empty database with the start block chosen by the step |
| `PipelineRuns.RunSettled` | internal/indexing/indexer/pipeline.go:199-480 | if rollbacks complete: processed up to the cursor, orphaned above it |
| `PipelineRuns.RunTxSettled` | internal/indexing/reorg/handler.go:63-104 | if rollbacks complete: transaction keys stay unique, belong to stored blocks, and are invalid above the cursor |
| `PipelineRuns.ForwardTransactions` | internal/indexing/indexer/pipeline.go:399-456 | any store, any threshold: a step one forward adds rows of that block only, exactly the hashes of the batch, each new one with the status of its first occurrence |
| `PipelineRuns.OwnStatusIff` | internal/infra/storage/postgres/sqlc/transactions.sql.go:83-108 | after a commit a transaction has the status of its first occurrence in the batch if and only if the block had no row for it, or one with that status |
| `PipelineRuns.ReincludedStaysInvalid` | internal/infra/storage/postgres/sqlc/transactions.sql.go:83-108 | in particular a transaction that comes back in the replacement of its block stays invalid |
| `PipelineRuns.StepStatus` | internal/infra/storage/postgres/sqlc/transactions.sql.go:270-274 | a step changes a status only by abandoning a block that has the same hash; a new row has the status of its first occurrence in the batch |
| `PipelineRuns.InvalidIff` | internal/indexing/reorg/handler.go:63-94 | over every run with completing rollbacks: a row is invalid if and only if it arrived so or a later rollback found its hash, in whatever block |
| `PipelineRuns.InterruptedRollbackExact` | internal/indexing/reorg/handler.go:50-108 | after any number of writes: block statuses right if and only if before the first write or after the cursor move; transactions settled always; state scanning if and only if after the last write or not yet touched |
| `PipelineRuns.InterruptionSurvivesReturn` | internal/indexing/indexer/pipeline.go:225-281 | if the remote then returns to the old branch, the canonical block stays orphaned below the cursor |
| `PipelineRuns.ReorgStateIsIgnored` | internal/indexing/indexer/pipeline.go:408-456 | in state reorg the database path goes on and keeps the state, where the manager's Advance does not move |
| `Convergence.AgreeBelow` | internal/indexing/indexer/pipeline.go:199-480 | below one shared block store and remote agree all the way down |
| `Convergence.HonestStep` | internal/indexing/indexer/pipeline.go:199-480 | back if the cursor's block is not shared, forward if it is, nothing at the head |
| `Convergence.HonestStepProgress` | internal/indexing/indexer/pipeline.go:199-480 | each such step lowers the measure by exactly one |
| `Convergence.HonestRun` | internal/indexing/indexer/pipeline.go:199-480 | the measure after any number of steps |
| `Convergence.Converges` | internal/indexing/indexer/pipeline.go:199-480 | the remote chain is stored and the cursor at its head if and only if at least (cursor − fork) + (height − fork) steps were taken |
| `Convergence.NoGrowthNoChange` | internal/indexing/indexer/pipeline.go:199-281 | a remote not above the cursor changes nothing |
| `Convergence.AnyPastConverges` | internal/indexing/indexer/pipeline.go:199-480 | any adversarial past, then honest steps: converged, and statuses right if past rollbacks completed |
| `MixedRuns.StepRightIff` | internal/indexing/indexer/pipeline.go:199-480 | any store, any threshold: a step keeps the statuses right if and only if it meets no deep reorganisation |
| `MixedRuns.WorkRightIff` | internal/indexing/backfill/processor.go:74-138 | a backfill call keeps them right if and only if it stores nothing above the cursor |
| `MixedRuns.RunRightIff` | internal/indexing/indexer/pipeline_jump.go:24-64 | over every mixture of steps and calls: right throughout if and only if neither occurs |
| `MixedRuns.DeepRollbackMissesABlock` | internal/indexing/reorg/handler.go:63-94 | a run of jump, commit, backfill and mismatch that leaves a processed block above the cursor |
| `GapMachine.DoKeeps` | internal/indexing/indexer/pipeline_jump.go:24-64 | every single write of pipeline or backfill keeps the no-loss law |
| `GapMachine.NoBlockSilentlyLost` | internal/indexing/indexer/pipeline_jump.go:24-64 | every interleaving of pipeline, detector and workers, stops included: each number up to the cursor is stored or in a range not completed; completed means stored |
| `GapMachine.AllCompletedNoGap` | internal/indexing/backfill/processor.go:74-138 | once all ranges are completed there is no gap |
| `GapCompletion.AbandonedForever` | internal/indexing/backfill/processor.go:74-138 | a claimed range nobody works on is never claimed or completed again |
| `GapCompletion.CompletableIff` | internal/indexing/backfill/processor.go:74-138 | some run completes a range if and only if it is not such a one |
| `GapPipeline.StepIsActions` | internal/indexing/indexer/pipeline.go:199-480 | every pipeline step, any threshold, is a run of machine actions |
| `GapPipeline.StepKeepsLaw` | internal/indexing/indexer/pipeline.go:199-480 | hence keeps the law |
| `Backfill.GetNext` | internal/infra/storage/postgres/sqlc/missing_blocks.sql.go:48-75 | a pending row with the smallest first block, or none exactly when none is pending |
| `Backfill.FetchBlock` | internal/control/watcher.go:235-250 | stores the fetched block, fails exactly on a failed request, a missing block or a hash already taken |
| `Backfill.FillFromExact` | internal/indexing/backfill/processor.go:74-138 | filling stores exactly the blocks up to the first that cannot be had, and stops for no other reason |
| `Backfill.FillRange` | internal/indexing/backfill/processor.go:74-138 | stores the blocks up to the first failure and changes no other, as machine actions |
| `Backfill.ProcessRow` | internal/indexing/backfill/processor.go:74-138 | tables and outcome as a function of the old tables, and as machine actions |
| `Backfill.WorkedExact` | internal/indexing/backfill/processor.go:74-138 | all outcomes of a call that has a row: nothing if it cannot be claimed; blocks fetched up to the first not to be had, which is named; completed exactly when all are fetched and the write succeeds |
| `Backfill.ProcessOne` | internal/indexing/backfill/processor.go:74-138 | the same for a whole call, including quota, empty table and storage errors |
| `BackfillRuns.ProcessAll` | internal/indexing/backfill/processor.go:141-188 | the loop makes one call for each environment, and each does exactly what that environment makes of the tables it finds |
| `BackfillRuns.DoneInOrder` | internal/infra/storage/postgres/sqlc/missing_blocks.sql.go:48-75 | in every history rows are worked off in order of their first block, each once |
| `BackfillRuns.CompletedKeys` | internal/indexing/backfill/processor.go:74-138 | if all rows that waited end completed, exactly their numbers have been stored |
| `BackfillRuns.FillsAll` | internal/indexing/backfill/processor.go:104-121 | a range whose numbers can all be had is fetched to its end |
| `BackfillRuns.AllWorkedOffIff` | internal/indexing/backfill/processor.go:74-188 | if every call goes through and every number is to be had: all waiting rows are worked off if and only if there are as many calls |
| `Gaps.NextStored` | internal/infra/storage/postgres/sqlc/blocks.sql.go:121-132 | the smallest stored number above a block, within the window |
| `Gaps.FindGaps` | internal/infra/storage/postgres/sqlc/blocks.sql.go:121-166 | exactly the maximal runs of absent numbers strictly between stored blocks of the window, each once; fails if and only if one ends beyond 32 bits |
| `Gaps.OnCursorGap` | internal/indexing/backfill/detector.go:23-38 | records exactly the skipped numbers, if any, as a machine action |
| `Gaps.ScanDatabase` | internal/indexing/backfill/detector.go:42-61 | the same gaps, on the tables |
| `Gaps.QueueGaps` | internal/indexing/backfill/detector.go:64-100 | one pending row per gap, up to the first failure, as machine actions |
| `Gaps.GapsExact` | internal/infra/storage/postgres/sqlc/blocks.sql.go:121-132 | the gaps hold exactly the absent numbers between two stored ones of the window |
| `Gaps.SecondScanFindsNothing` | internal/infra/storage/postgres/sqlc/blocks.sql.go:121-132 | filling exactly the gaps of a scan leaves no gap in the window |
| `Gaps.RepairedIff` | internal/infra/storage/postgres/sqlc/blocks.sql.go:121-132 | after the gaps and some other numbers are stored, a scan is clean if and only if the others open no new gap |
| `Gaps.Repair` | internal/indexing/backfill/detector.go:42-100 | scan, record, work off, scan again: what is left at every point where it stops; finished if the calls go through and suffice; then exactly which numbers are stored, and the second scan is empty if and only if rows waiting before open no new gap |
| `Gaps.WorkAll` | internal/indexing/backfill/processor.go:141-188 | with willing calls, finished if and only if there are as many as waiting rows |
| `Gaps.CompletedScanIsClean` | internal/indexing/backfill/detector.go:42-100 | the same under every interleaving of workers, from any reachable state with nothing waiting |
| `Ranges.Split` | internal/indexing/rescan/ranges.go:25-40 | contiguous chunks of at most the chunk size that make up the range, whenever no sum wraps; the range of all numbers comes back whole |
| `Ranges.SplitLoopExact` | internal/indexing/rescan/ranges.go:30-37 | on all 64-bit ranges: the loop stops with the chunks of the range if and only if no sum wraps |
| `Ranges.PartitionCovers` | internal/indexing/rescan/ranges.go:25-40 | such chunks cover exactly the range |
| `Ranges.ChunksFull` | internal/indexing/rescan/ranges.go:25-40 | all chunks but the last are full |
| `Ranges.OverlapsExact` | internal/indexing/rescan/ranges.go:43-46 | on all 64-bit ranges: touching, except that an end of 2^64 − 1 wraps |
| `Ranges.MergeCoversBoth` | internal/indexing/rescan/ranges.go:49-59 | merging touching ranges covers exactly both |
| `Ranges.MergeRanges` | internal/indexing/rescan/ranges.go:62-86 | on all 64-bit ranges: same covered blocks, sorted, no two neighbours left that the test would merge; really separated when no end is 2^64 − 1; equal length means the same ranges |
| `Ranges.UnmergedSeparated` | internal/indexing/rescan/ranges.go:62-86 | when no end is 2^64 − 1, neighbours that are not merged mean a real gap between any two |
| `Ranges.CanonicalForm` | internal/indexing/rescan/ranges.go:62-86 | the covered blocks determine a separated list, so merging is canonical and idempotent |
| `Ranges.WrapKeepsOverlap` | internal/indexing/rescan/ranges.go:43-46 | the overlapping pair that is not found when an end wraps |
| `RangeText.ParseExact` | internal/infra/redis/client.go:186-207 | exactly which texts parse, and to what |
| `RangeText.PrintParse` | internal/infra/redis/client.go:96-105 | parsing a printed range gives it back, for all 64-bit bounds |
| `RangeText.PrintInjective` | internal/infra/redis/client.go:96-105 | distinct ranges print as distinct members |
| `RangeText.PrintCanonical` | internal/infra/redis/client.go:96-105 | of all digit strings with a value the printed one is that without a leading zero |
| `RescanStore.Shared.PopRange` | internal/infra/redis/client.go:65-93 | takes out a member with the lowest score, nothing exactly when the queue is empty |
| `RescanStore.Shared.PushRange` | internal/infra/redis/client.go:96-105 | adds one member |
| `RescanStore.Shared.AcquireLock` | internal/infra/redis/client.go:120-132 | succeeds exactly when the lock is free |
| `RescanProtocol.DoKeepsKeys` | internal/indexing/rescan/worker.go:143-207 | every action of every worker, crashes and expiries included, keeps the meaning of the keys |
| `RescanProtocol.ProgressMeansSaved` | internal/indexing/rescan/worker.go:163-196 | over every run, crashes included: progress c for (s, e) means [s, c) is saved |
| `RescanConservation.SkipHeld` | internal/indexing/rescan/worker.go:143-152 | skipping a chunk locked by a live worker loses nothing: the holder accounts for it |
| `RescanConservation.ClearLaw` | internal/indexing/rescan/worker.go:272-275 | at the clear of a merge a block leaves if and only if it was queued but not read, and neither saved nor owed |
| `RescanConservation.DoLaw` | internal/indexing/rescan/worker.go:66-284 | the exact effect of every action on every block: what it loses and what it puts in |
| `RescanConservation.FateExact` | internal/indexing/rescan/worker.go:66-284 | over every run, crashes and stale merges included: a block is saved, queued or owed if and only if it was put in and not lost since |
| `RescanConservation.RequestedUnlessLost` | internal/indexing/rescan/worker.go:66-284 | the same from a fresh start: asked for and not lost |
| `RescanConservation.NoLossWhileHeld` | internal/indexing/rescan/worker.go:143-207 | while every lock has a live holder, runs without crash and stale merge lose nothing |
| `RescanConservation.DoConserves` | internal/indexing/rescan/worker.go:66-207 | such an action keeps, block by block, what is saved, queued or owed |
| `RescanConservation.DoKeepsInv` | internal/indexing/rescan/worker.go:66-207 | the invariant behind it: locks have live holders, claims are accounted for |
| `RescanConservation.NothingLostNothingAdded` | internal/indexing/rescan/worker.go:66-207 | every interleaving of any number of workers without crash and stale merge: exactly the blocks asked for are saved, queued or owed |
| `RescanConservation.AtRest` | internal/indexing/rescan/worker.go:66-207 | when all workers are idle: saved or queued, exactly |
| `RescanConservation.ConservedAgain` | internal/indexing/rescan/worker.go:66-207 | after any past with crashes: conservation holds again once locks have live holders and claims are kept |
| `RescanConservation.HeldOnceExpired` | internal/infra/redis/client.go:120-132 | locks have live holders again if and only if all those left behind have expired |
| `RescanLosses.LockLeftBehindLoses` | internal/indexing/rescan/worker.go:143-152 | a run in which a block asked for after a crash is lost to the lock left behind |
| `RescanLosses.StaleMergeLoses` | internal/indexing/rescan/worker.go:246-284 | a run in which a merge on a stale reading loses a block |
| `RescanWorker.ProcessBlocks` | internal/indexing/rescan/worker.go:171-204 | from the resume point, blocks saved exactly up to the first failure, progress meaningful throughout, as protocol actions |
| `RescanWorker.ProcessChunk` | internal/indexing/rescan/worker.go:143-207 | chunk saved, or skipped when locked, or the rest queued again; lock and progress released; as protocol actions |
| `RescanWorker.RequeueChunks` | internal/indexing/rescan/worker.go:125-133 | exactly the failed and later chunks go back, as protocol actions |
| `RescanWorker.ProcessRange` | internal/indexing/rescan/worker.go:116-140 | every block outside locked chunks with no failing block before it is saved, no failing block is; all blocks end saved, queued or in a locked chunk; it succeeds if and only if no block asked for fails |
| `RescanWorker.MergeQueue` | internal/indexing/rescan/worker.go:246-284 | read, clear and push back as protocol actions; alone at the queue: blocks unchanged, normal form afterwards, early return justified |
| `RescanWorker.RunOnce` | internal/indexing/rescan/worker.go:66-113 | the lowest range of the normal form is worked off as above and leaves the queue if and only if no block asked for fails; saved ∪ queued exactly unchanged up to chunks locked by others; a run of the protocol |
| `RescanWorker.Drain` | internal/indexing/rescan/worker.go:66-113 | with no failing block the loop ends with everything saved, up to chunks locked by others |
| `Budget.BudgetTracker.RecordCall` | internal/infra/rpc/budget/tracker.go:62-96 | counters after a call, with daily reset, hour and window roll-over |
| `Budget.BudgetTracker.CanMakeCall` | internal/infra/rpc/budget/tracker.go:143-167 | yes exactly when quota and window allow |
| `Budget.BudgetTracker.ResetAll` | internal/infra/rpc/budget/tracker.go:228-238 | every provider cleared, limits kept |
| `Budget.BudgetTracker.SetProviderQuota` | internal/infra/rpc/budget/tracker.go:261-274 | the quota set, counters kept |
| `Budget.BudgetTracker.SetProviderLimit` | internal/infra/rpc/budget/tracker.go:277-295 | the window set, counters kept |
| `Budget.LimitsHold` | internal/infra/rpc/budget/tracker.go:62-167 | over every run with calls asked for, the counters stay within quota and limit |
| `Budget.CountersCountCalls` | internal/infra/rpc/budget/tracker.go:62-96 | over every run, read off the operations alone: the daily counter is the number of calls since the last reset, the hourly that of the hour |
| `Budget.WindowCountsCalls` | internal/infra/rpc/budget/tracker.go:62-96 | while the limits stay, when the current window was opened and how many calls it has |
| `Budget.RefusedIff` | internal/infra/rpc/budget/tracker.go:143-167 | over every run: no if and only if a positive quota is used up, or the window is limited, still running and used up |
| `Budget.UnlimitedIsAllowed` | internal/infra/rpc/budget/tracker.go:143-167 | a provider for which no limit was set is always allowed |
| `Budget.LimitsTakeEffect` | internal/infra/rpc/budget/tracker.go:261-295 | setting a limit sets that limit and touches no counter and no other provider |
| `Budget.CallsWithinLimits` | internal/infra/rpc/budget/tracker.go:62-167 | at every point of every such run: calls since the last reset within the quota, calls in the window within its limit |
| `Budget.RunWindows` | internal/infra/rpc/budget/tracker.go:62-96 | the log falls into disjoint windows, each within the limit |
| `Budget.SpanWithResets` | internal/infra/rpc/budget/tracker.go:62-238 | any span of window length holds at most (2 + resets inside the span) times the limit |
| `Budget.AtMostTwiceTheLimit` | internal/infra/rpc/budget/tracker.go:62-167 | with no reset inside it, a span of window length holds at most twice the limit |
| `Budget.ResetBreaksTheBound` | internal/infra/rpc/budget/tracker.go:228-238 | with one reset inside it, a span holds three times the limit, which meets the bound |
| `RequestRing.RingRefinesLog` | internal/infra/rpc/provider/monitor.go:80-100 | over every run with a clock that never runs back: exact for cutoffs up to a day back, never too many beyond |
| `RequestRing.RingCountsLive` | internal/infra/rpc/provider/monitor.go:80-100 | for every log, any clock and any cutoff: exactly the requests after the cutoff whose bucket no other minute has taken over since |
| `RequestRing.LiveAtMost` | internal/infra/rpc/provider/monitor.go:80-100 | whatever the clock did, never more than were logged |
| `RequestRing.LastOfExact` | internal/infra/rpc/provider/monitor.go:84-88 | the latency window is the last hundred latencies, in order |
| `RequestRing.Monitor.RecordRequest` | internal/infra/rpc/provider/monitor.go:80-100 | the ring stays the image of the whole log, the latency window its last hundred entries |
| `RequestRing.Monitor.GetRequestCount` | internal/infra/rpc/provider/monitor.go:218-238 | any clock: exactly the requests not overwritten, never too many; with a clock that never ran back and up to a day: the number of logged requests; zero for no minutes |
| `RequestRing.Monitor.GetStats` | internal/infra/rpc/provider/monitor.go:241-267 | the same for the last hour and the last day |
| `Finality.FinalityBuffer.QueueEvent` | internal/indexing/emitter/finality.go:30-42 | success exactly when accepted; failure changes nothing |
| `Finality.FinalityBuffer.EmitBatch` | internal/indexing/emitter/finality.go:98-105 | queues up to the first refusal |
| `Finality.FinalityBuffer.OnNewBlock` | internal/indexing/emitter/finality.go:46-77 | new state for the given map order and refusals; success leaves nothing due |
| `Finality.FinalityBuffer.DiscardBlock` | internal/indexing/emitter/finality.go:80-84 | drops one block's queue |
| `Finality.QueueKeeps` | internal/indexing/emitter/finality.go:30-42 | queueing keeps the per-block queue law |
| `Finality.QueueAndDiscardExact` | internal/indexing/emitter/finality.go:30-84 | an accepted event joins the end of its block's queue or is sent at once; discarding drops one whole queue in order and no other |
| `Finality.NewBlockExact` | internal/indexing/emitter/finality.go:46-77 | every order, every refusal: only final events leave, success exactly when no due block is refused, a refused block keeps its queue whole |
| `Finality.OrderIsInvisible` | internal/indexing/emitter/finality.go:46-77 | verdict, remainder and each block's log do not depend on map order |
| `Finality.RunKeeps` | internal/indexing/emitter/finality.go:30-105 | over every run, per block: gone followed by waiting equals accepted, in order |
| `Finality.EventsConserved` | internal/indexing/emitter/finality.go:30-105 | over every run: accepted = sent + dropped + waiting, event by event |
| `Finality.SentInOrder` | internal/indexing/emitter/finality.go:46-77 | what was sent of a block is an initial part of what was accepted, in order |
| `Finality.NeverEarly` | internal/indexing/emitter/finality.go:46-77 | over every run: nothing is sent before its confirmations |
| `Delivery.CommitsExact` | internal/indexing/indexer/pipeline.go:366-456 | a step that emits its batch commits if and only if the cursor ends on the block |
| `Delivery.OncePerCommitIff` | internal/indexing/indexer/pipeline.go:380-456 | over every run: the buffer accepted exactly the committed blocks' events, once per commit and in order, if and only if no step emitted and then failed to commit |
| `Delivery.JointIsBufferRun` | internal/indexing/indexer/pipeline.go:380-396 | what the pipeline does to the buffer is a run of the buffer |
| `Delivery.CommittedIsDelivered` | internal/indexing/indexer/pipeline.go:380-456 | so in such a run each event of a committed block is sent, dropped or waiting, as often as its block was committed |
| `Circuit.Router.AddProvider` | internal/infra/rpc/routing/router.go:94-102 | metrics start afresh and stay the image of the trace |
| `Circuit.Router.RecordSuccess` | internal/infra/rpc/routing/router.go:208-226 | metrics stay the image of the trace |
| `Circuit.Router.RecordFailure` | internal/infra/rpc/routing/router.go:229-293 | metrics stay the image of the trace |
| `Circuit.Router.IsCircuitOpen` | internal/infra/rpc/routing/router.go:310-327 | yes exactly by the trace law |
| `Circuit.BreakerLaw` | internal/infra/rpc/routing/router.go:208-327 | for every trace: blocked if and only if five failures other than not-found since the last success or registration, and the last failure of any kind is at most a minute old |
| `Circuit.IsNotFoundExact` | internal/infra/rpc/routing/router.go:241-249 | not-found: code 5, or one of two phrases anywhere in the message, and nothing else |
| `Circuit.FiveFailuresBlock` | internal/infra/rpc/routing/router.go:229-327 | five other failures of a registered provider, with no success or registration between or after, block it for exactly a minute after its last failure |
| `Circuit.FourFailuresDoNot` | internal/infra/rpc/routing/router.go:229-327 | four do not |
| `Circuit.NotFoundNeverBlocks` | internal/infra/rpc/routing/router.go:241-279 | not-found answers alone never do |
| `Circuit.NotFoundProlongs` | internal/infra/rpc/routing/router.go:229-293 | after a not-found answer: blocked for a further minute if and only if five counted failures stand |
| `Sui.MapTransaction` | internal/infra/chain/sui/adapter.go:596-699 | sender, first recipient and recipient list of an executed transaction |
| `Sui.RecipientsExact` | internal/infra/chain/sui/adapter.go:633-645 | the recipients are exactly the non-empty address owners other than the sender |
| `Sui.FilterTransactions` | internal/infra/chain/sui/adapter.go:389-433 | which transactions are kept, and with which recipient |
| `Sui.FilterExact` | internal/infra/chain/sui/adapter.go:389-433 | mapping and filtering keep exactly the transactions that touch a tracked address, in order |
| `Sui.KeepExact` | internal/infra/chain/sui/adapter.go:389-433 | a kept transaction shows a tracked sender or a tracked recipient |
| `Sui.MappedTo` | internal/infra/chain/sui/adapter.go:633-645 | the guessed recipient is the first output owner that is an address, not empty and not the sender |
| `Sui.KeptTo` | internal/infra/chain/sui/adapter.go:400-427 | kept for its sender: as mapped; otherwise the recipient is the first tracked owner, in lower case |
| `Sui.HasRelevantTransactions` | internal/infra/chain/sui/adapter.go:547-575 | yes exactly when a sender or an output owner is tracked |
| `Sui.OverlookedExact` | internal/infra/chain/sui/adapter.go:547-575 | what a negative answer can overlook |
| `Sui.TakenForNothingIff` | internal/infra/chain/sui/adapter.go:556-571 | a transaction that does not touch counts if and only if an owner of another kind is tracked |
| `Sui.SkippingIsSoundIff` | internal/indexing/indexer/pipeline.go:283-318 | skipping the fetch changes nothing if and only if the answer was yes, the empty string is untracked, or every transaction has a sender |
| `Bloom.BloomFilter.Build` | internal/indexing/filter/bloom.go:37-50 | bits are exactly those of the given addresses |
| `Bloom.BloomFilter.Add` | internal/indexing/filter/bloom.go:53-58 | bits are exactly those of the addresses told so far |
| `Bloom.BloomFilter.Mark` | internal/indexing/filter/bloom.go:60-65 | one address's bits are added and no other |
| `Bloom.BloomFilter.MayContain` | internal/indexing/filter/bloom.go:70-86 | over every run: yes exactly when nothing was told yet or all bits belong to addresses told |
| `Bloom.BloomFilter.Clear` | internal/indexing/filter/bloom.go:96-101 | forgets everything |
| `Bloom.ToldIsCovered` | internal/indexing/filter/bloom.go:37-101 | no false negatives, in any letter case |
| `Bloom.CoveredExact` | internal/indexing/filter/bloom.go:60-86 | covered means that each hash agrees, modulo the size, with some hash of some address told |
| `Bloom.ToldExact` | internal/indexing/filter/bloom.go:37-101 | what Build, Add and Clear leave told |
| `Bloom.TronAdapter.FilterTransactions` | internal/infra/chain/tron/adapter.go:158-190 | the two-stage filter over the list of the first call |
| `Bloom.ExactOnAllIffCovered` | internal/infra/chain/tron/adapter.go:158-190 | equal to the exact filter on all transactions if and only if every address of the list is covered by the first list |
| `Bloom.WatchedExact` | internal/infra/chain/tron/adapter.go:168-187 | the exact filter keeps a transaction as often as it occurs if its sender or recipient is watched, and no other |
| `Bloom.TwoStageExact` | internal/infra/chain/tron/adapter.go:158-190 | the two-stage filter keeps those of them whose sender or recipient is covered |
| `Bloom.ContainedIsExact` | internal/infra/chain/tron/adapter.go:158-190 | in particular for a list contained in the first, up to letter case |
| `Bloom.UncoveredIsLost` | internal/infra/chain/tron/adapter.go:158-190 | a watched transaction with no covered address is dropped |

## Left out

- Block numbers and thresholds at or beyond 2^63, where the conversions between uint64 and int64 wrap, in pipeline, reorg and backfill.
- Ranges.Split: ranges on which a sum of the loop wraps (`Ranges.SplitLoopExact`), where the source does not stop or returns reversed chunks, and a chunk size of zero, where it does not stop.
- Ranges.MergeRanges: a real gap between neighbours is promised only when no end is 2^64 − 1 (`Ranges.WrapKeepsOverlap` shows why); sorting in place is modelled on a sequence.
- RescanStore.Shared.PopRange: how a start is rounded to a floating-point score, and the order of members with equal scores.
- The second range parser, `ParseRange`, built on Sscanf; queue members are taken to be in printed form.
- Failing Redis calls of a rescan worker other than recording progress; a failure in the middle of a merge has the effect of a crash there.
- RescanWorker.ProcessRange, RescanWorker.RunOnce, RescanWorker.Drain: queued ranges end at least one chunk below 2^64.
- Lock refreshing (locks may expire at any time in the model) and cancellation of contexts.
- Saving of transactions by the rescan worker and by the backfill callback, which never fails a block.
- The path without a database, which is not atomic, and the in-memory repositories.
- That an adapter returns the block with the number asked for, and its transactions with that number, is assumed.
- Emission inside `Pipeline.Step` is reduced to success or failure; `Delivery` joins the step with the buffer. Nothing calls DiscardBlock on a reorganisation.
- MixedRuns.RunRightIff: rollbacks complete and adapters deliver no block marked orphaned.
- Finality.FinalityBuffer.OnNewBlock: an inner emitter that delivers part of a batch before failing.
- Revert events, metrics, statistics and rate delay of the backfill processor, health server, pruner, cursor reset command, configuration and wiring: plumbing.
- Provider scoring, rotation, adaptive interval and back-off: floating-point weights or single branches.
- RequestRing.Monitor.RecordRequest: a clock before 1970, on which the source's index is negative.
- Circuit.Router.RecordFailure: the error message is given in lower case; success, failure and latency totals, which the breaker does not read, are not kept.
- Sui.FilterTransactions: works on values, so the rewriting of the recipient through a shared pointer is not captured; the recipient list is kept as a list instead of JSON.
- Sui.MapTransaction: amounts, gas, token and status fields, which no filter reads.
- Bloom.BloomFilter.MayContain: FNV hashing and lower-casing are arbitrary functions, so nothing is said about the rate of false positives; a filter of size zero, on which the source divides by zero, is excluded.
- EVM and Bitcoin adapters.
