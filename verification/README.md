# Atlas in Dafny

Atlas keeps a graph of a source repository in SQLite, in step with a git checkout. This project models the parts of
Atlas whose correctness spans many steps, and proves what they keep, restore or compute:

- **Store, full build, incremental update, staleness detector** (`GraphStore`, `Worktree`, `BuildGraph`,
  `UpdateGraph`, `IncrementalRefinement`, `SyncedRef`, `BuildThenUpdate`, `GraphReadiness`). The store maps
  `(repository, path)` to a slice (hash, owner, facts). Building, updating and detecting are methods over one mutable
  `Store`; the refinement lemmas say exactly when an update ends where a full build would, from any table, also after
  any number of partial or aborted runs and after a build that left files out. `SlicesAfter` says what a run leaves at
  each path, slice by slice; `Admission`, `StopPoints` and `RunEnds` say, from the files, the limits and the clock
  alone, which files a run lets in, where it stops, and that nothing past the file that blocks it is parsed or written.
- **Schema migrations** (`Schema`, `Migrations`). A connection is a mutable object with schema, recorded version,
  history and `user_version`; scripts are arbitrary functions that may fail. Whole-run invariants hold for every
  sequence of calls.
- **Late call resolution** (`CallResolution`, `CallTargets`, `ImportPaths`). Two memo tables threaded through a
  rewriting pass, exactly which target a call gets and what that makes of its edge, the `extends` walk between compiler
  configurations, alias patterns, and the laws that alone determine path normalization.
- **Budgets** (`Budget`, `BuildBudget`). A tracker mutated by every loop of a build or update, and the summary of its
  reports.
- **Pure algorithms** (`Calendar`, `DiagramExport`, `DocsIndex`, `Sorting`, `Chunking`).

`Wrappers` and `Collections` hold shared vocabulary. Check everything with `dafny verify dfyconfig.toml`.

Conventions. Methods that change state carry `ensures` that equate the new state with a function of the old one; the
lemmas are about those functions. Collaborators outside the model (disk, git, clock, parsers, SQL engine, hash
function) are parameters: `Worktree.Env`, `Worktree.Faults`, `CallResolution.World`, `ImportPaths.Tree`, migration
scripts as functions. File content is represented by its hash, so equal hashes mean equal content.

## Where the code does less than it says

Each point is a lemma or method with the failing input, next to the exact condition under which the promise holds.

- An update works from `git diff` between the checkout and the stored commit, while the table holds what was on disk at
  the last sync. So it misses a new untracked file (`UntrackedFileIsMissed`, `UntrackedFileHappens`); it keeps an
  uncommitted edit that was synced and then reverted (`RevertedEditIsKept`, `RevertedEditIsForgotten`); and it loses an
  untracked file below a deleted path, because the removal expands to everything below the path
  (`FileBelowRemovedPathIsLost`, `FileBelowRemovedPathHappens`), as it does a file moved unchanged below a path the same
  batch removes (`MoveBelowRemovedPathIsLost`, `MoveBelowRemovedPathHappens`). An update applies none of the build's
  ignore, binary and regular-file filters and moves a stable rename without asking whether the new name is supported.
  The condition for all of these is `Aligned`, on batch, checkout and table before the run, from any table and over any
  batch that names each path once (`IncrementalEqualsFull`; for histories `ConvergesIffAligned`).
- A degraded build keeps the old ref so that a later update diffs against it again, but it has cleared the repository:
  no update brings back a file that the diff does not mention (`DegradedBuildIsNotRepaired`,
  `BuildThenUpdatesConvergeIff`). A build whose report is not partial indexed everything exactly when every file it
  should index can be hashed (`UnflaggedBuildIsCompleteIff`).
- The synced ref advances past files that could not be read: a blocked report is not partial, and parse errors do not
  degrade a run, so the file is forgotten (`UnreadableFileIsForgotten`). If the dependents it looks up can be read, a
  run that moves the ref was complete exactly when every supported planned file can be statted, hashed and read
  (`UnflaggedRunIsCompleteIff`); a dependent that cannot be read hides a skipped file (`SkippedFileIsHidden`,
  `BlockHidesPartial`).
- A change stays pending for good when it is a copy whose source is still indexed (`CopyStaysPending`), a reparsed
  change from a supported to an unsupported name, or a lost move (`PendingKinds`); from any table the condition is
  `StaysPending` (`PendingAfterRunIff`). The detector reads the store without scoping to a repository
  (`ForeignSliceKeepsPending`, `EditIsPendingIff`).
- Views are exported after triggers, so a schema with a trigger on a view cannot be rebuilt (`TriggerOnViewHappens`,
  `ReplayRestoresIff`). An undefined version makes a downgrade fail after the schema was replaced (`GapHappens`,
  `GapLeavesVersionBehind`, `DowngradeSucceedsIff`).
- A candidate-table hit is not filtered by repository although a miss is: a pass can write a target in a repository that
  is not allowed (`ForbiddenTargetIsWritten`, `TargetsArePermittedIff`), and its result can depend on file order
  (`PassDependsOnOrder`, `CandidateCacheIsTransparentIff`).
- `summary` keeps the last of equally bad reports and `merge` the first (`SummaryEqualsMergeInAnyOrderIff`).
- UTF-8 snapping never moves a cut to a character boundary: it succeeds only where it was not needed, and an oversized
  line aborts unless every cut and its own end follow an ASCII byte (`SnapIsBoundaryIff`, `SplitSucceedsIff`).
  Subdividing can leave pieces over the cap (`OversizedLinesStayOversized`, `PartsFitIff`).
- The docs view says lookups do not depend on input order; ties keep it (`TiesShowInputOrder`, `LookupIgnoresOrderIff`,
  `FileLookupIgnoresOrderIff`).
- Time stamps sort as time only up to the year 9999 (`TextOrderBreaksAfterYear9999`, `TextOrderIsTimeOrder`).

## Model

| member | source | states |
|---|---|---|
| `Budget.BudgetManager.RecordUsage` | packages/atlas-core/src/budget.rs:613-633 | usage above the limit, or flagged partial, appends one report, blocked for fail-closed rules and partial otherwise; anything else appends none |
| `Budget.BudgetManager.RecordReport` | packages/atlas-core/src/budget.rs:607-611 | appends the report exactly when it is a hit |
| `Budget.BudgetManager.ResolveLimit` | packages/atlas-core/src/budget.rs:579-605 | the requested or default value clamped to the rule's maximum; exactly when clamped one report of the wanted value is pushed, with the status, name and limit the rule gives it |
| `Budget.UsageReportSays` | packages/atlas-core/src/budget.rs:613-633 | usage above its limit, or cut short by it, leaves one report that names the limit, its value and what was seen; it is blocked for fail-closed rules and partial otherwise, and its flags follow |
| `Budget.ClampedReportSays` | packages/atlas-core/src/budget.rs:579-605 | so does a clamped override, as a clamp, a partial result or a block by its rule |
| `Budget.BudgetManager.Summary` | packages/atlas-core/src/budget.rs:635-651 | the last report of greatest severity and observed value, or the within-budget report when there is none |
| `Budget.MergeAllPicksFirstWorst` | packages/atlas-core/src/budget.rs:364-377 | folding `merge` over any reports yields the first worst one |
| `Budget.SummaryAgreesWithMerge` | packages/atlas-core/src/budget.rs:364-377 | `summary` and folded `merge` agree on severity and observed value for every list of hits |
| `Budget.FirstWorstUnique` | packages/atlas-core/src/budget.rs:364-368 | the first worst report is unique |
| `Budget.SummaryEqualsMergeInAnyOrderIff` | packages/atlas-core/src/budget.rs:635-651 | in every order of recording both pick the same report if and only if no two different reports tie at the worst severity and observed value |
| `BuildBudget.BuildBudgetTracker.SetFilesDiscovered` | packages/atlas-engine/src/build_budget.rs:31-33 | new tracker state is the specified step |
| `BuildBudget.BuildBudgetTracker.NoteSkippedByFileBytes` | packages/atlas-engine/src/build_budget.rs:35-48 | new tracker state is the specified step, byte counter saturating |
| `BuildBudget.BuildBudgetTracker.NoteScannedFileByteSkips` | packages/atlas-engine/src/build_budget.rs:50-65 | new tracker state is the specified step; zero skips change nothing |
| `BuildBudget.BuildBudgetTracker.MaybeStopForTime` | packages/atlas-engine/src/build_budget.rs:67-82 | degraded exactly above the time limit, with the step's state |
| `BuildBudget.BuildBudgetTracker.TryAcceptFile` | packages/atlas-engine/src/build_budget.rs:84-115 | accepts or refuses as the step does, both limits and the saturating sum included |
| `BuildBudget.BuildBudgetTracker.NoteParseFailure` | packages/atlas-engine/src/build_budget.rs:117-150 | blocks as the step does, failure count before ratio |
| `BuildBudget.BuildBudgetTracker.Finish` | packages/atlas-engine/src/build_budget.rs:152-165 | counters and the worst report of the run, or the exact within-budget report when there is none |
| `BuildBudget.FailureBlocksIff` | packages/atlas-engine/src/build_budget.rs:117-150 | a parse failure blocks if and only if the failures so far exceed their number, or ten thousand times their share of the files handed over reaches one more than its limit; otherwise it is only counted |
| `BuildBudget.FailureSays` | packages/atlas-engine/src/build_budget.rs:117-150 | the reason and report name the limit that was met, the number before the share, with the rounded-down share |
| `BuildBudget.TimeSays` | packages/atlas-engine/src/build_budget.rs:67-82 | time stops a run exactly above its limit, with that reason and report |
| `BuildBudget.AcceptSays` | packages/atlas-engine/src/build_budget.rs:84-115 | the number of files stops a run before their bytes do, each with its reason and report |
| `BuildBudget.SkipSays` | packages/atlas-engine/src/build_budget.rs:35-65 | skipped files are reported with their size, those the scan skipped with one byte over the limit |
| `BuildBudget.CountersAreExact` | packages/atlas-engine/src/build_budget.rs:31-150 | over every call sequence: skipped files, skipped bytes up to the integer maximum, failures and discovered files are counted exactly |
| `BuildBudget.ReasonIs` | packages/atlas-engine/src/build_budget.rs:35-150 | a size skip gives the reason only where there is none, and a call that lets the run go on leaves it otherwise |
| `BuildBudget.StepKeepsConsistent` | packages/atlas-engine/src/build_budget.rs:35-150 | every call keeps: a stop reason exists iff a report does, every report is a hit, unsafe, partial or blocked; blocked reports appear exactly with blocked decisions; reports are only appended |
| `BuildBudget.RunIsConsistent` | packages/atlas-engine/src/build_budget.rs:22-150 | that invariant over every call sequence; some report is blocked iff some decision was |
| `BuildBudget.SummaryClassifies` | packages/atlas-engine/src/build_budget.rs:152-165 | the final report is a hit iff a stop reason is set, and is blocked iff some report is |
| `BuildBudget.BudgetReportIsFaithful` | packages/atlas-engine/src/build_budget.rs:35-165 | over every run: stop reason set iff hit iff not safe to answer; status blocked iff some parse failure call answered blocked |
| `BuildBudget.BlockHidesPartial` | packages/atlas-engine/src/build_budget.rs:152-165 | a run that ran out of time and is then blocked has a partial report and yet a summary that is not partial |
| `BuildBudget.StepIsExact` | packages/atlas-engine/src/build_budget.rs:84-115 | one call keeps accepted files and bytes within limits and equal to what was taken |
| `BuildBudget.AcceptanceIsExact` | packages/atlas-engine/src/build_budget.rs:84-115 | over every call sequence accepted counts are exact and within limits |
| `BuildBudget.BytesAreExactBelowMaximum` | packages/atlas-engine/src/build_budget.rs:94-113 | with a byte limit below the integer maximum the accepted bytes equal the exact sum of accepted sizes; at the maximum two files break that |
| `BuildBudget.AcceptPrefixIsLongest` | packages/atlas-engine/src/build_budget.rs:84-115 | offering sizes in order accepts a prefix that fits, and no longer prefix fits |
| `GraphStore.DirRangeIsSubtree` | packages/atlas-store-sqlite/src/store/file_scan.rs:16-45 | a path lies in the scanned text range if and only if it lies below the directory |
| `GraphStore.Store.RenameFileGraph` | packages/atlas-store-sqlite/src/store/mutation.rs:765-891 | the slice moves to the new key with hash and owner, merging facts with a slice already there; nothing else changes |
| `GraphStore.Store.UpsertFileOwner` | packages/atlas-store-sqlite/src/store/mutation.rs:707-746 | only the owner of an existing slice changes |
| `GraphStore.Store.ReplaceFile` | packages/atlas-store-sqlite/src/store/mutation.rs:294-332 | the slice at the key is the new one, others unchanged |
| `GraphStore.Store.DeleteFileGraph` | packages/atlas-store-sqlite/src/store/mutation.rs:452-548 | exactly the slice at the key is gone |
| `GraphStore.Store.PathsUnderDir` | packages/atlas-store-sqlite/src/store/file_scan.rs:16-45 | exactly the stored paths below the directory |
| `GraphStore.Store.ExistingFileGraphDeletions` | packages/atlas-engine/src/update_files.rs:123-145 | exactly the stored paths named or below a named path |
| `GraphStore.Store.DeleteExistingFileGraphs` | packages/atlas-engine/src/update_files.rs:149-161 | removes exactly those slices and answers with their number |
| `GraphStore.Store.DeleteAll` | packages/atlas-engine/src/build.rs:105-114 | removes exactly the listed slices of one repository |
| `Worktree.ParseBatch` | packages/atlas-engine/src/update.rs:389-457 | the batch is the specified run over the files: which are parsed, attempted, unsupported or failed, when a failure blocks or aborts, and the tracker afterwards |
| `Worktree.ParseFilesIsSound` | packages/atlas-engine/src/update.rs:389-457 | a parse run keeps the budget invariant, parses only readable supported files, misses one only with an error or report, and has errors only if some file cannot be read |
| `StopPoints.ParseFilesStop` | packages/atlas-engine/src/update.rs:389-457 | a parse loop handles the files up to and including the first that ends it: one that cannot be read and is one failure too many or fails fast, or any file once a block was recorded; parsed, failed, set-aside and attempted files and blocked reports are those of exactly these files |
| `StopPoints.BatchesStop` | packages/atlas-engine/src/update.rs:375-457 | batching does not show: whatever the batch size, an update's phase stops where one loop over all files would, or before the first batch whose clock reading is late |
| `Worktree.WriteBatch` | packages/atlas-engine/src/update.rs:614-628 | the table is the old one with fresh slices at the given paths, owners stamped |
| `Worktree.RefreshKeepsInventory` | packages/atlas-engine/src/update.rs:639-648 | rebuilding owner graphs changes no real file's slice and no other repository |
| `Worktree.WrittenTwice` | packages/atlas-engine/src/update.rs:606-636 | writing in batches is writing at once |
| `BuildGraph.ScanMembers` | packages/atlas-engine/src/build.rs:131-136 | the scan yields exactly the indexable files within the size limit |
| `RunEnds.ScanIs` | packages/atlas-engine/src/build.rs:131-136 | the scan is, in the listed order, every listed supported visible openable regular text file within the size limit |
| `RunEnds.ScanCounts` | packages/atlas-engine/src/build.rs:131-136 | and it counts exactly the visible unsupported paths and the supported regular files over the limit |
| `RunEnds.StartIsReady` | packages/atlas-engine/src/build.rs:131-142 | the tracker then counts what the scan found and what was too large |
| `RunEnds.StoredHashesAre` | packages/atlas-engine/src/build.rs:125-130 | files are compared with the stored hash of every path of this repository |
| `BuildGraph.CollectSupportedFiles` | packages/atlas-engine/src/build.rs:131-136 | computes the scan, the number of unsupported files and the number over the size limit |
| `BuildGraph.OfferFile` | packages/atlas-engine/src/build.rs:148-198 | answer and tracker after clock, stat, budget, hash and comparison, in that order |
| `BuildGraph.AcceptCandidates` | packages/atlas-engine/src/build.rs:148-200 | the candidates, counts, interruption and tracker of the offers made in order until one is refused; without interference the candidates are the longest prefix of the scan the limits admit |
| `BuildGraph.CandidatesArePrefix` | packages/atlas-engine/src/build.rs:148-200 | from any point of the loop, with nothing stored and no stat, hash or clock interference, what is added is the longest prefix the limits admit |
| `Admission.OfferStops` | packages/atlas-engine/src/build.rs:148-198 | whatever is stored and goes wrong: files are offered in order up to the first that is late or, if it can be statted, finds no room by number or bytes, or that fails fast; candidates are those that can be hashed and are not stored with their hash, the others are counted |
| `BuildGraph.ParseRound` | packages/atlas-engine/src/build.rs:212-313 | one batch as specified, and what it keeps: only readable candidates are parsed, one is missed only with an error or report, and the table holds exactly what was parsed |
| `BuildGraph.ParseAndWrite` | packages/atlas-engine/src/build.rs:212-313 | all rounds as specified, the table holding exactly what was parsed, every batch persisted before the next |
| `StopPoints.RoundsStop` | packages/atlas-engine/src/build.rs:212-313 | batching does not show in a build either: it parses, counts and reports exactly the candidates up to the first that ends the loop or to the batch that is late, drops a batch that fails fast, and counts each failed chunk write of a batch that parsed something |
| `BuildGraph.RecordIsSound` | packages/atlas-engine/src/build.rs:131-313 | over every build: only listed files that are indexable and hashable are parsed; when nothing is already stored, one is missed only with an error or a report, and an error means some indexable file cannot be hashed |
| `RunEnds.BuildStops` | packages/atlas-engine/src/build.rs:131-313 | both loops of a whole build end as stated, from no failures and no accepted files |
| `RunEnds.BlockEndsBuild` | packages/atlas-engine/src/build.rs:274-312 | if some report is blocked, some candidate cannot be read and is one failure too many, and every file parsed, and so written, stands before it |
| `SlicesAfter.SliceAfterBuild` | packages/atlas-engine/src/build.rs:105-327 | a build leaves the parsed files at hash, owner and facts parsing yields, the owner graphs just built, and nothing else of its repository |
| `BuildGraph.BuiltInventory` | packages/atlas-engine/src/build.rs:105-327 | the inventory is exactly the parsed files at current hashes; other repositories unchanged |
| `BuildGraph.UnflaggedBuildIsCompleteIff` | packages/atlas-engine/src/build.rs:371-381 | a build whose report is not partial parsed every file it should index if and only if each can be hashed |
| `BuildGraph.Build` | packages/atlas-engine/src/build.rs:87-388 | a build is its record, with summary, table and ref told from it: from any store it skips nothing as unchanged, leaves exactly what it parsed and touches no other repository; a clean one leaves the full inventory, and one that is not degraded, which moves the ref, does iff every indexable file can be hashed; a dry run changes nothing |
| `UpdateGraph.ClassifyChanges` | packages/atlas-engine/src/update.rs:242-284 | the plan of exactly the changes reached before the clock of this phase ran out, and the tracker then |
| `SlicesAfter.PlanIs` | packages/atlas-engine/src/update.rs:242-284 | for every batch, the plan in the order of its changes: which are moved, removed and parsed |
| `SlicesAfter.RenameIsMovedIff` | packages/atlas-engine/src/update.rs:252-278 | a rename is moved if and only if the stored slice of its old name has the current hash and the owner of its new one; otherwise the old name is removed and the new one parsed |
| `UpdateGraph.ApplyRenames` | packages/atlas-engine/src/update.rs:287-298 | stable renames move slices in order and restamp owners |
| `UpdateGraph.Move` | packages/atlas-engine/src/update.rs:287-321 | renames, then deletions with everything below them; a dry run changes nothing |
| `SlicesAfter.DeletionsAre` | packages/atlas-engine/src/update.rs:310-321 | the slices reported as deleted are those a removal names or lies above after the renames, and without them in a dry run |
| `UpdateGraph.AcceptFiles` | packages/atlas-engine/src/update.rs:349-373 | the files chosen, the stat errors, whether the budget stopped or a failure aborted the choice, and the tracker, as specified file by file |
| `Admission.ChooseStops` | packages/atlas-engine/src/update.rs:349-373 | supported paths are looked at in order up to the first within the size limit that finds no room by number or bytes, or that fails fast; those within the limit are chosen, those that cannot be statted are counted |
| `RunEnds.SupportedSplits` | packages/atlas-engine/src/update.rs:338-350 | a phase looks at the supported paths in order and counts all others |
| `UpdateGraph.ParseBatches` | packages/atlas-engine/src/update.rs:375-457 | the specified run batch by batch, the clock of this phase checked before each |
| `UpdateGraph.ParseChangedThenDependents` | packages/atlas-engine/src/update.rs:338-600 | both phases as specified: planned files, then dependents not planned, sharing the attempt count and the block flag |
| `UpdateGraph.WriteAll` | packages/atlas-engine/src/update.rs:606-636 | the table gains exactly the parsed files, and the failed chunk batches are counted |
| `UpdateGraph.ChunkFailuresCount` | packages/atlas-engine/src/update.rs:606-636 | the failed chunk batches are those among as many batches as the parsed files take |
| `UpdateGraph.Update` | packages/atlas-engine/src/update.rs:185-711 | the run is its record, with summary, table and ref told from it; a clean run was complete; an aborted run leaves the moves; if the dependents it looks up can be read, a run that is not degraded was complete iff every supported planned file can be |
| `UpdateGraph.RecordIsSound` | packages/atlas-engine/src/update.rs:242-600 | what a run has reached: only accessible supported files are parsed, planned or dependent; a file is missed only with an error or report, an error occurs only if a file is out of reach |
| `RunEnds.UpdateStops` | packages/atlas-engine/src/update.rs:242-600 | changes are read up to the first late clock reading; both phases choose and stop as stated, the second over the dependents not planned, after the first's failures and files and under the block it met, or not at all if that failed fast |
| `RunEnds.BlockEndsUpdate` | packages/atlas-engine/src/update.rs:375-600 | a blocked phase parses nothing past the file that blocks it, and after a blocked first phase the second parses at most its first file |
| `SlicesAfter.SliceAfterRun` | packages/atlas-engine/src/update.rs:287-636 | what any run, cut off anywhere, leaves at each real path: parsed files fresh, moved ones with their facts under their new owner, everything not named exactly as before, the rest gone |
| `SlicesAfter.RunKeepsOthers` | packages/atlas-engine/src/update.rs:287-648 | no run changes another repository, and its owner graphs are those just built |
| `SlicesAfter.RenameAcrossOwnersIsParsed` | packages/atlas-engine/src/update.rs:268-276 | after a complete run a file renamed into another owner has the owner and the facts parsing yields under its new name, and its old name is gone |
| `UpdateGraph.CleanIsComplete` | packages/atlas-engine/src/update.rs:242-600 | a run without reports or errors reached every change and parsed exactly the supported planned files and the dependents of the moved table |
| `UpdateGraph.UnflaggedRunIsCompleteIff` | packages/atlas-engine/src/update.rs:698-707 | if the dependents looked up in the run's own moved table can be read, a run whose report is not partial, the only budget flag that holds the ref back, was complete if and only if every supported planned file can be statted, hashed and read |
| `UpdateGraph.OutOfReachIsMissed` | packages/atlas-engine/src/update.rs:349-457 | no run parses a planned file out of reach, whatever its limits and clock |
| `SyncedRef.EmptyDiffAddsNothing` | packages/atlas-engine/src/update.rs:238-636 | a run over an empty diff adds no slice, whatever it reparses |
| `SyncedRef.EmptyDiffKeepsInventory` | packages/atlas-engine/src/update.rs:238-636 | and if it reparses nothing it leaves the inventory as it is, whatever is on disk |
| `SyncedRef.BlockedRun` | packages/atlas-engine/src/update.rs:126-131 | a run blocked before it parsed anything moves the ref |
| `SyncedRef.IdleRun` | packages/atlas-engine/src/update.rs:698-707 | over an empty diff without dependents a run is clean, moves the ref and keeps the inventory, whatever is on disk |
| `SyncedRef.UnreadableFileIsForgotten` | packages/atlas-engine/src/update.rs:698-707 | for every name and content: an unreadable new file, a blocked run that moves the ref, a clean run over the then empty diff, and the file still missing |
| `SyncedRef.SkippedFileIsHidden` | packages/atlas-engine/src/update.rs:698-707 | for all names: every planned file is accessible, one is over the size limit, and an unreadable dependent blocks the run: its partial report is hidden, the ref moves and the file is missing |
| `IncrementalRefinement.PlanMembers` | packages/atlas-engine/src/update.rs:242-284 | the plan deletes, reparses and moves exactly what some change asks for |
| `IncrementalRefinement.PlanIsSeparate` | packages/atlas-engine/src/update.rs:242-284 | over a well-formed batch no move interferes with another |
| `IncrementalRefinement.RenameAllAt` | packages/atlas-engine/src/update.rs:287-298 | separate moves act independently, path by path |
| `IncrementalRefinement.AfterMovesAt` | packages/atlas-engine/src/update.rs:287-321 | what moving and deleting leave at each path |
| `IncrementalRefinement.CompleteRows` | packages/atlas-engine/src/update.rs:238-636 | from any table, told before the run, exactly which paths hold a slice after a complete run, and at which hash |
| `IncrementalRefinement.CompleteRunAt` | packages/atlas-engine/src/update.rs:238-636 | from any table, at each path a complete run agrees with a full build iff the path is aligned |
| `IncrementalRefinement.IncrementalEqualsFull` | packages/atlas-engine/src/update.rs:238-636 | from any table and over any batch that names each path once, a complete run leaves exactly the full build's inventory if and only if the batch is aligned with table and checkout: mentioned paths as planned, every other path kept exactly if indexable and at its hash unless reparsed |
| `IncrementalRefinement.UpdateAgreesWithBuild` | packages/atlas-engine/src/update.rs:185-711 | after a clean update of one store and a clean build of another, whatever both held, they hold the same inventory if and only if the batch was aligned, the reparsed files being the dependents of the moved table |
| `IncrementalRefinement.BenignIsAligned` | packages/atlas-engine/src/update.rs:238-321 | from a table settled outside the batch and holding supported files, a condition on batch and checkout that implies alignment |
| `IncrementalRefinement.FullBuildIsSettled` | packages/atlas-engine/src/build.rs:212-313 | a full build of an earlier checkout is such a table when the batch mentions every path that differs for indexing |
| `IncrementalRefinement.MoveBelowRemovedPathIsLost` | packages/atlas-engine/src/update_files.rs:123-145 | a file moved unchanged below a removed path is in the full build and missing after the update |
| `IncrementalRefinement.MoveBelowRemovedPathHappens` | packages/atlas-engine/src/update.rs:252-278 | for all names: with both files indexed, deleting one and moving the other below it loses the moved file |
| `IncrementalRefinement.UntrackedFileIsMissed` | packages/atlas-repo/src/diff.rs:25-32 | a newly indexable file no diff mentions is in the full build and missing after every complete update |
| `IncrementalRefinement.UntrackedFileHappens` | packages/atlas-repo/src/files.rs:358-368 | it happens with any new untracked file and an empty diff |
| `IncrementalRefinement.FileBelowRemovedPathIsLost` | packages/atlas-engine/src/update_files.rs:123-145 | an indexable file no change mentions is lost when the batch removes a path above it |
| `IncrementalRefinement.FileBelowRemovedPathHappens` | packages/atlas-repo/src/diff.rs:25-32 | it happens for all names: untracked `a/b` is indexed and the diff says tracked `a` is deleted |
| `IncrementalRefinement.RevertedEditIsKept` | packages/atlas-repo/src/diff.rs:25-32 | a stored hash that no longer is the file's stays when no change mentions the file and the run does not reparse it |
| `IncrementalRefinement.UpdateWorkingTree` | packages/atlas-engine/src/update.rs:185-711 | every update is one leg of a history; a degraded or aborted one keeps the ref and a clean one is complete, so the convergence results are about the code |
| `IncrementalRefinement.LegAt` | packages/atlas-engine/src/update.rs:238-636 | what one run, cut off or aborted anywhere, does at a path the batch does not mention |
| `IncrementalRefinement.HistoryAt` | packages/atlas-engine/src/update.rs:698-707 | what a whole history does there, told from its first table: kept iff no run removes a path above it, at its current hash iff some run reparsed it |
| `IncrementalRefinement.ConvergesIffAligned` | packages/atlas-engine/src/update.rs:698-707 | from any table, any number of runs cut off or aborted anywhere, then a complete one, end at the full inventory iff every path is aligned over the history |
| `IncrementalRefinement.Converges` | packages/atlas-engine/src/update.rs:242-298 | over a benign batch, from a table settled outside it and holding supported files, every such history ends at the full inventory |
| `BuildThenUpdate.BuildThenUpdatesConvergeIff` | packages/atlas-engine/src/build.rs:371-381 | a build that parsed some files, then any history of updates ending with a complete one, ends at the full inventory iff mentioned paths are aligned and every other indexable file was parsed by the build and never removed |
| `BuildThenUpdate.BuildParsesPrefixOnly` | packages/atlas-engine/src/build.rs:148-200 | without interference a build parses nothing beyond the longest prefix of the scan its limits admit |
| `BuildThenUpdate.LeavingOutIsDegraded` | packages/atlas-engine/src/build.rs:371-381 | a build that leaves out a file, all of them hashable, is degraded and so keeps the old ref |
| `BuildThenUpdate.DegradedBuildIsNotRepaired` | packages/atlas-engine/src/build.rs:371-373 | for all names: a build capped at one of two files is degraded, the next update is clean and moves the ref, and the second file is missing |
| `BuildThenUpdate.RevertedEditIsForgotten` | packages/atlas-engine/src/build.rs:371-381 | for all names and contents: a build of an uncommitted edit moves the ref, the edit is reverted, the next update is clean and the edit stays indexed |
| `GraphReadiness.PendingPaths` | packages/atlas-agent-events/src/graph_readiness.rs:104-130 | both ends of exactly the pending changes, sorted, without duplicates |
| `GraphReadiness.DetectorSees` | packages/atlas-agent-events/src/graph_readiness.rs:39-58 | at a path no other repository stores, the unscoped reads see exactly this repository's slice |
| `GraphReadiness.DetectorReads` | packages/atlas-agent-events/src/graph_readiness.rs:39-58 | state is seen at a path exactly when a repository the scan meets stores it or any has facts there |
| `GraphReadiness.UnhashableMatchesIff` | packages/atlas-agent-events/src/graph_readiness.rs:60-76 | a file that cannot be hashed matches exactly when nothing is read at its path |
| `GraphReadiness.PendingByRows` | packages/atlas-agent-events/src/graph_readiness.rs:60-102 | the verdict in terms of the slices alone |
| `GraphReadiness.PendingAfterRunIff` | packages/atlas-agent-events/src/graph_readiness.rs:77-102 | after a complete run from any table, exactly which changes are still pending, told from the table before the run, unsupported paths with left-over facts included |
| `GraphReadiness.PendingKinds` | packages/atlas-agent-events/src/graph_readiness.rs:60-102 | where the table holds supported files only, those changes kind by kind |
| `GraphReadiness.CopyStaysPending` | packages/atlas-agent-events/src/graph_readiness.rs:92-98 | a copy to a supported name stays pending after every complete run that leaves its source indexed, for any table, batch and order of repositories |
| `GraphReadiness.DetectorAgreesWithUpdater` | packages/atlas-agent-events/src/graph_readiness.rs:46-101 | over a benign batch in which only renames carry an old path, from a table of supported files, nothing is pending |
| `GraphReadiness.EditIsPendingIff` | packages/atlas-agent-events/src/graph_readiness.rs:46-58 | an edited supported file counts as done iff the first repository that stores the path has its current hash |
| `GraphReadiness.ForeignSliceKeepsPending` | packages/atlas-agent-events/src/graph_readiness.rs:46-58 | another repository's slice keeps a change pending whatever the updater does |
| `Schema.DropUserObjects` | packages/atlas-db-utils/src/lib.rs:475-515 | dropping in the listed order leaves exactly the framework tables |
| `Schema.ReplayRestoresIff` | packages/atlas-db-utils/src/lib.rs:436-473 | export and replay restore the schema exactly, if and only if no trigger sits on a view |
| `Schema.TriggerOnViewFails` | packages/atlas-db-utils/src/lib.rs:436-473 | the replay of triggers fails when one sits on a view |
| `Schema.TriggerOnViewHappens` | packages/atlas-db-utils/src/lib.rs:436-473 | a well-formed schema with a view and a trigger on it, for any two names, cannot be replayed |
| `Schema.FailedReplayLeaves` | packages/atlas-db-utils/src/lib.rs:436-473 | a failed replay leaves all tables and indexes of the export, no view and nothing else |
| `Migrations.Connection.MigrateUp` | packages/atlas-db-utils/src/lib.rs:378-395 | runs the pending scripts in order, stopping at the first failure |
| `Migrations.Connection.BackfillHistoryIfMissing` | packages/atlas-db-utils/src/lib.rs:357-376 | an empty history of a versioned database gains one entry per version reached |
| `Migrations.Connection.RebuildDownTo` | packages/atlas-db-utils/src/lib.rs:397-434 | build in memory, export, drop, replay, log downwards, with each failure point |
| `Migrations.Connection.MigrateDatabaseTo` | packages/atlas-db-utils/src/lib.rs:201-235 | the whole call equals the specified transition, refusals included |
| `Migrations.UpgradeFollowsReference` | packages/atlas-db-utils/src/lib.rs:378-395 | an upgrade reaches the reference schema of the target, or stands before the first failing script |
| `Migrations.UpgradeIs` | packages/atlas-db-utils/src/lib.rs:378-395 | with any scripts, from any database: every script ran, in order and with its entry, or the first to fail leaves what it left behind, at the version before it |
| `Migrations.PushAll` | packages/atlas-db-utils/src/lib.rs:535-553 | upgrade entries push their versions on the replayed history |
| `Migrations.PopDown` | packages/atlas-db-utils/src/lib.rs:419-434 | downgrade entries pop exactly the versions left |
| `Migrations.CallKeepsGood` | packages/atlas-db-utils/src/lib.rs:201-235 | every call keeps the invariant and only appends to the history; it succeeds iff the target is in range and reachable, and then everything says the target |
| `Migrations.RefusedCallOnlyEnsures` | packages/atlas-db-utils/src/lib.rs:201-216 | for every database: a target out of range, or a database newer than the set, is refused with nothing but missing framework objects added |
| `Migrations.UpgradeLogs` | packages/atlas-db-utils/src/lib.rs:357-395 | a successful upgrade adds exactly one named entry for each script, to a missing history first those of the versions reached |
| `Migrations.DowngradeLogs` | packages/atlas-db-utils/src/lib.rs:419-434 | a downgrade adds exactly one named entry for each version it leaves, newest first |
| `Migrations.RunKeepsGood` | packages/atlas-db-utils/src/lib.rs:201-235 | the invariant over every call sequence, failed calls included |
| `Migrations.EmptyIsGood` | packages/atlas-db-utils/src/lib.rs:285-311 | an empty database satisfies it |
| `Migrations.PathIndependence` | packages/atlas-db-utils/src/lib.rs:201-235 | any two histories that end with success at a version agree on schema, version, `user_version` and history replay, framework objects included |
| `Migrations.FailedUpgradeResumes` | packages/atlas-db-utils/src/lib.rs:216-229 | after script k+1 failed everything stands at k, and a retry runs exactly the scripts after k |
| `Migrations.RetryRunsTheRest` | packages/atlas-db-utils/src/lib.rs:378-395 | the history grows by exactly those scripts |
| `Migrations.GapLeavesVersionBehind` | packages/atlas-db-utils/src/lib.rs:419-434 | an undefined version between target and current fails the downgrade after the schema changed, the recorded version staying behind |
| `Migrations.LogDownSucceedsIff` | packages/atlas-db-utils/src/lib.rs:419-434 | logging a downgrade succeeds iff every version left behind is defined, and touches only the history |
| `Migrations.DowngradeSucceedsIff` | packages/atlas-db-utils/src/lib.rs:397-434 | with any version numbers a downgrade succeeds iff the target scripts work in memory, no trigger sits on a view and every version left behind is defined |
| `Migrations.FailedDowngradeLeaves` | packages/atlas-db-utils/src/lib.rs:397-418 | a downgrade whose scripts fail in memory touches nothing; one whose export cannot be replayed leaves the target's tables and indexes, no view, nothing of the schema it had, and version and history as they were |
| `Migrations.GapHappens` | packages/atlas-db-utils/src/lib.rs:419-434 | a set with versions 1 and 3: a database at 3 asked for 1 loses its table and still says 3 |
| `CallResolution.MemoTables.CallableCandidates` | packages/atlas-engine/src/call_resolution.rs:1028-1049 | answer and table after a hit or a miss |
| `CallResolution.MemoTables.CachedOwnerId` | packages/atlas-engine/src/call_resolution.rs:602-617 | answer and table after a hit or a miss |
| `CallResolution.MemoTables.ResolveSamePackageTarget` | packages/atlas-engine/src/call_resolution.rs:536-598 | receiver narrowing, owner match, directory tie-break, in order, with the tables they leave |
| `CallResolution.MemoTables.ResolveImportTarget` | packages/atlas-engine/src/call_resolution.rs:619-661 | first unique match over bindings and options, giving up at the first unusable binding |
| `CallResolution.EdgeStore.ReconcileCallTargets` | packages/atlas-engine/src/call_resolution.rs:10-121 | the rows and the count after a pass over any file list |
| `CallResolution.EditKeepsCalls` | packages/atlas-engine/src/call_resolution.rs:55-113 | kind, source, file, line and call data of every edge survive; ineligible edges survive whole |
| `CallResolution.PassKeepsCalls` | packages/atlas-engine/src/call_resolution.rs:23-121 | the same for whole passes: number and order of edges, unlisted files and other repositories |
| `CallResolution.EditAgain` | packages/atlas-engine/src/call_resolution.rs:55-113 | editing edited edges with the same tables changes nothing and reads the tables alike |
| `CallResolution.ReconcileIsIdempotent` | packages/atlas-engine/src/call_resolution.rs:23-121 | a second pass over the same list rewrites no file, for every store |
| `CallResolution.TablesAreTransparent` | packages/atlas-engine/src/call_resolution.rs:536-617 | if every callable is unlabelled or allowed, each file ends as querying the store for it alone would leave it |
| `CallResolution.FileOrderDoesNotMatter` | packages/atlas-engine/src/call_resolution.rs:23-121 | then the order of files does not matter |
| `CallResolution.CandidateCacheIsTransparentIff` | packages/atlas-engine/src/call_resolution.rs:1036-1048 | table answers equal direct answers for every query and table iff every callable is unlabelled or allowed |
| `CallResolution.PassDependsOnOrder` | packages/atlas-engine/src/call_resolution.rs:1036-1048 | with a forbidden and a permitted callable, whichever of two files comes first is resolved and the other is not |
| `CallResolution.TargetsAreUnambiguous` | packages/atlas-engine/src/call_resolution.rs:536-661 | through the memo tables, if every callable is permitted, a resolved target is the only candidate of an option of a binding through which the call looks for something, or the only package neighbour that can be meant |
| `CallResolution.MatchingIff` | packages/atlas-engine/src/call_resolution.rs:625-699 | the bindings a call is about, and what it looks for through each: the callee under its receiver or from a wildcard, the imported name or failing that the local one, or nothing, which ends the search |
| `CallTargets.OnlyImportIsFollowed` | packages/atlas-engine/src/call_resolution.rs:619-699 | from any tables, if the only import leads to files with exactly one permitted callable of the name looked for, the call gets it |
| `CallTargets.ImportsIff` | packages/atlas-engine/src/call_resolution.rs:619-661 | a call gets a node by import if and only if the first binding it does not pass over leads to it through its first option with exactly one permitted callable |
| `CallTargets.PackageIff` | packages/atlas-engine/src/call_resolution.rs:536-598 | in the same package it gets a node if and only if that is the only callable it can mean near it, or there is no only one and that is the only one in its directory |
| `CallTargets.DirectResolveIff` | packages/atlas-engine/src/call_resolution.rs:40-82 | so in every world, queried directly, exactly which target a call gets, imports first |
| `CallTargets.ResolveIff` | packages/atlas-engine/src/call_resolution.rs:40-82 | and through the memo tables when every callable is permitted |
| `CallTargets.MetaIs` | packages/atlas-engine/src/call_resolution.rs:55-63 | what an edge says of its call: a callee name, and receiver texts unless empty |
| `CallTargets.EligibleIff` | packages/atlas-engine/src/call_resolution.rs:55-63 | exactly the calls with a callee name that were not resolved within their file are looked at |
| `CallTargets.ContextIs` | packages/atlas-engine/src/call_resolution.rs:28-45 | a file is passed over exactly when it has no nodes or its first file node, or else first node, has no language; its bindings are those of all its import nodes |
| `CallTargets.ApplyIs` | packages/atlas-engine/src/call_resolution.rs:84-108 | what a target, or none, makes of an edge, field by field, and when that makes the pass write the file |
| `CallTargets.CountsWritten` | packages/atlas-engine/src/call_resolution.rs:110-120 | a file is counted exactly when its edges are written, and no other row changes |
| `CallResolution.WrittenTargetsArePermitted` | packages/atlas-engine/src/call_resolution.rs:23-121 | if no forbidden callable is alone in its file, every target a whole pass writes is a permitted callable |
| `CallResolution.TargetsArePermittedIff` | packages/atlas-engine/src/call_resolution.rs:1036-1048 | targets are permitted in every repository with given callables, from every faithful table, iff no forbidden callable is alone in its file, among all of its name or of its receiver |
| `CallResolution.ForbiddenTargetIsWritten` | packages/atlas-engine/src/call_resolution.rs:1036-1048 | otherwise a pass over two files writes a target in a repository that is not allowed, which querying the store would not give |
| `ImportPaths.NormalizeRelativePath` | packages/atlas-engine/src/call_resolution.rs:1103-1115 | pushing and popping on the text computes the normal form |
| `ImportPaths.NormalizedHasNoDots` | packages/atlas-engine/src/call_resolution.rs:1103-1115 | no dot or empty segments remain, and the segments are those the walk leaves |
| `ImportPaths.NormalizeFixesIff` | packages/atlas-engine/src/call_resolution.rs:1103-1115 | a path is unchanged iff it is the plain rendering of plain segments |
| `ImportPaths.NormalizeIsIdempotent` | packages/atlas-engine/src/call_resolution.rs:1103-1115 | normalizing twice is normalizing once |
| `ImportPaths.NormalizeIsCompositional` | packages/atlas-engine/src/call_resolution.rs:1103-1115 | normalizing a join equals normalizing the join of the normalized prefix, rooted paths included |
| `ImportPaths.ParentUndoesPart` | packages/atlas-engine/src/call_resolution.rs:1103-1115 | `..` undoes a plain part before it |
| `ImportPaths.ParentDropsLast` | packages/atlas-engine/src/call_resolution.rs:1103-1115 | `..` takes the last part off the normal form |
| `ImportPaths.ParentOfTop` | packages/atlas-engine/src/call_resolution.rs:1103-1115 | at the root or the empty path `..` is absorbed |
| `ImportPaths.PartIsAdded` | packages/atlas-engine/src/call_resolution.rs:1103-1115 | a plain part is added to the normal form |
| `ImportPaths.DotIsNeutral` | packages/atlas-engine/src/call_resolution.rs:1103-1115 | `.` and a trailing slash change nothing |
| `ImportPaths.OnlyNormalizeObeysLaws` | packages/atlas-engine/src/call_resolution.rs:1103-1115 | these laws determine normalization: any function that obeys them is it, on every text |
| `ImportPaths.MatchInvertsApply` | packages/atlas-engine/src/call_resolution.rs:883-902 | a source matches with a text iff filling the pattern with it gives the source |
| `ImportPaths.FillingReplacesFirstStar` | packages/atlas-engine/src/call_resolution.rs:883-902 | filling puts the text where the first star stands and leaves a pattern without one alone |
| `ImportPaths.ParseTsConfig` | packages/atlas-engine/src/call_resolution.rs:228-285 | result and visited set of the recursive walk; it terminates on every graph |
| `ImportPaths.InheritanceIsFirstOnChain` | packages/atlas-engine/src/call_resolution.rs:228-285 | the walk answers with the first alias paths along the unbounded chain of `extends`, and with nothing iff none has any |
| `ImportPaths.EachFileIsReadOnce` | packages/atlas-engine/src/call_resolution.rs:228-237 | no file is read twice and no more files than exist |
| `ImportPaths.VisitedAre` | packages/atlas-engine/src/call_resolution.rs:228-237 | visited are those visited before, the start, and everything that what was read extends, readable or not |
| `Calendar.YearOfEraContains` | packages/atlas-adapters/src/bridge.rs:350-357 | the year formula finds the year containing the day |
| `Calendar.ConversionIsInverse` | packages/atlas-adapters/src/bridge.rs:350-362 | every day count gives a valid date that counts back to it |
| `Calendar.ConversionRoundTrip` | packages/atlas-adapters/src/bridge.rs:350-362 | every valid date from 1970 on comes back |
| `Calendar.ConversionStep` | packages/atlas-adapters/src/bridge.rs:350-362 | day n+1 is the calendar successor of day n |
| `Calendar.ConversionIsWalk` | packages/atlas-adapters/src/bridge.rs:350-362 | day n is what walking n days from 1 January 1970 reaches |
| `Calendar.FourDigitYears` | packages/atlas-adapters/src/bridge.rs:333-347 | which seconds have a four-digit year |
| `Calendar.FormatIsRead` | packages/atlas-adapters/src/bridge.rs:333-347 | for every second, the digits of the timestamp read back as the calendar date of its day and as hours, minutes and seconds in range that add up to its time of day |
| `Calendar.TextOrderIsTimeOrder` | packages/atlas-adapters/src/bridge.rs:333-347 | up to the year 9999 the text sorts exactly as the seconds do (sections 5.1 and 5.6 of RFC 3339) |
| `Calendar.TextOrderBreaksAfterYear9999` | packages/atlas-adapters/src/bridge.rs:333-347 | beyond it does not |
| `DiagramExport.AggregateEdges` | packages/atlas-docs/src/export.rs:409-436 | aggregates in key order, each with the multiplicity of its raw edges |
| `DiagramExport.ExportDiagram` | packages/atlas-docs/src/export.rs:96-147 | the diagram as a function of labels and the multiset of raw edges |
| `DiagramExport.NothingIsLost` | packages/atlas-docs/src/export.rs:96-147 | rendered counts plus omitted edges are all raw edges, kept plus omitted nodes all distinct labels, both caps hold, and nodes are omitted only at the cap |
| `DiagramExport.RenderedEdgesAreExact` | packages/atlas-docs/src/export.rs:409-436 | each rendered edge names two kept labels and counts exactly its raw edges |
| `DiagramExport.DiagramIsSorted` | packages/atlas-docs/src/export.rs:96-147 | kept labels are the first in text order, edges ascend by source, then target, then kind |
| `DiagramExport.DrawableEdgesAreDrawn` | packages/atlas-docs/src/export.rs:409-436 | no drawable edge is missing unless the edge cap is reached, and then it comes after every edge drawn |
| `DiagramExport.OrderDoesNotMatter` | packages/atlas-docs/src/export.rs:96-147 | permuting inputs or repeating labels changes nothing |
| `DocsIndex.NewDocsView` | packages/atlas-docs/src/model.rs:75-277 | the loops build the specified indexes |
| `DocsIndex.SymbolLookups` | packages/atlas-docs/src/model.rs:311-340 | each symbol lookup is a sorted, stable permutation of the filter over all edges |
| `DocsIndex.FileLookups` | packages/atlas-docs/src/model.rs:98-114 | each per-file lookup likewise; edges by file are the filter itself |
| `DocsIndex.OutboundEdgesAre` | packages/atlas-docs/src/model.rs:311-324 | all occurrences of the edges from a symbol outside generated files, by target then kind, ties in input order |
| `DocsIndex.InboundEdgesAre` | packages/atlas-docs/src/model.rs:327-340 | and of those to it, by source then kind |
| `DocsIndex.FileEdgesAre` | packages/atlas-docs/src/model.rs:98-114 | the edges found in a file, in input order |
| `DocsIndex.FileDependenciesAre` | packages/atlas-docs/src/model.rs:222-261 | the edges other than containment whose ends live in the file and in another one, by target then kind |
| `DocsIndex.FileDependentsAre` | packages/atlas-docs/src/model.rs:222-261 | and those whose ends live in another one and in the file, by source then kind |
| `DocsIndex.TotalsAgree` | packages/atlas-docs/src/model.rs:222-261 | total outbound, total inbound and the number of resolvable cross-file edges are equal |
| `DocsIndex.LookupIgnoresOrderIff` | packages/atlas-docs/src/model.rs:311-340 | outbound and inbound lookups of two edge orders agree iff the orders agree within every group of the same other end and kind |
| `DocsIndex.FileLookupIgnoresOrderIff` | packages/atlas-docs/src/model.rs:222-261 | the same for per-file lookups |
| `DocsIndex.TiesShowInputOrder` | packages/atlas-docs/src/model.rs:73-75 | two tied edges swapped in the input come out swapped |
| `Sorting.StableSortCorrect` | packages/atlas-docs/src/model.rs:316-321 | a sorted permutation that keeps the order of ties |
| `Sorting.SortedByUnique` | packages/atlas-docs/src/model.rs:316-321 | and the only one |
| `Chunking.SnapUtf8` | packages/atlas-contentstore/src/chunking.rs:298-304 | the loop computes the snapped position |
| `Chunking.SnapIsBoundaryIff` | packages/atlas-contentstore/src/chunking.rs:298-304 | for every text the result is a character boundary iff the byte before the asked position is ASCII, and then it is that position |
| `Chunking.SplitLongLine` | packages/atlas-contentstore/src/chunking.rs:273-295 | the byte loop computes the pieces or the abort |
| `Chunking.SplitSucceedsIff` | packages/atlas-contentstore/src/chunking.rs:273-295 | cutting succeeds iff every 4096th byte and the last one are ASCII |
| `Chunking.PiecesAreExact` | packages/atlas-contentstore/src/chunking.rs:273-295 | pieces concatenate to the line and none exceeds the cap |
| `Chunking.WindowsLoseNothing` | packages/atlas-contentstore/src/chunking.rs:254-271 | line windows concatenate to the lines |
| `Chunking.FewLinesAreNotCut` | packages/atlas-contentstore/src/chunking.rs:254-271 | two to fifty-one lines come back as one piece, whatever its size |
| `Chunking.PartsFitIff` | packages/atlas-contentstore/src/chunking.rs:254-295 | every piece is within the cap iff the text is one line or every fifty-one-line window adds up to at most the cap |
| `Chunking.OversizedLinesStayOversized` | packages/atlas-contentstore/src/chunking.rs:254-271 | any two lines of which the first fills the cap come back as one piece over the cap |
| `Chunking.ChunkMarkdown` | packages/atlas-contentstore/src/chunking.rs:87-120 | the loop computes the sections, or the whole text when there are none |
| `Chunking.ChunkText` | packages/atlas-contentstore/src/chunking.rs:49-80 | numbering and subdivision as specified |
| `Chunking.LinesAre` | packages/atlas-contentstore/src/chunking.rs:87-102 | line ends are line feeds, a carriage return before one belongs to it, and a final one starts no line |
| `Chunking.SplitUndoesJoin` | packages/atlas-contentstore/src/chunking.rs:133-136 | joined lines split into themselves |
| `Chunking.TrimIs` | packages/atlas-contentstore/src/chunking.rs:133-136 | trimming removes exactly the white space at both ends |
| `Chunking.HeadingIff` | packages/atlas-contentstore/src/chunking.rs:122-131 | a line is a heading with a title if and only if it is one or more hash signs and text that trims to that title |
| `Chunking.UntitledSection` | packages/atlas-contentstore/src/chunking.rs:87-120 | a text without headings is one untitled section with all its lines, or none if they are blank |
| `Chunking.TitledSection` | packages/atlas-contentstore/src/chunking.rs:87-120 | a heading and the text up to the next is one section with that title and all those lines, or none if they are blank |
| `Chunking.BaseIs` | packages/atlas-contentstore/src/chunking.rs:111-119 | a text without sections is kept whole and as it is |
| `Chunking.PartsAreNumbered` | packages/atlas-contentstore/src/chunking.rs:59-80 | a piece within the cap is kept with its title; the parts of a larger one are numbered from nought under it |
| `Chunking.PartsLoseNothing` | packages/atlas-contentstore/src/chunking.rs:254-295 | the parts of a single line add up to it; those of several are its lines in order, fifty-one at a time, joined |
| `Chunking.SectionsSplit` | packages/atlas-contentstore/src/chunking.rs:87-153 | sections of a text split at a heading are those of its halves |
| `Chunking.HeadingsAreCutPoints` | packages/atlas-contentstore/src/chunking.rs:49-153 | chunks of the whole are the first half's chunks, then the second's with the same ids, titles and contents and shifted indices, for every text and also for aborts |
| `Chunking.BaseSplitsIff` | packages/atlas-contentstore/src/chunking.rs:111-119 | for unnumbered chunks that holds iff both halves have sections |
| `Chunking.HeadingsAreCutPointsIff` | packages/atlas-contentstore/src/chunking.rs:111-119 | and for numbered ones, when one half has sections |

## Left out

- Node and edge rows of a slice: build and update claims are about hash, owner and an opaque fact set per file; renamed
  qualified names, and `INSERT OR REPLACE` taking a node from another file, are not modelled.
- `changed_qnames` and `node_signature`: dependents are any function from the table to paths it stores.
- `Files`, `Batch` and `Staged` targets, `explicit_file_change` and path canonicalization: a change batch is given; the
  stored ref only matters for working-tree runs.
- `UpdateGraph.Update`: store errors other than a fail-fast parse or stat failure are not modelled; counters do not
  overflow.
- Row data in migrations, provenance metadata, and objects matched by `LIKE 'sqlite_%'`: schema objects only. In that
  pattern `_` is a wildcard, so a user object such as `sqlitex` is neither exported nor dropped; such names are not
  modelled.
- `GraphReadiness::derive`, health codes, policy tables and the default budget table: finite case splits.
- `CallResolution.EdgeStore.ReconcileCallTargets`: store query errors, two spellings of one path in the file list, and
  import resolution on disk (including re-export following), which is one fixed function of its arguments.
- `resolve_tsconfig_extends_path` and JSON parsing: parameters of the `extends` walk.
- `Calendar.TextOrderIsTimeOrder`: does not model the 64-bit range of the second counter, because no date it can count
  to overflows the intermediate sums.
- Scope selection, Mermaid and DOT rendering, module, label, duplicate and test indexes of the docs view, snippets.
- JSON and plain-text chunking; the chunk hash is taken to be collision-free.
- Redaction, event payloads, bridge files, locks, CLI, metrics, embeddings and retrieval: I/O, text output or wrappers.
