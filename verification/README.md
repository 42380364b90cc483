# LocalSearch, modelled and verified in Dafny

LocalSearch keeps a durable graph of filesystem objects and links in SQLite, derives a *desired
catalog* of searchable documents from it, and feeds search indexes through a transactional outbox.
This project models the parts whose correctness depends on how they compose across crashes, bounded
batches and interleavings, and proves properties over every input, every run and every crash point.

A database state is one value (`Schema.Db`): tables are maps and sequences, a transaction is one
atomic step. Each transaction has a specification function (`GraphSpec`) and an imperative
counterpart (`GraphStore`, a class whose methods change tables step by step) proved equal to it; the
invariants and run theorems are lemmas about the specification. The same split is used for the
workers, the observation controller, the generation manager, the governor and the broker. Crashes
are inputs: a schedule, a fate per write, or a budget of durable writes that runs out anywhere.

## The main results

| result | where |
|---|---|
| A lagging catalog index is always on course: replay from the acknowledgement gives the last projected documents, through lost acknowledgements, lost indexes, rebuilds, prunes and any graph operation; with no backlog and no refresh pending it is the joined read, versions included | `Projector.Convergence` |
| Mark-and-sweep over any stale state, with restarts and interleaved with every other operation of the graph, ends in what a rebuild from empty gives; its pages are accepted exactly when their removals fit the stale rows, and in the same runs a number of sweep calls fixed in advance ends it | `ObservationRuns.MarkAndSweepRefinesRebuild`, `ObservationRuns.ScanNeverRefused`, `ObservationSweeps.SweepsTerminate` |
| After any batch or refresh page each link it touched has a document if and only if a boundary-free chain of sole parents within 512 links reaches a root, under the names of that chain; undisturbed refreshes end, and leave a link right exactly when it was right or a job had yet to reach it | `CatalogPaths.BatchShows`, `PathConvergence.PathsConverge`, `PathConvergence.MovedDirectoryConverges` |
| Over all controller runs with restarts, incremental reads use provider checkpoints and a completed volume came through one scan handle; every read changes the volume's links and metadata exactly as its events say, or not at all; every volume has its turn, a delivered scan completes, and a completed one holds every page its handle delivered | `Controller.ControllerSafety`, `IncrementalReads.IncrementalOutcome`, `ControllerProgress.ScanCompletes`, `ControllerMirror.CompletedIsDelivered` |
| A content candidate built from pages of a moving catalog and caught up in coalesced batches holds exactly the eligible texts | `ContentProjection.FuzzySnapshotExact` |
| `ContentProjection.WantedMeansEligible` | crates/content-index/src/lib.rs:1854-1892 | An index with the texts a catalog asks for holds exactly those of its online files of a listed extension and size that still resolve |
| A resumable generation is exact after any crashes; the active selection only ever moves to an exact, validated index; completion happens if and only if fewer documents are eligible than the limit | `ContentGeneration`, `GenerationManagers` |
| Over a moving catalog the activation count check passes if and only if every checkpointed page agreed with the entries it found and none lies beyond | `ContentValidation.ValidationExact` |
| Catalog rows never drift from the tables, linked objects are live, the outbox is one interval, availability is current or covered by a refresh cursor, in every reachable state | `GraphFacts.ReachableSound` and its consequences |
| Two-slot durable writes return the last completed value | `DurableSlots.ReadsLastCompleted` |
| Governor safety, the exact window at which load pauses work, and exact hysteresis bounds | `Governor`, `GovernorPressure` |
| Broker stream conservation and progress, path resolution, positional grams | `BrokerScan`, `PathResolution`, `Grams` |

## Properties that are false of the code, with their exact conditions

Each failing input is a run from the initial state, or a single call's input.

- Upserting a volume brings it online without queueing a refresh, so availability can stay stale:
  `Scenarios.ReviveLosesAvailability` is the run, `Catalog.BatchKeepsCatalog` says of any batch exactly when it is
  harmless.
- A directory moved again while its path refresh is under way leaves the job where it is, so descendants behind it
  keep the path of the first move for good: `PathScenarios.MoveDuringRefreshLost` is the run;
  `PathConvergence.PathsConverge` says of any state exactly which links refreshes bring right.
- Windows of overload in a row do not always pause work: a window of critical memory pauses without being counted, so
  on battery the next overloaded window may resume it: `GovernorPressure.StarvedWindowUncounted`;
  `GovernorPressure.PressurePausesExactly` says which window pauses on every call sequence.
- A consumer may register below rows already pruned and then silently skips them:
  `Scenarios.LateRegistrationSkips`, `Outbox.RegistrationExact`.
- A scan page that an empty graph accepts can be refused because a removal contradicts a stale row:
  `Scenarios.StaleBindingRefusesRemoval`; `ObservationRuns.ScanNeverRefused` has the exact condition.
- A content page read while its documents show another availability than projected can lose a text for good:
  `ContentScenarios.StalePageLosesText` is the run. `ContentProjection.PageKeepsExactly` has the exact condition: each
  listed identity is still to be replayed from the log, or the joined read and the last projection ask for the same
  text; a page whose checkpoint is lost may also ask for none. `FuzzySnapshotExact` is over all runs of such pages.
- A document changed between a lost page and its replay is updated but not counted, so a right index is refused:
  `ContentValidation.ReplayedChangeFailsValidation`, `ValidationExact`.
- A generation with exactly as many eligible documents as the limit never completes, because the limit is checked
  before the empty page is read: `ContentGeneration.FullCatalogNeverFinishes`, `FinishesExactly`.
- Content entries keep the document they were extracted from when a rename or an equal text makes the writer skip
  them; only the text is current: `ContentDelta.RenameKeepsOldDocument`, `StoredDocumentExact`.
- Once the slot sequence has saturated, the newest slot is the one overwritten and a torn write loses the value:
  `DurableSlots.SaturationLoses`, `OverwritesNewestExactly`.
- A workload report can leave boosted work running without idleness or backlog:
  `Governor.WorkloadBreaksTrust`, `WorkloadKeepsTrustExactly`.
- After a telemetry recovery a relaxation can come before the cooldown has run, because the recovering window is
  counted against the cooldown it starts: `Governor.RecoveryShortensCooldown` is a run. With quiet windows the boost
  comes exactly max(1, R, C) - 1 windows after the recovery, short of the cooldown C if and only if C is at least
  max(1, R): `Governor.RecoveredBoostExactly`, `RecoveredCooldownExact`.

## Model

| member | source | states |
|---|---|---|
| `PathResolution.ResolvePath` | crates/filesystem-graph/src/store.rs:2490-2523 | The parent-walking loop, with its visited set and depth counter, computes the recursive resolution and terminates on every graph |
| `PathResolution.ResolveExact` | crates/filesystem-graph/src/store.rs:2452-2523 | Resolution succeeds if and only if a chain of sole parent links reaches a root without boundary within the depth limit, and then gives that chain's names from root to link |
| `PathResolution.ResolveComplete` | crates/filesystem-graph/src/store.rs:2490-2523 | Every boundary-free chain within the limit resolves to its names from the root down |
| `PathResolution.ChainAcyclic` | crates/filesystem-graph/src/store.rs:2497-2517 | A chain that reaches a root never passes the same parent twice, so the cycle test cannot reject it |
| `PathResolution.FailureIsDefinitive` | crates/filesystem-graph/src/store.rs:2490-2523 | A missing, ambiguous, cyclic or boundary failure is final: no larger depth limit would resolve the link |
| `GraphTables.ApplyKeeps` | crates/filesystem-graph/src/store.rs:1597-1692 | Every mutation keeps live linked objects, one link per directory slot and the foreign keys, and changes no link or metadata outside the set collected as affected |
| `GraphTables.RemoveLinkRowKeeps` | crates/filesystem-graph/src/store.rs:2298-2350 | Removing a link fails exactly when it is bound to another object; otherwise exactly that row goes and the tables stay sound |
| `GraphTables.ObserveLinkKeeps` | crates/filesystem-graph/src/store.rs:2103-2287 | An observed link replaces exactly the stale conflicting rows and its own, and the tables stay sound |
| `GraphTables.TombstoneObjectKeeps` | crates/filesystem-graph/src/store.rs:2352-2376 | A tombstone never leaves a linked object dead |
| `Catalog.DeriveSucceeds` | crates/filesystem-graph/src/store.rs:1933-1995 | Over sound tables no link fails to project for a missing object, volume or link row |
| `Catalog.SyncSettles` | crates/filesystem-graph/src/store.rs:1714-1830 | Synchronizing every pending link leaves no catalog row behind its tables and every availability current or covered |
| `Catalog.SyncAllLogged` | crates/filesystem-graph/src/store.rs:1714-1792 | The rows appended by a synchronization replay exactly the change of the catalog |
| `Catalog.BatchKeepsCatalog` | crates/filesystem-graph/src/store.rs:165-240 | A committed batch leaves every row joined to the same link and object with the same name and metadata as last projected, and keeps availability tracked if and only if it is quiet |
| `Catalog.MutatedTracksExactly` | crates/filesystem-graph/src/store.rs:1603-1616 | Any batch's mutations keep availability tracked if and only if each document they leave alone on an upserted volume with no state change is covered or shows its object's own availability |
| `Catalog.BatchLogged` | crates/filesystem-graph/src/store.rs:196-240 | A durable batch logs, in consecutive sequences, exactly the change it makes to the last projected documents |
| `CatalogPaths.JoinSplits` | crates/filesystem-graph/src/domain.rs:194-196 | Joined parts are joined to each other by one separator |
| `CatalogPaths.ExtensionExact` | crates/filesystem-graph/src/store.rs:1928-1931 | An extension is exactly the non-empty text after the last dot |
| `CatalogPaths.DeriveExact` | crates/filesystem-graph/src/store.rs:1933-1955 | Over sound tables a link derives a document if and only if a boundary-free chain within the limit reaches a root, and its path is the names of that chain |
| `CatalogPaths.SyncShows` | crates/filesystem-graph/src/store.rs:1714-1792 | After a synchronization the link has a document exactly when it is rooted, with that path and the join of link, object and volume as they are |
| `CatalogPaths.BatchShows` | crates/filesystem-graph/src/store.rs:165-240 | After a committed batch that holds of every link it collected, wrote, removed or changed and of every link of an object it observed |
| `CatalogPaths.ShownAvailability` | crates/filesystem-graph/src/store.rs:1938-1943 | A shown document has its object's availability on an online volume, Offline on an offline one and Unknown on one to be reconciled |
| `CatalogVersions.BatchStamps` | crates/filesystem-graph/src/store.rs:165-240 | Every document a batch writes and every row it logs carries the volume's next generation |
| `CatalogVersions.RefreshStamps` | crates/filesystem-graph/src/store.rs:1127-1314 | Those of a refresh carry the generation its volume is at |
| `CatalogPaths.RefreshVolumeShows` | crates/filesystem-graph/src/store.rs:1228-1314 | A volume refresh takes exactly the next documents of the lowest pending volume, leaves each as it should be, and ends exactly when fewer than a page were ahead |
| `CatalogPaths.RefreshPathsShows` | crates/filesystem-graph/src/store.rs:1127-1217 | The same of a path refresh over the next links, documents or not, of the oldest pending job; no other document changes |
| `PathConvergence.PathsConverge` | crates/filesystem-graph/src/store.rs:1118-1217 | When undisturbed refreshes have left no job pending, a link is shown as it should be if and only if it was before or a pending job had yet to reach it |
| `PathConvergence.RefreshesEnd` | crates/filesystem-graph/src/store.rs:1194-1210 | A number of positive calls fixed in advance leaves no path job pending |
| `PathConvergence.ApplyQueues` | crates/filesystem-graph/src/store.rs:2243-2350 | Moving, renaming or removing a directory's link leaves a refresh of it pending; queued jobs stay as they are and new ones start at the beginning |
| `PathConvergence.BatchQueues` | crates/filesystem-graph/src/store.rs:2378-2394 | So does any batch that does, after which every link of the volume awaits the job unless one for that directory was already pending |
| `PathConvergence.MovedDirectoryConverges` | crates/filesystem-graph/src/store.rs:1118-1217 | After such a batch enough refreshes show every link of the volume as it should be |
| `PathScenarios.MoveDuringRefreshLost` | crates/filesystem-graph/src/store.rs:2378-2394 | A run with a second move during the refresh, after which no number of refreshes shows the file under its path |
| `ObjectLife.RemovalKills` | crates/filesystem-graph/src/store.rs:2298-2350 | A removed link leaves its object dead exactly when it was the last one; no other object changes |
| `ObjectLife.MutationLife` | crates/filesystem-graph/src/store.rs:2103-2376 | Observed and linked objects live, a tombstoned one is dead, and under every other mutation an object dies with its last link and stays dead |
| `ObjectLife.SweepLinksKill` | crates/filesystem-graph/src/store.rs:1453-1500 | So it does in a link sweep |
| `ObjectLife.CompletedSweepKills` | crates/filesystem-graph/src/store.rs:1502-1547 | A completed scan leaves dead exactly what was dead and the unlinked objects of the volume not observed since it began |
| `Maintenance.SweepLinksKeeps` | crates/filesystem-graph/src/store.rs:1453-1500 | Sweeping removes exactly the listed links and their documents, logs it, and keeps the catalog sound |
| `Maintenance.CursorTracks` | crates/filesystem-graph/src/store.rs:1282-1314 | Advancing a refresh cursor past a synchronized page leaves every document current or still ahead of a cursor |
| `Maintenance.RefreshVolumeKeeps` | crates/filesystem-graph/src/store.rs:1228-1314 | A bounded volume refresh keeps soundness and availability tracking and logs exactly what it changes |
| `Maintenance.RefreshPathsKeeps` | crates/filesystem-graph/src/store.rs:1127-1217 | The same for a bounded path refresh, whose jobs keep their roots |
| `Outbox.Validate` | crates/core/src/models.rs:287-307 | Accepts exactly non-empty runs of consecutive sequences below the 64-bit limit |
| `Outbox.ConsumerReads` | crates/filesystem-graph/src/store.rs:542-568 | A registered consumer's read is consecutive, starts one after its acknowledgement, and is empty exactly when it has caught up or asks for nothing |
| `Outbox.LatestIsMark` | crates/filesystem-graph/src/store.rs:575-591 | The latest sequence is the high-water mark, even when every row was pruned |
| `Outbox.PruneKeeps` | crates/filesystem-graph/src/store.rs:806-932 | Dropping acknowledged rows keeps one interval, the latest sequence and every read of every registered consumer |
| `Outbox.PruneConsumedDrops` | crates/filesystem-graph/src/store.rs:806-822 | Pruning removes exactly the rows that every consumer has acknowledged, and none without consumers |
| `Outbox.PruneBoundedDrops` | crates/filesystem-graph/src/store.rs:873-932 | The bounded form removes exactly the acknowledged rows among the first `maximum`; without consumers, those the caller allows |
| `Outbox.RegistrationExact` | crates/filesystem-graph/src/store.rs:749-783 | A new consumer is accepted up to the latest sequence, and misses nothing if and only if it registers at or above the pruned point |
| `Outbox.AcknowledgeExact` | crates/filesystem-graph/src/store.rs:749-783 | A position is accepted exactly when it is not beyond the mark and moves no known consumer backwards |
| `Scenarios.LateRegistrationSkips` | crates/filesystem-graph/src/store.rs:749-783 | A run after which a registration at zero is accepted and its reads start at sequence two |
| `Outbox.AcknowledgeKeeps` | crates/filesystem-graph/src/store.rs:749-783 | An accepted acknowledgement keeps the outbox sound and the latest sequence |
| `GraphRuns.BeginScanKeeps` | crates/filesystem-graph/src/store.rs:285-340 | Beginning a scan keeps soundness and, although it changes the volume state, availability tracking |
| `GraphRuns.StageKeeps` | crates/filesystem-graph/src/store.rs:384-407 | Staging a checkpoint keeps soundness and tracking |
| `GraphRuns.FinalizeKeeps` | crates/filesystem-graph/src/store.rs:451-535 | A bounded finalization keeps soundness and tracking in every phase |
| `GraphRuns.StepKeepsSound` | crates/filesystem-graph/src/store.rs:165-535 | Every operation of the graph keeps the safety invariant |
| `GraphRuns.StepKeepsTracked` | crates/filesystem-graph/src/store.rs:1228-1314 | An operation keeps each availability current or ahead of a pending cursor if and only if it is not an unquiet batch |
| `GraphRuns.MarkNeverDecreases` | crates/filesystem-graph/src/store.rs:575-591 | No operation lowers the high-water mark of the outbox |
| `GraphFacts.ReachableSound` | crates/filesystem-graph/src/store.rs:165-535 | Every state reached from an empty database by any interleaving is sound, and tracked if no volume was revived unnoticed |
| `GraphFacts.LinkedObjectsLive` | crates/filesystem-graph/src/store.rs:2279-2376 | In every reachable state a linked object exists and is not tombstoned |
| `GraphFacts.ProjectionNeverFails` | crates/filesystem-graph/src/store.rs:1970-1995 | From every reachable state no batch fails for a missing object, volume or link row |
| `GraphFacts.JoinedReadFaithful` | crates/filesystem-graph/src/store.rs:598-617 | The inner joins drop no row, and each joined document is the last projected one with its volume's present availability |
| `GraphFacts.JoinedEqualsProjected` | crates/filesystem-graph/src/store.rs:1854-1874 | The joined read equals the last projection if and only if every availability is current |
| `GraphFacts.SettledIsCurrent` | crates/filesystem-graph/src/store.rs:1228-1314 | With no refresh pending every availability is current |
| `Scenarios.ReviveLosesAvailability` | crates/filesystem-graph/src/store.rs:1603-1606 | A run after which a volume upsert leaves a stale availability with no refresh pending |
| `GraphStore.Transaction.ApplyMutations` | crates/filesystem-graph/src/store.rs:184-200 | The mutation loop applies each mutation in place and collects the affected links as specified |
| `GraphStore.Transaction.RemoveLinkInternal` | crates/filesystem-graph/src/store.rs:2298-2350 | Removal in place: row, tombstone and refresh jobs as specified, nothing on error |
| `GraphStore.Transaction.UpsertLinkRow` | crates/filesystem-graph/src/store.rs:2195-2287 | Conflict removal and link upsert in place as specified |
| `GraphStore.Transaction.SyncCatalogProjection` | crates/filesystem-graph/src/store.rs:1714-1830 | Derives, compares fingerprints, writes or deletes the row and appends the log row as specified; `CatalogPaths.SyncShows` says what that leaves |
| `GraphStore.FilesystemGraph.ApplyBatchWithMode` | crates/filesystem-graph/src/store.rs:165-240 | Commits exactly the specified state, or changes nothing and reports the specified error |
| `GraphStore.FilesystemGraph.BeginObservationScan` | crates/filesystem-graph/src/store.rs:285-340 | Commits the specified session, state and refresh job |
| `GraphStore.FilesystemGraph.ApplyObservationScanPage` | crates/filesystem-graph/src/store.rs:351-376 | Applies a page under the placeholder checkpoint only while scanning |
| `GraphStore.FilesystemGraph.StageObservationCheckpoint` | crates/filesystem-graph/src/store.rs:384-407 | Stages the provider checkpoint only for its own volume while scanning |
| `GraphStore.FilesystemGraph.FinalizeObservationScan` | crates/filesystem-graph/src/store.rs:451-535 | One bounded sweep or the activation, as specified |
| `GraphStore.FilesystemGraph.RefreshVolumeProjection` | crates/filesystem-graph/src/store.rs:1228-1314 | One bounded volume refresh, as specified |
| `GraphStore.FilesystemGraph.RefreshProjectionPaths` | crates/filesystem-graph/src/store.rs:1127-1217 | One bounded path refresh, as specified |
| `GraphStore.FilesystemGraph.LatestOutboxSequence` | crates/filesystem-graph/src/store.rs:575-591 | Computes the maximum of mark, rows and acknowledgements |
| `GraphStore.FilesystemGraph.AcknowledgeProjection` | crates/filesystem-graph/src/store.rs:749-783 | Accepts or refuses an acknowledgement as specified |
| `GraphStore.FilesystemGraph.PruneRebuildableOutboxBounded` | crates/filesystem-graph/src/store.rs:873-932 | Removes the specified bounded prefix |
| `GraphStore.FilesystemGraph.DesiredCatalogPage` | crates/filesystem-graph/src/store.rs:665-712 | One page of the joined read in document order after a cursor |
| `Replay.RunFind` | crates/catalog-index/src/index.rs:221-262 | Applying logged mutations by delete-then-add is last-writer-wins, identity by identity |
| `Replay.RunAgain` | crates/catalog-index/src/index.rs:221-262 | Applying a prefix early changes nothing once the whole log is applied |
| `Projector.StepKeepsCatchUp` | crates/catalog-index/src/projector.rs:115-171 | No graph operation, by anyone, takes a lagging index off course |
| `Projector.CommitKeepsCatchUp` | crates/catalog-index/src/projector.rs:131-150 | A commit whose acknowledgement is lost keeps the index on course, whatever batch size follows |
| `Projector.AckKeepsCatchUp` | crates/catalog-index/src/projector.rs:131-156 | A commit and its acknowledgement keep the index on course and advance the consumer |
| `Projector.RebuildExact` | crates/catalog-index/src/projector.rs:204-238 | A rebuild registered at the latest sequence is on course if and only if every availability was current |
| `Projector.SystemStepKeeps` | crates/catalog-index/src/projector.rs:115-238 | Every step of graph and worker, crash, loss and consumer reset included, keeps the system invariant |
| `Projector.Convergence` | crates/catalog-index/src/projector.rs:115-171 | Convergence through crashes over every permitted run from an empty database |
| `ProjectionWorkers.PageSplits` | crates/catalog-index/src/projector.rs:213-232 | A page and everything beyond its last document make up what was ahead, in order |
| `ProjectionWorkers.ProjectionWorker.NextUnusedGeneration` | crates/catalog-index/src/projector.rs:245-251 | The least unused generation at or above the minimum |
| `ProjectionWorkers.ProjectionWorker.ReadAllPages` | crates/catalog-index/src/projector.rs:213-232 | Page concatenation lists every joined document exactly once, in order |
| `ProjectionWorkers.ProjectionWorker.Rebuild` | crates/catalog-index/src/projector.rs:204-238 | Writes a fresh generation equal to the joined read and registers it |
| `ProjectionWorkers.ProjectionWorker.Recover` | crates/catalog-index/src/projector.rs:190-202 | Keeps a live index untouched, otherwise rebuilds |
| `ProjectionWorkers.ProjectionWorker.ProjectBatch` | crates/catalog-index/src/projector.rs:126-156 | One committed batch of up to the limit, acknowledged unless the process dies, never rejected, keeps the index on course |
| `ProjectionWorkers.ProjectionWorker.Consume` | crates/catalog-index/src/projector.rs:120-160 | Stops early only when nothing is left to read |
| `ProjectionWorkers.ProjectionWorker.Run` | crates/catalog-index/src/projector.rs:115-171 | Finishes unless the process dies; reports backlog exactly; without backlog the index is the last projected documents |
| `ProjectionWorkers.ApplyRows` | crates/catalog-index/src/index.rs:221-262 | Staging a batch equals replay, and poison is reported exactly when an identity was not derived from its link |
| `Observation.EventMirrored` | crates/filesystem-graph/src/store.rs:2103-2350 | One event, removals included, keeps the fresh part of the tables equal to the snapshot, whatever stale rows it meets |
| `Observation.PagesMirrored` | crates/filesystem-graph/src/store.rs:351-376 | So do any pages |
| `Observation.BeginMirrorsNothing` | crates/filesystem-graph/src/store.rs:285-340 | Starting or restarting makes every existing link of the volume stale |
| `Observation.FinalizeStepMirrors` | crates/filesystem-graph/src/store.rs:451-595 | Each finalization step keeps the snapshot or completes with exactly it |
| `Observation.RebuiltIsSnapshot` | crates/filesystem-graph/src/store.rs:351-376 | The same pages on an empty graph build exactly the snapshot |
| `ObservationRuns.OtherStepSpares` | crates/filesystem-graph/src/store.rs:165-535 | Batches and sessions of other volumes, refreshes, acknowledgements and prunes keep every link and object row of a volume in session |
| `ObservationRuns.StepWatched` | crates/filesystem-graph/src/store.rs:285-535 | Every step of any such run keeps the mirror of the session's own pages, and a step that ends the session ends it with exactly their snapshot |
| `ObservationRuns.MarkAndSweepRefinesRebuild` | crates/filesystem-graph/src/store.rs:451-595 | In any run of the whole graph, when a session ends the volume's links and linked metadata equal those of a rebuild from the pages since the last begin, and the staged checkpoint is authoritative |
| `ObservationProgress.PageAccepted` | crates/filesystem-graph/src/store.rs:351-376 | A page the rebuild accepts is accepted over stale rows exactly when each removal fits the rows it meets |
| `ObservationRuns.ScanNeverRefused` | crates/filesystem-graph/src/store.rs:2103-2350 | At any point of any such run the same holds for the next page, and a page of observations alone is always accepted |
| `Scenarios.StaleBindingRefusesRemoval` | crates/filesystem-graph/src/store.rs:2298-2350 | A run in which a removal under a new binding is refused although the rebuild accepts it |
| `ObservationSweeps.FinalizeCounts` | crates/filesystem-graph/src/store.rs:1453-1547 | A positive finalization call ends the session or lowers the number of calls left |
| `ObservationSweeps.SweepsTerminate` | crates/filesystem-graph/src/store.rs:451-535 | In any run of the whole graph without a new begin, a number of positive finalization calls fixed in advance ends a staged session, whatever bound each uses |
| `Controller.PageProvenance` | crates/filesystem-graph/src/store.rs:351-376 | A committed page adds only links it carried and leaves other volumes' checkpoints |
| `Controller.ReadActiveHeard` | crates/agent/src/observation.rs:363-391 | Reading a page credits its links and checkpoint to its own scan handle |
| `Controller.HandleSessionSound` | crates/agent/src/observation.rs:238-279 | A session visit keeps the invariant, and a session that ends had one source |
| `Controller.IncrementalSound` | crates/agent/src/observation.rs:281-361 | An incremental read consults and stores provider checkpoints only |
| `Controller.NextWorldSound` | crates/agent/src/observation.rs:198-391 | Every step and restart keeps the invariant |
| `Controller.ControllerSafety` | crates/agent/src/observation.rs:198-279 | Over all runs with restarts: provider checkpoints only, and one scan handle behind every completed session |
| `IncrementalReads.EventCoherent` | crates/filesystem-graph/src/store.rs:1597-1692 | Outside a session an event is accepted if and only if it makes sense after the volume's links and objects so far |
| `IncrementalReads.EventsCarried` | crates/filesystem-graph/src/store.rs:1597-1692 | Accepted events carry the volume's links and metadata from snapshot to snapshot, its state to the one asked for, and leave every other volume |
| `IncrementalReads.ReadHasOutcome` | crates/agent/src/observation.rs:281-361 | Changes are applied with their checkpoint as a whole, exactly when coherent, and an offline volume comes back; a gap or invalid checkpoint leaves NeedsReconciliation, an unavailable volume Offline, any other failure nothing |
| `IncrementalReads.IncrementalOutcome` | crates/agent/src/observation.rs:198-361 | That is the outcome of every step of every run that reads changes |
| `ControllerProgress.EveryVolumeVisited` | crates/agent/src/observation.rs:200-211 | As many turns as there are volumes visit each of them, however long scans are read in between |
| `ControllerProgress.TurnBegins` | crates/agent/src/observation.rs:212-229 | A volume without a checkpoint or in need of reconciliation gets a session of the right mode at its turn |
| `ControllerProgress.ScanCompletes` | crates/agent/src/observation.rs:238-391 | A scan delivered page by page ends, in a number of steps fixed once staged, with exactly the links and objects of its pages, online, at the final checkpoint |
| `ControllerMirror.CompletedIsDelivered` | crates/agent/src/observation.rs:238-391 | In every run, with failing pages, dying processes and restarts, an ended session leaves exactly the links and objects of all pages its one handle delivered, at its final checkpoint |
| `ObservationControllers.BrokerObservationController.Step` | crates/agent/src/observation.rs:198-236 | One step of the controller object is one step of the run model |
| `ObservationControllers.BrokerObservationController.HandleSessionOf` | crates/agent/src/observation.rs:238-279 | Session handling in place, as specified |
| `ObservationControllers.BrokerObservationController.ReadChanges` | crates/agent/src/observation.rs:281-361 | Incremental reading in place, as specified, with its failure branches; `IncrementalReads.ReadHasOutcome` says what it does |
| `ObservationControllers.BrokerObservationController.ReadPage` | crates/agent/src/observation.rs:363-391 | Page reading in place, as specified |
| `DurableSlots.ReadsLastCompleted` | crates/content-index/src/lib.rs:1316-1375 | After any history of completed, torn and abandoned writes, reading gives the last completed value |
| `DurableSlots.OverwritesNewestExactly` | crates/content-index/src/lib.rs:1334-1366 | The newest valid slot is the one overwritten if and only if the sequence has saturated |
| `DurableSlots.SaturationLoses` | crates/content-index/src/lib.rs:1334-1366 | A saturated state in which a torn write loses the value |
| `DurableSlots.DurableFile.WriteAtomic` | crates/content-index/src/lib.rs:1334-1366 | Writes the older slot with the next sequence, dying anywhere |
| `DurableSlots.DurableFile.Read` | crates/content-index/src/lib.rs:1316-1332 | Returns the newest valid slot's value, or the plain file |
| `ContentDelta.UpsertedText` | crates/content-index/src/lib.rs:633-691 | Whatever shortcut applies, the entry afterwards holds the text its document asks for |
| `ContentDelta.UpsertAllText` | crates/content-index/src/lib.rs:633-691 | The same for a whole delta of distinct identities |
| `ContentDelta.StoredDocumentExact` | crates/content-index/src/lib.rs:652-682 | The stored document is current if and only if the entry is new, equal, or changed in both source and text |
| `ContentDelta.RenameKeepsOldDocument` | crates/content-index/src/lib.rs:1960-1967 | A rename after which the old document stays stored |
| `ContentDelta.ContentIndexFile.ApplyDelta` | crates/content-index/src/lib.rs:612-703 | One commit or a duplicate error; index and counts are those of the specification |
| `ContentDelta.SummaryAccounts` | crates/content-index/src/lib.rs:633-691 | A summary counts every document once, skips exactly those without a text, and its additions and evictions are the change in size |
| `ContentProjection.DeltaText` | crates/content-index/src/lib.rs:1242-1275 | A coalesced batch leaves, identity by identity, what its last mutation asks for |
| `ContentProjection.CoalescingIsReplay` | crates/content-index/src/lib.rs:1242-1275 | Coalescing batches together or apart, or replaying one, leaves the same texts |
| `ContentProjection.CoalescedDistinct` | crates/content-index/src/lib.rs:1250-1271 | A coalesced delta never names an identity twice, so it is never refused |
| `ContentProjection.PageKeepsExactly` | crates/content-index/src/lib.rs:865-937 | A page, checkpointed or lost, keeps every identity right, still logged or still ahead if and only if each identity it lists is harmless, a condition on the state before the page |
| `ContentProjection.BatchKeepsSettled` | crates/content-index/src/lib.rs:1242-1279 | So does an acknowledged coalesced batch |
| `ContentProjection.CandidateStepKeeps` | crates/content-index/src/lib.rs:865-937 | So does every step, graph operations included |
| `ContentProjection.FuzzySnapshotExact` | crates/content-index/src/lib.rs:1022-1048 | Over every run of logged changes and harmless pages, a complete candidate caught up to the mark holds exactly the texts eligible now |
| `ContentScenarios.StalePageLosesText` | crates/content-index/src/lib.rs:865-937 | A run in which one harmful page leaves a complete, caught-up index without an eligible text |
| `ContentWorkers.Coalesce` | crates/content-index/src/lib.rs:1249-1269 | Upserts and deletions are the last mutations, in identity order |
| `ContentWorkers.ContentProjectionWorker.ProjectBatch` | crates/content-index/src/lib.rs:1242-1278 | Commits the coalesced batch, then acknowledges or dies; never refused |
| `ContentWorkers.ContentProjectionWorker.Project` | crates/content-index/src/lib.rs:1217-1292 | Bounds checked, missing checkpoint reported, backlog exact; without backlog exactly the eligible texts |
| `ContentGeneration.PageCount` | crates/content-index/src/lib.rs:926-931 | Added plus unchanged counts exactly the eligible documents of a page, first written or replayed |
| `ContentGeneration.PageKeepsResumable` | crates/content-index/src/lib.rs:894-937 | A page, checkpointed or lost, keeps the candidate resumable and its count exact |
| `ContentGeneration.ExhaustedIsExact` | crates/content-index/src/lib.rs:888-893 | At an empty page the index is exactly the eligible documents and the count check passes |
| `ContentGeneration.ResumedBuildExact` | crates/content-index/src/lib.rs:846-951 | After any page sizes and crashes the count is within the limit and exhaustion is exact |
| `ContentGeneration.FinishesExactly` | crates/content-index/src/lib.rs:865-893 | The page loop reaches activation if and only if fewer documents are eligible than the limit |
| `ContentGeneration.FullCatalogNeverFinishes` | crates/content-index/src/lib.rs:874-877 | One eligible document under a limit of one never completes, whatever the batches |
| `ContentValidation.PageCountsExactly` | crates/content-index/src/lib.rs:926-931 | What a page counts is all it leaves between the checkpoints if and only if it agrees with the entries it found |
| `ContentValidation.ValidationExact` | crates/content-index/src/lib.rs:1051-1064 | Over any moving catalog and lost checkpoints the count check passes if and only if every checkpointed page agreed and no entry lies beyond |
| `ContentValidation.ReplayedChangeFailsValidation` | crates/content-index/src/lib.rs:1058-1064 | A lost page, a changed document and its replay: the right index is refused |
| `GenerationManagers.CommitUpserts` | crates/content-index/src/lib.rs:911-912 | One page's commit and the count it contributes |
| `GenerationManagers.ContentGenerationManager.CollectGarbage` | crates/content-index/src/lib.rs:959-993 | Removes the failed and the retired beyond the newest retained, never the selected generation; dying leaves at most one directory half removed |
| `GenerationManagers.ContentGenerationManager.RecoverLifecycle` | crates/content-index/src/lib.rs:1101-1125 | Afterwards the selected generation is the only active one |
| `GenerationManagers.ContentGenerationManager.Open` | crates/content-index/src/lib.rs:746-763 | A restart keeps the invariant and leaves exactly the selected generation active |
| `GenerationManagers.ContentGenerationManager.RecoverOrCreate` | crates/content-index/src/lib.rs:995-1049 | Hands out the newest candidate if it fits, with the sequence it was created at, or a new empty one at the sequence given, and touches nothing that is not a candidate |
| `GenerationManagers.ContentGenerationManager.Create` | crates/content-index/src/lib.rs:1022-1048 | A created candidate is empty and its target is the sequence given; no other record changes |
| `GenerationManagers.CreatedStandsForNew` | crates/content-index/src/lib.rs:1022-1048 | Created at the graph's latest sequence, its record stands for the new candidate of the fuzzy snapshot |
| `GenerationManagers.PageIsStep` | crates/content-index/src/lib.rs:906-937 | A committed page, with its checkpoint or without, is one page step of that candidate |
| `GenerationManagers.ContentGenerationManager.UniqueId` | crates/content-index/src/lib.rs:1157-1168 | The first unused suffix, or none when all ten thousand are taken |
| `GenerationManagers.ContentGenerationManager.SwitchPointer` | crates/content-index/src/lib.rs:1069-1093 | The active selection moves to a validated generation and stays sound at every write |
| `GenerationManagers.ContentGenerationManager.ActivateValidated` | crates/content-index/src/lib.rs:1051-1095 | The active selection changes only after the count check; completion leaves no other generation newly active |
| `GenerationManagers.ContentGenerationManager.CommitPage` | crates/content-index/src/lib.rs:906-937 | A committed page keeps the candidate resumable, and its target, whether or not its checkpoint was written |
| `GenerationManagers.ContentGenerationManager.BuildPage` | crates/content-index/src/lib.rs:866-937 | One round stops at the limit that is met, completes at an empty page, or commits a page that fits |
| `GenerationManagers.ContentGenerationManager.BuildPages` | crates/content-index/src/lib.rs:865-938 | Ends complete and exact, at a named capacity, out of batches, or dead; each committed page had room for its forecast growth, and a size or disk limit is one the next page would have met; pages alone lead from the stored candidate to the one left |
| `GenerationManagers.ContentGenerationManager.ResumeInitialGeneration` | crates/content-index/src/lib.rs:846-951 | Any call, dying anywhere and under any limits, keeps all candidates resumable, never fails validation, moves the active selection only to the exact index, and ends complete rather than document-limited if and only if fewer documents are eligible than the limit; every record keeps its target, a new one has the graph's latest sequence, and pages alone lead from the resumed or new candidate to what is left |
| `Governor.PausedAdmitsNothing` | crates/resource-governor/src/lib.rs:504-561 | A budget is paused exactly when it admits no batch, no time, no writer and no maintenance |
| `Governor.NextSafe` | crates/resource-governor/src/lib.rs:277-374 | Every call keeps each danger confined to paused modes and, workload reports aside, boosting trusted |
| `Governor.GovernorSafety` | crates/resource-governor/src/lib.rs:393-494 | On every call sequence each danger pauses work, and boosting implies trusted idleness, backlog and no battery |
| `Governor.WorkloadKeepsTrustExactly` | crates/resource-governor/src/lib.rs:330-337 | After a workload report boosting is trusted if and only if it was not boosting, the user is active, or idle with backlog |
| `Governor.WorkloadBreaksTrust` | crates/resource-governor/src/lib.rs:330-337 | A run of calls after which a workload report leaves boosting not trusted |
| `Governor.OnlyRelaxationLoosens` | crates/resource-governor/src/lib.rs:393-485 | Work grows only through a hysteretic relaxation, a telemetry recovery or a cancelled boost |
| `Governor.CooldownRespected` | crates/resource-governor/src/lib.rs:449-494 | On every call sequence a relaxation comes at least the cooldown after the last mode change, or one window less when that change was the telemetry recovery |
| `Governor.RecoveryShortensCooldown` | crates/resource-governor/src/lib.rs:401-416 | A run in which that one window is really missing |
| `Governor.RecoveredBoostExactly` | crates/resource-governor/src/lib.rs:401-485 | After a recovery quiet windows boost at exactly window max(1, R, C) - 1, which is short of the cooldown if and only if C is at least max(1, R) |
| `Governor.RecoveredCooldownExact` | crates/resource-governor/src/lib.rs:401-485 | The relaxing state itself has seen that many windows, so it meets the cooldown under exactly that condition |
| `Governor.LossPausesLongEnough` | crates/resource-governor/src/lib.rs:314-327 | Lost telemetry pauses work for at least the recovery windows, counted with telemetry back |
| `Governor.ActiveReleasedExactly` | crates/resource-governor/src/lib.rs:277-283 | After a request or a search report in a calm state quiet windows leave Active at exactly the release window, H - 1 + max(R, C, 1) for a hold of two or more |
| `Governor.UserReleasedExactly` | crates/resource-governor/src/lib.rs:330-337 | The same after an active user is reported and gone |
| `GovernorPressure.CallDecides` | crates/resource-governor/src/lib.rs:393-485 | With trusted telemetry every window and idle report decides the mode from the reported fields, the hold and the two streaks by one table |
| `GovernorPressure.PressurePausesExactly` | crates/resource-governor/src/lib.rs:418-447 | On every call sequence of low memory, high CPU or busy disk, a window ends in Pressure, paused, at once under critical memory and otherwise exactly from the window that completes the streak; until then user, battery or the mode before decide |
| `GovernorPressure.OverloadPausesAtWindow` | crates/resource-governor/src/lib.rs:425-447 | Without critical memory, from a zero streak, that is exactly window max(1, pressure windows), whatever other calls come between |
| `GovernorPressure.StarvedWindowUncounted` | crates/resource-governor/src/lib.rs:417-424 | Two windows of low memory, the first critical, that leave work running on battery under a bound of two |
| `GovernorPressure.RecoversExactly` | crates/resource-governor/src/lib.rs:393-416 | Lost telemetry is trusted again exactly from the max(1, recovery windows)-th window with telemetry |
| `ResourceGovernors.MillisCeil` | crates/resource-governor/src/lib.rs:497-502 | The least whole number of milliseconds covering a duration, up to saturation |
| `ResourceGovernors.ResourceGovernor.ChangeMode` | crates/resource-governor/src/lib.rs:487-494 | A transition of the object is the specified one |
| `ResourceGovernors.ResourceGovernor.Reevaluate` | crates/resource-governor/src/lib.rs:393-485 | The evaluation in place is the specified one; `GovernorPressure.CallDecides` gives its table |
| `ResourceGovernors.ResourceGovernor.BeginInteractiveRequest` | crates/resource-governor/src/lib.rs:277-283 | One call of the state machine, with its decision |
| `ResourceGovernors.ResourceGovernor.ReportSearchLatency` | crates/resource-governor/src/lib.rs:286-299 | One call of the state machine, with its decision |
| `ResourceGovernors.ResourceGovernor.ReportSystemPressure` | crates/resource-governor/src/lib.rs:301-309 | One call of the state machine, with its decision |
| `ResourceGovernors.ResourceGovernor.ReportResourceUnavailable` | crates/resource-governor/src/lib.rs:314-327 | One call of the state machine, with its decision |
| `ResourceGovernors.ResourceGovernor.ReportWorkloadState` | crates/resource-governor/src/lib.rs:330-337 | One call of the state machine, with its decision |
| `ResourceGovernors.ResourceGovernor.ReportBacklogSize` | crates/resource-governor/src/lib.rs:340-347 | One call of the state machine, with its decision |
| `ResourceGovernors.ResourceGovernor.ReportUserIdleDuration` | crates/resource-governor/src/lib.rs:352-365 | One call of the state machine, with its decision |
| `ResourceGovernors.ResourceGovernor.AdvancePolicyWindow` | crates/resource-governor/src/lib.rs:368-374 | One call of the state machine, with its decision |
| `BrokerScan.ProduceKeeps` | crates/fs-service/src/lib.rs:345-381 | Sending under backpressure loses and reorders nothing |
| `BrokerScan.ReceiveKeeps` | crates/fs-service/src/lib.rs:206-219 | Taking one message delivers the next event, or a terminal state only after every event |
| `BrokerScan.InterleavingConserves` | crates/fs-service/src/lib.rs:172-182 | Under every interleaving delivered, queued and unsent messages make up the provider's program |
| `BrokerScan.EveryRoundDelivers` | crates/fs-service/src/lib.rs:206-219 | While the worker lives and sends, each round delivers exactly the next event, and the round after the last its result |
| `BrokerScan.ReceivePage` | crates/fs-service/src/lib.rs:203-219 | One page is the next events in emission order, under any worker schedule; with room left it saw the end or emptied the queue of a worker still at work |
| `BrokerScan.BrokerService.StartScan` | crates/fs-service/src/lib.rs:142-193 | Provider failure, missing volume, cancellation or deadline and the limit of four are reported in that order and start nothing; otherwise a new identity |
| `BrokerScan.BrokerService.ReadScanPage` | crates/fs-service/src/lib.rs:195-248 | An incomplete page is as above and never empty while an event is queued; a scan in its terminal state is answered with it, after every event or because its worker died; other scans are untouched |
| `BrokerScan.ReadsTerminate` | crates/fs-service/src/lib.rs:195-248 | Once the worker has sent what it will, at most as many positive reads as queued messages stay incomplete, and together they hand out the next events |
| `BrokerScan.BrokerService.CancelScan` | crates/fs-service/src/lib.rs:250-260 | Exactly that scan goes |
| `BrokerScan.BrokerService.AdmitRequest` | crates/fs-service/src/lib.rs:66-77 | A request is refused exactly when its identifier is among the last 4,096 admitted |
| `BrokerScan.ReplayWindow.Admit` | crates/fs-service/src/lib.rs:308-319 | Rejects exactly the identifiers among the last `capacity` admitted |
| `Grams.GramInjective` | crates/substring-spike/src/index.rs:515-525 | Hex-encoded UTF-8 grams of equal width are equal only for equal windows |
| `Grams.MakeGrams` | crates/substring-spike/src/index.rs:509-527 | Lists every window's gram in order, and none for shorter values |
| `Grams.GramQuery` | crates/substring-spike/src/index.rs:470-480 | A term query for one gram, a phrase query otherwise |
| `Grams.GramsLocate` | crates/substring-spike/src/index.rs:509-527 | The query's grams follow each other at a position if and only if the query occurs there |
| `Grams.RetrievalExact` | crates/substring-spike/src/index.rs:470-480 | For every query at least as long as the width, matching is exactly substring containment |

## Premises

- SHA-256 digests are represented by what they digest; a torn slot fails its checksum.
- Identities of sixteen bytes are natural numbers in byte order; a link identity belongs to one
  volume (`ObservationRuns.ScanNeverRefused`), because the stale-conflict query compares
  generations without looking at the old link's volume.
- Availability claims hold for runs of quiet batches (`Catalog.QuietBatch`, an exact condition); a
  rebuild is read while every availability is current and without a graph commit in between its
  pages; content pages are harmless (`ContentProjection.PageHarmless`, an exact condition).
- While a volume is in a scan session, its rows change through that session alone, and no other
  volume's batch binds one of its link identities (`ObservationRuns.Respects`,
  `ControllerMirror.RespectsWorld`).
- New consumers register at or above the pruned point, and nothing above a content candidate's
  captured sequence is pruned; its batches are durable ones.
- The eligibility and text of a document are functions of the document, and unchanged sources read
  the same (`ContentDelta.Consistent`); a resumed generation sees one catalog and one policy.
- Tantivy commits are atomic, delete-then-add by identity, and phrase queries match consecutive
  positions; the library tokenizer leaves a hex gram whole.

## Left out

- DurableSlots.ReadsLastCompleted: histories shorter than the 64-bit sequence limit; the behaviour at the limit has its own lemmas.
- GenerationManagers.ContentGenerationManager.ResumeInitialGeneration: byte and disk arithmetic is unbounded rather than saturating at 64 bits; timestamps within one call are one value.
- BrokerScan.BrokerService.StartScan: the wrap-around of 64-bit scan identities is not represented.
- Legacy JSON payload rows, their compaction and the legacy direct content index, with `sync_from_graph`.
- Overflow errors of 63-bit generation columns, reconciliation reasons, volume display fields and the lower-casing of extensions.
- Volume selection and mount matching, discovery cadence, and the broker transport with its validation and capability answers.
- Storage statistics, integrity audits, page reclamation and schema migrations: SQLite behaviour only.
- Search ranking, tokenization, Unicode normalization and the catalog index's own trigram retrieval, which depends on a library tokenizer.
- Desktop, CLI, fixtures, benchmarks, and every platform call.
