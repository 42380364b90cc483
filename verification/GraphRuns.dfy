/** Invariants of every reachable state of the graph, over any interleaving of its operations. */
module GraphRuns {
  import opened Core
  import opened Schema
  import opened GraphSpec
  import opened GraphTables
  import opened Replay
  import opened Catalog
  import opened Maintenance
  import opened Outbox

  datatype Step =
    | ApplyStep(batch: Batch, outboxMode: OutboxMode)
    | BeginScanStep(volume: VolumeId, mode: ScanMode)
    | ScanPageStep(volume: VolumeId, events: seq<FilesystemEvent>)
    | StageStep(volume: VolumeId, checkpoint: ProviderCheckpoint)
    | FinalizeStep(volume: VolumeId, maximum: nat)
    | RefreshVolumeStep(maximum: nat)
    | RefreshPathsStep(maximum: nat)
    | CompletePathJobStep(job: nat)
    | AcknowledgeStep(consumer: string, sequence: nat, indexGeneration: nat)
    | ResetConsumerStep(consumer: string)
    | PruneStep
    | PruneBoundedStep(maximum: nat, withoutConsumers: bool)

  function OrKeep(db: Db, r: Result<Db>): Db {
    if r.Ok? then r.value else db
  }

  function CompletePathJob(db: Db, job: nat): Db {
    if job < |db.pathJobs| then db.(pathJobs := db.pathJobs[job := db.pathJobs[job].(pending := false)]) else db
  }

  /** The committed state after one operation; a failed operation commits nothing. */
  ghost function Next(db: Db, step: Step): Db {
    match step
    case ApplyStep(b, mode) => OrKeep(db, ApplyBatch(db, b, mode))
    case BeginScanStep(v, mode) => BeginScan(db, v, mode)
    case ScanPageStep(v, events) => OrKeep(db, ApplyScanPage(db, v, events))
    case StageStep(v, checkpoint) => OrKeep(db, StageCheckpoint(db, v, checkpoint))
    case FinalizeStep(v, maximum) =>
      var r := FinalizeScan(db, v, maximum); if r.Ok? then r.value.db else db
    case RefreshVolumeStep(maximum) => OrKeep(db, RefreshVolume(db, maximum))
    case RefreshPathsStep(maximum) => OrKeep(db, RefreshPaths(db, maximum))
    case CompletePathJobStep(job) => CompletePathJob(db, job)
    case AcknowledgeStep(c, sequence, g) => OrKeep(db, Acknowledge(db, c, sequence, g))
    case ResetConsumerStep(c) => db.(consumers := db.consumers - {c})
    case PruneStep => PruneConsumed(db)
    case PruneBoundedStep(maximum, none) => OrKeep(db, PruneBounded(db, maximum, none))
  }

  /** No link of the volume is older than its sweep once the object sweep has begun. */
  ghost predicate SessionSound(db: Db, v: VolumeId)
    requires v in db.sessions
  {
    var s := db.sessions[v];
    && v in db.volumes && s.cutoff <= db.volumes[v].generation
    && (s.phase == Scanning <==> s.staged.None?)
    && (s.staged.Some? ==> s.staged.value.volume == v)
    && (s.phase == SweepingObjects ==> StaleLinks(db, v, s.cutoff) == {})
  }

  ghost predicate SessionsSound(db: Db) {
    forall v :: v in db.sessions ==> SessionSound(db, v)
  }

  /** The safety invariant: tables, catalog, dates, sessions and outbox. */
  ghost predicate Sound(db: Db) {
    && CatalogSound(db) && Dated(db) && SessionsSound(db) && OutboxSound(db) && WellIdentified(db.outbox)
  }

  lemma SoundSession(db: Db, v: VolumeId)
    requires Sound(db) && v in db.sessions
    ensures SessionSound(db, v)
  {
  }

  lemma SoundParts(db: Db)
    requires Sound(db)
    ensures CatalogSound(db) && OutboxSound(db)
  {
  }

  lemma SoundTables(db: Db)
    requires Sound(db)
    ensures TablesSound(db)
  {
  }

  lemma EmptySound()
    ensures Sound(EMPTY_DB) && TrackedExcept(EMPTY_DB, {})
  {
  }

  /** A new consumer registers at or above the pruned point. */
  ghost predicate Admissible(db: Db, step: Step) {
    step.AcknowledgeStep? && step.consumer !in db.consumers ==> PrunedThrough(db) <= step.sequence
  }

  // ----- Batches

  /** How a committed batch changes links, dates and sessions. */
  ghost predicate BatchEffect(db: Db, next: Db, v: VolumeId) {
    var g := Generation(db, v) + 1;
    && LinksFrom(db, next, v, g) && Generation(next, v) == g && v in next.volumes
    && db.volumes.Keys <= next.volumes.Keys
    && (forall w :: w != v ==> Generation(next, w) == Generation(db, w))
    && next.sessions == db.sessions && next.consumers == db.consumers
  }

  /** A committed batch holds the tables its mutations left, its own checkpoint and generation. */
  lemma BatchTables(db: Db, b: Batch, mode: OutboxMode)
    requires CatalogSound(db) && ApplyBatch(db, b, mode).Ok?
    ensures ValidBatch(b) && Mutated(db, b).Ok?
    ensures var tx, next, g := Mutated(db, b).value, ApplyBatch(db, b, mode).value, Generation(db, b.volume) + 1;
      && TablesSound(tx.db) && LinksFrom(db, tx.db, b.volume, g) && SameGenerations(db, tx.db)
      && db.volumes.Keys <= tx.db.volumes.Keys && b.volume in tx.db.volumes
      && next.links == tx.db.links && next.objects == tx.db.objects
      && next.volumes == tx.db.volumes[b.volume := tx.db.volumes[b.volume].(generation := g)]
      && next.sessions == db.sessions && next.consumers == db.consumers
      && next.checkpoints == db.checkpoints[b.volume := b.checkpoint]
  {
    hide TablesSound, FaithfulExcept, RowsShaped, ApplyAll, SyncAll, Ascending, LinksFrom, SameGenerations;
    var g := Generation(db, b.volume) + 1;
    ApplyAllKeeps(Tx(db, {}), b.mutations, g, b.volume);
    var tx := Mutated(db, b).value;
    SyncAllFresh(tx.db, Ascending(tx.affected), g, mode);
  }

  lemma BatchHasEffect(db: Db, b: Batch, mode: OutboxMode)
    requires CatalogSound(db) && ApplyBatch(db, b, mode).Ok?
    ensures BatchEffect(db, ApplyBatch(db, b, mode).value, b.volume)
  {
    hide CatalogSound, ApplyBatch, Mutated, TablesSound;
    BatchTables(db, b, mode);
    var tx := Mutated(db, b).value;
    assert SameGenerations(db, tx.db);
  }

  lemma EffectKeepsSessions(db: Db, next: Db, v: VolumeId)
    requires BatchEffect(db, next, v) && Dated(db) && SessionsSound(db)
    ensures Dated(next) && SessionsSound(next)
  {
    forall w | w in next.sessions ensures SessionSound(next, w) {
      assert SessionSound(db, w);
      assert Generation(next, w) >= Generation(db, w);
      if db.sessions[w].phase == SweepingObjects {
        assert StaleLinks(next, w, db.sessions[w].cutoff) <= StaleLinks(db, w, db.sessions[w].cutoff);
      }
    }
  }

  lemma {:induction false} SyncAllRebuildable(db: Db, ls: seq<LinkId>, version: nat)
    requires SyncAll(db, ls, version, Rebuildable).Ok?
    ensures var next := SyncAll(db, ls, version, Rebuildable).value;
      next.outbox == db.outbox && next.sequenceMark == db.sequenceMark
  {
    if ls != [] {
      SyncAllRebuildable(db, ls[..|ls| - 1], version);
    }
  }

  /** A batch that suppresses the log leaves it untouched, and no consumer is registered. */
  lemma RebuildableOutbox(db: Db, b: Batch)
    requires CatalogSound(db) && ApplyBatch(db, b, Rebuildable).Ok?
    ensures var next := ApplyBatch(db, b, Rebuildable).value;
      next.outbox == db.outbox && next.sequenceMark == db.sequenceMark && next.consumers == db.consumers == map[]
  {
    var g := Generation(db, b.volume) + 1;
    ApplyAllKeeps(Tx(db, {}), b.mutations, g, b.volume);
    var tx := Mutated(db, b).value;
    SyncAllRebuildable(tx.db, Ascending(tx.affected), g);
    SyncAllFresh(tx.db, Ascending(tx.affected), g, Rebuildable);
  }

  lemma LoggedKeepsOutbox(db: Db, next: Db)
    requires OutboxSound(db) && WellIdentified(db.outbox) && next.consumers == db.consumers
    requires |db.outbox| <= |next.outbox| && Logged(db, next, NewRows(db, next))
    ensures OutboxSound(next) && WellIdentified(next.outbox)
  {
    AppendedKeeps(db, next, NewRows(db, next));
  }

  lemma BatchKeepsSound(db: Db, b: Batch, mode: OutboxMode)
    requires Sound(db) && ApplyBatch(db, b, mode).Ok?
    ensures Sound(ApplyBatch(db, b, mode).value)
  {
    var next := ApplyBatch(db, b, mode).value;
    BatchKeepsCatalog(db, b, mode);
    BatchHasEffect(db, b, mode);
    EffectKeepsSessions(db, next, b.volume);
    if mode == Durable {
      BatchLogged(db, b);
      LoggedKeepsOutbox(db, next);
    } else {
      RebuildableOutbox(db, b);
    }
  }

  // ----- Observation sessions

  lemma BeginScanKeeps(db: Db, v: VolumeId, mode: ScanMode)
    requires Sound(db)
    ensures Sound(BeginScan(db, v, mode))
    ensures TrackedExcept(db, {}) ==> TrackedExcept(BeginScan(db, v, mode), {})
  {
    BeginScanKeepsSessions(db, v, mode);
    if TrackedExcept(db, {}) {
      BeginScanTracks(db, v, mode);
    }
    hide SessionsSound, Dated, TrackedExcept, OutboxSound, WellIdentified;
  }

  lemma BeginScanKeepsSessions(db: Db, v: VolumeId, mode: ScanMode)
    requires SessionsSound(db) && Dated(db)
    ensures SessionsSound(BeginScan(db, v, mode)) && Dated(BeginScan(db, v, mode))
  {
    var next := BeginScan(db, v, mode);
    forall w | w in next.sessions ensures SessionSound(next, w) {
      if w != v {
        assert SessionSound(db, w);
        assert StaleLinks(next, w, db.sessions[w].cutoff) == StaleLinks(db, w, db.sessions[w].cutoff);
      }
    }
  }

  lemma BeginScanTracks(db: Db, v: VolumeId, mode: ScanMode)
    requires TrackedExcept(db, {})
    ensures TrackedExcept(BeginScan(db, v, mode), {})
  {
    forall l | l in db.docs ensures Tracked(BeginScan(db, v, mode), l) {
      assert Tracked(db, l);
    }
  }

  lemma StageKeeps(db: Db, v: VolumeId, checkpoint: ProviderCheckpoint)
    requires Sound(db) && StageCheckpoint(db, v, checkpoint).Ok?
    ensures Sound(StageCheckpoint(db, v, checkpoint).value)
    ensures TrackedExcept(db, {}) ==> TrackedExcept(StageCheckpoint(db, v, checkpoint).value, {})
  {
    var next := StageCheckpoint(db, v, checkpoint).value;
    forall w | w in next.sessions ensures SessionSound(next, w) {
      assert SessionSound(db, w);
      assert StaleLinks(next, w, db.sessions[w].cutoff) == StaleLinks(db, w, db.sessions[w].cutoff);
    }
    SameCatalogKeeps(db, next);
  }

  /** Bumping the generation of a volume and moving its session to a later sweep phase. */
  lemma LaterPhaseKeeps(db: Db, next: Db, v: VolumeId, s: Session)
    requires SessionsSound(db) && Dated(db) && v in db.volumes && v in db.sessions
    requires next.links == db.links
    requires next.volumes == db.volumes[v := db.volumes[v].(generation := Generation(db, v) + 1)]
    requires next.sessions == db.sessions[v := s]
    requires s != db.sessions[v] ==>
      s == db.sessions[v].(phase := SweepingObjects) && s.staged.Some? && StaleLinks(db, v, s.cutoff) == {}
    ensures Dated(next) && SessionsSound(next)
  {
    forall w | w in next.sessions ensures SessionSound(next, w) {
      assert SessionSound(db, w);
      assert StaleLinks(next, w, db.sessions[w].cutoff) == StaleLinks(db, w, db.sessions[w].cutoff);
    }
  }

  lemma FewerLinksKeep(db: Db, next: Db)
    requires SessionsSound(db) && Dated(db)
    requires next.volumes == db.volumes && next.sessions == db.sessions
    requires forall l :: l in next.links ==> l in db.links && next.links[l] == db.links[l]
    ensures Dated(next) && SessionsSound(next)
  {
    forall w | w in next.sessions ensures SessionSound(next, w) {
      assert SessionSound(db, w);
      assert StaleLinks(next, w, db.sessions[w].cutoff) <= StaleLinks(db, w, db.sessions[w].cutoff);
    }
  }

  /** The swept tables before the session moves on. */
  ghost function SweptLinks(db: Db, v: VolumeId, maximum: nat): Result<Db>
    requires v in db.sessions && v in db.volumes
  {
    SweepPageBound(db, v, db.sessions[v].cutoff, maximum);
    SweepLinks(db, RowsOf(db, LinkSweepPage(db, v, db.sessions[v].cutoff, maximum)), Generation(db, v) + 1)
  }

  lemma SweptLinksKeep(db: Db, v: VolumeId, maximum: nat)
    requires Sound(db) && v in db.sessions && v in db.volumes
    ensures SweptLinks(db, v, maximum).Ok?
    ensures var swept := SweptLinks(db, v, maximum).value;
      && Kept(db, swept) && swept.volumes == db.volumes && swept.sessions == db.sessions && swept.consumers ==
        db.consumers
      && |db.outbox| <= |swept.outbox| && Logged(db, swept, NewRows(db, swept))
      && (|LinkSweepPage(db, v, db.sessions[v].cutoff, maximum)| < maximum ==>
           StaleLinks(swept, v, db.sessions[v].cutoff) == {})
  {
    hide Sound, CatalogSound, TrackedExcept, LastProjected, LinkSweepPage, RowsOf, SweepLinks, Logged, StaleLinks,
      SameMetadataAll;
    SoundParts(db);
    var cutoff := db.sessions[v].cutoff;
    SweepPageBound(db, v, cutoff, maximum);
    var page := LinkSweepPage(db, v, cutoff, maximum);
    var rows := RowsOf(db, page);
    SweepLinksKeeps(db, rows, Generation(db, v) + 1);
    var swept := SweptLinks(db, v, maximum).value;
    SweptKeeps(db, swept, Ids(rows));
    if |page| < maximum {
      NoneStaleAfter(db, swept, v, cutoff);
    }
  }

  lemma SweptKeeps(db: Db, swept: Db, removed: set<LinkId>)
    requires Sound(db) && Swept(db, swept, removed)
    ensures Kept(db, swept)
  {
    hide CatalogSound, TrackedExcept, LastProjected, SameMetadataAll;
    FewerLinksKeep(db, swept);
    LoggedKeepsOutbox(db, swept);
  }

  lemma NoneStaleAfter(db: Db, swept: Db, v: VolumeId, cutoff: nat)
    requires swept.links == db.links - StaleLinks(db, v, cutoff)
    ensures StaleLinks(swept, v, cutoff) == {}
  {
  }

  /** A volume's next generation, with its session in the same or the next sweep phase. */
  ghost function MovedOn(swept: Db, v: VolumeId, done: bool): Db
    requires v in swept.volumes && v in swept.sessions
  {
    var moved := swept.sessions[v].(phase := SweepingObjects);
    var phased := if done then swept.(sessions := swept.sessions[v := moved]) else swept;
    SetGeneration(phased, v, Generation(swept, v) + 1)
  }

  lemma MovedOnKeeps(swept: Db, v: VolumeId, done: bool)
    requires Sound(swept) && v in swept.sessions && v in swept.volumes && swept.sessions[v].phase == SweepingLinks
    requires done ==> StaleLinks(swept, v, swept.sessions[v].cutoff) == {}
    ensures var next := MovedOn(swept, v, done);
      && Kept(swept, next) && next.outbox == swept.outbox && next.sequenceMark == swept.sequenceMark
      && next.consumers == swept.consumers && next.docs == swept.docs
  {
    SoundSession(swept, v);
    var next := MovedOn(swept, v, done);
    hide CatalogSound, TrackedExcept, LastProjected, StaleLinks;
    LaterPhaseKeeps(swept, next, v, next.sessions[v]);
    SameCatalogKeeps(swept, next);
  }

  /** One bounded link sweep: it removes only stale links, and all of them when it moves on. */
  lemma SweepLinksStepKeeps(db: Db, v: VolumeId, maximum: nat)
    requires Sound(db) && v in db.sessions && db.sessions[v].phase == SweepingLinks
    ensures v in db.volumes
    ensures var r := SweepLinksStep(db, v, maximum, Generation(db, v) + 1);
      && r.Ok? && !r.value.completed && Kept(db, r.value.db)
      && r.value.db.consumers == db.consumers
      && |db.outbox| <= |r.value.db.outbox| && Logged(db, r.value.db, NewRows(db, r.value.db))
  {
    hide Sound, TrackedExcept, LastProjected, LinkSweepPage, StaleLinks, SweepLinks, RowsOf;
    SoundSession(db, v);
    SweptLinksKeep(db, v, maximum);
    var swept := SweptLinks(db, v, maximum).value;
    var done := |LinkSweepPage(db, v, db.sessions[v].cutoff, maximum)| < maximum;
    MovedOnKeeps(swept, v, done);
    var next := MovedOn(swept, v, done);
    assert SweepLinksStep(db, v, maximum, Generation(db, v) + 1) == Ok(Finalized(next, false));
    SameDocsSameProjected(swept, next);
  }

  ghost predicate Kept(db: Db, next: Db) {
    Sound(next) && (TrackedExcept(db, {}) ==> TrackedExcept(next, {}))
  }

  lemma TombstonedUnlinked(db: Db, keys: set<FileKey>)
    requires CatalogSound(db) && forall k :: k in keys ==> LinksOf(db.links, k) == {}
    ensures CatalogSound(db.(objects := TombstoneAll(db.objects, keys)))
    ensures TrackedExcept(db, {}) ==> TrackedExcept(db.(objects := TombstoneAll(db.objects, keys)), {})
  {
    var next := db.(objects := TombstoneAll(db.objects, keys));
    forall l | l in db.links ensures db.links[l].key !in keys {
      assert l in LinksOf(db.links, db.links[l].key);
    }
    forall l | l in next.docs ensures RowMatches(next.objects, next.links, l, next.docs[l]) {
      assert RowMatches(db.objects, db.links, l, db.docs[l]);
    }
    if TrackedExcept(db, {}) {
      forall l | l in next.docs ensures Tracked(next, l) {
        assert Tracked(db, l);
      }
    }
  }

  lemma ObjectPageUnlinked(db: Db, v: VolumeId, cutoff: nat, maximum: nat)
    ensures KeysOf(v, ObjectSweepPage(db, v, cutoff, maximum)) <= StaleObjects(db, v, cutoff)
  {
    var all := set k | k in StaleObjects(db, v, cutoff) :: Aged(db.objects[k].observed, k.file);
    ByAgeEnumerates(all);
    var page := ObjectSweepPage(db, v, cutoff, maximum);
    forall a | a in page ensures FileKey(v, a.id) in StaleObjects(db, v, cutoff) {
      assert a in ByAge(all);
    }
  }

  lemma ActivateKeeps(db: Db, v: VolumeId)
    requires Sound(db) && v in db.sessions && db.sessions[v].staged.Some?
    ensures var r := Activate(db, v, Generation(db, v) + 1);
      r.Ok? && Sound(r.value) && (TrackedExcept(db, {}) ==> TrackedExcept(r.value, {}))
  {
    assert SessionSound(db, v);
    var next := Activate(db, v, Generation(db, v) + 1).value;
    forall w | w in next.sessions ensures SessionSound(next, w) {
      assert SessionSound(db, w);
      assert StaleLinks(next, w, db.sessions[w].cutoff) == StaleLinks(db, w, db.sessions[w].cutoff);
    }
    if TrackedExcept(db, {}) {
      forall l | l in next.docs ensures Tracked(next, l) {
        assert Tracked(db, l);
      }
    }
  }

  lemma ObjectPageKeeps(db: Db, v: VolumeId, maximum: nat)
    requires Sound(db) && v in db.sessions
    ensures var page := ObjectSweepPage(db, v, db.sessions[v].cutoff, maximum);
      Kept(db, db.(objects := TombstoneAll(db.objects, KeysOf(v, page))))
  {
    var page := ObjectSweepPage(db, v, db.sessions[v].cutoff, maximum);
    ObjectPageUnlinked(db, v, db.sessions[v].cutoff, maximum);
    TombstonedUnlinked(db, KeysOf(v, page));
    FewerLinksKeep(db, db.(objects := TombstoneAll(db.objects, KeysOf(v, page))));
  }

  lemma GenerationKeeps(db: Db, v: VolumeId)
    requires Sound(db) && v in db.sessions && v in db.volumes
    ensures Kept(db, SetGeneration(db, v, Generation(db, v) + 1))
  {
    var next := SetGeneration(db, v, Generation(db, v) + 1);
    LaterPhaseKeeps(db, next, v, db.sessions[v]);
    SameCatalogKeeps(db, next);
  }

  ghost predicate SameCatalogLog(db: Db, next: Db) {
    && next.docs == db.docs && next.outbox == db.outbox && next.sequenceMark == db.sequenceMark
    && next.consumers == db.consumers
  }

  lemma KeptTransitive(a: Db, b: Db, c: Db)
    requires Kept(a, b) && Kept(b, c)
    ensures Kept(a, c)
  {
  }

  /** The state one object sweep commits. */
  ghost function AfterObjects(db: Db, v: VolumeId, maximum: nat): Db
    requires v in db.sessions && v in db.volumes && db.sessions[v].staged.Some?
  {
    var page := ObjectSweepPage(db, v, db.sessions[v].cutoff, maximum);
    var swept := db.(objects := TombstoneAll(db.objects, KeysOf(v, page)));
    if |page| < maximum then Activate(swept, v, Generation(db, v) + 1).value
    else SetGeneration(swept, v, Generation(db, v) + 1)
  }

  lemma SweepObjectsShape(db: Db, v: VolumeId, maximum: nat)
    requires v in db.sessions && v in db.volumes && db.sessions[v].staged.Some?
    ensures var r := SweepObjectsStep(db, v, maximum, Generation(db, v) + 1);
      && r.Ok? && r.value.db == AfterObjects(db, v, maximum) && SameCatalogLog(db, r.value.db)
      && r.value.completed == (|ObjectSweepPage(db, v, db.sessions[v].cutoff, maximum)| < maximum)
      && (v in r.value.db.sessions <==> !r.value.completed) && r.value.db.links == db.links
      && (forall k :: k in db.objects ==>
           k in r.value.db.objects && r.value.db.objects[k].metadata == db.objects[k].metadata)
  {
    hide ObjectSweepPage, KeysOf;
  }

  lemma SweepObjectsStepKeeps(db: Db, v: VolumeId, maximum: nat)
    requires Sound(db) && v in db.sessions && v in db.volumes && db.sessions[v].staged.Some?
    ensures Kept(db, AfterObjects(db, v, maximum))
  {
    hide Sound, TrackedExcept, TombstoneAll, KeysOf, ObjectSweepPage;
    var page := ObjectSweepPage(db, v, db.sessions[v].cutoff, maximum);
    var swept := db.(objects := TombstoneAll(db.objects, KeysOf(v, page)));
    ObjectPageKeeps(db, v, maximum);
    if |page| < maximum {
      ActivateKeeps(swept, v);
    } else {
      GenerationKeeps(swept, v);
    }
    KeptTransitive(db, swept, AfterObjects(db, v, maximum));
  }

  // ----- Every step

  lemma FinalizeKeeps(db: Db, v: VolumeId, maximum: nat)
    requires Sound(db) && FinalizeScan(db, v, maximum).Ok?
    ensures Kept(db, FinalizeScan(db, v, maximum).value.db)
  {
    hide Sound, TrackedExcept;
    if maximum > 0 {
      SoundSession(db, v);
      if db.sessions[v].phase == SweepingLinks {
        SweepLinksStepKeeps(db, v, maximum);
      } else {
        SweepObjectsShape(db, v, maximum);
        SweepObjectsStepKeeps(db, v, maximum);
      }
    }
  }

  lemma RefreshKeeps(db: Db, next: Db)
    requires Sound(db) && Refreshed(db, next)
    ensures Sound(next)
  {
    LoggedKeepsOutbox(db, next);
    FewerLinksKeep(db, next);
  }

  lemma DropKeeps(db: Db, next: Db, k: nat)
    requires Sound(db) && DropsConsumed(db, next, k)
    ensures Sound(next) && (TrackedExcept(db, {}) ==> TrackedExcept(next, {}))
  {
    PruneKeeps(db, k);
    FewerLinksKeep(db, next);
    SameCatalogKeeps(db, next);
  }

  lemma ConsumersOnly(db: Db, next: Db)
    requires Sound(db) && next == db.(consumers := next.consumers, pathJobs := next.pathJobs) && OutboxSound(next)
    ensures Sound(next) && (TrackedExcept(db, {}) ==> TrackedExcept(next, {}))
  {
    FewerLinksKeep(db, next);
    if TrackedExcept(db, {}) {
      forall l | l in next.docs ensures Tracked(next, l) {
        assert Tracked(db, l);
      }
    }
  }

  /** Every operation keeps the safety invariant. */
  lemma StepKeepsSound(db: Db, step: Step)
    requires Sound(db) && Admissible(db, step)
    ensures Sound(Next(db, step))
  {
    hide CatalogSound, TrackedExcept, ApplyBatch, FinalizeScan, LastProjected;
    if Next(db, step) != db {
      match step {
        case ApplyStep(b, mode) => BatchKeepsSound(db, b, mode);
        case BeginScanStep(v, mode) => BeginScanKeeps(db, v, mode);
        case ScanPageStep(v, events) =>
          BatchKeepsSound(db, Batch(v, ScanCheckpoint(v, db.sessions[v].cutoff), FromEvents(events)), Durable);
        case StageStep(v, checkpoint) => StageKeeps(db, v, checkpoint);
        case FinalizeStep(v, maximum) => FinalizeKeeps(db, v, maximum);
        case RefreshVolumeStep(maximum) =>
          RefreshVolumeKeeps(db, maximum);
          RefreshKeeps(db, Next(db, step));
        case RefreshPathsStep(maximum) =>
          RefreshPathsKeeps(db, maximum);
          RefreshKeeps(db, Next(db, step));
        case CompletePathJobStep(job) => ConsumersOnly(db, Next(db, step));
        case AcknowledgeStep(c, sequence, g) =>
          AcknowledgeKeeps(db, c, sequence, g);
          ConsumersOnly(db, Next(db, step));
        case ResetConsumerStep(c) => ConsumersOnly(db, Next(db, step));
        case PruneStep =>
          var k := PruneConsumedDrops(db);
          DropKeeps(db, Next(db, step), k);
        case PruneBoundedStep(maximum, none) =>
          var k := PruneBoundedDrops(db, maximum, none);
          DropKeeps(db, Next(db, step), k);
      }
    }
  }

  /** No batch of the step revives a volume without a refresh being due. */
  ghost predicate QuietStep(db: Db, step: Step) {
    step.ApplyStep? && ApplyBatch(db, step.batch, step.outboxMode).Ok? ==> QuietBatch(db, step.batch)
  }

  lemma EventsQuiet(db: Db, v: VolumeId, checkpoint: ProviderCheckpoint, events: seq<FilesystemEvent>)
    ensures QuietBatch(db, Batch(v, checkpoint, FromEvents(events)))
  {
    hide Mutated;
    var ms := FromEvents(events);
    forall m | m in ms ensures !m.UpsertVolume? {
      var i :| 0 <= i < |ms| && ms[i] == m;
    }
  }

  /**
   * Every operation but an unquiet batch keeps availability current except where a pending refresh
   * has yet to pass, and an unquiet batch never does.
   */
  lemma StepKeepsTracked(db: Db, step: Step)
    requires Sound(db) && Admissible(db, step) && TrackedExcept(db, {})
    ensures TrackedExcept(Next(db, step), {}) <==> QuietStep(db, step)
  {
    hide CatalogSound, TrackedExcept, ApplyBatch, FinalizeScan, LastProjected, QuietBatch;
    if step.ApplyStep? {
      if ApplyBatch(db, step.batch, step.outboxMode).Ok? {
        BatchKeepsCatalog(db, step.batch, step.outboxMode);
      }
    } else if Next(db, step) != db {
      match step {
        case BeginScanStep(v, mode) => BeginScanKeeps(db, v, mode);
        case ScanPageStep(v, events) =>
          var checkpoint := ScanCheckpoint(v, db.sessions[v].cutoff);
          EventsQuiet(db, v, checkpoint, events);
          BatchKeepsCatalog(db, Batch(v, checkpoint, FromEvents(events)), Durable);
        case StageStep(v, checkpoint) => StageKeeps(db, v, checkpoint);
        case FinalizeStep(v, maximum) => FinalizeKeeps(db, v, maximum);
        case RefreshVolumeStep(maximum) => RefreshVolumeKeeps(db, maximum);
        case RefreshPathsStep(maximum) => RefreshPathsKeeps(db, maximum);
        case CompletePathJobStep(job) => ConsumersOnly(db, Next(db, step));
        case AcknowledgeStep(c, sequence, g) =>
          AcknowledgeKeeps(db, c, sequence, g);
          ConsumersOnly(db, Next(db, step));
        case ResetConsumerStep(c) => ConsumersOnly(db, Next(db, step));
        case PruneStep =>
          var k := PruneConsumedDrops(db);
          DropKeeps(db, Next(db, step), k);
        case PruneBoundedStep(maximum, none) =>
          var k := PruneBoundedDrops(db, maximum, none);
          DropKeeps(db, Next(db, step), k);
      }
    }
  }

  lemma LoggedRaisesMark(db: Db, next: Db)
    requires |db.outbox| <= |next.outbox| && Logged(db, next, NewRows(db, next))
    ensures db.sequenceMark <= next.sequenceMark
  {
  }

  /** The high-water mark of the outbox never decreases. */
  lemma MarkNeverDecreases(db: Db, step: Step)
    requires Sound(db)
    ensures db.sequenceMark <= Next(db, step).sequenceMark
  {
    hide Sound, CatalogSound, Logged, TrackedExcept, SweepLinksStep, SweepObjectsStep, AfterObjects, StaleLinks,
      Generation;
    SoundParts(db);
    var next := Next(db, step);
    if next != db {
      match step {
        case ApplyStep(b, mode) => BatchRaisesMark(db, b, mode);
        case ScanPageStep(v, events) =>
          BatchRaisesMark(db, Batch(v, ScanCheckpoint(v, db.sessions[v].cutoff), FromEvents(events)), Durable);
        case FinalizeStep(v, maximum) => FinalizeRaisesMark(db, v, maximum);
        case RefreshVolumeStep(maximum) =>
          RefreshVolumeKeeps(db, maximum);
          LoggedRaisesMark(db, next);
        case RefreshPathsStep(maximum) =>
          RefreshPathsKeeps(db, maximum);
          LoggedRaisesMark(db, next);
        case PruneBoundedStep(maximum, none) =>
          var k := PruneBoundedDrops(db, maximum, none);
        case _ =>
      }
    }
  }

  lemma BatchRaisesMark(db: Db, b: Batch, mode: OutboxMode)
    requires CatalogSound(db) && ApplyBatch(db, b, mode).Ok?
    ensures db.sequenceMark <= ApplyBatch(db, b, mode).value.sequenceMark
  {
    hide CatalogSound, ApplyBatch, LastProjected;
    if mode == Durable {
      BatchLogged(db, b);
      LoggedRaisesMark(db, ApplyBatch(db, b, mode).value);
    } else {
      RebuildableOutbox(db, b);
    }
  }

  lemma FinalizeRaisesMark(db: Db, v: VolumeId, maximum: nat)
    requires Sound(db) && FinalizeScan(db, v, maximum).Ok?
    ensures db.sequenceMark <= FinalizeScan(db, v, maximum).value.db.sequenceMark
  {
    hide Sound, Logged, TrackedExcept, SweepLinksStep, SweepObjectsStep, AfterObjects, StaleLinks, Generation;
    if maximum > 0 {
      SoundSession(db, v);
      if db.sessions[v].phase == SweepingLinks {
        SweepLinksStepKeeps(db, v, maximum);
        LoggedRaisesMark(db, FinalizeScan(db, v, maximum).value.db);
      } else {
        SweepObjectsShape(db, v, maximum);
      }
    }
  }

  // ----- Runs

  ghost function StateAfter(db: Db, steps: seq<Step>): Db {
    if steps == [] then db else Next(StateAfter(db, steps[..|steps| - 1]), steps[|steps| - 1])
  }

  ghost predicate AdmissibleRun(db: Db, steps: seq<Step>) {
    forall i :: 0 <= i < |steps| ==> Admissible(StateAfter(db, steps[..i]), steps[i])
  }

  ghost predicate QuietRun(db: Db, steps: seq<Step>) {
    forall i :: 0 <= i < |steps| ==> QuietStep(StateAfter(db, steps[..i]), steps[i])
  }

  lemma {:induction false} RunKeepsSound(db: Db, steps: seq<Step>)
    requires Sound(db) && AdmissibleRun(db, steps)
    ensures Sound(StateAfter(db, steps))
  {
    if steps != [] {
      var front := steps[..|steps| - 1];
      forall i | 0 <= i < |front| ensures Admissible(StateAfter(db, front[..i]), front[i]) {
        assert front[..i] == steps[..i];
      }
      RunKeepsSound(db, front);
      StepKeepsSound(StateAfter(db, front), steps[|steps| - 1]);
    }
  }

  lemma {:induction false} RunKeepsTracked(db: Db, steps: seq<Step>)
    requires Sound(db) && AdmissibleRun(db, steps) && QuietRun(db, steps) && TrackedExcept(db, {})
    ensures TrackedExcept(StateAfter(db, steps), {})
  {
    if steps != [] {
      var front := steps[..|steps| - 1];
      forall i | 0 <= i < |front|
        ensures Admissible(StateAfter(db, front[..i]), front[i]) && QuietStep(StateAfter(db, front[..i]), front[i])
      {
        assert front[..i] == steps[..i];
      }
      RunKeepsSound(db, front);
      RunKeepsTracked(db, front);
      StepKeepsTracked(StateAfter(db, front), steps[|steps| - 1]);
    }
  }
}
