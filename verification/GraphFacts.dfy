/** What the invariants of reachable states mean for readers of the graph. */
module GraphFacts {
  import opened Core
  import opened Schema
  import opened PathResolution
  import opened GraphSpec
  import opened GraphTables
  import opened Replay
  import opened Catalog
  import opened Outbox
  import opened GraphRuns

  /** Safety of every state reached from an empty database, in any interleaving. */
  lemma ReachableSound(steps: seq<Step>)
    requires AdmissibleRun(EMPTY_DB, steps)
    ensures Sound(StateAfter(EMPTY_DB, steps))
    ensures QuietRun(EMPTY_DB, steps) ==> TrackedExcept(StateAfter(EMPTY_DB, steps), {})
  {
    EmptySound();
    RunKeepsSound(EMPTY_DB, steps);
    if QuietRun(EMPTY_DB, steps) {
      RunKeepsTracked(EMPTY_DB, steps);
    }
  }

  /** In every reachable state a linked object exists and is live. */
  lemma LinkedObjectsLive(steps: seq<Step>, l: LinkId)
    requires AdmissibleRun(EMPTY_DB, steps)
    ensures var db := StateAfter(EMPTY_DB, steps);
      l in db.links ==> db.links[l].key in db.objects && !db.objects[db.links[l].key].tombstoned
  {
    ReachableSound(steps);
  }

  /** A failure to project a link: its object, its volume or its own row is missing. */
  predicate ProjectionFailure(e: GraphError) {
    e.MissingObject? || e.MissingVolume? || e.Unresolvable?
  }

  lemma {:induction false} RemovalsNeverProject(db: Db, rows: seq<(LinkId, FileKey)>, g: nat)
    ensures var r := RemoveLinkRows(db, rows, g); r.Err? ==> !ProjectionFailure(r.error)
    decreases rows
  {
    if rows != [] && RemoveLinkRow(db, rows[0].0, rows[0].1, g, false).Ok? {
      RemovalsNeverProject(RemoveLinkRow(db, rows[0].0, rows[0].1, g, false).value, rows[1..], g);
    }
  }

  lemma {:induction false} MutationsNeverProject(tx: Tx, ms: seq<GraphMutation>, g: nat)
    ensures var r := ApplyAll(tx, ms, g); r.Err? ==> !ProjectionFailure(r.error)
  {
    if ms != [] {
      var front, last := ms[..|ms| - 1], ms[|ms| - 1];
      MutationsNeverProject(tx, front, g);
      if ApplyAll(tx, front, g).Ok? && last.UpsertLink? {
        var db := ApplyAll(tx, front, g).value.db;
        RemovalsNeverProject(db, StaleConflicts(db, last.link), g);
      }
    }
  }

  lemma BatchNeverFailsToProject(db: Db, b: Batch, mode: OutboxMode)
    requires CatalogSound(db)
    ensures var r := ApplyBatch(db, b, mode); r.Err? ==> !ProjectionFailure(r.error)
  {
    hide TablesSound, FaithfulExcept, RowsShaped, ApplyAll, SyncAll, Ascending;
    if ValidBatch(b) {
      var g := Generation(db, b.volume) + 1;
      MutationsNeverProject(Tx(db, {}), b.mutations, g);
      if Mutated(db, b).Ok? {
        ApplyAllKeeps(Tx(db, {}), b.mutations, g, b.volume);
        var tx := Mutated(db, b).value;
        SyncAllFresh(tx.db, Ascending(tx.affected), g, mode);
      }
    }
  }

  /** So no batch can fail because a projected link lacks its object, volume or own row. */
  lemma ProjectionNeverFails(steps: seq<Step>, b: Batch, mode: OutboxMode)
    requires AdmissibleRun(EMPTY_DB, steps)
    ensures var r := ApplyBatch(StateAfter(EMPTY_DB, steps), b, mode); r.Err? ==> !ProjectionFailure(r.error)
  {
    ReachableSound(steps);
    BatchNeverFailsToProject(StateAfter(EMPTY_DB, steps), b, mode);
  }

  // ----- The joined read

  function WithAvailability(d: Document, a: Availability): Document {
    d.(content := d.content.(metadata := d.content.metadata.(availability := a)))
  }

  /**
   * No drift: the inner joins drop no row, and each joined document is the last projected one,
   * version included, with the availability its volume imposes now.
   */
  lemma JoinedReadFaithful(db: Db)
    requires Sound(db)
    ensures DesiredCatalog(db).Keys == LastProjected(db).Keys == db.docs.Keys
    ensures forall l :: l in db.docs ==>
      && Joins(db, db.docs[l])
      && DesiredCatalog(db)[l] == WithAvailability(LastProjected(db)[l],
           Shown(db.volumes[db.docs[l].key.volume].state, db.objects[db.docs[l].key].metadata.availability))
  {
    forall l | l in db.docs
      ensures Joins(db, db.docs[l]) &&
        DesiredCatalog(db)[l] == WithAvailability(LastProjected(db)[l],
          Shown(db.volumes[db.docs[l].key.volume].state, db.objects[db.docs[l].key].metadata.availability))
    {
      assert RowMatches(db.objects, db.links, l, db.docs[l]);
    }
    assert DesiredCatalog(db).Keys == db.docs.Keys;
  }

  ghost predicate AllCurrent(db: Db) {
    forall l :: l in db.docs ==> AvailabilityCurrent(db, l)
  }

  lemma JoinedRowEquals(db: Db, l: LinkId)
    requires Sound(db) && l in db.docs
    ensures l in DesiredCatalog(db) && l in LastProjected(db)
    ensures DesiredCatalog(db)[l] == LastProjected(db)[l] <==> AvailabilityCurrent(db, l)
  {
    JoinedReadFaithful(db);
    assert RowMatches(db.objects, db.links, l, db.docs[l]);
  }

  /** The joined read and the last projection agree exactly when every availability is current. */
  lemma JoinedEqualsProjected(db: Db)
    requires Sound(db)
    ensures DesiredCatalog(db) == LastProjected(db) <==> AllCurrent(db)
  {
    JoinedReadFaithful(db);
    forall l | l in db.docs
      ensures DesiredCatalog(db)[l] == LastProjected(db)[l] <==> AvailabilityCurrent(db, l)
    {
      JoinedRowEquals(db, l);
    }
    if AllCurrent(db) {
      assert forall l :: l in db.docs ==> AvailabilityCurrent(db, l);
    } else {
      var l :| l in db.docs && !AvailabilityCurrent(db, l);
      assert DesiredCatalog(db)[l] != LastProjected(db)[l];
    }
  }

  ghost predicate NoVolumeRefreshPending(db: Db) {
    forall v :: v in db.volumeJobs ==> !db.volumeJobs[v].pending
  }

  /** With no volume refresh pending, every document shows its volume's current availability. */
  lemma SettledIsCurrent(db: Db)
    requires TrackedExcept(db, {}) && NoVolumeRefreshPending(db)
    ensures AllCurrent(db)
  {
    forall l | l in db.docs ensures AvailabilityCurrent(db, l) {
      assert Tracked(db, l);
    }
  }

  // ----- A volume upsert that revives a volume unnoticed

  ghost function Revive(db: Db, v: VolumeId, checkpoint: ProviderCheckpoint): Result<Db> {
    ApplyBatch(db, Batch(v, checkpoint, [UpsertVolume(v)]), Durable)
  }

  lemma ReviveShape(db: Db, v: VolumeId, checkpoint: ProviderCheckpoint)
    requires checkpoint.volume == v
    ensures Revive(db, v, checkpoint) == Ok(db.(
      volumes := db.volumes[v := VolumeRow(VolumeOnline, Generation(db, v) + 1)],
      checkpoints := db.checkpoints[v := checkpoint]))
  {
    var ms := [UpsertVolume(v)];
    assert ms[..0] == [];
    var g := Generation(db, v) + 1;
    var none: set<LinkId> := {};
    assert ApplyAll(Tx(db, {}), ms[..0], g) == Ok(Tx(db, {}));
    assert none + Affected(db, ms[0]) == none;
    assert ApplyAll(Tx(db, {}), ms, g) == Ok(Tx(UpsertVolumeRow(db, v), none));
    assert Ascending(none) == [];
    var online := UpsertVolumeRow(db, v);
    assert SyncAll(online, Ascending(none), g, Durable) == Ok(online);
    assert SetGeneration(online, v, g).volumes == db.volumes[v := VolumeRow(VolumeOnline, g)];
    assert ValidBatch(Batch(v, checkpoint, ms));
  }
}
