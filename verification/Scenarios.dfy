/**
 * Runs from the empty database that show where a promise fails: one volume, one file, and the few
 * operations it takes.
 */
module Scenarios {
  import opened Core
  import opened Schema
  import opened PathResolution
  import opened GraphSpec
  import opened GraphTables
  import opened Catalog
  import opened Maintenance
  import opened Outbox
  import opened GraphRuns
  import opened GraphFacts
  import opened Observation

  const VOLUME: VolumeId := 1
  const LINK: LinkId := 7
  const KEY: FileKey := FileKey(VOLUME, 1)
  const NAME: string := "a.txt"
  const OWN: Metadata := Metadata(File, 4, None, Some(1), false, Online)
  const ROW: LinkRow := LinkRow(KEY, None, NAME, false, 1)
  const PROVIDED: ProviderCheckpoint := ProviderCheckpoint("provider", 1, VOLUME, [])

  function ShownContent(shown: Availability): Content {
    ContentOf(LINK, ROW, NAME, OWN.(availability := shown))
  }

  function Projected(shown: Availability, version: nat): DocRow {
    DocRow(KEY, LINK, version, NAME, ShownContent(shown))
  }

  function Logs(sequence: nat, shown: Availability, version: nat): SequencedMutation {
    SequencedMutation(sequence, Upsert(Document(ShownContent(shown), version)))
  }

  /** The one-file database in a given volume state. */
  function OneFile(
    state: VolumeState, generation: nat, row: DocRow, jobs: map<VolumeId, VolumeJob>,
    outbox: seq<SequencedMutation>, mark: nat, consumers: map<string, ConsumerCheckpoint>): Db
  {
    Db(map[VOLUME := VolumeRow(state, generation)], map[KEY := ObjectRow(OWN, false, 1)], map[LINK := ROW],
       map[LINK := row], outbox, mark, consumers, [], jobs, map[], map[VOLUME := PROVIDED])
  }

  function BatchOf(ms: seq<GraphMutation>): Step {
    ApplyStep(Batch(VOLUME, PROVIDED, ms), Durable)
  }

  // ----- Creating the file

  const CREATE: seq<GraphMutation> :=
    [UpsertVolume(VOLUME), UpsertObject(ObjectSnapshot(KEY, OWN)),
     UpsertLink(LinkSnapshot(LINK, KEY, None, NAME), false)]

  lemma OnlyLink()
    ensures Ascending({LINK}) == [LINK]
    ensures Resolve(map[LINK := ROW], LINK, PATH_DEPTH_LIMIT) == Resolved([NAME])
  {
    AscendingEnumerates({LINK});
    assert Ascending({LINK})[0] in Ascending({LINK});
    ResolveComplete(map[LINK := ROW], LINK, PATH_DEPTH_LIMIT, [LINK]);
  }

  lemma DerivesShown(state: VolumeState, generation: nat)
    ensures var volumes: Volumes := map[VOLUME := VolumeRow(state, generation)];
      Derive(volumes, map[KEY := ObjectRow(OWN, false, 1)], map[LINK := ROW], LINK)
            == Ok(Some(ShownContent(Shown(state, Online))))
  {
    OnlyLink();
    hide Resolve;
  }

  lemma CreatedTables()
    ensures var created := EMPTY_DB.(
        volumes := map[VOLUME := VolumeRow(VolumeOnline, 0)],
        objects := map[KEY := ObjectRow(OWN, false, 1)], links := map[LINK := ROW]);
      ApplyAll(Tx(EMPTY_DB, {}), CREATE, 1) == Ok(Tx(created, {LINK}))
  {
    var none: set<LinkId> := {};
    var online := EMPTY_DB.(volumes := map[VOLUME := VolumeRow(VolumeOnline, 0)]);
    var stored := online.(objects := map[KEY := ObjectRow(OWN, false, 1)]);
    var link := LinkSnapshot(LINK, KEY, None, NAME);
    AppliesOne(Tx(EMPTY_DB, none), [], CREATE[0], 1);
    assert none + Affected(EMPTY_DB, CREATE[0]) == none;
    assert ApplyAll(Tx(EMPTY_DB, none), [CREATE[0]], 1) == Ok(Tx(online, none));
    AppliesOne(Tx(EMPTY_DB, none), [CREATE[0]], CREATE[1], 1);
    assert none + Affected(online, CREATE[1]) == none;
    assert ApplyAll(Tx(EMPTY_DB, none), [CREATE[0]] + [CREATE[1]], 1) == Ok(Tx(stored, none));
    AppliesOne(Tx(EMPTY_DB, none), [CREATE[0]] + [CREATE[1]], CREATE[2], 1);
    assert CREATE == [CREATE[0]] + [CREATE[1]] + [CREATE[2]];
    hide ApplyAll;
    LinkWritten(stored, link);
    assert none + Affected(stored, CREATE[2]) == {LINK};
  }

  lemma AppliesOne(tx: Tx, ms: seq<GraphMutation>, m: GraphMutation, g: nat)
    requires ApplyAll(tx, ms, g).Ok?
    ensures ApplyAll(tx, ms + [m], g) == ApplyOne(ApplyAll(tx, ms, g).value, m, g)
  {
    assert (ms + [m])[..|ms|] == ms;
  }

  /** A first link into tables without links or sessions. */
  lemma LinkWritten(db: Db, link: LinkSnapshot)
    requires db.links == map[] && db.sessions == map[] && db.objects == map[KEY := ObjectRow(OWN, false, 1)]
    requires link == LinkSnapshot(LINK, KEY, None, NAME)
    ensures ObserveLink(db, link, false, 1) ==
      Ok(db.(links := map[LINK := ROW])) && Affected(db, UpsertLink(link, false)) == {LINK}
  {
    assert StaleConflicts(db, link) == [];
    assert RemoveLinkRows(db, [], 1) == Ok(db);
    assert SetTombstone(db.objects, KEY, false) == db.objects;
  }

  const CREATED: Db := EMPTY_DB.(
    volumes := map[VOLUME := VolumeRow(VolumeOnline, 0)],
    objects := map[KEY := ObjectRow(OWN, false, 1)], links := map[LINK := ROW])

  lemma CreatedSynced()
    ensures SyncAll(CREATED, [LINK], 1, Durable) ==
      Ok(CREATED.(docs := map[LINK := Projected(Online, 1)], outbox := [Logs(1, Online, 1)], sequenceMark := 1))
  {
    DerivesShown(VolumeOnline, 0);
    SyncOneIsSyncAll(CREATED, LINK, 1, Durable);
    hide SyncAll, Derive;
    var none: Docs := map[];
    assert none[LINK := Projected(Online, 1)] == map[LINK := Projected(Online, 1)];
    var empty: seq<SequencedMutation> := [];
    assert empty + [Logs(1, Online, 1)] == [Logs(1, Online, 1)];
  }

  lemma Created()
    ensures Next(EMPTY_DB, BatchOf(CREATE))
            == OneFile(VolumeOnline, 1, Projected(Online, 1), map[], [Logs(1, Online, 1)], 1, map[])
  {
    hide ApplyAll, ApplyBatch, SyncAll, Ascending, Resolve;
    CreatedTables();
    OnlyLink();
    CreatedSynced();
    var b := Batch(VOLUME, PROVIDED, CREATE);
    assert Tx(CREATED, {LINK}).affected == {LINK};
    CommitsSynced(EMPTY_DB, b, Tx(CREATED, {LINK}), SyncAll(CREATED, [LINK], 1, Durable).value);
  }

  /** A batch whose mutations and projections are known commits their outcome. */
  lemma CommitsSynced(db: Db, b: Batch, tx: Tx, synced: Db)
    requires ValidBatch(b) && ApplyAll(Tx(db, {}), b.mutations, Generation(db, b.volume) + 1) == Ok(tx)
    requires SyncAll(tx.db, Ascending(tx.affected), Generation(db, b.volume) + 1, Durable) == Ok(synced)
    ensures ApplyBatch(db, b, Durable) == CommitBatch(synced, b, Generation(db, b.volume) + 1)
  {
    hide ApplyAll, SyncAll, Ascending;
  }

  // ----- Changing the volume's state, and refreshing

  lemma Changed(db: Db, state: VolumeState)
    requires VOLUME in db.volumes
    ensures var g := Generation(db, VOLUME) + 1;
      Next(db, BatchOf([SetVolumeState(VOLUME, state)])) == db.(
        volumes := db.volumes[VOLUME := VolumeRow(state, g)],
        volumeJobs := db.volumeJobs[VOLUME := VolumeJob(g, None, true)],
        checkpoints := db.checkpoints[VOLUME := PROVIDED])
  {
    hide ApplyAll, ApplyBatch;
    var ms := [SetVolumeState(VOLUME, state)];
    var g := Generation(db, VOLUME) + 1;
    var changed := ChangeVolumeState(db, VOLUME, state, g).value;
    OneUnaffecting(db, ms[0], g);
    Unprojected(db, Batch(VOLUME, PROVIDED, ms), changed);
    assert SetGeneration(changed, VOLUME, g).volumes == db.volumes[VOLUME := VolumeRow(state, g)];
  }

  lemma OneUnaffecting(db: Db, m: GraphMutation, g: nat)
    requires OnVolumeRow(m) && Apply(db, m, g).Ok?
    ensures ApplyAll(Tx(db, {}), [m], g) == Ok(Tx(Apply(db, m, g).value, {}))
  {
    var none: set<LinkId> := {};
    AppliesOne(Tx(db, none), [], m, g);
    assert [] + [m] == [m] && none + Affected(db, m) == none;
  }

  /** A batch that affects no link projects nothing. */
  lemma Unprojected(db: Db, b: Batch, changed: Db)
    requires ValidBatch(b) && ApplyAll(Tx(db, {}), b.mutations, Generation(db, b.volume) + 1) == Ok(Tx(changed, {}))
    ensures ApplyBatch(db, b, Durable) == CommitBatch(changed, b, Generation(db, b.volume) + 1)
  {
    hide ApplyAll, ApplyBatch;
    var none: set<LinkId> := {};
    assert Ascending(none) == [];
    CommitsSynced(db, b, Tx(changed, {}), changed);
  }

  /** One project call on the only row: nothing when the content is the same, else a logged row. */
  lemma SyncedShown(db: Db, state: VolumeState, g: nat, was: Availability, version: nat)
    requires db.volumes == map[VOLUME := VolumeRow(state, g)] && db.objects == map[KEY := ObjectRow(OWN, false, 1)]
    requires db.links == map[LINK := ROW] && db.docs == map[LINK := Projected(was, version)]
    ensures var shown := Shown(state, Online);
      SyncAll(db, [LINK], g, Durable) == Ok(
        if shown == was then db
        else db.(docs := map[LINK := Projected(shown, g)],
                 outbox := db.outbox + [Logs(db.sequenceMark + 1, shown, g)], sequenceMark := db.sequenceMark + 1))
  {
    var shown := Shown(state, Online);
    DerivesShown(state, g);
    SyncOneIsSyncAll(db, LINK, g, Durable);
    hide SyncAll, Derive;
    assert ShownContent(was).metadata.availability == was;
    if shown != was {
      assert db.docs[LINK := Projected(shown, g)] == map[LINK := Projected(shown, g)];
    }
  }

  lemma PageOfFile(db: Db, was: Availability, version: nat)
    requires db.docs == map[LINK := Projected(was, version)]
    ensures VolumeRefreshPage(db, VOLUME, None, 10) == [LINK]
  {
    assert (set l | l in db.docs && db.docs[l].key.volume == VOLUME && Beyond(None, l)) == {LINK};
    OnlyLink();
    hide Ascending, Resolve;
  }

  lemma Refreshes(db: Db, state: VolumeState, g: nat, was: Availability, version: nat)
    requires db.volumes == map[VOLUME := VolumeRow(state, g)] && db.objects == map[KEY := ObjectRow(OWN, false, 1)]
    requires db.links == map[LINK := ROW] && db.docs == map[LINK := Projected(was, version)]
    requires db.volumeJobs == map[VOLUME := VolumeJob(g, None, true)]
    ensures SyncAll(db, [LINK], g, Durable).Ok?
    ensures var next := Next(db, RefreshVolumeStep(10));
      var done := map[VOLUME := VolumeJob(g, None, false)];
      next == SyncAll(db, [LINK], g, Durable).value.(volumeJobs := done)
  {
    hide SyncAll, Ascending, Resolve, VolumeRefreshPage;
    SyncedShown(db, state, g, was, version);
    assert PendingVolumes(db) == {VOLUME};
    PageOfFile(db, was, version);
    assert db.volumeJobs[VOLUME := VolumeJob(g, None, false)] == map[VOLUME := VolumeJob(g, None, false)];
  }

  // ----- A volume upsert that revives a volume unnoticed

  lemma StateAfterOne(db: Db, steps: seq<Step>, step: Step)
    ensures StateAfter(db, steps + [step]) == Next(StateAfter(db, steps), step)
  {
    assert (steps + [step])[..|steps|] == steps;
  }

  const TAKEN_OFFLINE: seq<Step> :=
    [BatchOf(CREATE)] + [BatchOf([SetVolumeState(VOLUME, VolumeOffline)])] + [RefreshVolumeStep(10)]

  /** Created, taken offline and refreshed: the document shows "offline" and two rows are logged. */
  lemma TakenOffline()
    ensures StateAfter(EMPTY_DB, TAKEN_OFFLINE) ==
      OneFile(VolumeOffline, 2, Projected(Offline, 2), map[VOLUME := VolumeJob(2, None, false)],
              [Logs(1, Online, 1), Logs(2, Offline, 2)], 2, map[])
  {
    hide Next;
    var none: seq<Step> := [];
    var create, offline := BatchOf(CREATE), BatchOf([SetVolumeState(VOLUME, VolumeOffline)]);
    Created();
    assert none + [create] == [create];
    StateAfterOne(EMPTY_DB, none, create);
    StateAfterOne(EMPTY_DB, [create], offline);
    StateAfterOne(EMPTY_DB, [create] + [offline], RefreshVolumeStep(10));
    var created := StateAfter(EMPTY_DB, [create]);
    Changed(created, VolumeOffline);
    var due := Next(created, offline);
    assert due.volumes == map[VOLUME := VolumeRow(VolumeOffline, 2)];
    assert due.checkpoints == map[VOLUME := PROVIDED];
    assert due.volumeJobs == map[VOLUME := VolumeJob(2, None, true)];
    SyncedShown(due, VolumeOffline, 2, Online, 1);
    Refreshes(due, VolumeOffline, 2, Online, 1);
    assert [Logs(1, Online, 1)] + [Logs(2, Offline, 2)] == [Logs(1, Online, 1), Logs(2, Offline, 2)];
  }

  lemma NoNewConsumers(steps: seq<Step>)
    requires forall i :: 0 <= i < |steps| ==> !steps[i].AcknowledgeStep?
    ensures AdmissibleRun(EMPTY_DB, steps)
  {
    hide StateAfter;
  }

  /** Upserting the volume again leaves a stale availability with nothing pending to mend it. */
  ghost predicate RevivesUnnoticed(db: Db, checkpoint: ProviderCheckpoint) {
    var revived := Revive(db, VOLUME, checkpoint);
    checkpoint.volume == VOLUME && revived.Ok? && NoVolumeRefreshPending(revived.value) && !AllCurrent(revived.value)
  }

  lemma OfflineRevives(db: Db)
    requires db == OneFile(VolumeOffline, 2, Projected(Offline, 2), map[VOLUME := VolumeJob(2, None, false)],
                           [Logs(1, Online, 1), Logs(2, Offline, 2)], 2, map[])
    ensures RevivesUnnoticed(db, PROVIDED)
  {
    hide Revive, Logs;
    ReviveShape(db, VOLUME, PROVIDED);
    var revived := Revive(db, VOLUME, PROVIDED).value;
    assert LINK in revived.docs && !AvailabilityCurrent(revived, LINK);
  }

  /**
   * Upserting an offline volume again brings it online unnoticed: no refresh is pending, and its
   * document goes on showing "offline".
   */
  lemma ReviveLosesAvailability()
    ensures exists steps, checkpoint ::
      AdmissibleRun(EMPTY_DB, steps) && RevivesUnnoticed(StateAfter(EMPTY_DB, steps), checkpoint)
  {
    hide StateAfter, AdmissibleRun, RevivesUnnoticed, OneFile;
    NoNewConsumers(TAKEN_OFFLINE);
    TakenOffline();
    OfflineRevives(StateAfter(EMPTY_DB, TAKEN_OFFLINE));
  }

  // ----- A registration below pruned rows

  const PRUNED: seq<Step> := TAKEN_OFFLINE + [AcknowledgeStep("catalog", 1, 1)] + [PruneStep]

  lemma Pruned()
    ensures StateAfter(EMPTY_DB, PRUNED) ==
      OneFile(VolumeOffline, 2, Projected(Offline, 2), map[VOLUME := VolumeJob(2, None, false)],
              [Logs(2, Offline, 2)], 2, map["catalog" := ConsumerCheckpoint(1, 1)])
    ensures AdmissibleRun(EMPTY_DB, PRUNED)
  {
    hide Next, StateAfter;
    TakenOffline();
    var ack := AcknowledgeStep("catalog", 1, 1);
    StateAfterOne(EMPTY_DB, TAKEN_OFFLINE, ack);
    StateAfterOne(EMPTY_DB, TAKEN_OFFLINE + [ack], PruneStep);
    AcknowledgedAndPruned(StateAfter(EMPTY_DB, TAKEN_OFFLINE));
    forall i | 0 <= i < |PRUNED| ensures Admissible(StateAfter(EMPTY_DB, PRUNED[..i]), PRUNED[i]) {
      if PRUNED[i].AcknowledgeStep? {
        assert PRUNED[..i] == TAKEN_OFFLINE;
      }
    }
  }

  lemma AcknowledgedAndPruned(db: Db)
    requires db.outbox == [Logs(1, Online, 1), Logs(2, Offline, 2)] && db.sequenceMark == 2 && db.consumers == map[]
    ensures var known := db.(consumers := map["catalog" := ConsumerCheckpoint(1, 1)]);
      && Next(db, AcknowledgeStep("catalog", 1, 1)) == known
      && Next(known, PruneStep) == known.(outbox := [Logs(2, Offline, 2)])
  {
    var known := db.(consumers := map["catalog" := ConsumerCheckpoint(1, 1)]);
    FirstAcknowledged(db);
    PrunesFirst(known);
  }

  lemma FirstAcknowledged(db: Db)
    requires db.outbox == [Logs(1, Online, 1), Logs(2, Offline, 2)] && db.sequenceMark == 2 && db.consumers == map[]
    ensures Acknowledge(db, "catalog", 1, 1) == Ok(db.(consumers := map["catalog" := ConsumerCheckpoint(1, 1)]))
  {
    assert OutboxSound(db);
    LatestIsMark(db);
    hide LatestSequence;
    assert db.consumers["catalog" := ConsumerCheckpoint(1, 1)] == map["catalog" := ConsumerCheckpoint(1, 1)];
  }

  lemma PrunesFirst(known: Db)
    requires known.outbox == [Logs(1, Online, 1), Logs(2, Offline, 2)] && known.sequenceMark == 2
    requires known.consumers == map["catalog" := ConsumerCheckpoint(1, 1)]
    ensures PruneConsumed(known) == known.(outbox := [Logs(2, Offline, 2)])
  {
    assert Acks(known) == {1} by {
      assert known.consumers["catalog"].lastSequence in Acks(known);
    }
    assert "catalog" in known.consumers;
    SecondRemains(known.outbox);
    hide RowsAfter, Acks;
  }

  lemma SecondRemains(outbox: seq<SequencedMutation>)
    requires outbox == [Logs(1, Online, 1), Logs(2, Offline, 2)]
    ensures RowsAfter(outbox, 1) == [Logs(2, Offline, 2)]
  {
    ContiguousSplit(outbox, 2, 1);
    hide RowsAfter;
    assert outbox[1..] == [Logs(2, Offline, 2)];
  }

  /** A registration at zero is accepted, and every read from it starts at sequence two. */
  ghost predicate Skips(db: Db, consumer: string) {
    var r := Acknowledge(db, consumer, 0, 1);
    && consumer !in db.consumers && r.Ok? && r.value.consumers[consumer].lastSequence == 0
    && RowsAfter(r.value.outbox, 0) != [] && RowsAfter(r.value.outbox, 0)[0].sequence == 2
  }

  lemma SkipsFirst(db: Db)
    requires db.outbox == [Logs(2, Offline, 2)] && db.sequenceMark == 2
    requires db.consumers == map["catalog" := ConsumerCheckpoint(1, 1)]
    ensures Skips(db, "content")
  {
    hide LatestSequence, RowsAfter, Logs;
    SoleRow(db);
    LatestIsMark(db);
  }

  lemma SoleRow(db: Db)
    requires db.outbox == [Logs(2, Offline, 2)] && db.sequenceMark == 2
    requires db.consumers == map["catalog" := ConsumerCheckpoint(1, 1)]
    ensures OutboxSound(db) && RowsAfter(db.outbox, 0) == db.outbox && db.outbox[0].sequence == 2
  {
    hide RowsAfter;
    ContiguousSplit(db.outbox, 2, 0);
    assert db.outbox[0..] == db.outbox;
  }

  /** A consumer registered at zero after a prune is accepted, and never reads sequence one. */
  lemma LateRegistrationSkips()
    ensures exists steps, consumer :: AdmissibleRun(EMPTY_DB, steps) && Skips(StateAfter(EMPTY_DB, steps), consumer)
  {
    Pruned();
    hide StateAfter, AdmissibleRun, Skips;
    SkipsFirst(StateAfter(EMPTY_DB, PRUNED));
  }

  // ----- A removal that a stale row contradicts

  const REBOUND: FilesystemEvent := LinkRemoved(LINK, FileKey(VOLUME, 2))

  lemma RemovalAlone(db: Db, g: nat)
    ensures FromEvents([REBOUND]) == [RemoveLink(LINK, FileKey(VOLUME, 2))]
    ensures LINK in db.links && db.links[LINK].key == KEY ==> ApplyAll(Tx(db, {}), FromEvents([REBOUND]), g).Err?
    ensures LINK !in db.links ==> ApplyAll(Tx(db, {}), FromEvents([REBOUND]), g) == Ok(Tx(db, {LINK}))
  {
    var m := RemoveLink(LINK, FileKey(VOLUME, 2));
    var none: set<LinkId> := {};
    assert [] + [m] == [m] && none + {LINK} == {LINK};
    AppliesOne(Tx(db, none), [], m, g);
  }

  lemma RemovalOnEmpty()
    ensures Rebuilt(VOLUME, Initial, [[REBOUND]]).Ok?
  {
    var begun := BeginScan(EMPTY_DB, VOLUME, Initial);
    assert [[REBOUND]][..0] == [];
    RemovalAlone(begun, 2);
    OnlyLink();
    SyncOneIsSyncAll(begun, LINK, 2, Durable);
    hide ApplyAll, Ascending, SyncAll;
    var b := Batch(VOLUME, ScanCheckpoint(VOLUME, 1), FromEvents([REBOUND]));
    assert ValidBatch(b);
    assert ApplyBatch(begun, b, Durable) == CommitBatch(begun, b, 2);
    assert RunPages(begun, VOLUME, []) == Ok(begun);
  }

  /** Removing a link under a new binding is refused while the old binding is stale in the way. */
  lemma StaleBindingRefusesRemoval()
    ensures exists steps: seq<Step>, events ::
      && AdmissibleRun(EMPTY_DB, steps) && Rebuilt(VOLUME, Initial, [events]).Ok?
      && ApplyScanPage(BeginScan(StateAfter(EMPTY_DB, steps), VOLUME, Initial), VOLUME, events).Err?
  {
    hide Next, StateAfter, AdmissibleRun, Rebuilt, ApplyScanPage, BeginScan;
    var none: seq<Step> := [];
    var steps := none + [BatchOf(CREATE)];
    Created();
    StateAfterOne(EMPTY_DB, none, BatchOf(CREATE));
    NothingDone();
    NoNewConsumers(steps);
    RemovalOnEmpty();
    RemovalRefused(StateAfter(EMPTY_DB, steps));
  }

  lemma NothingDone()
    ensures StateAfter(EMPTY_DB, []) == EMPTY_DB
  {
  }

  lemma RemovalRefused(db: Db)
    requires db.links == map[LINK := ROW]
    ensures ApplyScanPage(BeginScan(db, VOLUME, Initial), VOLUME, [REBOUND]).Err?
  {
    var begun := BeginScan(db, VOLUME, Initial);
    RemovalAlone(begun, Generation(begun, VOLUME) + 1);
    hide ApplyAll;
  }
}
