/** A directory moved twice while its refresh is under way: the promise of convergence fails. */
module PathScenarios {
  import opened Core
  import opened Schema
  import opened PathResolution
  import opened GraphSpec
  import opened GraphTables
  import opened Replay
  import opened Catalog
  import opened Maintenance
  import opened GraphRuns
  import opened GraphFacts
  import opened CatalogPaths
  import opened PathConvergence
  import S = Scenarios

  const VOLUME: VolumeId := 1
  const CHILD: LinkId := 5
  const FOLDER: LinkId := 10
  const FOLDER_KEY: FileKey := FileKey(VOLUME, 1)
  const CHILD_KEY: FileKey := FileKey(VOLUME, 2)
  const FOLDER_OWN: Metadata := Metadata(Directory, 0, None, None, false, Online)
  const CHILD_OWN: Metadata := Metadata(File, 4, None, Some(1), false, Online)
  const PROVIDED: ProviderCheckpoint := ProviderCheckpoint("provider", 1, VOLUME, [])

  const CREATE: seq<GraphMutation> :=
    [UpsertVolume(VOLUME), UpsertObject(ObjectSnapshot(FOLDER_KEY, FOLDER_OWN)),
     UpsertObject(ObjectSnapshot(CHILD_KEY, CHILD_OWN)), Naming("a"),
     UpsertLink(LinkSnapshot(CHILD, CHILD_KEY, Some(FOLDER_KEY), "c"), false)]

  function Naming(name: string): GraphMutation {
    UpsertLink(LinkSnapshot(FOLDER, FOLDER_KEY, None, name), false)
  }

  function BatchOf(ms: seq<GraphMutation>): Batch {
    Batch(VOLUME, PROVIDED, ms)
  }

  /** One folder of the given name with one file below it. */
  ghost predicate Tables(db: Db, name: string) {
    && db.links.Keys == {CHILD, FOLDER} && VOLUME in db.volumes && db.sessions == map[]
    && db.links[CHILD].(observed := 0) == LinkRow(CHILD_KEY, Some(FOLDER_KEY), "c", false, 0)
    && db.links[FOLDER].(observed := 0) == LinkRow(FOLDER_KEY, None, name, false, 0)
    && FOLDER_KEY in db.objects && CHILD_KEY in db.objects
    && db.objects[FOLDER_KEY].metadata.kind == Directory
  }

  ghost predicate Tree(db: Db, name: string) {
    CatalogSound(db) && Tables(db, name)
  }

  lemma Climb(db: Db, name: string)
    requires Tables(db, name)
    ensures Reaches(db.links, CHILD, PATH_DEPTH_LIMIT, [CHILD, FOLDER])
    ensures Join(NamesFromRoot(db.links, [CHILD, FOLDER])) == name + "/c"
  {
    assert LinksOf(db.links, FOLDER_KEY) == {FOLDER};
    assert Climbs(db.links, CHILD, FOLDER);
    var names := NamesFromRoot(db.links, [CHILD, FOLDER]);
    assert names == [name] + ["c"];
    JoinSplits([name], ["c"]);
  }

  // ----- Moving the folder

  lemma Named(db: Db, name: string, other: string, g: nat)
    requires Tables(db, name)
    ensures Apply(db, Naming(other), g).Ok? && Affected(db, Naming(other)) == {FOLDER}
    ensures var next := Apply(db, Naming(other), g).value;
      && Tables(next, other) && next.docs == db.docs
      && next.pathJobs ==
         if name != other then EnqueuePathRefresh(db, FOLDER_KEY, g).pathJobs else db.pathJobs
  {
    var link := LinkSnapshot(FOLDER, FOLDER_KEY, None, other);
    assert StaleConflicts(db, link) == [];
    assert RemoveLinkRows(db, [], g) == Ok(db);
    assert !SlotTaken(db, link);
  }

  lemma Moved(db: Db, name: string, other: string)
    requires Tree(db, name)
    ensures ApplyBatch(db, BatchOf([Naming(other)]), Durable).Ok?
    ensures var next := ApplyBatch(db, BatchOf([Naming(other)]), Durable).value;
      && Tree(next, other) && Find(next.docs, CHILD) == Find(db.docs, CHILD)
      && next.pathJobs ==
         if name != other then EnqueuePathRefresh(db, FOLDER_KEY, Generation(db, VOLUME) + 1).pathJobs
         else db.pathJobs
  {
    hide TablesSound, RowsShaped, FaithfulExcept, SyncAll, Ascending, TrackedExcept, QuietBatch;
    var g, b := Generation(db, VOLUME) + 1, BatchOf([Naming(other)]);
    var none: set<LinkId> := {};
    Named(db, name, other, g);
    hide Apply, Affected;
    S.AppliesOne(Tx(db, none), [], Naming(other), g);
    assert [] + [Naming(other)] == [Naming(other)] && none + {FOLDER} == {FOLDER};
    var tx := Mutated(db, b).value;
    ApplyAllKeepsFaithful(db, b.mutations, g, VOLUME);
    AscendingEnumerates({FOLDER});
    SyncAllFresh(tx.db, Ascending({FOLDER}), g, Durable);
    BatchKeepsCatalog(db, b, Durable);
  }

  // ----- Creating the folder and the file

  const ONLINE: Db := EMPTY_DB.(volumes := map[VOLUME := VolumeRow(VolumeOnline, 0)])

  const STORED: Db := ONLINE.(
    objects := map[FOLDER_KEY := ObjectRow(FOLDER_OWN, false, 1), CHILD_KEY := ObjectRow(CHILD_OWN, false, 1)])

  lemma ObjectsStored()
    ensures ApplyAll(Tx(EMPTY_DB, {}), CREATE[..3], 1) == Ok(Tx(STORED, {}))
  {
    var none: set<LinkId> := {};
    var tx := Tx(EMPTY_DB, none);
    S.AppliesOne(tx, [], CREATE[0], 1);
    assert [] + [CREATE[0]] == CREATE[..1] && none + Affected(EMPTY_DB, CREATE[0]) == none;
    assert ApplyAll(tx, CREATE[..1], 1) == Ok(Tx(ONLINE, none));
    S.AppliesOne(tx, CREATE[..1], CREATE[1], 1);
    assert CREATE[..1] + [CREATE[1]] == CREATE[..2] && none + Affected(ONLINE, CREATE[1]) == none;
    var folder := ONLINE.(objects := map[FOLDER_KEY := ObjectRow(FOLDER_OWN, false, 1)]);
    assert ApplyAll(tx, CREATE[..2], 1) == Ok(Tx(folder, none));
    S.AppliesOne(tx, CREATE[..2], CREATE[2], 1);
    assert CREATE[..2] + [CREATE[2]] == CREATE[..3] && none + Affected(folder, CREATE[2]) == none;
    assert folder.objects[CHILD_KEY := ObjectRow(CHILD_OWN, false, 1)] == STORED.objects;
  }

  lemma FolderLinked()
    ensures var next := Apply(STORED, CREATE[3], 1);
      && next == Ok(STORED.(links := map[FOLDER := LinkRow(FOLDER_KEY, None, "a", false, 1)]))
      && Affected(STORED, CREATE[3]) == {FOLDER}
  {
    var link := LinkSnapshot(FOLDER, FOLDER_KEY, None, "a");
    assert StaleConflicts(STORED, link) == [];
    assert RemoveLinkRows(STORED, [], 1) == Ok(STORED);
    assert SetTombstone(STORED.objects, FOLDER_KEY, false) == STORED.objects;
  }

  lemma ChildLinked(db: Db)
    requires db == STORED.(links := map[FOLDER := LinkRow(FOLDER_KEY, None, "a", false, 1)])
    ensures Apply(db, CREATE[4], 1).Ok? && Tables(Apply(db, CREATE[4], 1).value, "a")
    ensures Apply(db, CREATE[4], 1).value.pathJobs == []
    ensures Affected(db, CREATE[4]) == {CHILD}
  {
    var link := LinkSnapshot(CHILD, CHILD_KEY, Some(FOLDER_KEY), "c");
    assert StaleConflicts(db, link) == [];
    assert RemoveLinkRows(db, [], 1) == Ok(db);
    assert !SlotTaken(db, link);
  }

  lemma CreatedTables()
    ensures var r := ApplyAll(Tx(EMPTY_DB, {}), CREATE, 1);
      r.Ok? && Tables(r.value.db, "a") && r.value.db.pathJobs == []
  {
    hide Apply, Affected, Tables;
    var none: set<LinkId> := {};
    var tx := Tx(EMPTY_DB, none);
    ObjectsStored();
    FolderLinked();
    S.AppliesOne(tx, CREATE[..3], CREATE[3], 1);
    assert CREATE[..3] + [CREATE[3]] == CREATE[..4];
    ChildLinked(STORED.(links := map[FOLDER := LinkRow(FOLDER_KEY, None, "a", false, 1)]));
    S.AppliesOne(tx, CREATE[..4], CREATE[4], 1);
    assert CREATE[..4] + [CREATE[4]] == CREATE;
  }

  lemma Created()
    ensures ApplyBatch(EMPTY_DB, BatchOf(CREATE), Durable).Ok?
    ensures var next := ApplyBatch(EMPTY_DB, BatchOf(CREATE), Durable).value; Tree(next, "a") && next.pathJobs == []
  {
    EmptySound();
    hide TablesSound, RowsShaped, FaithfulExcept, SyncAll, ApplyAll, Ascending, TrackedExcept, QuietBatch;
    var b := BatchOf(CREATE);
    CreatedTables();
    var tx := Mutated(EMPTY_DB, b).value;
    ApplyAllKeepsFaithful(EMPTY_DB, CREATE, 1, VOLUME);
    SyncAllFresh(tx.db, Ascending(tx.affected), 1, Durable);
    BatchKeepsCatalog(EMPTY_DB, b, Durable);
  }

  // ----- A refresh that passes the file, and a second move

  lemma RefreshAccepted(db: Db, name: string)
    requires Tree(db, name) && |db.pathJobs| == 1 && db.pathJobs[0].root == FOLDER_KEY && db.pathJobs[0].pending
    ensures RefreshPaths(db, 1).Ok?
  {
    hide TablesSound, RowsShaped, FaithfulExcept, SyncAll;
    assert FirstPending(db.pathJobs) == 0;
    SyncAllFresh(db, PathRefreshPage(db, VOLUME, db.pathJobs[0].cursor, 1), Generation(db, VOLUME), Durable);
  }

  /** A page of one link takes the file, which comes before its folder. */
  lemma FilePassed(db: Db, name: string)
    requires Tree(db, name) && |db.pathJobs| == 1
    requires db.pathJobs[0].root == FOLDER_KEY && db.pathJobs[0].pending && db.pathJobs[0].cursor.None?
    ensures RefreshPaths(db, 1).Ok?
    ensures var next := RefreshPaths(db, 1).value;
      && Tree(next, name) && Shows(next, CHILD)
      && |next.pathJobs| == 1 && next.pathJobs[0].root == FOLDER_KEY && next.pathJobs[0].pending
      && next.pathJobs[0].cursor == Some(CHILD)
  {
    hide CatalogSound, RefreshPaths, Shows;
    assert FirstPending(db.pathJobs) == 0;
    var ahead := LinksAhead(db, VOLUME, None);
    assert ahead == {CHILD, FOLDER};
    RefreshAccepted(db, name);
    RefreshPathsShows(db, 1);
    RefreshPathsKeeps(db, 1);
    var job := RefreshPaths(db, 1).value.pathJobs[0];
    assert |ahead| == 2;
    assert job.cursor.value in {CHILD, FOLDER};
    assert UpTo(ahead, FOLDER) == ahead;
  }

  /** No number of refreshes will show the link as it should be. */
  ghost predicate Stranded(db: Db, l: LinkId) {
    && l in db.links && Rooted(db.links, l)
    && forall maxima :: AllPositive(maxima) && PathRefreshes(db, maxima).Ok?
                        && NothingPending(PathRefreshes(db, maxima).value.pathJobs)
         ==> !Shows(PathRefreshes(db, maxima).value, l)
  }

  lemma MovedAgain(db: Db, name: string, other: string)
    requires Tree(db, name) && name != other && Shows(db, CHILD)
    requires |db.pathJobs| == 1 && db.pathJobs[0].root == FOLDER_KEY && db.pathJobs[0].pending
    requires db.pathJobs[0].cursor == Some(CHILD)
    ensures var r := ApplyBatch(db, BatchOf([Naming(other)]), Durable); r.Ok? && Stranded(r.value, CHILD)
  {
    hide CatalogSound, ApplyBatch;
    Moved(db, name, other);
    Climb(db, name);
    var next := ApplyBatch(db, BatchOf([Naming(other)]), Durable).value;
    Climb(next, other);
    assert PendingRoot(db.pathJobs, FOLDER_KEY);
    assert next.pathJobs == db.pathJobs;
    OtherPath(name, other);
    assert !Shows(next, CHILD);
    assert !Awaited(next, CHILD);
    hide Shows, PathRefreshes;
    forall maxima | AllPositive(maxima) && PathRefreshes(next, maxima).Ok?
                    && NothingPending(PathRefreshes(next, maxima).value.pathJobs)
      ensures !Shows(PathRefreshes(next, maxima).value, CHILD)
    {
      PathsConverge(next, maxima, CHILD);
    }
  }

  lemma OtherPath(name: string, other: string)
    requires name != other
    ensures name + "/c" != other + "/c"
  {
    assert name == (name + "/c")[..|name + "/c"| - 2];
    assert other == (other + "/c")[..|other + "/c"| - 2];
  }

  const MOVED_TWICE: seq<Step> :=
    [ApplyStep(BatchOf(CREATE), Durable)] + [ApplyStep(BatchOf([Naming("b")]), Durable)] + [RefreshPathsStep(1)]
    + [ApplyStep(BatchOf([Naming("d")]), Durable)]

  /**
   * Descendants do not converge when a folder is moved again while its refresh is under way: the
   * pending job is left where it is, and what lies behind it keeps the path of the first move.
   */
  lemma MoveDuringRefreshLost()
    ensures exists steps, l :: AdmissibleRun(EMPTY_DB, steps) && Stranded(StateAfter(EMPTY_DB, steps), l)
  {
    hide ApplyBatch, RefreshPaths, Tree, Stranded, Shows;
    var none: seq<Step> := [];
    var create, first := ApplyStep(BatchOf(CREATE), Durable), ApplyStep(BatchOf([Naming("b")]), Durable);
    var page, second := RefreshPathsStep(1), ApplyStep(BatchOf([Naming("d")]), Durable);
    S.StateAfterOne(EMPTY_DB, none, create);
    S.StateAfterOne(EMPTY_DB, none + [create], first);
    S.StateAfterOne(EMPTY_DB, none + [create] + [first], page);
    S.StateAfterOne(EMPTY_DB, none + [create] + [first] + [page], second);
    assert none + [create] + [first] + [page] + [second] == MOVED_TWICE;
    hide StateAfter;
    Created();
    var created := ApplyBatch(EMPTY_DB, BatchOf(CREATE), Durable).value;
    Moved(created, "a", "b");
    var moved := ApplyBatch(created, BatchOf([Naming("b")]), Durable).value;
    FilePassed(moved, "b");
    var passed := RefreshPaths(moved, 1).value;
    MovedAgain(passed, "b", "d");
    S.NoNewConsumers(MOVED_TWICE);
    assert Stranded(StateAfter(EMPTY_DB, MOVED_TWICE), CHILD);
  }
}
