/** Versions: every document written and every row logged carries the generation that caused it. */
module CatalogVersions {
  import opened Core
  import opened Schema
  import opened GraphSpec
  import opened GraphTables
  import opened Replay
  import opened Catalog
  import opened GraphRuns

  function VersionOf(m: IndexMutation): nat {
    match m
    case Upsert(d) => d.version
    case Delete(_, version) => version
  }

  /** A document row is as it was, or was written under this generation. */
  ghost predicate StampedRow(a: Docs, b: Docs, g: nat, l: LinkId) {
    l in b ==> (l in a && a[l] == b[l]) || b[l].version == g
  }

  ghost predicate AllStamped(a: Docs, b: Docs, g: nat) {
    forall l :: StampedRow(a, b, g, l)
  }

  /** So is every row, and every row logged in between names this generation. */
  ghost predicate Stamped(a: Db, b: Db, g: nat) {
    && AllStamped(a.docs, b.docs, g)
    && a.outbox <= b.outbox
    && forall i :: |a.outbox| <= i < |b.outbox| ==> VersionOf(b.outbox[i].mutation) == g
  }

  /** Logging a change of the documents to rows of this generation. */
  lemma AppendStamps(db: Db, docs: Docs, m: IndexMutation, mode: OutboxMode, g: nat)
    requires VersionOf(m) == g && AllStamped(db.docs, docs, g)
    ensures Stamped(db, Append(db.(docs := docs), m, mode), g)
  {
    hide AllStamped;
  }

  lemma DroppedStamped(docs: Docs, l: LinkId, g: nat)
    ensures AllStamped(docs, docs, g) && AllStamped(docs, docs - {l}, g)
  {
  }

  lemma WrittenStamped(docs: Docs, l: LinkId, row: DocRow)
    ensures AllStamped(docs, docs[l := row], row.version)
  {
  }

  lemma ProjectStamps(db: Db, l: LinkId, derived: Option<Content>, g: nat, mode: OutboxMode)
    ensures Stamped(db, Project(db, l, derived, g, mode), g)
  {
    hide AllStamped, Append;
    DroppedStamped(db.docs, l, g);
    match derived {
      case None =>
        AppendStamps(db, db.docs - {l}, Delete(DocumentIdForLink(l), g), mode, g);
      case Some(content) =>
        var row := DocRow(content.identity.key, l, g, content.path, content);
        WrittenStamped(db.docs, l, row);
        AppendStamps(db, db.docs[l := row], Upsert(Document(content, g)), mode, g);
    }
  }

  lemma SyncStamps(db: Db, l: LinkId, g: nat, mode: OutboxMode)
    requires Sync(db, l, g, mode).Ok?
    ensures Stamped(db, Sync(db, l, g, mode).value, g)
  {
    hide Derive, Project, Stamped;
    ProjectStamps(db, l, Derive(db.volumes, db.objects, db.links, l).value, g, mode);
  }

  lemma StampedTwice(a: Db, b: Db, c: Db, g: nat)
    requires Stamped(a, b, g) && Stamped(b, c, g)
    ensures Stamped(a, c, g)
  {
    forall l ensures StampedRow(a.docs, c.docs, g, l) {
      assert StampedRow(a.docs, b.docs, g, l) && StampedRow(b.docs, c.docs, g, l);
    }
    forall i | |a.outbox| <= i < |c.outbox| ensures VersionOf(c.outbox[i].mutation) == g {
      if i < |b.outbox| {
        assert c.outbox[i] == b.outbox[i];
      }
    }
  }

  lemma {:induction false} SyncAllStamps(db: Db, ls: seq<LinkId>, g: nat, mode: OutboxMode)
    requires SyncAll(db, ls, g, mode).Ok?
    ensures Stamped(db, SyncAll(db, ls, g, mode).value, g)
  {
    if ls != [] {
      hide Stamped, Sync;
      var front := ls[..|ls| - 1];
      SyncAllStamps(db, front, g, mode);
      var prior := SyncAll(db, front, g, mode).value;
      SyncStamps(prior, ls[|ls| - 1], g, mode);
      StampedTwice(db, prior, SyncAll(db, ls, g, mode).value, g);
    }
  }

  /** A batch stamps what it changes with the next generation of its volume. */
  lemma BatchStamps(db: Db, b: Batch, mode: OutboxMode)
    requires CatalogSound(db) && ApplyBatch(db, b, mode).Ok?
    ensures var next := ApplyBatch(db, b, mode).value;
      Generation(next, b.volume) == Generation(db, b.volume) + 1 && Stamped(db, next, Generation(next, b.volume))
  {
    hide TablesSound, RowsShaped, FaithfulExcept, ApplyAll, SyncAll, Ascending, LinksFrom, SameGenerations;
    var g := Generation(db, b.volume) + 1;
    BatchHasEffect(db, b, mode);
    ApplyAllKeeps(Tx(db, {}), b.mutations, g, b.volume);
    var tx := Mutated(db, b).value;
    SyncAllStamps(tx.db, Ascending(tx.affected), g, mode);
  }

  /** Refreshes stamp what they change with the generation the volume is at. */
  lemma RefreshStamps(db: Db, maximum: nat)
    ensures RefreshVolume(db, maximum).Ok? ==>
      exists v :: Stamped(db, RefreshVolume(db, maximum).value, Generation(db, v))
                  && (PendingVolumes(db) != {} ==> v == Min(PendingVolumes(db)))
    ensures RefreshPaths(db, maximum).Ok? && FirstPending(db.pathJobs) < |db.pathJobs| ==>
      Stamped(db, RefreshPaths(db, maximum).value,
              Generation(db, db.pathJobs[FirstPending(db.pathJobs)].root.volume))
  {
    hide SyncAll, VolumeRefreshPage, PathRefreshPage;
    var r := RefreshVolume(db, maximum);
    if r.Ok? && maximum > 0 && PendingVolumes(db) != {} {
      var v := Min(PendingVolumes(db));
      SyncAllStamps(db, VolumeRefreshPage(db, v, db.volumeJobs[v].cursor, maximum), Generation(db, v), Durable);
      assert Stamped(db, r.value, Generation(db, v));
    } else if r.Ok? {
      var v := if PendingVolumes(db) != {} then Min(PendingVolumes(db)) else 0;
      assert Stamped(db, r.value, Generation(db, v));
    }
    var j := FirstPending(db.pathJobs);
    if RefreshPaths(db, maximum).Ok? && maximum > 0 && j < |db.pathJobs| {
      var v := db.pathJobs[j].root.volume;
      SyncAllStamps(db, PathRefreshPage(db, v, db.pathJobs[j].cursor, maximum), Generation(db, v), Durable);
    }
  }
}
