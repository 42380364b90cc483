/** When objects die: with their last link, by a tombstone, or by a completed sweep. */
module ObjectLife {
  import opened Core
  import opened Schema
  import opened GraphSpec
  import opened GraphTables
  import opened Catalog
  import opened Maintenance
  import opened GraphRuns

  ghost predicate Linked(links: Links, k: FileKey) {
    LinksOf(links, k) != {}
  }

  ghost predicate Dead(objects: Objects, k: FileKey) {
    k in objects && objects[k].tombstoned
  }

  /** An object that lost its last link died, and none that had no link to lose came back to life. */
  ghost predicate DiesUnlinked(a: Db, b: Db, k: FileKey) {
    && (Linked(a.links, k) && !Linked(b.links, k) ==> Dead(b.objects, k))
    && (!Linked(a.links, k) && Dead(a.objects, k) ==> !Linked(b.links, k) && Dead(b.objects, k))
  }

  lemma DiesTransitive(a: Db, b: Db, c: Db, k: FileKey)
    requires DiesUnlinked(a, b, k) && DiesUnlinked(b, c, k)
    ensures DiesUnlinked(a, c, k)
  {
  }

  /** A removed link takes its object with it exactly when it was the last one; no other object changes. */
  lemma RemovalKills(db: Db, id: LinkId, key: FileKey, g: nat, refresh: bool, k: FileKey)
    requires TablesSound(db) && RemoveLinkRow(db, id, key, g, refresh).Ok? && id in db.links
    ensures var next := RemoveLinkRow(db, id, key, g, refresh).value;
      && (Dead(next.objects, key) <==> !Linked(next.links, key))
      && (k != key ==> (k in next.objects <==> k in db.objects))
      && (k != key && k in db.objects ==> next.objects[k] == db.objects[k])
      && DiesUnlinked(db, next, k)
  {
    RemoveLinkRowKeeps(db, id, key, g, refresh);
    var next := RemoveLinkRow(db, id, key, g, refresh).value;
    assert id in LinksOf(db.links, key);
    if k != key {
      assert LinksOf(next.links, k) == LinksOf(db.links, k);
    }
  }

  lemma {:induction false} RemovalsKill(db: Db, rows: seq<(LinkId, FileKey)>, g: nat, k: FileKey)
    requires TablesSound(db) && Bound(db, rows)
    ensures RemoveLinkRows(db, rows, g).Ok? && DiesUnlinked(db, RemoveLinkRows(db, rows, g).value, k)
    decreases rows
  {
    if rows != [] {
      RemoveLinkRowKeeps(db, rows[0].0, rows[0].1, g, false);
      RemovalKills(db, rows[0].0, rows[0].1, g, false, k);
      var next := RemoveLinkRow(db, rows[0].0, rows[0].1, g, false).value;
      BoundTail(db, next, rows);
      RemovalsKill(next, rows[1..], g, k);
      DiesTransitive(db, next, RemoveLinkRows(next, rows[1..], g).value, k);
    }
  }

  /** Observing a link gives its object life and takes it from an object it pushes off its last link. */
  lemma ObservedLife(db: Db, link: LinkSnapshot, boundary: bool, g: nat, k: FileKey)
    requires TablesSound(db) && ObserveLink(db, link, boundary, g).Ok?
    ensures var next := ObserveLink(db, link, boundary, g).value;
      && link.key in next.objects && !next.objects[link.key].tombstoned && Linked(next.links, link.key)
      && (k != link.key ==> DiesUnlinked(db, next, k))
  {
    hide TablesSound, StaleConflicts;
    StaleConflictsBound(db, link);
    RemovalsKill(db, StaleConflicts(db, link), g, k);
    var cleared := RemoveLinkRows(db, StaleConflicts(db, link), g).value;
    WriteLinkShape(cleared, link, boundary, g);
    var next := WriteLink(cleared, link, boundary, g).value;
    assert link.id in LinksOf(next.links, link.key);
    if k != link.key {
      assert LinksOf(next.links, k) == LinksOf(cleared.links, k);
      DiesTransitive(db, cleared, next, k);
    }
  }

  /** Observed objects live, tombstoned ones are dead, and an object dies with its last link. */
  lemma MutationLife(db: Db, m: GraphMutation, g: nat, k: FileKey)
    requires TablesSound(db) && Apply(db, m, g).Ok?
    ensures var next := Apply(db, m, g).value;
      && (m.UpsertObject? ==> m.snapshot.key in next.objects && !next.objects[m.snapshot.key].tombstoned)
      && (m.UpsertLink? ==> Linked(next.links, m.link.key) && !Dead(next.objects, m.link.key))
      && (m.TombstoneObject? ==> Dead(next.objects, m.key) && !Linked(next.links, m.key))
      && (!(m.UpsertObject? && m.snapshot.key == k) && !(m.UpsertLink? && m.link.key == k) ==>
           DiesUnlinked(db, next, k))
  {
    match m {
      case UpsertLink(link, boundary) => ObservedLife(db, link, boundary, g, k);
      case RemoveLink(id, key) =>
        if id in db.links {
          RemovalKills(db, id, key, g, true, k);
        }
      case _ =>
    }
  }

  // ----- Sweeps

  lemma SyncLeavesObjects(db: Db, l: LinkId, g: nat)
    requires TablesSound(db) && RowsShaped(db.docs)
    ensures var r := Sync(db, l, g, Durable); r.Ok? && r.value.objects == db.objects && r.value.links == db.links
  {
    SyncFresh(db, l, g, Durable);
  }

  lemma SweepLinkKills(db: Db, id: LinkId, key: FileKey, g: nat, k: FileKey)
    requires CatalogSound(db) && id in db.links && db.links[id].key == key
    ensures SweepLink(db, id, key, g).Ok? && DiesUnlinked(db, SweepLink(db, id, key, g).value, k)
  {
    hide TablesSound, RowsShaped, FaithfulExcept, Sync, DiesUnlinked;
    RemoveLinkRowKeeps(db, id, key, g, false);
    RemovalKills(db, id, key, g, false, k);
    var removed := RemoveLinkRow(db, id, key, g, false).value;
    SyncLeavesObjects(removed, id, g);
    SameLife(db, removed, Sync(removed, id, g, Durable).value, k);
  }

  lemma SameLife(a: Db, b: Db, c: Db, k: FileKey)
    requires DiesUnlinked(a, b, k) && b.objects == c.objects && b.links == c.links
    ensures DiesUnlinked(a, c, k)
  {
  }

  /** A link sweep kills exactly as single removals do. */
  lemma {:induction false} SweepLinksKill(db: Db, rows: seq<(LinkId, FileKey)>, g: nat, k: FileKey)
    requires CatalogSound(db) && Bound(db, rows)
    ensures SweepLinks(db, rows, g).Ok? && DiesUnlinked(db, SweepLinks(db, rows, g).value, k)
  {
    hide CatalogSound, TrackedExcept, Logged, SameMetadataAll, SweepLink, LastProjected, DiesUnlinked;
    SweepLinksKeeps(db, rows, g);
    if rows == [] {
      NothingDies(db, k);
    } else {
      var front, last := rows[..|rows| - 1], rows[|rows| - 1];
      SweepLinksKeeps(db, front, g);
      SweepLinksKill(db, front, g, k);
      var prior := SweepLinks(db, front, g).value;
      assert last.0 !in Ids(front);
      SweepLinkKills(prior, last.0, last.1, g, k);
      DiesTransitive(db, prior, SweepLink(prior, last.0, last.1, g).value, k);
    }
  }

  lemma NothingDies(db: Db, k: FileKey)
    ensures DiesUnlinked(db, db, k)
  {
  }

  lemma ObjectPageComplete(db: Db, v: VolumeId, cutoff: nat, maximum: nat)
    ensures var page := ObjectSweepPage(db, v, cutoff, maximum);
      && KeysOf(v, page) <= StaleObjects(db, v, cutoff)
      && (|page| < maximum ==> KeysOf(v, page) == StaleObjects(db, v, cutoff))
  {
    var all := set k | k in StaleObjects(db, v, cutoff) :: Aged(db.objects[k].observed, k.file);
    ByAgeEnumerates(all);
    var page := ObjectSweepPage(db, v, cutoff, maximum);
    forall k | k in KeysOf(v, page) ensures k in StaleObjects(db, v, cutoff) {
      var a :| a in page && FileKey(v, a.id) == k;
      assert a in ByAge(all);
      assert a in all;
    }
    if |page| < maximum {
      assert page == ByAge(all);
      forall k | k in StaleObjects(db, v, cutoff) ensures k in KeysOf(v, page) {
        assert Aged(db.objects[k].observed, k.file) in all;
        assert FileKey(v, Aged(db.objects[k].observed, k.file).id) == k;
      }
    }
  }

  /**
   * A completed scan leaves no object of the volume alive that has no link and was not observed
   * since the scan began; and it kills no other.
   */
  lemma CompletedSweepKills(db: Db, v: VolumeId, maximum: nat, k: FileKey)
    requires Sound(db) && v in db.sessions && FinalizeScan(db, v, maximum).Ok?
    requires FinalizeScan(db, v, maximum).value.completed && k in db.objects
    ensures var next := FinalizeScan(db, v, maximum).value.db;
      && next.links == db.links && k in next.objects
      && (Dead(next.objects, k) <==>
           || Dead(db.objects, k)
           || (k.volume == v && !Linked(db.links, k) && db.objects[k].observed < db.sessions[v].cutoff))
  {
    hide Sound, StaleLinks, SweepLinksStep, ObjectSweepPage, KeysOf, StaleObjects;
    SoundSession(db, v);
    if db.sessions[v].phase == SweepingLinks {
      SweepLinksStepKeeps(db, v, maximum);
    } else {
      SweepObjectsShape(db, v, maximum);
      ObjectPageComplete(db, v, db.sessions[v].cutoff, maximum);
      StaleIs(db, v, db.sessions[v].cutoff, k);
    }
  }

  lemma StaleIs(db: Db, v: VolumeId, cutoff: nat, k: FileKey)
    requires k in db.objects
    ensures k in StaleObjects(db, v, cutoff) <==>
      k.volume == v && !Linked(db.links, k) && db.objects[k].observed < cutoff && !Dead(db.objects, k)
  {
  }
}
