/** Bounded sweeps and refreshes keep the catalog sound, current where promised, and logged. */
module Maintenance {
  import opened Core
  import opened Schema
  import opened GraphSpec
  import opened GraphTables
  import opened Replay
  import opened Catalog

  /** A transaction that only removes, projects or tombstones; `removed` are the links it dropped. */
  ghost predicate Swept(a: Db, b: Db, removed: set<LinkId>) {
    && CatalogSound(b) && (TrackedExcept(a, {}) ==> TrackedExcept(b, {}))
    && |a.outbox| <= |b.outbox| && Logged(a, b, NewRows(a, b))
    && b.links == a.links - removed && SameMetadataAll(a, b) && a.objects.Keys == b.objects.Keys
    && a.volumes == b.volumes && a.volumeJobs == b.volumeJobs && a.consumers == b.consumers
    && a.sessions == b.sessions && a.checkpoints == b.checkpoints && a.pathJobs == b.pathJobs
  }

  lemma RemovedLinkPending(db: Db, next: Db, id: LinkId)
    requires CatalogSound(db) && LinkStep(db, next) && next.links == db.links - {id}
    ensures FaithfulExcept(next, {id})
    ensures TrackedExcept(db, {}) ==> TrackedExcept(next, {id})
  {
    forall l | l in next.docs && l != id ensures RowMatches(next.objects, next.links, l, next.docs[l]) {
      assert RowMatches(db.objects, db.links, l, db.docs[l]);
      assert SameMetadata(db, next, db.links[l].key);
    }
    if TrackedExcept(db, {}) {
      forall l | l in next.docs && l != id ensures Tracked(next, l) {
        assert RowMatches(db.objects, db.links, l, db.docs[l]);
        assert SameMetadata(db, next, db.links[l].key);
        assert Tracked(db, l);
      }
    }
  }

  lemma SyncOneIsSyncAll(db: Db, l: LinkId, version: nat, mode: OutboxMode)
    ensures Sync(db, l, version, mode) == SyncAll(db, [l], version, mode)
  {
    assert [l][..0] == [];
  }

  lemma SyncRemoved(db: Db, removed: Db, id: LinkId, g: nat)
    requires CatalogSound(db) && TablesSound(removed) && LinkStep(db, removed)
    requires removed.links == db.links - {id} && removed.pathJobs == db.pathJobs
    ensures var r := SyncAll(removed, [id], g, Durable); r.Ok? && Swept(db, r.value, {id})
  {
    hide TablesSound, RowsShaped, FaithfulExcept, TrackedExcept, LastProjected, SyncAll, CatalogSound,
      WellIdentified, Run;
    RowsStayShaped(db, removed);
    RemovedLinkPending(db, removed, id);
    SyncSettles(removed, [id], {id}, g, Durable);
    SyncAllLogged(removed, [id], g);
    SameDocsSameProjected(db, removed);
    var swept := SyncAll(removed, [id], g, Durable).value;
    forall k ensures SameMetadata(db, swept, k) {
      assert SameMetadata(db, removed, k);
    }
    assert NewRows(db, swept) == NewRows(removed, swept);
  }

  lemma RowsStayShaped(db: Db, removed: Db)
    requires CatalogSound(db) && LinkStep(db, removed)
    ensures RowsShaped(removed.docs)
  {
  }

  lemma SweepLinkKeeps(db: Db, id: LinkId, key: FileKey, g: nat)
    requires CatalogSound(db) && id in db.links && db.links[id].key == key
    ensures SweepLink(db, id, key, g).Ok? && Swept(db, SweepLink(db, id, key, g).value, {id})
  {
    RemoveLinkRowKeeps(db, id, key, g, false);
    var removed := RemoveLinkRow(db, id, key, g, false).value;
    SyncRemoved(db, removed, id, g);
    SyncOneIsSyncAll(removed, id, g, Durable);
  }

  lemma SweptTransitive(a: Db, b: Db, c: Db, first: set<LinkId>, second: set<LinkId>)
    requires Swept(a, b, first) && Swept(b, c, second)
    ensures Swept(a, c, first + second)
  {
    LoggedTransitive(a, b, c, NewRows(a, b), NewRows(b, c));
    assert NewRows(a, c) == NewRows(a, b) + NewRows(b, c);
    forall k ensures SameMetadata(a, c, k) {
      assert SameMetadata(a, b, k) && SameMetadata(b, c, k);
    }
    assert a.links - (first + second) == (a.links - first) - second;
  }

  lemma SweptNothing(db: Db)
    requires CatalogSound(db)
    ensures Swept(db, db, {})
  {
    assert NewRows(db, db) == [];
    assert db.links - {} == db.links;
  }

  lemma {:induction false} SweepLinksKeeps(db: Db, rows: seq<(LinkId, FileKey)>, g: nat)
    requires CatalogSound(db) && Bound(db, rows)
    ensures SweepLinks(db, rows, g).Ok? && Swept(db, SweepLinks(db, rows, g).value, Ids(rows))
  {
    hide TrackedExcept, Logged, SameMetadataAll, SweepLink, LastProjected;
    if rows == [] {
      SweptNothing(db);
      assert Ids(rows) == {};
    } else {
      var front, last := rows[..|rows| - 1], rows[|rows| - 1];
      SweepLinksKeeps(db, front, g);
      var prior := SweepLinks(db, front, g).value;
      assert last.0 !in Ids(front);
      SweepLinkKeeps(prior, last.0, last.1, g);
      SweptTransitive(db, prior, SweepLink(prior, last.0, last.1, g).value, Ids(front), {last.0});
      assert rows == front + [last];
      assert Ids(rows) == Ids(front) + {last.0};
    }
  }

  lemma SweepPageBound(db: Db, v: VolumeId, cutoff: nat, maximum: nat)
    ensures var page := LinkSweepPage(db, v, cutoff, maximum);
      && (forall i :: 0 <= i < |page| ==> page[i].id in db.links)
      && Bound(db, RowsOf(db, page))
      && (forall l :: l in Ids(RowsOf(db, page)) ==> l in StaleLinks(db, v, cutoff))
      && (|page| < maximum ==> Ids(RowsOf(db, page)) == StaleLinks(db, v, cutoff))
  {
    LinkSweepPageRows(db, v, cutoff, maximum);
    var all := set l | l in StaleLinks(db, v, cutoff) :: Aged(db.links[l].observed, l);
    var page := LinkSweepPage(db, v, cutoff, maximum);
    var rows := RowsOf(db, page);
    ByAgeDistinct(all);
    ByAgeEnumerates(all);
    forall i, j | 0 <= i < j < |rows| ensures rows[i].0 != rows[j].0 {
      assert page[i] in ByAge(all) && page[j] in ByAge(all);
      assert page[i] in all && page[j] in all;
      assert page[i] != page[j];
    }
    forall l | l in Ids(rows) ensures l in StaleLinks(db, v, cutoff) {
      var i :| 0 <= i < |rows| && rows[i].0 == l;
      assert page[i].id == l;
    }
    if |page| < maximum {
      forall l | l in StaleLinks(db, v, cutoff) ensures l in Ids(rows) {
        var i :| 0 <= i < |page| && page[i].id == l;
        assert rows[i] in rows;
      }
    }
  }

  lemma {:induction false} ByAgeDistinct(s: set<Aged>)
    ensures forall i, j :: 0 <= i < j < |ByAge(s)| ==> ByAge(s)[i] != ByAge(s)[j]
  {
    if s != {} {
      ByAgeEnumerates(s - {Oldest(s)});
      ByAgeDistinct(s - {Oldest(s)});
    }
  }

  // ----- Volume refresh

  lemma AscendingPage(s: set<nat>, maximum: nat)
    requires maximum > 0
    ensures var page := Limit(Ascending(s), maximum);
      && (forall x :: x in page ==> x in s)
      && (|page| < maximum ==> forall x :: x in s ==> x in page)
      && (|page| == maximum ==> forall x :: x in s && x <= page[|page| - 1] ==> x in page)
  {
    AscendingEnumerates(s);
    var all := Ascending(s);
    var page := Limit(all, maximum);
    if |page| == maximum {
      forall x | x in s && x <= page[|page| - 1] ensures x in page {
        assert x in all;
        var i :| 0 <= i < |all| && all[i] == x;
        assert page[|page| - 1] == all[|page| - 1];
        assert i < |page|;
        assert page[i] == x;
      }
    }
  }

  /** The job after one page: finished when the page is short, else moved to its last link. */
  ghost function AdvanceJob(job: VolumeJob, page: seq<LinkId>, maximum: nat): VolumeJob
    requires maximum > 0
  {
    if |page| < maximum then job.(pending := false) else job.(cursor := Some(page[|page| - 1]))
  }

  lemma CursorTracks(db: Db, synced: Db, v: VolumeId, page: seq<LinkId>, maximum: nat)
    requires maximum > 0 && v in db.volumeJobs && db.volumeJobs[v].pending
    requires SameGraph(db, synced) && TrackedExcept(db, {})
    requires forall l :: l in page ==> Fresh(synced, l)
    requires forall l :: l !in page ==> Find(synced.docs, l) == Find(db.docs, l)
    requires forall l :: l in db.docs && db.docs[l].key.volume == v && Beyond(db.volumeJobs[v].cursor, l) ==>
      l in page || (|page| >= maximum && page[|page| - 1] < l)
    ensures TrackedExcept(synced.(volumeJobs := db.volumeJobs[v := AdvanceJob(db.volumeJobs[v], page, maximum)]), {})
  {
    var next := synced.(volumeJobs := db.volumeJobs[v := AdvanceJob(db.volumeJobs[v], page, maximum)]);
    forall l | l in next.docs ensures Tracked(next, l) {
      if l in page {
        assert Fresh(synced, l);
      } else {
        assert Find(synced.docs, l) == Find(db.docs, l);
        assert Tracked(db, l);
      }
    }
  }

  lemma RefreshPageTracks(db: Db, v: VolumeId, maximum: nat)
    requires CatalogSound(db) && maximum > 0 && v in db.volumeJobs && db.volumeJobs[v].pending
    requires TrackedExcept(db, {})
    ensures var page := VolumeRefreshPage(db, v, db.volumeJobs[v].cursor, maximum);
      var r := SyncAll(db, page, Generation(db, v), Durable);
      var moved := AdvanceJob(db.volumeJobs[v], page, maximum);
      r.Ok? && TrackedExcept(r.value.(volumeJobs := db.volumeJobs[v := moved]), {})
  {
    hide TablesSound, RowsShaped, FaithfulExcept, TrackedExcept, Fresh, SyncAll, Ascending, SameGraph;
    var page := VolumeRefreshPage(db, v, db.volumeJobs[v].cursor, maximum);
    SyncAllFresh(db, page, Generation(db, v), Durable);
    var ahead := set l | l in db.docs && db.docs[l].key.volume == v && Beyond(db.volumeJobs[v].cursor, l);
    AscendingPage(ahead, maximum);
    CursorTracks(db, SyncAll(db, page, Generation(db, v), Durable).value, v, page, maximum);
  }

  ghost predicate Refreshed(db: Db, next: Db) {
    && CatalogSound(next) && (TrackedExcept(db, {}) ==> TrackedExcept(next, {}))
    && |db.outbox| <= |next.outbox| && Logged(db, next, NewRows(db, next))
    && SameGraph(db, next.(volumeJobs := db.volumeJobs, pathJobs := db.pathJobs))
  }

  lemma SyncedRefreshes(db: Db, page: seq<LinkId>, version: nat, next: Db)
    requires CatalogSound(db)
    requires SyncAll(db, page, version, Durable).Ok? ==>
      var synced := SyncAll(db, page, version, Durable).value;
      next == synced.(volumeJobs := next.volumeJobs, pathJobs := next.pathJobs)
    requires TrackedExcept(db, {}) ==> TrackedExcept(next, {})
    ensures Refreshed(db, next)
  {
    CatalogParts(db);
    hide TablesSound, RowsShaped, FaithfulExcept, TrackedExcept, LastProjected, SyncAll;
    SyncSettles(db, page, {}, version, Durable);
    SyncAllLogged(db, page, version);
    var synced := SyncAll(db, page, version, Durable).value;
    SameDocsSameProjected(synced, next);
    SameTablesSound(synced, next);
    assert NewRows(db, next) == NewRows(db, synced);
  }

  lemma CatalogParts(db: Db)
    requires CatalogSound(db)
    ensures TablesSound(db) && RowsShaped(db.docs) && FaithfulExcept(db, {})
  {
  }

  lemma SameTablesSound(a: Db, b: Db)
    requires CatalogSound(a) && a.volumes == b.volumes && a.objects == b.objects && a.links == b.links && a.docs ==
      b.docs
    ensures CatalogSound(b)
  {
  }

  /**
   * One refresh page: what lies behind the moved cursor is current, and once the job is done every
   * document of the volume is.
   */
  lemma RefreshVolumeKeeps(db: Db, maximum: nat)
    requires CatalogSound(db) && RefreshVolume(db, maximum).Ok?
    ensures var next := RefreshVolume(db, maximum).value;
      Refreshed(db, next) && next.volumeJobs.Keys == db.volumeJobs.Keys && next.pathJobs == db.pathJobs
  {
    if maximum == 0 || PendingVolumes(db) == {} {
      SweptNothing(db);
    } else {
      var v := Min(PendingVolumes(db));
      var page := VolumeRefreshPage(db, v, db.volumeJobs[v].cursor, maximum);
      var next := RefreshVolume(db, maximum).value;
      SyncSettles(db, page, {}, Generation(db, v), Durable);
      if TrackedExcept(db, {}) {
        RefreshPageTracks(db, v, maximum);
      }
      SyncedRefreshes(db, page, Generation(db, v), next);
    }
  }

  lemma RefreshPathsKeeps(db: Db, maximum: nat)
    requires CatalogSound(db) && RefreshPaths(db, maximum).Ok?
    ensures var next := RefreshPaths(db, maximum).value;
      && Refreshed(db, next) && next.volumeJobs == db.volumeJobs && |next.pathJobs| == |db.pathJobs|
      && (forall i :: 0 <= i < |db.pathJobs| ==> next.pathJobs[i].root == db.pathJobs[i].root)
  {
    var j := FirstPending(db.pathJobs);
    if maximum == 0 || j >= |db.pathJobs| {
      SweptNothing(db);
    } else {
      var v := db.pathJobs[j].root.volume;
      var page := PathRefreshPage(db, v, db.pathJobs[j].cursor, maximum);
      var next := RefreshPaths(db, maximum).value;
      SyncSettles(db, page, {}, Generation(db, v), Durable);
      SameCatalogKeeps(SyncAll(db, page, Generation(db, v), Durable).value, next);
      SyncedRefreshes(db, page, Generation(db, v), next);
    }
  }
}
