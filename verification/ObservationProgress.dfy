/** Scans that make sense on their own are refused only for removals that stale rows contradict. */
module ObservationProgress {
  import opened Core
  import opened Schema
  import opened GraphSpec
  import opened GraphTables
  import opened Catalog
  import opened Maintenance
  import opened Outbox
  import opened GraphRuns
  import opened Observation

  // ----- Stale rows never cause a refusal

  /** The link identity an event names, if any. */
  function LinkNamed(e: FilesystemEvent): Option<LinkId> {
    match e
    case LinkObserved(link) => Some(link.id)
    case LinkRemoved(id, _) => Some(id)
    case _ => None
  }

  /** Link identities belong to one volume: none of these is bound on another. */
  ghost predicate OwnIds(db: Db, v: VolumeId, events: seq<FilesystemEvent>) {
    forall i :: 0 <= i < |events| && LinkNamed(events[i]).Some? && LinkNamed(events[i]).value in db.links ==>
      db.links[LinkNamed(events[i]).value].key.volume == v
  }

  lemma OwnIdsKept(a: Db, b: Db, v: VolumeId, g: nat, events: seq<FilesystemEvent>)
    requires OwnIds(a, v, events) && LinksFrom(a, b, v, g)
    ensures OwnIds(b, v, events)
  {
  }

  /** No stale row contradicts a removal; observations always fit. */
  ghost predicate Fits(db: Db, cutoff: nat, e: FilesystemEvent) {
    match e
    case LinkRemoved(id, key) => id in db.links && db.links[id].observed < cutoff ==> db.links[id].key == key
    case ObjectRemoved(key) => forall l :: l in db.links && db.links[l].key == key ==> db.links[l].observed >= cutoff
    case _ => true
  }

  /** What a successful write on clean tables says about the snapshot. */
  lemma CleanWriteMeans(e: Db, link: LinkSnapshot, g: nat, v: VolumeId, cutoff: nat, s: Snapshot)
    requires TablesSound(e) && Clean(e, v, cutoff, s) && Mirrors(e, v, cutoff, s)
    requires ScansSince(e, v, cutoff) && link.key.volume == v && ObserveLink(e, link, false, g).Ok?
    ensures link.key in s.objects
    ensures link.id in s.links ==> s.links[link.id].key == link.key
    ensures forall l :: l in s.links && l != link.id ==>
      !(s.links[l].name == link.name && s.links[l].parent == link.parent)
  {
    assert StaleConflicts(e, link) == [];
    forall l | l in s.links ensures FreshLink(e, v, cutoff, l) {}
    forall l | l in s.links && l != link.id
      ensures !(s.links[l].name == link.name && s.links[l].parent == link.parent)
    {
      assert FreshLink(e, v, cutoff, l);
      assert !InSlot(e.links[l], v, link.parent, link.name);
    }
  }

  lemma ClearedRows(db: Db, link: LinkSnapshot, v: VolumeId, cutoff: nat, s: Snapshot)
    requires TablesSound(db) && Mirrors(db, v, cutoff, s) && ScansSince(db, v, cutoff) && link.key.volume == v
    requires link.parent.Some? ==> link.parent.value.volume == v
    requires link.id in db.links ==> db.links[link.id].key.volume == v
    requires link.id in s.links ==> s.links[link.id].key == link.key
    requires forall l :: l in s.links && l != link.id ==>
      !(s.links[l].name == link.name && s.links[l].parent == link.parent)
    ensures var left := db.links - Ids(StaleConflicts(db, link));
      && (link.id in left ==> left[link.id].key == link.key)
      && forall l :: l in left && l != link.id ==> !InSlot(left[l], v, link.parent, link.name)
  {
    StaleConflictsBound(db, link);
    var left := db.links - Ids(StaleConflicts(db, link));
    if link.id in left {
      assert FreshLink(db, v, cutoff, link.id) <==> link.id in s.links;
    }
    forall l | l in left && l != link.id ensures !InSlot(left[l], v, link.parent, link.name) {
      if InSlot(left[l], v, link.parent, link.name) {
        assert left[l].key.volume == v;
        assert FreshLink(db, v, cutoff, l) <==> l in s.links;
        var slot := StaleInSlot(db, link, cutoff);
        assert l in slot;
        var m := Min(slot);
        assert m != l ==> ShareSlot(db.links[m], db.links[l]);
      }
    }
  }

  /** A link of the snapshot is the same row, dates aside, in every mirror. */
  lemma MirroredRow(db: Db, e: Db, v: VolumeId, cutoff: nat, ce: nat, s: Snapshot, l: LinkId)
    requires Mirrors(db, v, cutoff, s) && Mirrors(e, v, ce, s) && FreshLink(db, v, cutoff, l)
    ensures l in e.links && e.links[l].key == db.links[l].key
  {
    assert l in s.links;
    assert FreshLink(e, v, ce, l);
    assert Shape(e.links[l]) == s.links[l] == Shape(db.links[l]);
  }

  lemma RemovalAccepted(
    db: Db, e: Db, event: FilesystemEvent, g: nat, ge: nat, v: VolumeId, cutoff: nat, ce: nat, s: Snapshot)
    requires TablesSound(db) && Mirrors(db, v, cutoff, s) && TablesSound(e) && Mirrors(e, v, ce, s)
    requires Clean(e, v, ce, s)
    requires event.LinkRemoved? || event.ObjectRemoved?
    requires InVolume(FromEvent(event), v) && Apply(e, FromEvent(event), ge).Ok? && OwnIds(db, v, [event])
    ensures Apply(db, FromEvent(event), g).Ok? <==> Fits(db, cutoff, event)
  {
    if event.LinkRemoved? {
      RemoveLinkRowKeeps(db, event.id, event.key, g, true);
      RemoveLinkRowKeeps(e, event.id, event.key, ge, true);
      assert LinkNamed([event][0]) == Some(event.id);
      if event.id in db.links && db.links[event.id].observed >= cutoff {
        MirroredRow(db, e, v, cutoff, ce, s, event.id);
      }
    } else {
      forall l | FreshLink(db, v, cutoff, l) ensures db.links[l].key != event.key {
        MirroredRow(db, e, v, cutoff, ce, s, l);
        assert l !in LinksOf(e.links, event.key);
      }
      forall l | l in db.links && db.links[l].key == event.key ensures l in LinksOf(db.links, event.key) {
        assert !FreshLink(db, v, cutoff, l);
      }
    }
  }

  lemma LinkAccepted(db: Db, e: Db, link: LinkSnapshot, g: nat, ge: nat, v: VolumeId, cutoff: nat, ce: nat, s: Snapshot)
    requires TablesSound(db) && Mirrors(db, v, cutoff, s) && ScansSince(db, v, cutoff)
    requires TablesSound(e) && Mirrors(e, v, ce, s) && ScansSince(e, v, ce) && Clean(e, v, ce, s)
    requires InVolume(UpsertLink(link, false), v) && ObserveLink(e, link, false, ge).Ok?
    requires link.id in db.links ==> db.links[link.id].key.volume == v
    ensures ObserveLink(db, link, false, g).Ok?
  {
    CleanWriteMeans(e, link, ge, v, ce, s);
    ClearedRows(db, link, v, cutoff, s);
    StaleConflictsBound(db, link);
    RemoveLinkRowsKeeps(db, StaleConflicts(db, link), g);
  }

  /** An event that the rebuild accepts is accepted here exactly when it fits the stale rows. */
  lemma EventAccepted(
    db: Db, e: Db, event: FilesystemEvent, g: nat, ge: nat, v: VolumeId, cutoff: nat, ce: nat, s: Snapshot)
    requires TablesSound(db) && Mirrors(db, v, cutoff, s) && ScansSince(db, v, cutoff) && v in db.volumes
    requires TablesSound(e) && Mirrors(e, v, ce, s) && ScansSince(e, v, ce) && Clean(e, v, ce, s)
    requires InVolume(FromEvent(event), v) && Apply(e, FromEvent(event), ge).Ok? && OwnIds(db, v, [event])
    ensures Apply(db, FromEvent(event), g).Ok? <==> Fits(db, cutoff, event)
  {
    hide TablesSound, Mirrors, Clean, ObserveLink, RemoveLinkRow;
    if event.LinkObserved? {
      assert LinkNamed([event][0]) == Some(event.link.id);
      LinkAccepted(db, e, event.link, g, ge, v, cutoff, ce, s);
    } else if event.ObjectObserved? {
      assert event.snapshot.key.volume == v;
    } else if event.LinkRemoved? || event.ObjectRemoved? {
      RemovalAccepted(db, e, event, g, ge, v, cutoff, ce, s);
    }
  }

  /** Every event of a page fits the rows it meets. */
  ghost predicate AllFit(db: Db, events: seq<FilesystemEvent>, g: nat, cutoff: nat) {
    forall i :: 0 <= i < |events| && ApplyAll(Tx(db, {}), FromEvents(events[..i]), g).Ok? ==>
      Fits(ApplyAll(Tx(db, {}), FromEvents(events[..i]), g).value.db, cutoff, events[i])
  }

  lemma AllFitFront(db: Db, events: seq<FilesystemEvent>, g: nat, cutoff: nat)
    requires events != []
    ensures var front := events[..|events| - 1];
      AllFit(db, events, g, cutoff) <==>
        && AllFit(db, front, g, cutoff)
        && (ApplyAll(Tx(db, {}), FromEvents(front), g).Ok? ==>
             Fits(ApplyAll(Tx(db, {}), FromEvents(front), g).value.db, cutoff, events[|events| - 1]))
  {
    hide ApplyAll, Fits;
    var front := events[..|events| - 1];
    assert forall i :: 0 <= i < |front| ==> front[..i] == events[..i] && front[i] == events[i];
  }

  lemma OwnFront(db: Db, v: VolumeId, events: seq<FilesystemEvent>)
    requires OwnIds(db, v, events) && events != []
    ensures OwnIds(db, v, events[..|events| - 1]) && OwnIds(db, v, [events[|events| - 1]])
  {
    assert [events[|events| - 1]][0] == events[|events| - 1];
  }

  lemma SameScanCutoff(a: Db, b: Db, v: VolumeId)
    requires SameProjection(a, b)
    ensures ScanCutoff(b, v) == ScanCutoff(a, v)
  {
  }

  lemma {:induction false} EventsAccepted(
    db: Db, e: Db, events: seq<FilesystemEvent>, g: nat, ge: nat, v: VolumeId, cutoff: nat, ce: nat, s: Snapshot)
    requires TablesSound(db) && Mirrors(db, v, cutoff, s) && ScansSince(db, v, cutoff) && v in db.volumes && cutoff <= g
    requires TablesSound(e) && Mirrors(e, v, ce, s) && ScansSince(e, v, ce) && Clean(e, v, ce, s) && ce <= ge
    requires OwnIds(db, v, events)
    requires forall i :: 0 <= i < |events| ==> InVolume(FromEvent(events[i]), v)
    requires ApplyAll(Tx(e, {}), FromEvents(events), ge).Ok?
    ensures ApplyAll(Tx(db, {}), FromEvents(events), g).Ok? <==> AllFit(db, events, g, cutoff)
  {
    hide TablesSound, Mirrors, Clean, Fits, AllFit, OwnIds, LinksFrom, SameProjection, SameGenerations;
    if events == [] {
      NothingToFit(db, g, cutoff);
    } else {
      var front, last := events[..|events| - 1], events[|events| - 1];
      var ms := FromEvents(events);
      assert ms[..|ms| - 1] == FromEvents(front);
      OwnFront(db, v, events);
      EventsAccepted(db, e, front, g, ge, v, cutoff, ce, s);
      AllFitFront(db, events, g, cutoff);
      if ApplyAll(Tx(db, {}), FromEvents(front), g).Ok? {
        EventsMirrored(db, front, g, v, cutoff, s);
        EventsMirrored(e, front, ge, v, ce, s);
        EventsClean(e, front, ge, v, ce, s);
        ApplyAllKeeps(Tx(db, {}), FromEvents(front), g, v);
        ApplyAllKeeps(Tx(e, {}), FromEvents(front), ge, v);
        var prior := ApplyAll(Tx(db, {}), FromEvents(front), g).value.db;
        var clean := ApplyAll(Tx(e, {}), FromEvents(front), ge).value.db;
        SameScanCutoff(db, prior, v);
        SameScanCutoff(e, clean, v);
        OwnIdsKept(db, prior, v, g, events);
        OwnFront(prior, v, events);
        EventAccepted(prior, clean, last, g, ge, v, cutoff, ce, ObserveEvents(s, front));
      }
    }
  }

  lemma PageMutates(db: Db, e: Db, v: VolumeId, events: seq<FilesystemEvent>, cutoff: nat, ce: nat, s: Snapshot)
    requires Sound(db) && ScansSince(db, v, cutoff) && Mirrors(db, v, cutoff, s)
    requires Sound(e) && ScansSince(e, v, ce) && Mirrors(e, v, ce, s) && Clean(e, v, ce, s)
    requires OwnIds(db, v, events) && events != [] && ApplyScanPage(e, v, events).Ok?
    ensures v in db.volumes && ValidBatch(Batch(v, ScanCheckpoint(v, cutoff), FromEvents(events)))
    ensures ApplyAll(Tx(db, {}), FromEvents(events), Generation(db, v) + 1).Ok?
            <==> AllFit(db, events, Generation(db, v) + 1, cutoff)
  {
    hide Mirrors, Clean, SyncAll, OwnIds, AllFit, StaleLinks, OutboxSound, Dated, RowsShaped, FaithfulExcept,
      TablesSound;
    SoundSession(db, v);
    SoundSession(e, v);
    forall i | 0 <= i < |events| ensures InVolume(FromEvent(events[i]), v) {
      PageEventsInVolume(e, v, events, i);
    }
    EventsAccepted(db, e, events, Generation(db, v) + 1, Generation(e, v) + 1, v, cutoff, ce, s);
  }

  /** Projection never stands in the way of a batch whose mutations apply. */
  lemma BatchCommitsExactly(db: Db, b: Batch)
    requires CatalogSound(db) && ValidBatch(b) && b.volume in db.volumes
    ensures ApplyBatch(db, b, Durable).Ok? <==> ApplyAll(Tx(db, {}), b.mutations, Generation(db, b.volume) + 1).Ok?
  {
    hide TablesSound, FaithfulExcept, RowsShaped, SyncAll, ApplyAll, Ascending;
    var g := Generation(db, b.volume) + 1;
    if Mutated(db, b).Ok? {
      ApplyAllKeeps(Tx(db, {}), b.mutations, g, b.volume);
      var tx := Mutated(db, b).value;
      SyncAllFresh(tx.db, Ascending(tx.affected), g, Durable);
    }
  }

  /** A page that the rebuild accepts is accepted here exactly when its removals fit the stale rows. */
  lemma PageAccepted(db: Db, e: Db, v: VolumeId, events: seq<FilesystemEvent>, cutoff: nat, ce: nat, s: Snapshot)
    requires Sound(db) && ScansSince(db, v, cutoff) && Mirrors(db, v, cutoff, s)
    requires Sound(e) && ScansSince(e, v, ce) && Mirrors(e, v, ce, s) && Clean(e, v, ce, s)
    requires OwnIds(db, v, events) && ApplyScanPage(e, v, events).Ok?
    ensures ApplyScanPage(db, v, events).Ok? <==> AllFit(db, events, Generation(db, v) + 1, cutoff)
  {
    hide Sound, CatalogSound, Mirrors, Clean, OwnIds, AllFit, ApplyBatch, ApplyAll, Generation;
    SoundParts(db);
    if events == [] {
      NothingToFit(db, Generation(db, v) + 1, cutoff);
    } else {
      PageMutates(db, e, v, events, cutoff, ce, s);
      BatchCommitsExactly(db, Batch(v, ScanCheckpoint(v, cutoff), FromEvents(events)));
    }
  }

  lemma NothingToFit(db: Db, g: nat, cutoff: nat)
    ensures AllFit(db, [], g, cutoff)
  {
  }

  /** Observations alone always fit. */
  lemma ObservationsFit(db: Db, events: seq<FilesystemEvent>, g: nat, cutoff: nat)
    requires forall i :: 0 <= i < |events| ==> !events[i].LinkRemoved? && !events[i].ObjectRemoved?
    ensures AllFit(db, events, g, cutoff)
  {
    hide ApplyAll;
  }
}
