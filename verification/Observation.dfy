/** Mark-and-sweep observation: a completed scan leaves what its pages alone would have built. */
module Observation {
  import opened Core
  import opened Schema
  import opened GraphSpec
  import opened GraphTables
  import opened Catalog
  import opened Maintenance
  import opened Outbox
  import opened GraphRuns

  // ----- Reference: what a stream of observations says, with no database behind it

  datatype LinkShape = LinkShape(key: FileKey, parent: Option<FileKey>, name: string, boundary: bool)

  datatype Snapshot = Snapshot(objects: map<FileKey, Metadata>, links: map<LinkId, LinkShape>)

  const NOTHING_SEEN := Snapshot(map[], map[])

  function ObserveEvent(s: Snapshot, e: FilesystemEvent): Snapshot {
    match e
    case ObjectObserved(o) => s.(objects := s.objects[o.key := o.metadata])
    case LinkObserved(l) => s.(links := s.links[l.id := LinkShape(l.key, l.parent, l.name, false)])
    case LinkRemoved(id, _) => s.(links := s.links - {id})
    case _ => s
  }

  function ObserveEvents(s: Snapshot, events: seq<FilesystemEvent>): Snapshot {
    if events == [] then s else ObserveEvent(ObserveEvents(s, events[..|events| - 1]), events[|events| - 1])
  }

  function ObservePages(s: Snapshot, pages: seq<seq<FilesystemEvent>>): Snapshot {
    if pages == [] then s else ObserveEvents(ObservePages(s, pages[..|pages| - 1]), pages[|pages| - 1])
  }

  // ----- The database side

  function Shape(row: LinkRow): LinkShape {
    LinkShape(row.key, row.parent, row.name, row.boundary)
  }

  ghost predicate FreshLink(db: Db, v: VolumeId, cutoff: nat, l: LinkId) {
    l in db.links && db.links[l].key.volume == v && db.links[l].observed >= cutoff
  }

  /** The links observed since the cutoff are exactly the snapshot's, and its objects are stored. */
  ghost predicate Mirrors(db: Db, v: VolumeId, cutoff: nat, s: Snapshot) {
    && (forall l :: FreshLink(db, v, cutoff, l) <==> l in s.links)
    && (forall l :: l in s.links ==> Shape(db.links[l]) == s.links[l])
    && (forall k :: k in s.objects ==> k in db.objects && db.objects[k].metadata == s.objects[k])
  }

  lemma ConflictsStale(db: Db, link: LinkSnapshot, cutoff: nat)
    requires ScanCutoff(db, link.key.volume) == Some(cutoff)
    ensures forall l :: l in Ids(StaleConflicts(db, link)) ==> l in db.links && db.links[l].observed < cutoff
  {
    StaleConflictsBound(db, link);
  }

  lemma LinkMirrored(db: Db, link: LinkSnapshot, g: nat, v: VolumeId, cutoff: nat, s: Snapshot)
    requires TablesSound(db) && InVolume(UpsertLink(link, false), v) && cutoff <= g
    requires ScanCutoff(db, v) == Some(cutoff) && Mirrors(db, v, cutoff, s)
    requires ObserveLink(db, link, false, g).Ok?
    ensures Mirrors(ObserveLink(db, link, false, g).value, v, cutoff, ObserveEvent(s, LinkObserved(link)))
  {
    hide TablesSound, StaleConflicts, ObserveLink;
    ObserveLinkKeeps(db, link, false, g);
    ConflictsStale(db, link, cutoff);
    var next := ObserveLink(db, link, false, g).value;
    var s' := ObserveEvent(s, LinkObserved(link));
    forall l ensures FreshLink(next, v, cutoff, l) <==> l in s'.links {
      assert l != link.id ==> (FreshLink(next, v, cutoff, l) <==> FreshLink(db, v, cutoff, l));
    }
    forall l | l in s'.links ensures Shape(next.links[l]) == s'.links[l] {
      assert FreshLink(next, v, cutoff, l);
      assert l != link.id ==> FreshLink(db, v, cutoff, l);
    }
    forall k | k in s'.objects ensures k in next.objects && next.objects[k].metadata == s'.objects[k] {
      assert SameMetadata(db, next, k);
    }
  }

  lemma RemovalMirrored(db: Db, id: LinkId, key: FileKey, g: nat, v: VolumeId, cutoff: nat, s: Snapshot)
    requires TablesSound(db) && Mirrors(db, v, cutoff, s) && RemoveLinkRow(db, id, key, g, true).Ok?
    ensures Mirrors(RemoveLinkRow(db, id, key, g, true).value, v, cutoff, s.(links := s.links - {id}))
  {
    RemoveLinkRowKeeps(db, id, key, g, true);
    var next := RemoveLinkRow(db, id, key, g, true).value;
    var s' := s.(links := s.links - {id});
    forall l ensures FreshLink(next, v, cutoff, l) <==> l in s'.links {
      assert FreshLink(next, v, cutoff, l) <==> FreshLink(db, v, cutoff, l) && l != id;
    }
    forall l | l in s'.links ensures Shape(next.links[l]) == s'.links[l] {
      assert FreshLink(next, v, cutoff, l) && FreshLink(db, v, cutoff, l);
    }
    forall k | k in s'.objects ensures k in next.objects && next.objects[k].metadata == s'.objects[k] {
      assert SameMetadata(db, next, k);
    }
  }

  /** One event, a removal included, keeps the fresh part of the tables equal to the snapshot. */
  lemma EventMirrored(db: Db, e: FilesystemEvent, g: nat, v: VolumeId, cutoff: nat, s: Snapshot)
    requires TablesSound(db) && InVolume(FromEvent(e), v) && cutoff <= g
    requires ScanCutoff(db, v) == Some(cutoff) && Mirrors(db, v, cutoff, s)
    requires Apply(db, FromEvent(e), g).Ok?
    ensures Mirrors(Apply(db, FromEvent(e), g).value, v, cutoff, ObserveEvent(s, e))
  {
    if e.LinkObserved? {
      LinkMirrored(db, e.link, g, v, cutoff, s);
    } else if e.LinkRemoved? {
      RemovalMirrored(db, e.id, e.key, g, v, cutoff, s);
    } else {
      var next := Apply(db, FromEvent(e), g).value;
      forall l ensures FreshLink(next, v, cutoff, l) <==> l in s.links {
        assert FreshLink(next, v, cutoff, l) <==> FreshLink(db, v, cutoff, l);
      }
    }
  }

  lemma {:induction false} EventsMirrored(
    db: Db, events: seq<FilesystemEvent>, g: nat, v: VolumeId, cutoff: nat, s: Snapshot)
    requires TablesSound(db) && cutoff <= g
    requires forall i :: 0 <= i < |events| ==> InVolume(FromEvent(events[i]), v)
    requires ScanCutoff(db, v) == Some(cutoff) && Mirrors(db, v, cutoff, s)
    requires ApplyAll(Tx(db, {}), FromEvents(events), g).Ok?
    ensures Mirrors(ApplyAll(Tx(db, {}), FromEvents(events), g).value.db, v, cutoff, ObserveEvents(s, events))
  {
    if events != [] {
      var front := events[..|events| - 1];
      var ms := FromEvents(events);
      assert ms[..|ms| - 1] == FromEvents(front);
      EventsMirrored(db, front, g, v, cutoff, s);
      ApplyAllKeeps(Tx(db, {}), FromEvents(front), g, v);
      var prior := ApplyAll(Tx(db, {}), FromEvents(front), g).value.db;
      EventMirrored(prior, events[|events| - 1], g, v, cutoff, ObserveEvents(s, front));
    }
  }

  lemma SameRowsMirror(a: Db, b: Db, v: VolumeId, cutoff: nat, s: Snapshot)
    requires a.links == b.links && a.objects == b.objects && Mirrors(a, v, cutoff, s)
    ensures Mirrors(b, v, cutoff, s)
  {
    forall l ensures FreshLink(b, v, cutoff, l) <==> l in s.links {
      assert FreshLink(a, v, cutoff, l) <==> FreshLink(b, v, cutoff, l);
    }
  }

  /** The session is still scanning with this cutoff. */
  ghost predicate ScansSince(db: Db, v: VolumeId, cutoff: nat) {
    ScanCutoff(db, v) == Some(cutoff)
  }

  lemma PageMirrored(db: Db, v: VolumeId, events: seq<FilesystemEvent>, cutoff: nat, s: Snapshot)
    requires Sound(db) && ScansSince(db, v, cutoff) && Mirrors(db, v, cutoff, s)
    requires ApplyScanPage(db, v, events).Ok?
    ensures var next := ApplyScanPage(db, v, events).value;
      Sound(next) && ScansSince(next, v, cutoff) && Mirrors(next, v, cutoff, ObserveEvents(s, events))
  {
    hide Sound, CatalogSound, ApplyAll, ApplyBatch, TablesSound, Mirrors, StaleLinks;
    if events != [] {
      var b := Batch(v, ScanCheckpoint(v, cutoff), FromEvents(events));
      SoundParts(db);
      SoundSession(db, v);
      SoundTables(db);
      BatchTables(db, b, Durable);
      forall i | 0 <= i < |events| ensures InVolume(FromEvent(events[i]), v) {
        assert b.mutations[i] == FromEvent(events[i]);
      }
      EventsMirrored(db, events, Generation(db, v) + 1, v, cutoff, s);
      SameRowsMirror(Mutated(db, b).value.db, ApplyBatch(db, b, Durable).value, v, cutoff, ObserveEvents(s, events));
      BatchKeepsSound(db, b, Durable);
    }
  }

  ghost function RunPages(db: Db, v: VolumeId, pages: seq<seq<FilesystemEvent>>): Result<Db> {
    if pages == [] then Ok(db) else
      match RunPages(db, v, pages[..|pages| - 1])
      case Err(e) => Err(e)
      case Ok(prior) => ApplyScanPage(prior, v, pages[|pages| - 1])
  }

  lemma {:induction false} PagesMirrored(db: Db, v: VolumeId, pages: seq<seq<FilesystemEvent>>, cutoff: nat)
    requires Sound(db) && ScansSince(db, v, cutoff) && Mirrors(db, v, cutoff, NOTHING_SEEN)
    requires RunPages(db, v, pages).Ok?
    ensures var next := RunPages(db, v, pages).value;
      Sound(next) && ScansSince(next, v, cutoff) && Mirrors(next, v, cutoff, ObservePages(NOTHING_SEEN, pages))
  {
    if pages != [] {
      var front := pages[..|pages| - 1];
      PagesMirrored(db, v, front, cutoff);
      PageMirrored(RunPages(db, v, front).value, v, pages[|pages| - 1], cutoff, ObservePages(NOTHING_SEEN, front));
    }
  }

  /** Starting or restarting a scan makes every existing link of the volume stale. */
  lemma BeginMirrorsNothing(db: Db, v: VolumeId, mode: ScanMode)
    requires Sound(db)
    ensures var next := BeginScan(db, v, mode);
      && Sound(next) && ScansSince(next, v, Generation(db, v) + 1)
      && Mirrors(next, v, Generation(db, v) + 1, NOTHING_SEEN)
  {
    BeginScanKeeps(db, v, mode);
    var next := BeginScan(db, v, mode);
    var cutoff := Generation(db, v) + 1;
    forall l ensures !FreshLink(next, v, cutoff, l) {
      assert l in db.links ==> db.links[l].observed <= Generation(db, db.links[l].key.volume);
    }
  }

  // ----- Sweeping

  /** A session past scanning, with this cutoff and this staged checkpoint. */
  ghost predicate SweepsSince(db: Db, v: VolumeId, cutoff: nat, checkpoint: ProviderCheckpoint) {
    && v in db.sessions && db.sessions[v].phase != Scanning && db.sessions[v].cutoff == cutoff
    && db.sessions[v].staged == Some(checkpoint)
  }

  lemma StageMirrors(db: Db, v: VolumeId, checkpoint: ProviderCheckpoint, cutoff: nat, s: Snapshot)
    requires Sound(db) && ScansSince(db, v, cutoff) && Mirrors(db, v, cutoff, s)
    requires StageCheckpoint(db, v, checkpoint).Ok?
    ensures var next := StageCheckpoint(db, v, checkpoint).value;
      Sound(next) && SweepsSince(next, v, cutoff, checkpoint) && Mirrors(next, v, cutoff, s)
  {
    StageKeeps(db, v, checkpoint);
    SameRowsMirror(db, StageCheckpoint(db, v, checkpoint).value, v, cutoff, s);
  }

  /** Dropping stale links and raising tombstones leaves the fresh part alone. */
  lemma SweepMirrors(db: Db, next: Db, v: VolumeId, cutoff: nat, s: Snapshot, removed: set<LinkId>)
    requires Mirrors(db, v, cutoff, s) && next.links == db.links - removed
    requires removed <= StaleLinks(db, v, cutoff)
    requires forall k :: k in db.objects ==> k in next.objects && next.objects[k].metadata == db.objects[k].metadata
    ensures Mirrors(next, v, cutoff, s)
  {
    forall l ensures FreshLink(next, v, cutoff, l) <==> l in s.links {
      assert FreshLink(next, v, cutoff, l) <==> FreshLink(db, v, cutoff, l);
    }
    forall l | l in s.links ensures Shape(next.links[l]) == s.links[l] {
      assert FreshLink(next, v, cutoff, l);
    }
  }

  lemma LinkSweepMirrors(db: Db, v: VolumeId, maximum: nat, cutoff: nat, checkpoint: ProviderCheckpoint, s: Snapshot)
    requires Sound(db) && SweepsSince(db, v, cutoff, checkpoint) && db.sessions[v].phase == SweepingLinks
    requires Mirrors(db, v, cutoff, s) && v in db.volumes
    ensures var r := SweepLinksStep(db, v, maximum, Generation(db, v) + 1);
      r.Ok? && SweepsSince(r.value.db, v, cutoff, checkpoint) && Mirrors(r.value.db, v, cutoff, s)
  {
    var g := Generation(db, v) + 1;
    SweepPageBound(db, v, cutoff, maximum);
    var rows := RowsOf(db, LinkSweepPage(db, v, cutoff, maximum));
    SweepLinksKeeps(db, rows, g);
    var next := SweepLinksStep(db, v, maximum, g).value.db;
    var swept := SweepLinks(db, rows, g).value;
    forall k | k in db.objects ensures k in next.objects && next.objects[k].metadata == db.objects[k].metadata {
      assert SameMetadata(db, swept, k);
    }
    SweepMirrors(db, next, v, cutoff, s, Ids(rows));
  }

  lemma ObjectSweepMirrors(db: Db, v: VolumeId, maximum: nat, cutoff: nat, s: Snapshot)
    requires v in db.sessions && v in db.volumes && db.sessions[v].staged.Some? && Mirrors(db, v, cutoff, s)
    ensures Mirrors(AfterObjects(db, v, maximum), v, cutoff, s)
  {
    hide Mirrors, AfterObjects, ObjectSweepPage, SweepObjectsStep, SameCatalogLog, StaleLinks;
    SweepObjectsShape(db, v, maximum);
    assert db.links - {} == db.links;
    SweepMirrors(db, AfterObjects(db, v, maximum), v, cutoff, s, {});
  }

  /** All links of a volume, without their observation dates. */
  ghost function VolumeLinks(db: Db, v: VolumeId): map<LinkId, LinkShape> {
    map l | l in db.links && db.links[l].key.volume == v :: Shape(db.links[l])
  }

  /** What a completed scan leaves: the snapshot's links, live objects, the staged checkpoint. */
  ghost predicate Completed(db: Db, v: VolumeId, checkpoint: ProviderCheckpoint, s: Snapshot) {
    && Sound(db) && v !in db.sessions && VolumeLinks(db, v) == s.links
    && v in db.checkpoints && db.checkpoints[v] == checkpoint
    && v in db.volumes && db.volumes[v].state == VolumeOnline
    && (forall k :: k in s.objects ==> k in db.objects && db.objects[k].metadata == s.objects[k])
  }

  lemma NoStaleLeft(db: Db, v: VolumeId, cutoff: nat, s: Snapshot)
    requires Mirrors(db, v, cutoff, s) && StaleLinks(db, v, cutoff) == {}
    ensures VolumeLinks(db, v) == s.links
  {
    forall l ensures l in VolumeLinks(db, v) <==> l in s.links {
      assert l !in StaleLinks(db, v, cutoff);
      assert FreshLink(db, v, cutoff, l) <==> l in s.links;
    }
  }

  lemma ObjectSweepCompletes(
    db: Db, v: VolumeId, maximum: nat, cutoff: nat, checkpoint: ProviderCheckpoint, s: Snapshot)
    requires Sound(db) && SweepsSince(db, v, cutoff, checkpoint) && db.sessions[v].phase == SweepingObjects
    requires Mirrors(db, v, cutoff, s) && v in db.volumes
    ensures var r := SweepObjectsStep(db, v, maximum, Generation(db, v) + 1);
      r.Ok? && Mirrors(r.value.db, v, cutoff, s) &&
      if r.value.completed then Completed(r.value.db, v, checkpoint, s)
      else SweepsSince(r.value.db, v, cutoff, checkpoint)
  {
    SweepObjectsShape(db, v, maximum);
    SweepObjectsStepKeeps(db, v, maximum);
    ObjectSweepMirrors(db, v, maximum, cutoff, s);
    SoundSession(db, v);
    var next := AfterObjects(db, v, maximum);
    assert StaleLinks(next, v, cutoff) == StaleLinks(db, v, cutoff);
    NoStaleLeft(next, v, cutoff, s);
  }

  /** A finalization step goes on sweeping, or completes with the snapshot. */
  ghost predicate GoesOn(r: Result<Finalized>, v: VolumeId, cutoff: nat, checkpoint: ProviderCheckpoint, s: Snapshot) {
    r.Ok? && Sound(r.value.db) &&
    if r.value.completed then Completed(r.value.db, v, checkpoint, s)
    else SweepsSince(r.value.db, v, cutoff, checkpoint) && Mirrors(r.value.db, v, cutoff, s)
  }

  lemma FinalizeLinksMirrors(
    db: Db, v: VolumeId, maximum: nat, cutoff: nat, checkpoint: ProviderCheckpoint, s: Snapshot)
    requires Sound(db) && SweepsSince(db, v, cutoff, checkpoint) && Mirrors(db, v, cutoff, s)
    requires db.sessions[v].phase == SweepingLinks
    ensures GoesOn(SweepLinksStep(db, v, maximum, Generation(db, v) + 1), v, cutoff, checkpoint, s)
  {
    hide Sound, Mirrors, Completed, SweepLinksStep, Logged, Generation, TrackedExcept;
    SweepLinksStepKeeps(db, v, maximum);
    LinkSweepMirrors(db, v, maximum, cutoff, checkpoint, s);
  }

  lemma FinalizeObjectsMirrors(
    db: Db, v: VolumeId, maximum: nat, cutoff: nat, checkpoint: ProviderCheckpoint, s: Snapshot)
    requires Sound(db) && SweepsSince(db, v, cutoff, checkpoint) && Mirrors(db, v, cutoff, s)
    requires db.sessions[v].phase == SweepingObjects && v in db.volumes
    ensures GoesOn(SweepObjectsStep(db, v, maximum, Generation(db, v) + 1), v, cutoff, checkpoint, s)
  {
    hide Sound, Mirrors, Completed, SweepObjectsStep, AfterObjects, SameCatalogLog, Generation, TrackedExcept;
    ObjectSweepCompletes(db, v, maximum, cutoff, checkpoint, s);
    SweepObjectsShape(db, v, maximum);
    SweepObjectsStepKeeps(db, v, maximum);
  }

  /** Every bounded finalization step either goes on sweeping or completes with the snapshot. */
  lemma FinalizeStepMirrors(db: Db, v: VolumeId, maximum: nat, cutoff: nat, checkpoint: ProviderCheckpoint, s: Snapshot)
    requires Sound(db) && SweepsSince(db, v, cutoff, checkpoint) && Mirrors(db, v, cutoff, s)
    ensures GoesOn(FinalizeScan(db, v, maximum), v, cutoff, checkpoint, s)
  {
    hide Sound, Mirrors, Completed, SweepLinksStep, SweepObjectsStep, StaleLinks, Generation;
    SoundSession(db, v);
    if maximum > 0 {
      if db.sessions[v].phase == SweepingLinks {
        FinalizeLinksMirrors(db, v, maximum, cutoff, checkpoint, s);
      } else {
        FinalizeObjectsMirrors(db, v, maximum, cutoff, checkpoint, s);
      }
    }
  }

  // ----- Self-contained pages, scanned into an empty database

  /** Nothing is stale and nothing is stored that the pages did not observe. */
  ghost predicate Clean(db: Db, v: VolumeId, cutoff: nat, s: Snapshot) {
    && (forall l :: l in db.links ==> db.links[l].key.volume == v && db.links[l].observed >= cutoff)
    && db.objects.Keys == s.objects.Keys
  }

  lemma EventClean(db: Db, e: FilesystemEvent, g: nat, v: VolumeId, cutoff: nat, s: Snapshot)
    requires TablesSound(db) && InVolume(FromEvent(e), v) && cutoff <= g
    requires Clean(db, v, cutoff, s) && Apply(db, FromEvent(e), g).Ok?
    ensures Clean(Apply(db, FromEvent(e), g).value, v, cutoff, ObserveEvent(s, e))
  {
    ApplyDates(db, FromEvent(e), g, v);
    if e.LinkObserved? {
      ObserveLinkKeeps(db, e.link, false, g);
    } else if e.LinkRemoved? {
      RemoveLinkRowKeeps(db, e.id, e.key, g, true);
    }
  }

  lemma {:induction false} EventsClean(
    db: Db, events: seq<FilesystemEvent>, g: nat, v: VolumeId, cutoff: nat, s: Snapshot)
    requires TablesSound(db) && cutoff <= g
    requires forall i :: 0 <= i < |events| ==> InVolume(FromEvent(events[i]), v)
    requires Clean(db, v, cutoff, s) && ApplyAll(Tx(db, {}), FromEvents(events), g).Ok?
    ensures Clean(ApplyAll(Tx(db, {}), FromEvents(events), g).value.db, v, cutoff, ObserveEvents(s, events))
  {
    if events != [] {
      var front := events[..|events| - 1];
      var ms := FromEvents(events);
      assert ms[..|ms| - 1] == FromEvents(front);
      EventsClean(db, front, g, v, cutoff, s);
      ApplyAllKeeps(Tx(db, {}), FromEvents(front), g, v);
      var prior := ApplyAll(Tx(db, {}), FromEvents(front), g).value.db;
      EventClean(prior, events[|events| - 1], g, v, cutoff, ObserveEvents(s, front));
    }
  }

  lemma PageEventsInVolume(db: Db, v: VolumeId, events: seq<FilesystemEvent>, i: nat)
    requires events != [] && ApplyScanPage(db, v, events).Ok? && i < |events|
    ensures InVolume(FromEvent(events[i]), v)
  {
    assert FromEvents(events)[i] == FromEvent(events[i]);
  }

  lemma PageClean(db: Db, v: VolumeId, events: seq<FilesystemEvent>, cutoff: nat, s: Snapshot)
    requires Sound(db) && ScansSince(db, v, cutoff) && Clean(db, v, cutoff, s)
    requires ApplyScanPage(db, v, events).Ok?
    ensures Clean(ApplyScanPage(db, v, events).value, v, cutoff, ObserveEvents(s, events))
  {
    hide Sound, CatalogSound, ApplyAll, ApplyBatch, TablesSound, StaleLinks;
    if events != [] {
      var b := Batch(v, ScanCheckpoint(v, cutoff), FromEvents(events));
      SoundParts(db);
      SoundSession(db, v);
      SoundTables(db);
      BatchTables(db, b, Durable);
      forall i | 0 <= i < |events| ensures InVolume(FromEvent(events[i]), v) {
        assert b.mutations[i] == FromEvent(events[i]);
      }
      EventsClean(db, events, Generation(db, v) + 1, v, cutoff, s);
    }
  }

  lemma {:induction false} PagesClean(db: Db, v: VolumeId, pages: seq<seq<FilesystemEvent>>, cutoff: nat)
    requires Sound(db) && ScansSince(db, v, cutoff) && Mirrors(db, v, cutoff, NOTHING_SEEN)
    requires Clean(db, v, cutoff, NOTHING_SEEN)
    requires RunPages(db, v, pages).Ok?
    ensures Clean(RunPages(db, v, pages).value, v, cutoff, ObservePages(NOTHING_SEEN, pages))
  {
    if pages != [] {
      var front := pages[..|pages| - 1];
      PagesClean(db, v, front, cutoff);
      PagesMirrored(db, v, front, cutoff);
      PageClean(RunPages(db, v, front).value, v, pages[|pages| - 1], cutoff, ObservePages(NOTHING_SEEN, front));
    }
  }

  /** The same pages on an empty database. */
  ghost function Rebuilt(v: VolumeId, mode: ScanMode, pages: seq<seq<FilesystemEvent>>): Result<Db> {
    RunPages(BeginScan(EMPTY_DB, v, mode), v, pages)
  }

  lemma RebuiltIsSnapshot(v: VolumeId, mode: ScanMode, pages: seq<seq<FilesystemEvent>>)
    requires Rebuilt(v, mode, pages).Ok?
    ensures var e := Rebuilt(v, mode, pages).value;
      var s := ObservePages(NOTHING_SEEN, pages);
      && Sound(e) && VolumeLinks(e, v) == s.links && e.objects.Keys == s.objects.Keys
      && (forall k :: k in s.objects ==> e.objects[k].metadata == s.objects[k])
      && (forall l :: l in s.links ==> s.links[l].key in s.objects)
  {
    EmptySound();
    BeginMirrorsNothing(EMPTY_DB, v, mode);
    PagesMirrored(BeginScan(EMPTY_DB, v, mode), v, pages, 1);
    PagesClean(BeginScan(EMPTY_DB, v, mode), v, pages, 1);
    var e := Rebuilt(v, mode, pages).value;
    var s := ObservePages(NOTHING_SEEN, pages);
    assert StaleLinks(e, v, 1) == {};
    NoStaleLeft(e, v, 1, s);
    forall l | l in s.links ensures s.links[l].key in s.objects {
      assert l in VolumeLinks(e, v);
      assert e.links[l].key in e.objects;
    }
  }

  /** The volume holds the same links, bound to live objects with the same metadata. */
  ghost predicate SameVolume(a: Db, b: Db, v: VolumeId) {
    && VolumeLinks(a, v) == VolumeLinks(b, v)
    && forall l :: l in VolumeLinks(a, v) ==>
         var k := a.links[l].key;
         && k in a.objects && k in b.objects && a.objects[k].metadata == b.objects[k].metadata
         && !a.objects[k].tombstoned && !b.objects[k].tombstoned
  }

  lemma CompletedIsRebuilt(done: Db, e: Db, v: VolumeId, checkpoint: ProviderCheckpoint, s: Snapshot)
    requires Completed(done, v, checkpoint, s) && Sound(e) && VolumeLinks(e, v) == s.links
    requires e.objects.Keys == s.objects.Keys && (forall k :: k in s.objects ==> e.objects[k].metadata == s.objects[k])
    requires forall l :: l in s.links ==> s.links[l].key in s.objects
    ensures SameVolume(done, e, v)
  {
    forall l | l in VolumeLinks(done, v)
      ensures var k := done.links[l].key;
        && k in done.objects && k in e.objects && done.objects[k].metadata == e.objects[k].metadata
        && !done.objects[k].tombstoned && !e.objects[k].tombstoned
    {
      assert VolumeLinks(done, v)[l] == s.links[l] && VolumeLinks(e, v)[l] == s.links[l];
      assert done.links[l].key == s.links[l].key == e.links[l].key;
    }
  }
}
