/** Scan sessions as the agent drives them: interleaved with every other operation of the graph. */
module ObservationRuns {
  import opened Core
  import opened Schema
  import opened GraphSpec
  import opened GraphTables
  import opened Catalog
  import opened Maintenance
  import opened Outbox
  import opened GraphRuns
  import opened Observation
  import opened ObservationProgress
  import C = Controller

  // ----- What work on other volumes leaves alone

  ghost predicate KeepsObjects(a: Db, b: Db, v: VolumeId) {
    forall k: FileKey :: k.volume == v ==>
      (k in b.objects <==> k in a.objects) && (k in a.objects ==> b.objects[k] == a.objects[k])
  }

  /** The same link rows and the same object rows of one volume. */
  ghost predicate KeepsVolume(a: Db, b: Db, v: VolumeId) {
    && (forall l :: l in a.links && a.links[l].key.volume == v ==> l in b.links && b.links[l] == a.links[l])
    && (forall l :: l in b.links && b.links[l].key.volume == v ==> l in a.links && a.links[l] == b.links[l])
    && KeepsObjects(a, b, v)
  }

  lemma KeepsVolumeTransitive(a: Db, b: Db, c: Db, v: VolumeId)
    requires KeepsVolume(a, b, v) && KeepsVolume(b, c, v)
    ensures KeepsVolume(a, c, v)
  {
  }

  lemma SameRowsKeep(a: Db, b: Db, v: VolumeId)
    requires b.links == a.links && KeepsObjects(a, b, v)
    ensures KeepsVolume(a, b, v)
  {
  }

  // ----- Object rows that link steps touch

  lemma RemovalKeepsObjects(db: Db, id: LinkId, key: FileKey, g: nat, refresh: bool, v: VolumeId)
    requires key.volume != v && RemoveLinkRow(db, id, key, g, refresh).Ok?
    ensures KeepsObjects(db, RemoveLinkRow(db, id, key, g, refresh).value, v)
  {
  }

  lemma {:induction false} RemovalsKeepObjects(db: Db, rows: seq<(LinkId, FileKey)>, g: nat, v: VolumeId)
    requires (forall i :: 0 <= i < |rows| ==> rows[i].1.volume != v) && RemoveLinkRows(db, rows, g).Ok?
    ensures KeepsObjects(db, RemoveLinkRows(db, rows, g).value, v)
    decreases rows
  {
    if rows != [] {
      RemovalKeepsObjects(db, rows[0].0, rows[0].1, g, false, v);
      RemovalsKeepObjects(RemoveLinkRow(db, rows[0].0, rows[0].1, g, false).value, rows[1..], g, v);
    }
  }

  lemma WriteKeepsObjects(db: Db, link: LinkSnapshot, boundary: bool, g: nat, v: VolumeId)
    requires link.key.volume != v && WriteLink(db, link, boundary, g).Ok?
    ensures KeepsObjects(db, WriteLink(db, link, boundary, g).value, v)
  {
    hide WriteLink, SlotTaken;
    WriteLinkShape(db, link, boundary, g);
  }

  lemma ObserveKeepsObjects(db: Db, link: LinkSnapshot, boundary: bool, g: nat, v: VolumeId)
    requires TablesSound(db) && link.key.volume != v && ObserveLink(db, link, boundary, g).Ok?
    requires link.parent.Some? ==> link.parent.value.volume == link.key.volume
    requires link.id in db.links ==> db.links[link.id].key.volume != v
    ensures KeepsObjects(db, ObserveLink(db, link, boundary, g).value, v)
  {
    hide TablesSound, StaleConflicts, RemoveLinkRows, WriteLink;
    var rows := StaleConflicts(db, link);
    ConflictsOnVolume(db, link, v);
    StaleConflictsBound(db, link);
    forall i | 0 <= i < |rows| ensures rows[i].1.volume != v {
      assert rows[i] in rows && rows[i].0 in Ids(rows);
    }
    RemovalsKeepObjects(db, rows, g, v);
    WriteKeepsObjects(RemoveLinkRows(db, rows, g).value, link, boundary, g, v);
  }

  lemma {:induction false} SweepKeepsObjects(db: Db, rows: seq<(LinkId, FileKey)>, g: nat, v: VolumeId)
    requires (forall i :: 0 <= i < |rows| ==> rows[i].1.volume != v) && SweepLinks(db, rows, g).Ok?
    ensures KeepsObjects(db, SweepLinks(db, rows, g).value, v)
  {
    if rows != [] {
      var front, last := rows[..|rows| - 1], rows[|rows| - 1];
      SweepKeepsObjects(db, front, g, v);
      var prior := SweepLinks(db, front, g).value;
      RemovalKeepsObjects(prior, last.0, last.1, g, false, v);
    }
  }

  /** No upsert of another volume's batch names a link identity bound on `v`. */
  ghost predicate SparesIds(db: Db, v: VolumeId, ms: seq<GraphMutation>) {
    forall i :: 0 <= i < |ms| && ms[i].UpsertLink? && ms[i].link.id in db.links ==>
      db.links[ms[i].link.id].key.volume != v
  }

  lemma SparesIdsKept(a: Db, b: Db, v: VolumeId, ms: seq<GraphMutation>)
    requires SparesIds(a, v, ms) && KeepsVolume(a, b, v)
    ensures SparesIds(b, v, ms)
  {
  }

  /** A stale row in the slot of a link lies on that link's own volume. */
  lemma ConflictsOnVolume(db: Db, link: LinkSnapshot, v: VolumeId)
    requires TablesSound(db) && link.key.volume != v
    requires link.parent.Some? ==> link.parent.value.volume == link.key.volume
    requires link.id in db.links ==> db.links[link.id].key.volume != v
    ensures forall l :: l in Ids(StaleConflicts(db, link)) ==> l in db.links && db.links[l].key.volume != v
  {
    StaleConflictsBound(db, link);
  }

  /** Link rows of other volumes replaced or dropped. */
  lemma LinkStepSpares(db: Db, next: Db, gone: set<LinkId>, written: map<LinkId, LinkRow>, v: VolumeId)
    requires KeepsObjects(db, next, v) && next.links == (db.links - gone) + written
    requires forall l :: l in gone && l in db.links ==> db.links[l].key.volume != v
    requires forall l :: l in written ==> written[l].key.volume != v && (l in db.links ==> db.links[l].key.volume != v)
    ensures KeepsVolume(db, next, v)
  {
    hide KeepsObjects;
  }

  lemma UpsertLinkSpares(db: Db, link: LinkSnapshot, boundary: bool, g: nat, v: VolumeId)
    requires TablesSound(db) && link.key.volume != v && ObserveLink(db, link, boundary, g).Ok?
    requires link.parent.Some? ==> link.parent.value.volume == link.key.volume
    requires link.id in db.links ==> db.links[link.id].key.volume != v
    ensures KeepsVolume(db, ObserveLink(db, link, boundary, g).value, v)
  {
    hide TablesSound, LinkStep, StaleConflicts, ObserveLink, KeepsVolume, KeepsObjects;
    ConflictsOnVolume(db, link, v);
    ObserveLinkKeeps(db, link, boundary, g);
    ObserveKeepsObjects(db, link, boundary, g, v);
    var gone := Ids(StaleConflicts(db, link));
    var row := LinkRow(link.key, link.parent, link.name, boundary, g);
    assert (db.links - gone)[link.id := row] == (db.links - gone) + map[link.id := row];
    LinkStepSpares(db, ObserveLink(db, link, boundary, g).value, gone, map[link.id := row], v);
  }

  lemma RemoveLinkSpares(db: Db, id: LinkId, key: FileKey, g: nat, v: VolumeId)
    requires TablesSound(db) && key.volume != v && RemoveLinkRow(db, id, key, g, true).Ok?
    ensures KeepsVolume(db, RemoveLinkRow(db, id, key, g, true).value, v)
  {
    hide TablesSound, LinkStep, RemoveLinkRow, KeepsVolume, KeepsObjects;
    RemoveLinkRowKeeps(db, id, key, g, true);
    RemovalKeepsObjects(db, id, key, g, true, v);
    assert db.links - {id} == (db.links - {id}) + map[];
    LinkStepSpares(db, RemoveLinkRow(db, id, key, g, true).value, {id}, map[], v);
  }

  lemma ApplySpares(db: Db, m: GraphMutation, g: nat, u: VolumeId, v: VolumeId)
    requires TablesSound(db) && InVolume(m, u) && u != v && Apply(db, m, g).Ok?
    requires m.UpsertLink? && m.link.id in db.links ==> db.links[m.link.id].key.volume != v
    ensures KeepsVolume(db, Apply(db, m, g).value, v)
  {
    hide TablesSound, ObserveLink, RemoveLinkRow;
    match m {
      case UpsertLink(link, boundary) => UpsertLinkSpares(db, link, boundary, g, v);
      case RemoveLink(id, key) => RemoveLinkSpares(db, id, key, g, v);
      case _ =>
    }
  }

  lemma {:induction false} ApplyAllSpares(db: Db, ms: seq<GraphMutation>, g: nat, u: VolumeId, v: VolumeId)
    requires TablesSound(db) && u != v && SparesIds(db, v, ms) && ApplyAll(Tx(db, {}), ms, g).Ok?
    requires forall i :: 0 <= i < |ms| ==> InVolume(ms[i], u)
    ensures KeepsVolume(db, ApplyAll(Tx(db, {}), ms, g).value.db, v)
  {
    hide TablesSound, KeepsVolume, SparesIds;
    if ms == [] {
      SameObjectsKeep(db, db, v);
      SameRowsKeep(db, db, v);
    } else {
      var front, last := ms[..|ms| - 1], ms[|ms| - 1];
      SparesFront(db, v, ms);
      ApplyAllSpares(db, front, g, u, v);
      ApplyAllKeeps(Tx(db, {}), front, g, u);
      var prior := ApplyAll(Tx(db, {}), front, g).value.db;
      SparesIdsKept(db, prior, v, ms);
      SparesFront(prior, v, ms);
      ApplySpares(prior, last, g, u, v);
      KeepsVolumeTransitive(db, prior, ApplyAll(Tx(db, {}), ms, g).value.db, v);
    }
  }

  lemma SparesFront(db: Db, v: VolumeId, ms: seq<GraphMutation>)
    requires SparesIds(db, v, ms) && ms != []
    ensures SparesIds(db, v, ms[..|ms| - 1])
    ensures var last := ms[|ms| - 1];
      last.UpsertLink? && last.link.id in db.links ==> db.links[last.link.id].key.volume != v
  {
  }

  lemma BatchSpares(db: Db, b: Batch, mode: OutboxMode, v: VolumeId)
    requires CatalogSound(db) && b.volume != v && SparesIds(db, v, b.mutations) && ApplyBatch(db, b, mode).Ok?
    ensures KeepsVolume(db, ApplyBatch(db, b, mode).value, v)
    ensures ApplyBatch(db, b, mode).value.sessions == db.sessions
  {
    hide ApplyAll, ApplyBatch, TablesSound, FaithfulExcept, RowsShaped, SparesIds, KeepsVolume, KeepsObjects;
    BatchTables(db, b, mode);
    ApplyAllSpares(db, b.mutations, Generation(db, b.volume) + 1, b.volume, v);
    var tx, next := Mutated(db, b).value, ApplyBatch(db, b, mode).value;
    SameObjectsKeep(tx.db, next, v);
    SameRowsKeep(tx.db, next, v);
    KeepsVolumeTransitive(db, tx.db, next, v);
  }

  lemma LinkSweepSpares(db: Db, u: VolumeId, maximum: nat, v: VolumeId)
    requires Sound(db) && u in db.sessions && db.sessions[u].phase == SweepingLinks && u != v && u in db.volumes
    ensures var r := SweepLinksStep(db, u, maximum, Generation(db, u) + 1);
      r.Ok? && KeepsVolume(db, r.value.db, v)
  {
    hide Sound, CatalogSound, KeepsVolume, KeepsObjects, LinkSweepPage, RowsOf, SweepLinks, Logged, TrackedExcept,
      LastProjected;
    SoundParts(db);
    SweepLinksStepKeeps(db, u, maximum);
    var cutoff := db.sessions[u].cutoff;
    SweepPageBound(db, u, cutoff, maximum);
    var rows := RowsOf(db, LinkSweepPage(db, u, cutoff, maximum));
    SweepLinksKeeps(db, rows, Generation(db, u) + 1);
    var swept := SweepLinks(db, rows, Generation(db, u) + 1).value;
    var next := SweepLinksStep(db, u, maximum, Generation(db, u) + 1).value.db;
    forall i | 0 <= i < |rows| ensures rows[i].1.volume != v {
      assert rows[i] in rows && rows[i].0 in Ids(rows);
    }
    SweepKeepsObjects(db, rows, Generation(db, u) + 1, v);
    SameObjectsKeep(swept, next, v);
    assert db.links - Ids(rows) == (db.links - Ids(rows)) + map[];
    LinkStepSpares(db, swept, Ids(rows), map[], v);
    SameRowsKeep(swept, next, v);
    KeepsVolumeTransitive(db, swept, next, v);
  }

  lemma SameObjectsKeep(a: Db, b: Db, v: VolumeId)
    requires a.objects == b.objects
    ensures KeepsObjects(a, b, v)
  {
  }

  lemma FinalizeSpares(db: Db, u: VolumeId, maximum: nat, v: VolumeId)
    requires Sound(db) && u != v && FinalizeScan(db, u, maximum).Ok?
    ensures var next := FinalizeScan(db, u, maximum).value.db;
      KeepsVolume(db, next, v) && SameSession(db, next, v)
  {
    hide Sound, KeepsVolume, KeepsObjects, SweepLinksStep, SweepObjectsStep, AfterObjects, StaleLinks, SameCatalogLog,
      Generation, C.FewerLinks;
    if maximum == 0 {
      SameObjectsKeep(db, db, v);
      SameRowsKeep(db, db, v);
    } else {
      SoundSession(db, u);
      if db.sessions[u].phase == SweepingLinks {
        LinkSweepSpares(db, u, maximum, v);
        C.SweepLinksFrame(db, u, maximum);
      } else {
        SweepObjectsShape(db, u, maximum);
        C.ObjectsFrame(db, u, maximum);
        ObjectSweepSpares(db, u, maximum, v);
        SameRowsKeep(db, AfterObjects(db, u, maximum), v);
      }
    }
  }

  lemma ObjectSweepSpares(db: Db, u: VolumeId, maximum: nat, v: VolumeId)
    requires u != v && u in db.sessions && u in db.volumes && db.sessions[u].staged.Some?
    ensures KeepsObjects(db, AfterObjects(db, u, maximum), v)
  {
    hide ObjectSweepPage;
  }

  ghost predicate SameSession(a: Db, b: Db, v: VolumeId) {
    (v in b.sessions <==> v in a.sessions) && (v in a.sessions ==> b.sessions[v] == a.sessions[v])
  }

  // ----- A volume's session within a run of the whole graph

  /** The volume whose rows or session a step may write. */
  function Writes(step: Step): Option<VolumeId> {
    match step
    case ApplyStep(b, _) => Some(b.volume)
    case BeginScanStep(u, _) => Some(u)
    case ScanPageStep(u, _) => Some(u)
    case StageStep(u, _) => Some(u)
    case FinalizeStep(u, _) => Some(u)
    case _ => None
  }

  /**
   * Anything may happen between the calls of a session on `v`, except a foreign batch on `v`
   * itself or one that binds a link identity of `v` elsewhere.
   */
  ghost predicate Respects(db: Db, v: VolumeId, step: Step) {
    && Admissible(db, step)
    && (v in db.sessions ==>
         match step
         case ApplyStep(b, _) => b.volume != v && SparesIds(db, v, b.mutations)
         case ScanPageStep(u, events) => u != v ==> SparesIds(db, v, FromEvents(events))
         case _ => true)
  }

  lemma OtherStepSpares(db: Db, v: VolumeId, step: Step)
    requires Sound(db) && v in db.sessions && Respects(db, v, step) && Writes(step) != Some(v)
    ensures KeepsVolume(db, Next(db, step), v)
  {
    hide Sound, CatalogSound, KeepsVolume, ApplyBatch, SparesIds;
    SoundParts(db);
    SameObjectsKeep(db, db, v);
    SameRowsKeep(db, db, v);
    if Next(db, step) != db {
      match step {
        case ApplyStep(b, mode) => BatchSpares(db, b, mode, v);
        case ScanPageStep(u, events) =>
          BatchSpares(db, Batch(u, ScanCheckpoint(u, db.sessions[u].cutoff), FromEvents(events)), Durable, v);
        case BeginScanStep(u, mode) =>
          SameObjectsKeep(db, BeginScan(db, u, mode), v);
          SameRowsKeep(db, BeginScan(db, u, mode), v);
        case StageStep(u, checkpoint) =>
          SameObjectsKeep(db, Next(db, step), v);
          SameRowsKeep(db, Next(db, step), v);
        case FinalizeStep(u, maximum) => FinalizeSpares(db, u, maximum, v);
        case _ => MaintenanceSpares(db, v, step);
      }
    }
  }

  lemma MaintenanceSpares(db: Db, v: VolumeId, step: Step)
    requires CatalogSound(db) && Writes(step).None?
    ensures KeepsVolume(db, Next(db, step), v) && SameSession(db, Next(db, step), v)
  {
    hide CatalogSound, KeepsVolume;
    C.MaintenanceFrame(db, step);
    SameObjectsKeep(db, Next(db, step), v);
    SameRowsKeep(db, Next(db, step), v);
  }

  /** Only a session call of `v` starts, changes or ends the session of `v`. */
  lemma OtherStepSession(db: Db, v: VolumeId, step: Step)
    requires Sound(db) && (Writes(step) != Some(v) || step.ApplyStep?)
    ensures SameSession(db, Next(db, step), v)
  {
    hide Sound, CatalogSound, ApplyBatch, FinalizeScan, KeepsVolume;
    SoundParts(db);
    if Next(db, step) != db {
      match step {
        case ApplyStep(b, mode) => BatchHasEffect(db, b, mode);
        case ScanPageStep(u, events) =>
          BatchHasEffect(db, Batch(u, ScanCheckpoint(u, db.sessions[u].cutoff), FromEvents(events)), Durable);
        case BeginScanStep(u, mode) =>
        case StageStep(u, checkpoint) =>
        case FinalizeStep(u, maximum) => FinalizeSpares(db, u, maximum, v);
        case _ => MaintenanceSpares(db, v, step);
      }
    }
  }

  // ----- Following one volume

  /** The graph, and the pages committed to the session of one volume since it last began. */
  datatype Watch = Watch(db: Db, pages: seq<seq<FilesystemEvent>>)

  ghost function Watched(w: Watch, v: VolumeId, step: Step): Watch {
    var next := Next(w.db, step);
    match step
    case BeginScanStep(u, _) => Watch(next, if u == v then [] else w.pages)
    case ScanPageStep(u, events) =>
      Watch(next, if u == v && ApplyScanPage(w.db, v, events).Ok? then w.pages + [events] else w.pages)
    case _ => Watch(next, w.pages)
  }

  ghost function Seen(w: Watch): Snapshot {
    ObservePages(NOTHING_SEEN, w.pages)
  }

  ghost predicate OfVolume(s: Snapshot, v: VolumeId) {
    forall k :: k in s.objects ==> k.volume == v
  }

  /** While a session lasts, the rows observed since it began are what its own pages say. */
  ghost predicate Mirroring(w: Watch, v: VolumeId) {
    v in w.db.sessions ==> OfVolume(Seen(w), v) && Mirrors(w.db, v, w.db.sessions[v].cutoff, Seen(w))
  }

  lemma MirrorsKept(a: Db, b: Db, v: VolumeId, cutoff: nat, s: Snapshot)
    requires KeepsVolume(a, b, v) && OfVolume(s, v) && Mirrors(a, v, cutoff, s)
    ensures Mirrors(b, v, cutoff, s)
  {
    forall l ensures FreshLink(b, v, cutoff, l) <==> l in s.links {
      assert FreshLink(a, v, cutoff, l) <==> FreshLink(b, v, cutoff, l);
    }
    forall l | l in s.links ensures Shape(b.links[l]) == s.links[l] {
      assert FreshLink(a, v, cutoff, l);
    }
  }

  lemma {:induction false} EventsOfVolume(s: Snapshot, events: seq<FilesystemEvent>, v: VolumeId)
    requires OfVolume(s, v) && forall i :: 0 <= i < |events| ==> InVolume(FromEvent(events[i]), v)
    ensures OfVolume(ObserveEvents(s, events), v)
  {
    if events != [] {
      EventsOfVolume(s, events[..|events| - 1], v);
    }
  }

  lemma PageWatched(w: Watch, v: VolumeId, events: seq<FilesystemEvent>)
    requires Sound(w.db) && Mirroring(w, v) && ApplyScanPage(w.db, v, events).Ok?
    ensures Mirroring(Watched(w, v, ScanPageStep(v, events)), v)
    ensures v in Next(w.db, ScanPageStep(v, events)).sessions
  {
    hide Sound, Mirrors;
    var cutoff := w.db.sessions[v].cutoff;
    PageMirrored(w.db, v, events, cutoff, Seen(w));
    var next := Watched(w, v, ScanPageStep(v, events));
    assert next.pages[..|w.pages|] == w.pages;
    if events != [] {
      forall i | 0 <= i < |events| ensures InVolume(FromEvent(events[i]), v) {
        PageEventsInVolume(w.db, v, events, i);
      }
    }
    EventsOfVolume(Seen(w), events, v);
  }

  /** A finalization call goes on with the same snapshot, or ends the session with exactly it. */
  lemma FinalizeWatched(w: Watch, v: VolumeId, maximum: nat)
    requires Sound(w.db) && Mirroring(w, v)
    ensures var next := Watched(w, v, FinalizeStep(v, maximum));
      && Mirroring(next, v) && (v !in w.db.sessions ==> v !in next.db.sessions)
      && (v in w.db.sessions && v !in next.db.sessions ==>
           w.db.sessions[v].staged.Some? && Completed(next.db, v, w.db.sessions[v].staged.value, Seen(w)))
  {
    hide Sound, Mirrors, Completed, SweepLinksStep, SweepObjectsStep, StaleLinks;
    if v in w.db.sessions && w.db.sessions[v].phase != Scanning {
      SoundSession(w.db, v);
      var cutoff, checkpoint := w.db.sessions[v].cutoff, w.db.sessions[v].staged.value;
      FinalizeStepMirrors(w.db, v, maximum, cutoff, checkpoint, Seen(w));
      var r := FinalizeScan(w.db, v, maximum);
      if r.value.completed {
        CompletedEnds(r.value.db, v, checkpoint, Seen(w));
      }
    }
  }

  lemma CompletedEnds(db: Db, v: VolumeId, checkpoint: ProviderCheckpoint, s: Snapshot)
    requires Completed(db, v, checkpoint, s)
    ensures v !in db.sessions
  {
    hide Sound;
  }

  lemma OwnStepWatched(w: Watch, v: VolumeId, step: Step)
    requires Sound(w.db) && Mirroring(w, v) && Respects(w.db, v, step) && Writes(step) == Some(v)
    ensures Mirroring(Watched(w, v, step), v)
    ensures var next := Watched(w, v, step).db;
      v in w.db.sessions && v !in next.sessions ==>
        w.db.sessions[v].staged.Some? && Completed(next, v, w.db.sessions[v].staged.value, Seen(w))
  {
    hide Sound, Mirrors, Completed, ApplyBatch, FinalizeScan, KeepsVolume;
    match step {
      case ApplyStep(b, mode) => OtherStepSession(w.db, v, step);
      case BeginScanStep(u, mode) => BeginMirrorsNothing(w.db, v, mode);
      case ScanPageStep(u, events) =>
        if ApplyScanPage(w.db, v, events).Ok? {
          PageWatched(w, v, events);
        }
      case StageStep(u, checkpoint) =>
        if StageCheckpoint(w.db, v, checkpoint).Ok? {
          StageMirrors(w.db, v, checkpoint, w.db.sessions[v].cutoff, Seen(w));
        }
      case FinalizeStep(u, maximum) => FinalizeWatched(w, v, maximum);
    }
  }

  lemma StepWatched(w: Watch, v: VolumeId, step: Step)
    requires Sound(w.db) && Mirroring(w, v) && Respects(w.db, v, step)
    ensures Sound(Watched(w, v, step).db) && Mirroring(Watched(w, v, step), v)
    ensures var next := Watched(w, v, step).db;
      v in w.db.sessions && v !in next.sessions ==>
        w.db.sessions[v].staged.Some? && Completed(next, v, w.db.sessions[v].staged.value, Seen(w))
  {
    hide Sound, Mirrors, Completed, Next, KeepsVolume;
    StepKeepsSound(w.db, step);
    if Writes(step) == Some(v) {
      OwnStepWatched(w, v, step);
    } else {
      OtherStepSession(w.db, v, step);
      assert Watched(w, v, step).pages == w.pages;
      if v in w.db.sessions {
        OtherStepSpares(w.db, v, step);
        MirrorsKept(w.db, Next(w.db, step), v, w.db.sessions[v].cutoff, Seen(w));
      }
    }
  }

  ghost function WatchedRun(w: Watch, v: VolumeId, steps: seq<Step>): Watch {
    if steps == [] then w else Watched(WatchedRun(w, v, steps[..|steps| - 1]), v, steps[|steps| - 1])
  }

  ghost predicate RespectfulRun(w: Watch, v: VolumeId, steps: seq<Step>) {
    forall i :: 0 <= i < |steps| ==> Respects(WatchedRun(w, v, steps[..i]).db, v, steps[i])
  }

  lemma {:induction false} RunWatched(w: Watch, v: VolumeId, steps: seq<Step>)
    requires Sound(w.db) && Mirroring(w, v) && RespectfulRun(w, v, steps)
    ensures Sound(WatchedRun(w, v, steps).db) && Mirroring(WatchedRun(w, v, steps), v)
  {
    hide Sound, Mirroring, Respects;
    if steps != [] {
      var front := steps[..|steps| - 1];
      forall i | 0 <= i < |front| ensures Respects(WatchedRun(w, v, front[..i]).db, v, front[i]) {
        assert front[..i] == steps[..i];
      }
      RunWatched(w, v, front);
      StepWatched(WatchedRun(w, v, front), v, steps[|steps| - 1]);
    }
  }

  /** The watch adds nothing: its graph is the run's. */
  lemma {:induction false} WatchIsRun(w: Watch, v: VolumeId, steps: seq<Step>)
    ensures WatchedRun(w, v, steps).db == StateAfter(w.db, steps)
  {
    hide Next;
    if steps != [] {
      WatchIsRun(w, v, steps[..|steps| - 1]);
    }
  }

  /**
   * Mark-and-sweep refines rebuild-from-empty, in any run of the whole graph: begins, restarts,
   * pages, stagings and bounded sweeps of `v` interleaved with batches and sessions of other
   * volumes, refreshes, acknowledgements and prunes. Whenever a step ends the session of `v`, the
   * volume is what the pages since the last begin build on an empty graph, and the checkpoint the
   * provider returned is authoritative.
   */
  lemma MarkAndSweepRefinesRebuild(db: Db, v: VolumeId, steps: seq<Step>, step: Step, mode: ScanMode)
    requires Sound(db) && v !in db.sessions && RespectfulRun(Watch(db, []), v, steps)
    requires Respects(StateAfter(db, steps), v, step)
    ensures var pages := WatchedRun(Watch(db, []), v, steps).pages;
      var last, done := StateAfter(db, steps), StateAfter(db, steps + [step]);
      v in last.sessions && v !in done.sessions && Rebuilt(v, mode, pages).Ok? ==>
        && Sound(done) && SameVolume(done, Rebuilt(v, mode, pages).value, v)
        && v in done.checkpoints && last.sessions[v].staged == Some(done.checkpoints[v])
  {
    hide Sound, Mirrors, Next, SameVolume, Respects, VolumeLinks;
    var start := Watch(db, []);
    var w := WatchedRun(start, v, steps);
    WatchIsRun(start, v, steps);
    assert (steps + [step])[..|steps|] == steps;
    RunWatched(start, v, steps);
    StepWatched(w, v, step);
    var done := Next(w.db, step);
    if v in w.db.sessions && v !in done.sessions && Rebuilt(v, mode, w.pages).Ok? {
      RebuiltIsSnapshot(v, mode, w.pages);
      CompletedIsRebuilt(done, Rebuilt(v, mode, w.pages).value, v, w.db.sessions[v].staged.value, Seen(w));
    }
  }

  /**
   * At any point of such a run, a further page that the rebuild accepts is accepted too, over any
   * stale rows, reused names and rebound identities, exactly when its removals fit the stale rows;
   * a page of observations alone is always accepted.
   */
  lemma ScanNeverRefused(db: Db, v: VolumeId, steps: seq<Step>, events: seq<FilesystemEvent>, mode: ScanMode)
    requires Sound(db) && v !in db.sessions && RespectfulRun(Watch(db, []), v, steps)
    ensures var w := WatchedRun(Watch(db, []), v, steps);
      v in w.db.sessions && w.db.sessions[v].phase == Scanning && OwnIds(w.db, v, events)
      && Rebuilt(v, mode, w.pages + [events]).Ok? ==>
        && (ApplyScanPage(w.db, v, events).Ok?
            <==> AllFit(w.db, events, Generation(w.db, v) + 1, w.db.sessions[v].cutoff))
        && ((forall i :: 0 <= i < |events| ==> !events[i].LinkRemoved? && !events[i].ObjectRemoved?) ==>
             ApplyScanPage(w.db, v, events).Ok?)
  {
    hide Sound, Mirrors, Next, Clean, OwnIds, AllFit, ApplyScanPage, Respects, WatchedRun, RespectfulRun, Rebuilt,
      ObservePages, OfVolume;
    assert v !in db.sessions ==> Mirroring(Watch(db, []), v);
    var start := Watch(db, []);
    var w := WatchedRun(start, v, steps);
    RunWatched(start, v, steps);
    if v in w.db.sessions && w.db.sessions[v].phase == Scanning && OwnIds(w.db, v, events)
       && Rebuilt(v, mode, w.pages + [events]).Ok? {
      var e := RebuildMirrors(v, mode, w.pages, events);
      PageAccepted(w.db, e, v, events, w.db.sessions[v].cutoff, 1, Seen(w));
      if forall i :: 0 <= i < |events| ==> !events[i].LinkRemoved? && !events[i].ObjectRemoved? {
        ObservationsFit(w.db, events, Generation(w.db, v) + 1, w.db.sessions[v].cutoff);
      }
    }
  }

  /** The rebuild before its last page, as the mirror the acceptance argument compares with. */
  lemma RebuildMirrors(v: VolumeId, mode: ScanMode, pages: seq<seq<FilesystemEvent>>, events: seq<FilesystemEvent>)
    returns (e: Db)
    requires Rebuilt(v, mode, pages + [events]).Ok?
    ensures Sound(e) && ScansSince(e, v, 1) && ApplyScanPage(e, v, events).Ok?
    ensures Mirrors(e, v, 1, ObservePages(NOTHING_SEEN, pages)) && Clean(e, v, 1, ObservePages(NOTHING_SEEN, pages))
  {
    assert (pages + [events])[..|pages|] == pages;
    EmptySound();
    var begun := BeginScan(EMPTY_DB, v, mode);
    BeginMirrorsNothing(EMPTY_DB, v, mode);
    e := RunPages(begun, v, pages).value;
    assert Clean(begun, v, 1, NOTHING_SEEN);
    hide Sound, Mirrors, Clean, BeginScan;
    PagesMirrored(begun, v, pages, 1);
    PagesClean(begun, v, pages, 1);
  }
}
