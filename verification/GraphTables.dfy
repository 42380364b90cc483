/** What every graph mutation keeps true of the normalized tables, and what it leaves alone. */
module GraphTables {
  import opened Core
  import opened Schema
  import opened GraphSpec

  ghost predicate ObjectsHaveVolumes(volumes: Volumes, objects: Objects) {
    forall k :: k in objects ==> k.volume in volumes
  }

  /** Every linked object exists and is not tombstoned. */
  ghost predicate LinkedLive(objects: Objects, links: Links) {
    forall l :: l in links ==> links[l].key in objects && !objects[links[l].key].tombstoned
  }

  ghost predicate ParentsInVolume(links: Links) {
    forall l :: l in links && links[l].parent.Some? ==> links[l].parent.value.volume == links[l].key.volume
  }

  ghost predicate ShareSlot(a: LinkRow, b: LinkRow) {
    InSlot(a, b.key.volume, b.parent, b.name)
  }

  /** The two unique indexes on links. */
  ghost predicate SlotsUnique(links: Links) {
    forall l, m :: l in links && m in links && l != m ==> !ShareSlot(links[l], links[m])
  }

  ghost predicate TablesSound(db: Db) {
    && ObjectsHaveVolumes(db.volumes, db.objects)
    && LinkedLive(db.objects, db.links)
    && ParentsInVolume(db.links)
    && SlotsUnique(db.links)
  }

  /** Tables that no mutation writes. */
  ghost predicate SameProjection(a: Db, b: Db) {
    && a.docs == b.docs && a.outbox == b.outbox && a.sequenceMark == b.sequenceMark
    && a.consumers == b.consumers && a.sessions == b.sessions && a.checkpoints == b.checkpoints
  }

  ghost predicate SameLink(a: Db, b: Db, l: LinkId) {
    (l in a.links <==> l in b.links) && (l in a.links ==> a.links[l] == b.links[l])
  }

  ghost predicate SameMetadata(a: Db, b: Db, k: FileKey) {
    k in a.objects ==> k in b.objects && a.objects[k].metadata == b.objects[k].metadata
                       && a.objects[k].observed == b.objects[k].observed
  }

  ghost predicate SameLinksExcept(a: Db, b: Db, touched: set<LinkId>) {
    forall l :: l !in touched ==> SameLink(a, b, l)
  }

  ghost predicate SameMetadataAll(a: Db, b: Db) {
    forall k :: SameMetadata(a, b, k)
  }

  /** What a step on link rows leaves alone; it may change tombstone flags and path jobs. */
  ghost predicate LinkStep(a: Db, b: Db) {
    && SameProjection(a, b) && a.volumes == b.volumes && a.volumeJobs == b.volumeJobs
    && a.objects.Keys == b.objects.Keys && SameMetadataAll(a, b)
  }

  lemma LinkStepTransitive(a: Db, b: Db, c: Db)
    requires LinkStep(a, b) && LinkStep(b, c)
    ensures LinkStep(a, c)
  {
    forall k ensures SameMetadata(a, c, k) {
      assert SameMetadata(a, b, k) && SameMetadata(b, c, k);
    }
  }

  lemma DropLinkKeeps(db: Db, id: LinkId)
    requires TablesSound(db) && id in db.links
    ensures var next := DropLink(db, id, db.links[id].key);
      TablesSound(next) && LinkStep(db, next) && next.links == db.links - {id}
  {
    var key := db.links[id].key;
    var next := DropLink(db, id, key);
    forall l | l in next.links ensures !next.objects[next.links[l].key].tombstoned {
      assert next.links[l].key == key ==> l in LinksOf(next.links, key);
    }
  }

  lemma RemoveLinkRowKeeps(db: Db, id: LinkId, key: FileKey, generation: nat, refresh: bool)
    requires TablesSound(db)
    ensures var r := RemoveLinkRow(db, id, key, generation, refresh);
      && (r.Err? <==> id in db.links && db.links[id].key != key)
      && (r.Ok? ==>
           TablesSound(r.value) && LinkStep(db, r.value) && r.value.links == db.links - {id})
  {
    if id in db.links && db.links[id].key == key {
      DropLinkKeeps(db, id);
    }
  }

  ghost function Ids(rows: seq<(LinkId, FileKey)>): set<LinkId> {
    set c | c in rows :: c.0
  }

  /** Rows listed once each with the object they are bound to. */
  ghost predicate Bound(db: Db, rows: seq<(LinkId, FileKey)>) {
    && (forall i :: 0 <= i < |rows| ==> rows[i].0 in db.links && db.links[rows[i].0].key == rows[i].1)
    && (forall i, j :: 0 <= i < j < |rows| ==> rows[i].0 != rows[j].0)
  }

  lemma BoundTail(db: Db, next: Db, rows: seq<(LinkId, FileKey)>)
    requires Bound(db, rows) && rows != [] && next.links == db.links - {rows[0].0}
    ensures Bound(next, rows[1..])
  {
    var tail := rows[1..];
    forall i | 0 <= i < |tail| ensures tail[i].0 in next.links && next.links[tail[i].0].key == tail[i].1 {
      assert tail[i] == rows[i + 1];
    }
  }

  lemma DropIds(links: Links, rows: seq<(LinkId, FileKey)>)
    requires rows != []
    ensures (links - {rows[0].0}) - Ids(rows[1..]) == links - Ids(rows)
  {
    assert rows == [rows[0]] + rows[1..];
    assert Ids(rows) == {rows[0].0} + Ids(rows[1..]);
  }

  lemma {:induction false} RemoveLinkRowsKeeps(db: Db, rows: seq<(LinkId, FileKey)>, generation: nat)
    requires TablesSound(db) && Bound(db, rows)
    ensures var r := RemoveLinkRows(db, rows, generation);
      r.Ok? && TablesSound(r.value) && LinkStep(db, r.value) && r.value.links == db.links - Ids(rows)
    decreases rows
  {
    if rows == [] {
      assert db.links - Ids(rows) == db.links;
    } else {
      RemoveLinkRowKeeps(db, rows[0].0, rows[0].1, generation, false);
      var next := RemoveLinkRow(db, rows[0].0, rows[0].1, generation, false).value;
      BoundTail(db, next, rows);
      RemoveLinkRowsKeeps(next, rows[1..], generation);
      LinkStepTransitive(db, next, RemoveLinkRows(next, rows[1..], generation).value);
      DropIds(db.links, rows);
    }
  }

  lemma StaleConflictsBound(db: Db, link: LinkSnapshot)
    ensures Bound(db, StaleConflicts(db, link))
    ensures Ids(StaleConflicts(db, link)) == set c | c in StaleConflicts(db, link) :: c.0
  {
  }

  lemma WriteLinkKeeps(db: Db, link: LinkSnapshot, boundary: bool, generation: nat)
    requires TablesSound(db)
    requires link.parent.Some? ==> link.parent.value.volume == link.key.volume
    requires WriteLink(db, link, boundary, generation).Ok?
    ensures var next := WriteLink(db, link, boundary, generation).value;
      TablesSound(next) && LinkStep(db, next)
      && next.links == db.links[link.id := LinkRow(link.key, link.parent, link.name, boundary, generation)]
  {
    hide SlotsUnique, SlotTaken, ObjectsHaveVolumes, WriteLink;
    WriteLinkShape(db, link, boundary, generation);
    WrittenUnique(db, link, LinkRow(link.key, link.parent, link.name, boundary, generation));
    SameKeysHaveVolumes(db, WriteLink(db, link, boundary, generation).value);
  }

  lemma WriteLinkShape(db: Db, link: LinkSnapshot, boundary: bool, generation: nat)
    requires WriteLink(db, link, boundary, generation).Ok?
    ensures link.key in db.objects && !SlotTaken(db, link)
    ensures var next := WriteLink(db, link, boundary, generation).value;
      next == db.(
        links := db.links[link.id := LinkRow(link.key, link.parent, link.name, boundary, generation)],
        objects := SetTombstone(db.objects, link.key, false), pathJobs := next.pathJobs)
  {
    hide SlotTaken;
  }

  lemma SameKeysHaveVolumes(a: Db, b: Db)
    requires ObjectsHaveVolumes(a.volumes, a.objects) && a.volumes == b.volumes && b.objects.Keys == a.objects.Keys
    ensures ObjectsHaveVolumes(b.volumes, b.objects)
  {
    forall k | k in b.objects ensures k.volume in b.volumes {
      assert k in a.objects.Keys;
    }
  }

  /** A row in a free slot leaves every slot held once. */
  lemma WrittenUnique(db: Db, link: LinkSnapshot, row: LinkRow)
    requires SlotsUnique(db.links) && ParentsInVolume(db.links) && !SlotTaken(db, link)
    requires row.key == link.key && row.parent == link.parent && row.name == link.name
    requires link.parent.Some? ==> link.parent.value.volume == link.key.volume
    ensures SlotsUnique(db.links[link.id := row])
  {
    var links := db.links[link.id := row];
    forall l, m | l in links && m in links && l != m ensures !ShareSlot(links[l], links[m]) {
      if l == link.id {
        assert !InSlot(db.links[m], link.key.volume, link.parent, link.name);
      } else if m == link.id {
        assert !InSlot(db.links[l], link.key.volume, link.parent, link.name);
      } else {
        assert !ShareSlot(db.links[l], db.links[m]);
      }
    }
  }

  lemma ObserveLinkKeeps(db: Db, link: LinkSnapshot, boundary: bool, generation: nat)
    requires TablesSound(db)
    requires link.parent.Some? ==> link.parent.value.volume == link.key.volume
    requires ObserveLink(db, link, boundary, generation).Ok?
    ensures var next := ObserveLink(db, link, boundary, generation).value;
      var conflicts := StaleConflicts(db, link);
      TablesSound(next) && LinkStep(db, next)
      && next.links ==
        (db.links - Ids(conflicts))[link.id := LinkRow(link.key, link.parent, link.name, boundary, generation)]
  {
    StaleConflictsBound(db, link);
    RemoveLinkRowsKeeps(db, StaleConflicts(db, link), generation);
    var cleared := RemoveLinkRows(db, StaleConflicts(db, link), generation).value;
    WriteLinkKeeps(cleared, link, boundary, generation);
    LinkStepTransitive(db, cleared, ObserveLink(db, link, boundary, generation).value);
  }

  ghost predicate OnVolumeRow(m: GraphMutation) {
    m.UpsertVolume? || m.SetVolumeState? || m.RequireReconciliation?
  }

  /** A link that was not collected as affected keeps its row and its object's metadata. */
  ghost predicate MutationFrame(db: Db, next: Db, m: GraphMutation) {
    && SameProjection(db, next) && SameLinksExcept(db, next, Affected(db, m))
    && db.objects.Keys <= next.objects.Keys && db.volumes.Keys <= next.volumes.Keys
    && (!OnVolumeRow(m) ==> next.volumes == db.volumes && next.volumeJobs == db.volumeJobs)
    && (forall l :: l in db.links && l !in Affected(db, m) ==> SameMetadata(db, next, db.links[l].key))
  }

  lemma UpsertObjectKeeps(db: Db, m: GraphMutation, generation: nat)
    requires TablesSound(db) && m.UpsertObject? && Apply(db, m, generation).Ok?
    ensures TablesSound(Apply(db, m, generation).value) && MutationFrame(db, Apply(db, m, generation).value, m)
  {
    var next := Apply(db, m, generation).value;
    forall l | l in db.links && l !in Affected(db, m) ensures SameMetadata(db, next, db.links[l].key) {
      assert l !in LinksOf(db.links, m.snapshot.key);
    }
  }

  lemma TombstoneObjectKeeps(db: Db, m: GraphMutation, generation: nat)
    requires TablesSound(db) && m.TombstoneObject? && Apply(db, m, generation).Ok?
    ensures TablesSound(Apply(db, m, generation).value) && MutationFrame(db, Apply(db, m, generation).value, m)
  {
    var next := Apply(db, m, generation).value;
    forall l | l in next.links ensures next.links[l].key != m.key {
      assert l !in LinksOf(db.links, m.key);
    }
  }

  lemma LinkStepFrame(db: Db, next: Db, m: GraphMutation)
    requires LinkStep(db, next) && SameLinksExcept(db, next, Affected(db, m))
    ensures MutationFrame(db, next, m)
  {
  }

  lemma ReplacedRows(db: Db, next: Db, gone: set<LinkId>, id: LinkId, row: LinkRow)
    requires next.links == (db.links - gone)[id := row]
    ensures SameLinksExcept(db, next, {id} + gone)
  {
  }

  lemma UpsertLinkKeeps(db: Db, m: GraphMutation, generation: nat)
    requires TablesSound(db) && m.UpsertLink? && Apply(db, m, generation).Ok?
    requires m.link.parent.Some? ==> m.link.parent.value.volume == m.link.key.volume
    ensures TablesSound(Apply(db, m, generation).value) && MutationFrame(db, Apply(db, m, generation).value, m)
  {
    ObserveLinkKeeps(db, m.link, m.boundary, generation);
    hide TablesSound, LinkStep, StaleConflicts, ObserveLink, MutationFrame, SameLinksExcept;
    var row := LinkRow(m.link.key, m.link.parent, m.link.name, m.boundary, generation);
    ReplacedRows(db, Apply(db, m, generation).value, Ids(StaleConflicts(db, m.link)), m.link.id, row);
    assert Affected(db, m) == {m.link.id} + Ids(StaleConflicts(db, m.link));
    LinkStepFrame(db, Apply(db, m, generation).value, m);
  }

  lemma RemoveLinkKeeps(db: Db, m: GraphMutation, generation: nat)
    requires TablesSound(db) && m.RemoveLink? && Apply(db, m, generation).Ok?
    ensures TablesSound(Apply(db, m, generation).value) && MutationFrame(db, Apply(db, m, generation).value, m)
  {
    RemoveLinkRowKeeps(db, m.id, m.key, generation, true);
    LinkStepFrame(db, Apply(db, m, generation).value, m);
  }

  /**
   * Tombstone safety, slot uniqueness and the foreign keys survive every mutation, and what was
   * not collected as affected is left alone.
   */
  lemma ApplyKeeps(db: Db, m: GraphMutation, generation: nat, v: VolumeId)
    requires TablesSound(db) && InVolume(m, v) && Apply(db, m, generation).Ok?
    ensures TablesSound(Apply(db, m, generation).value) && MutationFrame(db, Apply(db, m, generation).value, m)
  {
    if m.UpsertLink? {
      UpsertLinkKeeps(db, m, generation);
    } else if m.RemoveLink? {
      RemoveLinkKeeps(db, m, generation);
    } else if m.UpsertObject? {
      UpsertObjectKeeps(db, m, generation);
    } else if m.TombstoneObject? {
      TombstoneObjectKeeps(db, m, generation);
    }
  }

  /** No link was observed later than the generation of its volume. */
  ghost predicate Dated(db: Db) {
    forall l :: l in db.links ==> db.links[l].observed <= Generation(db, db.links[l].key.volume)
  }

  /** Every link row of `b` was in `a`, or was observed in generation `g` on volume `v`. */
  ghost predicate LinksFrom(a: Db, b: Db, v: VolumeId, g: nat) {
    forall l :: l in b.links ==>
      (l in a.links && b.links[l] == a.links[l]) || (b.links[l].key.volume == v && b.links[l].observed == g)
  }

  ghost predicate SameGenerations(a: Db, b: Db) {
    forall v :: Generation(a, v) == Generation(b, v)
  }

  lemma ApplyDates(db: Db, m: GraphMutation, g: nat, v: VolumeId)
    requires TablesSound(db) && InVolume(m, v) && Apply(db, m, g).Ok?
    ensures var next := Apply(db, m, g).value; LinksFrom(db, next, v, g) && SameGenerations(db, next)
  {
    hide TablesSound, ObserveLink, RemoveLinkRow, StaleConflicts, SameMetadataAll, Ids;
    match m {
      case UpsertLink(link, boundary) => ObserveLinkKeeps(db, link, boundary, g);
      case RemoveLink(id, key) => RemoveLinkRowKeeps(db, id, key, g, true);
      case _ =>
    }
  }

  lemma {:induction false} ApplyAllKeeps(tx: Tx, ms: seq<GraphMutation>, g: nat, v: VolumeId)
    requires TablesSound(tx.db) && ApplyAll(tx, ms, g).Ok?
    requires forall i :: 0 <= i < |ms| ==> InVolume(ms[i], v)
    ensures var next := ApplyAll(tx, ms, g).value.db;
      && TablesSound(next) && SameProjection(tx.db, next) && LinksFrom(tx.db, next, v, g)
      && SameGenerations(tx.db, next) && tx.db.volumes.Keys <= next.volumes.Keys
  {
    if ms != [] {
      var front := ms[..|ms| - 1];
      ApplyAllKeeps(tx, front, g, v);
      var prior := ApplyAll(tx, front, g).value;
      ApplyKeeps(prior.db, ms[|ms| - 1], g, v);
      ApplyDates(prior.db, ms[|ms| - 1], g, v);
    }
  }
}
