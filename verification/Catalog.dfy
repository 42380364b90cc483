/** The desired catalog: it never drifts from the normalized tables, and every change is logged. */
module Catalog {
  import opened Core
  import opened Schema
  import opened PathResolution
  import opened GraphSpec
  import opened GraphTables
  import opened Replay

  /**
   * A catalog row still joins to the link and object it was projected from, and its fingerprint is
   * exactly that join, availability aside.
   */
  ghost predicate RowMatches(objects: Objects, links: Links, l: LinkId, row: DocRow) {
    && row.link == l && l in links && links[l].key == row.key && row.key in objects
    && row.fingerprint == ContentOf(l, links[l], row.path,
         objects[row.key].metadata.(availability := row.fingerprint.metadata.availability))
  }

  ghost predicate FaithfulExcept(db: Db, pending: set<LinkId>) {
    forall l :: l in db.docs && l !in pending ==> RowMatches(db.objects, db.links, l, db.docs[l])
  }

  /** Availability as a fresh projection would show it now. */
  ghost predicate AvailabilityCurrent(db: Db, l: LinkId) {
    l in db.docs ==>
      var row := db.docs[l];
      && row.key.volume in db.volumes && row.key in db.objects
      && row.fingerprint.metadata.availability
         == Shown(db.volumes[row.key.volume].state, db.objects[row.key].metadata.availability)
  }

  /** A pending volume refresh has yet to reach this link. */
  ghost predicate Covered(db: Db, v: VolumeId, l: LinkId) {
    v in db.volumeJobs && db.volumeJobs[v].pending && Beyond(db.volumeJobs[v].cursor, l)
  }

  ghost predicate Tracked(db: Db, l: LinkId) {
    l in db.docs ==> AvailabilityCurrent(db, l) || Covered(db, db.docs[l].key.volume, l)
  }

  ghost predicate TrackedExcept(db: Db, pending: set<LinkId>) {
    forall l :: l in db.docs && l !in pending ==> Tracked(db, l)
  }

  // ----- Projection of one link

  /** The "missing object" and "missing volume" failures are unreachable. */
  lemma DeriveSucceeds(db: Db, l: LinkId)
    requires TablesSound(db)
    ensures Derive(db.volumes, db.objects, db.links, l).Ok?
  {
    if l in db.links {
      assert db.links[l].key in db.objects;
      WalkNeverLosesLink(db.links, l, true, {}, [], PATH_DEPTH_LIMIT);
    }
  }

  lemma DeriveShape(db: Db, l: LinkId)
    requires TablesSound(db)
    ensures var r := Derive(db.volumes, db.objects, db.links, l);
      r.Ok? && r.value.Some? ==>
        && l in db.links && db.links[l].key in db.objects && db.links[l].key.volume in db.volumes
        && r.value.value == ContentOf(l, db.links[l], r.value.value.path,
             ShownMetadata(db.volumes[db.links[l].key.volume].state, db.objects[db.links[l].key].metadata))
  {
  }

  /** Only the catalog and its log differ. */
  ghost predicate SameGraph(a: Db, b: Db) {
    && a.volumes == b.volumes && a.objects == b.objects && a.links == b.links
    && a.consumers == b.consumers && a.pathJobs == b.pathJobs && a.volumeJobs == b.volumeJobs
    && a.sessions == b.sessions && a.checkpoints == b.checkpoints
  }

  ghost predicate Fresh(db: Db, l: LinkId) {
    l in db.docs ==> RowMatches(db.objects, db.links, l, db.docs[l]) && AvailabilityCurrent(db, l)
  }

  /** Rows appended between two states, in sequence. */
  ghost predicate Appended(a: Db, b: Db, rows: seq<SequencedMutation>) {
    && b.outbox == a.outbox + rows && b.sequenceMark == a.sequenceMark + |rows|
    && forall i :: 0 <= i < |rows| ==> rows[i].sequence == a.sequenceMark + 1 + i
  }

  /** The log between two states replays the change of the catalog. */
  ghost predicate Logged(a: Db, b: Db, rows: seq<SequencedMutation>) {
    Appended(a, b, rows) && WellIdentified(rows) && LastProjected(b) == Run(LastProjected(a), rows)
  }

  /** A row is keyed by its own link and repeats what its fingerprint says. */
  ghost predicate RowsShaped(docs: Docs) {
    forall l :: l in docs ==>
      docs[l] ==
        DocRow(docs[l].fingerprint.identity.key, l, docs[l].version, docs[l].fingerprint.path, docs[l].fingerprint)
  }

  ghost predicate OnlyRow(a: Docs, b: Docs, l: LinkId) {
    forall m :: m != l ==> Find(b, m) == Find(a, m)
  }

  lemma ProjectRow(db: Db, l: LinkId, derived: Option<Content>, version: nat, mode: OutboxMode)
    requires RowsShaped(db.docs)
    requires derived.Some? ==> DocumentIdForLink(l) == derived.value.identity.document
    ensures var next := Project(db, l, derived, version, mode);
      && SameGraph(db, next) && RowsShaped(next.docs) && OnlyRow(db.docs, next.docs, l)
      && (l in next.docs <==> derived.Some?)
      && (derived.Some? ==> next.docs[l].fingerprint == derived.value)
  {
    hide RowsShaped, OnlyRow, Append, SameGraph;
    RowWritten(db.docs, l, derived, version);
    match derived {
      case None =>
        AppendShape(db, db.docs - {l}, Delete(DocumentIdForLink(l), version), mode);
      case Some(content) =>
        var row := DocRow(content.identity.key, l, version, content.path, content);
        AppendShape(db, db.docs[l := row], Upsert(Document(content, version)), mode);
    }
  }

  lemma AppendShape(db: Db, docs: Docs, m: IndexMutation, mode: OutboxMode)
    ensures Append(db.(docs := docs), m, mode).docs == docs && SameGraph(db, Append(db.(docs := docs), m, mode))
    ensures SameGraph(db, db)
  {
  }

  lemma RowWritten(docs: Docs, l: LinkId, derived: Option<Content>, version: nat)
    requires RowsShaped(docs) && (derived.Some? ==> DocumentIdForLink(l) == derived.value.identity.document)
    ensures OnlyRow(docs, docs, l) && OnlyRow(docs, docs - {l}, l) && RowsShaped(docs - {l})
    ensures derived.Some? ==>
      var row := DocRow(derived.value.identity.key, l, version, derived.value.path, derived.value);
      OnlyRow(docs, docs[l := row], l) && RowsShaped(docs[l := row])
  {
  }

  lemma SyncFresh(db: Db, l: LinkId, version: nat, mode: OutboxMode)
    requires TablesSound(db) && RowsShaped(db.docs)
    ensures var r := Sync(db, l, version, mode);
      && r.Ok? && SameGraph(db, r.value) && RowsShaped(r.value.docs)
      && OnlyRow(db.docs, r.value.docs, l) && Fresh(r.value, l)
  {
    DeriveSucceeds(db, l);
    DeriveShape(db, l);
    var derived := Derive(db.volumes, db.objects, db.links, l).value;
    ProjectRow(db, l, derived, version, mode);
  }

  lemma {:induction false} SyncAllFresh(db: Db, ls: seq<LinkId>, version: nat, mode: OutboxMode)
    requires TablesSound(db) && RowsShaped(db.docs)
    ensures var r := SyncAll(db, ls, version, mode);
      && r.Ok? && SameGraph(db, r.value) && RowsShaped(r.value.docs)
      && (forall l :: l in ls ==> Fresh(r.value, l))
      && (forall l :: l !in ls ==> Find(r.value.docs, l) == Find(db.docs, l))
  {
    if ls != [] {
      var front, last := ls[..|ls| - 1], ls[|ls| - 1];
      SyncAllFresh(db, front, version, mode);
      var prior := SyncAll(db, front, version, mode).value;
      SyncFresh(prior, last, version, mode);
      var next := Sync(prior, last, version, mode).value;
      forall l | l in ls ensures Fresh(next, l) {
        if l != last {
          assert l in front;
          assert Find(next.docs, l) == Find(prior.docs, l);
        }
      }
    }
  }

  // ----- The log of a projection

  lemma ProjectLogged(db: Db, l: LinkId, derived: Option<Content>, version: nat)
    requires derived.Some? ==>
      derived.value.identity.document == DocumentIdForLink(l) && derived.value.identity.link == l
    ensures var next := Project(db, l, derived, version, Durable);
      |db.outbox| <= |next.outbox| && Logged(db, next, next.outbox[|db.outbox|..])
  {
    var next := Project(db, l, derived, version, Durable);
    var rows := next.outbox[|db.outbox|..];
    if next == db {
      assert rows == [];
    } else {
      var row := SequencedMutation(db.sequenceMark + 1, ProjectedMutation(l, derived, version));
      assert rows == [row];
      ProjectedWrite(db, next, l, derived, version);
      hide LastProjected, Project;
      RunOne(LastProjected(db), row);
    }
  }

  ghost function ProjectedMutation(l: LinkId, derived: Option<Content>, version: nat): IndexMutation {
    if derived.Some? then Upsert(Document(derived.value, version)) else Delete(DocumentIdForLink(l), version)
  }

  /** Replacing or dropping one row writes that document in the last projection. */
  lemma ProjectedWrite(db: Db, next: Db, l: LinkId, derived: Option<Content>, version: nat)
    requires derived.Some? ==> derived.value.identity.document == DocumentIdForLink(l)
    requires next.docs ==
      if derived.Some?
      then db.docs[l := DocRow(derived.value.identity.key, l, version, derived.value.path, derived.value)]
      else db.docs - {l}
    ensures LastProjected(next) == Write(LastProjected(db), ProjectedMutation(l, derived, version))
  {
  }

  lemma RunOne(ix: Index, row: SequencedMutation)
    ensures Run(ix, [row]) == Write(ix, row.mutation)
  {
    assert [row][..0] == [];
  }

  lemma LoggedTransitive(a: Db, b: Db, c: Db, first: seq<SequencedMutation>, second: seq<SequencedMutation>)
    requires Logged(a, b, first) && Logged(b, c, second)
    ensures Logged(a, c, first + second)
  {
    RunConcat(LastProjected(a), first, second);
    assert c.outbox == a.outbox + (first + second);
  }

  /** Rows a later state holds beyond an earlier one. */
  ghost function NewRows(a: Db, b: Db): seq<SequencedMutation>
    requires |a.outbox| <= |b.outbox|
  {
    b.outbox[|a.outbox|..]
  }

  lemma {:induction false} SyncAllLogged(db: Db, ls: seq<LinkId>, version: nat)
    requires TablesSound(db) && RowsShaped(db.docs)
    ensures var r := SyncAll(db, ls, version, Durable);
      r.Ok? && |db.outbox| <= |r.value.outbox| && Logged(db, r.value, NewRows(db, r.value))
  {
    SyncAllFresh(db, ls, version, Durable);
    if ls == [] {
      assert NewRows(db, db) == [];
    } else {
      var front, last := ls[..|ls| - 1], ls[|ls| - 1];
      SyncAllFresh(db, front, version, Durable);
      SyncAllLogged(db, front, version);
      var prior := SyncAll(db, front, version, Durable).value;
      DeriveShape(prior, last);
      var derived := Derive(prior.volumes, prior.objects, prior.links, last).value;
      ProjectLogged(prior, last, derived, version);
      var next := SyncAll(db, ls, version, Durable).value;
      LoggedTransitive(db, prior, next, NewRows(db, prior), NewRows(prior, next));
      assert NewRows(db, next) == NewRows(db, prior) + NewRows(prior, next);
    }
  }

  // ----- Batches

  lemma ApplyKeepsFaithful(db: Db, m: GraphMutation, generation: nat, v: VolumeId, pending: set<LinkId>)
    requires TablesSound(db) && InVolume(m, v) && Apply(db, m, generation).Ok?
    requires FaithfulExcept(db, pending)
    ensures var next := Apply(db, m, generation).value;
      TablesSound(next) && SameProjection(db, next) && FaithfulExcept(next, pending + Affected(db, m))
  {
    ApplyKeeps(db, m, generation, v);
    var next := Apply(db, m, generation).value;
    forall l | l in next.docs && l !in pending + Affected(db, m)
      ensures RowMatches(next.objects, next.links, l, next.docs[l])
    {
      assert RowMatches(db.objects, db.links, l, db.docs[l]);
      assert SameLink(db, next, l);
      assert SameMetadata(db, next, db.links[l].key);
    }
  }

  lemma {:induction false} ApplyAllKeepsFaithful(db: Db, ms: seq<GraphMutation>, generation: nat, v: VolumeId)
    requires TablesSound(db) && FaithfulExcept(db, {})
    requires forall i :: 0 <= i < |ms| ==> InVolume(ms[i], v)
    requires ApplyAll(Tx(db, {}), ms, generation).Ok?
    ensures var tx := ApplyAll(Tx(db, {}), ms, generation).value;
      TablesSound(tx.db) && SameProjection(db, tx.db) && FaithfulExcept(tx.db, tx.affected)
  {
    if ms != [] {
      var front := ms[..|ms| - 1];
      ApplyAllKeepsFaithful(db, front, generation, v);
      var prior := ApplyAll(Tx(db, {}), front, generation).value;
      ApplyKeepsFaithful(prior.db, ms[|ms| - 1], generation, v, prior.affected);
    }
  }

  // ----- Whole transactions

  ghost predicate CatalogSound(db: Db) {
    TablesSound(db) && RowsShaped(db.docs) && FaithfulExcept(db, {})
  }

  /** Projecting every pending link leaves no row behind its tables. */
  lemma SyncSettles(db: Db, ls: seq<LinkId>, pending: set<LinkId>, version: nat, mode: OutboxMode)
    requires TablesSound(db) && RowsShaped(db.docs) && FaithfulExcept(db, pending)
    requires forall l :: l in pending ==> l in ls
    ensures var r := SyncAll(db, ls, version, mode);
      && r.Ok? && SameGraph(db, r.value) && CatalogSound(r.value)
      && (TrackedExcept(db, pending) ==> TrackedExcept(r.value, {}))
      && (TrackedExcept(r.value, {}) && (forall l :: l in ls ==> l in pending) ==> TrackedExcept(db, pending))
  {
    SyncAllFresh(db, ls, version, mode);
    var next := SyncAll(db, ls, version, mode).value;
    forall l | l in next.docs ensures RowMatches(next.objects, next.links, l, next.docs[l]) {
      if l in ls {
        assert Fresh(next, l);
      } else {
        assert Find(next.docs, l) == Find(db.docs, l);
      }
    }
    if TrackedExcept(db, pending) {
      forall l | l in next.docs ensures Tracked(next, l) {
        if l in ls {
          assert Fresh(next, l);
        } else {
          assert Find(next.docs, l) == Find(db.docs, l);
          assert Tracked(db, l);
        }
      }
    }
    if TrackedExcept(next, {}) && forall l :: l in ls ==> l in pending {
      forall l | l in db.docs && l !in pending ensures Tracked(db, l) {
        assert Find(next.docs, l) == Find(db.docs, l);
        assert Tracked(next, l);
      }
    }
  }

  /** Same rows and volume states; generations, sessions and the outbox may differ. */
  ghost predicate SameCatalog(a: Db, b: Db) {
    && a.objects == b.objects && a.links == b.links && a.docs == b.docs
    && a.volumeJobs == b.volumeJobs && a.volumes.Keys == b.volumes.Keys
    && forall v :: v in a.volumes ==> a.volumes[v].state == b.volumes[v].state
  }

  lemma SameCatalogKeeps(a: Db, b: Db)
    requires SameCatalog(a, b)
    ensures CatalogSound(a) ==> CatalogSound(b)
    ensures TrackedExcept(a, {}) ==> TrackedExcept(b, {})
    ensures LastProjected(a) == LastProjected(b)
  {
    if TrackedExcept(a, {}) {
      forall l | l in b.docs ensures Tracked(b, l) {
        assert Tracked(a, l);
      }
    }
  }

  /** The state in which a batch projects, after its mutations. */
  ghost function Mutated(db: Db, b: Batch): Result<Tx> {
    ApplyAll(Tx(db, {}), b.mutations, Generation(db, b.volume) + 1)
  }

  // ----- Availability under a batch

  predicate ChangesState(ms: seq<GraphMutation>) {
    exists m :: m in ms && (m.SetVolumeState? || m.RequireReconciliation?)
  }

  predicate UpsertsVolume(ms: seq<GraphMutation>) {
    exists m :: m in ms && m.UpsertVolume?
  }

  /** The document shows its object's own availability. */
  ghost predicate ShowsOwn(db: Db, l: LinkId)
    requires l in db.docs
  {
    && db.docs[l].key in db.objects
    && db.docs[l].fingerprint.metadata.availability == db.objects[db.docs[l].key].metadata.availability
  }

  /** An unnoticed revival of the volume would leave the document right, or there is none. */
  ghost predicate StaysShown(db: Db, ms: seq<GraphMutation>, v: VolumeId, l: LinkId)
    requires l in db.docs
  {
    db.docs[l].key.volume == v && UpsertsVolume(ms) && !ChangesState(ms) && !Covered(db, v, l) ==> ShowsOwn(db, l)
  }

  /**
   * An upserted volume goes online without queueing a refresh. A batch that upserts its volume and
   * changes no state is harmless when every document of the volume that it leaves alone is still to
   * be refreshed or already shows its object's own availability.
   */
  ghost predicate QuietBatch(db: Db, b: Batch) {
    Mutated(db, b).Ok? ==>
      forall l :: l in db.docs && l !in Mutated(db, b).value.affected ==> StaysShown(db, b.mutations, b.volume, l)
  }

  /** What a batch's mutations make of volume rows and refresh jobs. */
  ghost predicate VolumesAfter(db: Db, next: Db, ms: seq<GraphMutation>, v: VolumeId) {
    && (forall w :: w != v ==> Find(next.volumes, w) == Find(db.volumes, w))
    && (forall w :: w != v ==> Find(next.volumeJobs, w) == Find(db.volumeJobs, w))
    && (ChangesState(ms) ==>
         v in next.volumeJobs && next.volumeJobs[v].pending && next.volumeJobs[v].cursor.None?)
    && (!ChangesState(ms) ==>
         && next.volumeJobs == db.volumeJobs
         && (if UpsertsVolume(ms) then v in next.volumes && next.volumes[v].state == VolumeOnline
             else next.volumes == db.volumes))
  }

  lemma OneVolume(db: Db, mid: Db, ms: seq<GraphMutation>, m: GraphMutation, g: nat, v: VolumeId)
    requires VolumesAfter(db, mid, ms, v) && TablesSound(mid) && InVolume(m, v) && Apply(mid, m, g).Ok?
    ensures VolumesAfter(db, Apply(mid, m, g).value, ms + [m], v)
  {
    hide TablesSound;
    ApplyKeeps(mid, m, g, v);
    assert m in ms + [m];
    assert forall x :: x in ms + [m] <==> x in ms || x == m;
  }

  lemma {:induction false} AllVolumes(db: Db, ms: seq<GraphMutation>, g: nat, v: VolumeId)
    requires TablesSound(db) && FaithfulExcept(db, {}) && ApplyAll(Tx(db, {}), ms, g).Ok?
    requires forall i :: 0 <= i < |ms| ==> InVolume(ms[i], v)
    ensures VolumesAfter(db, ApplyAll(Tx(db, {}), ms, g).value.db, ms, v)
  {
    if ms != [] {
      hide TablesSound, FaithfulExcept, VolumesAfter;
      var front, last := ms[..|ms| - 1], ms[|ms| - 1];
      AllVolumes(db, front, g, v);
      ApplyAllKeepsFaithful(db, front, g, v);
      OneVolume(db, ApplyAll(Tx(db, {}), front, g).value.db, front, last, g, v);
      assert ms == front + [last];
    }
  }

  /** A link the batch does not collect keeps its row and its object's metadata. */
  lemma {:induction false} UncollectedKept(db: Db, ms: seq<GraphMutation>, g: nat, v: VolumeId, l: LinkId)
    requires TablesSound(db) && FaithfulExcept(db, {}) && ApplyAll(Tx(db, {}), ms, g).Ok?
    requires forall i :: 0 <= i < |ms| ==> InVolume(ms[i], v)
    requires l in db.links && l !in ApplyAll(Tx(db, {}), ms, g).value.affected
    ensures var next := ApplyAll(Tx(db, {}), ms, g).value.db;
      SameLink(db, next, l) && SameMetadata(db, next, db.links[l].key) && db.objects.Keys <= next.objects.Keys
  {
    if ms != [] {
      hide TablesSound, FaithfulExcept, Affected;
      var front, last := ms[..|ms| - 1], ms[|ms| - 1];
      UncollectedKept(db, front, g, v, l);
      ApplyAllKeepsFaithful(db, front, g, v);
      ApplyKeeps(ApplyAll(Tx(db, {}), front, g).value.db, last, g, v);
    }
  }

  /** One document that a batch leaves alone. */
  lemma UncollectedTracked(db: Db, next: Db, ms: seq<GraphMutation>, v: VolumeId, l: LinkId)
    requires VolumesAfter(db, next, ms, v) && Tracked(db, l) && l in db.docs && next.docs == db.docs
    requires db.docs[l].key in db.objects && SameMetadata(db, next, db.docs[l].key)
    requires db.docs[l].key.volume in db.volumes
    ensures Tracked(next, l) <==> StaysShown(db, ms, v, l)
  {
    hide ChangesState, UpsertsVolume;
    var w := db.docs[l].key.volume;
    if w != v {
      assert Find(next.volumes, w) == Find(db.volumes, w) && Find(next.volumeJobs, w) == Find(db.volumeJobs, w);
    }
  }

  lemma MutatedTracksExactly(db: Db, b: Batch)
    requires CatalogSound(db) && TrackedExcept(db, {}) && ValidBatch(b) && Mutated(db, b).Ok?
    ensures var tx := Mutated(db, b).value; TrackedExcept(tx.db, tx.affected) <==> QuietBatch(db, b)
  {
    hide TablesSound, RowsShaped, ApplyAll, Tracked, StaysShown, VolumesAfter;
    var g, v, tx := Generation(db, b.volume) + 1, b.volume, Mutated(db, b).value;
    AllVolumes(db, b.mutations, g, v);
    ApplyAllKeepsFaithful(db, b.mutations, g, v);
    forall l | l in db.docs && l !in tx.affected
      ensures Tracked(tx.db, l) <==> StaysShown(db, b.mutations, v, l)
    {
      assert RowMatches(db.objects, db.links, l, db.docs[l]) && Tracked(db, l);
      UncollectedKept(db, b.mutations, g, v, l);
      LinkedVolume(db, l);
      UncollectedTracked(db, tx.db, b.mutations, v, l);
    }
  }

  lemma LinkedVolume(db: Db, l: LinkId)
    requires TablesSound(db) && l in db.docs && RowMatches(db.objects, db.links, l, db.docs[l])
    ensures db.docs[l].key.volume in db.volumes
  {
  }

  /**
   * No drift: a committed batch leaves every catalog row equal to the join it came from; and it
   * leaves every availability current or covered exactly when it is quiet.
   */
  lemma BatchKeepsCatalog(db: Db, b: Batch, mode: OutboxMode)
    requires CatalogSound(db) && ApplyBatch(db, b, mode).Ok?
    ensures CatalogSound(ApplyBatch(db, b, mode).value)
    ensures TrackedExcept(db, {}) ==> (TrackedExcept(ApplyBatch(db, b, mode).value, {}) <==> QuietBatch(db, b))
  {
    hide FaithfulExcept, TablesSound, RowsShaped, TrackedExcept, ApplyAll, SyncAll, Ascending, QuietBatch,
      LastProjected;
    var g := Generation(db, b.volume) + 1;
    var tx := Mutated(db, b).value;
    ApplyAllKeepsFaithful(db, b.mutations, g, b.volume);
    AscendingEnumerates(tx.affected);
    if TrackedExcept(db, {}) {
      MutatedTracksExactly(db, b);
    }
    SyncSettles(tx.db, Ascending(tx.affected), tx.affected, g, mode);
    var synced := SyncAll(tx.db, Ascending(tx.affected), g, mode).value;
    SameCatalogKeeps(synced, ApplyBatch(db, b, mode).value);
    SameCatalogKeeps(ApplyBatch(db, b, mode).value, synced);
  }

  lemma SameDocsSameProjected(a: Db, b: Db)
    requires a.docs == b.docs
    ensures LastProjected(a) == LastProjected(b)
  {
  }

  /** A durable batch logs exactly the change it makes to the catalog. */
  lemma BatchLogged(db: Db, b: Batch)
    requires CatalogSound(db) && ApplyBatch(db, b, Durable).Ok?
    ensures var next := ApplyBatch(db, b, Durable).value;
      |db.outbox| <= |next.outbox| && Logged(db, next, NewRows(db, next))
  {
    var g := Generation(db, b.volume) + 1;
    var tx := Mutated(db, b).value;
    ApplyAllKeepsFaithful(db, b.mutations, g, b.volume);
    SyncAllLogged(tx.db, Ascending(tx.affected), g);
    var synced := SyncAll(tx.db, Ascending(tx.affected), g, Durable).value;
    SameDocsSameProjected(db, tx.db);
    SameDocsSameProjected(synced, ApplyBatch(db, b, Durable).value);
  }
}
