/** The filesystem graph as it runs: transactions mutate a working copy and commit it whole. */
module GraphStore {
  import opened Core
  import opened Schema
  import opened PathResolution
  import opened GraphSpec
  import opened Outbox

  type Status = Result<()>

  /** A step either did what its specification says or reported the same error. */
  ghost predicate Did(spec: Result<Db>, r: Status, tables: Db) {
    match spec
    case Ok(next) => r == Ok(()) && tables == next
    case Err(e) => r == Err(e)
  }

  // ----- Ordered selections

  method OrderById(s: set<nat>) returns (r: seq<nat>)
    ensures r == Ascending(s)
  {
    r := [];
    var rest := s;
    while rest != {}
      invariant r + Ascending(rest) == Ascending(s)
      decreases |rest|
    {
      ghost var least := Min(rest);
      var m :| m in rest && forall x :: x in rest ==> m <= x;
      assert m == least;
      assert r + Ascending(rest) == (r + [m]) + Ascending(rest - {m});
      r := r + [m];
      rest := rest - {m};
    }
  }

  method LeastOf(s: set<nat>) returns (m: nat)
    requires s != {}
    ensures m == Min(s)
  {
    ghost var least := Min(s);
    m :| m in s && forall x :: x in s ==> m <= x;
  }

  method OrderByAge(s: set<Aged>) returns (r: seq<Aged>)
    ensures r == ByAge(s)
  {
    r := [];
    var rest := s;
    while rest != {}
      invariant r + ByAge(rest) == ByAge(s)
      decreases |rest|
    {
      ghost var oldest := Oldest(rest);
      var m :| m in rest && forall x :: x in rest ==> x == m || Older(m, x);
      assert oldest in rest && (m == oldest || Older(m, oldest));
      assert m == oldest || Older(oldest, m);
      assert m == oldest;
      assert r + ByAge(rest) == (r + [m]) + ByAge(rest - {m});
      r := r + [m];
      rest := rest - {m};
    }
  }

  method ValidateBatch(batch: Batch) returns (valid: bool)
    ensures valid <==> ValidBatch(batch)
  {
    if batch.checkpoint.volume != batch.volume {
      return false;
    }
    for i := 0 to |batch.mutations|
      invariant forall j :: 0 <= j < i ==> InVolume(batch.mutations[j], batch.volume)
    {
      if !InVolume(batch.mutations[i], batch.volume) {
        return false;
      }
    }
    return true;
  }

  class Transaction {
    var tables: Db

    constructor (db: Db)
      ensures tables == db
    {
      tables := db;
    }

    method EnqueueRefresh(root: FileKey, generation: nat)
      modifies this
      ensures tables == EnqueuePathRefresh(old(tables), root, generation)
    {
      var pending := false;
      for i := 0 to |tables.pathJobs|
        invariant tables == old(tables)
        invariant pending <==> exists j :: 0 <= j < i && tables.pathJobs[j].pending && tables.pathJobs[j].root == root
      {
        if tables.pathJobs[i].pending && tables.pathJobs[i].root == root {
          pending := true;
        }
      }
      if !pending {
        tables := tables.(pathJobs := tables.pathJobs + [PathJob(root, generation, true, None)]);
      }
    }

    method RemoveLinkInternal(id: LinkId, expected: FileKey, generation: nat, refresh: bool) returns (r: Status)
      modifies this
      ensures Did(RemoveLinkRow(old(tables), id, expected, generation, refresh), r, tables)
    {
      if id !in tables.links {
        return Ok(());
      }
      if tables.links[id].key != expected {
        return Err(RemovalMismatch);
      }
      if expected !in tables.objects {
        return Err(UnknownObject);
      }
      var directory := IsDirectory(tables, expected);
      tables := tables.(links := tables.links - {id});
      var remaining := set l | l in tables.links && tables.links[l].key == expected;
      assert remaining == LinksOf(tables.links, expected);
      if remaining == {} {
        tables := tables.(objects := SetTombstone(tables.objects, expected, true));
      }
      if directory && refresh {
        EnqueueRefresh(expected, generation);
      }
      return Ok(());
    }

    /** Stale rows in the way of one observation, found before anything is removed. */
    method FindConflicts(link: LinkSnapshot) returns (rows: seq<(LinkId, FileKey)>)
      ensures rows == StaleConflicts(tables, link)
    {
      rows := [];
      var cutoff := ScanCutoff(tables, link.key.volume);
      if cutoff.None? {
        return;
      }
      if StaleBinding(tables, link, cutoff.value) {
        rows := [(link.id, tables.links[link.id].key)];
      }
      var slot := set l | l in tables.links && l != link.id && tables.links[l].observed < cutoff.value
                          && InSlot(tables.links[l], link.key.volume, link.parent, link.name);
      assert slot == StaleInSlot(tables, link, cutoff.value);
      if slot != {} {
        ghost var least := Min(slot);
        var m :| m in slot && forall x :: x in slot ==> m <= x;
        assert m == least;
        rows := rows + [(m, tables.links[m].key)];
      }
    }

    method UpsertLinkRow(link: LinkSnapshot, boundary: bool, generation: nat) returns (r: Status)
      modifies this
      ensures Did(ObserveLink(old(tables), link, boundary, generation), r, tables)
    {
      if link.key !in tables.objects {
        return Err(LinkBeforeObject);
      }
      var rows := FindConflicts(link);
      for i := 0 to |rows|
        invariant RemoveLinkRows(old(tables), rows, generation) == RemoveLinkRows(tables, rows[i..], generation)
      {
        r := RemoveLinkInternal(rows[i].0, rows[i].1, generation, false);
        if r.Err? {
          return;
        }
        assert rows[i..][1..] == rows[i + 1..];
      }
      r := WriteLinkRow(link, boundary, generation);
    }

    method WriteLinkRow(link: LinkSnapshot, boundary: bool, generation: nat) returns (r: Status)
      modifies this
      ensures Did(WriteLink(old(tables), link, boundary, generation), r, tables)
    {
      if link.id in tables.links && tables.links[link.id].key != link.key {
        return Err(LinkRebound);
      }
      if link.key !in tables.objects {
        return Err(UnknownObject);
      }
      var moved := link.id in tables.links &&
                   (tables.links[link.id].parent != link.parent || tables.links[link.id].name != link.name);
      if moved && IsDirectory(tables, link.key) {
        EnqueueRefresh(link.key, generation);
      }
      var taken := set l | l in tables.links && l != link.id
                           && InSlot(tables.links[l], link.key.volume, link.parent, link.name);
      assert tables.links == old(tables).links;
      assert SlotTaken(old(tables), link) == SlotTaken(tables, link);
      assert forall l :: l in tables.links && l != link.id ==>
        (InSlot(tables.links[l], link.key.volume, link.parent, link.name) <==> l in taken);
      if taken != {} {
        return Err(NameTaken);
      }
      tables := tables.(
        links := tables.links[link.id := LinkRow(link.key, link.parent, link.name, boundary, generation)],
        objects := SetTombstone(tables.objects, link.key, false));
      return Ok(());
    }

    method ApplyMutation(m: GraphMutation, generation: nat) returns (r: Status)
      modifies this
      ensures Did(Apply(old(tables), m, generation), r, tables)
    {
      r := Ok(());
      match m {
        case UpsertVolume(v) => tables := UpsertVolumeRow(tables, v);
        case SetVolumeState(v, state) => r := SetState(v, state, generation);
        case RequireReconciliation(v) => r := SetState(v, NeedsReconciliation, generation);
        case UpsertObject(o) =>
          if o.key.volume !in tables.volumes {
            return Err(UnknownVolume);
          }
          tables := tables.(objects := tables.objects[o.key := ObjectRow(o.metadata, false, generation)]);
        case UpsertLink(link, boundary) => r := UpsertLinkRow(link, boundary, generation);
        case RemoveLink(id, key) => r := RemoveLinkInternal(id, key, generation, true);
        case TombstoneObject(key) =>
          var linked := set l | l in tables.links && tables.links[l].key == key;
          assert linked == LinksOf(tables.links, key);
          if linked != {} {
            return Err(TombstoneWhileLinked);
          }
          if key !in tables.objects {
            return Err(UnknownObject);
          }
          tables := tables.(objects := SetTombstone(tables.objects, key, true));
      }
    }

    method SetState(v: VolumeId, state: VolumeState, generation: nat) returns (r: Status)
      modifies this
      ensures Did(ChangeVolumeState(old(tables), v, state, generation), r, tables)
    {
      if v !in tables.volumes {
        return Err(UnknownVolume);
      }
      tables := tables.(volumes := tables.volumes[v := tables.volumes[v].(state := state)]);
      tables := EnqueueVolumeRefresh(tables, v, generation);
      return Ok(());
    }

    method CollectAffected(m: GraphMutation) returns (affected: set<LinkId>)
      ensures affected == Affected(tables, m)
    {
      affected := {};
      match m {
        case UpsertLink(link, _) =>
          var rows := FindConflicts(link);
          affected := {link.id} + set c | c in rows :: c.0;
        case RemoveLink(id, _) => affected := {id};
        case UpsertObject(o) => affected := set l | l in tables.links && tables.links[l].key == o.key;
        case TombstoneObject(key) =>
          affected := (set l | l in tables.links && tables.links[l].key == key)
                      + set l | l in tables.docs && tables.docs[l].key == key;
        case _ =>
      }
    }

    method SyncCatalogProjection(link: LinkId, version: nat, mode: OutboxMode) returns (r: Status)
      modifies this
      ensures Did(Sync(old(tables), link, version, mode), r, tables)
    {
      if link !in tables.links {
        tables := Project(tables, link, None, version, mode);
        return Ok(());
      }
      var row := tables.links[link];
      if row.key !in tables.objects || tables.objects[row.key].tombstoned {
        return Err(MissingObject);
      }
      if row.key.volume !in tables.volumes {
        return Err(MissingVolume);
      }
      var resolution := ResolvePath(tables.links, link, PATH_DEPTH_LIMIT);
      match resolution {
        case Failed(e) =>
          if e.LinkNotFound? {
            return Err(Unresolvable(e));
          }
          tables := Project(tables, link, None, version, mode);
        case Resolved(components) =>
          var metadata := ShownMetadata(tables.volumes[row.key.volume].state, tables.objects[row.key].metadata);
          tables := Project(tables, link, Some(ContentOf(link, row, Join(components), metadata)), version, mode);
      }
      return Ok(());
    }

    /** Apply a batch's mutations in order, collecting affected links before each one. */
    method ApplyMutations(ms: seq<GraphMutation>, generation: nat) returns (r: Result<set<LinkId>>)
      modifies this
      ensures match ApplyAll(Tx(old(tables), {}), ms, generation)
        case Ok(tx) => r == Ok(tx.affected) && tables == tx.db
        case Err(e) => r == Err(e)
    {
      var affected: set<LinkId> := {};
      ghost var start := Tx(tables, {});
      assert ms[..0] == [];
      for i := 0 to |ms|
        invariant ApplyAll(start, ms[..i], generation) == Ok(Tx(tables, affected))
      {
        assert ms[..i + 1][..i] == ms[..i];
        var touched := CollectAffected(ms[i]);
        var status := ApplyMutation(ms[i], generation);
        if status.Err? {
          ApplyAllStops(start, ms, i + 1, generation);
          return Err(status.error);
        }
        affected := affected + touched;
      }
      assert ms[..|ms|] == ms;
      return Ok(affected);
    }

    method SyncLinks(links: seq<LinkId>, version: nat, mode: OutboxMode) returns (r: Status)
      modifies this
      ensures Did(SyncAll(old(tables), links, version, mode), r, tables)
    {
      assert links[..0] == [];
      for i := 0 to |links|
        invariant SyncAll(old(tables), links[..i], version, mode) == Ok(tables)
      {
        assert links[..i + 1][..i] == links[..i];
        r := SyncCatalogProjection(links[i], version, mode);
        if r.Err? {
          SyncAllStops(old(tables), links, i + 1, version, mode);
          return;
        }
      }
      assert links[..|links|] == links;
      return Ok(());
    }

    method SweepLinkRows(rows: seq<(LinkId, FileKey)>, generation: nat) returns (r: Status)
      modifies this
      ensures Did(SweepLinks(old(tables), rows, generation), r, tables)
    {
      assert rows[..0] == [];
      for i := 0 to |rows|
        invariant SweepLinks(old(tables), rows[..i], generation) == Ok(tables)
      {
        assert rows[..i + 1][..i] == rows[..i];
        r := RemoveLinkInternal(rows[i].0, rows[i].1, generation, false);
        if r.Ok? {
          r := SyncCatalogProjection(rows[i].0, generation, Durable);
        }
        if r.Err? {
          SweepLinksStops(old(tables), rows, i + 1, generation);
          return;
        }
      }
      assert rows[..|rows|] == rows;
      return Ok(());
    }
  }

  lemma {:induction false} SyncAllStops(db: Db, links: seq<LinkId>, i: nat, version: nat, mode: OutboxMode)
    requires i <= |links| && SyncAll(db, links[..i], version, mode).Err?
    ensures SyncAll(db, links, version, mode) == SyncAll(db, links[..i], version, mode)
    decreases |links|
  {
    if i == |links| {
      assert links[..i] == links;
    } else {
      assert links[..|links| - 1][..i] == links[..i];
      SyncAllStops(db, links[..|links| - 1], i, version, mode);
    }
  }

  lemma {:induction false} SweepLinksStops(db: Db, rows: seq<(LinkId, FileKey)>, i: nat, g: nat)
    requires i <= |rows| && SweepLinks(db, rows[..i], g).Err?
    ensures SweepLinks(db, rows, g) == SweepLinks(db, rows[..i], g)
    decreases |rows|
  {
    if i == |rows| {
      assert rows[..i] == rows;
    } else {
      assert rows[..|rows| - 1][..i] == rows[..i];
      SweepLinksStops(db, rows[..|rows| - 1], i, g);
    }
  }

  lemma {:induction false} ApplyAllStops(tx: Tx, ms: seq<GraphMutation>, i: nat, g: nat)
    requires i <= |ms| && ApplyAll(tx, ms[..i], g).Err?
    ensures ApplyAll(tx, ms, g) == ApplyAll(tx, ms[..i], g)
    decreases |ms|
  {
    if i == |ms| {
      assert ms[..i] == ms;
    } else {
      assert ms[..|ms| - 1][..i] == ms[..i];
      ApplyAllStops(tx, ms[..|ms| - 1], i, g);
    }
  }

  /** One durable database. Every public operation is a single transaction. */
  class FilesystemGraph {
    var db: Db

    constructor ()
      ensures db == EMPTY_DB
    {
      db := EMPTY_DB;
    }

    method ApplyBatchWithMode(batch: Batch, mode: OutboxMode) returns (r: Status)
      modifies this
      ensures Did(ApplyBatch(old(db), batch, mode), r, db) && (r.Err? ==> db == old(db))
    {
      var valid := ValidateBatch(batch);
      if !valid {
        return Err(CrossesVolumes);
      }
      if mode == Rebuildable && db.consumers != map[] {
        return Err(ConsumersRegistered);
      }
      var generation := Generation(db, batch.volume) + 1;
      var tx := new Transaction(db);
      var affected := tx.ApplyMutations(batch.mutations, generation);
      if affected.Err? {
        return Err(affected.error);
      }
      var ordered := OrderById(affected.value);
      r := tx.SyncLinks(ordered, generation, mode);
      if r.Err? {
        return;
      }
      if batch.volume !in tx.tables.volumes {
        return Err(UnknownVolume);
      }
      db := SetGeneration(tx.tables, batch.volume, generation).(
        checkpoints := tx.tables.checkpoints[batch.volume := batch.checkpoint]);
      return Ok(());
    }

    method BeginObservationScan(v: VolumeId, mode: ScanMode)
      modifies this
      ensures db == BeginScan(old(db), v, mode)
    {
      var generation := Generation(db, v) + 1;
      var tables := UpsertVolumeRow(db, v);
      tables := tables.(volumes := tables.volumes[v := VolumeRow(NeedsReconciliation, generation)]);
      tables := EnqueueVolumeRefresh(tables, v, generation);
      tables := tables.(sessions := tables.sessions[v := Session(generation, mode, Scanning, None)]);
      assert tables.volumes == db.volumes[v := VolumeRow(NeedsReconciliation, generation)];
      db := tables;
    }

    method ApplyObservationScanPage(v: VolumeId, events: seq<FilesystemEvent>) returns (r: Status)
      modifies this
      ensures Did(ApplyScanPage(old(db), v, events), r, db) && (r.Err? ==> db == old(db))
    {
      if v !in db.sessions {
        return Err(NoSession);
      }
      if db.sessions[v].phase != Scanning {
        return Err(NotScanning);
      }
      if events == [] {
        return Ok(());
      }
      r := ApplyBatchWithMode(Batch(v, ScanCheckpoint(v, db.sessions[v].cutoff), FromEvents(events)), Durable);
    }

    method StageObservationCheckpoint(v: VolumeId, checkpoint: ProviderCheckpoint) returns (r: Status)
      modifies this
      ensures Did(StageCheckpoint(old(db), v, checkpoint), r, db) && (r.Err? ==> db == old(db))
    {
      if checkpoint.volume != v {
        return Err(CrossesVolumes);
      }
      if v !in db.sessions || db.sessions[v].phase != Scanning {
        return Err(NotScanning);
      }
      db := db.(sessions := db.sessions[v := db.sessions[v].(phase := SweepingLinks, staged := Some(checkpoint))]);
      return Ok(());
    }

    method FinalizeObservationScan(v: VolumeId, maximum: nat) returns (r: Result<bool>)
      modifies this
      ensures match FinalizeScan(old(db), v, maximum)
        case Ok(done) => r == Ok(done.completed) && db == done.db
        case Err(e) => r == Err(e) && db == old(db)
    {
      if maximum == 0 {
        return Ok(false);
      }
      if v !in db.sessions {
        return Err(NoSession);
      }
      if db.sessions[v].phase == Scanning {
        return Err(StillScanning);
      }
      if v !in db.volumes {
        return Err(UnknownVolume);
      }
      if db.sessions[v].phase == SweepingLinks {
        r := FinalizeLinks(v, maximum);
      } else {
        r := FinalizeObjects(v, maximum);
      }
    }

    /** The stalest links of a volume, oldest observation first, with the objects they name. */
    method StaleLinkRows(v: VolumeId, cutoff: nat, maximum: nat) returns (rows: seq<(LinkId, FileKey)>)
      ensures var page := LinkSweepPage(db, v, cutoff, maximum);
        && (forall i :: 0 <= i < |page| ==> page[i].id in db.links)
        && rows == RowsOf(db, page) && |rows| == |page|
    {
      var aged := set l | l in db.links && db.links[l].key.volume == v && db.links[l].observed < cutoff
                  :: Aged(db.links[l].observed, l);
      assert aged == set l | l in StaleLinks(db, v, cutoff) :: Aged(db.links[l].observed, l);
      var ordered := OrderByAge(aged);
      var page := Limit(ordered, maximum);
      LinkSweepPageRows(db, v, cutoff, maximum);
      rows := seq(|page|, i requires 0 <= i < |page| && page[i].id in db.links reads this =>
                            (page[i].id, db.links[page[i].id].key));
      assert rows == RowsOf(db, page);
    }

    method FinalizeLinks(v: VolumeId, maximum: nat) returns (r: Result<bool>)
      requires v in db.sessions && v in db.volumes
      modifies this
      ensures match SweepLinksStep(old(db), v, maximum, Generation(old(db), v) + 1)
        case Ok(done) => r == Ok(false) && !done.completed && db == done.db
        case Err(e) => r == Err(e) && db == old(db)
    {
      var generation := Generation(db, v) + 1;
      hide RowsOf, LinkSweepPage, SweepLinks;
      var rows := StaleLinkRows(v, db.sessions[v].cutoff, maximum);
      var tx := new Transaction(db);
      var status := tx.SweepLinkRows(rows, generation);
      if status.Err? {
        return Err(status.error);
      }
      if v !in tx.tables.volumes {
        return Err(UnknownVolume);
      }
      if |rows| < maximum {
        tx.tables := tx.tables.(sessions := tx.tables.sessions[v := db.sessions[v].(phase := SweepingObjects)]);
      }
      db := SetGeneration(tx.tables, v, generation);
      return Ok(false);
    }

    method StaleObjectPage(v: VolumeId, cutoff: nat, maximum: nat) returns (page: seq<Aged>)
      ensures page == ObjectSweepPage(db, v, cutoff, maximum)
    {
      var linked := set l | l in db.links :: db.links[l].key;
      assert forall k :: k in linked <==> LinksOf(db.links, k) != {} by {
        forall k | k in linked ensures LinksOf(db.links, k) != {} {
          var l :| l in db.links && db.links[l].key == k;
          assert l in LinksOf(db.links, k);
        }
      }
      var stale := set k | k in db.objects && k.volume == v && !db.objects[k].tombstoned
                           && db.objects[k].observed < cutoff && k !in linked;
      assert stale == StaleObjects(db, v, cutoff);
      var aged := set k | k in stale :: Aged(db.objects[k].observed, k.file);
      var ordered := OrderByAge(aged);
      page := Limit(ordered, maximum);
    }

    method FinalizeObjects(v: VolumeId, maximum: nat) returns (r: Result<bool>)
      requires v in db.sessions && v in db.volumes
      modifies this
      ensures match SweepObjectsStep(old(db), v, maximum, Generation(old(db), v) + 1)
        case Ok(done) => r == Ok(done.completed) && db == done.db
        case Err(e) => r == Err(e) && db == old(db)
    {
      var generation := Generation(db, v) + 1;
      var page := StaleObjectPage(v, db.sessions[v].cutoff, maximum);
      var doomed := set a | a in page :: FileKey(v, a.id);
      assert doomed == KeysOf(v, page);
      var swept := db.(objects := TombstoneAll(db.objects, doomed));
      if |page| >= maximum {
        db := SetGeneration(swept, v, generation);
        return Ok(false);
      }
      var active := Activate(swept, v, generation);
      if active.Err? {
        return Err(active.error);
      }
      db := active.value;
      return Ok(true);
    }

    method RefreshVolumeProjection(maximum: nat) returns (r: Status)
      modifies this
      ensures Did(RefreshVolume(old(db), maximum), r, db) && (r.Err? ==> db == old(db))
    {
      var pending := set v | v in db.volumeJobs && db.volumeJobs[v].pending;
      assert pending == PendingVolumes(db);
      if maximum == 0 || pending == {} {
        return Ok(());
      }
      var v := LeastOf(pending);
      if v !in db.volumes {
        return Err(UnknownVolume);
      }
      var job := db.volumeJobs[v];
      var ahead := set l | l in db.docs && db.docs[l].key.volume == v && (job.cursor.None? || job.cursor.value < l);
      assert ahead == set l | l in db.docs && db.docs[l].key.volume == v && Beyond(job.cursor, l);
      var ordered := OrderById(ahead);
      var page := Limit(ordered, maximum);
      var tx := new Transaction(db);
      r := tx.SyncLinks(page, Generation(db, v), Durable);
      if r.Err? {
        return;
      }
      var next := if |page| < maximum then job.(pending := false) else job.(cursor := Some(page[|page| - 1]));
      db := tx.tables.(volumeJobs := tx.tables.volumeJobs[v := next]);
    }

    method RefreshProjectionPaths(maximum: nat) returns (r: Status)
      modifies this
      ensures Did(RefreshPaths(old(db), maximum), r, db) && (r.Err? ==> db == old(db))
    {
      var j := FirstPending(db.pathJobs);
      if maximum == 0 || j >= |db.pathJobs| {
        return Ok(());
      }
      var job := db.pathJobs[j];
      var v := job.root.volume;
      if v !in db.volumes {
        return Err(UnknownVolume);
      }
      var ahead := set l | l in db.links && db.links[l].key.volume == v && (job.cursor.None? || job.cursor.value < l);
      assert ahead == set l | l in db.links && db.links[l].key.volume == v && Beyond(job.cursor, l);
      var ordered := OrderById(ahead);
      var page := Limit(ordered, maximum);
      var tx := new Transaction(db);
      r := tx.SyncLinks(page, Generation(db, v), Durable);
      if r.Err? {
        return;
      }
      var next := if |page| < maximum then job.(pending := false) else job.(cursor := Some(page[|page| - 1]));
      db := tx.tables.(pathJobs := db.pathJobs[j := next]);
    }

    method LatestOutboxSequence() returns (sequence: nat)
      ensures sequence == LatestSequence(db)
    {
      var all := {db.sequenceMark} + (set c | c in db.consumers :: db.consumers[c].lastSequence)
                 + set r | r in db.outbox :: r.sequence;
      assert all == {db.sequenceMark} + Acks(db) + set r | r in db.outbox :: r.sequence;
      ghost var most := Max(all);
      sequence :| sequence in all && forall x :: x in all ==> x <= sequence;
      assert sequence == most;
    }

    method AcknowledgeProjection(consumer: string, sequence: nat, indexGeneration: nat) returns (r: Status)
      modifies this
      ensures Did(Acknowledge(old(db), consumer, sequence, indexGeneration), r, db) && (r.Err? ==> db == old(db))
    {
      var latest := LatestOutboxSequence();
      if sequence > latest {
        return Err(BeyondOutbox);
      }
      if consumer in db.consumers && sequence < db.consumers[consumer].lastSequence {
        return Err(MovesBackwards);
      }
      db := db.(consumers := db.consumers[consumer := ConsumerCheckpoint(sequence, indexGeneration)]);
      return Ok(());
    }

    method PruneRebuildableOutboxBounded(maximum: nat, withoutConsumers: bool) returns (r: Status)
      modifies this
      ensures Did(PruneBounded(old(db), maximum, withoutConsumers), r, db) && (r.Err? ==> db == old(db))
    {
      if maximum == 0 || maximum > 100_000 {
        return Err(InvalidBound);
      }
      var acks := set c | c in db.consumers :: db.consumers[c].lastSequence;
      assert acks == Acks(db);
      var through: nat;
      hide Without, RowsThrough, Acks, Limit;
      if acks != {} {
        through := LeastOf(acks);
      } else if withoutConsumers {
        through := db.sequenceMark;
      } else {
        return Ok(());
      }
      var doomed := Limit(RowsThrough(db.outbox, through), maximum);
      db := db.(outbox := Without(db.outbox, set r | r in doomed :: r.sequence));
      return Ok(());
    }

    /** One page of the joined desired catalog, in document order. */
    method DesiredCatalogPage(after: Option<DocumentId>, limit: nat) returns (page: seq<Document>)
      ensures page == CatalogPage(DesiredCatalog(db), after, limit)
    {
      var catalog := DesiredCatalog(db);
      hide DesiredCatalog;
      var ahead := set id | id in catalog && (after.None? || after.value < id);
      assert ahead == KeysAfter(catalog, after);
      var ordered := OrderById(ahead);
      AscendingEnumerates(ahead);
      var ids := Limit(ordered, limit);
      assert forall i :: 0 <= i < |ids| ==> ids[i] in ordered;
      page := seq(|ids|, i requires 0 <= i < |ids| && ids[i] in catalog => catalog[ids[i]]);
    }
  }

  ghost function KeysAfter(catalog: map<DocumentId, Document>, after: Option<DocumentId>): set<DocumentId> {
    set id | id in catalog && Beyond(after, id)
  }

  ghost function PageIds(
    catalog: map<DocumentId, Document>, after: Option<DocumentId>, limit: nat): (r: seq<DocumentId>)
    ensures forall i :: 0 <= i < |r| ==> r[i] in catalog
  {
    AscendingEnumerates(KeysAfter(catalog, after));
    var ids := Limit(Ascending(KeysAfter(catalog, after)), limit);
    assert forall i :: 0 <= i < |ids| ==> ids[i] in Ascending(KeysAfter(catalog, after));
    ids
  }

  ghost function CatalogPage(catalog: map<DocumentId, Document>, after: Option<DocumentId>, limit: nat): seq<Document> {
    var ids := PageIds(catalog, after, limit);
    seq(|ids|, i requires 0 <= i < |ids| => catalog[ids[i]])
  }
}
