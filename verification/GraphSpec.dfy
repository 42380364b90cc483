/**
 * What each transaction of the filesystem graph does to the committed tables. A transaction that
 * fails commits nothing, so it is a function from tables to new tables or an error.
 */
module GraphSpec {
  import opened Core
  import opened Schema
  import opened PathResolution

  datatype GraphError =
    | CrossesVolumes
    | ConsumersRegistered
    | UnknownVolume
    | UnknownObject
    | LinkBeforeObject
    | LinkRebound
    | RemovalMismatch
    | TombstoneWhileLinked
    | NameTaken
    | MissingObject
    | MissingVolume
    | Unresolvable(path: PathError)
    | NoSession
    | NotScanning
    | StillScanning
    | MissingStagedCheckpoint
    | BeyondOutbox
    | MovesBackwards
    | InvalidBound

  datatype Result<+T> = Ok(value: T) | Err(error: GraphError)

  datatype ObjectSnapshot = ObjectSnapshot(key: FileKey, metadata: Metadata)

  datatype LinkSnapshot = LinkSnapshot(id: LinkId, key: FileKey, parent: Option<FileKey>, name: string)

  datatype GraphMutation =
    | UpsertVolume(volume: VolumeId)
    | SetVolumeState(volume: VolumeId, state: VolumeState)
    | UpsertObject(snapshot: ObjectSnapshot)
    | UpsertLink(link: LinkSnapshot, boundary: bool)
    | RemoveLink(id: LinkId, key: FileKey)
    | TombstoneObject(key: FileKey)
    | RequireReconciliation(volume: VolumeId)

  datatype FilesystemEvent =
    | ObjectObserved(snapshot: ObjectSnapshot)
    | LinkObserved(link: LinkSnapshot)
    | LinkRemoved(id: LinkId, key: FileKey)
    | ObjectRemoved(key: FileKey)
    | ReconciliationRequired(volume: VolumeId)

  function FromEvent(e: FilesystemEvent): GraphMutation {
    match e
    case ObjectObserved(o) => UpsertObject(o)
    case LinkObserved(l) => UpsertLink(l, false)
    case LinkRemoved(id, key) => RemoveLink(id, key)
    case ObjectRemoved(key) => TombstoneObject(key)
    case ReconciliationRequired(v) => RequireReconciliation(v)
  }

  function FromEvents(events: seq<FilesystemEvent>): seq<GraphMutation> {
    seq(|events|, i requires 0 <= i < |events| => FromEvent(events[i]))
  }

  datatype Batch = Batch(volume: VolumeId, checkpoint: ProviderCheckpoint, mutations: seq<GraphMutation>)

  datatype OutboxMode = Durable | Rebuildable

  predicate InVolume(m: GraphMutation, volume: VolumeId) {
    match m
    case UpsertVolume(v) => v == volume
    case SetVolumeState(v, _) => v == volume
    case UpsertObject(o) => o.key.volume == volume
    case UpsertLink(l, _) => l.key.volume == volume && (l.parent.Some? ==> l.parent.value.volume == volume)
    case RemoveLink(_, key) => key.volume == volume
    case TombstoneObject(key) => key.volume == volume
    case RequireReconciliation(v) => v == volume
  }

  predicate ValidBatch(b: Batch) {
    && b.checkpoint.volume == b.volume
    && forall i :: 0 <= i < |b.mutations| ==> InVolume(b.mutations[i], b.volume)
  }

  function Generation(db: Db, v: VolumeId): nat {
    if v in db.volumes then db.volumes[v].generation else 0
  }

  // ----- Deferred refresh queues

  predicate PendingRoot(jobs: seq<PathJob>, root: FileKey) {
    exists i :: 0 <= i < |jobs| && jobs[i].pending && jobs[i].root == root
  }

  /** Insert-or-ignore: an already pending job for the same root is left as it is. */
  function EnqueuePathRefresh(db: Db, root: FileKey, generation: nat): Db {
    if PendingRoot(db.pathJobs, root) then db
    else db.(pathJobs := db.pathJobs + [PathJob(root, generation, true, None)])
  }

  /** Insert-or-replace: the cursor restarts from the beginning. */
  function EnqueueVolumeRefresh(db: Db, v: VolumeId, generation: nat): Db {
    db.(volumeJobs := db.volumeJobs[v := VolumeJob(generation, None, true)])
  }

  // ----- Objects and links

  predicate IsDirectory(db: Db, key: FileKey)
    requires key in db.objects
  {
    db.objects[key].metadata.kind == Directory
  }

  function SetTombstone(objects: Objects, key: FileKey, tombstoned: bool): Objects {
    if key in objects then objects[key := objects[key].(tombstoned := tombstoned)] else objects
  }

  /** Delete a link row, tombstoning its object when that was the last link. */
  ghost function DropLink(db: Db, id: LinkId, key: FileKey): Db {
    var links := db.links - {id};
    db.(links := links,
        objects := if LinksOf(links, key) == {} then SetTombstone(db.objects, key, true) else db.objects)
  }

  ghost function RemoveLinkRow(db: Db, id: LinkId, expected: FileKey, generation: nat, refresh: bool)
    : Result<Db>
  {
    if id !in db.links then Ok(db)
    else if db.links[id].key != expected then Err(RemovalMismatch)
    else if expected !in db.objects then Err(UnknownObject)
    else
      var dropped := DropLink(db, id, expected);
      Ok(if IsDirectory(db, expected) && refresh then EnqueuePathRefresh(dropped, expected, generation)
         else dropped)
  }

  ghost function RemoveLinkRows(db: Db, rows: seq<(LinkId, FileKey)>, generation: nat): Result<Db>
    decreases rows
  {
    if rows == [] then Ok(db) else
      match RemoveLinkRow(db, rows[0].0, rows[0].1, generation, false)
      case Err(e) => Err(e)
      case Ok(next) => RemoveLinkRows(next, rows[1..], generation)
  }

  /** The namespace slot guarded by the unique indexes on links. */
  predicate InSlot(row: LinkRow, volume: VolumeId, parent: Option<FileKey>, name: string) {
    row.name == name && row.parent == parent && (parent.None? ==> row.key.volume == volume)
  }

  /** Rows observed before this generation are stale while the volume is being scanned. */
  function ScanCutoff(db: Db, v: VolumeId): Option<nat> {
    if v in db.sessions && db.sessions[v].phase == Scanning then Some(db.sessions[v].cutoff) else None
  }

  ghost function StaleInSlot(db: Db, link: LinkSnapshot, cutoff: nat): set<LinkId> {
    set l | l in db.links && l != link.id && db.links[l].observed < cutoff
            && InSlot(db.links[l], link.key.volume, link.parent, link.name)
  }

  predicate StaleBinding(db: Db, link: LinkSnapshot, cutoff: nat) {
    link.id in db.links && db.links[link.id].key != link.key && db.links[link.id].observed < cutoff
  }

  /** Stale rows that stand in the way of one link observation; the slot holds at most one row. */
  ghost function StaleConflicts(db: Db, link: LinkSnapshot): seq<(LinkId, FileKey)> {
    var cutoff := ScanCutoff(db, link.key.volume);
    if cutoff.None? then [] else
      var slot := StaleInSlot(db, link, cutoff.value);
      (if StaleBinding(db, link, cutoff.value) then [(link.id, db.links[link.id].key)] else []) +
      (if slot == {} then [] else [(Min(slot), db.links[Min(slot)].key)])
  }

  ghost predicate SlotTaken(db: Db, link: LinkSnapshot) {
    exists l :: l in db.links && l != link.id && InSlot(db.links[l], link.key.volume, link.parent, link.name)
  }

  /** Write the link row once nothing stands in its way. */
  ghost function WriteLink(db: Db, link: LinkSnapshot, boundary: bool, generation: nat): Result<Db> {
    if link.id in db.links && db.links[link.id].key != link.key then Err(LinkRebound)
    else if link.key !in db.objects then Err(UnknownObject)
    else
      var moved := link.id in db.links &&
                   (db.links[link.id].parent != link.parent || db.links[link.id].name != link.name);
      var queued := if moved && IsDirectory(db, link.key) then EnqueuePathRefresh(db, link.key, generation)
                    else db;
      if SlotTaken(db, link) then Err(NameTaken)
      else Ok(queued.(
        links := db.links[link.id := LinkRow(link.key, link.parent, link.name, boundary, generation)],
        objects := SetTombstone(db.objects, link.key, false)))
  }

  ghost function ObserveLink(db: Db, link: LinkSnapshot, boundary: bool, generation: nat): Result<Db> {
    if link.key !in db.objects then Err(LinkBeforeObject) else
      match RemoveLinkRows(db, StaleConflicts(db, link), generation)
      case Err(e) => Err(e)
      case Ok(cleared) => WriteLink(cleared, link, boundary, generation)
  }

  function UpsertVolumeRow(db: Db, v: VolumeId): Db {
    db.(volumes := db.volumes[v := VolumeRow(VolumeOnline, Generation(db, v))])
  }

  function ChangeVolumeState(db: Db, v: VolumeId, state: VolumeState, generation: nat): Result<Db> {
    if v !in db.volumes then Err(UnknownVolume)
    else Ok(EnqueueVolumeRefresh(
              db.(volumes := db.volumes[v := db.volumes[v].(state := state)]), v, generation))
  }

  ghost function Apply(db: Db, m: GraphMutation, generation: nat): Result<Db> {
    match m
    case UpsertVolume(v) => Ok(UpsertVolumeRow(db, v))
    case SetVolumeState(v, state) => ChangeVolumeState(db, v, state, generation)
    case RequireReconciliation(v) => ChangeVolumeState(db, v, NeedsReconciliation, generation)
    case UpsertObject(o) =>
      if o.key.volume !in db.volumes then Err(UnknownVolume)
      else Ok(db.(objects := db.objects[o.key := ObjectRow(o.metadata, false, generation)]))
    case UpsertLink(link, boundary) => ObserveLink(db, link, boundary, generation)
    case RemoveLink(id, key) => RemoveLinkRow(db, id, key, generation, true)
    case TombstoneObject(key) =>
      if LinksOf(db.links, key) != {} then Err(TombstoneWhileLinked)
      else if key !in db.objects then Err(UnknownObject)
      else Ok(db.(objects := SetTombstone(db.objects, key, true)))
  }

  // ----- Desired catalog projection

  const PATH_DEPTH_LIMIT: nat := 512

  function Join(components: seq<string>): string {
    if components == [] then ""
    else if |components| == 1 then components[0]
    else components[0] + "/" + Join(components[1..])
  }

  function LastDot(name: string): Option<nat> {
    if name == "" then None
    else if name[|name| - 1] == '.' then Some(|name| - 1)
    else LastDot(name[..|name| - 1])
  }

  /** Text after the last dot, when there is any. */
  function ExtensionOf(name: string): Option<string> {
    match LastDot(name)
    case None => None
    case Some(i) => if i + 1 < |name| then Some(name[i + 1..]) else None
  }

  /** Availability shown for an object on a volume in the given state. */
  function Shown(state: VolumeState, own: Availability): Availability {
    match state
    case VolumeOnline => own
    case VolumeOffline => Offline
    case NeedsReconciliation => Unknown
  }

  function ShownMetadata(state: VolumeState, m: Metadata): Metadata {
    m.(availability := Shown(state, m.availability))
  }

  function ContentOf(link: LinkId, row: LinkRow, path: string, metadata: Metadata): Content {
    Content(Identity(row.key, link, DocumentIdForLink(link)), row.name, path, ExtensionOf(row.name), metadata)
  }

  /** The content a link should project now: nothing when its path does not resolve. */
  ghost function Derive(volumes: Volumes, objects: Objects, links: Links, link: LinkId)
    : Result<Option<Content>>
  {
    if link !in links then Ok(None) else
      var row := links[link];
      if row.key !in objects || objects[row.key].tombstoned then Err(MissingObject)
      else if row.key.volume !in volumes then Err(MissingVolume)
      else
        match Resolve(links, link, PATH_DEPTH_LIMIT)
        case Failed(e) => if e.LinkNotFound? then Err(Unresolvable(e)) else Ok(None)
        case Resolved(components) =>
          Ok(Some(ContentOf(link, row, Join(components),
                            ShownMetadata(volumes[row.key.volume].state, objects[row.key].metadata))))
  }

  function Append(db: Db, m: IndexMutation, mode: OutboxMode): Db {
    match mode
    case Rebuildable => db
    case Durable => db.(outbox := db.outbox + [SequencedMutation(db.sequenceMark + 1, m)],
                        sequenceMark := db.sequenceMark + 1)
  }

  /** Store a derived projection and log the change, unless nothing changed. */
  function Project(db: Db, link: LinkId, derived: Option<Content>, version: nat, mode: OutboxMode): Db {
    match derived
    case None =>
      if link !in db.docs then db
      else Append(db.(docs := db.docs - {link}), Delete(DocumentIdForLink(link), version), mode)
    case Some(content) =>
      if link in db.docs && db.docs[link].fingerprint == content then db
      else Append(
        db.(docs := db.docs[link := DocRow(content.identity.key, link, version, content.path, content)]),
        Upsert(Document(content, version)), mode)
  }

  ghost function Sync(db: Db, link: LinkId, version: nat, mode: OutboxMode): Result<Db> {
    match Derive(db.volumes, db.objects, db.links, link)
    case Err(e) => Err(e)
    case Ok(derived) => Ok(Project(db, link, derived, version, mode))
  }

  ghost function SyncAll(db: Db, links: seq<LinkId>, version: nat, mode: OutboxMode): Result<Db> {
    if links == [] then Ok(db) else
      match SyncAll(db, links[..|links| - 1], version, mode)
      case Err(e) => Err(e)
      case Ok(prior) => Sync(prior, links[|links| - 1], version, mode)
  }

  // ----- Batches

  ghost function DocsOf(docs: Docs, key: FileKey): set<LinkId> {
    set l | l in docs && docs[l].key == key
  }

  /** Links whose projection one mutation may change, found before it is applied. */
  ghost function Affected(db: Db, m: GraphMutation): set<LinkId> {
    match m
    case UpsertLink(link, _) => {link.id} + set c | c in StaleConflicts(db, link) :: c.0
    case RemoveLink(id, _) => {id}
    case UpsertObject(o) => LinksOf(db.links, o.key)
    case TombstoneObject(key) => LinksOf(db.links, key) + DocsOf(db.docs, key)
    case _ => {}
  }

  datatype Tx = Tx(db: Db, affected: set<LinkId>)

  ghost function ApplyOne(tx: Tx, m: GraphMutation, generation: nat): Result<Tx> {
    match Apply(tx.db, m, generation)
    case Err(e) => Err(e)
    case Ok(db) => Ok(Tx(db, tx.affected + Affected(tx.db, m)))
  }

  ghost function ApplyAll(tx: Tx, ms: seq<GraphMutation>, generation: nat): Result<Tx> {
    if ms == [] then Ok(tx) else
      match ApplyAll(tx, ms[..|ms| - 1], generation)
      case Err(e) => Err(e)
      case Ok(prior) => ApplyOne(prior, ms[|ms| - 1], generation)
  }

  function SetGeneration(db: Db, v: VolumeId, generation: nat): Db
    requires v in db.volumes
  {
    db.(volumes := db.volumes[v := db.volumes[v].(generation := generation)])
  }

  function CommitBatch(db: Db, b: Batch, generation: nat): Result<Db> {
    if b.volume !in db.volumes then Err(UnknownVolume)
    else Ok(SetGeneration(db, b.volume, generation).(
              checkpoints := db.checkpoints[b.volume := b.checkpoint]))
  }

  ghost function ApplyBatch(db: Db, b: Batch, mode: OutboxMode): Result<Db> {
    if !ValidBatch(b) then Err(CrossesVolumes)
    else if mode == Rebuildable && db.consumers != map[] then Err(ConsumersRegistered)
    else
      var generation := Generation(db, b.volume) + 1;
      match ApplyAll(Tx(db, {}), b.mutations, generation)
      case Err(e) => Err(e)
      case Ok(tx) =>
        match SyncAll(tx.db, Ascending(tx.affected), generation, mode)
        case Err(e) => Err(e)
        case Ok(synced) => CommitBatch(synced, b, generation)
  }

  // ----- Observation sessions

  function BeginScan(db: Db, v: VolumeId, mode: ScanMode): Db {
    var generation := Generation(db, v) + 1;
    EnqueueVolumeRefresh(
      db.(volumes := db.volumes[v := VolumeRow(NeedsReconciliation, generation)],
          sessions := db.sessions[v := Session(generation, mode, Scanning, None)]),
      v, generation)
  }

  const SCAN_PROVIDER := "localsearch-observation-scan"

  /** Placeholder continuation committed with scan pages; no provider can read from it. */
  function ScanCheckpoint(v: VolumeId, cutoff: nat): ProviderCheckpoint {
    ProviderCheckpoint(SCAN_PROVIDER, 1, v, [cutoff])
  }

  ghost function ApplyScanPage(db: Db, v: VolumeId, events: seq<FilesystemEvent>): Result<Db> {
    if v !in db.sessions then Err(NoSession)
    else if db.sessions[v].phase != Scanning then Err(NotScanning)
    else if events == [] then Ok(db)
    else ApplyBatch(db, Batch(v, ScanCheckpoint(v, db.sessions[v].cutoff), FromEvents(events)), Durable)
  }

  function StageCheckpoint(db: Db, v: VolumeId, checkpoint: ProviderCheckpoint): Result<Db> {
    if checkpoint.volume != v then Err(CrossesVolumes)
    else if v !in db.sessions || db.sessions[v].phase != Scanning then Err(NotScanning)
    else Ok(db.(sessions := db.sessions[v := db.sessions[v].(phase := SweepingLinks, staged := Some(checkpoint))]))
  }

  ghost function StaleLinks(db: Db, v: VolumeId, cutoff: nat): set<LinkId> {
    set l | l in db.links && db.links[l].key.volume == v && db.links[l].observed < cutoff
  }

  ghost function StaleObjects(db: Db, v: VolumeId, cutoff: nat): set<FileKey> {
    set k | k in db.objects && k.volume == v && !db.objects[k].tombstoned
            && db.objects[k].observed < cutoff && LinksOf(db.links, k) == {}
  }

  /** Stale link rows in sweep order, at most `maximum` of them. */
  ghost function LinkSweepPage(db: Db, v: VolumeId, cutoff: nat, maximum: nat): seq<Aged> {
    Limit(ByAge(set l | l in StaleLinks(db, v, cutoff) :: Aged(db.links[l].observed, l)), maximum)
  }

  ghost function ObjectSweepPage(db: Db, v: VolumeId, cutoff: nat, maximum: nat): seq<Aged> {
    Limit(ByAge(set k | k in StaleObjects(db, v, cutoff) :: Aged(db.objects[k].observed, k.file)), maximum)
  }

  /** Remove one stale link without refreshing directory paths, then its projection. */
  ghost function SweepLink(db: Db, id: LinkId, key: FileKey, generation: nat): Result<Db> {
    match RemoveLinkRow(db, id, key, generation, false)
    case Err(e) => Err(e)
    case Ok(removed) => Sync(removed, id, generation, Durable)
  }

  ghost function SweepLinks(db: Db, rows: seq<(LinkId, FileKey)>, generation: nat): Result<Db> {
    if rows == [] then Ok(db) else
      match SweepLinks(db, rows[..|rows| - 1], generation)
      case Err(e) => Err(e)
      case Ok(prior) => SweepLink(prior, rows[|rows| - 1].0, rows[|rows| - 1].1, generation)
  }

  ghost function RowsOf(db: Db, page: seq<Aged>): seq<(LinkId, FileKey)>
    requires forall i :: 0 <= i < |page| ==> page[i].id in db.links
  {
    seq(|page|, i requires 0 <= i < |page| => (page[i].id, db.links[page[i].id].key))
  }

  lemma LinkSweepPageRows(db: Db, v: VolumeId, cutoff: nat, maximum: nat)
    ensures var page := LinkSweepPage(db, v, cutoff, maximum);
      && (forall i :: 0 <= i < |page| ==> page[i].id in StaleLinks(db, v, cutoff))
      && (|page| < maximum ==> forall l :: l in StaleLinks(db, v, cutoff) ==>
           exists i :: 0 <= i < |page| && page[i].id == l)
  {
    var all := set l | l in StaleLinks(db, v, cutoff) :: Aged(db.links[l].observed, l);
    ByAgeEnumerates(all);
    var page := LinkSweepPage(db, v, cutoff, maximum);
    forall i | 0 <= i < |page| ensures page[i].id in StaleLinks(db, v, cutoff) {
      assert page[i] in ByAge(all);
    }
    if |page| < maximum {
      forall l | l in StaleLinks(db, v, cutoff) ensures exists i :: 0 <= i < |page| && page[i].id == l {
        assert Aged(db.links[l].observed, l) in ByAge(all);
      }
    }
  }

  ghost function KeysOf(v: VolumeId, page: seq<Aged>): set<FileKey> {
    set a | a in page :: FileKey(v, a.id)
  }

  function TombstoneAll(objects: Objects, keys: set<FileKey>): Objects {
    map k | k in objects :: if k in keys then objects[k].(tombstoned := true) else objects[k]
  }

  function Activate(db: Db, v: VolumeId, generation: nat): Result<Db>
    requires v in db.sessions
  {
    if db.sessions[v].staged.None? then Err(MissingStagedCheckpoint)
    else Ok(EnqueueVolumeRefresh(
              db.(checkpoints := db.checkpoints[v := db.sessions[v].staged.value],
                  volumes := db.volumes[v := VolumeRow(VolumeOnline, generation)],
                  sessions := db.sessions - {v}),
              v, generation))
  }

  datatype Finalized = Finalized(db: Db, completed: bool)

  ghost function SweepLinksStep(db: Db, v: VolumeId, maximum: nat, generation: nat): Result<Finalized>
    requires v in db.sessions && v in db.volumes
  {
    LinkSweepPageRows(db, v, db.sessions[v].cutoff, maximum);
    var page := LinkSweepPage(db, v, db.sessions[v].cutoff, maximum);
    match SweepLinks(db, RowsOf(db, page), generation)
    case Err(e) => Err(e)
    case Ok(swept) =>
      if v !in swept.volumes then Err(UnknownVolume) else
        var phased := if |page| < maximum
                      then swept.(sessions := swept.sessions[v := db.sessions[v].(phase := SweepingObjects)])
                      else swept;
        Ok(Finalized(SetGeneration(phased, v, generation), false))
  }

  ghost function SweepObjectsStep(db: Db, v: VolumeId, maximum: nat, generation: nat): Result<Finalized>
    requires v in db.sessions && v in db.volumes
  {
    var page := ObjectSweepPage(db, v, db.sessions[v].cutoff, maximum);
    var swept := db.(objects := TombstoneAll(db.objects, KeysOf(v, page)));
    if |page| < maximum then
      match Activate(swept, v, generation)
      case Err(e) => Err(e)
      case Ok(active) => Ok(Finalized(active, true))
    else Ok(Finalized(SetGeneration(swept, v, generation), false))
  }

  ghost function FinalizeScan(db: Db, v: VolumeId, maximum: nat): Result<Finalized> {
    if maximum == 0 then Ok(Finalized(db, false))
    else if v !in db.sessions then Err(NoSession)
    else if db.sessions[v].phase == Scanning then Err(StillScanning)
    else if v !in db.volumes then Err(UnknownVolume)
    else
      var generation := Generation(db, v) + 1;
      if db.sessions[v].phase == SweepingLinks then SweepLinksStep(db, v, maximum, generation)
      else SweepObjectsStep(db, v, maximum, generation)
  }

  // ----- Deferred projection refresh

  ghost predicate Beyond(cursor: Option<LinkId>, l: LinkId) {
    cursor.None? || cursor.value < l
  }

  ghost function PendingVolumes(db: Db): set<VolumeId> {
    set v | v in db.volumeJobs && db.volumeJobs[v].pending
  }

  ghost function VolumeRefreshPage(db: Db, v: VolumeId, cursor: Option<LinkId>, maximum: nat): seq<LinkId> {
    Limit(Ascending(set l | l in db.docs && db.docs[l].key.volume == v && Beyond(cursor, l)), maximum)
  }

  ghost function RefreshVolume(db: Db, maximum: nat): Result<Db> {
    if maximum == 0 || PendingVolumes(db) == {} then Ok(db) else
      var v := Min(PendingVolumes(db));
      var job := db.volumeJobs[v];
      if v !in db.volumes then Err(UnknownVolume) else
        var page := VolumeRefreshPage(db, v, job.cursor, maximum);
        match SyncAll(db, page, Generation(db, v), Durable)
        case Err(e) => Err(e)
        case Ok(synced) =>
          var next := if |page| < maximum then job.(pending := false)
                      else job.(cursor := Some(page[|page| - 1]));
          Ok(synced.(volumeJobs := synced.volumeJobs[v := next]))
  }

  function FirstPending(jobs: seq<PathJob>): nat {
    if jobs == [] || jobs[0].pending then 0 else 1 + FirstPending(jobs[1..])
  }

  ghost function PathRefreshPage(db: Db, v: VolumeId, cursor: Option<LinkId>, maximum: nat): seq<LinkId> {
    Limit(Ascending(set l | l in db.links && db.links[l].key.volume == v && Beyond(cursor, l)), maximum)
  }

  ghost function RefreshPaths(db: Db, maximum: nat): Result<Db> {
    var j := FirstPending(db.pathJobs);
    if maximum == 0 || j >= |db.pathJobs| then Ok(db) else
      var job := db.pathJobs[j];
      var v := job.root.volume;
      if v !in db.volumes then Err(UnknownVolume) else
        var page := PathRefreshPage(db, v, job.cursor, maximum);
        match SyncAll(db, page, Generation(db, v), Durable)
        case Err(e) => Err(e)
        case Ok(synced) =>
          var next := if |page| < maximum then job.(pending := false)
                      else job.(cursor := Some(page[|page| - 1]));
          Ok(synced.(pathJobs := db.pathJobs[j := next]))
  }

  // ----- Outbox

  function RowsAfter(rows: seq<SequencedMutation>, after: nat): seq<SequencedMutation> {
    if rows == [] then [] else
      RowsAfter(rows[..|rows| - 1], after) +
      if rows[|rows| - 1].sequence > after then [rows[|rows| - 1]] else []
  }

  function ReadOutbox(db: Db, after: nat, limit: nat): seq<SequencedMutation> {
    Limit(RowsAfter(db.outbox, after), limit)
  }

  function RowsThrough(rows: seq<SequencedMutation>, through: nat): seq<SequencedMutation> {
    if rows == [] then [] else
      RowsThrough(rows[..|rows| - 1], through) +
      if rows[|rows| - 1].sequence <= through then [rows[|rows| - 1]] else []
  }

  function Without(rows: seq<SequencedMutation>, sequences: set<nat>): seq<SequencedMutation> {
    if rows == [] then [] else
      Without(rows[..|rows| - 1], sequences) +
      if rows[|rows| - 1].sequence in sequences then [] else [rows[|rows| - 1]]
  }

  ghost function Acks(db: Db): set<nat> {
    set c | c in db.consumers :: db.consumers[c].lastSequence
  }

  ghost function LatestSequence(db: Db): nat {
    Max({db.sequenceMark} + Acks(db) + set r | r in db.outbox :: r.sequence)
  }

  ghost function Acknowledge(db: Db, consumer: string, sequence: nat, indexGeneration: nat): Result<Db> {
    if sequence > LatestSequence(db) then Err(BeyondOutbox)
    else if consumer in db.consumers && sequence < db.consumers[consumer].lastSequence then Err(MovesBackwards)
    else Ok(db.(consumers := db.consumers[consumer := ConsumerCheckpoint(sequence, indexGeneration)]))
  }

  ghost function PruneConsumed(db: Db): Db {
    if db.consumers == map[] then db
    else
      assert Acks(db) != {} by { var c :| c in db.consumers; assert db.consumers[c].lastSequence in Acks(db); }
      db.(outbox := RowsAfter(db.outbox, Min(Acks(db))))
  }

  ghost function SafeThrough(db: Db, withoutConsumers: bool): Option<nat> {
    if Acks(db) != {} then Some(Min(Acks(db)))
    else if withoutConsumers then Some(db.sequenceMark) else None
  }

  ghost function PruneBounded(db: Db, maximum: nat, withoutConsumers: bool): Result<Db> {
    if maximum == 0 || maximum > 100_000 then Err(InvalidBound) else
      match SafeThrough(db, withoutConsumers)
      case None => Ok(db)
      case Some(through) =>
        var doomed := Limit(RowsThrough(db.outbox, through), maximum);
        Ok(db.(outbox := Without(db.outbox, set r | r in doomed :: r.sequence)))
  }

  // ----- Joined desired read

  predicate Joins(db: Db, row: DocRow) {
    row.link in db.links && row.key in db.objects && row.key.volume in db.volumes
  }

  function JoinedDocument(db: Db, id: DocumentId, row: DocRow): Document
    requires Joins(db, row)
  {
    var name := db.links[row.link].name;
    Document(
      Content(Identity(row.key, row.link, id), name, row.path, ExtensionOf(name),
              ShownMetadata(db.volumes[row.key.volume].state, db.objects[row.key].metadata)),
      row.version)
  }

  /** Inner joins: a row without its link, object or volume would be dropped. */
  function DesiredCatalog(db: Db): map<DocumentId, Document> {
    map l | l in db.docs && Joins(db, db.docs[l]) :: JoinedDocument(db, l, db.docs[l])
  }

  /** The documents as they were last projected, fingerprint and version. */
  function LastProjected(db: Db): map<DocumentId, Document> {
    map l | l in db.docs :: Document(db.docs[l].fingerprint, db.docs[l].version)
  }
}
