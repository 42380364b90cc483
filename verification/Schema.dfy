/** The durable tables of the filesystem graph, as one value per committed database state. */
module Schema {
  import opened Core

  datatype VolumeState = VolumeOnline | VolumeOffline | NeedsReconciliation

  datatype VolumeRow = VolumeRow(state: VolumeState, generation: nat)

  datatype ObjectRow = ObjectRow(metadata: Metadata, tombstoned: bool, observed: nat)

  datatype LinkRow = LinkRow(
    key: FileKey, parent: Option<FileKey>, name: string, boundary: bool, observed: nat)

  /**
   * One desired catalog row. `fingerprint` stands for the SHA-256 digest of the last projected
   * content; the digest is taken to be injective, so it is represented by what it digests.
   */
  datatype DocRow = DocRow(
    key: FileKey, link: LinkId, version: nat, path: string, fingerprint: Content)

  datatype ScanMode = Initial | Reconcile

  datatype ScanPhase = Scanning | SweepingLinks | SweepingObjects

  datatype ProviderCheckpoint = ProviderCheckpoint(
    provider: string, format: nat, volume: VolumeId, token: seq<nat>)

  datatype Session = Session(
    cutoff: nat, mode: ScanMode, phase: ScanPhase, staged: Option<ProviderCheckpoint>)

  datatype PathJob = PathJob(root: FileKey, generation: nat, pending: bool, cursor: Option<LinkId>)

  datatype VolumeJob = VolumeJob(generation: nat, cursor: Option<LinkId>, pending: bool)

  datatype ConsumerCheckpoint = ConsumerCheckpoint(lastSequence: nat, indexGeneration: nat)

  type Volumes = map<VolumeId, VolumeRow>
  type Objects = map<FileKey, ObjectRow>
  type Links = map<LinkId, LinkRow>
  type Docs = map<LinkId, DocRow>

  /** `sequenceMark` is the AUTOINCREMENT high-water mark, which survives row deletion. */
  datatype Db = Db(
    volumes: Volumes,
    objects: Objects,
    links: Links,
    docs: Docs,
    outbox: seq<SequencedMutation>,
    sequenceMark: nat,
    consumers: map<string, ConsumerCheckpoint>,
    pathJobs: seq<PathJob>,
    volumeJobs: map<VolumeId, VolumeJob>,
    sessions: map<VolumeId, Session>,
    checkpoints: map<VolumeId, ProviderCheckpoint>)

  const EMPTY_DB: Db := Db(map[], map[], map[], map[], [], 0, map[], [], map[], map[], map[])

  ghost function LinksOf(links: Links, key: FileKey): set<LinkId> {
    set l | l in links && links[l].key == key
  }
}
