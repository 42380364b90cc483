/** What an incremental read does to the graph, in every run of the controller. */
module IncrementalReads {
  import opened Core
  import opened Schema
  import opened GraphSpec
  import opened GraphTables
  import opened Catalog
  import opened CatalogPaths
  import opened GraphRuns
  import opened Observation
  import opened Controller
  import M = Maintenance
  import P = ObservationProgress

  // ----- The reference: a volume as a snapshot, and events on it

  ghost function VolumeSnapshot(db: Db, v: VolumeId): Snapshot {
    Snapshot(map k | k in db.objects && k.volume == v :: db.objects[k].metadata, VolumeLinks(db, v))
  }

  /** Link identities bound on other volumes. */
  ghost function Foreign(db: Db, v: VolumeId): set<LinkId> {
    set l | l in db.links && db.links[l].key.volume != v
  }

  /** The event makes sense after what was seen so far. */
  ghost predicate Coherent(s: Snapshot, foreign: set<LinkId>, v: VolumeId, e: FilesystemEvent) {
    match e
    case ObjectObserved(o) => o.key.volume == v
    case LinkObserved(link) =>
      && link.key.volume == v && (link.parent.Some? ==> link.parent.value.volume == v) && link.key in s.objects
      && link.id !in foreign && (link.id in s.links ==> s.links[link.id].key == link.key)
      && forall l :: l in s.links && l != link.id ==>
           !(s.links[l].name == link.name && s.links[l].parent == link.parent)
    case LinkRemoved(id, key) => key.volume == v && id !in foreign && (id in s.links ==> s.links[id].key == key)
    case ObjectRemoved(key) =>
      key.volume == v && key in s.objects && forall l :: l in s.links ==> s.links[l].key != key
    case ReconciliationRequired(u) => u == v
  }

  ghost predicate AllCoherent(s: Snapshot, foreign: set<LinkId>, v: VolumeId, events: seq<FilesystemEvent>) {
    forall i :: 0 <= i < |events| ==> Coherent(ObserveEvents(s, events[..i]), foreign, v, events[i])
  }

  predicate AsksReconciliation(events: seq<FilesystemEvent>) {
    exists i :: 0 <= i < |events| && events[i].ReconciliationRequired?
  }

  function StateThrough(state: VolumeState, events: seq<FilesystemEvent>): VolumeState {
    if AsksReconciliation(events) then NeedsReconciliation else state
  }

  /** Nothing of any other volume is different. */
  ghost predicate OthersSame(a: Db, b: Db, v: VolumeId) {
    && Foreign(a, v) == Foreign(b, v)
    && forall u :: u != v ==>
         && VolumeSnapshot(a, u) == VolumeSnapshot(b, u)
         && (u in a.volumes <==> u in b.volumes) && (u in a.volumes ==> a.volumes[u] == b.volumes[u])
  }

  /** Volume `v` went from one snapshot and state to another, and no other volume moved. */
  ghost predicate Became(a: Db, b: Db, v: VolumeId, s: Snapshot, state: VolumeState) {
    VolumeSnapshot(b, v) == s && v in b.volumes && b.volumes[v].state == state && OthersSame(a, b, v)
  }

  // ----- One event

  lemma LinkCoherent(db: Db, link: LinkSnapshot, g: nat, v: VolumeId)
    requires TablesSound(db) && v in db.volumes && v !in db.sessions && InVolume(UpsertLink(link, false), v)
    ensures ObserveLink(db, link, false, g).Ok? <==>
      Coherent(VolumeSnapshot(db, v), Foreign(db, v), v, LinkObserved(link))
  {
    hide TablesSound;
    var s := VolumeSnapshot(db, v);
    assert StaleConflicts(db, link) == [];
    assert RemoveLinkRows(db, [], g) == Ok(db);
    SlotTakenExactly(db, link, v);
  }

  /** A name is taken by a link of the same volume. */
  lemma SlotTakenExactly(db: Db, link: LinkSnapshot, v: VolumeId)
    requires TablesSound(db) && InVolume(UpsertLink(link, false), v)
    ensures SlotTaken(db, link) <==>
      exists l :: l in VolumeLinks(db, v) && l != link.id
                  && VolumeLinks(db, v)[l].name == link.name && VolumeLinks(db, v)[l].parent == link.parent
  {
    if SlotTaken(db, link) {
      var l :| l in db.links && l != link.id && InSlot(db.links[l], link.key.volume, link.parent, link.name);
      assert l in VolumeLinks(db, v);
    }
    if l :| l in VolumeLinks(db, v) && l != link.id
            && VolumeLinks(db, v)[l].name == link.name && VolumeLinks(db, v)[l].parent == link.parent {
      assert InSlot(db.links[l], link.key.volume, link.parent, link.name);
    }
  }

  lemma EventCoherent(db: Db, e: FilesystemEvent, g: nat, v: VolumeId)
    requires TablesSound(db) && v in db.volumes && v !in db.sessions
    ensures InVolume(FromEvent(e), v) && Apply(db, FromEvent(e), g).Ok? <==>
      Coherent(VolumeSnapshot(db, v), Foreign(db, v), v, e)
  {
    if InVolume(FromEvent(e), v) {
      match e {
        case LinkObserved(link) => LinkCoherent(db, link, g, v);
        case LinkRemoved(id, key) => RemoveLinkRowKeeps(db, id, key, g, true);
        case ObjectRemoved(key) =>
          assert (exists l :: l in LinksOf(db.links, key)) <==>
            exists l :: l in VolumeLinks(db, v) && VolumeLinks(db, v)[l].key == key by {
            if l :| l in LinksOf(db.links, key) {
              assert VolumeLinks(db, v)[l].key == key;
            }
            if l :| l in VolumeLinks(db, v) && VolumeLinks(db, v)[l].key == key {
              assert l in LinksOf(db.links, key);
            }
          }
        case _ =>
      }
    }
  }

  /** Snapshots depend on link rows and metadata alone. */
  lemma LinkStepObjects(db: Db, next: Db, u: VolumeId)
    requires LinkStep(db, next)
    ensures VolumeSnapshot(next, u).objects == VolumeSnapshot(db, u).objects
  {
    forall k | k in db.objects ensures k in next.objects && next.objects[k].metadata == db.objects[k].metadata {
      assert SameMetadata(db, next, k);
    }
  }

  /** A step on the link rows of one volume. */
  lemma LinkStepBecomes(db: Db, next: Db, v: VolumeId)
    requires LinkStep(db, next) && v in db.volumes && Foreign(next, v) == Foreign(db, v)
    requires forall u :: u != v ==> VolumeLinks(next, u) == VolumeLinks(db, u)
    ensures Became(db, next, v, VolumeSnapshot(db, v).(links := VolumeLinks(next, v)), db.volumes[v].state)
  {
    hide LinkStep, VolumeLinks, Foreign;
    forall u ensures VolumeSnapshot(next, u).objects == VolumeSnapshot(db, u).objects {
      LinkStepObjects(db, next, u);
    }
    SameVolumeRows(db, next);
  }

  lemma SameVolumeRows(db: Db, next: Db)
    requires LinkStep(db, next)
    ensures next.volumes == db.volumes
  {
  }

  lemma WrittenLinks(db: Db, next: Db, v: VolumeId, id: LinkId, row: LinkRow)
    requires next.links == db.links[id := row] && row.key.volume == v && id !in Foreign(db, v)
    ensures VolumeLinks(next, v) == VolumeLinks(db, v)[id := Shape(row)] && Foreign(next, v) == Foreign(db, v)
    ensures forall u :: u != v ==> VolumeLinks(next, u) == VolumeLinks(db, u)
  {
  }

  lemma RemovedLinks(db: Db, next: Db, v: VolumeId, id: LinkId)
    requires next.links == db.links - {id} && id !in Foreign(db, v)
    ensures VolumeLinks(next, v) == VolumeLinks(db, v) - {id} && Foreign(next, v) == Foreign(db, v)
    ensures forall u :: u != v ==> VolumeLinks(next, u) == VolumeLinks(db, u)
  {
  }

  lemma NoConflicts(db: Db, link: LinkSnapshot, v: VolumeId)
    requires v !in db.sessions && link.key.volume == v
    ensures Ids(StaleConflicts(db, link)) == {} && db.links - Ids(StaleConflicts(db, link)) == db.links
  {
    assert StaleConflicts(db, link) == [];
  }

  lemma ObservedCarried(db: Db, link: LinkSnapshot, g: nat, v: VolumeId)
    requires TablesSound(db) && v in db.volumes && v !in db.sessions && InVolume(UpsertLink(link, false), v)
    requires ObserveLink(db, link, false, g).Ok?
    ensures Became(db, ObserveLink(db, link, false, g).value, v,
                   ObserveEvent(VolumeSnapshot(db, v), LinkObserved(link)), db.volumes[v].state)
  {
    hide TablesSound, ObserveLink, LinkStep, Became, VolumeLinks, Foreign, StaleConflicts, Ids;
    LinkCoherent(db, link, g, v);
    ObserveLinkKeeps(db, link, false, g);
    NoConflicts(db, link, v);
    var next, row := ObserveLink(db, link, false, g).value, LinkRow(link.key, link.parent, link.name, false, g);
    WrittenLinks(db, next, v, link.id, row);
    LinkStepBecomes(db, next, v);
  }

  lemma RemovedCarried(db: Db, id: LinkId, key: FileKey, g: nat, v: VolumeId)
    requires TablesSound(db) && v in db.volumes && key.volume == v && RemoveLinkRow(db, id, key, g, true).Ok?
    ensures Became(db, RemoveLinkRow(db, id, key, g, true).value, v,
                   ObserveEvent(VolumeSnapshot(db, v), LinkRemoved(id, key)), db.volumes[v].state)
  {
    hide TablesSound, RemoveLinkRow, LinkStep, Became, VolumeLinks;
    RemoveLinkRowKeeps(db, id, key, g, true);
    var next := RemoveLinkRow(db, id, key, g, true).value;
    RemovedLinks(db, next, v, id);
    LinkStepBecomes(db, next, v);
  }

  lemma ObjectCarried(db: Db, next: Db, v: VolumeId, o: ObjectSnapshot, g: nat)
    requires v in db.volumes && o.key.volume == v
    requires next == db.(objects := db.objects[o.key := ObjectRow(o.metadata, false, g)])
    ensures Became(db, next, v, ObserveEvent(VolumeSnapshot(db, v), ObjectObserved(o)), db.volumes[v].state)
  {
    assert forall u :: VolumeLinks(next, u) == VolumeLinks(db, u);
    assert VolumeSnapshot(next, v).objects == VolumeSnapshot(db, v).objects[o.key := o.metadata];
    hide VolumeLinks;
    assert forall u :: u != v ==> VolumeSnapshot(next, u).objects == VolumeSnapshot(db, u).objects;
  }

  /** Link rows and metadata stay; at most the volume's own state changes. */
  lemma RowsCarried(db: Db, next: Db, v: VolumeId)
    requires next.links == db.links && SameMetadataAll(db, next) && next.objects.Keys == db.objects.Keys
    requires v in next.volumes && forall u :: u != v ==> (u in db.volumes <==> u in next.volumes)
    requires forall u :: u != v && u in db.volumes ==> db.volumes[u] == next.volumes[u]
    ensures Became(db, next, v, VolumeSnapshot(db, v), next.volumes[v].state)
  {
    forall k | k in db.objects ensures k in next.objects && next.objects[k].metadata == db.objects[k].metadata {
      assert SameMetadata(db, next, k);
    }
    assert forall u :: VolumeLinks(next, u) == VolumeLinks(db, u);
    assert forall u :: VolumeSnapshot(next, u).objects == VolumeSnapshot(db, u).objects;
  }

  lemma EventCarried(db: Db, e: FilesystemEvent, g: nat, v: VolumeId)
    requires TablesSound(db) && v in db.volumes && v !in db.sessions
    requires InVolume(FromEvent(e), v) && Apply(db, FromEvent(e), g).Ok?
    ensures Became(db, Apply(db, FromEvent(e), g).value, v, ObserveEvent(VolumeSnapshot(db, v), e),
                   StateThrough(db.volumes[v].state, [e]))
  {
    hide TablesSound, ObserveLink, RemoveLinkRow, Became, VolumeSnapshot, ObserveEvent;
    assert AsksReconciliation([e]) <==> e.ReconciliationRequired? by {
      assert [e][0] == e;
    }
    var next := Apply(db, FromEvent(e), g).value;
    match e {
      case LinkObserved(link) => ObservedCarried(db, link, g, v);
      case LinkRemoved(id, key) => RemovedCarried(db, id, key, g, v);
      case ObjectObserved(o) => ObjectCarried(db, next, v, o, g);
      case _ =>
        RowsCarried(db, next, v);
        Ignored(VolumeSnapshot(db, v), e);
    }
  }

  lemma Ignored(s: Snapshot, e: FilesystemEvent)
    requires e.ObjectRemoved? || e.ReconciliationRequired?
    ensures ObserveEvent(s, e) == s
  {
  }

  // ----- A batch of events, possibly behind the volume coming back

  /** What the controller puts in front of the events of a volume that was offline. */
  function Back(db: Db, v: VolumeId): seq<GraphMutation> {
    if v in db.volumes && db.volumes[v].state == VolumeOffline then [SetVolumeState(v, VolumeOnline)] else []
  }

  /** An offline volume that answers is online. */
  function Answered(state: VolumeState): VolumeState {
    if state == VolumeOffline then VolumeOnline else state
  }

  lemma BecameTransitive(
    a: Db, b: Db, c: Db, v: VolumeId, s: Snapshot, first: VolumeState, t: Snapshot, second: VolumeState)
    requires Became(a, b, v, s, first) && Became(b, c, v, t, second)
    ensures Became(a, c, v, t, second)
  {
    hide VolumeSnapshot, Foreign;
    forall u | u != v ensures VolumeSnapshot(a, u) == VolumeSnapshot(c, u) {
      assert VolumeSnapshot(a, u) == VolumeSnapshot(b, u);
    }
  }

  lemma BecameItself(db: Db, v: VolumeId)
    requires v in db.volumes
    ensures Became(db, db, v, VolumeSnapshot(db, v), db.volumes[v].state)
  {
  }

  lemma OneMutation(db: Db, m: GraphMutation, g: nat)
    ensures var r, all := Apply(db, m, g), ApplyAll(Tx(db, {}), [m], g);
      (r.Ok? <==> all.Ok?) && (r.Ok? ==> all.value.db == r.value)
  {
    assert [m][..0] == [];
    assert ApplyAll(Tx(db, {}), [m][..0], g) == Ok(Tx(db, {}));
  }

  lemma BackApplied(db: Db, v: VolumeId, g: nat)
    requires TablesSound(db) && v in db.volumes
    ensures var r := ApplyAll(Tx(db, {}), Back(db, v), g);
      r.Ok? && Became(db, r.value.db, v, VolumeSnapshot(db, v), Answered(db.volumes[v].state))
  {
    hide Became, VolumeSnapshot;
    var ms := Back(db, v);
    if ms == [] {
      BecameItself(db, v);
    } else {
      OneMutation(db, ms[0], g);
      RowsCarried(db, Apply(db, ms[0], g).value, v);
    }
  }

  lemma CoherentFront(s: Snapshot, foreign: set<LinkId>, v: VolumeId, events: seq<FilesystemEvent>)
    requires events != []
    ensures var front := events[..|events| - 1];
      AllCoherent(s, foreign, v, events) <==>
        AllCoherent(s, foreign, v, front) && Coherent(ObserveEvents(s, front), foreign, v, events[|events| - 1])
  {
    hide Coherent, ObserveEvents;
    var front := events[..|events| - 1];
    assert forall i :: 0 <= i < |front| ==> front[..i] == events[..i] && front[i] == events[i];
  }

  lemma StateFront(state: VolumeState, events: seq<FilesystemEvent>)
    requires events != []
    ensures var front, last := events[..|events| - 1], events[|events| - 1];
      StateThrough(StateThrough(state, front), [last]) == StateThrough(state, events)
  {
    var front, last := events[..|events| - 1], events[|events| - 1];
    assert [last][0] == last;
    assert forall i :: 0 <= i < |front| ==> front[i] == events[i];
    if AsksReconciliation(events) && !last.ReconciliationRequired? {
      var i :| 0 <= i < |events| && events[i].ReconciliationRequired?;
      assert front[i].ReconciliationRequired?;
    }
  }

  ghost predicate AllInVolume(events: seq<FilesystemEvent>, v: VolumeId) {
    forall i :: 0 <= i < |events| ==> InVolume(FromEvent(events[i]), v)
  }

  lemma FrontMutations(db: Db, v: VolumeId, events: seq<FilesystemEvent>)
    requires events != []
    ensures var ms := Back(db, v) + FromEvents(events);
      && ms[|ms| - 1] == FromEvent(events[|events| - 1])
      && ms[..|ms| - 1] == Back(db, v) + FromEvents(events[..|events| - 1])
  {
  }

  lemma MutationsInVolume(db: Db, v: VolumeId, events: seq<FilesystemEvent>)
    ensures var ms := Back(db, v) + FromEvents(events);
      (forall i :: 0 <= i < |ms| ==> InVolume(ms[i], v)) <==> AllInVolume(events, v)
  {
    var back := Back(db, v);
    var ms := back + FromEvents(events);
    forall i | 0 <= i < |events| ensures ms[|back| + i] == FromEvent(events[i]) {}
    if AllInVolume(events, v) {
      forall i | 0 <= i < |ms| ensures InVolume(ms[i], v) {
        if i >= |back| {
          assert ms[i] == FromEvent(events[i - |back|]);
        }
      }
    }
  }

  /** Events within the volume apply exactly when each is coherent with those before it. */
  lemma {:induction false} EventsCarried(db: Db, events: seq<FilesystemEvent>, g: nat, v: VolumeId)
    requires TablesSound(db) && v in db.volumes && v !in db.sessions && AllInVolume(events, v)
    ensures var s, foreign := VolumeSnapshot(db, v), Foreign(db, v);
      var r := ApplyAll(Tx(db, {}), Back(db, v) + FromEvents(events), g);
      && (r.Ok? <==> AllCoherent(s, foreign, v, events))
      && (r.Ok? ==> Became(db, r.value.db, v, ObserveEvents(s, events),
                           StateThrough(Answered(db.volumes[v].state), events)))
  {
    hide TablesSound, Became, AllCoherent, VolumeSnapshot, Foreign, Coherent, ObserveEvent, LinksFrom, SameGenerations;
    var s, foreign := VolumeSnapshot(db, v), Foreign(db, v);
    if events == [] {
      assert Back(db, v) + FromEvents(events) == Back(db, v);
      BackApplied(db, v, g);
      NothingIncoherent(s, foreign, v);
    } else {
      var front, last := events[..|events| - 1], events[|events| - 1];
      EventsCarried(db, front, g, v);
      FrontMutations(db, v, events);
      CoherentFront(s, foreign, v, events);
      StateFront(Answered(db.volumes[v].state), events);
      var r := ApplyAll(Tx(db, {}), Back(db, v) + FromEvents(front), g);
      if r.Ok? {
        MutationsInVolume(db, v, front);
        ApplyAllKeeps(Tx(db, {}), Back(db, v) + FromEvents(front), g, v);
        BecameParts(db, r.value.db, v, ObserveEvents(s, front), StateThrough(Answered(db.volumes[v].state), front));
        EventCoherent(r.value.db, last, g, v);
        if Apply(r.value.db, FromEvent(last), g).Ok? {
          EventCarried(r.value.db, last, g, v);
          BecameTransitive(db, r.value.db, Apply(r.value.db, FromEvent(last), g).value, v,
                           ObserveEvents(s, front), StateThrough(Answered(db.volumes[v].state), front),
                           ObserveEvents(s, events), StateThrough(Answered(db.volumes[v].state), events));
        }
      }
    }
  }

  lemma BecameParts(a: Db, b: Db, v: VolumeId, s: Snapshot, state: VolumeState)
    requires Became(a, b, v, s, state)
    ensures VolumeSnapshot(b, v) == s && v in b.volumes && b.volumes[v].state == state && Foreign(a, v) == Foreign(b, v)
  {
  }

  lemma NothingIncoherent(s: Snapshot, foreign: set<LinkId>, v: VolumeId)
    ensures AllCoherent(s, foreign, v, [])
  {
  }

  lemma CoherentInVolume(s: Snapshot, foreign: set<LinkId>, v: VolumeId, events: seq<FilesystemEvent>)
    requires AllCoherent(s, foreign, v, events)
    ensures AllInVolume(events, v)
  {
    forall i | 0 <= i < |events| ensures InVolume(FromEvent(events[i]), v) {
      assert Coherent(ObserveEvents(s, events[..i]), foreign, v, events[i]);
    }
  }

  // ----- The controller's read

  /** Batches on a stored checkpoint are addressed to its own known volume. */
  ghost predicate Placed(db: Db) {
    forall v :: v in db.checkpoints ==> v in db.volumes && db.checkpoints[v].volume == v
  }

  /** The catalog shows what it should of every link the events speak of. */
  ghost predicate EventsShown(db: Db, events: seq<FilesystemEvent>) {
    forall i, l :: 0 <= i < |events| && Concerns(FromEvent(events[i]), db.links, l) ==> Shows(db, l)
  }

  /**
   * What a reply makes of the graph. Changes are committed as a whole with their checkpoint, or not
   * at all; a gap or an unusable checkpoint asks for reconciliation, an absent volume is offline,
   * and both leave links, metadata and checkpoints alone.
   */
  ghost predicate Outcome(db: Db, next: Db, v: VolumeId, reply: ChangesReply)
    requires v in db.volumes
  {
    var s := VolumeSnapshot(db, v);
    match reply
    case Changes(events, checkpoint) =>
      if checkpoint.volume == v && AllCoherent(s, Foreign(db, v), v, events) then
        && Became(db, next, v, ObserveEvents(s, events), StateThrough(Answered(db.volumes[v].state), events))
        && next.checkpoints == db.checkpoints[v := checkpoint] && EventsShown(next, events)
      else next == db
    case OtherFailure => next == db
    case Unavailable => Became(db, next, v, s, VolumeOffline) && next.checkpoints == db.checkpoints
    case _ => Became(db, next, v, s, NeedsReconciliation) && next.checkpoints == db.checkpoints
  }

  /** A committed batch only adds its generation to what its mutations left. */
  lemma CommittedBecame(db: Db, b: Batch, s: Snapshot, state: VolumeState)
    requires CatalogSound(db) && ApplyBatch(db, b, Durable).Ok? && Mutated(db, b).Ok?
    requires Became(db, Mutated(db, b).value.db, b.volume, s, state)
    ensures Became(db, ApplyBatch(db, b, Durable).value, b.volume, s, state)
    ensures ApplyBatch(db, b, Durable).value.checkpoints == db.checkpoints[b.volume := b.checkpoint]
  {
    hide CatalogSound, ApplyBatch, Mutated, TablesSound, Became, LinksFrom, SameGenerations;
    BatchTables(db, b, Durable);
    var tx, next := Mutated(db, b).value.db, ApplyBatch(db, b, Durable).value;
    BecameParts(db, tx, b.volume, s, state);
    RowsCarried(tx, next, b.volume);
    BecameTransitive(db, tx, next, b.volume, s, state, s, state);
  }

  lemma ChangesApplied(db: Db, v: VolumeId, events: seq<FilesystemEvent>, checkpoint: ProviderCheckpoint)
    requires CatalogSound(db) && v in db.volumes && v !in db.sessions
    ensures Outcome(db, OrKeep(db, ApplyBatch(db, Batch(v, checkpoint, Back(db, v) + FromEvents(events)), Durable)),
                    v, Changes(events, checkpoint))
  {
    hide TablesSound, RowsShaped, FaithfulExcept, ApplyBatch, Became, AllCoherent, ApplyAll, VolumeSnapshot, Foreign,
      Shows, AllInVolume;
    var b := Batch(v, checkpoint, Back(db, v) + FromEvents(events));
    MutationsInVolume(db, v, events);
    if AllCoherent(VolumeSnapshot(db, v), Foreign(db, v), v, events) {
      CoherentInVolume(VolumeSnapshot(db, v), Foreign(db, v), v, events);
    }
    if ValidBatch(b) {
      EventsCarried(db, events, Generation(db, v) + 1, v);
      P.BatchCommitsExactly(db, b);
      if ApplyBatch(db, b, Durable).Ok? {
        CommittedBecame(db, b, ObserveEvents(VolumeSnapshot(db, v), events),
                        StateThrough(Answered(db.volumes[v].state), events));
        EventsAreShown(db, v, b, events);
      }
    } else {
      InvalidRefused(db, b);
    }
  }

  lemma InvalidRefused(db: Db, b: Batch)
    requires !ValidBatch(b)
    ensures ApplyBatch(db, b, Durable).Err?
  {
  }

  lemma EventsAreShown(db: Db, v: VolumeId, b: Batch, events: seq<FilesystemEvent>)
    requires CatalogSound(db) && ApplyBatch(db, b, Durable).Ok? && b.mutations == Back(db, v) + FromEvents(events)
    ensures EventsShown(ApplyBatch(db, b, Durable).value, events)
  {
    hide CatalogSound, ApplyBatch, Shows, Concerns, Mutated;
    var next := ApplyBatch(db, b, Durable).value;
    forall i, l | 0 <= i < |events| && Concerns(FromEvent(events[i]), next.links, l) ensures Shows(next, l) {
      var m := FromEvent(events[i]);
      assert b.mutations[|Back(db, v)| + i] == m;
      BatchShows(db, b, Durable, l);
    }
  }

  lemma StateApplied(db: Db, v: VolumeId, m: GraphMutation, state: VolumeState)
    requires CatalogSound(db) && v in db.checkpoints && v in db.volumes && db.checkpoints[v].volume == v
    requires m == SetVolumeState(v, state) || (m == RequireReconciliation(v) && state == NeedsReconciliation)
    ensures var r := ApplyBatch(db, Batch(v, db.checkpoints[v], [m]), Durable);
      r.Ok? && Became(db, r.value, v, VolumeSnapshot(db, v), state) && r.value.checkpoints == db.checkpoints
  {
    hide TablesSound, RowsShaped, FaithfulExcept, ApplyBatch, Became, ApplyAll, VolumeSnapshot;
    var b := Batch(v, db.checkpoints[v], [m]);
    var g := Generation(db, v) + 1;
    OneMutation(db, m, g);
    RowsCarried(db, Apply(db, m, g).value, v);
    P.BatchCommitsExactly(db, b);
    CommittedBecame(db, b, VolumeSnapshot(db, v), state);
    assert db.checkpoints[v := db.checkpoints[v]] == db.checkpoints;
  }

  /** An incremental read has the outcome that its reply asks for. */
  lemma ReadHasOutcome(w: World, v: VolumeId, outside: Outside)
    requires CatalogSound(w.db) && Placed(w.db) && v !in w.db.sessions && v in w.db.checkpoints
    ensures v in w.db.volumes
    ensures Outcome(w.db, ReadIncremental(w, v, w.db.checkpoints[v], outside).db, v, outside.changes)
  {
    hide CatalogSound, ApplyBatch, Became, VolumeSnapshot, AllCoherent;
    match outside.changes {
      case Changes(events, next) => ChangesApplied(w.db, v, events, next);
      case Unavailable =>
        if w.db.volumes[v].state == VolumeOffline {
          BecameItself(w.db, v);
        } else {
          StateApplied(w.db, v, SetVolumeState(v, VolumeOffline), VolumeOffline);
        }
      case OtherFailure =>
      case _ => StateApplied(w.db, v, RequireReconciliation(v), NeedsReconciliation);
    }
  }

  // ----- In every run

  lemma BatchPlaced(db: Db, b: Batch, mode: OutboxMode)
    requires Placed(db) && CatalogSound(db) && ApplyBatch(db, b, mode).Ok?
    ensures Placed(ApplyBatch(db, b, mode).value)
  {
    hide CatalogSound, ApplyBatch, Mutated, TablesSound, LinksFrom, SameGenerations;
    BatchTables(db, b, mode);
  }

  /** Checkpoints stay and no volume disappears. */
  lemma SamePlaced(a: Db, b: Db)
    requires Placed(a) && b.checkpoints == a.checkpoints && a.volumes.Keys <= b.volumes.Keys
    ensures Placed(b)
  {
  }

  lemma SweptPlaced(db: Db, v: VolumeId, maximum: nat)
    requires Placed(db) && Sound(db) && v in db.sessions && db.sessions[v].phase == SweepingLinks && v in db.volumes
    ensures var r := SweepLinksStep(db, v, maximum, Generation(db, v) + 1); r.Ok? && Placed(r.value.db)
  {
    hide Sound, CatalogSound, TrackedExcept, LastProjected, LinkSweepPage, StaleLinks, SweepLinks, RowsOf, Placed,
      Logged, SameMetadataAll, Bound;
    SoundParts(db);
    var cutoff := db.sessions[v].cutoff;
    M.SweepPageBound(db, v, cutoff, maximum);
    M.SweepLinksKeeps(db, RowsOf(db, LinkSweepPage(db, v, cutoff, maximum)), Generation(db, v) + 1);
    SamePlaced(db, SweepLinksStep(db, v, maximum, Generation(db, v) + 1).value.db);
  }

  lemma ObjectsPlaced(db: Db, v: VolumeId, maximum: nat)
    requires Placed(db) && v in db.sessions && v in db.volumes
    requires db.sessions[v].staged.Some? && db.sessions[v].staged.value.volume == v
    ensures Placed(AfterObjects(db, v, maximum))
  {
    hide ObjectSweepPage, TombstoneAll, KeysOf;
  }

  lemma FinalizePlaced(db: Db, v: VolumeId, maximum: nat)
    requires Placed(db) && Sound(db) && FinalizeScan(db, v, maximum).Ok?
    ensures Placed(FinalizeScan(db, v, maximum).value.db)
  {
    hide Sound, SweepLinksStep, SweepObjectsStep, StaleLinks, AfterObjects, SameCatalogLog, Placed;
    if maximum > 0 {
      SoundSession(db, v);
      if db.sessions[v].phase == SweepingLinks {
        SweptPlaced(db, v, maximum);
      } else {
        SweepObjectsShape(db, v, maximum);
        ObjectsPlaced(db, v, maximum);
      }
    }
  }

  lemma PagePlaced(db: Db, v: VolumeId, events: seq<FilesystemEvent>)
    requires Placed(db) && CatalogSound(db) && ApplyScanPage(db, v, events).Ok?
    ensures Placed(ApplyScanPage(db, v, events).value)
  {
    hide CatalogSound, ApplyBatch, Placed;
    if events != [] {
      BatchPlaced(db, Batch(v, ScanCheckpoint(v, db.sessions[v].cutoff), FromEvents(events)), Durable);
    }
  }

  lemma OutcomePlaced(db: Db, next: Db, v: VolumeId, reply: ChangesReply)
    requires v in db.volumes && Placed(db) && Outcome(db, next, v, reply)
    ensures Placed(next)
  {
    hide VolumeSnapshot, Foreign, AllCoherent, EventsShown;
  }

  lemma VisitPlaced(w: World, v: VolumeId, maximum: nat, outside: Outside)
    requires WorldSound(w) && Placed(w.db)
    ensures Placed(VisitVolume(w, v, maximum, outside).db)
  {
    hide Sound, ApplyBatch, FinalizeScan, Outcome;
    SoundParts(w.db);
    if v in w.db.sessions {
      if w.db.sessions[v].phase != Scanning && FinalizeScan(w.db, v, maximum).Ok? {
        FinalizePlaced(w.db, v, maximum);
      }
    } else if v in w.db.checkpoints && w.db.volumes[v].state != NeedsReconciliation {
      ReadHasOutcome(w, v, outside);
      OutcomePlaced(w.db, ReadIncremental(w, v, w.db.checkpoints[v], outside).db, v, outside.changes);
    }
  }

  lemma ReadActivePlaced(w: World, outside: Outside)
    requires WorldSound(w) && Placed(w.db) && w.active.Some?
    ensures Placed(ReadActiveScan(w, outside).db)
  {
    hide Sound, ApplyScanPage, Placed;
    SoundParts(w.db);
    if outside.page.Some? {
      var applied := ApplyScanPage(w.db, w.active.value.volume, outside.page.value.events);
      if applied.Ok? {
        PagePlaced(w.db, w.active.value.volume, outside.page.value.events);
        SamePlaced(applied.value, ReadActiveScan(w, outside).db);
      }
    }
  }

  lemma MaintainPlaced(db: Db, step: Step)
    requires CatalogSound(db) && Placed(db) && IsMaintenance(step)
    ensures Placed(Next(db, step))
  {
    hide CatalogSound, SameScanState, RefreshVolume, RefreshPaths, PruneConsumed, PruneBounded, Acknowledge, Placed;
    MaintenanceFrame(db, step);
    VolumesStay(db, step);
    SameCheckpoints(db, Next(db, step));
    SamePlaced(db, Next(db, step));
  }

  lemma SameCheckpoints(a: Db, b: Db)
    requires SameScanState(a, b)
    ensures a.checkpoints == b.checkpoints
  {
  }

  lemma RefreshVolumesStay(db: Db, maximum: nat)
    requires CatalogSound(db)
    ensures OrKeep(db, RefreshVolume(db, maximum)).volumes == db.volumes
    ensures OrKeep(db, RefreshPaths(db, maximum)).volumes == db.volumes
  {
    hide CatalogSound, Logged, TrackedExcept, LastProjected, RefreshVolume, RefreshPaths;
    if RefreshVolume(db, maximum).Ok? {
      M.RefreshVolumeKeeps(db, maximum);
    }
    if RefreshPaths(db, maximum).Ok? {
      M.RefreshPathsKeeps(db, maximum);
    }
  }

  lemma OutboxVolumesStay(db: Db, step: Step)
    requires IsMaintenance(step) && !step.RefreshVolumeStep? && !step.RefreshPathsStep?
    ensures Next(db, step).volumes == db.volumes
  {
    hide Acks, RowsAfter, RowsThrough, Without, SafeThrough, LatestSequence;
  }

  lemma VolumesStay(db: Db, step: Step)
    requires CatalogSound(db) && IsMaintenance(step)
    ensures Next(db, step).volumes == db.volumes
  {
    hide CatalogSound, RefreshVolume, RefreshPaths, Acknowledge, PruneConsumed, PruneBounded;
    match step {
      case RefreshVolumeStep(maximum) => RefreshVolumesStay(db, maximum);
      case RefreshPathsStep(maximum) => RefreshVolumesStay(db, maximum);
      case _ => OutboxVolumesStay(db, step);
    }
  }

  lemma NextWorldPlaced(w: World, step: WorldStep)
    requires WorldSound(w) && Permitted(w, step) && Placed(w.db)
    ensures Placed(NextWorld(w, step).db)
  {
    hide Sound, Placed, VisitVolume, ReadActiveScan;
    match step {
      case Observe(maximum, outside) =>
        if w.active.Some? {
          ReadActivePlaced(w, outside);
        } else if Refresh(w, outside).volumes != [] {
          CursorSound(w, Turned(w, outside));
          VisitPlaced(Turned(w, outside), Visited(w, outside), Clamp(maximum), outside);
        }
      case Restart(_) =>
      case Maintain(g) =>
        SoundParts(w.db);
        MaintainPlaced(w.db, g);
    }
  }

  lemma {:induction false} RunPlaced(states: seq<World>, steps: seq<WorldStep>, n: nat)
    requires IsRun(states, steps) && n < |states|
    ensures Placed(states[n].db)
  {
    if n > 0 {
      RunPlaced(states, steps, n - 1);
      RunSound(states, steps, n - 1);
      NextWorldPlaced(states[n - 1], steps[n - 1]);
    }
  }

  /** The step reads incremental changes of this volume. */
  ghost predicate ReadsChanges(w: World, outside: Outside, v: VolumeId) {
    && w.active.None? && Refresh(w, outside).volumes != [] && Visited(w, outside) == v
    && v !in w.db.sessions && v in w.db.checkpoints
    && (v in w.db.volumes ==> w.db.volumes[v].state != NeedsReconciliation)
  }

  /** In every run, a step that reads changes has the outcome its reply asks for. */
  lemma IncrementalOutcome(states: seq<World>, steps: seq<WorldStep>, n: nat, v: VolumeId)
    requires IsRun(states, steps) && n < |steps| && steps[n].Observe?
    requires ReadsChanges(states[n], steps[n].outside, v)
    ensures v in states[n].db.volumes
    ensures Outcome(states[n].db, states[n + 1].db, v, steps[n].outside.changes)
  {
    hide Sound, Placed, Outcome, ReadIncremental;
    RunSound(states, steps, n);
    RunPlaced(states, steps, n);
    SoundParts(states[n].db);
    assert states[n + 1] == NextWorld(states[n], steps[n]);
    ReadHasOutcome(Turned(states[n], steps[n].outside), v, steps[n].outside);
  }
}
