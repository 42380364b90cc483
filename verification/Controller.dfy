/** The restartable observation controller: which checkpoints it reads from and whose links survive. */
module Controller {
  import opened Core
  import opened Schema
  import opened GraphSpec
  import opened GraphTables
  import opened Catalog
  import opened Maintenance
  import opened GraphRuns
  import opened Observation

  datatype ScanPage = ScanPage(events: seq<FilesystemEvent>, checkpoint: Option<ProviderCheckpoint>, complete: bool)

  datatype ChangesReply =
    | Changes(events: seq<FilesystemEvent>, checkpoint: ProviderCheckpoint)
    | HistoryGap
    | InvalidCheckpoint
    | Unavailable
    | OtherFailure

  /** What the outside does during one step: provider answers, and whether the process dies mid-step. */
  datatype Outside = Outside(
    discovered: Option<seq<VolumeId>>,
    started: bool,
    page: Option<ScanPage>,
    changes: ChangesReply,
    dies: bool)

  /** One broker scan handle: the pages it delivered, every link they carried, and its final checkpoint. */
  datatype ScanRun = ScanRun(
    volume: VolumeId, pages: seq<seq<FilesystemEvent>>, links: set<LinkSnapshot>, final: Option<ProviderCheckpoint>)

  /** A page as delivered, whatever becomes of it. */
  function Delivered(run: ScanRun, events: seq<FilesystemEvent>): ScanRun {
    run.(pages := run.pages + [events], links := run.links + LinksIn(events))
  }

  datatype ActiveScan = ActiveScan(volume: VolumeId, run: nat)

  /**
   * Durable graph, in-memory controller state, and history: all scan handles ever started, which of
   * them feeds each volume's session, every checkpoint the provider returned, every checkpoint read.
   */
  datatype World = World(
    db: Db, volumes: seq<VolumeId>, cursor: nat, active: Option<ActiveScan>,
    runs: seq<ScanRun>, feeding: map<VolumeId, nat>,
    returned: set<ProviderCheckpoint>, consulted: seq<ProviderCheckpoint>)

  function LinksIn(events: seq<FilesystemEvent>): set<LinkSnapshot> {
    set i | 0 <= i < |events| && events[i].LinkObserved? :: events[i].link
  }

  /** One page of the active scan; the handle is dropped unless everything went well. */
  ghost function ReadActiveScan(w: World, outside: Outside): World
    requires w.active.Some? && w.active.value.run < |w.runs|
  {
    var active := w.active.value;
    var dropped := w.(active := None);
    if outside.page.None? then dropped else
      var page := outside.page.value;
      var run := w.runs[active.run];
      var heard := dropped.(
        runs := w.runs[active.run := Delivered(run, page.events)],
        returned := w.returned + if page.checkpoint.Some? then {page.checkpoint.value} else {});
      match ApplyScanPage(w.db, active.volume, page.events)
      case Err(_) => heard
      case Ok(applied) =>
        if !page.complete then heard.(db := applied, active := w.active)
        else if outside.dies || page.checkpoint.None? then heard.(db := applied)
        else
          match StageCheckpoint(applied, active.volume, page.checkpoint.value)
          case Err(_) => heard.(db := applied)
          case Ok(staged) =>
            heard.(db := staged,
                   runs := heard.runs[active.run := heard.runs[active.run].(final := page.checkpoint)])
  }

  ghost function HandleSession(w: World, v: VolumeId, maximum: nat, outside: Outside): World
    requires v in w.db.sessions
  {
    if w.db.sessions[v].phase == Scanning then
      if !outside.started then w
      else w.(
        db := BeginScan(w.db, v, w.db.sessions[v].mode),
        active := if outside.dies then None else Some(ActiveScan(v, |w.runs|)),
        runs := w.runs + [ScanRun(v, [], {}, None)],
        feeding := w.feeding[v := |w.runs|])
    else
      match FinalizeScan(w.db, v, maximum)
      case Err(_) => w
      case Ok(step) => w.(db := step.db)
  }

  ghost function ReadIncremental(w: World, v: VolumeId, checkpoint: ProviderCheckpoint, outside: Outside): World {
    var asked := w.(consulted := w.consulted + [checkpoint]);
    match outside.changes
    case Changes(events, next) =>
      var back := if v in w.db.volumes && w.db.volumes[v].state == VolumeOffline
                  then [SetVolumeState(v, VolumeOnline)] else [];
      asked.(returned := w.returned + {next},
             db := OrKeep(w.db, ApplyBatch(w.db, Batch(v, next, back + FromEvents(events)), Durable)))
    case Unavailable =>
      if v in w.db.volumes && w.db.volumes[v].state == VolumeOffline then asked
      else
        var down := Batch(v, checkpoint, [SetVolumeState(v, VolumeOffline)]);
        asked.(db := OrKeep(w.db, ApplyBatch(w.db, down, Durable)))
    case OtherFailure => asked
    case _ =>
      asked.(db := OrKeep(w.db, ApplyBatch(w.db, Batch(v, checkpoint, [RequireReconciliation(v)]), Durable)))
  }

  ghost function VisitVolume(w: World, v: VolumeId, maximum: nat, outside: Outside): World {
    if v in w.db.sessions then HandleSession(w, v, maximum, outside)
    else if v !in w.db.checkpoints then w.(db := BeginScan(w.db, v, Initial))
    else if v in w.db.volumes && w.db.volumes[v].state == NeedsReconciliation
    then w.(db := BeginScan(w.db, v, Reconcile))
    else ReadIncremental(w, v, w.db.checkpoints[v], outside)
  }

  const MAX_PAGE_EVENTS: nat := 256

  function Clamp(n: nat): nat {
    if n < 1 then 1 else if n > MAX_PAGE_EVENTS then MAX_PAGE_EVENTS else n
  }

  function Least(a: nat, b: nat): nat {
    if a < b then a else b
  }

  ghost function Refresh(w: World, outside: Outside): World {
    if outside.discovered.None? then w else
      var found := outside.discovered.value;
      w.(volumes := found, cursor := Least(w.cursor, if |found| > 0 then |found| - 1 else 0))
  }

  /** One scheduler-bounded step. */
  ghost function StepWorld(w: World, maximum: nat, outside: Outside): World
    requires w.active.Some? ==> w.active.value.run < |w.runs|
  {
    if w.active.Some? then ReadActiveScan(w, outside) else
      var current := Refresh(w, outside);
      if current.volumes == [] then current else
        var at := if current.cursor >= |current.volumes| then 0 else current.cursor;
        var moved := current.(cursor := (at + 1) % |current.volumes|);
        VisitVolume(moved, current.volumes[at], Clamp(maximum), outside)
  }

  // ----- Provenance of links

  function Snap(l: LinkId, row: LinkRow): LinkSnapshot {
    LinkSnapshot(l, row.key, row.parent, row.name)
  }

  /** Every link of the volume observed since the cutoff was carried by these pages. */
  ghost predicate FreshFrom(db: Db, v: VolumeId, cutoff: nat, links: set<LinkSnapshot>) {
    forall l :: FreshLink(db, v, cutoff, l) ==> Snap(l, db.links[l]) in links
  }

  /** A row is old, or was written from one of these observations. */
  ghost predicate WrittenFrom(a: Db, b: Db, links: set<LinkSnapshot>) {
    forall l :: l in b.links ==> (l in a.links && b.links[l] == a.links[l]) || Snap(l, b.links[l]) in links
  }

  lemma EventWrites(db: Db, e: FilesystemEvent, g: nat, v: VolumeId)
    requires TablesSound(db) && InVolume(FromEvent(e), v) && Apply(db, FromEvent(e), g).Ok?
    ensures WrittenFrom(db, Apply(db, FromEvent(e), g).value, LinksIn([e]))
  {
    if e.LinkObserved? {
      ObserveLinkKeeps(db, e.link, false, g);
      assert [e][0].link in LinksIn([e]);
    } else if e.LinkRemoved? {
      RemoveLinkRowKeeps(db, e.id, e.key, g, true);
    }
  }

  lemma {:induction false} EventsWrite(db: Db, events: seq<FilesystemEvent>, g: nat, v: VolumeId)
    requires TablesSound(db) && (forall i :: 0 <= i < |events| ==> InVolume(FromEvent(events[i]), v))
    requires ApplyAll(Tx(db, {}), FromEvents(events), g).Ok?
    ensures WrittenFrom(db, ApplyAll(Tx(db, {}), FromEvents(events), g).value.db, LinksIn(events))
  {
    if events != [] {
      var front, last := events[..|events| - 1], events[|events| - 1];
      var ms := FromEvents(events);
      assert ms[..|ms| - 1] == FromEvents(front);
      EventsWrite(db, front, g, v);
      ApplyAllKeeps(Tx(db, {}), FromEvents(front), g, v);
      var prior := ApplyAll(Tx(db, {}), FromEvents(front), g).value.db;
      EventWrites(prior, last, g, v);
      assert LinksIn(front) <= LinksIn(events) by {
        forall x | x in LinksIn(front) ensures x in LinksIn(events) {
          var i :| 0 <= i < |front| && front[i].LinkObserved? && front[i].link == x;
          assert events[i] == front[i];
        }
      }
      assert LinksIn([last]) <= LinksIn(events) by {
        forall x | x in LinksIn([last]) ensures x in LinksIn(events) {
          assert events[|events| - 1].link == x;
        }
      }
    }
  }

  /** A committed page adds only links it carried, and leaves other sessions and checkpoints. */
  lemma PageProvenance(db: Db, v: VolumeId, events: seq<FilesystemEvent>, cutoff: nat, links: set<LinkSnapshot>)
    requires Sound(db) && ScansSince(db, v, cutoff) && FreshFrom(db, v, cutoff, links)
    requires ApplyScanPage(db, v, events).Ok?
    ensures var next := ApplyScanPage(db, v, events).value;
      && Sound(next) && next.sessions == db.sessions && FreshFrom(next, v, cutoff, links + LinksIn(events))
      && (forall w :: w != v ==> (w in next.checkpoints <==> w in db.checkpoints))
      && (forall w :: w != v && w in db.checkpoints ==> next.checkpoints[w] == db.checkpoints[w])
      && OthersKept(db, next, v)
  {
    if events != [] {
      var b := Batch(v, ScanCheckpoint(v, cutoff), FromEvents(events));
      var g := Generation(db, v) + 1;
      forall i | 0 <= i < |events| ensures InVolume(FromEvent(events[i]), v) {
        assert b.mutations[i] == FromEvent(events[i]);
      }
      EventsWrite(db, events, g, v);
      BatchKeepsSound(db, b, Durable);
      BatchTables(db, b, Durable);
      var next := ApplyBatch(db, b, Durable).value;
      forall l | FreshLink(next, v, cutoff, l) ensures Snap(l, next.links[l]) in links + LinksIn(events) {
        assert l in db.links && next.links[l] == db.links[l] ==> FreshLink(db, v, cutoff, l);
      }
    }
  }

  /** Links of other volumes are old ones. */
  ghost predicate OthersKept(a: Db, b: Db, v: VolumeId) {
    forall l :: l in b.links && b.links[l].key.volume != v ==> l in a.links && a.links[l] == b.links[l]
  }

  lemma OthersKeepFresh(a: Db, b: Db, v: VolumeId, w: VolumeId, cutoff: nat, links: set<LinkSnapshot>)
    requires OthersKept(a, b, v) && w != v && FreshFrom(a, w, cutoff, links)
    ensures FreshFrom(b, w, cutoff, links)
  {
    forall l | FreshLink(b, w, cutoff, l) ensures Snap(l, b.links[l]) in links {
      assert FreshLink(a, w, cutoff, l);
    }
  }

  // ----- Finalization

  ghost predicate FewerLinks(a: Db, b: Db) {
    forall l :: l in b.links ==> l in a.links && a.links[l] == b.links[l]
  }

  lemma FewerLinksFresh(a: Db, b: Db, v: VolumeId, cutoff: nat, links: set<LinkSnapshot>)
    requires FewerLinks(a, b) && FreshFrom(a, v, cutoff, links)
    ensures FreshFrom(b, v, cutoff, links)
  {
    forall l | FreshLink(b, v, cutoff, l) ensures Snap(l, b.links[l]) in links {
      assert FreshLink(a, v, cutoff, l);
    }
  }

  lemma SweepLinksFrame(db: Db, v: VolumeId, maximum: nat)
    requires Sound(db) && v in db.sessions && db.sessions[v].phase == SweepingLinks
    ensures v in db.volumes
    ensures var r := SweepLinksStep(db, v, maximum, Generation(db, v) + 1);
      && r.Ok? && !r.value.completed && Sound(r.value.db) && FewerLinks(db, r.value.db)
      && r.value.db.checkpoints == db.checkpoints
      && exists p :: p != Scanning && r.value.db.sessions == db.sessions[v := db.sessions[v].(phase := p)]
  {
    SweepLinksStepKeeps(db, v, maximum);
    var g, cutoff := Generation(db, v) + 1, db.sessions[v].cutoff;
    SweepPageBound(db, v, cutoff, maximum);
    var page := LinkSweepPage(db, v, cutoff, maximum);
    SweepLinksKeeps(db, RowsOf(db, page), g);
    var next := SweepLinksStep(db, v, maximum, g).value.db;
    var p := if |page| < maximum then SweepingObjects else SweepingLinks;
    assert next.sessions == db.sessions[v := db.sessions[v].(phase := p)];
  }

  // ----- Invariant of every run

  /** A session is fed by one handle: its fresh links and its staged checkpoint are that handle's. */
  ghost predicate Fed(w: World, v: VolumeId)
    requires v in w.db.sessions
  {
    && v in w.feeding && w.feeding[v] < |w.runs|
    && var run := w.runs[w.feeding[v]];
       && run.volume == v && run.final == w.db.sessions[v].staged
       && FreshFrom(w.db, v, w.db.sessions[v].cutoff, run.links)
  }

  ghost predicate ActiveSound(w: World) {
    w.active.Some? ==>
      var v := w.active.value.volume;
      && w.active.value.run < |w.runs| && v in w.db.sessions && w.db.sessions[v].phase == Scanning
      && v in w.feeding && w.feeding[v] == w.active.value.run && Fed(w, v)
  }

  ghost predicate SweepsFed(w: World) {
    forall v :: v in w.db.sessions && w.db.sessions[v].phase != Scanning ==> Fed(w, v)
  }

  /** Outside a session the stored checkpoint came from the provider, as did everything consulted. */
  ghost predicate CheckpointsReturned(w: World) {
    && (forall v :: v in w.db.checkpoints && v !in w.db.sessions ==> w.db.checkpoints[v] in w.returned)
    && (forall r :: 0 <= r < |w.runs| && w.runs[r].final.Some? ==> w.runs[r].final.value in w.returned)
    && (forall i :: 0 <= i < |w.consulted| ==> w.consulted[i] in w.returned)
  }

  ghost predicate WorldSound(w: World) {
    Sound(w.db) && ActiveSound(w) && SweepsFed(w) && CheckpointsReturned(w)
  }

  /** Only volume `v` of the graph was written, and its session stayed as it was. */
  ghost predicate WroteVolume(a: Db, b: Db, v: VolumeId) {
    && Sound(b) && OthersKept(a, b, v)
    && (forall w :: w != v ==> (w in b.sessions <==> w in a.sessions))
    && (forall w :: w != v && w in a.sessions ==> b.sessions[w] == a.sessions[w])
    && (forall w :: w != v ==> (w in b.checkpoints <==> w in a.checkpoints))
    && (forall w :: w != v && w in a.checkpoints ==> b.checkpoints[w] == a.checkpoints[w])
  }

  /** Handles of other volumes keep feeding their sessions. */
  lemma OthersFed(a: World, b: World, v: VolumeId, w: VolumeId)
    requires WroteVolume(a.db, b.db, v) && w != v && w in b.db.sessions && Fed(a, w)
    requires w in b.feeding && b.feeding[w] == a.feeding[w] && |a.runs| <= |b.runs|
    requires b.runs[a.feeding[w]] == a.runs[a.feeding[w]]
    ensures Fed(b, w)
  {
    OthersKeepFresh(a.db, b.db, v, w, a.db.sessions[w].cutoff, a.runs[a.feeding[w]].links);
  }

  lemma PageCommitted(w: World, events: seq<FilesystemEvent>)
    requires WorldSound(w) && w.active.Some?
    ensures var v := w.active.value.volume;
      var r := ApplyScanPage(w.db, v, events);
      r.Ok? ==>
        && WroteVolume(w.db, r.value, v) && r.value.sessions == w.db.sessions
        && FreshFrom(r.value, v, w.db.sessions[v].cutoff, w.runs[w.active.value.run].links + LinksIn(events))
  {
    var v := w.active.value.volume;
    if ApplyScanPage(w.db, v, events).Ok? {
      PageProvenance(w.db, v, events, w.db.sessions[v].cutoff, w.runs[w.active.value.run].links);
    }
  }

  /** What reading a page leaves: the active handle heard more; its session may be staged. */
  ghost predicate Heard(w: World, next: World) {
    && w.active.Some? && w.active.value.run < |w.runs| == |next.runs|
    && var v, r := w.active.value.volume, w.active.value.run;
       && WroteVolume(w.db, next.db, v) && v in next.db.sessions && v in w.feeding && next.feeding == w.feeding
       && next.runs == w.runs[r := next.runs[r]] && next.runs[r].volume == w.runs[r].volume
       && next.consulted == w.consulted && w.returned <= next.returned
       && (next.active.None? || next.active == w.active)
       && (next.active.Some? ==> next.db.sessions[v].phase == Scanning && Fed(next, v))
       && (next.db.sessions[v].phase != Scanning ==> Fed(next, v))
       && (next.runs[r].final.Some? ==> next.runs[r].final.value in next.returned)
  }

  lemma StagedWrote(db: Db, applied: Db, v: VolumeId, checkpoint: ProviderCheckpoint)
    requires WroteVolume(db, applied, v) && StageCheckpoint(applied, v, checkpoint).Ok?
    ensures WroteVolume(db, StageCheckpoint(applied, v, checkpoint).value, v)
  {
    hide Sound;
    StageKeeps(applied, v, checkpoint);
  }

  lemma NothingWrote(db: Db, v: VolumeId)
    requires Sound(db)
    ensures WroteVolume(db, db, v)
  {
    hide Sound;
  }

  lemma ReadActiveHeard(w: World, outside: Outside)
    requires WorldSound(w) && w.active.Some?
    ensures Heard(w, ReadActiveScan(w, outside))
  {
    hide Sound, ApplyScanPage, LinksIn, SweepsFed, WroteVolume, FreshFrom;
    var next := ReadActiveScan(w, outside);
    var v, r := w.active.value.volume, w.active.value.run;
    NothingWrote(w.db, v);
    if outside.page.Some? {
      var page := outside.page.value;
      PageCommitted(w, page.events);
      var run := Delivered(w.runs[r], page.events);
      var applied := ApplyScanPage(w.db, v, page.events);
      if applied.Ok? && page.complete && !outside.dies && page.checkpoint.Some? {
        var staged := StageCheckpoint(applied.value, v, page.checkpoint.value);
        if staged.Ok? {
          StagedWrote(w.db, applied.value, v, page.checkpoint.value);
          assert FreshFrom(staged.value, v, w.db.sessions[v].cutoff, run.links) by {
            FewerLinksFresh(applied.value, staged.value, v, w.db.sessions[v].cutoff, run.links);
          }
        }
      }
    }
  }

  lemma HeardSound(w: World, next: World)
    requires WorldSound(w) && Heard(w, next)
    ensures WorldSound(next)
  {
    var v, r := w.active.value.volume, w.active.value.run;
    forall u | u in next.db.sessions && next.db.sessions[u].phase != Scanning ensures Fed(next, u) {
      if u != v {
        assert Fed(w, u);
        assert w.feeding[u] != r;
        OthersFed(w, next, v, u);
      }
    }
  }

  // ----- Steps without an active scan

  lemma BeginWrites(db: Db, v: VolumeId, mode: ScanMode)
    requires Sound(db)
    ensures WroteVolume(db, BeginScan(db, v, mode), v)
    ensures FreshFrom(BeginScan(db, v, mode), v, Generation(db, v) + 1, {})
  {
    BeginScanKeeps(db, v, mode);
    BeginMirrorsNothing(db, v, mode);
    var next, cutoff := BeginScan(db, v, mode), Generation(db, v) + 1;
    forall l ensures !FreshLink(next, v, cutoff, l) {
      assert l !in NOTHING_SEEN.links;
    }
  }

  /** The common part: volume `v` was written, its session is not sweeping, nothing else moved. */
  lemma QuietVisitSound(w: World, next: World, v: VolumeId)
    requires WorldSound(w) && w.active.None? && next.active.None? && WroteVolume(w.db, next.db, v)
    requires next.runs == w.runs && next.feeding == w.feeding && w.returned <= next.returned
    requires v in next.db.sessions ==> next.db.sessions[v].phase == Scanning
    requires v in next.db.checkpoints && v !in next.db.sessions ==> next.db.checkpoints[v] in next.returned
    requires forall i :: 0 <= i < |next.consulted| ==> next.consulted[i] in next.returned
    ensures WorldSound(next)
  {
    forall u | u in next.db.sessions && next.db.sessions[u].phase != Scanning ensures Fed(next, u) {
      assert Fed(w, u);
      OthersFed(w, next, v, u);
    }
  }

  lemma StartSound(w: World, v: VolumeId, maximum: nat, outside: Outside)
    requires WorldSound(w) && w.active.None? && v in w.db.sessions && w.db.sessions[v].phase ==
      Scanning && outside.started
    ensures WorldSound(HandleSession(w, v, maximum, outside))
  {
    var next := HandleSession(w, v, maximum, outside);
    BeginWrites(w.db, v, w.db.sessions[v].mode);
    assert Fed(next, v);
    forall u | u in next.db.sessions && next.db.sessions[u].phase != Scanning ensures Fed(next, u) {
      if u != v {
        assert Fed(w, u);
        OthersFed(w, next, v, u);
      }
    }
  }

  lemma SweepSound(w: World, v: VolumeId, maximum: nat)
    requires WorldSound(w) && w.active.None? && v in w.db.sessions && w.db.sessions[v].phase == SweepingLinks
    ensures v in w.db.volumes
    ensures var r := SweepLinksStep(w.db, v, maximum, Generation(w.db, v) + 1);
      r.Ok? && WorldSound(w.(db := r.value.db))
  {
    SweepLinksFrame(w.db, v, maximum);
    var next := w.(db := SweepLinksStep(w.db, v, maximum, Generation(w.db, v) + 1).value.db);
    forall u | u in next.db.sessions && next.db.sessions[u].phase != Scanning ensures Fed(next, u) {
      assert Fed(w, u);
      FewerLinksFresh(w.db, next.db, u, w.db.sessions[u].cutoff, w.runs[w.feeding[u]].links);
    }
  }

  /** Every link of the volume was carried by the pages of this one handle. */
  ghost predicate AllFrom(db: Db, v: VolumeId, run: ScanRun) {
    && run.volume == v
    && forall l :: l in db.links && db.links[l].key.volume == v ==> Snap(l, db.links[l]) in run.links
  }

  /** A completed session: one handle's links and that handle's final checkpoint. */
  ghost predicate SingleSource(w: World, v: VolumeId) {
    exists r :: 0 <= r < |w.runs| && AllFrom(w.db, v, w.runs[r]) && v in w.db.checkpoints
                && w.runs[r].final == Some(w.db.checkpoints[v])
  }

  lemma CompletedSource(w: World, v: VolumeId, maximum: nat)
    requires Sound(w.db) && v in w.db.sessions && w.db.sessions[v].phase == SweepingObjects && Fed(w, v)
    requires v in w.db.volumes && w.db.sessions[v].staged.Some?
    ensures var r := SweepObjectsStep(w.db, v, maximum, Generation(w.db, v) + 1);
      r.Ok? && (r.value.completed ==> SingleSource(w.(db := r.value.db), v))
  {
    SoundSession(w.db, v);
    SweepObjectsShape(w.db, v, maximum);
    var r := SweepObjectsStep(w.db, v, maximum, Generation(w.db, v) + 1).value;
    if r.completed {
      var cutoff := w.db.sessions[v].cutoff;
      forall l | l in r.db.links && r.db.links[l].key.volume == v
        ensures Snap(l, r.db.links[l]) in w.runs[w.feeding[v]].links
      {
        assert l !in StaleLinks(w.db, v, cutoff);
        assert FreshLink(w.db, v, cutoff, l);
      }
      assert AllFrom(r.db, v, w.runs[w.feeding[v]]);
    }
  }

  /** What an object sweep does to sessions and checkpoints. */
  lemma ObjectsFrame(db: Db, v: VolumeId, maximum: nat)
    requires v in db.sessions && v in db.volumes && db.sessions[v].staged.Some?
    ensures var next := AfterObjects(db, v, maximum);
      && FewerLinks(db, next)
      && ((next.sessions == db.sessions && next.checkpoints == db.checkpoints)
          || (next.sessions == db.sessions - {v} && next.checkpoints ==
              db.checkpoints[v := db.sessions[v].staged.value]))
  {
    hide ObjectSweepPage, TombstoneAll, KeysOf;
  }

  lemma ObjectsSweepSound(w: World, v: VolumeId, maximum: nat)
    requires WorldSound(w) && w.active.None? && v in w.db.sessions && w.db.sessions[v].phase == SweepingObjects
    requires v in w.db.volumes && w.db.sessions[v].staged.Some?
    ensures WorldSound(w.(db := AfterObjects(w.db, v, maximum)))
  {
    SweepObjectsStepKeeps(w.db, v, maximum);
    ObjectsFrame(w.db, v, maximum);
    var next := w.(db := AfterObjects(w.db, v, maximum));
    assert Fed(w, v);
    forall u | u in next.db.sessions && next.db.sessions[u].phase != Scanning ensures Fed(next, u) {
      assert Fed(w, u);
      FewerLinksFresh(w.db, next.db, u, w.db.sessions[u].cutoff, w.runs[w.feeding[u]].links);
    }
  }

  lemma SweepFacts(w: World, v: VolumeId)
    requires WorldSound(w) && v in w.db.sessions && w.db.sessions[v].phase != Scanning
    ensures Sound(w.db) && SessionSound(w.db, v) && Fed(w, v)
  {
    SoundSession(w.db, v);
  }

  lemma SweepVisitSound(w: World, v: VolumeId, maximum: nat)
    requires WorldSound(w) && w.active.None? && v in w.db.sessions && w.db.sessions[v].phase != Scanning
    ensures var r := FinalizeScan(w.db, v, maximum);
      && r.Ok? && WorldSound(w.(db := r.value.db))
      && (v !in r.value.db.sessions ==> SingleSource(w.(db := r.value.db), v))
  {
    hide WorldSound, Sound, SingleSource, Fed, StaleLinks, SweepLinksStep, SweepObjectsStep, AfterObjects,
      SameCatalogLog;
    SweepFacts(w, v);
    if maximum > 0 {
      if w.db.sessions[v].phase == SweepingLinks {
        SweepLinksFrame(w.db, v, maximum);
        SweepSound(w, v, maximum);
      } else {
        SweepObjectsShape(w.db, v, maximum);
        ObjectsSweepSound(w, v, maximum);
        CompletedSource(w, v, maximum);
      }
    } else {
      assert w.(db := w.db) == w;
    }
  }

  lemma HandleSessionSound(w: World, v: VolumeId, maximum: nat, outside: Outside)
    requires WorldSound(w) && w.active.None? && v in w.db.sessions
    ensures WorldSound(HandleSession(w, v, maximum, outside))
    ensures v !in HandleSession(w, v, maximum, outside).db.sessions ==>
      SingleSource(HandleSession(w, v, maximum, outside), v)
  {
    hide WorldSound, SingleSource;
    if w.db.sessions[v].phase != Scanning {
      SweepVisitSound(w, v, maximum);
    } else if outside.started {
      StartSound(w, v, maximum, outside);
    }
  }

  lemma BatchWrites(db: Db, b: Batch)
    requires Sound(db) && ApplyBatch(db, b, Durable).Ok?
    ensures var next := ApplyBatch(db, b, Durable).value;
      WroteVolume(db, next, b.volume) && next.sessions == db.sessions && next.checkpoints ==
        db.checkpoints[b.volume := b.checkpoint]
  {
    hide Sound, CatalogSound, ApplyBatch, Mutated, TablesSound;
    SoundParts(db);
    BatchKeepsSound(db, b, Durable);
    BatchTables(db, b, Durable);
  }

  /** The incremental read consults a provider checkpoint and stores a provider checkpoint. */
  lemma IncrementalSound(w: World, v: VolumeId, outside: Outside)
    requires WorldSound(w) && w.active.None? && v !in w.db.sessions && v in w.db.checkpoints
    ensures WorldSound(ReadIncremental(w, v, w.db.checkpoints[v], outside))
  {
    hide Sound, WroteVolume, SweepsFed, ActiveSound, ApplyBatch, FromEvents;
    var checkpoint := w.db.checkpoints[v];
    var next := ReadIncremental(w, v, checkpoint, outside);
    assert checkpoint in w.returned;
    NothingWrote(w.db, v);
    if next.db != w.db {
      match outside.changes {
        case Changes(events, c) =>
          var back := if v in w.db.volumes && w.db.volumes[v].state == VolumeOffline
                      then [SetVolumeState(v, VolumeOnline)] else [];
          BatchWrites(w.db, Batch(v, c, back + FromEvents(events)));
        case Unavailable => BatchWrites(w.db, Batch(v, checkpoint, [SetVolumeState(v, VolumeOffline)]));
        case _ => BatchWrites(w.db, Batch(v, checkpoint, [RequireReconciliation(v)]));
      }
    }
    QuietVisitSound(w, next, v);
  }

  lemma BeginVisitSound(w: World, v: VolumeId, mode: ScanMode)
    requires WorldSound(w) && w.active.None? && v !in w.db.sessions
    ensures WorldSound(w.(db := BeginScan(w.db, v, mode)))
  {
    BeginWrites(w.db, v, mode);
    QuietVisitSound(w, w.(db := BeginScan(w.db, v, mode)), v);
  }

  lemma VisitSound(w: World, v: VolumeId, maximum: nat, outside: Outside)
    requires WorldSound(w) && w.active.None?
    ensures WorldSound(VisitVolume(w, v, maximum, outside))
    ensures v in w.db.sessions && v !in VisitVolume(w, v, maximum, outside).db.sessions ==>
      SingleSource(VisitVolume(w, v, maximum, outside), v)
  {
    hide WorldSound, SingleSource;
    if v in w.db.sessions {
      HandleSessionSound(w, v, maximum, outside);
    } else if v !in w.db.checkpoints {
      BeginVisitSound(w, v, Initial);
    } else if v in w.db.volumes && w.db.volumes[v].state == NeedsReconciliation {
      BeginVisitSound(w, v, Reconcile);
    } else {
      IncrementalSound(w, v, outside);
    }
  }

  // ----- Whole runs, with restarts and interleaved maintenance

  datatype WorldStep =
    | Observe(maximum: nat, outside: Outside)
    | Restart(selected: seq<VolumeId>)
    | Maintain(step: Step)

  /** Projection and outbox maintenance, which other workers run on the same graph. */
  ghost predicate IsMaintenance(step: Step) {
    step.RefreshVolumeStep? || step.RefreshPathsStep? || step.CompletePathJobStep? || step.AcknowledgeStep?
    || step.ResetConsumerStep? || step.PruneStep? || step.PruneBoundedStep?
  }

  ghost predicate Permitted(w: World, step: WorldStep) {
    step.Maintain? ==> IsMaintenance(step.step) && Admissible(w.db, step.step)
  }

  ghost function NextWorld(w: World, step: WorldStep): World
    requires w.active.Some? ==> w.active.value.run < |w.runs|
  {
    match step
    case Observe(maximum, outside) => StepWorld(w, maximum, outside)
    case Restart(selected) => w.(volumes := selected, cursor := 0, active := None)
    case Maintain(g) => w.(db := Next(w.db, g))
  }

  ghost predicate SameScanState(a: Db, b: Db) {
    a.links == b.links && a.objects == b.objects && a.sessions == b.sessions && a.checkpoints == b.checkpoints
  }

  lemma RefreshFrame(db: Db, maximum: nat)
    requires CatalogSound(db)
    ensures RefreshVolume(db, maximum).Ok? ==> SameScanState(db, RefreshVolume(db, maximum).value)
    ensures RefreshPaths(db, maximum).Ok? ==> SameScanState(db, RefreshPaths(db, maximum).value)
  {
    hide CatalogSound, Logged, TrackedExcept, LastProjected, RefreshVolume, RefreshPaths;
    if RefreshVolume(db, maximum).Ok? {
      RefreshVolumeKeeps(db, maximum);
    }
    if RefreshPaths(db, maximum).Ok? {
      RefreshPathsKeeps(db, maximum);
    }
  }

  lemma MaintenanceFrame(db: Db, step: Step)
    requires CatalogSound(db) && IsMaintenance(step)
    ensures SameScanState(db, Next(db, step))
  {
    hide CatalogSound, SameScanState, RefreshVolume, RefreshPaths, PruneConsumed, PruneBounded, Acknowledge,
      CompletePathJob;
    SameScan(db, db);
    match step {
      case RefreshVolumeStep(maximum) => RefreshFrame(db, maximum);
      case RefreshPathsStep(maximum) => RefreshFrame(db, maximum);
      case CompletePathJobStep(job) => PathJobFrame(db, job);
      case AcknowledgeStep(consumer, sequence, generation) => AcknowledgeFrame(db, consumer, sequence, generation);
      case ResetConsumerStep(consumer) => SameScan(db, db.(consumers := db.consumers - {consumer}));
      case PruneStep => PruneFrame(db, 1, false);
      case PruneBoundedStep(maximum, none) => PruneFrame(db, maximum, none);
    }
  }

  lemma SameScan(a: Db, b: Db)
    requires a.links == b.links && a.objects == b.objects && a.sessions == b.sessions && a.checkpoints == b.checkpoints
    ensures SameScanState(a, b)
  {
  }

  lemma PathJobFrame(db: Db, job: nat)
    ensures SameScanState(db, CompletePathJob(db, job))
  {
    var next := CompletePathJob(db, job);
    assert next == db.(pathJobs := next.pathJobs);
  }

  lemma AcknowledgeFrame(db: Db, consumer: string, sequence: nat, generation: nat)
    ensures SameScanState(db, OrKeep(db, Acknowledge(db, consumer, sequence, generation)))
  {
    hide LatestSequence;
  }

  lemma PruneFrame(db: Db, maximum: nat, withoutConsumers: bool)
    ensures SameScanState(db, PruneConsumed(db))
    ensures SameScanState(db, OrKeep(db, PruneBounded(db, maximum, withoutConsumers)))
  {
    hide Acks, RowsAfter, RowsThrough, Without, SafeThrough;
  }

  lemma SameLinksSound(w: World, next: World)
    requires WorldSound(w) && Sound(next.db) && next == w.(db := next.db)
    requires next.db.links == w.db.links && next.db.sessions == w.db.sessions && next.db.checkpoints == w.db.checkpoints
    ensures WorldSound(next)
  {
    forall u | u in next.db.sessions && Fed(w, u) ensures Fed(next, u) {
      FewerLinksFresh(w.db, next.db, u, w.db.sessions[u].cutoff, w.runs[w.feeding[u]].links);
    }
  }

  /** The volume a step without an active scan visits. */
  ghost function Visited(w: World, outside: Outside): VolumeId
    requires Refresh(w, outside).volumes != []
  {
    var current := Refresh(w, outside);
    current.volumes[if current.cursor >= |current.volumes| then 0 else current.cursor]
  }

  /** The controller's state after discovery and its own turn of the cursor. */
  ghost function Turned(w: World, outside: Outside): World
    requires Refresh(w, outside).volumes != []
  {
    var current := Refresh(w, outside);
    var at := if current.cursor >= |current.volumes| then 0 else current.cursor;
    current.(cursor := (at + 1) % |current.volumes|)
  }

  lemma StepWorldSound(w: World, maximum: nat, outside: Outside)
    requires WorldSound(w)
    ensures WorldSound(StepWorld(w, maximum, outside))
    ensures forall v :: v in w.db.sessions && v !in StepWorld(w, maximum, outside).db.sessions ==>
      SingleSource(StepWorld(w, maximum, outside), v)
  {
    if w.active.Some? {
      ReadActiveHeard(w, outside);
      HeardSound(w, StepWorld(w, maximum, outside));
    } else if Refresh(w, outside).volumes == [] {
      assert Refresh(w, outside) == w.(volumes := Refresh(w, outside).volumes, cursor := Refresh(w, outside).cursor);
      CursorSound(w, Refresh(w, outside));
    } else {
      var v, moved := Visited(w, outside), Turned(w, outside);
      CursorSound(w, moved);
      VisitSound(moved, v, Clamp(maximum), outside);
      VisitLeavesOthers(moved, v, Clamp(maximum), outside);
    }
  }

  lemma CursorSound(w: World, next: World)
    requires WorldSound(w) && next == w.(volumes := next.volumes, cursor := next.cursor)
    ensures WorldSound(next)
  {
    forall u | u in w.db.sessions && Fed(w, u) ensures Fed(next, u) {}
  }

  lemma VisitLeavesOthers(w: World, v: VolumeId, maximum: nat, outside: Outside)
    requires WorldSound(w) && w.active.None?
    ensures forall u :: u in w.db.sessions && u != v ==> u in VisitVolume(w, v, maximum, outside).db.sessions
  {
    hide WorldSound, Sound, Fed, StaleLinks, SweepLinksStep, SweepObjectsStep, AfterObjects, SameCatalogLog, FewerLinks;
    if v in w.db.sessions {
      if w.db.sessions[v].phase != Scanning && maximum > 0 {
        SweepFacts(w, v);
        if w.db.sessions[v].phase == SweepingLinks {
          SweepLinksFrame(w.db, v, maximum);
        } else {
          SweepObjectsShape(w.db, v, maximum);
          ObjectsFrame(w.db, v, maximum);
        }
      }
    } else if v in w.db.checkpoints && !(v in w.db.volumes && w.db.volumes[v].state == NeedsReconciliation) {
      IncrementalSessions(w, v, outside);
    }
  }

  lemma IncrementalSessions(w: World, v: VolumeId, outside: Outside)
    requires WorldSound(w) && v in w.db.checkpoints
    ensures ReadIncremental(w, v, w.db.checkpoints[v], outside).db.sessions == w.db.sessions
  {
    var checkpoint := w.db.checkpoints[v];
    if ReadIncremental(w, v, checkpoint, outside).db != w.db {
      match outside.changes {
        case Changes(events, c) =>
          var back := if v in w.db.volumes && w.db.volumes[v].state == VolumeOffline
                      then [SetVolumeState(v, VolumeOnline)] else [];
          BatchWrites(w.db, Batch(v, c, back + FromEvents(events)));
        case Unavailable => BatchWrites(w.db, Batch(v, checkpoint, [SetVolumeState(v, VolumeOffline)]));
        case _ => BatchWrites(w.db, Batch(v, checkpoint, [RequireReconciliation(v)]));
      }
    }
  }

  lemma NextWorldSound(w: World, step: WorldStep)
    requires WorldSound(w) && Permitted(w, step)
    ensures WorldSound(NextWorld(w, step))
    ensures forall v :: v in w.db.sessions && v !in NextWorld(w, step).db.sessions ==>
      SingleSource(NextWorld(w, step), v)
  {
    match step {
      case Observe(maximum, outside) => StepWorldSound(w, maximum, outside);
      case Restart(selected) =>
        CursorSound(w, w.(volumes := selected, cursor := 0));
        DropActiveSound(w.(volumes := selected, cursor := 0));
      case Maintain(g) =>
        StepKeepsSound(w.db, g);
        MaintenanceFrame(w.db, g);
        SameLinksSound(w, w.(db := Next(w.db, g)));
    }
  }

  lemma DropActiveSound(w: World)
    requires WorldSound(w)
    ensures WorldSound(w.(active := None))
  {
    var next := w.(active := None);
    forall u | u in w.db.sessions && Fed(w, u) ensures Fed(next, u) {}
  }

  const FIRST_START := World(EMPTY_DB, [], 0, None, [], map[], {}, [])

  lemma FirstStartSound()
    ensures WorldSound(FIRST_START)
  {
    EmptySound();
  }

  /** A run is a state sequence in which every state follows from the one before. */
  ghost predicate IsRun(states: seq<World>, steps: seq<WorldStep>) {
    && |states| == |steps| + 1 && states[0] == FIRST_START
    && forall i :: 0 <= i < |steps| ==>
         && (states[i].active.Some? ==> states[i].active.value.run < |states[i].runs|)
         && Permitted(states[i], steps[i]) && states[i + 1] == NextWorld(states[i], steps[i])
  }

  lemma {:induction false} RunSound(states: seq<World>, steps: seq<WorldStep>, n: nat)
    requires IsRun(states, steps) && n < |states|
    ensures WorldSound(states[n])
  {
    if n == 0 {
      FirstStartSound();
    } else {
      RunSound(states, steps, n - 1);
      NextWorldSound(states[n - 1], steps[n - 1]);
    }
  }

  /**
   * Controller safety over all runs with restarts: every incremental read used a checkpoint the
   * provider had returned, so never the scan placeholder unless the provider itself issued it; and
   * whenever a session completes, all links of the volume came through one single scan handle,
   * whose own final checkpoint became authoritative.
   */
  lemma ControllerSafety(states: seq<World>, steps: seq<WorldStep>, n: nat, v: VolumeId)
    requires IsRun(states, steps) && n < |states|
    ensures forall i :: 0 <= i < |states[n].consulted| ==> states[n].consulted[i] in states[n].returned
    ensures (forall c :: c in states[n].returned ==> c.provider != SCAN_PROVIDER) ==>
      forall i, u, g :: 0 <= i < |states[n].consulted| ==> states[n].consulted[i] != ScanCheckpoint(u, g)
    ensures n > 0 && v in states[n - 1].db.sessions && v !in states[n].db.sessions ==> SingleSource(states[n], v)
  {
    RunSound(states, steps, n);
    if n > 0 {
      RunSound(states, steps, n - 1);
      NextWorldSound(states[n - 1], steps[n - 1]);
    }
  }
}
