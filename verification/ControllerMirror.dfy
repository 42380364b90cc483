/** What a completed session holds: every page its one scan handle delivered, and nothing else. */
module ControllerMirror {
  import opened Core
  import opened Schema
  import opened GraphSpec
  import opened GraphRuns
  import opened Observation
  import opened Controller
  import opened ObservationRuns

  // ----- The graph steps behind a step of the controller

  ghost function ReadStep(db: Db, v: VolumeId, checkpoint: ProviderCheckpoint, reply: ChangesReply): Option<Step> {
    var offline := v in db.volumes && db.volumes[v].state == VolumeOffline;
    match reply
    case Changes(events, next) =>
      var back := if offline then [SetVolumeState(v, VolumeOnline)] else [];
      Some(ApplyStep(Batch(v, next, back + FromEvents(events)), Durable))
    case Unavailable =>
      if offline then None else Some(ApplyStep(Batch(v, checkpoint, [SetVolumeState(v, VolumeOffline)]), Durable))
    case OtherFailure => None
    case _ => Some(ApplyStep(Batch(v, checkpoint, [RequireReconciliation(v)]), Durable))
  }

  ghost function VisitStep(db: Db, v: VolumeId, maximum: nat, outside: Outside): Option<Step> {
    if v in db.sessions then
      if db.sessions[v].phase != Scanning then Some(FinalizeStep(v, maximum))
      else if outside.started then Some(BeginScanStep(v, db.sessions[v].mode)) else None
    else if v !in db.checkpoints then Some(BeginScanStep(v, Initial))
    else if v in db.volumes && db.volumes[v].state == NeedsReconciliation then Some(BeginScanStep(v, Reconcile))
    else ReadStep(db, v, db.checkpoints[v], outside.changes)
  }

  ghost function GraphStep(w: World, step: WorldStep): Option<Step> {
    match step
    case Restart(_) => None
    case Maintain(g) => Some(g)
    case Observe(maximum, outside) =>
      if w.active.Some? then
        if outside.page.None? then None
        else Some(ScanPageStep(w.active.value.volume, outside.page.value.events))
      else if Refresh(w, outside).volumes == [] then None
      else VisitStep(w.db, Visited(w, outside), Clamp(maximum), outside)
  }

  /** The checkpoint that follows an accepted last page. */
  ghost function StagingStep(w: World, step: WorldStep): Option<Step> {
    if step.Observe? && w.active.Some? && step.outside.page.Some? then
      var v, page := w.active.value.volume, step.outside.page.value;
      if ApplyScanPage(w.db, v, page.events).Ok? && page.complete && !step.outside.dies && page.checkpoint.Some?
      then Some(StageStep(v, page.checkpoint.value)) else None
    else None
  }

  ghost function WatchedIf(watch: Watch, v: VolumeId, step: Option<Step>): Watch {
    if step.Some? then Watched(watch, v, step.value) else watch
  }

  ghost function WatchedWorld(watch: Watch, w: World, step: WorldStep, v: VolumeId): Watch {
    WatchedIf(WatchedIf(watch, v, GraphStep(w, step)), v, StagingStep(w, step))
  }

  lemma WatchedDb(watch: Watch, v: VolumeId, step: Step)
    ensures Watched(watch, v, step).db == Next(watch.db, step)
  {
    hide Next;
  }

  /** A visit does to the graph what its step does. */
  lemma VisitIsStep(w: World, v: VolumeId, maximum: nat, outside: Outside)
    ensures var step := VisitStep(w.db, v, maximum, outside);
      VisitVolume(w, v, maximum, outside).db == if step.Some? then Next(w.db, step.value) else w.db
  {
    hide ApplyBatch, FinalizeScan;
  }

  lemma PageIsStep(w: World, outside: Outside)
    requires w.active.Some? && w.active.value.run < |w.runs| && outside.page.Some?
    ensures var step := Observe(0, outside);
      var applied := Next(w.db, GraphStep(w, step).value);
      ReadActiveScan(w, outside).db ==
        if StagingStep(w, step).Some? then Next(applied, StagingStep(w, step).value) else applied
  {
    hide ApplyScanPage, StageCheckpoint;
  }

  lemma WorldIsWatched(watch: Watch, w: World, step: WorldStep, v: VolumeId)
    requires watch.db == w.db && (w.active.Some? ==> w.active.value.run < |w.runs|)
    ensures WatchedWorld(watch, w, step, v).db == NextWorld(w, step).db
  {
    hide Next, VisitVolume, ReadActiveScan, VisitStep, ApplyScanPage;
    if GraphStep(w, step).Some? {
      WatchedDb(watch, v, GraphStep(w, step).value);
    }
    if StagingStep(w, step).Some? {
      WatchedDb(WatchedIf(watch, v, GraphStep(w, step)), v, StagingStep(w, step).value);
    }
    match step {
      case Observe(maximum, outside) =>
        if w.active.Some? {
          if outside.page.Some? {
            PageIsStep(w, outside);
          } else {
            NoPage(w, outside);
          }
        } else if Refresh(w, outside).volumes != [] {
          VisitIsStep(Turned(w, outside), Visited(w, outside), Clamp(maximum), outside);
        }
      case _ =>
    }
  }

  lemma NoPage(w: World, outside: Outside)
    requires w.active.Some? && w.active.value.run < |w.runs| && outside.page.None?
    ensures ReadActiveScan(w, outside) == w.(active := None)
  {
  }

  // ----- Pages delivered and pages committed

  /** The volume's session takes pages from a handle, or has taken them all. */
  ghost predicate Feeds(w: World, v: VolumeId) {
    || (w.active.Some? && w.active.value.volume == v)
    || (v in w.db.sessions && w.db.sessions[v].phase != Scanning)
  }

  /** Every page its handle delivered was committed to the session, in order. */
  ghost predicate Whole(w: World, pages: seq<seq<FilesystemEvent>>, v: VolumeId) {
    Feeds(w, v) ==> v in w.feeding && w.feeding[v] < |w.runs| && w.runs[w.feeding[v]].pages == pages
  }

  /** Only an active handle hears a page. */
  lemma ReadDelivers(w: World, outside: Outside)
    requires w.active.Some? && w.active.value.run < |w.runs|
    ensures var next, r := ReadActiveScan(w, outside), w.active.value.run;
      && next.feeding == w.feeding && |next.runs| == |w.runs|
      && (forall i :: 0 <= i < |w.runs| && i != r ==> next.runs[i] == w.runs[i])
      && next.runs[r].pages ==
         (if outside.page.Some? then w.runs[r].pages + [outside.page.value.events] else w.runs[r].pages)
      && (next.active.Some? ==>
           next.active == w.active && outside.page.Some?
           && ApplyScanPage(w.db, w.active.value.volume, outside.page.value.events).Ok?)
  {
    hide ApplyScanPage, StageCheckpoint, LinksIn;
  }

  lemma OwnPageWhole(w: World, outside: Outside, pages: seq<seq<FilesystemEvent>>, v: VolumeId, maximum: nat)
    requires WorldSound(w) && w.active.Some? && w.active.value.volume == v && Whole(w, pages, v)
    ensures var next := ReadActiveScan(w, outside);
      var watched := WatchedWorld(Watch(w.db, pages), w, Observe(maximum, outside), v);
      watched.db == next.db ==> Whole(next, watched.pages, v)
  {
    hide Sound, ApplyScanPage, ReadActiveScan, Next, SweepsFed, Fed;
    ReadDelivers(w, outside);
    if outside.page.Some? && ApplyScanPage(w.db, v, outside.page.value.events).Err? {
      RefusedPage(w.db, v, outside.page.value.events);
    }
    if outside.page.None? {
      NoPage(w, outside);
    }
  }

  lemma RefusedPage(db: Db, v: VolumeId, events: seq<FilesystemEvent>)
    requires ApplyScanPage(db, v, events).Err?
    ensures Next(db, ScanPageStep(v, events)) == db
  {
  }

  /** The watched session is untouched by a page of another volume. */
  lemma OtherPageWhole(w: World, outside: Outside, next: World, pages: seq<seq<FilesystemEvent>>, v: VolumeId)
    requires WorldSound(w) && w.active.Some? && w.active.value.volume != v && Whole(w, pages, v)
    requires next == ReadActiveScan(w, outside) && SameSession(w.db, next.db, v)
    ensures Whole(next, pages, v)
  {
    hide Sound, ReadActiveScan, FreshFrom;
    ReadDelivers(w, outside);
    if Feeds(next, v) {
      assert Fed(w, v);
    }
  }

  /** What a visit does to handles: a scan that starts has a new one. */
  lemma VisitHandles(w: World, u: VolumeId, maximum: nat, outside: Outside)
    requires w.active.None?
    ensures var next := VisitVolume(w, u, maximum, outside);
      if u in w.db.sessions && w.db.sessions[u].phase == Scanning && outside.started
      then && next.runs == w.runs + [ScanRun(u, [], {}, None)] && next.feeding == w.feeding[u := |w.runs|]
           && (next.active.Some? ==> next.active.value == ActiveScan(u, |w.runs|))
      else next.runs == w.runs && next.feeding == w.feeding && next.active.None?
  {
    hide ApplyBatch, FinalizeScan, BeginScan;
  }

  lemma OwnVisitWhole(w: World, maximum: nat, outside: Outside, pages: seq<seq<FilesystemEvent>>, v: VolumeId)
    requires WorldSound(w) && w.active.None? && Whole(w, pages, v)
    ensures var next := VisitVolume(w, v, maximum, outside);
      var watched := WatchedIf(Watch(w.db, pages), v, VisitStep(w.db, v, maximum, outside));
      watched.db == next.db ==> Whole(next, watched.pages, v)
  {
    hide Sound, Fed, SweepsFed, Next, VisitVolume, FinalizeScan, ApplyBatch;
    VisitHandles(w, v, maximum, outside);
    VisitIsStep(w, v, maximum, outside);
    if v !in w.db.sessions {
      SessionAfterVisit(w, v, maximum, outside);
    } else if w.db.sessions[v].phase == Scanning && !outside.started {
      assert VisitStep(w.db, v, maximum, outside).None?;
    }
  }

  /** A visit outside a session leaves none, or one that has yet to be scanned. */
  lemma SessionAfterVisit(w: World, v: VolumeId, maximum: nat, outside: Outside)
    requires WorldSound(w) && w.active.None? && v !in w.db.sessions
    ensures var next := VisitVolume(w, v, maximum, outside).db;
      v in next.sessions ==> next.sessions[v].phase == Scanning
  {
    hide ApplyBatch, FinalizeScan, Sound;
    if v in w.db.checkpoints && !(v in w.db.volumes && w.db.volumes[v].state == NeedsReconciliation) {
      IncrementalSessions(w, v, outside);
    }
  }

  lemma OtherVisitWhole(
    w: World, u: VolumeId, maximum: nat, outside: Outside, pages: seq<seq<FilesystemEvent>>, v: VolumeId)
    requires WorldSound(w) && w.active.None? && Whole(w, pages, v) && u != v
    requires SameSession(w.db, VisitVolume(w, u, maximum, outside).db, v)
    ensures Whole(VisitVolume(w, u, maximum, outside), pages, v)
  {
    hide Sound, Fed, SweepsFed, VisitVolume;
    VisitHandles(w, u, maximum, outside);
  }

  // ----- Steps and runs

  /** Link identities belong to one volume: nothing done elsewhere binds one of this volume's. */
  ghost predicate RespectsWorld(w: World, step: WorldStep, v: VolumeId) {
    GraphStep(w, step).Some? ==> Respects(w.db, v, GraphStep(w, step).value)
  }

  ghost predicate Tracks(w: World, watch: Watch, v: VolumeId) {
    watch.db == w.db && Mirroring(watch, v) && Whole(w, watch.pages, v)
  }

  /** The session of `v` ended with every page of the handle that fed it. */
  ghost predicate EndedWhole(w: World, next: World, v: VolumeId) {
    v in w.db.sessions && v !in next.db.sessions ==>
      && v in w.feeding && w.feeding[v] < |w.runs| && w.db.sessions[v].staged.Some?
      && Completed(next.db, v, w.db.sessions[v].staged.value,
                   ObservePages(NOTHING_SEEN, w.runs[w.feeding[v]].pages))
  }

  /** The watch follows a step of the world. */
  lemma WatchFollows(w: World, step: WorldStep, watch: Watch, v: VolumeId)
    requires WorldSound(w) && Tracks(w, watch, v) && RespectsWorld(w, step, v)
    ensures var watched := WatchedWorld(watch, w, step, v);
      watched.db == NextWorld(w, step).db && Mirroring(watched, v) && EndedWhole(w, NextWorld(w, step), v)
  {
    hide Sound, Mirrors, Completed, Next, Watched, NextWorld, VisitStep, FreshFrom, SweepsFed, ObservePages;
    WorldIsWatched(watch, w, step, v);
    var first := WatchedIf(watch, v, GraphStep(w, step));
    if GraphStep(w, step).Some? {
      StepWatched(watch, v, GraphStep(w, step).value);
      SessionPhase(w, v);
    }
    if StagingStep(w, step).Some? {
      var stage := StagingStep(w, step).value;
      StepWatched(first, v, stage);
      WatchedDb(first, v, stage);
      WatchedDb(watch, v, GraphStep(w, step).value);
      PageSessions(w.db, w.active.value.volume, step.outside.page.value.events);
      StagingEndsNothing(first.db, v, stage);
    }
  }

  lemma PageSessions(db: Db, u: VolumeId, events: seq<FilesystemEvent>)
    requires Sound(db)
    ensures Next(db, ScanPageStep(u, events)).sessions == db.sessions
  {
    hide Sound, ApplyBatch;
    SoundParts(db);
    if ApplyScanPage(db, u, events).Ok? && events != [] {
      BatchHasEffect(db, Batch(u, ScanCheckpoint(u, db.sessions[u].cutoff), FromEvents(events)), Durable);
    }
  }

  lemma SessionPhase(w: World, v: VolumeId)
    requires WorldSound(w)
    ensures v in w.db.sessions && w.db.sessions[v].staged.Some? ==> w.db.sessions[v].phase != Scanning
  {
    if v in w.db.sessions {
      SoundSession(w.db, v);
    }
  }

  lemma StagingEndsNothing(db: Db, v: VolumeId, stage: Step)
    requires stage.StageStep?
    ensures v in db.sessions ==> v in Next(db, stage).sessions
  {
  }

  lemma StepWhole(w: World, step: WorldStep, watch: Watch, v: VolumeId)
    requires WorldSound(w) && Permitted(w, step) && Tracks(w, watch, v) && RespectsWorld(w, step, v)
    ensures Whole(NextWorld(w, step), WatchedWorld(watch, w, step, v).pages, v)
  {
    hide Sound, Mirrors, Next, FreshFrom, SweepsFed, VisitVolume, ReadActiveScan, Mirroring, ApplyScanPage, VisitStep,
      Respects;
    WorldIsWatched(watch, w, step, v);
    assert watch == Watch(w.db, watch.pages);
    match step {
      case Observe(maximum, outside) =>
        if w.active.Some? {
          if w.active.value.volume == v {
            OwnPageWhole(w, outside, watch.pages, v, maximum);
          } else {
            OtherSession(w, step, watch, v);
            OtherPageWhole(w, outside, ReadActiveScan(w, outside), watch.pages, v);
          }
        } else if Refresh(w, outside).volumes != [] {
          var u, turned := Visited(w, outside), Turned(w, outside);
          CursorSound(w, turned);
          if u == v {
            OwnVisitWhole(turned, Clamp(maximum), outside, watch.pages, v);
          } else {
            OtherSession(w, step, watch, v);
            OtherVisitWhole(turned, u, Clamp(maximum), outside, watch.pages, v);
          }
        }
      case Restart(_) =>
      case Maintain(g) => OtherSession(w, step, watch, v);
    }
  }

  lemma OtherSession(w: World, step: WorldStep, watch: Watch, v: VolumeId)
    requires WorldSound(w) && Permitted(w, step) && watch.db == w.db
    requires step.Maintain? || (step.Observe? && if w.active.Some? then w.active.value.volume != v
                                                 else Refresh(w, step.outside).volumes != []
                                                      && Visited(w, step.outside) != v)
    ensures SameSession(w.db, NextWorld(w, step).db, v)
    ensures WatchedWorld(watch, w, step, v).pages == watch.pages
  {
    hide Sound, Next, NextWorld, FreshFrom, SweepsFed, ApplyScanPage;
    WorldIsWatched(watch, w, step, v);
    if GraphStep(w, step).Some? {
      var g := GraphStep(w, step).value;
      assert Writes(g) != Some(v);
      OtherStepSession(w.db, v, g);
      WatchedDb(watch, v, g);
      if StagingStep(w, step).Some? {
        WatchedDb(Watched(watch, v, g), v, StagingStep(w, step).value);
        StagedElsewhere(Next(w.db, g), v, StagingStep(w, step).value);
      }
    }
  }

  lemma StagedElsewhere(db: Db, v: VolumeId, stage: Step)
    requires stage.StageStep? && stage.volume != v
    ensures SameSession(db, Next(db, stage), v)
  {
  }

  ghost function WatchRun(states: seq<World>, steps: seq<WorldStep>, n: nat, v: VolumeId): Watch
    requires n <= |steps| && n < |states|
  {
    if n == 0 then Watch(EMPTY_DB, [])
    else WatchedWorld(WatchRun(states, steps, n - 1, v), states[n - 1], steps[n - 1], v)
  }

  ghost predicate RespectfulUntil(states: seq<World>, steps: seq<WorldStep>, n: nat, v: VolumeId)
    requires n <= |steps| && n <= |states|
  {
    forall i :: 0 <= i < n ==> RespectsWorld(states[i], steps[i], v)
  }

  lemma {:induction false} RunTracks(states: seq<World>, steps: seq<WorldStep>, n: nat, v: VolumeId)
    requires IsRun(states, steps) && n < |states| && RespectfulUntil(states, steps, n, v)
    ensures Tracks(states[n], WatchRun(states, steps, n, v), v)
  {
    hide WorldSound, Mirroring, NextWorld, RespectsWorld, WatchedWorld;
    if n == 0 {
      NothingTracked(v);
    } else {
      RunTracks(states, steps, n - 1, v);
      RunSound(states, steps, n - 1);
      assert RespectsWorld(states[n - 1], steps[n - 1], v);
      WatchFollows(states[n - 1], steps[n - 1], WatchRun(states, steps, n - 1, v), v);
      StepWhole(states[n - 1], steps[n - 1], WatchRun(states, steps, n - 1, v), v);
    }
  }

  lemma NothingTracked(v: VolumeId)
    ensures Tracks(FIRST_START, Watch(EMPTY_DB, []), v)
  {
  }

  /**
   * In every run of the controller, with failing pages, dying processes, restarts and other volumes
   * in between: whenever the session of a volume ends, the volume holds exactly the links and
   * objects of all the pages that one scan handle delivered, in order, at its final checkpoint.
   */
  lemma CompletedIsDelivered(states: seq<World>, steps: seq<WorldStep>, n: nat, v: VolumeId)
    requires IsRun(states, steps) && 0 < n < |states| && RespectfulUntil(states, steps, n, v)
    ensures EndedWhole(states[n - 1], states[n], v)
  {
    hide WorldSound, Mirroring, NextWorld, RespectsWorld, EndedWhole;
    RunTracks(states, steps, n - 1, v);
    RunSound(states, steps, n - 1);
    assert RespectsWorld(states[n - 1], steps[n - 1], v);
    WatchFollows(states[n - 1], steps[n - 1], WatchRun(states, steps, n - 1, v), v);
  }
}
