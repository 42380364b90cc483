/** Sweeps end: a number of finalization calls fixed in advance completes a staged session. */
module ObservationSweeps {
  import opened Core
  import opened Schema
  import opened GraphSpec
  import opened GraphTables
  import opened Catalog
  import opened Maintenance
  import opened GraphRuns
  import opened Observation
  import opened ObservationRuns

  /** Live objects of a volume last observed before the cutoff, linked or not. */
  ghost function OldObjects(db: Db, v: VolumeId, cutoff: nat): set<FileKey> {
    set k | k in db.objects && k.volume == v && !db.objects[k].tombstoned && db.objects[k].observed < cutoff
  }

  /** How many positive finalization calls a session past scanning still needs at most. */
  ghost function CallsLeft(db: Db, v: VolumeId): nat
    requires v in db.sessions
  {
    var cutoff := db.sessions[v].cutoff;
    var objects := |OldObjects(db, v, cutoff)| + 1;
    if db.sessions[v].phase == SweepingObjects then objects else |StaleLinks(db, v, cutoff)| + 1 + objects
  }

  /** Work on other volumes changes nothing of what is left to sweep. */
  lemma SparedKeepsCalls(a: Db, b: Db, v: VolumeId)
    requires v in a.sessions && KeepsVolume(a, b, v) && SameSession(a, b, v)
    ensures v in b.sessions && CallsLeft(b, v) == CallsLeft(a, v)
  {
    var cutoff := a.sessions[v].cutoff;
    assert StaleLinks(b, v, cutoff) == StaleLinks(a, v, cutoff);
    assert OldObjects(b, v, cutoff) == OldObjects(a, v, cutoff);
  }

  // ----- One call

  /** Tombstones are only ever raised by a sweep. */
  ghost predicate Buries(a: Db, b: Db) {
    forall k :: k in b.objects ==>
      k in a.objects && b.objects[k].observed == a.objects[k].observed
      && (a.objects[k].tombstoned ==> b.objects[k].tombstoned)
  }

  lemma {:induction false} SweepBuries(db: Db, rows: seq<(LinkId, FileKey)>, g: nat)
    requires SweepLinks(db, rows, g).Ok?
    ensures Buries(db, SweepLinks(db, rows, g).value)
  {
    if rows != [] {
      SweepBuries(db, rows[..|rows| - 1], g);
      var prior, last := SweepLinks(db, rows[..|rows| - 1], g).value, rows[|rows| - 1];
      RemovalBuries(prior, last.0, last.1, g);
    }
  }

  lemma RemovalBuries(db: Db, id: LinkId, key: FileKey, g: nat)
    requires RemoveLinkRow(db, id, key, g, false).Ok?
    ensures Buries(db, RemoveLinkRow(db, id, key, g, false).value)
  {
  }

  lemma BuriedFewer(a: Db, b: Db, v: VolumeId, cutoff: nat)
    requires Buries(a, b)
    ensures OldObjects(b, v, cutoff) <= OldObjects(a, v, cutoff)
  {
  }

  /** A link sweep takes at least one stale link, or moves on. */
  lemma LinkSweepCounts(db: Db, v: VolumeId, maximum: nat)
    requires Sound(db) && v in db.sessions && db.sessions[v].phase == SweepingLinks && maximum > 0 && v in db.volumes
    ensures var r := SweepLinksStep(db, v, maximum, Generation(db, v) + 1);
      && r.Ok? && v in r.value.db.sessions && r.value.db.sessions[v].phase != Scanning
      && CallsLeft(r.value.db, v) < CallsLeft(db, v)
  {
    hide Sound, CatalogSound, SweepLinks, RowsOf, LinkSweepPage, Logged, TrackedExcept, LastProjected, StaleLinks,
      OldObjects, Buries;
    SoundParts(db);
    SweepLinksStepKeeps(db, v, maximum);
    var g, cutoff := Generation(db, v) + 1, db.sessions[v].cutoff;
    SweepPageBound(db, v, cutoff, maximum);
    var page := LinkSweepPage(db, v, cutoff, maximum);
    var rows := RowsOf(db, page);
    SweepLinksKeeps(db, rows, g);
    SweepBuries(db, rows, g);
    var swept := SweepLinks(db, rows, g).value;
    var next := SweepLinksStep(db, v, maximum, g).value.db;
    SweptFewer(db, swept, next, v, cutoff, Ids(rows));
    if |page| >= maximum {
      RowsListed(db, page);
    }
  }

  lemma RowsListed(db: Db, page: seq<Aged>)
    requires page != [] && forall i :: 0 <= i < |page| ==> page[i].id in db.links
    ensures Ids(RowsOf(db, page)) != {}
  {
    assert RowsOf(db, page)[0] in RowsOf(db, page);
    assert RowsOf(db, page)[0].0 in Ids(RowsOf(db, page));
  }

  lemma SweptFewer(db: Db, swept: Db, next: Db, v: VolumeId, cutoff: nat, removed: set<LinkId>)
    requires swept.links == db.links - removed && Buries(db, swept) && removed <= StaleLinks(db, v, cutoff)
    requires next.links == swept.links && next.objects == swept.objects
    ensures |OldObjects(next, v, cutoff)| <= |OldObjects(db, v, cutoff)|
    ensures |StaleLinks(next, v, cutoff)| <= |StaleLinks(db, v, cutoff)|
    ensures removed != {} ==> |StaleLinks(next, v, cutoff)| < |StaleLinks(db, v, cutoff)|
  {
    BuriedFewer(db, swept, v, cutoff);
    assert OldObjects(next, v, cutoff) == OldObjects(swept, v, cutoff);
    SubsetSize(OldObjects(next, v, cutoff), OldObjects(db, v, cutoff));
    assert StaleLinks(next, v, cutoff) == StaleLinks(db, v, cutoff) - removed;
    SubsetSize(StaleLinks(next, v, cutoff), StaleLinks(db, v, cutoff));
  }

  /** An object sweep buries at least one old object, or ends the session. */
  lemma ObjectSweepCounts(db: Db, v: VolumeId, maximum: nat)
    requires v in db.sessions && v in db.volumes && db.sessions[v].staged.Some? && maximum > 0
    requires db.sessions[v].phase == SweepingObjects
    ensures var r := SweepObjectsStep(db, v, maximum, Generation(db, v) + 1);
      && r.Ok?
      && (v in r.value.db.sessions ==>
           r.value.db.sessions[v].phase != Scanning && CallsLeft(r.value.db, v) < CallsLeft(db, v))
  {
    hide SweepObjectsStep, ObjectSweepPage, SameCatalogLog;
    var cutoff := db.sessions[v].cutoff;
    SweepObjectsShape(db, v, maximum);
    var page := ObjectSweepPage(db, v, cutoff, maximum);
    if |page| >= maximum {
      ObjectPageUnlinked(db, v, cutoff, maximum);
      var next := AfterObjects(db, v, maximum);
      BuriedByPage(db, next, v, cutoff, page);
      SubsetSize(OldObjects(next, v, cutoff), OldObjects(db, v, cutoff));
    }
  }

  lemma BuriedByPage(db: Db, next: Db, v: VolumeId, cutoff: nat, page: seq<Aged>)
    requires page != [] && KeysOf(v, page) <= StaleObjects(db, v, cutoff)
    requires next.objects == TombstoneAll(db.objects, KeysOf(v, page))
    ensures OldObjects(next, v, cutoff) < OldObjects(db, v, cutoff)
  {
    var k := FileKey(v, page[0].id);
    assert page[0] in page;
    assert k in KeysOf(v, page) && k in StaleObjects(db, v, cutoff);
    assert k in OldObjects(db, v, cutoff) && k !in OldObjects(next, v, cutoff);
  }

  lemma FinalizeCounts(db: Db, v: VolumeId, maximum: nat)
    requires Sound(db) && v in db.sessions && db.sessions[v].phase != Scanning && maximum > 0
    ensures var r := FinalizeScan(db, v, maximum);
      && r.Ok?
      && (v in r.value.db.sessions ==>
           r.value.db.sessions[v].phase != Scanning && CallsLeft(r.value.db, v) < CallsLeft(db, v))
  {
    hide Sound, SweepLinksStep, SweepObjectsStep, CallsLeft, StaleLinks, Generation;
    SoundSession(db, v);
    if db.sessions[v].phase == SweepingLinks {
      LinkSweepCounts(db, v, maximum);
    } else {
      ObjectSweepCounts(db, v, maximum);
    }
  }

  // ----- Whole runs

  predicate Finalizes(step: Step, v: VolumeId) {
    step.FinalizeStep? && step.volume == v && step.maximum > 0
  }

  predicate Begins(step: Step, v: VolumeId) {
    step.BeginScanStep? && step.volume == v
  }

  /** Finalization calls on `v` with a positive bound, each its own. */
  function Calls(steps: seq<Step>, v: VolumeId): nat {
    if steps == [] then 0
    else Calls(steps[..|steps| - 1], v) + if Finalizes(steps[|steps| - 1], v) then 1 else 0
  }

  lemma StepCounts(db: Db, v: VolumeId, step: Step)
    requires Sound(db) && v in db.sessions && db.sessions[v].phase != Scanning
    requires Respects(db, v, step) && !Begins(step, v)
    ensures var next := Next(db, step);
      v in next.sessions ==>
        && next.sessions[v].phase != Scanning
        && CallsLeft(next, v) + (if Finalizes(step, v) then 1 else 0) <= CallsLeft(db, v)
  {
    hide Sound, CallsLeft, FinalizeScan, ApplyBatch, KeepsVolume, SparesIds;
    if Writes(step) != Some(v) {
      OtherStepSession(db, v, step);
      OtherStepSpares(db, v, step);
      SparedKeepsCalls(db, Next(db, step), v);
    } else if Finalizes(step, v) {
      FinalizeCounts(db, v, step.maximum);
    } else if step.FinalizeStep? {
      NothingFinalized(db, v);
    }
  }

  lemma NothingFinalized(db: Db, v: VolumeId)
    ensures FinalizeScan(db, v, 0) == Ok(Finalized(db, false))
  {
  }

  /** A session that has ended stays ended until it is begun again. */
  lemma StaysEnded(db: Db, v: VolumeId, step: Step)
    requires Sound(db) && v !in db.sessions && !Begins(step, v)
    ensures v !in Next(db, step).sessions
  {
    hide Sound, ApplyBatch;
    if Writes(step) != Some(v) || step.ApplyStep? {
      OtherStepSession(db, v, step);
    }
  }

  /** A run that respects the volume and begins no new session on it. */
  ghost predicate Sweeping(db: Db, v: VolumeId, steps: seq<Step>) {
    forall i :: 0 <= i < |steps| ==> Respects(StateAfter(db, steps[..i]), v, steps[i]) && !Begins(steps[i], v)
  }

  lemma {:induction false} RunCounts(db: Db, v: VolumeId, steps: seq<Step>)
    requires Sound(db) && v in db.sessions && db.sessions[v].phase != Scanning && Sweeping(db, v, steps)
    ensures var now := StateAfter(db, steps);
      && Sound(now)
      && (v in now.sessions ==>
           now.sessions[v].phase != Scanning && CallsLeft(now, v) + Calls(steps, v) <= CallsLeft(db, v))
  {
    hide Sound, CallsLeft, Next, Respects;
    if steps != [] {
      var front, last := steps[..|steps| - 1], steps[|steps| - 1];
      forall i | 0 <= i < |front|
        ensures Respects(StateAfter(db, front[..i]), v, front[i]) && !Begins(front[i], v)
      {
        assert front[..i] == steps[..i];
      }
      RunCounts(db, v, front);
      var prior := StateAfter(db, front);
      RespectsAdmissible(prior, v, last);
      StepKeepsSound(prior, last);
      if v in prior.sessions {
        StepCounts(prior, v, last);
      } else {
        StaysEnded(prior, v, last);
      }
    }
  }

  lemma RespectsAdmissible(db: Db, v: VolumeId, step: Step)
    requires Respects(db, v, step)
    ensures Admissible(db, step)
  {
  }

  /**
   * Sweeps terminate in any run of the whole graph: once a session is staged, as many positive
   * finalization calls as `CallsLeft` said at the start have ended it, whatever bound each of them
   * used and whatever else happened in between.
   */
  lemma SweepsTerminate(db: Db, v: VolumeId, steps: seq<Step>)
    requires Sound(db) && v in db.sessions && db.sessions[v].phase != Scanning && Sweeping(db, v, steps)
    requires Calls(steps, v) >= CallsLeft(db, v)
    ensures v !in StateAfter(db, steps).sessions
  {
    hide Sound, Sweeping, StateAfter;
    RunCounts(db, v, steps);
  }
}
