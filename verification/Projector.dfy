/** The catalog projection worker: commit, then acknowledge, with replay after a crash. */
module Projector {
  import opened Core
  import opened Schema
  import opened GraphSpec
  import opened GraphTables
  import R = Replay
  import opened Catalog
  import opened Maintenance
  import opened Outbox
  import opened GraphRuns
  import opened GraphFacts
  import opened GraphStore

  /** Rows the consumer has yet to acknowledge. */
  ghost function Unread(db: Db, consumer: string): seq<SequencedMutation>
    requires consumer in db.consumers
  {
    RowsAfter(db.outbox, db.consumers[consumer].lastSequence)
  }

  /** Replaying from the acknowledgement to the end gives exactly the last projected documents. */
  ghost predicate CatchesUp(db: Db, consumer: string, ix: R.Index) {
    consumer in db.consumers && R.Run(ix, Unread(db, consumer)) == LastProjected(db)
  }

  // ----- Graph operations between worker steps

  lemma LoggedKeepsCatchUp(db: Db, next: Db, consumer: string, ix: R.Index)
    requires OutboxSound(db) && next.consumers == db.consumers && CatchesUp(db, consumer, ix)
    requires |db.outbox| <= |next.outbox| && Logged(db, next, NewRows(db, next))
    ensures CatchesUp(next, consumer, ix)
  {
    var rows := NewRows(db, next);
    AppendedKeeps(db, next, rows);
    R.RunConcat(ix, Unread(db, consumer), rows);
  }

  lemma SameLogKeepsCatchUp(db: Db, next: Db, consumer: string, ix: R.Index)
    requires CatchesUp(db, consumer, ix) && next.docs == db.docs && next.outbox == db.outbox
    requires consumer in next.consumers && next.consumers[consumer] == db.consumers[consumer]
    ensures CatchesUp(next, consumer, ix)
  {
    SameDocsSameProjected(db, next);
  }

  lemma DropKeepsCatchUp(db: Db, next: Db, k: nat, consumer: string, ix: R.Index)
    requires OutboxSound(db) && DropsConsumed(db, next, k) && CatchesUp(db, consumer, ix)
    ensures CatchesUp(next, consumer, ix)
  {
    UnreadSurvivesDrop(db.outbox, db.sequenceMark, db.consumers[consumer].lastSequence, k);
    SameDocsSameProjected(db, next);
  }

  lemma FinalizeKeepsCatchUp(db: Db, v: VolumeId, maximum: nat, consumer: string, ix: R.Index)
    requires Sound(db) && FinalizeScan(db, v, maximum).Ok? && CatchesUp(db, consumer, ix)
    ensures CatchesUp(FinalizeScan(db, v, maximum).value.db, consumer, ix)
  {
    hide Sound, CatalogSound, SweepLinksStep, SweepObjectsStep, AfterObjects, StaleLinks, TrackedExcept, Generation,
      Logged;
    SoundParts(db);
    if maximum > 0 {
      SoundSession(db, v);
      var next := FinalizeScan(db, v, maximum).value.db;
      if db.sessions[v].phase == SweepingLinks {
        SweepLinksStepKeeps(db, v, maximum);
        LoggedKeepsCatchUp(db, next, consumer, ix);
      } else {
        SweepObjectsShape(db, v, maximum);
        SameLogKeepsCatchUp(db, next, consumer, ix);
      }
    }
  }

  /** Steps that move this consumer's own acknowledgement belong to its worker. */
  ghost predicate LeavesConsumer(step: Step, consumer: string) {
    && (step.AcknowledgeStep? ==> step.consumer != consumer)
    && (step.ResetConsumerStep? ==> step.consumer != consumer)
  }

  lemma BatchKeepsCatchUp(db: Db, b: Batch, mode: OutboxMode, consumer: string, ix: R.Index)
    requires Sound(db) && CatchesUp(db, consumer, ix) && ApplyBatch(db, b, mode).Ok?
    ensures CatchesUp(ApplyBatch(db, b, mode).value, consumer, ix)
  {
    assert db.consumers != map[];
    BatchLogged(db, b);
    BatchHasEffect(db, b, Durable);
    LoggedKeepsCatchUp(db, ApplyBatch(db, b, mode).value, consumer, ix);
  }

  lemma CatchUpRegistered(db: Db, consumer: string, ix: R.Index)
    requires CatchesUp(db, consumer, ix)
    ensures consumer in db.consumers
  {
  }

  /** Any graph operation, by anyone, keeps a lagging index on course. */
  lemma StepKeepsCatchUp(db: Db, step: Step, consumer: string, ix: R.Index)
    requires Sound(db) && Admissible(db, step) && LeavesConsumer(step, consumer) && CatchesUp(db, consumer, ix)
    ensures CatchesUp(Next(db, step), consumer, ix)
  {
    hide CatalogSound, CatchesUp, ApplyBatch, FinalizeScan, Logged, LastProjected, TrackedExcept, R.WellIdentified;
    var next := Next(db, step);
    CatchUpRegistered(db, consumer, ix);
    if next != db {
      match step {
        case ApplyStep(b, mode) => BatchKeepsCatchUp(db, b, mode, consumer, ix);
        case ScanPageStep(v, events) =>
          BatchKeepsCatchUp(
            db, Batch(v, ScanCheckpoint(v, db.sessions[v].cutoff), FromEvents(events)), Durable, consumer, ix);
        case FinalizeStep(v, maximum) => FinalizeKeepsCatchUp(db, v, maximum, consumer, ix);
        case RefreshVolumeStep(maximum) =>
          RefreshVolumeKeeps(db, maximum);
          LoggedKeepsCatchUp(db, next, consumer, ix);
        case RefreshPathsStep(maximum) =>
          RefreshPathsKeeps(db, maximum);
          LoggedKeepsCatchUp(db, next, consumer, ix);
        case PruneStep =>
          var k := PruneConsumedDrops(db);
          DropKeepsCatchUp(db, next, k, consumer, ix);
        case PruneBoundedStep(maximum, none) =>
          var k := PruneBoundedDrops(db, maximum, none);
          DropKeepsCatchUp(db, next, k, consumer, ix);
        case _ => SameLogKeepsCatchUp(db, next, consumer, ix);
      }
    }
  }

  // ----- Worker steps

  /** The rows one batch commits. */
  ghost function NextBatch(db: Db, consumer: string, limit: nat): seq<SequencedMutation>
    requires consumer in db.consumers
  {
    ReadOutbox(db, db.consumers[consumer].lastSequence, limit)
  }

  lemma BatchOfUnread(db: Db, consumer: string, limit: nat)
    requires OutboxSound(db) && consumer in db.consumers
    ensures var rows := NextBatch(db, consumer, limit);
      rows <= Unread(db, consumer) && Unread(db, consumer) == rows + Unread(db, consumer)[|rows|..]
  {
    ReadIsSlice(db, db.consumers[consumer].lastSequence, limit);
  }

  /** A commit whose acknowledgement was lost: the same rows, or any other cut, can follow. */
  lemma CommitKeepsCatchUp(db: Db, consumer: string, ix: R.Index, limit: nat)
    requires OutboxSound(db) && CatchesUp(db, consumer, ix)
    ensures CatchesUp(db, consumer, R.Run(ix, NextBatch(db, consumer, limit)))
  {
    var rows := NextBatch(db, consumer, limit);
    BatchOfUnread(db, consumer, limit);
    R.RunAgain(ix, rows, Unread(db, consumer)[|rows|..]);
  }

  lemma AckKeepsCatchUp(db: Db, consumer: string, ix: R.Index, limit: nat, generation: nat)
    requires OutboxSound(db) && CatchesUp(db, consumer, ix) && NextBatch(db, consumer, limit) != []
    ensures var rows := NextBatch(db, consumer, limit);
      var r := Acknowledge(db, consumer, rows[|rows| - 1].sequence, generation);
      r.Ok? && OutboxSound(r.value) && CatchesUp(r.value, consumer, R.Run(ix, rows))
      && r.value.consumers[consumer].lastSequence > db.consumers[consumer].lastSequence
  {
    hide LastProjected, RowsAfter, ReadOutbox, LatestSequence, R.Run;
    var rows := NextBatch(db, consumer, limit);
    ConsumerReads(db, consumer, limit);
    LatestIsMark(db);
    var last := rows[|rows| - 1].sequence;
    AcknowledgeKeeps(db, consumer, last, generation);
    BatchOfUnread(db, consumer, limit);
    UnreadAdvances(db.outbox, db.sequenceMark, db.consumers[consumer].lastSequence, |rows|);
    R.RunConcat(ix, rows, Unread(db, consumer)[|rows|..]);
    SameDocsSameProjected(db, Acknowledge(db, consumer, last, generation).value);
  }

  /** With nothing left to read, the index is exactly what was last projected. */
  lemma NoBacklog(db: Db, consumer: string, ix: R.Index)
    requires OutboxSound(db) && CatchesUp(db, consumer, ix)
    requires db.consumers[consumer].lastSequence == db.sequenceMark
    ensures ix == LastProjected(db)
  {
    ContiguousSplit(db.outbox, db.sequenceMark, db.sequenceMark);
    assert Unread(db, consumer) == [];
  }

  /** Registering at the latest sequence with an index built from the joined read. */
  lemma RebuildExact(db: Db, consumer: string, generation: nat)
    requires Sound(db)
    ensures var r := Acknowledge(db, consumer, LatestSequence(db), generation);
      && r.Ok? && Sound(r.value) && r.value.consumers[consumer].lastSequence == db.sequenceMark
      && (CatchesUp(r.value, consumer, DesiredCatalog(db)) <==> AllCurrent(db))
  {
    LatestIsMark(db);
    AcknowledgeKeeps(db, consumer, db.sequenceMark, generation);
    var next := Acknowledge(db, consumer, db.sequenceMark, generation).value;
    ConsumersOnly(db, next);
    ContiguousSplit(db.outbox, db.sequenceMark, db.sequenceMark);
    assert Unread(next, consumer) == [];
    SameDocsSameProjected(db, next);
    JoinedEqualsProjected(db);
  }

  // ----- Whole runs of graph and worker

  /** `index` is the generation the checkpoint names, when it can be opened. */
  datatype System = System(db: Db, index: Option<R.Index>)

  datatype SystemStep =
    | Graph(step: Step)
    | CommitThenCrash(limit: nat)
    | CommitAndAck(limit: nat, generation: nat)
    | LoseIndex
    | Rebuild(generation: nat)

  ghost function SystemNext(s: System, consumer: string, step: SystemStep): System {
    match step
    case Graph(g) => s.(db := Next(s.db, g))
    case LoseIndex => s.(index := None)
    case CommitThenCrash(limit) =>
      if consumer in s.db.consumers && s.index.Some?
      then s.(index := Some(R.Run(s.index.value, NextBatch(s.db, consumer, limit)))) else s
    case CommitAndAck(limit, generation) =>
      if consumer in s.db.consumers && s.index.Some? && NextBatch(s.db, consumer, limit) != [] then
        var rows := NextBatch(s.db, consumer, limit);
        System(OrKeep(s.db, Acknowledge(s.db, consumer, rows[|rows| - 1].sequence, generation)),
               Some(R.Run(s.index.value, rows)))
      else s
    case Rebuild(generation) =>
      if consumer in s.db.consumers && s.index.Some? then s
      else System(OrKeep(s.db, Acknowledge(s.db, consumer, LatestSequence(s.db), generation)),
                  Some(DesiredCatalog(s.db)))
  }

  ghost predicate SystemSound(s: System, consumer: string) {
    Sound(s.db) && (consumer in s.db.consumers && s.index.Some? ==> CatchesUp(s.db, consumer, s.index.value))
  }

  /** Rebuilds find every availability current; nobody else acknowledges for this consumer. */
  ghost predicate Permitted(s: System, consumer: string, step: SystemStep) {
    match step
    case Graph(g) => Admissible(s.db, g) && (g.AcknowledgeStep? ==> g.consumer != consumer)
    case Rebuild(_) => (consumer in s.db.consumers && s.index.Some?) || AllCurrent(s.db)
    case _ => true
  }

  lemma SystemStepKeeps(s: System, consumer: string, step: SystemStep)
    requires SystemSound(s, consumer) && Permitted(s, consumer, step)
    ensures SystemSound(SystemNext(s, consumer, step), consumer)
  {
    hide Sound, CatchesUp, AllCurrent, DesiredCatalog, LatestSequence;
    SoundParts(s.db);
    var live := consumer in s.db.consumers && s.index.Some?;
    match step {
      case Graph(g) =>
        StepKeepsSound(s.db, g);
        if g == ResetConsumerStep(consumer) {
          assert consumer !in Next(s.db, g).consumers;
        } else if live {
          StepKeepsCatchUp(s.db, g, consumer, s.index.value);
        } else if consumer !in s.db.consumers {
          StepLeavesConsumer(s.db, g, consumer);
        }
      case CommitThenCrash(limit) =>
        if live {
          CommitKeepsCatchUp(s.db, consumer, s.index.value, limit);
        }
      case CommitAndAck(limit, generation) =>
        if live && NextBatch(s.db, consumer, limit) != [] {
          AckKeepsCatchUp(s.db, consumer, s.index.value, limit, generation);
          ConsumersOnly(s.db, SystemNext(s, consumer, step).db);
        }
      case Rebuild(generation) =>
        if !live {
          RebuildExact(s.db, consumer, generation);
        }
      case LoseIndex =>
    }
  }

  lemma FinalizeLeavesConsumers(db: Db, v: VolumeId, maximum: nat)
    requires Sound(db) && FinalizeScan(db, v, maximum).Ok?
    ensures FinalizeScan(db, v, maximum).value.db.consumers == db.consumers
  {
    hide Sound, CatalogSound, SweepLinksStep, SweepObjectsStep, AfterObjects, StaleLinks, TrackedExcept, Generation,
      Logged;
    if maximum > 0 {
      SoundSession(db, v);
      if db.sessions[v].phase == SweepingLinks {
        SweepLinksStepKeeps(db, v, maximum);
      } else {
        SweepObjectsShape(db, v, maximum);
      }
    }
  }

  /** Nobody but the worker itself moves its acknowledgement. */
  lemma StepLeavesConsumer(db: Db, step: Step, consumer: string)
    requires Sound(db) && LeavesConsumer(step, consumer)
    ensures var after := Next(db, step).consumers;
      && (consumer in after <==> consumer in db.consumers)
      && (consumer in db.consumers ==> after[consumer] == db.consumers[consumer])
  {
    SoundParts(db);
    hide Sound, CatalogSound, OutboxSound, TrackedExcept, Logged, LastProjected;
    var next := Next(db, step);
    if next != db {
      match step {
        case ApplyStep(b, mode) =>
          BatchHasEffect(db, b, mode);
        case ScanPageStep(v, events) =>
          BatchHasEffect(db, Batch(v, ScanCheckpoint(v, db.sessions[v].cutoff), FromEvents(events)), Durable);
        case FinalizeStep(v, maximum) => FinalizeLeavesConsumers(db, v, maximum);
        case RefreshVolumeStep(maximum) => RefreshVolumeKeeps(db, maximum);
        case RefreshPathsStep(maximum) => RefreshPathsKeeps(db, maximum);
        case _ =>
      }
    }
  }

  ghost function SystemAfter(s: System, consumer: string, steps: seq<SystemStep>): System {
    if steps == [] then s else SystemNext(SystemAfter(s, consumer, steps[..|steps| - 1]), consumer, steps[|steps| - 1])
  }

  ghost predicate PermittedRun(s: System, consumer: string, steps: seq<SystemStep>) {
    forall i :: 0 <= i < |steps| ==> Permitted(SystemAfter(s, consumer, steps[..i]), consumer, steps[i])
  }

  lemma {:induction false} SystemRunKeeps(s: System, consumer: string, steps: seq<SystemStep>)
    requires SystemSound(s, consumer) && PermittedRun(s, consumer, steps)
    ensures SystemSound(SystemAfter(s, consumer, steps), consumer)
  {
    if steps != [] {
      var front := steps[..|steps| - 1];
      forall i | 0 <= i < |front| ensures Permitted(SystemAfter(s, consumer, front[..i]), consumer, front[i]) {
        assert front[..i] == steps[..i];
      }
      SystemRunKeeps(s, consumer, front);
      SystemStepKeeps(SystemAfter(s, consumer, front), consumer, steps[|steps| - 1]);
    }
  }

  /** Graph batches of the run never revive a volume without a refresh being due. */
  ghost predicate QuietSystemRun(s: System, consumer: string, steps: seq<SystemStep>) {
    forall i :: 0 <= i < |steps| && steps[i].Graph? ==>
      QuietStep(SystemAfter(s, consumer, steps[..i]).db, steps[i].step)
  }

  lemma SystemStepTracks(s: System, consumer: string, step: SystemStep)
    requires SystemSound(s, consumer) && Permitted(s, consumer, step) && TrackedExcept(s.db, {})
    requires step.Graph? ==> QuietStep(s.db, step.step)
    ensures TrackedExcept(SystemNext(s, consumer, step).db, {})
  {
    if step.Graph? {
      StepKeepsTracked(s.db, step.step);
    } else {
      SystemStepKeeps(s, consumer, step);
      ConsumersOnly(s.db, SystemNext(s, consumer, step).db);
    }
  }

  lemma {:induction false} SystemRunTracks(s: System, consumer: string, steps: seq<SystemStep>)
    requires SystemSound(s, consumer) && PermittedRun(s, consumer, steps) && QuietSystemRun(s, consumer, steps)
    requires TrackedExcept(s.db, {})
    ensures TrackedExcept(SystemAfter(s, consumer, steps).db, {})
  {
    if steps != [] {
      var front := steps[..|steps| - 1];
      forall i | 0 <= i < |front|
        ensures Permitted(SystemAfter(s, consumer, front[..i]), consumer, front[i])
        ensures front[i].Graph? ==> QuietStep(SystemAfter(s, consumer, front[..i]).db, front[i].step)
      {
        assert front[..i] == steps[..i];
      }
      SystemRunKeeps(s, consumer, front);
      SystemRunTracks(s, consumer, front);
      SystemStepTracks(SystemAfter(s, consumer, front), consumer, steps[|steps| - 1]);
    }
  }

  /**
   * Convergence through crashes: for any interleaving of graph operations, worker batches of any
   * size, lost acknowledgements, lost indexes and rebuilds, replay from the acknowledgement gives
   * the last projected documents; with no backlog the index already is those documents, and with
   * no volume refresh pending it is the joined desired read, versions included.
   */
  lemma Convergence(consumer: string, steps: seq<SystemStep>)
    requires PermittedRun(System(EMPTY_DB, None), consumer, steps)
    ensures var s := SystemAfter(System(EMPTY_DB, None), consumer, steps);
      consumer in s.db.consumers && s.index.Some? ==>
        && R.Run(s.index.value, Unread(s.db, consumer)) == LastProjected(s.db)
        && (s.db.consumers[consumer].lastSequence == s.db.sequenceMark ==>
             && s.index.value == LastProjected(s.db)
             && (QuietSystemRun(System(EMPTY_DB, None), consumer, steps) && NoVolumeRefreshPending(s.db) ==>
                  s.index.value == DesiredCatalog(s.db)))
  {
    var start := System(EMPTY_DB, None);
    EmptySound();
    SystemRunKeeps(start, consumer, steps);
    var s := SystemAfter(start, consumer, steps);
    if consumer in s.db.consumers && s.index.Some? && s.db.consumers[consumer].lastSequence == s.db.sequenceMark {
      NoBacklog(s.db, consumer, s.index.value);
      if QuietSystemRun(start, consumer, steps) && NoVolumeRefreshPending(s.db) {
        SystemRunTracks(start, consumer, steps);
        SettledIsCurrent(s.db);
        JoinedEqualsProjected(s.db);
      }
    }
  }
}
