/** The controller as it runs: its own fields change in place, the graph through transactions. */
module ObservationControllers {
  import opened Core
  import opened Schema
  import opened GraphSpec
  import opened GraphRuns
  import opened GraphStore
  import opened Controller

  class BrokerObservationController {
    const graph: FilesystemGraph
    var volumes: seq<VolumeId>
    var cursor: nat
    var active: Option<ActiveScan>
    /** Handles started so far; the next one stands for the identity the broker assigns. */
    var handles: nat
    ghost var runs: seq<ScanRun>
    ghost var feeding: map<VolumeId, nat>
    ghost var returned: set<ProviderCheckpoint>
    ghost var consulted: seq<ProviderCheckpoint>

    ghost function View(): World
      reads this, graph
    {
      World(graph.db, volumes, cursor, active, runs, feeding, returned, consulted)
    }

    ghost predicate Valid()
      reads this
    {
      handles == |runs| && (active.Some? ==> active.value.run < |runs|)
    }

    constructor (graph: FilesystemGraph, selected: seq<VolumeId>)
      ensures this.graph == graph && Valid()
      ensures View() == World(graph.db, selected, 0, None, [], map[], {}, [])
    {
      this.graph := graph;
      volumes, cursor, active := selected, 0, None;
      handles, runs, feeding, returned, consulted := 0, [], map[], {}, [];
    }

    /** At most one broker page or one bounded finalization transaction. */
    method Step(maximum: nat, outside: Outside)
      requires Valid()
      modifies this, graph
      ensures Valid() && View() == StepWorld(old(View()), maximum, outside)
    {
      hide ReadActiveScan, VisitVolume;
      var bound := Clamp(maximum);
      if active.Some? {
        var scan := active.value;
        active := None;
        ReadPage(scan, outside);
        return;
      }
      if outside.discovered.Some? {
        volumes := outside.discovered.value;
        cursor := Least(cursor, if |volumes| > 0 then |volumes| - 1 else 0);
      }
      if volumes == [] {
        return;
      }
      if cursor >= |volumes| {
        cursor := 0;
      }
      var v := volumes[cursor];
      cursor := (cursor + 1) % |volumes|;
      Visit(v, bound, outside);
    }

    method ReadPage(scan: ActiveScan, outside: Outside)
      requires Valid() && active.None? && scan.run < |runs|
      modifies this, graph
      ensures Valid() && View() == ReadActiveScan(old(View()).(active := Some(scan)), outside)
    {
      if outside.page.None? {
        return;
      }
      var page := outside.page.value;
      runs := runs[scan.run := Delivered(runs[scan.run], page.events)];
      returned := returned + if page.checkpoint.Some? then {page.checkpoint.value} else {};
      var status := graph.ApplyObservationScanPage(scan.volume, page.events);
      if status.Err? {
        return;
      }
      if !page.complete {
        active := Some(scan);
        return;
      }
      if outside.dies || page.checkpoint.None? {
        return;
      }
      status := graph.StageObservationCheckpoint(scan.volume, page.checkpoint.value);
      if status.Ok? {
        runs := runs[scan.run := runs[scan.run].(final := page.checkpoint)];
      }
    }

    method Visit(v: VolumeId, maximum: nat, outside: Outside)
      requires Valid() && active.None?
      modifies this, graph
      ensures Valid() && View() == VisitVolume(old(View()), v, maximum, outside)
    {
      if v in graph.db.sessions {
        HandleSessionOf(v, maximum, outside);
        return;
      }
      if v !in graph.db.checkpoints {
        graph.BeginObservationScan(v, Initial);
        return;
      }
      if v in graph.db.volumes && graph.db.volumes[v].state == NeedsReconciliation {
        graph.BeginObservationScan(v, Reconcile);
        return;
      }
      ReadChanges(v, graph.db.checkpoints[v], outside);
    }

    method HandleSessionOf(v: VolumeId, maximum: nat, outside: Outside)
      requires Valid() && active.None? && v in graph.db.sessions
      modifies this, graph
      ensures Valid() && View() == HandleSession(old(View()), v, maximum, outside)
    {
      if graph.db.sessions[v].phase != Scanning {
        var done := graph.FinalizeObservationScan(v, maximum);
        return;
      }
      if !outside.started {
        return;
      }
      graph.BeginObservationScan(v, graph.db.sessions[v].mode);
      var handle := handles;
      handles := handles + 1;
      runs := runs + [ScanRun(v, [], {}, None)];
      feeding := feeding[v := handle];
      if !outside.dies {
        active := Some(ActiveScan(v, handle));
      }
    }

    method ReadChanges(v: VolumeId, checkpoint: ProviderCheckpoint, outside: Outside)
      requires Valid() && active.None?
      modifies this, graph
      ensures Valid() && View() == ReadIncremental(old(View()), v, checkpoint, outside)
    {
      consulted := consulted + [checkpoint];
      var offline := v in graph.db.volumes && graph.db.volumes[v].state == VolumeOffline;
      var status: Status;
      match outside.changes {
        case Changes(events, next) =>
          returned := returned + {next};
          var back := if offline then [SetVolumeState(v, VolumeOnline)] else [];
          status := graph.ApplyBatchWithMode(Batch(v, next, back + FromEvents(events)), Durable);
        case Unavailable =>
          if !offline {
            status := graph.ApplyBatchWithMode(Batch(v, checkpoint, [SetVolumeState(v, VolumeOffline)]), Durable);
          }
        case OtherFailure =>
        case _ =>
          status := graph.ApplyBatchWithMode(Batch(v, checkpoint, [RequireReconciliation(v)]), Durable);
      }
    }
  }
}
