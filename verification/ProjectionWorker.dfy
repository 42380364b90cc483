/** The projection worker's own loops: paged rebuild, bounded consumption, crash points. */
module ProjectionWorkers {
  import opened Core
  import opened Schema
  import opened GraphSpec
  import R = Replay
  import opened Catalog
  import opened Outbox
  import opened GraphRuns
  import opened GraphFacts
  import opened GraphStore
  import opened Projector

  lemma {:induction false} AscendingSuffix(s: set<nat>, n: nat)
    requires 0 < n <= |Ascending(s)|
    ensures Ascending(s)[n..] == Ascending(set x | x in s && Ascending(s)[n - 1] < x)
    ensures Ascending(s)[n - 1] in s
  {
    var m := Min(s);
    var rest := s - {m};
    var last := Ascending(s)[n - 1];
    if n == 1 {
      assert rest == set x | x in s && m < x;
    } else {
      AscendingSuffix(rest, n - 1);
      assert Ascending(rest)[n - 2] == last;
      assert (set x | x in rest && last < x) == (set x | x in s && last < x);
    }
  }

  /** Consecutive pages: what a page lists, then everything beyond its last document. */
  lemma PageSplits(catalog: map<DocumentId, Document>, after: Option<DocumentId>, limit: nat)
    requires PageIds(catalog, after, limit) != []
    ensures var ids := PageIds(catalog, after, limit);
      var last := ids[|ids| - 1];
      && last in KeysAfter(catalog, after)
      && Ascending(KeysAfter(catalog, after)) == ids + Ascending(KeysAfter(catalog, Some(last)))
      && KeysAfter(catalog, Some(last)) < KeysAfter(catalog, after)
      && (|ids| < limit ==> Ascending(KeysAfter(catalog, Some(last))) == [])
  {
    var ahead := KeysAfter(catalog, after);
    var ids := PageIds(catalog, after, limit);
    var last := ids[|ids| - 1];
    AscendingSuffix(ahead, |ids|);
    assert last == Ascending(ahead)[|ids| - 1];
    assert KeysAfter(catalog, Some(last)) == set x | x in ahead && last < x;
    assert Ascending(ahead) == ids + Ascending(ahead)[|ids|..];
  }

  lemma PageExtends(catalog: map<DocumentId, Document>, after: Option<DocumentId>, limit: nat, listed: seq<DocumentId>)
    requires PageIds(catalog, after, limit) != []
    ensures var ids := PageIds(catalog, after, limit);
      listed + Ascending(KeysAfter(catalog, after)) ==
        (listed + ids) + Ascending(KeysAfter(catalog, Some(ids[|ids| - 1])))
  {
    PageSplits(catalog, after, limit);
    var ids := PageIds(catalog, after, limit);
    var rest := Ascending(KeysAfter(catalog, Some(ids[|ids| - 1])));
    assert listed + (ids + rest) == (listed + ids) + rest;
  }

  lemma EmptyPageIsEnd(catalog: map<DocumentId, Document>, after: Option<DocumentId>, limit: nat)
    requires limit > 0 && PageIds(catalog, after, limit) == []
    ensures Ascending(KeysAfter(catalog, after)) == []
  {
  }

  lemma PageEnd(catalog: R.Index, cursor: Option<DocumentId>, limit: nat)
    requires limit > 0 && CatalogPage(catalog, cursor, limit) == []
    ensures Ascending(KeysAfter(catalog, cursor)) == []
  {
    EmptyPageIsEnd(catalog, cursor, limit);
  }

  /** One nonempty page among all: what it lists, and what remains. */
  lemma NextPage(
    catalog: R.Index, after: Option<DocumentId>, limit: nat, listed: seq<DocumentId>, page: seq<Document>)
    requires forall id :: id in catalog ==> DocId(catalog[id]) == id
    requires page == CatalogPage(catalog, after, limit) && page != []
    ensures var ids := PageIds(catalog, after, limit);
      var last := Some(DocId(page[|page| - 1]));
      && |ids| == |page|
      && (forall i :: 0 <= i < |ids| ==> ids[i] in catalog && page[i] == catalog[ids[i]] && DocId(page[i]) == ids[i])
      && listed + Ascending(KeysAfter(catalog, after)) == (listed + ids) + Ascending(KeysAfter(catalog, last))
      && KeysAfter(catalog, last) < KeysAfter(catalog, after)
      && (|page| < limit ==> Ascending(KeysAfter(catalog, last)) == [])
      && limit > 0
  {
    PageSplits(catalog, after, limit);
    PageExtends(catalog, after, limit, listed);
  }

  lemma FirstPage(catalog: R.Index)
    ensures KeysAfter(catalog, None) == catalog.Keys && Listed(catalog, []) == map[]
    ensures CatalogPage(catalog, None, 0) == []
  {
  }

  datatype WorkerError = OutboxInvalid | Poisoned | MissingCheckpoint | GraphFailed(error: GraphError)

  /** A run ends normally, dies between commit and acknowledgement, or reports an error. */
  datatype Outcome =
    | Finished(generation: nat, batches: nat, applied: nat, backlogRemaining: bool)
    | Crashed
    | WorkerFailed(error: WorkerError)

  ghost function Listed(catalog: map<DocumentId, Document>, ids: seq<DocumentId>): map<DocumentId, Document>
    requires forall i :: 0 <= i < |ids| ==> ids[i] in catalog
  {
    map id | id in ids :: catalog[id]
  }

  class ProjectionWorker {
    const consumer: string
    /** Committed index generations on disk. */
    var generations: map<nat, R.Index>

    constructor (consumer: string)
      ensures this.consumer == consumer && generations == map[]
    {
      this.consumer := consumer;
      generations := map[];
    }

    method NextUnusedGeneration(minimum: nat) returns (generation: nat)
      ensures minimum <= generation && generation !in generations
      ensures forall g :: minimum <= g < generation ==> g in generations
    {
      generation := minimum;
      while generation in generations
        invariant minimum <= generation
        invariant forall g :: minimum <= g < generation ==> g in generations
        decreases set g | g in generations && generation <= g
      {
        ghost var before := set g | g in generations && generation <= g;
        assert generation in before;
        generation := generation + 1;
        assert (set g | g in generations && generation <= g) == before - {generation - 1};
      }
    }

    /** Every document of the joined read, page by page: each exactly once, in document order. */
    method ReadAllPages(graph: FilesystemGraph, pageSize: nat) returns (writer: R.Index, ghost listed: seq<DocumentId>)
      ensures pageSize > 0 ==> writer == DesiredCatalog(graph.db) && listed == Ascending(DesiredCatalog(graph.db).Keys)
      ensures pageSize == 0 ==> writer == map[]
    {
      ghost var catalog := DesiredCatalog(graph.db);
      assert forall id :: id in catalog ==> DocId(catalog[id]) == id;
      hide DesiredCatalog, KeysAfter, CatalogPage, PageIds, Ascending, Listed;
      writer, listed := map[], [];
      var after: Option<DocumentId> := None;
      FirstPage(catalog);
      var page := graph.DesiredCatalogPage(after, pageSize);
      while page != []
        invariant page == CatalogPage(catalog, after, pageSize)
        invariant forall i :: 0 <= i < |listed| ==> listed[i] in catalog
        invariant writer == Listed(catalog, listed)
        invariant listed + Ascending(KeysAfter(catalog, after)) == Ascending(catalog.Keys)
        invariant pageSize == 0 ==> page == [] && writer == map[]
        decreases KeysAfter(catalog, after)
      {
        ghost var ids := PageIds(catalog, after, pageSize);
        NextPage(catalog, after, pageSize, listed, page);
        writer := AddPage(catalog, writer, listed, ids, page);
        listed := listed + ids;
        after := Some(DocId(page[|page| - 1]));
        if |page| < pageSize {
          AllListed(catalog, listed);
          return;
        }
        page := graph.DesiredCatalogPage(after, pageSize);
      }
      if pageSize > 0 {
        PageEnd(catalog, after, pageSize);
        assert listed == listed + Ascending(KeysAfter(catalog, after));
        AllListed(catalog, listed);
      }
    }

    /** The checkpoint names a generation that can be opened. */
    ghost predicate Live(db: Db)
      reads this
    {
      consumer in db.consumers && db.consumers[consumer].indexGeneration in generations
    }

    ghost predicate OnCourse(db: Db)
      reads this
    {
      Live(db) ==> CatchesUp(db, consumer, generations[db.consumers[consumer].indexGeneration])
    }

    /**
     * Build a fresh generation from the joined read and register it at the latest sequence. An
     * interrupted rebuild leaves an empty directory that no checkpoint names.
     */
    method Rebuild(graph: FilesystemGraph, minimum: nat, pageSize: nat, interrupted: bool) returns (generation: nat)
      requires Sound(graph.db)
      modifies this, graph
      ensures minimum <= generation && generation !in old(generations)
      ensures interrupted ==> graph.db == old(graph.db) && generations == old(generations)[generation := map[]]
      ensures !interrupted ==>
        && Ok(graph.db) == Acknowledge(old(graph.db), consumer, LatestSequence(old(graph.db)), generation)
        && generations == old(generations)[generation := if pageSize > 0 then DesiredCatalog(old(graph.db)) else map[]]
    {
      hide Sound, DesiredCatalog;
      generation := NextUnusedGeneration(minimum);
      generations := generations[generation := map[]];
      if interrupted {
        return;
      }
      var writer, _ := ReadAllPages(graph, pageSize);
      assert old(generations)[generation := map[]][generation := writer] == old(generations)[generation := writer];
      generations := generations[generation := writer];
      RebuildExact(graph.db, consumer, generation);
      var latest := graph.LatestOutboxSequence();
      var status := graph.AcknowledgeProjection(consumer, latest, generation);
    }

    /** Open the generation the checkpoint names, or rebuild. */
    method Recover(graph: FilesystemGraph, pageSize: nat) returns (generation: nat)
      requires Sound(graph.db) && OnCourse(graph.db)
      modifies this, graph
      ensures Sound(graph.db) && Live(graph.db) && graph.db.consumers[consumer].indexGeneration == generation
      ensures graph.db == old(graph.db).(consumers := graph.db.consumers)
      ensures old(Live(graph.db)) ==> OnCourse(graph.db) && graph.db == old(graph.db)
      ensures !old(Live(graph.db)) && consumer in old(graph.db).consumers ==>
        generation > old(graph.db).consumers[consumer].indexGeneration
      ensures !old(Live(graph.db)) && pageSize > 0 ==> (OnCourse(graph.db) <==> AllCurrent(old(graph.db)))
    {
      if consumer in graph.db.consumers && graph.db.consumers[consumer].indexGeneration in generations {
        return graph.db.consumers[consumer].indexGeneration;
      }
      var minimum := if consumer in graph.db.consumers then graph.db.consumers[consumer].indexGeneration + 1 else 1;
      generation := Rebuild(graph, minimum, pageSize, false);
      RebuildExact(old(graph.db), consumer, generation);
    }

    /** One committed batch; `crash` strikes between the commit and its acknowledgement. */
    method ProjectBatch(graph: FilesystemGraph, generation: nat, limit: nat, crash: bool) returns (step: BatchStep)
      requires Sound(graph.db) && Live(graph.db) && graph.db.consumers[consumer].indexGeneration == generation
      requires graph.db.sequenceMark < U64_MAX
      modifies this, graph
      ensures Sound(graph.db) && Live(graph.db) && graph.db.consumers[consumer].indexGeneration == generation
      ensures graph.db == old(graph.db).(consumers := graph.db.consumers)
      ensures old(OnCourse(graph.db)) ==> OnCourse(graph.db)
      ensures !step.Rejected? && (step.CrashedBeforeAck? ==> crash)
      ensures step.Idle? <==> limit == 0 || old(graph.db).consumers[consumer].lastSequence == graph.db.sequenceMark
      ensures step.Idle? || step.CrashedBeforeAck? ==> graph.db == old(graph.db)
      ensures step.Committed? ==>
        && graph.db.consumers[consumer].lastSequence == old(graph.db).consumers[consumer].lastSequence + step.rows
        && 0 < step.rows <= limit
        && (step.rows == limit || graph.db.consumers[consumer].lastSequence == graph.db.sequenceMark)
    {
      hide Sound;
      var rows := ReadOutbox(graph.db, graph.db.consumers[consumer].lastSequence, limit);
      BatchFacts(graph.db, consumer, generations[generation], limit, generation);
      if rows == [] {
        return Idle;
      }
      var valid := Validate(rows);
      if !valid {
        return Rejected(OutboxInvalid);
      }
      var writer, poisoned := ApplyRows(generations[generation], rows);
      if poisoned {
        return Rejected(Poisoned);
      }
      generations := generations[generation := writer];
      if crash {
        return CrashedBeforeAck;
      }
      var status := graph.AcknowledgeProjection(consumer, rows[|rows| - 1].sequence, generation);
      return Committed(|rows|);
    }

    /** Batch after batch, until there is nothing to read, a bound is met or the process dies. */
    method Consume(
      graph: FilesystemGraph, generation: nat, batchLimit: nat, maximumBatches: nat, crashInBatch: Option<nat>)
      returns (last: BatchStep, batches: nat, applied: nat)
      requires Sound(graph.db) && Live(graph.db) && graph.db.consumers[consumer].indexGeneration == generation
      requires graph.db.sequenceMark < U64_MAX
      modifies this, graph
      ensures Sound(graph.db) && Live(graph.db) && graph.db.consumers[consumer].indexGeneration == generation
      ensures graph.db == old(graph.db).(consumers := graph.db.consumers)
      ensures old(OnCourse(graph.db)) ==> OnCourse(graph.db)
      ensures !last.Rejected? && (crashInBatch.None? ==> !last.CrashedBeforeAck?)
      ensures batchLimit > 0 && batches < maximumBatches && !last.CrashedBeforeAck? ==>
        graph.db.consumers[consumer].lastSequence == graph.db.sequenceMark
    {
      hide Sound, CatchesUp;
      last, batches, applied := Committed(0), 0, 0;
      while batches < maximumBatches && last.Committed?
        invariant Sound(graph.db) && Live(graph.db) && graph.db.consumers[consumer].indexGeneration == generation
        invariant graph.db == old(graph.db).(consumers := graph.db.consumers)
        invariant old(OnCourse(graph.db)) ==> OnCourse(graph.db)
        invariant !last.Rejected? && (crashInBatch.None? ==> !last.CrashedBeforeAck?)
        invariant last.Idle? && batchLimit > 0 ==> graph.db.consumers[consumer].lastSequence == graph.db.sequenceMark
        decreases maximumBatches - batches, if last.Committed? then 1 else 0
      {
        last := ProjectBatch(graph, generation, batchLimit, crashInBatch == Some(batches));
        if last.Committed? {
          applied := applied + last.rows;
          batches := batches + 1;
        }
      }
    }

    /** Startup recovery, then consumption bounded by a batch count and by wall time. */
    method Run(
      graph: FilesystemGraph, batchLimit: nat, maximumBatches: nat, batchesInTime: nat, pageSize: nat,
      crashInBatch: Option<nat>) returns (outcome: Outcome)
      requires Sound(graph.db) && OnCourse(graph.db) && graph.db.sequenceMark < U64_MAX
      modifies this, graph
      ensures Sound(graph.db) && Live(graph.db) && !outcome.WorkerFailed?
      ensures crashInBatch.None? ==> outcome.Finished?
      ensures graph.db == old(graph.db).(consumers := graph.db.consumers)
      ensures old(Live(graph.db)) || (pageSize > 0 && AllCurrent(old(graph.db))) ==> OnCourse(graph.db)
      ensures outcome.Finished? ==>
        && outcome.generation == graph.db.consumers[consumer].indexGeneration
        && (outcome.backlogRemaining <==> graph.db.consumers[consumer].lastSequence < graph.db.sequenceMark)
        && (batchLimit > 0 && outcome.batches < maximumBatches && outcome.batches < batchesInTime ==>
             !outcome.backlogRemaining)
        && (OnCourse(graph.db) && !outcome.backlogRemaining ==>
             generations[outcome.generation] == LastProjected(graph.db))
    {
      hide Sound, CatchesUp, LastProjected, LatestSequence, AllCurrent, DesiredCatalog, RowsAfter, R.Run;
      var generation := Recover(graph, pageSize);
      var allowed := if maximumBatches < batchesInTime then maximumBatches else batchesInTime;
      var last, batches, applied := Consume(graph, generation, batchLimit, allowed, crashInBatch);
      if last.CrashedBeforeAck? {
        return Crashed;
      }
      DrainedFacts(graph.db, consumer, generations[generation]);
      var latest := graph.LatestOutboxSequence();
      return Finished(generation, batches, applied, graph.db.consumers[consumer].lastSequence < latest);
    }
  }

  datatype BatchStep = Idle | Committed(rows: nat) | CrashedBeforeAck | Rejected(error: WorkerError)

  /** What one batch of a registered consumer looks like in a sound state. */
  lemma BatchFacts(db: Db, consumer: string, ix: R.Index, limit: nat, generation: nat)
    requires Sound(db) && consumer in db.consumers
    ensures var rows := NextBatch(db, consumer, limit);
      && (rows == [] <==> limit == 0 || db.consumers[consumer].lastSequence == db.sequenceMark)
      && Consecutive(rows) && R.WellIdentified(rows)
      && (CatchesUp(db, consumer, ix) ==> CatchesUp(db, consumer, R.Run(ix, rows)))
      && (rows != [] ==>
           var last := rows[|rows| - 1].sequence;
           var r := Acknowledge(db, consumer, last, generation);
           && last == db.consumers[consumer].lastSequence + |rows| && last <= db.sequenceMark
           && |rows| <= limit && (|rows| == limit || last == db.sequenceMark)
           && r.Ok? && Sound(r.value)
           && (CatchesUp(db, consumer, ix) ==> CatchesUp(r.value, consumer, R.Run(ix, rows))))
  {
    hide CatchesUp, LastProjected, LatestSequence, R.Run, RowsAfter, CatalogSound, SessionsSound;
    var rows := NextBatch(db, consumer, limit);
    ConsumerReads(db, consumer, limit);
    ReadIsSlice(db, db.consumers[consumer].lastSequence, limit);
    if CatchesUp(db, consumer, ix) {
      CommitKeepsCatchUp(db, consumer, ix, limit);
    }
    if rows != [] {
      var last := rows[|rows| - 1].sequence;
      LatestIsMark(db);
      AcknowledgeKeeps(db, consumer, last, generation);
      ConsumersOnly(db, Acknowledge(db, consumer, last, generation).value);
      if CatchesUp(db, consumer, ix) {
        AckKeepsCatchUp(db, consumer, ix, limit, generation);
      }
    }
  }

  lemma DrainedFacts(db: Db, consumer: string, ix: R.Index)
    requires Sound(db) && consumer in db.consumers
    ensures LatestSequence(db) == db.sequenceMark && db.consumers[consumer].lastSequence <= db.sequenceMark
    ensures CatchesUp(db, consumer, ix) && db.consumers[consumer].lastSequence == db.sequenceMark ==>
      ix == LastProjected(db)
  {
    LatestIsMark(db);
    if CatchesUp(db, consumer, ix) && db.consumers[consumer].lastSequence == db.sequenceMark {
      NoBacklog(db, consumer, ix);
    }
  }

  /** Stage a batch on a writer; an upsert whose identity was not derived from its link is poison. */
  method ApplyRows(ix: R.Index, rows: seq<SequencedMutation>) returns (writer: R.Index, poisoned: bool)
    ensures poisoned <==> !R.WellIdentified(rows)
    ensures !poisoned ==> writer == R.Run(ix, rows)
  {
    writer := ix;
    assert rows[..0] == [];
    for i := 0 to |rows|
      invariant writer == R.Run(ix, rows[..i])
      invariant R.WellIdentified(rows[..i])
    {
      var m := rows[i].mutation;
      if m.Upsert? && DocId(m.document) != DocumentIdForLink(m.document.content.identity.link) {
        return writer, true;
      }
      assert rows[..i + 1][..i] == rows[..i];
      writer := R.Write(writer, m);
    }
    assert rows[..|rows|] == rows;
    poisoned := false;
  }

  lemma AllListed(catalog: map<DocumentId, Document>, listed: seq<DocumentId>)
    requires listed == Ascending(catalog.Keys)
    ensures forall i :: 0 <= i < |listed| ==> listed[i] in catalog
    ensures Listed(catalog, listed) == catalog
  {
    AscendingEnumerates(catalog.Keys);
  }

  method AddPage(
    ghost catalog: map<DocumentId, Document>, start: R.Index, ghost listed: seq<DocumentId>,
    ghost ids: seq<DocumentId>, page: seq<Document>) returns (writer: R.Index)
    requires forall i :: 0 <= i < |listed| ==> listed[i] in catalog
    requires |ids| == |page| && forall i :: 0 <= i < |ids| ==>
      ids[i] in catalog && page[i] == catalog[ids[i]] && DocId(page[i]) == ids[i]
    requires start == Listed(catalog, listed)
    ensures forall i :: 0 <= i < |listed + ids| ==> (listed + ids)[i] in catalog
    ensures writer == Listed(catalog, listed + ids)
  {
    writer := start;
    assert listed + ids[..0] == listed;
    for i := 0 to |page|
      invariant forall j :: 0 <= j < |listed + ids[..i]| ==> (listed + ids[..i])[j] in catalog
      invariant writer == Listed(catalog, listed + ids[..i])
    {
      assert listed + ids[..i + 1] == (listed + ids[..i]) + [ids[i]];
      writer := writer[DocId(page[i]) := page[i]];
    }
    assert ids[..|page|] == ids;
  }
}
