/** The content projection worker's own loops over bounded, coalesced outbox batches. */
module ContentWorkers {
  import opened Core
  import opened Schema
  import opened GraphSpec
  import R = Replay
  import opened Catalog
  import opened Outbox
  import opened GraphRuns
  import opened GraphFacts
  import opened GraphStore
  import opened Projector
  import opened ProjectionWorkers
  import opened ContentDelta
  import opened ContentProjection

  /** Only the last mutation of each identity survives. */
  method LastMutations(rows: seq<SequencedMutation>) returns (coalesced: map<DocumentId, Option<Document>>)
    ensures forall id :: R.Find(coalesced, id) == R.LastWrite(rows, id)
  {
    coalesced := map[];
    assert rows[..0] == [];
    for i := 0 to |rows|
      invariant forall id :: R.Find(coalesced, id) == R.LastWrite(rows[..i], id)
    {
      assert rows[..i + 1][..i] == rows[..i];
      ghost var before := coalesced;
      coalesced := match rows[i].mutation
        case Upsert(document) => coalesced[DocId(document) := Some(document)]
        case Delete(documentId, _) => coalesced[documentId := None];
      forall id ensures R.Find(coalesced, id) == R.LastWrite(rows[..i + 1], id) {
        assert R.Find(before, id) == R.LastWrite(rows[..i], id);
      }
    }
    assert rows[..|rows|] == rows;
  }

  lemma KeysAreTargets(rows: seq<SequencedMutation>, coalesced: map<DocumentId, Option<Document>>)
    requires forall id :: R.Find(coalesced, id) == R.LastWrite(rows, id)
    ensures coalesced.Keys == Targets(rows)
  {
    forall id ensures id in coalesced <==> id in Targets(rows) {
      LastWriteTargets(rows, id);
      assert R.Find(coalesced, id) == R.LastWrite(rows, id);
    }
  }

  /** Keep only the last mutation of each identity, then list upserts and deletions in id order. */
  method Coalesce(rows: seq<SequencedMutation>) returns (upserts: seq<Document>, deletions: seq<DocumentId>)
    ensures upserts == Upserts(rows, Ascending(Targets(rows)))
    ensures deletions == Deletions(rows, Ascending(Targets(rows)))
  {
    var coalesced := LastMutations(rows);
    KeysAreTargets(rows, coalesced);
    upserts, deletions := Partition(rows, coalesced);
  }

  /** Upserts and deletions of a coalesced batch, in identity order. */
  method Partition(ghost rows: seq<SequencedMutation>, coalesced: map<DocumentId, Option<Document>>)
    returns (upserts: seq<Document>, deletions: seq<DocumentId>)
    requires coalesced.Keys == Targets(rows) && forall id :: R.Find(coalesced, id) == R.LastWrite(rows, id)
    ensures upserts == Upserts(rows, Ascending(Targets(rows)))
    ensures deletions == Deletions(rows, Ascending(Targets(rows)))
  {
    hide R.LastWrite, Targets, Ascending, DocId;
    var ids := OrderById(coalesced.Keys);
    AscendingEnumerates(coalesced.Keys);
    upserts, deletions := [], [];
    assert ids[..0] == [];
    for i := 0 to |ids|
      invariant upserts == Upserts(rows, ids[..i]) && deletions == Deletions(rows, ids[..i])
    {
      assert ids[..i + 1][..i] == ids[..i];
      assert ids[i] in ids;
      assert R.Find(coalesced, ids[i]) == R.LastWrite(rows, ids[i]);
      match coalesced[ids[i]] {
        case Some(document) => upserts := upserts + [document];
        case None => deletions := deletions + [ids[i]];
      }
    }
    assert ids[..|ids|] == ids;
  }

  /** A completed candidate: every identity is right or has a mutation still to be read. */
  ghost predicate Following(p: Policy, db: Db, ix: ContentIndex) {
    CONTENT_SCHEMA_ID in db.consumers && CandidateSound(p, Candidate(db, 0, ix, None, true))
  }

  lemma FollowingSound(p: Policy, db: Db, ix: ContentIndex)
    requires Following(p, db, ix)
    ensures Sound(db)
  {
  }

  lemma FollowingBatch(p: Policy, db: Db, ix: ContentIndex, limit: nat, generation: nat)
    requires Consistent(p) && Following(p, db, ix) && NextBatch(db, CONTENT_SCHEMA_ID, limit) != []
    ensures var rows := NextBatch(db, CONTENT_SCHEMA_ID, limit);
      && Following(p, db, Delta(p, ix, rows))
      && var r := Acknowledge(db, CONTENT_SCHEMA_ID, rows[|rows| - 1].sequence, generation);
         r.Ok? && Following(p, r.value, Delta(p, ix, rows))
  {
    hide CandidateSound, Sound, Delta, Consistent, NextBatch, Retained, RowsAfter, Acknowledge;
    FollowingSound(p, db, ix);
    var c := Candidate(db, 0, ix, None, true);
    AckedBatch(db, CONTENT_SCHEMA_ID, limit, generation);
    LostBatchKeepsSettled(p, c, limit);
    BatchKeepsSettled(p, c, limit, generation);
  }

  /** With nothing left to read, the index holds exactly the texts of the eligible documents. */
  lemma FollowedIsExact(p: Policy, db: Db, ix: ContentIndex)
    requires Following(p, db, ix) && db.consumers[CONTENT_SCHEMA_ID].lastSequence == db.sequenceMark
    ensures forall id :: TextAt(ix, id) == WantedAt(p, LastProjected(db), id)
  {
    var c := Candidate(db, 0, ix, None, true);
    ContiguousSplit(db.outbox, db.sequenceMark, db.sequenceMark);
    assert Pending(c) == [];
    forall id ensures TextAt(ix, id) == WantedAt(p, LastProjected(db), id) {
      assert Settled(p, c, id);
    }
  }

  lemma EmptyDelta(p: Policy, ix: ContentIndex)
    ensures Delta(p, ix, []) == ix
  {
    assert Ascending(Targets([])) == [];
  }

  datatype ProjectionOutcome =
    | InvalidPolicy
    | MissingPayload
    | Projected(applied: nat, latest: nat, mutations: nat, commits: nat, backlogRemaining: bool)
    | DiedBeforeAck
    | Refused

  class ContentProjectionWorker {
    const policy: Policy
    const content: ContentIndexFile

    constructor (policy: Policy, content: ContentIndexFile)
      ensures this.policy == policy && this.content == content
    {
      this.policy := policy;
      this.content := content;
    }

    /** One commit for a whole batch; a coalesced delta is never refused. */
    method CommitCoalesced(rows: seq<SequencedMutation>) returns (applied: DeltaResult)
      modifies content
      ensures applied.Applied? && applied.generation == content.generation > old(content.generation)
      ensures content.index == Delta(policy, old(content.index), rows)
    {
      hide UpsertAll, Upserts, Deletions, CountAll;
      var upserts, deletions := Coalesce(rows);
      AscendingEnumerates(Targets(rows));
      CoalescedDistinct(rows, Ascending(Targets(rows)));
      applied := content.ApplyDelta(policy, upserts, deletions);
    }

    /** Commit one coalesced batch, then acknowledge its last sequence unless the process dies. */
    method ProjectBatch(graph: FilesystemGraph, batchSize: nat, crash: bool) returns (step: BatchStep)
      requires Sound(graph.db) && CONTENT_SCHEMA_ID in graph.db.consumers && graph.db.sequenceMark < U64_MAX
      modifies content, graph
      ensures Sound(graph.db) && CONTENT_SCHEMA_ID in graph.db.consumers
      ensures graph.db == old(graph.db).(consumers := graph.db.consumers)
      ensures !step.Rejected? && (step.CrashedBeforeAck? ==> crash)
      ensures step.Idle? <==>
        batchSize == 0 || old(graph.db).consumers[CONTENT_SCHEMA_ID].lastSequence == graph.db.sequenceMark
      ensures step.Idle? || step.CrashedBeforeAck? ==> graph.db == old(graph.db)
      ensures content.index == Delta(policy, old(content.index), NextBatch(old(graph.db), CONTENT_SCHEMA_ID, batchSize))
      ensures step.Committed? ==> graph.db.consumers[CONTENT_SCHEMA_ID].lastSequence
                                  == old(graph.db).consumers[CONTENT_SCHEMA_ID].lastSequence + step.rows
      ensures step.Committed? ==> 0 < step.rows <= batchSize
      ensures step.Committed? && step.rows < batchSize ==>
        graph.db.consumers[CONTENT_SCHEMA_ID].lastSequence == graph.db.sequenceMark
      ensures Consistent(policy) && old(Following(policy, graph.db, content.index)) ==>
        Following(policy, graph.db, content.index)
    {
      hide Sound, CandidateSound, Consistent, Delta, LatestSequence, R.WellIdentified, R.Run, CatchesUp, RowsAfter,
        Following;
      var rows := ReadOutbox(graph.db, graph.db.consumers[CONTENT_SCHEMA_ID].lastSequence, batchSize);
      BatchFacts(graph.db, CONTENT_SCHEMA_ID, map[], batchSize, 0);
      if rows == [] {
        EmptyDelta(policy, content.index);
        return Idle;
      }
      var valid := Validate(rows);
      if !valid {
        return Rejected(OutboxInvalid);
      }
      ghost var before := content.index;
      var applied := CommitCoalesced(rows);
      BatchFacts(graph.db, CONTENT_SCHEMA_ID, map[], batchSize, applied.generation);
      if Consistent(policy) && Following(policy, graph.db, before) {
        FollowingBatch(policy, graph.db, before, batchSize, applied.generation);
      }
      if crash {
        return CrashedBeforeAck;
      }
      var status := graph.AcknowledgeProjection(CONTENT_SCHEMA_ID, rows[|rows| - 1].sequence, applied.generation);
      return Committed(|rows|);
    }

    /** Bounded batches into the active generation. */
    method Project(graph: FilesystemGraph, batchSize: nat, maximumBatches: nat, crashInBatch: Option<nat>)
      returns (outcome: ProjectionOutcome)
      requires Sound(graph.db) && graph.db.sequenceMark < U64_MAX
      modifies content, graph
      ensures Sound(graph.db) && graph.db == old(graph.db).(consumers := graph.db.consumers)
      ensures outcome.InvalidPolicy? <==>
        batchSize == 0 || batchSize > 10_000 || maximumBatches == 0 || maximumBatches > 1_024
      ensures outcome.MissingPayload? <==> !outcome.InvalidPolicy? && CONTENT_SCHEMA_ID !in old(graph.db).consumers
      ensures outcome.InvalidPolicy? || outcome.MissingPayload? ==>
        graph.db == old(graph.db) && content.index == old(content.index)
      ensures !outcome.Refused? && (crashInBatch.None? ==> !outcome.DiedBeforeAck?)
      ensures Consistent(policy) && old(Following(policy, graph.db, content.index)) ==>
        Following(policy, graph.db, content.index)
      ensures outcome.Projected? ==>
        && CONTENT_SCHEMA_ID in graph.db.consumers
        && outcome.applied == graph.db.consumers[CONTENT_SCHEMA_ID].lastSequence
        && outcome.applied == old(graph.db).consumers[CONTENT_SCHEMA_ID].lastSequence + outcome.mutations
        && outcome.latest == graph.db.sequenceMark
        && (outcome.backlogRemaining <==> outcome.applied < outcome.latest)
        && (outcome.commits < maximumBatches ==> !outcome.backlogRemaining)
        && (Consistent(policy) && old(Following(policy, graph.db, content.index)) && !outcome.backlogRemaining ==>
             forall id :: TextAt(content.index, id) == WantedAt(policy, LastProjected(graph.db), id))
    {
      hide Sound, CandidateSound, Consistent, Delta, LatestSequence, LastProjected, WantedAt, TextAt;
      if batchSize == 0 || batchSize > 10_000 || maximumBatches == 0 || maximumBatches > 1_024 {
        return InvalidPolicy;
      }
      if CONTENT_SCHEMA_ID !in graph.db.consumers {
        return MissingPayload;
      }
      var commits: nat, mutations: nat, last := 0, 0, Committed(0);
      while commits < maximumBatches && last.Committed?
        invariant Sound(graph.db) && CONTENT_SCHEMA_ID in graph.db.consumers
        invariant graph.db == old(graph.db).(consumers := graph.db.consumers)
        invariant !last.Rejected? && (crashInBatch.None? ==> !last.CrashedBeforeAck?)
        invariant last.Idle? ==> graph.db.consumers[CONTENT_SCHEMA_ID].lastSequence == graph.db.sequenceMark
        invariant graph.db.consumers[CONTENT_SCHEMA_ID].lastSequence
                  == old(graph.db).consumers[CONTENT_SCHEMA_ID].lastSequence + mutations
        invariant Consistent(policy) && old(Following(policy, graph.db, content.index)) ==>
                    Following(policy, graph.db, content.index)
        decreases maximumBatches - commits, if last.Committed? then 1 else 0
      {
        last := ProjectBatch(graph, batchSize, crashInBatch == Some(commits));
        if last.Committed? {
          mutations := mutations + last.rows;
          commits := commits + 1;
        }
      }
      if last.CrashedBeforeAck? {
        return DiedBeforeAck;
      }
      DrainedFacts(graph.db, CONTENT_SCHEMA_ID, map[]);
      var latest := graph.LatestOutboxSequence();
      var applied := graph.db.consumers[CONTENT_SCHEMA_ID].lastSequence;
      if Following(policy, graph.db, content.index) && applied == latest {
        FollowedIsExact(policy, graph.db, content.index);
      }
      return Projected(applied, latest, mutations, commits, applied < latest);
    }
  }
}
