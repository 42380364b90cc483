/** A content candidate built from pages of a moving catalog, then caught up from the outbox. */
module ContentProjection {
  import opened Core
  import opened Schema
  import opened GraphSpec
  import R = Replay
  import opened Catalog
  import opened Maintenance
  import opened Outbox
  import opened GraphRuns
  import opened GraphFacts
  import opened GraphStore
  import opened Projector
  import opened ProjectionWorkers
  import opened ContentDelta
  import opened ContentGeneration

  const CONTENT_SCHEMA_ID: string := "CONTENT-SCHEMA-v1"

  // ----- Coalescing

  ghost function Targets(rows: seq<SequencedMutation>): set<DocumentId> {
    set i | 0 <= i < |rows| :: Target(rows[i].mutation)
  }

  lemma {:induction false} LastWriteTargets(rows: seq<SequencedMutation>, id: DocumentId)
    ensures R.LastWrite(rows, id).Some? <==> id in Targets(rows)
    ensures R.LastWrite(rows, id).Some? && R.LastWrite(rows, id).value.Some? ==>
      DocId(R.LastWrite(rows, id).value.value) == id
  {
    if rows != [] {
      var front := rows[..|rows| - 1];
      LastWriteTargets(front, id);
      assert Targets(rows) == Targets(front) + {Target(rows[|rows| - 1].mutation)} by {
        forall i | 0 <= i < |rows|
          ensures Target(rows[i].mutation) in Targets(front) + {Target(rows[|rows| - 1].mutation)}
        {
          if i < |front| {
            assert front[i] == rows[i];
          }
        }
        forall i | 0 <= i < |front| ensures Target(front[i].mutation) in Targets(rows) {
          assert front[i] == rows[i];
        }
        assert Target(rows[|rows| - 1].mutation) in Targets(rows);
      }
    }
  }

  /** The surviving upserts of a batch, in the order of `ids`. */
  ghost function Upserts(rows: seq<SequencedMutation>, ids: seq<DocumentId>): seq<Document> {
    if ids == [] then [] else
      var front := Upserts(rows, ids[..|ids| - 1]);
      match R.LastWrite(rows, ids[|ids| - 1])
      case Some(Some(d)) => front + [d]
      case _ => front
  }

  ghost function Deletions(rows: seq<SequencedMutation>, ids: seq<DocumentId>): seq<DocumentId> {
    if ids == [] then [] else
      var front := Deletions(rows, ids[..|ids| - 1]);
      match R.LastWrite(rows, ids[|ids| - 1])
      case Some(None) => front + [ids[|ids| - 1]]
      case _ => front
  }

  lemma {:induction false} UpsertsFacts(rows: seq<SequencedMutation>, ids: seq<DocumentId>)
    requires StrictlyAscending(ids)
    ensures DistinctIds(Upserts(rows, ids), [])
    ensures forall d :: d in Upserts(rows, ids) <==> DocId(d) in ids && R.LastWrite(rows, DocId(d)) == Some(Some(d))
  {
    if ids != [] {
      var front, last := ids[..|ids| - 1], ids[|ids| - 1];
      UpsertsFacts(rows, front);
      LastWriteTargets(rows, last);
      assert last !in front;
      var before := Upserts(rows, front);
      assert forall i :: 0 <= i < |before| ==> before[i] in before && DocId(before[i]) != last;
      assert ids == front + [last];
    }
  }

  lemma {:induction false} DeletionsFacts(rows: seq<SequencedMutation>, ids: seq<DocumentId>)
    requires StrictlyAscending(ids)
    ensures DistinctIds([], Deletions(rows, ids))
    ensures forall id :: id in Deletions(rows, ids) <==> id in ids && R.LastWrite(rows, id) == Some(None)
  {
    if ids != [] {
      var front, last := ids[..|ids| - 1], ids[|ids| - 1];
      DeletionsFacts(rows, front);
      assert last !in front;
      var before := Deletions(rows, front);
      assert forall i :: 0 <= i < |before| ==> before[i] in before && before[i] != last;
      assert ids == front + [last];
    }
  }

  /** A coalesced batch never names an identity twice, so the delta is always accepted. */
  lemma CoalescedDistinct(rows: seq<SequencedMutation>, ids: seq<DocumentId>)
    requires StrictlyAscending(ids)
    ensures DistinctIds(Upserts(rows, ids), Deletions(rows, ids))
  {
    UpsertsFacts(rows, ids);
    DeletionsFacts(rows, ids);
    var ups, dels := Upserts(rows, ids), Deletions(rows, ids);
    forall i, j | 0 <= i < |ups| && 0 <= j < |dels| ensures DocId(ups[i]) != dels[j] {
      assert ups[i] in ups && dels[j] in dels;
    }
  }

  /** The index one coalesced batch commits. */
  ghost function Delta(p: Policy, ix: ContentIndex, rows: seq<SequencedMutation>): ContentIndex {
    var ids := Ascending(Targets(rows));
    UpsertAll(p, ix, Upserts(rows, ids)) - (set x | x in Deletions(rows, ids))
  }

  function EffectText(p: Policy, effect: Option<Document>): Option<string> {
    if effect.Some? then Wanted(p, effect.value) else None
  }

  /** A coalesced batch leaves, identity by identity, what its last mutation asks for. */
  lemma DeltaText(p: Policy, ix: ContentIndex, rows: seq<SequencedMutation>, id: DocumentId)
    requires Consistent(p) && IndexSound(p, ix)
    ensures IndexSound(p, Delta(p, ix, rows))
    ensures TextAt(Delta(p, ix, rows), id) ==
            match R.LastWrite(rows, id) case None => TextAt(ix, id) case Some(effect) => EffectText(p, effect)
  {
    hide R.LastWrite, Upserts, Deletions, UpsertAll, Consistent, Wanted;
    var ids := Ascending(Targets(rows));
    AscendingEnumerates(Targets(rows));
    UpsertsFacts(rows, ids);
    DeletionsFacts(rows, ids);
    LastWriteTargets(rows, id);
    var ups := Upserts(rows, ids);
    UpsertAllText(p, ix, ups);
    match R.LastWrite(rows, id) {
      case Some(Some(d)) =>
        assert d in ups;
        var i :| 0 <= i < |ups| && ups[i] == d;
        assert DocId(ups[i]) == id;
      case _ =>
        forall i | 0 <= i < |ups| ensures DocId(ups[i]) != id {
          assert ups[i] in ups;
        }
        UntouchedFind(p, ix, ups, id);
        assert R.Find(UpsertAll(p, ix, ups), id) == R.Find(ix, id);
    }
  }

  /** Coalescing two batches together or apart, or replaying one, leaves the same texts. */
  lemma CoalescingIsReplay(
    p: Policy, ix: ContentIndex, a: seq<SequencedMutation>, b: seq<SequencedMutation>, id: DocumentId)
    requires Consistent(p) && IndexSound(p, ix)
    ensures TextAt(Delta(p, Delta(p, ix, a), b), id) == TextAt(Delta(p, ix, a + b), id)
    ensures TextAt(Delta(p, Delta(p, ix, a), a + b), id) == TextAt(Delta(p, ix, a + b), id)
  {
    DeltaText(p, ix, a, id);
    DeltaText(p, Delta(p, ix, a), b, id);
    DeltaText(p, Delta(p, ix, a), a + b, id);
    DeltaText(p, ix, a + b, id);
    R.LastWriteConcat(a, b, id);
  }

  // ----- The moving catalog

  /** Everything logged above `position` is still there. */
  ghost predicate Retained(db: Db, position: nat) {
    PrunedThrough(db) <= position <= db.sequenceMark
  }

  /** Between two states the rows above a position only grew, by what changed the catalog. */
  ghost predicate Grew(db: Db, next: Db, position: nat, rows: seq<SequencedMutation>) {
    && RowsAfter(next.outbox, position) == RowsAfter(db.outbox, position) + rows
    && LastProjected(next) == R.Run(LastProjected(db), rows)
  }

  lemma LoggedGrows(db: Db, next: Db, position: nat)
    requires OutboxSound(db) && Retained(db, position)
    requires |db.outbox| <= |next.outbox| && Logged(db, next, NewRows(db, next))
    ensures Grew(db, next, position, NewRows(db, next)) && Retained(next, position)
  {
    hide LastProjected;
    UnreadGrows(db.outbox, db.sequenceMark, NewRows(db, next), position);
    assert next.outbox == db.outbox + NewRows(db, next);
  }

  lemma UnreadGrows(outbox: seq<SequencedMutation>, mark: nat, rows: seq<SequencedMutation>, position: nat)
    requires Contiguous(outbox, mark) && mark - |outbox| <= position <= mark
    requires forall i :: 0 <= i < |rows| ==> rows[i].sequence == mark + 1 + i
    ensures RowsAfter(outbox + rows, position) == RowsAfter(outbox, position) + rows
  {
    assert Contiguous(outbox + rows, mark + |rows|);
    UnreadIsSlice(outbox, mark, position);
    UnreadIsSlice(outbox + rows, mark + |rows|, position);
  }

  lemma SameLogGrows(db: Db, next: Db, position: nat)
    requires next.docs == db.docs && next.outbox == db.outbox
    ensures Grew(db, next, position, [])
  {
    SameDocsSameProjected(db, next);
  }

  lemma DropGrows(db: Db, next: Db, k: nat, position: nat)
    requires OutboxSound(db) && DropsConsumed(db, next, k) && Retained(db, position) && Retained(next, position)
    ensures Grew(db, next, position, [])
  {
    UnreadSurvivesDrop(db.outbox, db.sequenceMark, position, k);
    SameDocsSameProjected(db, next);
  }

  lemma FinalizeGrows(db: Db, v: VolumeId, maximum: nat, position: nat) returns (rows: seq<SequencedMutation>)
    requires Sound(db) && FinalizeScan(db, v, maximum).Ok? && Retained(db, position)
    ensures Grew(db, FinalizeScan(db, v, maximum).value.db, position, rows)
  {
    hide Grew, Sound, CatalogSound, SweepLinksStep, SweepObjectsStep, AfterObjects, StaleLinks, TrackedExcept,
      Generation, Logged;
    var next := FinalizeScan(db, v, maximum).value.db;
    rows := [];
    if maximum == 0 {
      SameLogGrows(db, next, position);
    } else {
      SoundSession(db, v);
      if db.sessions[v].phase == SweepingLinks {
        SweepLinksStepKeeps(db, v, maximum);
        SoundParts(db);
        LoggedGrows(db, next, position);
        rows := NewRows(db, next);
      } else {
        SweepObjectsShape(db, v, maximum);
        SameLogGrows(db, next, position);
      }
    }
  }

  /** Every batch writes its changes to the outbox. */
  ghost predicate LogsChanges(step: Step) {
    step.ApplyStep? ==> step.outboxMode == Durable
  }

  lemma StepGrows(db: Db, step: Step, position: nat) returns (rows: seq<SequencedMutation>)
    requires Sound(db) && LogsChanges(step) && Retained(db, position) && Retained(Next(db, step), position)
    ensures Grew(db, Next(db, step), position, rows)
  {
    var next := Next(db, step);
    rows := [];
    if next != db {
      match step {
        case ApplyStep(b, mode) =>
          BatchLogged(db, b);
          LoggedGrows(db, next, position);
          rows := NewRows(db, next);
        case ScanPageStep(v, events) =>
          BatchLogged(db, Batch(v, ScanCheckpoint(v, db.sessions[v].cutoff), FromEvents(events)));
          LoggedGrows(db, next, position);
          rows := NewRows(db, next);
        case FinalizeStep(v, maximum) => rows := FinalizeGrows(db, v, maximum, position);
        case RefreshVolumeStep(maximum) =>
          RefreshVolumeKeeps(db, maximum);
          LoggedGrows(db, next, position);
          rows := NewRows(db, next);
        case RefreshPathsStep(maximum) =>
          RefreshPathsKeeps(db, maximum);
          LoggedGrows(db, next, position);
          rows := NewRows(db, next);
        case PruneStep =>
          var k := PruneConsumedDrops(db);
          DropGrows(db, next, k, position);
        case PruneBoundedStep(maximum, none) =>
          var k := PruneBoundedDrops(db, maximum, none);
          DropGrows(db, next, k, position);
        case _ => SameLogGrows(db, next, position);
      }
    }
  }

  // ----- The candidate

  /**
   * `target` is the sequence captured when the candidate was created, `cursor` its last durable
   * checkpoint, `complete` whether an empty page ended its scan.
   */
  datatype Candidate = Candidate(
    db: Db, target: nat, index: ContentIndex, cursor: Option<DocumentId>, complete: bool)

  /** Where catching up resumes. */
  ghost function Position(c: Candidate): nat {
    if CONTENT_SCHEMA_ID in c.db.consumers then c.db.consumers[CONTENT_SCHEMA_ID].lastSequence else c.target
  }

  ghost function Pending(c: Candidate): seq<SequencedMutation> {
    RowsAfter(c.db.outbox, Position(c))
  }

  /** The index owes `id` nothing: it is right, will be replayed, or is still ahead of the scan. */
  ghost predicate Settled(p: Policy, c: Candidate, id: DocumentId) {
    || R.LastWrite(Pending(c), id).Some?
    || TextAt(c.index, id) == WantedAt(p, LastProjected(c.db), id)
    || (!c.complete && Beyond(c.cursor, id) && id !in c.index)
  }

  /** The last pending mutation of `id`, if any, is what the catalog holds now. */
  ghost predicate PendingCurrent(c: Candidate, id: DocumentId) {
    var last := R.LastWrite(Pending(c), id);
    last.Some? ==> last.value == R.Find(LastProjected(c.db), id)
  }

  ghost predicate CandidateSound(p: Policy, c: Candidate) {
    && Sound(c.db) && Retained(c.db, Position(c)) && IndexSound(p, c.index)
    && (forall id :: Settled(p, c, id)) && (forall id :: PendingCurrent(c, id))
  }

  datatype CandidateStep =
    | GraphMoves(step: Step)
    | PageCommitted(limit: nat)
    | PageCommittedThenCrash(limit: nat)
    | Register(generation: nat)
    | BatchAcknowledged(limit: nat, generation: nat)
    | BatchThenCrash(limit: nat)

  ghost function Paged(p: Policy, c: Candidate, limit: nat): ContentIndex {
    UpsertAll(p, c.index, CatalogPage(DesiredCatalog(c.db), c.cursor, limit))
  }

  ghost function CandidateNext(p: Policy, c: Candidate, step: CandidateStep): Candidate {
    match step
    case GraphMoves(g) => c.(db := Next(c.db, g))
    case PageCommitted(limit) =>
      if c.complete || limit == 0 then c else
        var ids := PageIds(DesiredCatalog(c.db), c.cursor, limit);
        if ids == [] then c.(complete := true) else c.(index := Paged(p, c, limit), cursor := Some(ids[|ids| - 1]))
    case PageCommittedThenCrash(limit) =>
      if c.complete || limit == 0 then c else c.(index := Paged(p, c, limit))
    case Register(generation) =>
      if c.complete && CONTENT_SCHEMA_ID !in c.db.consumers
      then c.(db := OrKeep(c.db, Acknowledge(c.db, CONTENT_SCHEMA_ID, c.target, generation))) else c
    case BatchAcknowledged(limit, generation) =>
      if CONTENT_SCHEMA_ID in c.db.consumers && NextBatch(c.db, CONTENT_SCHEMA_ID, limit) != [] then
        var rows := NextBatch(c.db, CONTENT_SCHEMA_ID, limit);
        c.(db := OrKeep(c.db, Acknowledge(c.db, CONTENT_SCHEMA_ID, rows[|rows| - 1].sequence, generation)),
           index := Delta(p, c.index, rows))
      else c
    case BatchThenCrash(limit) =>
      if CONTENT_SCHEMA_ID in c.db.consumers
      then c.(index := Delta(p, c.index, NextBatch(c.db, CONTENT_SCHEMA_ID, limit))) else c
  }

  /**
   * What a page writes for a listed identity does no harm: it is the text the log asks for, the log
   * will write it again, or the page is lost and wrote nothing, so the identity stays ahead.
   */
  ghost predicate Harmless(p: Policy, c: Candidate, id: DocumentId, lost: bool) {
    || R.LastWrite(Pending(c), id).Some?
    || WantedAt(p, DesiredCatalog(c.db), id) == WantedAt(p, LastProjected(c.db), id)
    || (lost && WantedAt(p, DesiredCatalog(c.db), id) == None)
  }

  ghost predicate PageHarmless(p: Policy, c: Candidate, limit: nat, lost: bool) {
    forall id :: id in PageIds(DesiredCatalog(c.db), c.cursor, limit) ==> Harmless(p, c, id, lost)
  }

  /** Every catalog change is logged, no row above the position is pruned, and pages do no harm. */
  ghost predicate Undisturbed(p: Policy, c: Candidate, step: CandidateStep) {
    match step
    case GraphMoves(g) =>
      && Admissible(c.db, g) && LeavesConsumer(g, CONTENT_SCHEMA_ID) && LogsChanges(g)
      && Retained(Next(c.db, g), Position(c))
    case PageCommitted(limit) => c.complete || PageHarmless(p, c, limit, false)
    case PageCommittedThenCrash(limit) => c.complete || PageHarmless(p, c, limit, true)
    case _ => true
  }

  lemma GraphKeepsSettled(p: Policy, c: Candidate, g: Step)
    requires CandidateSound(p, c) && Undisturbed(p, c, GraphMoves(g))
    ensures CandidateSound(p, c.(db := Next(c.db, g)))
  {
    hide Sound;
    var next := c.(db := Next(c.db, g));
    StepKeepsSound(c.db, g);
    SamePosition(c, g);
    var rows := StepGrows(c.db, g, Position(c));
    forall id ensures Settled(p, next, id) && PendingCurrent(next, id) {
      assert Settled(p, c, id) && PendingCurrent(c, id);
      R.LastWriteConcat(Pending(c), rows, id);
      R.RunFind(LastProjected(c.db), rows, id);
    }
  }

  lemma SamePosition(c: Candidate, g: Step)
    requires Sound(c.db) && Admissible(c.db, g) && LeavesConsumer(g, CONTENT_SCHEMA_ID)
    ensures Position(c.(db := Next(c.db, g))) == Position(c)
  {
    StepLeavesConsumer(c.db, g, CONTENT_SCHEMA_ID);
  }

  /** The joined read and the last projection list the same identities. */
  lemma SameListing(db: Db)
    requires Sound(db)
    ensures DesiredCatalog(db).Keys == LastProjected(db).Keys
  {
    hide Sound;
    JoinedReadFaithful(db);
  }

  lemma DesiredKeyed(db: Db)
    ensures Keyed(DesiredCatalog(db))
  {
  }

  /** A page leaves, for each identity it lists, the text the joined read asks for. */
  lemma PageText(p: Policy, c: Candidate, limit: nat, id: DocumentId)
    requires Consistent(p) && IndexSound(p, c.index)
    ensures IndexSound(p, Paged(p, c, limit))
    ensures TextAt(Paged(p, c, limit), id) ==
            if id in PageIds(DesiredCatalog(c.db), c.cursor, limit) then WantedAt(p, DesiredCatalog(c.db), id)
            else TextAt(c.index, id)
  {
    DesiredKeyed(c.db);
    hide DesiredCatalog;
    var ids := PageIds(DesiredCatalog(c.db), c.cursor, limit);
    var docs := CatalogPage(DesiredCatalog(c.db), c.cursor, limit);
    PageLists(DesiredCatalog(c.db), c.cursor, limit);
    UpsertAllText(p, c.index, docs);
    if id in ids {
      var i :| 0 <= i < |ids| && ids[i] == id;
      assert DocId(docs[i]) == id;
    } else {
      forall i | 0 <= i < |docs| ensures DocId(docs[i]) != id {
        assert DocId(docs[i]) == ids[i] && ids[i] in ids;
      }
      UntouchedFind(p, c.index, docs, id);
      assert R.Find(Paged(p, c, limit), id) == R.Find(c.index, id);
    }
  }

  /** Nothing on a page lies beyond its last identity, and all of it beyond the cursor. */
  lemma PageWithin(catalog: map<DocumentId, Document>, cursor: Option<DocumentId>, limit: nat, id: DocumentId)
    requires Keyed(catalog) && id in PageIds(catalog, cursor, limit)
    ensures var ids := PageIds(catalog, cursor, limit);
      ids != [] && !Beyond(Some(ids[|ids| - 1]), id) && Beyond(cursor, id)
  {
    PageLists(catalog, cursor, limit);
    var ids := PageIds(catalog, cursor, limit);
    var i :| 0 <= i < |ids| && ids[i] == id;
  }

  /** What a nonempty page skipped is not in the catalog; an empty page skipped nothing. */
  lemma SkippedAreAbsent(catalog: map<DocumentId, Document>, cursor: Option<DocumentId>, limit: nat, id: DocumentId)
    requires limit > 0 && Beyond(cursor, id) && id !in PageIds(catalog, cursor, limit)
    requires var ids := PageIds(catalog, cursor, limit); ids == [] || !Beyond(Some(ids[|ids| - 1]), id)
    ensures id !in catalog
  {
    var ids := PageIds(catalog, cursor, limit);
    AscendingEnumerates(KeysAfter(catalog, cursor));
    if ids == [] {
      EmptyPageIsEnd(catalog, cursor, limit);
      assert id !in KeysAfter(catalog, cursor);
    } else {
      PageSplits(catalog, cursor, limit);
      AscendingEnumerates(KeysAfter(catalog, Some(ids[|ids| - 1])));
      assert id !in KeysAfter(catalog, Some(ids[|ids| - 1]));
      assert id !in KeysAfter(catalog, cursor);
    }
  }

  /** One identity across a page, checkpointed or lost: settled exactly when its page entry is harmless. */
  lemma PagedId(p: Policy, c: Candidate, limit: nat, id: DocumentId)
    requires Consistent(p) && Sound(c.db) && IndexSound(p, c.index)
    requires !c.complete && limit > 0 && Settled(p, c, id)
    ensures var listed := id in PageIds(DesiredCatalog(c.db), c.cursor, limit);
      && (Settled(p, CandidateNext(p, c, PageCommitted(limit)), id) <==> listed ==> Harmless(p, c, id, false))
      && (Settled(p, CandidateNext(p, c, PageCommittedThenCrash(limit)), id) <==> listed ==> Harmless(p, c, id, true))
  {
    hide Sound, UpsertAll, DesiredCatalog, LastProjected, CatalogPage, PageIds, RowsAfter, R.LastWrite, IndexSound,
      Paged, Wanted, Consistent, Keyed;
    DesiredKeyed(c.db);
    SameListing(c.db);
    PageText(p, c, limit, id);
    var ids := PageIds(DesiredCatalog(c.db), c.cursor, limit);
    if id in ids {
      PageWithin(DesiredCatalog(c.db), c.cursor, limit, id);
    } else if Beyond(c.cursor, id) && (ids == [] || !Beyond(Some(ids[|ids| - 1]), id)) {
      SkippedAreAbsent(DesiredCatalog(c.db), c.cursor, limit, id);
    }
    if ids == [] {
      NothingPaged(p, c, limit);
    }
  }

  lemma NothingPaged(p: Policy, c: Candidate, limit: nat)
    requires PageIds(DesiredCatalog(c.db), c.cursor, limit) == []
    ensures Paged(p, c, limit) == c.index
  {
    assert CatalogPage(DesiredCatalog(c.db), c.cursor, limit) == [];
  }

  /** A page keeps the candidate sound exactly when each identity it lists is harmless. */
  lemma PageKeepsExactly(p: Policy, c: Candidate, limit: nat)
    requires Consistent(p) && CandidateSound(p, c) && !c.complete && limit > 0
    ensures CandidateSound(p, CandidateNext(p, c, PageCommitted(limit))) <==> PageHarmless(p, c, limit, false)
    ensures CandidateSound(p, CandidateNext(p, c, PageCommittedThenCrash(limit))) <==> PageHarmless(p, c, limit, true)
  {
    hide Sound, IndexSound, Settled, Paged, Consistent, DesiredCatalog, Harmless, PageIds;
    var next := CandidateNext(p, c, PageCommitted(limit));
    var crashed := CandidateNext(p, c, PageCommittedThenCrash(limit));
    PageText(p, c, limit, 0);
    forall id
      ensures PendingCurrent(next, id) && PendingCurrent(crashed, id)
      ensures var listed := id in PageIds(DesiredCatalog(c.db), c.cursor, limit);
        && (Settled(p, next, id) <==> listed ==> Harmless(p, c, id, false))
        && (Settled(p, crashed, id) <==> listed ==> Harmless(p, c, id, true))
    {
      assert Settled(p, c, id) && PendingCurrent(c, id);
      PagedId(p, c, limit, id);
    }
  }

  /** A page whose documents all show the availability they were projected with is harmless. */
  lemma CurrentPageHarmless(p: Policy, c: Candidate, limit: nat, lost: bool)
    requires Sound(c.db)
    requires forall id :: id in PageIds(DesiredCatalog(c.db), c.cursor, limit) ==> AvailabilityCurrent(c.db, id)
    ensures PageHarmless(p, c, limit, lost)
  {
    SameListing(c.db);
    forall id | id in PageIds(DesiredCatalog(c.db), c.cursor, limit) ensures Harmless(p, c, id, lost) {
      JoinedRowEquals(c.db, id);
    }
  }

  lemma RegisterKeepsSettled(p: Policy, c: Candidate, generation: nat)
    requires CandidateSound(p, c)
    ensures CandidateSound(p, CandidateNext(p, c, Register(generation)))
  {
    var next := CandidateNext(p, c, Register(generation));
    if next.db != c.db {
      AcknowledgeKeeps(c.db, CONTENT_SCHEMA_ID, c.target, generation);
      ConsumersOnly(c.db, next.db);
      SameDocsSameProjected(c.db, next.db);
      forall id ensures Settled(p, next, id) && PendingCurrent(next, id) {
        assert Settled(p, c, id) && PendingCurrent(c, id);
      }
    }
  }

  /** An acknowledged batch: accepted, sound, and followed by exactly the rest of the unread rows. */
  lemma AckedBatch(db: Db, consumer: string, limit: nat, generation: nat)
    requires Sound(db) && consumer in db.consumers && NextBatch(db, consumer, limit) != []
    ensures var rows := NextBatch(db, consumer, limit);
      var r := Acknowledge(db, consumer, rows[|rows| - 1].sequence, generation);
      && r.Ok? && Sound(r.value) && r.value == db.(consumers := r.value.consumers) && consumer in r.value.consumers
      && Retained(r.value, r.value.consumers[consumer].lastSequence)
      && Unread(db, consumer) == rows + Unread(r.value, consumer)
  {
    hide Sound, LatestSequence, R.WellIdentified, R.Run, CatchesUp, Consecutive, RowsAfter, ReadOutbox;
    var rows := NextBatch(db, consumer, limit);
    BatchFacts(db, consumer, map[], limit, generation);
    SoundParts(db);
    BatchOfUnread(db, consumer, limit);
    UnreadAdvances(db.outbox, db.sequenceMark, db.consumers[consumer].lastSequence, |rows|);
  }

  /** Acknowledging a batch splits the pending rows after it. */
  lemma BatchSplits(p: Policy, c: Candidate, limit: nat, generation: nat)
    requires Sound(c.db) && CONTENT_SCHEMA_ID in c.db.consumers && NextBatch(c.db, CONTENT_SCHEMA_ID, limit) != []
    ensures var rows := NextBatch(c.db, CONTENT_SCHEMA_ID, limit);
      var next := CandidateNext(p, c, BatchAcknowledged(limit, generation));
      && Sound(next.db) && Retained(next.db, Position(next)) && Pending(c) == rows + Pending(next)
      && LastProjected(next.db) == LastProjected(c.db)
  {
    hide Sound, Acknowledge, Delta, LastProjected, RowsAfter, NextBatch, Retained;
    AckedBatch(c.db, CONTENT_SCHEMA_ID, limit, generation);
    SameDocsSameProjected(c.db, CandidateNext(p, c, BatchAcknowledged(limit, generation)).db);
  }

  lemma BatchKeepsSettled(p: Policy, c: Candidate, limit: nat, generation: nat)
    requires Consistent(p) && CandidateSound(p, c)
    ensures CandidateSound(p, CandidateNext(p, c, BatchAcknowledged(limit, generation)))
  {
    hide Sound, LatestSequence, Delta, LastProjected, IndexSound, Settled, PendingCurrent, Consistent, Pending;
    if CONTENT_SCHEMA_ID in c.db.consumers && NextBatch(c.db, CONTENT_SCHEMA_ID, limit) != [] {
      var rows := NextBatch(c.db, CONTENT_SCHEMA_ID, limit);
      var next := CandidateNext(p, c, BatchAcknowledged(limit, generation));
      BatchSplits(p, c, limit, generation);
      DeltaText(p, c.index, rows, 0);
      forall id ensures Settled(p, next, id) && PendingCurrent(next, id) {
        assert Settled(p, c, id) && PendingCurrent(c, id);
        AcknowledgedId(p, c, next, rows, id);
      }
    }
  }

  /** One identity across an acknowledged batch: its last mutation was applied, or is still due. */
  lemma AcknowledgedId(p: Policy, c: Candidate, next: Candidate, rows: seq<SequencedMutation>, id: DocumentId)
    requires Consistent(p) && IndexSound(p, c.index) && Settled(p, c, id) && PendingCurrent(c, id)
    requires next.index == Delta(p, c.index, rows) && next.cursor == c.cursor && next.complete == c.complete
    requires Pending(c) == rows + Pending(next) && LastProjected(next.db) == LastProjected(c.db)
    ensures Settled(p, next, id) && PendingCurrent(next, id)
  {
    hide Delta, LastProjected;
    DeltaText(p, c.index, rows, id);
    R.LastWriteConcat(rows, Pending(next), id);
  }

  /** One identity across a batch whose acknowledgement is lost: it will be applied again. */
  lemma LostId(p: Policy, c: Candidate, rows: seq<SequencedMutation>, id: DocumentId)
    requires Consistent(p) && IndexSound(p, c.index) && Settled(p, c, id) && rows <= Pending(c)
    ensures Settled(p, c.(index := Delta(p, c.index, rows)), id)
  {
    hide Delta, LastProjected;
    var rest := Pending(c)[|rows|..];
    assert Pending(c) == rows + rest;
    DeltaText(p, c.index, rows, id);
    R.LastWriteConcat(rows, rest, id);
  }

  lemma LostBatchKeepsSettled(p: Policy, c: Candidate, limit: nat)
    requires Consistent(p) && CandidateSound(p, c)
    ensures CandidateSound(p, CandidateNext(p, c, BatchThenCrash(limit)))
  {
    hide Sound, Delta, LastProjected, IndexSound, Settled, Consistent, OutboxSound;
    if CONTENT_SCHEMA_ID in c.db.consumers {
      var rows := NextBatch(c.db, CONTENT_SCHEMA_ID, limit);
      var next := CandidateNext(p, c, BatchThenCrash(limit));
      SoundParts(c.db);
      BatchOfUnread(c.db, CONTENT_SCHEMA_ID, limit);
      DeltaText(p, c.index, rows, 0);
      forall id ensures Settled(p, next, id) && PendingCurrent(next, id) {
        assert Settled(p, c, id) && PendingCurrent(c, id);
        LostId(p, c, rows, id);
      }
    }
  }

  lemma CandidateStepKeeps(p: Policy, c: Candidate, step: CandidateStep)
    requires Consistent(p) && CandidateSound(p, c) && Undisturbed(p, c, step)
    ensures CandidateSound(p, CandidateNext(p, c, step))
  {
    hide CandidateSound, PageHarmless;
    match step {
      case GraphMoves(g) => GraphKeepsSettled(p, c, g);
      case PageCommitted(limit) =>
        if !c.complete && limit > 0 {
          PageKeepsExactly(p, c, limit);
        }
      case PageCommittedThenCrash(limit) =>
        if !c.complete && limit > 0 {
          PageKeepsExactly(p, c, limit);
        }
      case Register(generation) => RegisterKeepsSettled(p, c, generation);
      case BatchAcknowledged(limit, generation) => BatchKeepsSettled(p, c, limit, generation);
      case BatchThenCrash(limit) => LostBatchKeepsSettled(p, c, limit);
    }
  }

  ghost function CandidateAfter(p: Policy, c: Candidate, steps: seq<CandidateStep>): Candidate {
    if steps == [] then c else CandidateNext(p, CandidateAfter(p, c, steps[..|steps| - 1]), steps[|steps| - 1])
  }

  ghost predicate UndisturbedRun(p: Policy, c: Candidate, steps: seq<CandidateStep>) {
    forall i :: 0 <= i < |steps| ==> Undisturbed(p, CandidateAfter(p, c, steps[..i]), steps[i])
  }

  lemma {:induction false} CandidateRunKeeps(p: Policy, c: Candidate, steps: seq<CandidateStep>)
    requires Consistent(p) && CandidateSound(p, c) && UndisturbedRun(p, c, steps)
    ensures CandidateSound(p, CandidateAfter(p, c, steps))
  {
    hide CandidateSound;
    if steps != [] {
      var front := steps[..|steps| - 1];
      forall i | 0 <= i < |front| ensures Undisturbed(p, CandidateAfter(p, c, front[..i]), front[i]) {
        assert front[..i] == steps[..i];
      }
      CandidateRunKeeps(p, c, front);
      CandidateStepKeeps(p, CandidateAfter(p, c, front), steps[|steps| - 1]);
    }
  }

  /** A new candidate records the latest sequence before it reads its first page. */
  ghost function NewCandidate(db: Db): Candidate {
    Candidate(db, LatestSequence(db), map[], None, false)
  }

  lemma NewCandidateSound(p: Policy, db: Db)
    requires Sound(db) && CONTENT_SCHEMA_ID !in db.consumers
    ensures CandidateSound(p, NewCandidate(db))
  {
    LatestIsMark(db);
    ContiguousSplit(db.outbox, db.sequenceMark, db.sequenceMark);
    var c := NewCandidate(db);
    assert Pending(c) == [];
    forall id ensures Settled(p, c, id) && PendingCurrent(c, id) {}
  }

  /**
   * The fuzzy snapshot is sound: pages read at different times while the catalog moves, with any
   * crashes, then caught up in coalesced batches from the captured sequence, end with exactly the
   * texts of the documents that are eligible now.
   */
  lemma FuzzySnapshotExact(p: Policy, db: Db, steps: seq<CandidateStep>)
    requires Consistent(p) && Sound(db) && CONTENT_SCHEMA_ID !in db.consumers
    requires UndisturbedRun(p, NewCandidate(db), steps)
    ensures var c := CandidateAfter(p, NewCandidate(db), steps);
      && IndexSound(p, c.index)
      && (c.complete && Position(c) == c.db.sequenceMark ==>
           && (forall id :: TextAt(c.index, id) == WantedAt(p, LastProjected(c.db), id))
           && (AllCurrent(c.db) ==> forall id :: TextAt(c.index, id) == WantedAt(p, DesiredCatalog(c.db), id)))
  {
    NewCandidateSound(p, db);
    CandidateRunKeeps(p, NewCandidate(db), steps);
    var c := CandidateAfter(p, NewCandidate(db), steps);
    if c.complete && Position(c) == c.db.sequenceMark {
      ContiguousSplit(c.db.outbox, c.db.sequenceMark, c.db.sequenceMark);
      assert Pending(c) == [];
      forall id ensures TextAt(c.index, id) == WantedAt(p, LastProjected(c.db), id) {
        assert Settled(p, c, id);
      }
      if AllCurrent(c.db) {
        JoinedEqualsProjected(c.db);
      }
    }
  }

  /** The document is an online file of a listed extension and size that still leads to its text. */
  ghost predicate Holds(p: Policy, d: Document, text: string) {
    && d.content.metadata.kind == File && d.content.metadata.availability == Online
    && d.content.metadata.size <= p.maxBytes
    && (exists e :: d.content.extension == Some(e) && e in p.extensions)
    && p.resolves(d) && p.text(d) == Some(text)
  }

  /** An index with the texts that a catalog asks for holds those of the eligible documents and no other. */
  lemma WantedMeansEligible(p: Policy, ix: ContentIndex, catalog: R.Index, id: DocumentId, text: string)
    requires TextAt(ix, id) == WantedAt(p, catalog, id)
    ensures (id in ix && ix[id].text == text) <==> (id in catalog && Holds(p, catalog[id], text))
  {
    if id in catalog && catalog[id].content.extension.Some? {
      var e := catalog[id].content.extension.value;
      assert catalog[id].content.extension == Some(e);
    }
  }

  // ----- What a builder's pages make of a candidate

  predicate ReadsPage(step: CandidateStep) {
    step.PageCommitted? || step.PageCommittedThenCrash?
  }

  ghost predicate PageSteps(steps: seq<CandidateStep>) {
    forall i :: 0 <= i < |steps| ==> ReadsPage(steps[i])
  }

  /** Some pages, checkpointed or lost, lead from one candidate to another. */
  ghost predicate PagesLead(p: Policy, from: Candidate, to: Candidate) {
    exists steps :: PageSteps(steps) && to == CandidateAfter(p, from, steps)
  }

  lemma NoPageLeads(p: Policy, c: Candidate)
    ensures PagesLead(p, c, c)
  {
    assert PageSteps([]) && c == CandidateAfter(p, c, []);
  }

  lemma OneMorePage(p: Policy, from: Candidate, to: Candidate, step: CandidateStep)
    requires PagesLead(p, from, to) && ReadsPage(step)
    ensures PagesLead(p, from, CandidateNext(p, to, step))
  {
    var steps :| PageSteps(steps) && to == CandidateAfter(p, from, steps);
    var more := steps + [step];
    assert more[..|more| - 1] == steps;
    assert PageSteps(more) && CandidateNext(p, to, step) == CandidateAfter(p, from, more);
  }

  lemma {:induction false} RunOn(p: Policy, c: Candidate, first: seq<CandidateStep>, second: seq<CandidateStep>)
    ensures CandidateAfter(p, c, first + second) == CandidateAfter(p, CandidateAfter(p, c, first), second)
  {
    hide CandidateNext;
    if second == [] {
      assert first + second == first;
    } else {
      RunOn(p, c, first, second[..|second| - 1]);
      assert (first + second)[..|first + second| - 1] == first + second[..|second| - 1];
    }
  }

  lemma PagesLeadOn(p: Policy, from: Candidate, via: Candidate, to: Candidate)
    requires PagesLead(p, from, via) && PagesLead(p, via, to)
    ensures PagesLead(p, from, to)
  {
    var first :| PageSteps(first) && via == CandidateAfter(p, from, first);
    var second :| PageSteps(second) && to == CandidateAfter(p, via, second);
    RunOn(p, from, first, second);
    assert PageSteps(first + second);
  }
}
