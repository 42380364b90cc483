/** A run that shows why content pages must be read while their documents' availability is current. */
module ContentScenarios {
  import opened Core
  import opened Schema
  import opened GraphSpec
  import opened Catalog
  import opened Outbox
  import opened GraphRuns
  import opened GraphFacts
  import opened GraphStore
  import opened Projector
  import opened ContentDelta
  import opened ContentProjection
  import opened Scenarios

  const TEXTS: Policy := Policy({"txt"}, 10, _ => true, _ => Some("text"))

  lemma TextExtension()
    ensures ExtensionOf(NAME) == Some("txt")
  {
    assert NAME[..4] == "a.tx" && "a.tx"[..3] == "a.t" && "a.t"[..2] == "a.";
    assert LastDot("a.") == Some(1) && LastDot("a.t") == Some(1) && LastDot("a.tx") == Some(1);
    assert NAME[2..] == "txt";
  }

  /** The one file's joined document. */
  function Joined(state: VolumeState): Document {
    Document(ShownContent(Shown(state, Online)), 1)
  }

  ghost predicate HoldsFile(db: Db, state: VolumeState) {
    && VOLUME in db.volumes && db.volumes == map[VOLUME := db.volumes[VOLUME]] && db.volumes[VOLUME].state == state
    && db.objects == map[KEY := ObjectRow(OWN, false, 1)] && db.links == map[LINK := ROW]
    && db.docs == map[LINK := Projected(Online, 1)]
  }

  lemma ReadsFile(db: Db, state: VolumeState)
    requires HoldsFile(db, state)
    ensures DesiredCatalog(db) == map[LINK := Joined(state)]
  {
    assert Joins(db, db.docs[LINK]);
    assert JoinedDocument(db, LINK, db.docs[LINK]) == Joined(state);
    assert DesiredCatalog(db).Keys == {LINK};
  }

  /** An offline document contributes nothing, an online one its text. */
  lemma FileWanted()
    ensures Wanted(TEXTS, Joined(VolumeOffline)) == None && Wanted(TEXTS, Joined(VolumeOnline)) == Some("text")
  {
    TextExtension();
    hide ExtensionOf;
  }

  lemma FirstPageOfOne(catalog: map<DocumentId, Document>, d: Document)
    requires catalog == map[LINK := d]
    ensures PageIds(catalog, None, 1) == [LINK] && CatalogPage(catalog, None, 1) == [d]
    ensures PageIds(catalog, Some(LINK), 1) == []
  {
    assert KeysAfter(catalog, None) == {LINK} && KeysAfter(catalog, Some(LINK)) == {};
    OnlyLink();
  }

  /** The page read while the volume is offline leaves the file out and moves the cursor past it. */
  lemma PagedOffline(c: Candidate)
    requires HoldsFile(c.db, VolumeOffline) && c.index == map[] && c.cursor.None? && !c.complete
    ensures CandidateNext(TEXTS, c, PageCommitted(1)) == c.(cursor := Some(LINK))
    ensures CandidateNext(TEXTS, c.(cursor := Some(LINK)), PageCommitted(1)) ==
      c.(cursor := Some(LINK), complete := true)
  {
    ReadsFile(c.db, VolumeOffline);
    FirstPageOfOne(DesiredCatalog(c.db), Joined(VolumeOffline));
    FileWanted();
    hide DesiredCatalog, PageIds, CatalogPage;
    var docs := [Joined(VolumeOffline)];
    assert docs[..0] == [];
    assert UpsertAll(TEXTS, map[], docs) == Upserted(TEXTS, map[], docs[0]) == map[];
  }

  const OFFLINE: Step := BatchOf([SetVolumeState(VOLUME, VolumeOffline)])
  const ONLINE: Step := BatchOf([SetVolumeState(VOLUME, VolumeOnline)])

  const FLIPPED: seq<CandidateStep> :=
    [GraphMoves(OFFLINE)] + [PageCommitted(1)] + [PageCommitted(1)] + [Register(1)] + [GraphMoves(ONLINE)]
    + [GraphMoves(RefreshVolumeStep(10))]

  /** The states of the run after each step. */
  ghost function Flipped(n: nat): Candidate {
    var logged := [Logs(1, Online, 1)];
    var acked := map[CONTENT_SCHEMA_ID := ConsumerCheckpoint(1, 1)];
    var row := Projected(Online, 1);
    if n == 0 then Candidate(OneFile(VolumeOnline, 1, row, map[], logged, 1, map[]), 1, map[], None, false)
    else if n == 1 then
      Flipped(0).(db := OneFile(VolumeOffline, 2, row, map[VOLUME := VolumeJob(2, None, true)], logged, 1, map[]))
    else if n == 2 then Flipped(1).(cursor := Some(LINK))
    else if n == 3 then Flipped(2).(complete := true)
    else if n == 4 then Flipped(3).(db := Flipped(3).db.(consumers := acked))
    else if n == 5 then
      Flipped(4).(db := OneFile(VolumeOnline, 3, row, map[VOLUME := VolumeJob(3, None, true)], logged, 1, acked))
    else Flipped(5).(db := OneFile(VolumeOnline, 3, row, map[VOLUME := VolumeJob(3, None, false)], logged, 1, acked))
  }

  lemma FlipOffline()
    ensures CandidateNext(TEXTS, Flipped(0), FLIPPED[0]) == Flipped(1)
  {
    hide Next;
    Changed(Flipped(0).db, VolumeOffline);
    var next := Next(Flipped(0).db, OFFLINE);
    assert next.volumes == map[VOLUME := VolumeRow(VolumeOffline, 2)];
    assert next.volumeJobs == map[VOLUME := VolumeJob(2, None, true)] && next.checkpoints == map[VOLUME := PROVIDED];
  }

  lemma FlipRegister()
    ensures CandidateNext(TEXTS, Flipped(3), FLIPPED[3]) == Flipped(4)
  {
    var db := Flipped(3).db;
    LatestIsMark(db);
    assert db.consumers[CONTENT_SCHEMA_ID := ConsumerCheckpoint(1, 1)] ==
      map[CONTENT_SCHEMA_ID := ConsumerCheckpoint(1, 1)];
  }

  lemma FlipOnline()
    ensures CandidateNext(TEXTS, Flipped(4), FLIPPED[4]) == Flipped(5)
  {
    hide Next;
    Changed(Flipped(4).db, VolumeOnline);
    var next := Next(Flipped(4).db, ONLINE);
    assert next.volumes == map[VOLUME := VolumeRow(VolumeOnline, 3)];
    assert next.volumeJobs == map[VOLUME := VolumeJob(3, None, true)] && next.checkpoints == map[VOLUME := PROVIDED];
  }

  /** The refresh finds the document as it was projected, so it logs nothing. */
  lemma FlipRefresh()
    ensures CandidateNext(TEXTS, Flipped(5), FLIPPED[5]) == Flipped(6)
  {
    hide Next;
    var db := Flipped(5).db;
    SyncedShown(db, VolumeOnline, 3, Online, 1);
    Refreshes(db, VolumeOnline, 3, Online, 1);
  }

  lemma FlipPages()
    ensures CandidateNext(TEXTS, Flipped(1), FLIPPED[1]) == Flipped(2)
    ensures CandidateNext(TEXTS, Flipped(2), FLIPPED[2]) == Flipped(3)
  {
    hide CandidateNext;
    PagedOffline(Flipped(1));
  }

  lemma FlipStep(n: nat)
    requires n < |FLIPPED|
    ensures CandidateNext(TEXTS, Flipped(n), FLIPPED[n]) == Flipped(n + 1)
  {
    hide CandidateNext, Flipped;
    FlipOffline();
    FlipPages();
    FlipRegister();
    FlipOnline();
    FlipRefresh();
  }

  lemma {:induction false} FlipRun(n: nat)
    requires n <= |FLIPPED|
    ensures CandidateAfter(TEXTS, Flipped(0), FLIPPED[..n]) == Flipped(n)
  {
    hide CandidateNext, Flipped;
    if n > 0 {
      FlipRun(n - 1);
      FlipStep(n - 1);
      assert FLIPPED[..n][..n - 1] == FLIPPED[..n - 1];
    }
  }

  lemma FlipStart()
    ensures Flipped(0) == NewCandidate(StateAfter(EMPTY_DB, [BatchOf(CREATE)]))
    ensures AdmissibleRun(EMPTY_DB, [BatchOf(CREATE)]) && Sound(Flipped(0).db)
    ensures StateAfter(EMPTY_DB, [BatchOf(CREATE)]) == Flipped(0).db && CONTENT_SCHEMA_ID !in Flipped(0).db.consumers
  {
    Created();
    NoNewConsumers([BatchOf(CREATE)]);
    assert [BatchOf(CREATE)][..0] == [];
    ReachableSound([BatchOf(CREATE)]);
    LatestIsMark(Flipped(0).db);
  }

  /** The graph's own steps are all logged and leave the position retained. */
  lemma FlipUndisturbed(n: nat)
    requires n < |FLIPPED| && FLIPPED[n].GraphMoves?
    ensures Undisturbed(TEXTS, Flipped(n), FLIPPED[n])
  {
    hide Next;
    FlipStep(n);
    assert Next(Flipped(n).db, FLIPPED[n].step) == Flipped(n + 1).db;
  }

  /** Built to the end, caught up and settled, yet without the text of an eligible file. */
  ghost predicate LacksText(c: Candidate) {
    && c.complete && Position(c) == c.db.sequenceMark && AllCurrent(c.db) && NoVolumeRefreshPending(c.db)
    && TextAt(c.index, LINK) == None && WantedAt(TEXTS, DesiredCatalog(c.db), LINK) == Some("text")
  }

  /** Every graph operation of the run meets the premises; only its pages do not. */
  ghost predicate GraphUndisturbed(start: Candidate, moves: seq<CandidateStep>) {
    forall i :: 0 <= i < |moves| && moves[i].GraphMoves? ==>
      Undisturbed(TEXTS, CandidateAfter(TEXTS, start, moves[..i]), moves[i])
  }

  lemma SettledFile(db: Db)
    requires HoldsFile(db, VolumeOnline)
    ensures AllCurrent(db) && WantedAt(TEXTS, DesiredCatalog(db), LINK) == Some("text")
  {
    ReadsFile(db, VolumeOnline);
    FileWanted();
    hide DesiredCatalog, Wanted;
    assert AvailabilityCurrent(db, LINK);
  }

  lemma FlippedLacksText()
    ensures LacksText(Flipped(6)) && Consistent(TEXTS)
  {
    hide DesiredCatalog, Wanted, WantedAt;
    SettledFile(Flipped(6).db);
    assert NoVolumeRefreshPending(Flipped(6).db);
  }

  lemma FlippedUndisturbed()
    ensures GraphUndisturbed(Flipped(0), FLIPPED)
  {
    hide Undisturbed, CandidateAfter, Flipped;
    forall i | 0 <= i < |FLIPPED| && FLIPPED[i].GraphMoves?
      ensures Undisturbed(TEXTS, CandidateAfter(TEXTS, Flipped(0), FLIPPED[..i]), FLIPPED[i])
    {
      FlipRun(i);
      FlipUndisturbed(i);
    }
  }

  lemma FlipEnd()
    ensures CandidateAfter(TEXTS, Flipped(0), FLIPPED) == Flipped(6)
  {
    hide CandidateAfter, Flipped;
    FlipRun(|FLIPPED|);
    assert FLIPPED[..|FLIPPED|] == FLIPPED;
  }

  /** The text is lost by a build that starts in this state and makes these moves. */
  ghost predicate LosesText(db: Db, moves: seq<CandidateStep>) {
    && CONTENT_SCHEMA_ID !in db.consumers && GraphUndisturbed(NewCandidate(db), moves)
    && LacksText(CandidateAfter(TEXTS, NewCandidate(db), moves))
  }

  /**
   * A page read while its document shows another availability than projected can lose the text for
   * good: the volume flips back before the refresh reaches the document, nothing is logged, and the
   * finished, caught-up index lacks a file that is eligible again.
   */
  lemma StalePageLosesText()
    ensures Consistent(TEXTS)
    ensures exists steps, moves :: AdmissibleRun(EMPTY_DB, steps) && LosesText(StateAfter(EMPTY_DB, steps), moves)
  {
    FlipStart();
    hide Flipped, LacksText, GraphUndisturbed, AdmissibleRun, StateAfter, CandidateAfter, NewCandidate, Consistent;
    FlippedLacksText();
    FlippedUndisturbed();
    FlipEnd();
    assert LosesText(StateAfter(EMPTY_DB, [BatchOf(CREATE)]), FLIPPED);
  }
}
