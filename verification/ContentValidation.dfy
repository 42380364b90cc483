/** What the activation count check accepts when the catalog moves between the pages of a build. */
module ContentValidation {
  import opened Core
  import opened GraphSpec
  import opened GraphStore
  import R = Replay
  import opened ProjectionWorkers
  import opened ContentDelta
  import opened ContentGeneration

  /** One page over the catalog of its moment; `crash` loses its checkpoint. */
  datatype Round = Round(catalog: R.Index, batch: nat, crash: bool)

  ghost function AfterRound(p: Policy, maximum: nat, b: Build, r: Round): Build {
    Attempted(p, r.catalog, maximum, b, Attempt(r.batch, r.crash))
  }

  ghost function AfterRounds(p: Policy, maximum: nat, rounds: seq<Round>): Build {
    if rounds == [] then EMPTY_BUILD
    else AfterRound(p, maximum, AfterRounds(p, maximum, rounds[..|rounds| - 1]), rounds[|rounds| - 1])
  }

  ghost function IdsOfRound(maximum: nat, b: Build, r: Round): seq<DocumentId> {
    PageIds(r.catalog, b.cursor, PageLimit(maximum, b.projected, r.batch))
  }

  // ----- The page, identity by identity

  /** The documents a page counts: new ones and those found unchanged. */
  predicate Counts(p: Policy, ix: ContentIndex, d: Document) {
    var verdict := Judge(p, R.Find(ix, DocId(d)), d);
    verdict.Unchanged? || (verdict.Rewrite? && DocId(d) !in ix)
  }

  ghost function CountedIds(p: Policy, ix: ContentIndex, docs: seq<Document>): set<DocumentId> {
    set d | d in docs && Counts(p, ix, d) :: DocId(d)
  }

  lemma CountedOneMore(p: Policy, ix: ContentIndex, docs: seq<Document>)
    requires docs != []
    ensures var n := |docs| - 1;
      CountedIds(p, ix, docs) ==
        CountedIds(p, ix, docs[..n]) + (if Counts(p, ix, docs[n]) then {DocId(docs[n])} else {})
  {
    hide Counts;
    var n := |docs| - 1;
    assert docs == docs[..n] + [docs[n]];
  }

  lemma CountsOne(p: Policy, ix: ContentIndex, d: Document, s: Summary)
    ensures var t := Counted(p, ix, d, s); t.added + t.same == s.added + s.same + (if Counts(p, ix, d) then 1 else 0)
  {
    hide Judge;
  }

  lemma CountedAmong(p: Policy, ix: ContentIndex, docs: seq<Document>)
    ensures forall id :: id in CountedIds(p, ix, docs) ==> exists i :: 0 <= i < |docs| && DocId(docs[i]) == id
  {
    hide Counts;
  }

  lemma {:induction false} CountedSize(p: Policy, ix: ContentIndex, docs: seq<Document>)
    requires DistinctIds(docs, [])
    ensures CountAll(p, ix, docs).added + CountAll(p, ix, docs).same == |CountedIds(p, ix, docs)|
  {
    hide Counts, Counted, CountedIds;
    if docs == [] {
      CountedAmong(p, ix, docs);
      assert CountedIds(p, ix, docs) == {};
    } else {
      var n := |docs| - 1;
      CountedSize(p, ix, docs[..n]);
      CountsOne(p, ix, docs[n], CountAll(p, ix, docs[..n]));
      CountedOneMore(p, ix, docs);
      CountedAmong(p, ix, docs[..n]);
    }
  }

  /** Whether an entry survives a page: as before if unlisted, unless dropped if listed. */
  lemma {:induction false} SurvivesPage(p: Policy, ix: ContentIndex, docs: seq<Document>, i: nat)
    requires DistinctIds(docs, []) && i < |docs|
    ensures DocId(docs[i]) in UpsertAll(p, ix, docs) <==>
      var verdict := Judge(p, R.Find(ix, DocId(docs[i])), docs[i]);
      !verdict.Drop? && (verdict.Rewrite? || DocId(docs[i]) in ix)
  {
    var n := |docs| - 1;
    if i < n {
      SurvivesPage(p, ix, docs[..n], i);
      assert DocId(docs[i]) != DocId(docs[n]);
    } else {
      UntouchedFind(p, ix, docs[..n], DocId(docs[n]));
      assert R.Find(UpsertAll(p, ix, docs[..n]), DocId(docs[n])) == R.Find(ix, DocId(docs[n]));
    }
  }

  // ----- Agreement of a page with what a lost one left behind

  /** Entries up to the checkpoint; the others were left by pages whose checkpoint was lost. */
  ghost function Behind(b: Build): set<DocumentId> {
    set id | id in b.index && !Beyond(b.cursor, id)
  }

  /** Entries of an index between two checkpoints. */
  ghost function Between(ix: ContentIndex, cursor: Option<DocumentId>, last: DocumentId): set<DocumentId> {
    set id | id in ix && Beyond(cursor, id) && id <= last
  }

  /**
   * The replay of a page agrees with the entries it finds: each is listed again, and is dropped or
   * found unchanged.
   */
  ghost predicate Agrees(p: Policy, maximum: nat, b: Build, r: Round) {
    var ids := IdsOfRound(maximum, b, r);
    !r.crash && ids != [] ==>
      forall id :: id in Between(b.index, b.cursor, ids[|ids| - 1]) ==>
        id in ids && var verdict := Judge(p, Some(b.index[id]), r.catalog[id]); verdict.Drop? || verdict.Unchanged?
  }

  /** A listed entry is dropped or found unchanged. */
  ghost predicate ListedAgrees(p: Policy, ix: ContentIndex, catalog: R.Index, id: DocumentId) {
    id in ix && id in catalog ==>
      var verdict := Judge(p, Some(ix[id]), catalog[id]); verdict.Drop? || verdict.Unchanged?
  }

  lemma CountedIsListed(
    p: Policy, ix: ContentIndex, catalog: R.Index, ids: seq<DocumentId>, docs: seq<Document>, id: DocumentId)
    requires Keyed(catalog) && ListsCatalog(catalog, ids, docs)
    ensures id in CountedIds(p, ix, docs) <==> id in ids && Counts(p, ix, catalog[id])
  {
    hide Counts;
    forall i | 0 <= i < |ids| ensures docs[i] in docs && DocId(docs[i]) == ids[i] && ids[i] in ids {}
    if id in ids {
      var i :| 0 <= i < |ids| && ids[i] == id;
      assert docs[i] == catalog[id];
    }
    forall d | d in docs ensures DocId(d) in ids && d == catalog[DocId(d)] {
      var i :| 0 <= i < |docs| && docs[i] == d;
    }
  }

  /** One identity across a page: an uncounted entry is one the page found and does not agree with. */
  lemma EntryAcrossPage(
    p: Policy, ix: ContentIndex, catalog: R.Index, cursor: Option<DocumentId>, ids: seq<DocumentId>,
    docs: seq<Document>, id: DocumentId)
    requires Keyed(catalog) && ListsCatalog(catalog, ids, docs) && DistinctIds(docs, []) && ids != []
    requires forall x :: x in ids ==> Beyond(cursor, x)
    ensures var entries := Between(UpsertAll(p, ix, docs), cursor, ids[|ids| - 1]);
      && (id in CountedIds(p, ix, docs) ==> id in entries)
      && (id in entries && id !in CountedIds(p, ix, docs) <==>
           id in Between(ix, cursor, ids[|ids| - 1]) && !(id in ids && ListedAgrees(p, ix, catalog, id)))
  {
    CountedIsListed(p, ix, catalog, ids, docs, id);
    if id in ids {
      var i :| 0 <= i < |ids| && ids[i] == id;
      SurvivesPage(p, ix, docs, i);
    } else {
      forall i | 0 <= i < |docs| ensures DocId(docs[i]) != id {
        assert DocId(docs[i]) == ids[i] && ids[i] in ids;
      }
      UntouchedFind(p, ix, docs, id);
      assert R.Find(UpsertAll(p, ix, docs), id) == R.Find(ix, id);
    }
  }

  /** What one nonempty page counts lies between the checkpoints; it is all of it when the page agrees. */
  lemma PageCountsExactly(p: Policy, maximum: nat, b: Build, r: Round)
    requires Keyed(r.catalog) && !r.crash && IdsOfRound(maximum, b, r) != []
    ensures var ids := IdsOfRound(maximum, b, r);
      var docs := CatalogPage(r.catalog, b.cursor, PageLimit(maximum, b.projected, r.batch));
      var entries := Between(UpsertAll(p, b.index, docs), b.cursor, ids[|ids| - 1]);
      && CountedIds(p, b.index, docs) <= entries
      && (CountedIds(p, b.index, docs) == entries <==> Agrees(p, maximum, b, r))
  {
    var limit := PageLimit(maximum, b.projected, r.batch);
    var ids := IdsOfRound(maximum, b, r);
    var docs := CatalogPage(r.catalog, b.cursor, limit);
    PageLists(r.catalog, b.cursor, limit);
    hide UpsertAll, CatalogPage, PageIds, Judge, CountedIds, Between, Keyed, ListsCatalog, DistinctIds;
    var entries := Between(UpsertAll(p, b.index, docs), b.cursor, ids[|ids| - 1]);
    var counted := CountedIds(p, b.index, docs);
    var found := Between(b.index, b.cursor, ids[|ids| - 1]);
    forall id
      ensures id in counted ==> id in entries
      ensures id in entries && id !in counted <==>
        id in found && !(id in ids && ListedAgrees(p, b.index, r.catalog, id))
    {
      EntryAcrossPage(p, b.index, r.catalog, b.cursor, ids, docs, id);
    }
    AgreesListed(p, maximum, b, r);
  }

  lemma AgreesListed(p: Policy, maximum: nat, b: Build, r: Round)
    requires !r.crash && IdsOfRound(maximum, b, r) != []
    ensures var ids := IdsOfRound(maximum, b, r);
      Agrees(p, maximum, b, r) <==>
        forall id :: id in Between(b.index, b.cursor, ids[|ids| - 1]) ==>
          id in ids && ListedAgrees(p, b.index, r.catalog, id)
  {
  }

  // ----- Whole builds

  ghost function CountGap(b: Build): int {
    |Behind(b)| - b.projected
  }

  lemma CrashKeepsBehind(p: Policy, maximum: nat, b: Build, r: Round)
    requires Keyed(r.catalog) && r.crash
    ensures Behind(AfterRound(p, maximum, b, r)) == Behind(b) && AfterRound(p, maximum, b, r).projected == b.projected
  {
    var limit := PageLimit(maximum, b.projected, r.batch);
    if IdsOfRound(maximum, b, r) != [] {
      var docs := CatalogPage(r.catalog, b.cursor, limit);
      PageLists(r.catalog, b.cursor, limit);
      forall id | !Beyond(b.cursor, id) ensures id in UpsertAll(p, b.index, docs) <==> id in b.index {
        BehindUntouched(p, b.index, docs, b.cursor, IdsOfRound(maximum, b, r), id);
      }
    }
  }

  lemma BehindUntouched(
    p: Policy, ix: ContentIndex, docs: seq<Document>, cursor: Option<DocumentId>, ids: seq<DocumentId>, id: DocumentId)
    requires |docs| == |ids| && (forall i :: 0 <= i < |docs| ==> DocId(docs[i]) == ids[i])
    requires (forall x :: x in ids ==> Beyond(cursor, x)) && !Beyond(cursor, id)
    ensures id in UpsertAll(p, ix, docs) <==> id in ix
  {
    forall i | 0 <= i < |docs| ensures DocId(docs[i]) != id {
      assert ids[i] in ids;
    }
    UntouchedFind(p, ix, docs, id);
    assert R.Find(UpsertAll(p, ix, docs), id) == R.Find(ix, id);
  }

  /** A checkpointed page: the entries behind the checkpoint grow by those between the two. */
  lemma CheckpointedBehind(p: Policy, maximum: nat, b: Build, r: Round)
    requires Keyed(r.catalog) && !r.crash && IdsOfRound(maximum, b, r) != []
    ensures var ids := IdsOfRound(maximum, b, r);
      var docs := CatalogPage(r.catalog, b.cursor, PageLimit(maximum, b.projected, r.batch));
      var entries := Between(UpsertAll(p, b.index, docs), b.cursor, ids[|ids| - 1]);
      Behind(AfterRound(p, maximum, b, r)) == Behind(b) + entries && Behind(b) !! entries
  {
    var limit := PageLimit(maximum, b.projected, r.batch);
    var ids := IdsOfRound(maximum, b, r);
    var docs := CatalogPage(r.catalog, b.cursor, limit);
    PageLists(r.catalog, b.cursor, limit);
    PageSplits(r.catalog, b.cursor, limit);
    var last := ids[|ids| - 1];
    assert Beyond(b.cursor, last);
    forall id | !Beyond(b.cursor, id) ensures id in UpsertAll(p, b.index, docs) <==> id in b.index {
      BehindUntouched(p, b.index, docs, b.cursor, ids, id);
    }
    hide UpsertAll, CatalogPage, PageIds, Keyed, ListsCatalog, DistinctIds, CountAll;
    var next := AfterRound(p, maximum, b, r);
    assert next.index == UpsertAll(p, b.index, docs) && next.cursor == Some(last);
  }

  /** The gap between entries and count never shrinks, and stays the same exactly when the page agrees. */
  lemma RoundGap(p: Policy, maximum: nat, b: Build, r: Round)
    requires Keyed(r.catalog)
    ensures CountGap(AfterRound(p, maximum, b, r)) >= CountGap(b)
    ensures CountGap(AfterRound(p, maximum, b, r)) == CountGap(b) <==> Agrees(p, maximum, b, r)
  {
    hide UpsertAll, CatalogPage, PageIds, Keyed, CountAll, CountedIds, Between, Behind;
    if r.crash {
      CrashKeepsBehind(p, maximum, b, r);
    } else if IdsOfRound(maximum, b, r) != [] {
      var ids := IdsOfRound(maximum, b, r);
      var docs := CatalogPage(r.catalog, b.cursor, PageLimit(maximum, b.projected, r.batch));
      PageLists(r.catalog, b.cursor, PageLimit(maximum, b.projected, r.batch));
      PageCountsExactly(p, maximum, b, r);
      CountedSize(p, b.index, docs);
      CheckpointedBehind(p, maximum, b, r);
      SubsetSize(CountedIds(p, b.index, docs), Between(UpsertAll(p, b.index, docs), b.cursor, ids[|ids| - 1]));
    }
  }

  ghost predicate AllAgree(p: Policy, maximum: nat, rounds: seq<Round>) {
    forall i :: 0 <= i < |rounds| ==> Agrees(p, maximum, AfterRounds(p, maximum, rounds[..i]), rounds[i])
  }

  lemma {:induction false} RoundsGap(p: Policy, maximum: nat, rounds: seq<Round>)
    requires forall i :: 0 <= i < |rounds| ==> Keyed(rounds[i].catalog)
    ensures CountGap(AfterRounds(p, maximum, rounds)) >= 0
    ensures CountGap(AfterRounds(p, maximum, rounds)) == 0 <==> AllAgree(p, maximum, rounds)
  {
    hide Agrees, AfterRound, CountGap, AllAgree;
    if rounds == [] {
      NothingBuilt(p, maximum);
    } else {
      var front := rounds[..|rounds| - 1];
      RoundsGap(p, maximum, front);
      RoundGap(p, maximum, AfterRounds(p, maximum, front), rounds[|rounds| - 1]);
      AllAgreeFront(p, maximum, rounds);
    }
  }

  lemma NothingBuilt(p: Policy, maximum: nat)
    ensures CountGap(EMPTY_BUILD) == 0 && AllAgree(p, maximum, [])
  {
    assert Behind(EMPTY_BUILD) == {};
  }

  lemma AllAgreeFront(p: Policy, maximum: nat, rounds: seq<Round>)
    requires rounds != []
    ensures var front := rounds[..|rounds| - 1];
      AllAgree(p, maximum, rounds) <==>
        AllAgree(p, maximum, front) && Agrees(p, maximum, AfterRounds(p, maximum, front), rounds[|rounds| - 1])
  {
    hide Agrees, AfterRounds;
    var front := rounds[..|rounds| - 1];
    assert forall i :: 0 <= i < |front| ==> front[..i] == rounds[..i] && front[i] == rounds[i];
  }

  /**
   * Over any moving catalog, any page sizes and any lost checkpoints, the count check passes if and
   * only if every checkpointed page agreed with the entries it found and no entry lies beyond the
   * last checkpoint.
   */
  lemma ValidationExact(p: Policy, maximum: nat, rounds: seq<Round>)
    requires forall i :: 0 <= i < |rounds| ==> Keyed(rounds[i].catalog)
    ensures var b := AfterRounds(p, maximum, rounds);
      |b.index| == b.projected <==> AllAgree(p, maximum, rounds) && forall id :: id in b.index ==> !Beyond(b.cursor, id)
  {
    RoundsGap(p, maximum, rounds);
    var b := AfterRounds(p, maximum, rounds);
    hide AfterRounds, AllAgree;
    assert |b.index| == |b.index.Keys|;
    SubsetSize(Behind(b), b.index.Keys);
    assert Behind(b) == b.index.Keys <==> forall id :: id in b.index ==> !Beyond(b.cursor, id);
  }

  /** One file in two versions with different texts. */
  function Sample(version: nat): Document {
    Document(Content(
      Identity(FileKey(1, 1), 7, 7), "a.txt", "a.txt", Some("txt"),
      Metadata(File, 4, None, Some(version), false, Online)), version)
  }

  function TextOf(d: Document): Option<string> {
    Some(if d.content.metadata.modified == Some(2) then "two" else "one")
  }

  lemma SampleVerdicts(p: Policy)
    requires p == Policy({"txt"}, 10, p.resolves, TextOf) && forall d :: p.resolves(d)
    ensures Consistent(p) && Wanted(p, Sample(2)) == Some("two")
    ensures Judge(p, None, Sample(1)) == Rewrite("one")
    ensures Judge(p, Some(Stored(Sample(1), "one")), Sample(2)) == Rewrite("two")
  {
  }

  lemma PageOfOne(catalog: R.Index, d: Document)
    requires catalog == map[7 := d]
    ensures PageIds(catalog, None, 1) == [7] && CatalogPage(catalog, None, 1) == [d]
  {
    assert KeysAfter(catalog, None) == {7};
    AscendingEnumerates({7});
    assert Ascending({7})[0] in Ascending({7});
  }

  const SAMPLES: Policy := Policy({"txt"}, 10, _ => true, TextOf)
  const LOST: Build := Build(map[7 := Stored(Sample(1), "one")], None, 0)
  const REPLAYED: Build := Build(map[7 := Stored(Sample(2), "two")], Some(7), 0)
  const LOSES: Round := Round(map[7 := Sample(1)], 1, true)
  const REPLAYS: Round := Round(map[7 := Sample(2)], 1, false)

  lemma UpsertOne(p: Policy, ix: ContentIndex, d: Document)
    ensures UpsertAll(p, ix, [d]) == Upserted(p, ix, d) && CountAll(p, ix, [d]) == Counted(p, ix, d, EMPTY_SUMMARY)
  {
    assert [d][..0] == [];
  }

  lemma LosesFirst()
    ensures AfterRound(SAMPLES, 10, EMPTY_BUILD, LOSES) == LOST
  {
    SampleVerdicts(SAMPLES);
    PageOfOne(LOSES.catalog, Sample(1));
    UpsertOne(SAMPLES, map[], Sample(1));
    hide PageIds, CatalogPage, Judge, UpsertAll, CountAll;
    assert Upserted(SAMPLES, map[], Sample(1)) == LOST.index;
  }

  lemma ReplaysSecond()
    ensures AfterRound(SAMPLES, 10, LOST, REPLAYS) == REPLAYED
  {
    SampleVerdicts(SAMPLES);
    PageOfOne(REPLAYS.catalog, Sample(2));
    UpsertOne(SAMPLES, LOST.index, Sample(2));
    hide PageIds, CatalogPage, Judge, UpsertAll, CountAll;
    assert Upserted(SAMPLES, LOST.index, Sample(2)) == REPLAYED.index;
    assert PageLimit(10, 0, 1) == 1;
  }

  /** At the end of its catalog with exactly the right entries, and not counting them. */
  ghost predicate RightButRefused(p: Policy, b: Build, catalog: R.Index) {
    b.index == ExactIndex(p, catalog) && Ascending(KeysAfter(catalog, b.cursor)) == [] && |b.index| != b.projected
  }

  /** A document changed between a lost page and its replay is updated, not counted: validation fails. */
  lemma ReplayedChangeFailsValidation()
    ensures Consistent(SAMPLES) && Keyed(LOSES.catalog) && Keyed(REPLAYS.catalog)
    ensures RightButRefused(SAMPLES, AfterRounds(SAMPLES, 10, [LOSES, REPLAYS]), REPLAYS.catalog)
  {
    hide AfterRound;
    LosesFirst();
    ReplaysSecond();
    var rounds := [LOSES, REPLAYS];
    assert rounds[..1] == [LOSES] && [LOSES][..0] == [];
    assert AfterRounds(SAMPLES, 10, [LOSES]) == LOST;
    assert AfterRounds(SAMPLES, 10, rounds) == REPLAYED;
    SampleVerdicts(SAMPLES);
    assert IsEligible(SAMPLES, REPLAYS.catalog, 7);
    assert ExactIndex(SAMPLES, REPLAYS.catalog) == REPLAYED.index;
    assert KeysAfter(REPLAYS.catalog, Some(7)) == {};
    assert |REPLAYED.index| == 1;
  }
}
