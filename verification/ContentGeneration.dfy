/** A restartable generation over a fixed catalog: pages, replays and the activation count. */
module ContentGeneration {
  import opened Core
  import opened GraphSpec
  import opened GraphStore
  import R = Replay
  import opened ProjectionWorkers
  import opened ContentDelta

  ghost predicate Keyed(catalog: R.Index) {
    forall id :: id in catalog ==> DocId(catalog[id]) == id
  }

  ghost predicate IsEligible(p: Policy, catalog: R.Index, id: DocumentId) {
    id in catalog && Wanted(p, catalog[id]).Some?
  }

  /** Documents that contribute text. */
  ghost function Eligible(p: Policy, catalog: R.Index): set<DocumentId> {
    set id | id in catalog && IsEligible(p, catalog, id)
  }

  /** The index a complete build must hold: every eligible document with its text. */
  ghost function ExactIndex(p: Policy, catalog: R.Index): ContentIndex {
    map id | id in catalog && IsEligible(p, catalog, id) :: Stored(catalog[id], Wanted(p, catalog[id]).value)
  }

  ghost function EligibleThrough(p: Policy, catalog: R.Index, cursor: Option<DocumentId>): set<DocumentId> {
    set id | id in catalog && IsEligible(p, catalog, id) && !Beyond(cursor, id)
  }

  /** Every entry is the exact one for its identity. */
  ghost predicate Accurate(p: Policy, catalog: R.Index, ix: ContentIndex) {
    forall id :: id in ix ==>
      IsEligible(p, catalog, id) && ix[id] == Stored(catalog[id], Wanted(p, catalog[id]).value)
  }

  /**
   * The durable invariant of a candidate. A crash may leave entries beyond the checkpoint, but
   * never a wrong one, and never a gap before it; the count is that of the checkpoint alone.
   */
  ghost predicate Resumable(
    p: Policy, catalog: R.Index, ix: ContentIndex, cursor: Option<DocumentId>, projected: nat) {
    && Accurate(p, catalog, ix)
    && (forall id :: id in EligibleThrough(p, catalog, cursor) ==> id in ix)
    && projected == |EligibleThrough(p, catalog, cursor)|
  }

  lemma NewCandidateResumable(p: Policy, catalog: R.Index)
    ensures Resumable(p, catalog, map[], None, 0)
  {
    assert EligibleThrough(p, catalog, None) == {};
  }

  /** Over an accurate index every document is added, found unchanged or skipped. */
  lemma AccurateVerdict(p: Policy, catalog: R.Index, ix: ContentIndex, id: DocumentId)
    requires Keyed(catalog) && Accurate(p, catalog, ix) && id in catalog
    ensures var d := catalog[id];
      Judge(p, R.Find(ix, id), d) ==
        if !IsEligible(p, catalog, id) then Drop
        else if id in ix then Unchanged else Rewrite(Wanted(p, d).value)
    ensures id in ix ==> IsEligible(p, catalog, id)
  {
  }

  ghost predicate ListsCatalog(catalog: R.Index, ids: seq<DocumentId>, docs: seq<Document>) {
    && |docs| == |ids| && StrictlyAscending(ids)
    && forall i :: 0 <= i < |ids| ==> ids[i] in catalog && docs[i] == catalog[ids[i]]
  }

  ghost function EligibleAmong(p: Policy, catalog: R.Index, ids: seq<DocumentId>): set<DocumentId> {
    set id | id in ids && IsEligible(p, catalog, id)
  }

  /** One more listed identity adds itself if it is eligible, and nothing otherwise. */
  lemma AmongOneMore(p: Policy, catalog: R.Index, ids: seq<DocumentId>)
    requires ids != []
    ensures var n := |ids| - 1;
      EligibleAmong(p, catalog, ids) ==
        EligibleAmong(p, catalog, ids[..n]) + (if IsEligible(p, catalog, ids[n]) then {ids[n]} else {})
  {
    hide IsEligible;
    var n := |ids| - 1;
    assert ids == ids[..n] + [ids[n]];
  }

  /** One upsert over an accurate index. */
  lemma OneAccurate(p: Policy, catalog: R.Index, ix: ContentIndex, id: DocumentId)
    requires Keyed(catalog) && Accurate(p, catalog, ix) && id in catalog
    ensures Accurate(p, catalog, Upserted(p, ix, catalog[id]))
    ensures Upserted(p, ix, catalog[id]).Keys == ix.Keys + (if IsEligible(p, catalog, id) then {id} else {})
  {
    AccurateVerdict(p, catalog, ix, id);
    hide Judge;
  }

  lemma {:induction false} UpsertAccurate(
    p: Policy, catalog: R.Index, ix: ContentIndex, ids: seq<DocumentId>, docs: seq<Document>)
    requires Keyed(catalog) && Accurate(p, catalog, ix) && ListsCatalog(catalog, ids, docs)
    ensures Accurate(p, catalog, UpsertAll(p, ix, docs))
    ensures UpsertAll(p, ix, docs).Keys == ix.Keys + EligibleAmong(p, catalog, ids)
    decreases |docs|
  {
    hide Accurate, Upserted, IsEligible, EligibleAmong, Keyed;
    if docs == [] {
      NoneAmong(p, catalog);
    } else {
      var n := |docs| - 1;
      UpsertAccurate(p, catalog, ix, ids[..n], docs[..n]);
      OneAccurate(p, catalog, UpsertAll(p, ix, docs[..n]), ids[n]);
      AmongOneMore(p, catalog, ids);
    }
  }

  lemma NoneAmong(p: Policy, catalog: R.Index)
    ensures EligibleAmong(p, catalog, []) == {}
  {
  }

  lemma AmongListed(p: Policy, catalog: R.Index, ids: seq<DocumentId>)
    ensures forall id :: id in EligibleAmong(p, catalog, ids) ==> id in ids
  {
  }

  lemma OneCounted(p: Policy, catalog: R.Index, ix: ContentIndex, id: DocumentId, s: Summary)
    requires Keyed(catalog) && Accurate(p, catalog, ix) && id in catalog
    ensures var t := Counted(p, ix, catalog[id], s);
      t.added + t.same == s.added + s.same + (if IsEligible(p, catalog, id) then 1 else 0)
  {
    AccurateVerdict(p, catalog, ix, id);
    hide Judge;
  }

  /** Added plus unchanged counts the eligible documents of a page, replayed or not. */
  lemma {:induction false} PageCount(
    p: Policy, catalog: R.Index, ix: ContentIndex, ids: seq<DocumentId>, docs: seq<Document>)
    requires Keyed(catalog) && Accurate(p, catalog, ix) && ListsCatalog(catalog, ids, docs)
    ensures CountAll(p, ix, docs).added + CountAll(p, ix, docs).same == |EligibleAmong(p, catalog, ids)| <= |ids|
    decreases |docs|
  {
    hide Accurate, Counted, IsEligible, EligibleAmong, Keyed;
    if docs == [] {
      NoneAmong(p, catalog);
    } else {
      var n := |docs| - 1;
      PageCount(p, catalog, ix, ids[..n], docs[..n]);
      OneCounted(p, catalog, ix, ids[n], CountAll(p, ix, docs[..n]));
      AmongOneMore(p, catalog, ids);
      assert ids[n] !in EligibleAmong(p, catalog, ids[..n]) by {
        AmongListed(p, catalog, ids[..n]);
      }
    }
  }

  lemma PageLists(catalog: R.Index, cursor: Option<DocumentId>, limit: nat)
    requires Keyed(catalog)
    ensures ListsCatalog(catalog, PageIds(catalog, cursor, limit), CatalogPage(catalog, cursor, limit))
    ensures DistinctIds(CatalogPage(catalog, cursor, limit), [])
    ensures forall id :: id in PageIds(catalog, cursor, limit) ==> Beyond(cursor, id)
    ensures |PageIds(catalog, cursor, limit)| <= limit
  {
    AscendingEnumerates(KeysAfter(catalog, cursor));
    var ids := PageIds(catalog, cursor, limit);
    forall i | 0 <= i < |ids| ensures ids[i] in KeysAfter(catalog, cursor) {
      assert ids[i] in Ascending(KeysAfter(catalog, cursor));
    }
  }

  /** A page lists exactly the identities between its start and its end. */
  lemma PageCovers(catalog: R.Index, cursor: Option<DocumentId>, limit: nat, id: DocumentId)
    requires Keyed(catalog) && PageIds(catalog, cursor, limit) != [] && id in catalog
    ensures var ids := PageIds(catalog, cursor, limit);
      !Beyond(Some(ids[|ids| - 1]), id) <==> !Beyond(cursor, id) || id in ids
  {
    PageSplits(catalog, cursor, limit);
    var ids := PageIds(catalog, cursor, limit);
    var last := ids[|ids| - 1];
    AscendingEnumerates(KeysAfter(catalog, cursor));
    AscendingEnumerates(KeysAfter(catalog, Some(last)));
    assert id in KeysAfter(catalog, cursor) <==> id in ids || id in KeysAfter(catalog, Some(last));
    if id in ids {
      var i :| 0 <= i < |ids| && ids[i] == id;
    }
  }

  /** The eligible documents up to a page's end are those before it and those it lists. */
  lemma ThroughPage(p: Policy, catalog: R.Index, cursor: Option<DocumentId>, limit: nat)
    requires Keyed(catalog) && PageIds(catalog, cursor, limit) != []
    ensures var ids := PageIds(catalog, cursor, limit);
      && EligibleThrough(p, catalog, Some(ids[|ids| - 1])) ==
        EligibleThrough(p, catalog, cursor) + EligibleAmong(p, catalog, ids)
      && EligibleThrough(p, catalog, cursor) !! EligibleAmong(p, catalog, ids)
  {
    hide Keyed, Wanted, IsEligible;
    PageLists(catalog, cursor, limit);
    var ids := PageIds(catalog, cursor, limit);
    forall id | id in catalog
      ensures !Beyond(Some(ids[|ids| - 1]), id) <==> !Beyond(cursor, id) || id in ids
    {
      PageCovers(catalog, cursor, limit, id);
    }
  }

  /** One page: committed and checkpointed, or committed and lost before its checkpoint. */
  lemma PageKeepsResumable(
    p: Policy, catalog: R.Index, ix: ContentIndex, cursor: Option<DocumentId>, projected: nat, limit: nat)
    requires Keyed(catalog) && Resumable(p, catalog, ix, cursor, projected) && PageIds(catalog, cursor, limit) != []
    ensures var ids := PageIds(catalog, cursor, limit);
      var docs := CatalogPage(catalog, cursor, limit);
      var counted := CountAll(p, ix, docs);
      && Resumable(p, catalog, UpsertAll(p, ix, docs), cursor, projected)
      && Resumable(p, catalog, UpsertAll(p, ix, docs), Some(ids[|ids| - 1]), projected + counted.added + counted.same)
      && counted.added + counted.same <= limit
  {
    var ids := PageIds(catalog, cursor, limit);
    var docs := CatalogPage(catalog, cursor, limit);
    PageLists(catalog, cursor, limit);
    UpsertAccurate(p, catalog, ix, ids, docs);
    PageCount(p, catalog, ix, ids, docs);
    ThroughPage(p, catalog, cursor, limit);
    var next := UpsertAll(p, ix, docs);
    forall id | id in EligibleThrough(p, catalog, Some(ids[|ids| - 1])) ensures id in next {
      assert id in next.Keys;
    }
    forall id | id in EligibleThrough(p, catalog, cursor) ensures id in next {
      assert id in next.Keys;
    }
  }

  /** The same, in terms of the page of documents alone. */
  lemma PageAdvances(
    p: Policy, catalog: R.Index, ix: ContentIndex, cursor: Option<DocumentId>, projected: nat, limit: nat,
    page: seq<Document>)
    requires Keyed(catalog) && Resumable(p, catalog, ix, cursor, projected)
    requires page != [] && page == CatalogPage(catalog, cursor, limit)
    ensures var counted := CountAll(p, ix, page).added + CountAll(p, ix, page).same;
      && DistinctIds(page, []) && counted <= limit
      && Resumable(p, catalog, UpsertAll(p, ix, page), cursor, projected)
      && Resumable(p, catalog, UpsertAll(p, ix, page), Some(DocId(page[|page| - 1])), projected + counted)
      && |page| <= |KeysAfter(catalog, cursor)|
      && |KeysAfter(catalog, Some(DocId(page[|page| - 1])))| + |page| == |KeysAfter(catalog, cursor)|
  {
    PageLists(catalog, cursor, limit);
    PageKeepsResumable(p, catalog, ix, cursor, projected, limit);
    PageSplits(catalog, cursor, limit);
    var ids := PageIds(catalog, cursor, limit);
    AscendingEnumerates(KeysAfter(catalog, cursor));
    AscendingEnumerates(KeysAfter(catalog, Some(ids[|ids| - 1])));
  }

  /** An empty page means the candidate is exact, and its own count says so. */
  lemma ExhaustedIsExact(p: Policy, catalog: R.Index, ix: ContentIndex, cursor: Option<DocumentId>, projected: nat)
    requires Resumable(p, catalog, ix, cursor, projected) && Ascending(KeysAfter(catalog, cursor)) == []
    ensures ix == ExactIndex(p, catalog) && |ix| == projected == |Eligible(p, catalog)|
  {
    AscendingEnumerates(KeysAfter(catalog, cursor));
    assert KeysAfter(catalog, cursor) == {};
    forall id | id in catalog ensures !Beyond(cursor, id) {
      assert id !in KeysAfter(catalog, cursor);
    }
    assert EligibleThrough(p, catalog, cursor) == Eligible(p, catalog);
    assert ix.Keys == Eligible(p, catalog);
    assert |ix| == |ix.Keys|;
  }

  /** A checkpoint never counts more than there is. */
  lemma CountBounded(p: Policy, catalog: R.Index, ix: ContentIndex, cursor: Option<DocumentId>, projected: nat)
    requires Resumable(p, catalog, ix, cursor, projected)
    ensures projected <= |Eligible(p, catalog)|
  {
    var rest := Eligible(p, catalog) - EligibleThrough(p, catalog, cursor);
    assert Eligible(p, catalog) == EligibleThrough(p, catalog, cursor) + rest;
  }

  // ----- Any number of pages and crashes

  datatype Build = Build(index: ContentIndex, cursor: Option<DocumentId>, projected: nat)

  /** One attempt at a page of at most `batch` documents; `crash` loses its checkpoint. */
  datatype Attempt = Attempt(batch: nat, crash: bool)

  function PageLimit(maximum: nat, projected: nat, batch: nat): nat {
    if maximum <= projected then 0 else if maximum - projected < batch then maximum - projected else batch
  }

  ghost function Attempted(p: Policy, catalog: R.Index, maximum: nat, b: Build, a: Attempt): Build {
    var limit := PageLimit(maximum, b.projected, a.batch);
    var ids := PageIds(catalog, b.cursor, limit);
    if ids == [] then b else
      var docs := CatalogPage(catalog, b.cursor, limit);
      var counted := CountAll(p, b.index, docs);
      var index := UpsertAll(p, b.index, docs);
      if a.crash then b.(index := index)
      else Build(index, Some(ids[|ids| - 1]), b.projected + counted.added + counted.same)
  }

  ghost function AfterAttempts(p: Policy, catalog: R.Index, maximum: nat, attempts: seq<Attempt>): Build {
    if attempts == [] then Build(map[], None, 0)
    else
      var prior := AfterAttempts(p, catalog, maximum, attempts[..|attempts| - 1]);
      Attempted(p, catalog, maximum, prior, attempts[|attempts| - 1])
  }

  /** Whatever pages were cut and lost, the count stays within its bound and exhaustion is exact. */
  lemma {:induction false} ResumedBuildExact(p: Policy, catalog: R.Index, maximum: nat, attempts: seq<Attempt>)
    requires Keyed(catalog)
    ensures var b := AfterAttempts(p, catalog, maximum, attempts);
      && Resumable(p, catalog, b.index, b.cursor, b.projected) && b.projected <= maximum
      && (Ascending(KeysAfter(catalog, b.cursor)) == [] ==>
           b.index == ExactIndex(p, catalog) && |b.index| == b.projected == |Eligible(p, catalog)|)
  {
    hide Resumable, UpsertAll, CountAll, ExactIndex, Eligible, Keyed;
    if attempts == [] {
      NewCandidateResumable(p, catalog);
    } else {
      var front, a := attempts[..|attempts| - 1], attempts[|attempts| - 1];
      ResumedBuildExact(p, catalog, maximum, front);
      var prior := AfterAttempts(p, catalog, maximum, front);
      var limit := PageLimit(maximum, prior.projected, a.batch);
      if PageIds(catalog, prior.cursor, limit) != [] {
        PageKeepsResumable(p, catalog, prior.index, prior.cursor, prior.projected, limit);
      }
    }
    var b := AfterAttempts(p, catalog, maximum, attempts);
    if Ascending(KeysAfter(catalog, b.cursor)) == [] {
      ExhaustedIsExact(p, catalog, b.index, b.cursor, b.projected);
    }
  }

  // ----- Whether an undisturbed build completes

  /** The page loop without crashes or disk limits: stop at the document limit or an empty page. */
  ghost predicate Finishes(p: Policy, catalog: R.Index, maximum: nat, batch: nat, b: Build)
    requires Keyed(catalog) && batch > 0 && Resumable(p, catalog, b.index, b.cursor, b.projected)
    decreases |KeysAfter(catalog, b.cursor)|
  {
    if maximum <= b.projected then false else
      var page := CatalogPage(catalog, b.cursor, PageLimit(maximum, b.projected, batch));
      if page == [] then true else
        PageAdvances(p, catalog, b.index, b.cursor, b.projected, PageLimit(maximum, b.projected, batch), page);
        Finishes(p, catalog, maximum, batch, NextBuild(p, b, page))
  }

  /** The candidate after one committed and checkpointed page. */
  ghost function NextBuild(p: Policy, b: Build, page: seq<Document>): Build
    requires page != []
  {
    var counted := CountAll(p, b.index, page);
    Build(UpsertAll(p, b.index, page), Some(DocId(page[|page| - 1])), b.projected + counted.added + counted.same)
  }

  /** A build completes if and only if fewer documents are eligible than the document limit. */
  lemma {:induction false} FinishesExactly(p: Policy, catalog: R.Index, maximum: nat, batch: nat, b: Build)
    requires Keyed(catalog) && batch > 0 && Resumable(p, catalog, b.index, b.cursor, b.projected)
    ensures Finishes(p, catalog, maximum, batch, b) <==> |Eligible(p, catalog)| < maximum
    decreases |KeysAfter(catalog, b.cursor)|
  {
    hide Resumable, Eligible, ExactIndex, CatalogPage, Keyed, CountAll, UpsertAll;
    CountBounded(p, catalog, b.index, b.cursor, b.projected);
    if b.projected < maximum {
      var limit := PageLimit(maximum, b.projected, batch);
      var page := CatalogPage(catalog, b.cursor, limit);
      if page == [] {
        PageEnd(catalog, b.cursor, limit);
        ExhaustedIsExact(p, catalog, b.index, b.cursor, b.projected);
      } else {
        PageAdvances(p, catalog, b.index, b.cursor, b.projected, limit, page);
        FinishesExactly(p, catalog, maximum, batch, NextBuild(p, b, page));
      }
    }
  }

  const EMPTY_BUILD: Build := Build(map[], None, 0)

  /** One eligible document under a limit of one: the build never completes, whatever its batches. */
  lemma FullCatalogNeverFinishes(batch: nat)
    requires batch > 0
    ensures exists p, catalog: R.Index ::
      && Keyed(catalog) && Resumable(p, catalog, map[], None, 0) && |Eligible(p, catalog)| == 1
      && !Finishes(p, catalog, 1, batch, EMPTY_BUILD)
  {
    var p := Policy({"txt"}, 10, _ => true, _ => Some("text"));
    var d := Document(Content(
      Identity(FileKey(1, 1), 7, 7), "a.txt", "a.txt", Some("txt"),
      Metadata(File, 4, None, Some(1), false, Online)), 1);
    var catalog: R.Index := map[7 := d];
    NewCandidateResumable(p, catalog);
    assert IsEligible(p, catalog, 7);
    assert Eligible(p, catalog) == {7};
    FinishesExactly(p, catalog, 1, batch, EMPTY_BUILD);
  }
}
