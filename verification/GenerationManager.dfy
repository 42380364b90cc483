/** Generations beneath one content root: creation, resumption, activation, recovery, collection. */
module GenerationManagers {
  import opened Core
  import opened Schema
  import opened GraphSpec
  import opened GraphStore
  import opened ProjectionWorkers
  import opened ContentDelta
  import opened ContentGeneration
  import C = ContentProjection
  import R = Replay

  const MANAGER_VERSION: nat := 1
  const WRITER_HEAP_BYTES: nat := 32 * 1_048_576

  datatype GenerationId = GenerationId(sequence: nat, created: nat, suffix: nat)

  datatype State = Building | Ready | Active | Retired | Failed

  datatype Capacity = ContentIndexBytes | Documents | FreeDisk

  datatype Record = Record(
    version: nat, state: State, target: nat, roots: seq<string>, cursor: Option<DocumentId>,
    seen: nat, projected: nat, bytes: nat, commits: nat, indexGeneration: nat,
    capacity: Option<Capacity>, updated: nat)

  datatype Limits = Limits(
    indexBytes: nat, documents: nat, freeBytes: nat, freePercent: nat, batch: nat, batches: nat)

  predicate ValidLimits(l: Limits) {
    && l.indexBytes > 0 && l.documents > 0 && l.freePercent <= 50
    && 0 < l.batch <= 10_000 && 0 < l.batches <= 4_096
  }

  /** What the disk reports before one page. */
  datatype Measured = Measured(indexBytes: nat, diskTotal: nat, diskFree: nat)

  function Reserve(m: Measured, l: Limits): nat {
    var share := m.diskTotal * l.freePercent / 100;
    if l.freeBytes < share then share else l.freeBytes
  }

  function DeclaredBytes(p: Policy, d: Document): nat {
    var m := d.content.metadata;
    if m.kind == File && m.availability == Online && m.size <= p.maxBytes
       && d.content.extension.Some? && d.content.extension.value in p.extensions
    then m.size else 0
  }

  function DeclaredTotal(p: Policy, docs: seq<Document>): nat {
    if docs == [] then 0 else DeclaredTotal(p, docs[..|docs| - 1]) + DeclaredBytes(p, docs[|docs| - 1])
  }

  function Forecast(declared: nat, documents: nat): nat {
    declared * 2 + documents * 1_024
  }

  /** Capacity checks made before a page is read. */
  function Exhausted(l: Limits, m: Measured, projected: nat): Option<Capacity> {
    if m.indexBytes >= l.indexBytes then Some(ContentIndexBytes)
    else if projected >= l.documents then Some(Documents)
    else if m.diskFree <= Reserve(m, l) + WRITER_HEAP_BYTES then Some(FreeDisk)
    else None
  }

  /** Capacity checks made once a page's growth is forecast. */
  function Overgrown(l: Limits, m: Measured, growth: nat): Option<Capacity> {
    if m.indexBytes + growth > l.indexBytes then Some(ContentIndexBytes)
    else if m.diskFree <= Reserve(m, l) + growth + WRITER_HEAP_BYTES then Some(FreeDisk)
    else None
  }

  type Records = map<GenerationId, Record>

  ghost function In(records: Records, state: State): set<GenerationId> {
    set g | g in records && records[g].state == state
  }

  /** The active generation is one that passed validation and that no collection may remove. */
  ghost predicate PointerSound(pointer: Option<GenerationId>, records: Records, passed: set<GenerationId>) {
    pointer.Some? ==>
      pointer.value in passed && pointer.value in records && records[pointer.value].state in {Ready, Active}
  }

  /** `doomed` are the retired generations beyond the `retain` most recently updated. */
  ghost predicate BeyondRetention(records: Records, retain: nat, doomed: set<GenerationId>) {
    var retired := In(records, Retired);
    && doomed <= retired
    && |retired - doomed| == (if retain < |retired| then retain else |retired|)
    && NoOlder(records, retired - doomed, doomed)
  }

  ghost predicate NoOlder(records: Records, kept: set<GenerationId>, doomed: set<GenerationId>)
    requires kept <= records.Keys && doomed <= records.Keys
  {
    forall k, d :: k in kept && d in doomed ==> records[k].updated >= records[d].updated
  }

  /** Directories of which only one of record and index is gone. */
  ghost function Halves(records: set<GenerationId>, indexes: set<GenerationId>): nat {
    |(records - indexes) + (indexes - records)|
  }

  lemma MinusMore<V>(m: map<GenerationId, V>, gone: set<GenerationId>, g: GenerationId)
    ensures (m - gone) - {g} == m - (gone + {g})
  {
  }

  lemma OneHalf(records: set<GenerationId>, indexes: set<GenerationId>, g: GenerationId)
    requires records <= indexes + {g} && indexes <= records + {g}
    ensures Halves(records, indexes) <= 1
  {
    assert (records - indexes) + (indexes - records) <= {g};
    assert {g} == ((records - indexes) + (indexes - records)) + ({g} - ((records - indexes) + (indexes - records)));
  }

  lemma RetentionSplit(records: Records, retain: nat, kept: set<GenerationId>, doomed: set<GenerationId>)
    requires kept + doomed == In(records, Retired) && kept !! doomed && NoOlder(records, kept, doomed)
    requires |kept| <= retain && (|kept| == retain || doomed == {})
    ensures BeyondRetention(records, retain, doomed)
  {
    assert In(records, Retired) - doomed == kept;
    assert |In(records, Retired)| == |kept| + |doomed|;
  }

  /** A record left as it was, made active because selected, or retired because no longer selected. */
  ghost predicate Aligned(pointer: Option<GenerationId>, g: GenerationId, before: Record, after: Record, now: nat) {
    || after == before
    || (pointer == Some(g) && after == before.(state := Active, updated := now))
    || (pointer.Some? && pointer != Some(g) && before.state == Active
        && after == before.(state := Retired, updated := now))
  }

  /** Records outside `rest` agree with the selection; those inside are as they were. */
  ghost predicate AlignedBut(
    pointer: Option<GenerationId>, before: Records, after: Records, rest: set<GenerationId>, now: nat)
  {
    && after.Keys == before.Keys && rest <= after.Keys
    && (forall g :: g in rest ==> after[g] == before[g])
    && (forall g :: g in after ==> Aligned(pointer, g, before[g], after[g], now))
    && (forall g :: g in after && g !in rest ==> (after[g].state == Active <==> pointer == Some(g)))
  }

  lemma AlignedMore(
    pointer: Option<GenerationId>, before: Records, mid: Records, after: Records, rest: set<GenerationId>,
    g: GenerationId, now: nat)
    requires AlignedBut(pointer, before, mid, rest, now) && g in rest && after.Keys == mid.Keys
    requires forall h :: h in after && h != g ==> after[h] == mid[h]
    requires Aligned(pointer, g, mid[g], after[g], now)
    ensures forall h :: h in after ==> Aligned(pointer, h, before[h], after[h], now)
    ensures (after[g].state == Active <==> pointer == Some(g)) ==>
      AlignedBut(pointer, before, after, rest - {g}, now)
  {
    hide Aligned;
  }

  lemma AlignedAlready(records: Records, pointer: Option<GenerationId>, now: nat)
    ensures forall g :: g in records ==> Aligned(pointer, g, records[g], records[g], now)
  {
  }

  function Failing(record: Record, now: nat): Record {
    record.(state := Failed, updated := now)
  }

  /** The same snapshot: captured sequence and cursor. */
  predicate Same(a: Record, b: Record) {
    a.target == b.target && a.cursor == b.cursor
  }

  /** Same generation, whatever its transient capacity note. */
  predicate SameProgress(a: Record, b: Record) {
    a.(capacity := None) == b.(capacity := None)
  }

  /** Candidates may have failed; no other record is different. */
  ghost predicate Narrowed(before: Records, after: Records) {
    && after.Keys == before.Keys
    && forall g :: g in after ==>
         || after[g] == before[g]
         || (before[g].state == Building && after[g] == Failing(before[g], after[g].updated))
  }

  /** Records keep the sequence captured when they were created, and no record is new. */
  ghost predicate TargetsStay(before: Records, after: Records) {
    forall g :: g in after ==> g in before && after[g].target == before[g].target
  }

  /** The same of old records; new ones captured this sequence. */
  ghost predicate TargetsFrom(before: Records, after: Records, sequence: nat) {
    forall g :: g in after ==> after[g].target == if g in before then before[g].target else sequence
  }

  lemma TargetsStayThen(a: Records, b: Records, c: Records, sequence: nat)
    requires TargetsStay(b, c)
    ensures TargetsStay(a, b) ==> TargetsStay(a, c)
    ensures TargetsFrom(a, b, sequence) && b.Keys >= a.Keys ==> TargetsFrom(a, c, sequence)
  {
  }

  lemma NarrowedTwice(a: Records, b: Records, c: Records)
    requires Narrowed(a, b) && Narrowed(b, c)
    ensures Narrowed(a, c)
  {
  }

  lemma NarrowedLeaves(before: Records, after: Records)
    requires Narrowed(before, after)
    ensures forall g :: g in after && after[g].state == Building ==> after[g] == before[g]
    ensures forall g :: g in before && before[g].state != Building ==> after[g] == before[g]
    ensures forall g :: g in after ==> after[g].target == before[g].target
  {
  }

  /** The candidate of the fuzzy snapshot that a record and its index stand for. */
  ghost function Stands(db: Db, ix: ContentIndex, record: Record): C.Candidate {
    C.Candidate(db, record.target, ix, record.cursor, false)
  }

  /** Only the number captured at creation, the empty index and an empty cursor. */
  ghost predicate JustCreated(record: Record, ix: ContentIndex, sequence: nat) {
    && record.target == sequence && ix == map[] && record.cursor.None?
    && record.seen == record.projected == record.bytes == record.commits == 0
  }

  /** A record created at the graph's latest sequence stands for a new candidate. */
  lemma CreatedStandsForNew(db: Db, ix: ContentIndex, record: Record)
    requires JustCreated(record, ix, LatestSequence(db))
    ensures Stands(db, ix, record) == C.NewCandidate(db)
  {
  }

  /** Pages alone lead there, and to its completion when the run completed. */
  ghost predicate BuiltTo(p: Policy, from: C.Candidate, to: C.Candidate, complete: bool) {
    C.PagesLead(p, from, to) && (complete ==> C.PagesLead(p, from, to.(complete := true)))
  }

  lemma BuiltSomehow(p: Policy, from: C.Candidate, to: C.Candidate, complete: bool)
    requires BuiltTo(p, from, to, complete)
    ensures BuiltTo(p, from, to, false)
  {
  }

  /** One page on the index is one page step, with its checkpoint or without. */
  lemma PageIsStep(p: Policy, db: Db, ix: ContentIndex, record: Record, next: Record, page: seq<Document>, limit: nat)
    requires limit > 0 && page != [] && page == CatalogPage(DesiredCatalog(db), record.cursor, limit)
    requires Keyed(DesiredCatalog(db))
    requires next.target == record.target && next.cursor == Some(DocId(page[|page| - 1]))
    ensures C.CandidateNext(p, Stands(db, ix, record), C.PageCommitted(limit))
            == Stands(db, UpsertAll(p, ix, page), next)
    ensures C.CandidateNext(p, Stands(db, ix, record), C.PageCommittedThenCrash(limit))
            == Stands(db, UpsertAll(p, ix, page), record)
  {
    hide UpsertAll, DesiredCatalog;
    var ids := PageIds(DesiredCatalog(db), record.cursor, limit);
    assert page[|page| - 1] == DesiredCatalog(db)[ids[|ids| - 1]];
  }

  /** An empty page completes. */
  lemma EmptyPageCompletes(p: Policy, db: Db, ix: ContentIndex, record: Record, limit: nat)
    requires limit > 0 && CatalogPage(DesiredCatalog(db), record.cursor, limit) == []
    ensures C.CandidateNext(p, Stands(db, ix, record), C.PageCommitted(limit))
            == Stands(db, ix, record).(complete := true)
  {
  }

  // ----- Capacity, read off what was measured

  /** Two bytes for each declared one and a kilobyte a document. */
  ghost function Growth(p: Policy, page: seq<Document>): nat {
    2 * DeclaredTotal(p, page) + 1_024 * |page|
  }

  /** With that much more, the index would pass its limit. */
  ghost predicate TooLarge(l: Limits, m: Measured, growth: nat) {
    m.indexBytes >= l.indexBytes || m.indexBytes + growth > l.indexBytes
  }

  /** With that much more, the free space would not cover the reserve and the writer's heap. */
  ghost predicate TooFull(l: Limits, m: Measured, growth: nat) {
    || m.diskFree <= l.freeBytes + growth + 32 * 1_024 * 1_024
    || m.diskFree <= m.diskTotal * l.freePercent / 100 + growth + 32 * 1_024 * 1_024
  }

  lemma ExhaustedRead(l: Limits, m: Measured, projected: nat)
    ensures match Exhausted(l, m, projected)
      case None => !TooLarge(l, m, 0) && projected < l.documents && !TooFull(l, m, 0)
      case Some(ContentIndexBytes) => TooLarge(l, m, 0)
      case Some(Documents) => !TooLarge(l, m, 0) && projected >= l.documents
      case Some(FreeDisk) => TooFull(l, m, 0)
  {
  }

  lemma OvergrownRead(l: Limits, m: Measured, declared: nat, documents: nat)
    requires m.indexBytes < l.indexBytes
    ensures var growth := 2 * declared + 1_024 * documents;
      match Overgrown(l, m, Forecast(declared, documents))
      case None => !TooLarge(l, m, growth) && !TooFull(l, m, growth)
      case Some(ContentIndexBytes) => TooLarge(l, m, growth)
      case Some(Documents) => false
      case Some(FreeDisk) => TooFull(l, m, growth)
  {
  }

  function Sum(s: seq<nat>): nat {
    if s == [] then 0 else Sum(s[..|s| - 1]) + s[|s| - 1]
  }

  lemma SumMore(s: seq<nat>, x: nat)
    ensures Sum(s + [x]) == Sum(s) + x
  {
    assert (s + [x])[..|s|] == s;
  }

  /** The growth forecast for the page that comes next. */
  ghost function NextGrowth(p: Policy, catalog: R.Index, record: Record, l: Limits): nat {
    Growth(p, CatalogPage(catalog, record.cursor, PageLimit(l.documents, record.projected, l.batch)))
  }

  ghost predicate MeetsLimit(capacity: Capacity, l: Limits, m: Measured, growth: nat) {
    match capacity
    case ContentIndexBytes => TooLarge(l, m, growth)
    case FreeDisk => TooFull(l, m, growth)
    case Documents => !TooLarge(l, m, 0)
  }

  /** One commit for each growth, and their sum what the counters of the record grew by. */
  ghost predicate Grew(start: Record, record: Record, grown: seq<nat>) {
    && record.commits == start.commits + |grown|
    && Sum(grown) == 2 * (record.bytes - start.bytes) + 1_024 * (record.seen - start.seen)
  }

  /** Each page was committed in a round with room for it. */
  ghost predicate HadRoom(l: Limits, measured: nat -> Measured, grown: seq<nat>) {
    forall j :: 0 <= j < |grown| ==> !TooLarge(l, measured(j), grown[j]) && !TooFull(l, measured(j), grown[j])
  }

  lemma NothingGrew(start: Record, l: Limits, measured: nat -> Measured)
    ensures Grew(start, start, []) && HadRoom(l, measured, [])
  {
  }

  predicate SameCounters(a: Record, b: Record) {
    a.commits == b.commits && a.bytes == b.bytes && a.seen == b.seen
  }

  lemma StillGrew(start: Record, before: Record, record: Record, grown: seq<nat>)
    requires Grew(start, before, grown) && SameCounters(before, record)
    ensures Grew(start, record, grown)
  {
  }

  /** One page on: its counters, its forecast growth and what is left to read. */
  ghost predicate Advanced(p: Policy, catalog: R.Index, start: Record, record: Record, growth: nat) {
    && record.commits == start.commits + 1
    && start.bytes <= record.bytes && start.seen <= record.seen
    && growth == 2 * (record.bytes - start.bytes) + 1_024 * (record.seen - start.seen)
    && |KeysAfter(catalog, record.cursor)| < |KeysAfter(catalog, start.cursor)|
  }

  lemma GrewMore(
    p: Policy, catalog: R.Index, start: Record, before: Record, record: Record, growth: nat, l: Limits,
    measured: nat -> Measured, grown: seq<nat>)
    requires Grew(start, before, grown) && HadRoom(l, measured, grown)
    requires Advanced(p, catalog, before, record, growth)
    requires !TooLarge(l, measured(|grown|), growth) && !TooFull(l, measured(|grown|), growth)
    ensures Grew(start, record, grown + [growth]) && HadRoom(l, measured, grown + [growth])
    ensures |KeysAfter(catalog, record.cursor)| < |KeysAfter(catalog, before.cursor)|
  {
    hide TooLarge, TooFull, KeysAfter;
    SumMore(grown, growth);
  }

  lemma SameTargets(records: Records)
    ensures TargetsStay(records, records)
  {
  }

  /** A limit met before reading a page would be met by the page all the more. */
  lemma MeetsAtOnce(p: Policy, catalog: R.Index, record: Record, l: Limits, m: Measured)
    requires Exhausted(l, m, record.projected).Some?
    ensures MeetsLimit(Exhausted(l, m, record.projected).value, l, m, NextGrowth(p, catalog, record, l))
    ensures Exhausted(l, m, record.projected) == Some(Documents) ==> record.projected >= l.documents
  {
    hide Growth, CatalogPage;
    ExhaustedRead(l, m, record.projected);
  }

  /** What the forecast decides about the page that was read. */
  lemma MeetsForecast(p: Policy, catalog: R.Index, record: Record, l: Limits, m: Measured, page: seq<Document>)
    requires Exhausted(l, m, record.projected).None?
    requires page == CatalogPage(catalog, record.cursor, PageLimit(l.documents, record.projected, l.batch))
    ensures var full := Overgrown(l, m, Forecast(DeclaredTotal(p, page), |page|));
      if full.Some? then full.value != Documents && MeetsLimit(full.value, l, m, NextGrowth(p, catalog, record, l))
      else !TooLarge(l, m, Growth(p, page)) && !TooFull(l, m, Growth(p, page))
  {
    hide CatalogPage, DeclaredTotal, TooFull, Overgrown, Reserve;
    ExhaustedRead(l, m, record.projected);
    OvergrownRead(l, m, DeclaredTotal(p, page), |page|);
  }

  /** Before a page is read, there is room for one more document and for the next page's writer. */
  lemma RoomToRead(l: Limits, m: Measured, projected: nat)
    requires Exhausted(l, m, projected).None? && ValidLimits(l)
    ensures projected < l.documents && !TooLarge(l, m, 0) && !TooFull(l, m, 0)
    ensures var limit := PageLimit(l.documents, projected, l.batch); limit > 0 && projected + limit <= l.documents
  {
    hide Exhausted, TooLarge, TooFull;
    ExhaustedRead(l, m, projected);
  }

  /** A committed page, with its checkpoint or without, is one more page of the candidate. */
  lemma CommittedLeads(
    p: Policy, db: Db, from: C.Candidate, ix: ContentIndex, record: Record, next: Record, page: seq<Document>,
    limit: nat)
    requires C.PagesLead(p, from, Stands(db, ix, record)) && Keyed(DesiredCatalog(db))
    requires limit > 0 && page != [] && page == CatalogPage(DesiredCatalog(db), record.cursor, limit)
    ensures C.PagesLead(p, from, Stands(db, UpsertAll(p, ix, page), record))
    ensures Same(next, record.(cursor := Some(DocId(page[|page| - 1])))) ==>
      C.PagesLead(p, from, Stands(db, UpsertAll(p, ix, page), next))
  {
    hide C.PagesLead, UpsertAll, CatalogPage, DesiredCatalog, C.CandidateNext, Keyed;
    var after := record.(cursor := Some(DocId(page[|page| - 1])));
    PageIsStep(p, db, ix, record, after, page, limit);
    C.OneMorePage(p, from, Stands(db, ix, record), C.PageCommittedThenCrash(limit));
    C.OneMorePage(p, from, Stands(db, ix, record), C.PageCommitted(limit));
  }

  datatype Outcome =
    | InvalidPolicy
    | Died
    | IdentifiersExhausted
    | CountMismatch
    | Complete
    | Limited(capacity: Capacity)
    | BatchesSpent

  /** Open an index, commit one delta of upserts, and leave the result on disk. */
  method CommitUpserts(p: Policy, ix: ContentIndex, generation: nat, page: seq<Document>)
    returns (index: ContentIndex, counted: nat, stamp: nat)
    requires DistinctIds(page, [])
    ensures index == UpsertAll(p, ix, page) && counted == CountAll(p, ix, page).added + CountAll(p, ix, page).same
  {
    var file := new ContentIndexFile(ix, generation);
    var delta := file.ApplyDelta(p, page, []);
    return file.index, delta.summary.added + delta.summary.same, delta.generation;
  }

  class ContentGenerationManager {
    var pointer: Option<GenerationId>
    var records: Records
    /** The committed index in each generation's directory. */
    var indexes: map<GenerationId, ContentIndex>
    /** Whether the filesystem deletes a directory's record before its index. */
    const recordFirst: GenerationId -> bool
    /** Durable writes before the process dies: any number, at any moment. */
    var writesLeft: nat
    /** Generations whose document count has been validated. */
    ghost var passed: set<GenerationId>

    constructor (writesLeft: nat, recordFirst: GenerationId -> bool)
      ensures Sound() && pointer.None? && records == map[] && indexes == map[] && this.writesLeft == writesLeft
    {
      pointer, records, indexes, passed := None, map[], map[], {};
      this.writesLeft, this.recordFirst := writesLeft, recordFirst;
    }

    ghost predicate Sound()
      reads this
    {
      && PointerSound(pointer, records, passed)
      && forall g :: g in records && records[g].state in {Building, Ready, Active} ==> g in indexes
    }

    /** Every candidate can be resumed over this catalog. */
    ghost predicate CandidatesSound(p: Policy, catalog: R.Index, maximum: nat)
      reads this
    {
      forall g :: g in records && records[g].state == Building ==>
        && g in indexes && records[g].projected <= maximum
        && Resumable(p, catalog, indexes[g], records[g].cursor, records[g].projected)
    }

    method WriteRecord(g: GenerationId, record: Record) returns (alive: bool)
      modifies this`records, this`writesLeft
      ensures alive <==> old(writesLeft) > 0
      ensures records == if alive then old(records)[g := record] else old(records)
      ensures !alive ==> writesLeft == 0
    {
      alive := writesLeft > 0;
      if alive {
        writesLeft := writesLeft - 1;
        records := records[g := record];
      }
    }

    // ----- Garbage collection

    /** Newest first, skip the retained ones. */
    method SkipRetained(retain: nat) returns (doomed: set<GenerationId>)
      ensures BeyondRetention(records, retain, doomed)
    {
      doomed := set g | g in records && records[g].state == Retired;
      assert doomed == In(records, Retired);
      var kept: set<GenerationId> := {};
      while |kept| < retain && doomed != {}
        invariant doomed <= records.Keys && kept <= records.Keys
        invariant kept + doomed == In(records, Retired) && kept !! doomed && |kept| <= retain
        invariant NoOlder(records, kept, doomed)
        decreases doomed
      {
        var newest := Newest(doomed);
        doomed, kept := doomed - {newest}, kept + {newest};
      }
      RetentionSplit(records, retain, kept, doomed);
    }

    /** A most recently updated generation of a set. */
    method Newest(among: set<GenerationId>) returns (newest: GenerationId)
      requires among != {} && among <= records.Keys
      ensures newest in among && forall g :: g in among ==> records[g].updated <= records[newest].updated
    {
      newest :| newest in among;
      var rest := among - {newest};
      while rest != {}
        invariant newest in among && rest <= among
        invariant forall g :: g in among - rest ==> records[g].updated <= records[newest].updated
        decreases rest
      {
        var g :| g in rest;
        if records[newest].updated < records[g].updated {
          newest := g;
        }
        rest := rest - {g};
      }
    }

    /** Delete one directory: its record and its index, one after the other, in either order. */
    method RemoveDirectory(g: GenerationId) returns (alive: bool, recordGone: bool, indexGone: bool)
      modifies this`records, this`indexes, this`writesLeft
      ensures records == if recordGone then old(records) - {g} else old(records)
      ensures indexes == if indexGone then old(indexes) - {g} else old(indexes)
      ensures alive <==> recordGone && indexGone
      ensures !alive ==> writesLeft == 0
    {
      if writesLeft == 0 {
        return false, false, false;
      }
      writesLeft := writesLeft - 1;
      recordGone := recordFirst(g);
      indexGone := !recordGone;
      if recordGone {
        records := records - {g};
      } else {
        indexes := indexes - {g};
      }
      alive := writesLeft > 0;
      if alive {
        writesLeft := writesLeft - 1;
        records, indexes := records - {g}, indexes - {g};
        recordGone, indexGone := true, true;
      }
    }

    /** Remove each listed directory that is not the active one; dying may leave half a directory. */
    method RemoveAll(listed: set<GenerationId>)
      returns (alive: bool, removed: set<GenerationId>, emptied: set<GenerationId>)
      modifies this`records, this`indexes, this`writesLeft
      ensures records == old(records) - removed && indexes == old(indexes) - emptied
      ensures removed <= listed && emptied <= listed && Halves(removed, emptied) <= 1
      ensures pointer.Some? ==> pointer.value !in removed && pointer.value !in emptied
      ensures alive ==> removed == emptied && forall g :: g in listed && pointer != Some(g) ==> g in removed
      ensures !alive ==> writesLeft == 0
    {
      hide Halves;
      var rest := listed;
      removed, emptied := {}, {};
      OneHalf({}, {}, GenerationId(0, 0, 0));
      while rest != {}
        invariant rest <= listed && removed <= listed && emptied == removed && Halves(removed, emptied) <= 1
        invariant forall g :: g in listed - rest && pointer != Some(g) ==> g in removed
        invariant pointer.Some? ==> pointer.value !in removed
        invariant records == old(records) - removed && indexes == old(indexes) - removed
        decreases rest
      {
        var g :| g in rest;
        rest := rest - {g};
        if pointer != Some(g) {
          var recordGone, indexGone;
          alive, recordGone, indexGone := RemoveDirectory(g);
          MinusMore(old(records), removed, g);
          MinusMore(old(indexes), removed, g);
          var before := removed;
          removed := if recordGone then before + {g} else before;
          emptied := if indexGone then before + {g} else before;
          OneHalf(removed, emptied, g);
          if !alive {
            return;
          }
        }
      }
      alive := true;
    }

    /** Remove failed generations and retired ones beyond retention, never the active one. */
    method CollectGarbage(retain: nat)
      returns (alive: bool, removed: set<GenerationId>, emptied: set<GenerationId>, ghost doomed: set<GenerationId>)
      modifies this`records, this`indexes, this`writesLeft
      ensures records == old(records) - removed && indexes == old(indexes) - emptied
      ensures BeyondRetention(old(records), retain, doomed) && doomed <= In(old(records), Retired)
      ensures removed <= In(old(records), Failed) + doomed && emptied <= In(old(records), Failed) + doomed
      ensures Halves(removed, emptied) <= 1 && (pointer.Some? ==>
          pointer.value !in removed && pointer.value !in emptied)
      ensures alive ==>
        && removed == emptied
        && forall g :: g in In(old(records), Failed) + doomed && pointer != Some(g) ==> g in removed
      ensures !alive ==> writesLeft == 0
    {
      var beyond := SkipRetained(retain);
      hide BeyondRetention, Halves;
      doomed := beyond;
      var failed := set g | g in records && records[g].state == Failed;
      assert failed == In(records, Failed);
      alive, removed, emptied := RemoveAll(failed + beyond);
    }

    // ----- Opening

    /** Make lifecycle states agree with the active selection. */
    method RecoverLifecycle(now: nat) returns (alive: bool)
      requires Sound()
      modifies this`records, this`writesLeft
      ensures Sound() && records.Keys == old(records).Keys
      ensures forall g :: g in records ==> Aligned(pointer, g, old(records)[g], records[g], now)
      ensures alive && pointer.Some? ==> In(records, Active) == {pointer.value}
      ensures pointer.None? ==> alive && records == old(records)
      ensures !alive ==> writesLeft == 0
    {
      assert pointer.Some? ==> pointer.value in records;
      hide Aligned, PointerSound, Sound;
      AlignedAlready(records, pointer, now);
      if pointer.None? {
        return true;
      }
      var rest := records.Keys;
      while rest != {}
        invariant Sound() && AlignedBut(pointer, old(records), records, rest, now)
        decreases rest
      {
        ghost var before := records;
        var g :| g in rest;
        alive := AlignOne(g, now);
        hide AlignedBut;
        AlignedMore(pointer, old(records), before, records, rest, g, now);
        if !alive {
          return;
        }
        rest := rest - {g};
      }
      alive := true;
    }

    /** Make one record agree. */
    method AlignOne(g: GenerationId, now: nat) returns (alive: bool)
      requires Sound() && g in records && pointer.Some?
      modifies this`records, this`writesLeft
      ensures Sound() && records.Keys == old(records).Keys
      ensures forall h :: h in records && h != g ==> records[h] == old(records)[h]
      ensures Aligned(pointer, g, old(records)[g], records[g], now)
      ensures alive ==> (records[g].state == Active <==> pointer == Some(g))
      ensures !alive ==> writesLeft == 0
    {
      var record := records[g];
      var desired := if pointer == Some(g) then Active else if record.state == Active then Retired else record.state;
      alive := true;
      if record.state != desired {
        alive := WriteRecord(g, record.(state := desired, updated := now));
      }
    }

    /** A new process over the same directories; it too may die after any number of writes. */
    method Open(now: nat, writesLeft: nat) returns (alive: bool)
      requires Sound()
      modifies this`records, this`writesLeft
      ensures Sound() && records.Keys == old(records).Keys
      ensures alive && pointer.Some? ==> In(records, Active) == {pointer.value}
      ensures !alive ==> this.writesLeft == 0
    {
      this.writesLeft := writesLeft;
      alive := RecoverLifecycle(now);
    }

    // ----- Candidates

    /** Fail each of these candidates. */
    method FailAll(candidates: set<GenerationId>, now: nat) returns (alive: bool)
      requires Sound() && candidates <= In(records, Building)
      modifies this`records, this`writesLeft
      ensures Sound() && records.Keys == old(records).Keys
      ensures forall g :: g in records && g !in candidates ==> records[g] == old(records)[g]
      ensures forall g :: g in candidates ==> records[g] in {old(records)[g], Failing(old(records)[g], now)}
      ensures alive ==> forall g :: g in candidates ==> records[g] == Failing(old(records)[g], now)
      ensures !alive ==> writesLeft == 0
    {
      var rest := candidates;
      while rest != {}
        invariant rest <= candidates && Sound() && records.Keys == old(records).Keys
        invariant forall g :: g in records && (g !in candidates || g in rest) ==> records[g] == old(records)[g]
        invariant forall g :: g in candidates - rest ==> records[g] == Failing(old(records)[g], now)
        decreases rest
      {
        var g :| g in rest;
        alive := WriteRecord(g, Failing(records[g], now));
        if !alive {
          return;
        }
        rest := rest - {g};
      }
      alive := true;
    }

    /** Fail the other candidates, keep the newest in hand. */
    method FailStale(now: nat) returns (alive: bool, newest: Option<GenerationId>)
      requires Sound()
      modifies this`records, this`writesLeft
      ensures Sound() && Narrowed(old(records), records)
      ensures newest.None? && alive <==> In(old(records), Building) == {}
      ensures newest.Some? ==>
        && newest.value in In(old(records), Building) && records[newest.value] == old(records)[newest.value]
        && forall g :: g in In(old(records), Building) ==> old(records)[g].updated <= old(records)[newest.value].updated
      ensures alive && newest.Some? ==> In(records, Building) == {newest.value}
      ensures !alive ==> writesLeft == 0
    {
      var building := set g | g in records && records[g].state == Building;
      assert building == In(records, Building);
      if building == {} {
        return true, None;
      }
      var candidate := Newest(building);
      newest := Some(candidate);
      alive := FailAll(building - {candidate}, now);
    }

    predicate HasDirectory(g: GenerationId)
      reads this
    {
      g in indexes || g in records
    }

    ghost predicate AllTaken(sequence: nat, now: nat)
      reads this
    {
      forall i :: 0 <= i < 10_000 ==> HasDirectory(GenerationId(sequence, now, i))
    }

    /** The first unused identifier for this sequence and moment. */
    method UniqueId(sequence: nat, now: nat) returns (g: Option<GenerationId>)
      ensures g.Some? ==>
        && g.value.sequence == sequence && g.value.created == now && !HasDirectory(g.value)
        && forall i :: 0 <= i < g.value.suffix ==> HasDirectory(GenerationId(sequence, now, i))
      ensures g.None? <==> AllTaken(sequence, now)
    {
      for suffix := 0 to 10_000
        invariant forall i :: 0 <= i < suffix ==> HasDirectory(GenerationId(sequence, now, i))
      {
        if !HasDirectory(GenerationId(sequence, now, suffix)) {
          return Some(GenerationId(sequence, now, suffix));
        }
      }
      return None;
    }

    /** Nothing but candidates and new directories was touched. */
    twostate predicate Spared()
      reads this
    {
      && pointer == old(pointer) && passed == old(passed)
      && (forall g :: g in old(indexes) ==> g in indexes && indexes[g] == old(indexes)[g])
      && (forall g :: g in old(records) ==>
           g in records && (old(records)[g].state != Building ==> records[g] == old(records)[g]))
    }

    method Create(
      sequence: nat, roots: seq<string>, now: nat, ghost p: Policy, ghost catalog: R.Index, ghost maximum: nat)
      returns (found: Candidacy)
      requires Sound() && In(records, Building) == {}
      modifies this`records, this`indexes, this`writesLeft
      ensures Sound() && Spared() && CandidatesSound(p, catalog, maximum)
      ensures TargetsFrom(old(records), records, sequence)
      ensures found.Candidate? ==>
        && Prepares(found, roots) && found.id !in old(records) && found.id in indexes
        && JustCreated(found.record, indexes[found.id], sequence)
      ensures found.CandidateLost? ==> writesLeft == 0
      ensures found.NoIdentifier? ==> AllTaken(sequence, now)
    {
      var unique := UniqueId(sequence, now);
      if unique.None? {
        assert forall g :: g in records ==> records[g].state != Building || g in In(records, Building);
        return NoIdentifier;
      }
      var g := unique.value;
      if writesLeft == 0 {
        assert forall g :: g in records ==> records[g].state != Building || g in In(records, Building);
        return CandidateLost;
      }
      writesLeft := writesLeft - 1;
      indexes := indexes[g := map[]];
      var record := Record(MANAGER_VERSION, Building, sequence, roots, None, 0, 0, 0, 0, 0, None, now);
      assert g !in records;
      NewCandidateResumable(p, catalog);
      assert forall h :: h in records ==> records[h].state != Building || h in In(records, Building);
      var alive := WriteRecord(g, record);
      if !alive {
        return CandidateLost;
      }
      assert In(records, Building) == {g};
      return Candidate(g, record);
    }

    /** The one candidate in hand agrees with its durable record. */
    ghost predicate Prepares(found: Candidacy, roots: seq<string>)
      requires found.Candidate?
      reads this
    {
      && found.id in records && In(records, Building) == {found.id}
      && SameProgress(records[found.id], found.record) && found.record.state == Building
      && found.record.capacity.None? && found.record.roots == roots && found.record.version == MANAGER_VERSION
    }

    /** Fail a candidate of another format or other roots. */
    method FailMismatched(g: GenerationId, now: nat) returns (alive: bool)
      requires Sound() && In(records, Building) == {g}
      modifies this`records, this`writesLeft
      ensures Sound() && Narrowed(old(records), records)
      ensures alive ==> In(records, Building) == {}
      ensures !alive ==> records == old(records)
      ensures !alive ==> writesLeft == 0
    {
      assert g in In(records, Building);
      assert forall h :: h in records && records[h].state == Building ==> h in In(records, Building);
      alive := WriteRecord(g, Failing(records[g], now));
    }

    /** At most one candidate remains, and it is the newest if it still fits. */
    method RecoverCandidate(
      roots: seq<string>, now: nat, ghost p: Policy, ghost catalog: R.Index, ghost maximum: nat)
      returns (alive: bool, found: Option<GenerationId>)
      requires Sound() && CandidatesSound(p, catalog, maximum)
      modifies this`records, this`writesLeft
      ensures Sound() && Spared() && CandidatesSound(p, catalog, maximum) && TargetsStay(old(records), records)
      ensures indexes == old(indexes) && records.Keys == old(records).Keys
      ensures alive && found.None? ==> In(records, Building) == {}
      ensures alive && found.Some? ==>
        && found.value in In(old(records), Building) && In(records, Building) == {found.value}
        && records[found.value] == old(records)[found.value]
        && records[found.value].version == MANAGER_VERSION && records[found.value].roots == roots
        && forall g :: g in In(old(records), Building) ==> old(records)[g].updated <= old(records)[found.value].updated
      ensures !alive ==> writesLeft == 0
    {
      hide Resumable, Narrowed;
      var newest;
      alive, newest := FailStale(now);
      NarrowedLeaves(old(records), records);
      if !alive || newest.None? {
        assert alive ==> In(records, Building) <= In(old(records), Building);
        return alive, None;
      }
      var g := newest.value;
      if records[g].version == MANAGER_VERSION && records[g].roots == roots {
        return true, newest;
      }
      ghost var first := records;
      alive := FailMismatched(g, now);
      NarrowedTwice(old(records), first, records);
      NarrowedLeaves(old(records), records);
      found := None;
    }

    method RecoverOrCreate(
      sequence: nat, roots: seq<string>, now: nat, ghost p: Policy, ghost catalog: R.Index, ghost maximum: nat)
      returns (found: Candidacy)
      requires Sound() && CandidatesSound(p, catalog, maximum)
      modifies this`records, this`indexes, this`writesLeft
      ensures Sound() && Spared() && CandidatesSound(p, catalog, maximum)
      ensures TargetsFrom(old(records), records, sequence)
      ensures found.Candidate? ==> Prepares(found, roots) && found.id in indexes
      ensures found.Candidate? ==>
        if found.id in old(records)
        then SameProgress(found.record, old(records)[found.id]) && old(records)[found.id].state == Building
        else JustCreated(found.record, indexes[found.id], sequence)
      ensures found.CandidateLost? ==> writesLeft == 0
      ensures found.NoIdentifier? ==> AllTaken(sequence, now)
    {
      hide Resumable;
      var alive, newest := RecoverCandidate(roots, now, p, catalog, maximum);
      if !alive {
        return CandidateLost;
      }
      if newest.Some? {
        assert newest.value in In(records, Building);
        return Candidate(newest.value, records[newest.value].(capacity := None));
      }
      found := Create(sequence, roots, now, p, catalog, maximum);
    }

    // ----- Activation

    /** Collect, keeping one retired generation: candidates and the active generation stay whole. */
    method CollectKeeping(g: GenerationId, ghost p: Policy, ghost catalog: R.Index, ghost maximum: nat)
      returns (alive: bool)
      requires Sound() && CandidatesSound(p, catalog, maximum) && pointer == Some(g)
      modifies this`records, this`indexes, this`writesLeft
      ensures Sound() && CandidatesSound(p, catalog, maximum)
      ensures g in records && records[g] == old(records)[g]
      ensures forall h :: h in records ==> h in old(records) && records[h] == old(records)[h]
      ensures forall h :: h in indexes ==> h in old(indexes) && indexes[h] == old(indexes)[h]
      ensures !alive ==> writesLeft == 0
    {
      hide Resumable, BeyondRetention, Halves;
      var removed, emptied;
      ghost var doomed;
      alive, removed, emptied, doomed := CollectGarbage(1);
      assert forall h :: h in records && records[h].state in {Building, Ready, Active} ==> h !in emptied;
    }

    /** Retire the generation that was active before. */
    method RetirePrevious(
      g: GenerationId, previous: Option<GenerationId>, now: nat,
      ghost p: Policy, ghost catalog: R.Index, ghost maximum: nat) returns (alive: bool)
      requires Sound() && CandidatesSound(p, catalog, maximum)
      requires pointer == Some(g) && records[g].state == Active
      requires previous.Some? && previous.value != g && previous.value in records ==>
        records[previous.value].state in {Ready, Active}
      modifies this`records, this`writesLeft
      ensures Sound() && CandidatesSound(p, catalog, maximum) && TargetsStay(old(records), records)
      ensures g in records && records[g] == old(records)[g]
      ensures alive ==> forall h :: h in records && records[h].state == Active ==>
        h in old(records) && old(records)[h].state == Active && (h == g || previous != Some(h))
      ensures !alive ==> writesLeft == 0
    {
      hide Resumable;
      alive := true;
      if previous.Some? && previous.value != g && previous.value in records {
        alive := WriteRecord(previous.value, records[previous.value].(state := Retired, updated := now));
      }
    }

    /** Select a ready generation, mark it active, then retire and collect. */
    method SwitchPointer(
      g: GenerationId, record: Record, now: nat, ghost p: Policy, ghost catalog: R.Index, ghost maximum: nat)
      returns (alive: bool)
      requires Sound() && CandidatesSound(p, catalog, maximum)
      requires g in records && records[g].state == Ready && g in passed && pointer != Some(g) && record.state == Ready
      requires Same(records[g], record)
      modifies this`pointer, this`records, this`indexes, this`writesLeft
      ensures Sound() && CandidatesSound(p, catalog, maximum) && TargetsStay(old(records), records)
      ensures g in records && Same(records[g], record) && g in indexes
      ensures pointer == old(pointer) || pointer == Some(g)
      ensures forall h :: h in indexes ==> h in old(indexes) && indexes[h] == old(indexes)[h]
      ensures alive ==>
        && pointer == Some(g) && records[g] == record.(state := Active, updated := now)
        && forall h :: h in records && records[h].state == Active && h != g ==>
             h in old(records) && old(records)[h].state == Active && old(pointer) != Some(h)
      ensures !alive ==> writesLeft == 0
    {
      hide Resumable;
      var previous := pointer;
      if writesLeft == 0 {
        return false;
      }
      writesLeft := writesLeft - 1;
      pointer := Some(g);
      alive := WriteRecord(g, record.(state := Active, updated := now));
      if !alive {
        return;
      }
      alive := RetirePrevious(g, previous, now, p, catalog, maximum);
      if !alive {
        return;
      }
      alive := CollectKeeping(g, p, catalog, maximum);
    }

    /** Validate the document count, mark ready, then switch. */
    method ActivateValidated(
      g: GenerationId, record: Record, now: nat, ghost p: Policy, ghost catalog: R.Index, ghost maximum: nat)
      returns (outcome: Outcome, final: Record)
      requires Sound() && CandidatesSound(p, catalog, maximum)
      requires g in records && records[g].state == Building && SameProgress(records[g], record)
      modifies this
      ensures Sound() && CandidatesSound(p, catalog, maximum) && TargetsStay(old(records), records)
      ensures g in records && Same(records[g], record) && g in indexes
      ensures outcome.Died? || outcome.CountMismatch? || outcome.Complete?
      ensures outcome.CountMismatch? ==> |old(indexes)[g]| != record.projected && pointer == old(pointer)
      ensures pointer != old(pointer) ==> pointer == Some(g) && |old(indexes)[g]| == record.projected
      ensures passed <= old(passed) + {g} && (g in passed - old(passed) ==> |old(indexes)[g]| == record.projected)
      ensures forall h :: h in indexes ==> h in old(indexes) && indexes[h] == old(indexes)[h]
      ensures outcome.Complete? ==>
        && pointer == Some(g) && records[g] == final == record.(state := Active, updated := now)
        && forall h :: h in records && records[h].state == Active && h != g ==>
             h in old(records) && old(records)[h].state == Active && old(pointer) != Some(h)
      ensures outcome.Died? ==> writesLeft == 0
    {
      hide Resumable;
      var valid := |indexes[g]| == record.projected;
      final := record.(state := if valid then Ready else Failed, updated := now);
      var alive := WriteRecord(g, final);
      if !alive {
        return Died, final;
      }
      if !valid {
        return CountMismatch, final;
      }
      passed := passed + {g};
      alive := SwitchPointer(g, final, now, p, catalog, maximum);
      final := final.(state := Active, updated := now);
      return if alive then Complete else Died, final;
    }

    // ----- Resumption

    /** The durable candidate that the in-memory record continues. */
    ghost predicate Continues(g: GenerationId, record: Record)
      reads this
    {
      g in records && records[g].state == Building && SameProgress(records[g], record)
    }

    /** Commit one page to the candidate's index; the record that would checkpoint it is still in hand. */
    method StagePage(
      g: GenerationId, record: Record, page: seq<Document>, limit: nat, p: Policy, now: nat,
      ghost catalog: R.Index, ghost maximum: nat) returns (alive: bool, next: Record)
      requires Sound() && CandidatesSound(p, catalog, maximum) && Continues(g, record) && Keyed(catalog)
      requires page != [] && page == CatalogPage(catalog, record.cursor, limit) && record.projected + limit <= maximum
      modifies this`indexes, this`writesLeft
      ensures Sound() && indexes.Keys == old(indexes).Keys
      ensures forall h :: h in indexes && h != g ==> indexes[h] == old(indexes)[h]
      ensures CandidatesSound(p, catalog, maximum)
      ensures g in indexes && indexes[g] == if alive then UpsertAll(p, old(indexes)[g], page) else old(indexes)[g]
      ensures alive ==>
        && next.state == Building && next.projected <= maximum && next.target == record.target
        && next.commits == record.commits + 1 && next.bytes == record.bytes + DeclaredTotal(p, page)
        && Resumable(p, catalog, indexes[g], next.cursor, next.projected)
        && next.cursor == Some(DocId(page[|page| - 1])) && next.seen == record.seen + |page|
        && |KeysAfter(catalog, next.cursor)| < |KeysAfter(catalog, record.cursor)|
      ensures !alive ==> writesLeft == 0
    {
      hide Resumable, UpsertAll, CountAll, CatalogPage, Keyed, DistinctIds, DeclaredTotal, KeysAfter;
      next := record;
      if writesLeft == 0 {
        return false, next;
      }
      writesLeft := writesLeft - 1;
      PageAdvances(p, catalog, indexes[g], record.cursor, record.projected, limit, page);
      var index, counted, stamp := CommitUpserts(p, indexes[g], record.indexGeneration, page);
      indexes := indexes[g := index];
      next := record.(
        cursor := Some(DocId(page[|page| - 1])), seen := record.seen + |page|,
        projected := record.projected + counted,
        bytes := record.bytes + DeclaredTotal(p, page), commits := record.commits + 1,
        indexGeneration := stamp, updated := now);
      alive := true;
    }

    /** Write the checkpoint of a committed page. */
    method Checkpoint(
      g: GenerationId, record: Record, next: Record, ghost p: Policy, ghost catalog: R.Index, ghost maximum: nat)
      returns (alive: bool)
      requires Sound() && CandidatesSound(p, catalog, maximum) && Continues(g, record)
      requires next.state == Building && next.target == record.target && next.projected <= maximum
      requires g in indexes && Resumable(p, catalog, indexes[g], next.cursor, next.projected)
      modifies this`records, this`writesLeft
      ensures Sound() && CandidatesSound(p, catalog, maximum) && TargetsStay(old(records), records)
      ensures records == if alive then old(records)[g := next] else old(records)
      ensures !alive ==> writesLeft == 0
    {
      hide Resumable;
      alive := WriteRecord(g, next);
    }

    /** One page: commit it to the candidate's index, then write its checkpoint. */
    method CommitPage(
      g: GenerationId, record: Record, page: seq<Document>, limit: nat, p: Policy, now: nat,
      ghost catalog: R.Index, ghost maximum: nat) returns (alive: bool, next: Record)
      requires Sound() && CandidatesSound(p, catalog, maximum) && Continues(g, record) && Keyed(catalog)
      requires page != [] && page == CatalogPage(catalog, record.cursor, limit) && record.projected + limit <= maximum
      modifies this`records, this`indexes, this`writesLeft
      ensures Sound() && CandidatesSound(p, catalog, maximum)
      ensures forall h :: h in old(indexes) && h != g ==> h in indexes && indexes[h] == old(indexes)[h]
      ensures records.Keys == old(records).Keys && indexes.Keys == old(indexes).Keys
      ensures TargetsStay(old(records), records)
      ensures forall h :: h in records && h != g ==> records[h] == old(records)[h]
      ensures !alive ==>
        records == old(records) && indexes[g] in {old(indexes)[g], UpsertAll(p, old(indexes)[g], page)}
      ensures alive ==> next.target == record.target && indexes[g] == UpsertAll(p, old(indexes)[g], page)
      ensures alive ==> next.commits == record.commits + 1 && next.bytes == record.bytes + DeclaredTotal(p, page)
      ensures alive ==>
        && records[g] == next && next.state == Building
        && next.cursor == Some(DocId(page[|page| - 1])) && next.seen == record.seen + |page|
        && |KeysAfter(catalog, next.cursor)| < |KeysAfter(catalog, record.cursor)|
      ensures !alive ==> writesLeft == 0
    {
      hide Resumable, CatalogPage, Keyed, KeysAfter, UpsertAll, DeclaredTotal, Sound, CandidatesSound;
      alive, next := StagePage(g, record, page, limit, p, now, catalog, maximum);
      if alive {
        alive := Checkpoint(g, record, next, p, catalog, maximum);
      }
    }

    /** What a resumption may do, wherever it stops: switch to an exact index, or to nothing. */
    twostate predicate Switches(p: Policy, catalog: R.Index)
      reads this
    {
      || pointer == old(pointer)
      || (pointer.Some? && pointer.value in indexes && indexes[pointer.value] == ExactIndex(p, catalog))
    }

    /** An empty page: the candidate is exact, so its validation passes. */
    method Finish(
      g: GenerationId, record: Record, now: nat, ghost p: Policy, ghost catalog: R.Index, ghost maximum: nat)
      returns (outcome: Outcome, final: Record)
      requires Sound() && CandidatesSound(p, catalog, maximum) && Continues(g, record)
      requires Ascending(KeysAfter(catalog, record.cursor)) == []
      modifies this
      ensures Sound() && CandidatesSound(p, catalog, maximum) && Switches(p, catalog)
      ensures TargetsStay(old(records), records)
      ensures g in records && Same(records[g], record) && g in indexes
      ensures outcome.Died? || outcome.Complete?
      ensures outcome.Complete? ==> final == record.(state := Active, updated := now)
      ensures forall h :: h in indexes ==> h in old(indexes) && indexes[h] == old(indexes)[h]
      ensures outcome.Complete? ==>
        && pointer == Some(g) && g in records && records[g] == final && final.state == Active
        && indexes[g] == ExactIndex(p, catalog) && record.projected == final.projected == |Eligible(p, catalog)|
      ensures outcome.Died? ==> writesLeft == 0
    {
      ExhaustedIsExact(p, catalog, indexes[g], record.cursor, record.projected);
      hide Resumable, ExactIndex, Eligible;
      outcome, final := ActivateValidated(g, record, now, p, catalog, maximum);
    }

    /** One page after the other is read while there is room: a round commits a page or stops the run. */
    method BuildPage(
      graph: FilesystemGraph, g: GenerationId, start: Record, p: Policy, limits: Limits, m: Measured, now: nat,
      ghost catalog: R.Index, ghost bound: nat) returns (stop: Option<Outcome>, record: Record, ghost growth: nat)
      requires catalog == DesiredCatalog(graph.db) && Keyed(catalog) && ValidLimits(limits) && limits.documents <= bound
      requires Sound() && CandidatesSound(p, catalog, bound) && Continues(g, start)
      modifies this
      ensures Sound() && CandidatesSound(p, catalog, bound) && Switches(p, catalog)
      ensures TargetsStay(old(records), records) && g in records && g in indexes
      ensures forall h :: h in indexes && h != g ==> h in old(indexes) && indexes[h] == old(indexes)[h]
      ensures C.PagesLead(p, Stands(graph.db, old(indexes)[g], start), Stands(graph.db, indexes[g], records[g]))
      ensures stop.None? ==> Continues(g, record) && pointer == old(pointer)
      ensures stop.None? ==> Advanced(p, catalog, start, record, growth)
      ensures stop.None? ==> !TooLarge(limits, m, growth) && !TooFull(limits, m, growth)
      ensures stop.Some? ==> match stop.value
        case Died => true
        case Complete =>
          && pointer == Some(g) && records[g] == record && record.state == Active
          && indexes[g] == ExactIndex(p, catalog) && record.projected == |Eligible(p, catalog)| < limits.documents
          && SameCounters(start, record) && !TooLarge(limits, m, 0) && !TooFull(limits, m, 0)
          && C.PagesLead(p, Stands(graph.db, old(indexes)[g], start),
                         Stands(graph.db, indexes[g], records[g]).(complete := true))
        case Limited(capacity) =>
          && Continues(g, record) && pointer == old(pointer) && SameCounters(start, record)
          && MeetsLimit(capacity, limits, m, NextGrowth(p, catalog, record, limits))
          && (capacity == Documents ==> |Eligible(p, catalog)| >= limits.documents)
        case _ => false
      ensures stop == Some(Died) ==> writesLeft == 0
    {
      hide Resumable, ExactIndex, Eligible, Keyed, CatalogPage, DesiredCatalog, C.PagesLead, TooLarge, TooFull,
        Exhausted, Overgrown, Forecast, UpsertAll, DeclaredTotal, PageLimit, KeysAfter;
      record, growth := start.(capacity := None), 0;
      ghost var from := Stands(graph.db, indexes[g], start);
      C.NoPageLeads(p, from);
      var full := Exhausted(limits, m, record.projected);
      if full.Some? {
        MeetsAtOnce(p, catalog, record, limits, m);
        CountBounded(p, catalog, indexes[g], record.cursor, record.projected);
        return Some(Limited(full.value)), record.(capacity := full), growth;
      }
      RoomToRead(limits, m, record.projected);
      var limit := PageLimit(limits.documents, record.projected, limits.batch);
      var page := graph.DesiredCatalogPage(record.cursor, limit);
      if page == [] {
        PageEnd(catalog, record.cursor, limit);
        EmptyPageCompletes(p, graph.db, indexes[g], record, limit);
        C.OneMorePage(p, from, from, C.PageCommitted(limit));
        var outcome;
        outcome, record := Finish(g, record, now, p, catalog, bound);
        return Some(outcome), record, growth;
      }
      MeetsForecast(p, catalog, record, limits, m, page);
      full := Overgrown(limits, m, Forecast(DeclaredTotal(p, page), |page|));
      if full.Some? {
        return Some(Limited(full.value)), record.(capacity := full), growth;
      }
      growth := Growth(p, page);
      ghost var ix, before := indexes[g], record;
      var alive;
      alive, record := CommitPage(g, record, page, limit, p, now, catalog, bound);
      CommittedLeads(p, graph.db, from, ix, before, record, page, limit);
      stop := if alive then None else Some(Died);
    }

    /**
     * The bounded loop over pages. `grown` is the forecast growth of each page it committed: what it
     * committed had room, and a limit it reports is one that the next page would have met.
     */
    method BuildPages(
      graph: FilesystemGraph, g: GenerationId, start: Record, p: Policy, limits: Limits,
      measured: nat -> Measured, now: nat, ghost catalog: R.Index, ghost bound: nat)
      returns (outcome: Outcome, record: Record, ghost grown: seq<nat>)
      requires catalog == DesiredCatalog(graph.db) && Keyed(catalog) && ValidLimits(limits) && limits.documents <= bound
      requires Sound() && CandidatesSound(p, catalog, bound) && Continues(g, start)
      modifies this
      ensures Sound() && CandidatesSound(p, catalog, bound) && Switches(p, catalog)
      ensures TargetsStay(old(records), records) && g in records && g in indexes
      ensures forall h :: h in indexes && h != g ==> h in old(indexes) && indexes[h] == old(indexes)[h]
      ensures outcome.Died? || outcome.Complete? || outcome.Limited? || outcome.BatchesSpent?
      ensures outcome.Complete? ==>
        && pointer == Some(g) && records[g] == record && record.state == Active
        && indexes[g] == ExactIndex(p, catalog)
        && record.projected == |Eligible(p, catalog)| < limits.documents
      ensures outcome.Limited? || outcome.BatchesSpent? ==> Continues(g, record) && pointer == old(pointer)
      ensures outcome == Limited(Documents) ==> |Eligible(p, catalog)| >= limits.documents
      ensures outcome.BatchesSpent? ==> limits.batches <= |KeysAfter(catalog, start.cursor)|
      ensures !outcome.Died? ==> Grew(start, record, grown) && HadRoom(limits, measured, grown)
      ensures outcome.Limited? ==>
        && |grown| < limits.batches
        && MeetsLimit(outcome.capacity, limits, measured(|grown|), NextGrowth(p, catalog, record, limits))
      ensures outcome.Complete? ==> !TooLarge(limits, measured(|grown|), 0) && !TooFull(limits, measured(|grown|), 0)
      ensures BuiltTo(p, Stands(graph.db, old(indexes)[g], start), Stands(graph.db, indexes[g], records[g]),
                      outcome.Complete?)
      ensures outcome.Died? ==> writesLeft == 0
    {
      assert g in indexes;
      hide Resumable, ExactIndex, Eligible, Keyed, DesiredCatalog, C.PagesLead, Grew, HadRoom, TooLarge, TooFull,
        KeysAfter, CandidatesSound, Sound, NextGrowth, Advanced, SameCounters, TargetsStay, MeetsLimit;
      record, grown := start, [];
      ghost var from := Stands(graph.db, indexes[g], start);
      C.NoPageLeads(p, from);
      NothingGrew(start, limits, measured);
      SameTargets(records);
      for i := 0 to limits.batches
        invariant catalog == DesiredCatalog(graph.db)
        invariant Sound() && CandidatesSound(p, catalog, bound) && Continues(g, record) && g in indexes
        invariant pointer == old(pointer) && TargetsStay(old(records), records)
        invariant forall h :: h in indexes && h != g ==> h in old(indexes) && indexes[h] == old(indexes)[h]
        invariant i + |KeysAfter(catalog, record.cursor)| <= |KeysAfter(catalog, start.cursor)|
        invariant |grown| == i && Grew(start, record, grown) && HadRoom(limits, measured, grown)
        invariant C.PagesLead(p, from, Stands(graph.db, indexes[g], record))
      {
        ghost var before, via, targets := record, Stands(graph.db, indexes[g], record), records;
        var stop;
        ghost var growth;
        stop, record, growth := BuildPage(graph, g, record, p, limits, measured(i), now, catalog, bound);
        TargetsStayThen(old(records), targets, records, 0);
        C.PagesLeadOn(p, from, via, Stands(graph.db, indexes[g], records[g]));
        if stop.Some? {
          if stop.value.Complete? {
            C.PagesLeadOn(p, from, via, Stands(graph.db, indexes[g], records[g]).(complete := true));
          }
          if !stop.value.Died? {
            StillGrew(start, before, record, grown);
          }
          return stop.value, record, grown;
        }
        GrewMore(p, catalog, start, before, record, growth, limits, measured, grown);
        grown := grown + [growth];
      }
      return BatchesSpent, record, grown;
    }

    /** Write the record a last time, with what stopped the run. */
    method CloseRun(
      g: GenerationId, record: Record, now: nat, ghost p: Policy, ghost catalog: R.Index, ghost maximum: nat)
      returns (alive: bool)
      requires Sound() && CandidatesSound(p, catalog, maximum) && g in records
      requires Continues(g, record) || (records[g] == record && record.state == Active)
      modifies this`records, this`writesLeft
      ensures Sound() && CandidatesSound(p, catalog, maximum) && TargetsStay(old(records), records)
      ensures records.Keys == old(records).Keys
      ensures forall h :: h in records && h != g ==> records[h] == old(records)[h]
      ensures records[g] == if alive then record.(updated := now) else old(records)[g]
      ensures !alive ==> writesLeft == 0
    {
      hide Resumable;
      alive := WriteRecord(g, record.(updated := now));
    }

    /** Run one candidate and write its record a last time. */
    method RunCandidate(
      graph: FilesystemGraph, g: GenerationId, start: Record, p: Policy, limits: Limits,
      measured: nat -> Measured, now: nat, ghost catalog: R.Index, ghost bound: nat) returns (outcome: Outcome)
      requires catalog == DesiredCatalog(graph.db) && Keyed(catalog) && ValidLimits(limits) && limits.documents <= bound
      requires Sound() && CandidatesSound(p, catalog, bound) && Continues(g, start)
      modifies this
      ensures Sound() && CandidatesSound(p, catalog, bound) && Switches(p, catalog)
      ensures TargetsStay(old(records), records)
      ensures g in records && g in indexes
      ensures BuiltTo(p, Stands(graph.db, old(indexes)[g], start), Stands(graph.db, indexes[g], records[g]),
                      outcome.Complete?)
      ensures forall h :: h in indexes && h != g ==> h in old(indexes) && indexes[h] == old(indexes)[h]
      ensures outcome.Died? || outcome.Complete? || outcome.Limited? || outcome.BatchesSpent?
      ensures outcome.Complete? ==>
        && pointer == Some(g) && g in records && records[g].state == Active
        && indexes[g] == ExactIndex(p, catalog) && records[g].projected == |Eligible(p, catalog)|
      ensures outcome.Complete? || outcome == Limited(Documents) ==>
        (outcome.Complete? <==> |Eligible(p, catalog)| < limits.documents)
      ensures outcome.BatchesSpent? ==> limits.batches <= |catalog|
      ensures outcome.Died? ==> writesLeft == 0
    {
      hide Resumable, ExactIndex, Eligible, Keyed, DesiredCatalog, KeysAfter, BuiltTo, Grew, HadRoom, MeetsLimit,
        NextGrowth, TooLarge, TooFull, CandidatesSound;
      AheadBounded(catalog, start.cursor);
      var record;
      ghost var grown;
      outcome, record, grown := BuildPages(graph, g, start, p, limits, measured, now, catalog, bound);
      if !outcome.Died? {
        BuiltSomehow(p, Stands(graph.db, old(indexes)[g], start), Stands(graph.db, indexes[g], records[g]),
                     outcome.Complete?);
        var alive := CloseRun(g, record, now, p, catalog, bound);
        outcome := if alive then outcome else Died;
      }
    }

    /** Find or create the candidate and run it. */
    method ResumeCandidate(
      graph: FilesystemGraph, p: Policy, roots: seq<string>, limits: Limits, measured: nat -> Measured, now: nat,
      ghost catalog: R.Index, ghost bound: nat)
      returns (outcome: Outcome, generation: Option<GenerationId>)
      requires catalog == DesiredCatalog(graph.db) && Keyed(catalog) && ValidLimits(limits)
      requires Sound() && CandidatesSound(p, catalog, bound) && limits.documents <= bound
      modifies this
      ensures !outcome.InvalidPolicy?
      ensures Sound() && CandidatesSound(p, catalog, bound)
      ensures Switches(p, catalog)
      ensures pointer.Some? && pointer == old(pointer) ==> indexes[pointer.value] == old(indexes)[pointer.value]
      ensures !outcome.CountMismatch? && TargetsFrom(old(records), records, LatestSequence(graph.db))
      ensures generation.Some? ==>
        && generation.value in records && generation.value in indexes
        && (generation.value in old(records) ==> generation.value in old(indexes))
        && var from := if generation.value in old(records)
                       then Stands(graph.db, old(indexes)[generation.value], old(records)[generation.value])
                       else C.NewCandidate(graph.db);
           var to := Stands(graph.db, indexes[generation.value], records[generation.value]);
           BuiltTo(p, from, to, outcome.Complete?)
      ensures outcome.Complete? ==>
        && generation.Some? && pointer == generation && generation.value in records
        && records[generation.value].state == Active
        && indexes[generation.value] == ExactIndex(p, catalog)
        && records[generation.value].projected == |Eligible(p, catalog)| < limits.documents
      ensures outcome.Complete? || outcome == Limited(Documents) ==>
        (outcome.Complete? <==> |Eligible(p, catalog)| < limits.documents)
      ensures outcome.BatchesSpent? ==> limits.batches <= |catalog|
      ensures outcome.Died? ==> writesLeft == 0
      ensures outcome.IdentifiersExhausted? ==> AllTaken(LatestSequence(graph.db), now)
    {
      hide Resumable, ExactIndex, Eligible, Keyed, DesiredCatalog, CandidatesSound, BuiltTo, TargetsStay, TargetsFrom,
        AllTaken;
      var latest := graph.LatestOutboxSequence();
      var found := RecoverOrCreate(latest, roots, now, p, catalog, bound);
      match found {
        case CandidateLost => return Died, None;
        case NoIdentifier => return IdentifiersExhausted, None;
        case Candidate(g, start) =>
          generation := Some(g);
          assert g in In(records, Building);
          if g !in old(records) {
            CreatedStandsForNew(graph.db, indexes[g], start);
          }
          ghost var targets := records;
          outcome := RunCandidate(graph, g, start, p, limits, measured, now, catalog, bound);
          TargetsStayThen(old(records), targets, records, latest);
      }
    }

    /**
     * Continue or begin one candidate. However often this is called, with any page sizes and dying
     * after any write, the active selection only ever moves to an index holding exactly the eligible
     * documents, and a run that meets no size or disk limit and has batches enough for the catalog
     * completes if and only if fewer documents are eligible than the document limit. No count passes
     * `bound`, which may be any number that is above the limit and above the counts found.
     */
    method ResumeInitialGeneration(
      graph: FilesystemGraph, p: Policy, roots: seq<string>, limits: Limits, measured: nat -> Measured, now: nat,
      ghost bound: nat)
      returns (outcome: Outcome, generation: Option<GenerationId>)
      requires Sound() && CandidatesSound(p, DesiredCatalog(graph.db), bound) && limits.documents <= bound
      modifies this
      ensures outcome.InvalidPolicy? <==> !ValidLimits(limits)
      ensures Sound() && CandidatesSound(p, DesiredCatalog(graph.db), bound)
      ensures Switches(p, DesiredCatalog(graph.db))
      ensures pointer.Some? && pointer == old(pointer) ==> indexes[pointer.value] == old(indexes)[pointer.value]
      ensures !outcome.CountMismatch? && TargetsFrom(old(records), records, LatestSequence(graph.db))
      ensures generation.Some? ==>
        && generation.value in records && generation.value in indexes
        && (generation.value in old(records) ==> generation.value in old(indexes))
        && var from := if generation.value in old(records)
                       then Stands(graph.db, old(indexes)[generation.value], old(records)[generation.value])
                       else C.NewCandidate(graph.db);
           var to := Stands(graph.db, indexes[generation.value], records[generation.value]);
           BuiltTo(p, from, to, outcome.Complete?)
      ensures outcome.Complete? ==>
        && generation.Some? && pointer == generation && generation.value in records
        && records[generation.value].state == Active
        && indexes[generation.value] == ExactIndex(p, DesiredCatalog(graph.db))
        && records[generation.value].projected == |Eligible(p, DesiredCatalog(graph.db))| < limits.documents
      ensures outcome.Complete? || outcome == Limited(Documents) ==>
        (outcome.Complete? <==> |Eligible(p, DesiredCatalog(graph.db))| < limits.documents)
      ensures outcome.BatchesSpent? ==> limits.batches <= |DesiredCatalog(graph.db)|
      ensures outcome.Died? ==> writesLeft == 0
      ensures outcome.IdentifiersExhausted? ==> AllTaken(LatestSequence(graph.db), now)
    {
      if !ValidLimits(limits) {
        SameTargets(records);
        return InvalidPolicy, None;
      }
      ghost var catalog := DesiredCatalog(graph.db);
      C.DesiredKeyed(graph.db);
      hide Resumable, ExactIndex, Eligible, Keyed, DesiredCatalog, CandidatesSound, BuiltTo, TargetsFrom, AllTaken,
        PointerSound, SameProgress;
      outcome, generation := ResumeCandidate(graph, p, roots, limits, measured, now, catalog, bound);
    }
  }

  lemma AheadBounded(catalog: R.Index, cursor: Option<DocumentId>)
    ensures |KeysAfter(catalog, cursor)| <= |catalog|
  {
    var rest := catalog.Keys - KeysAfter(catalog, cursor);
    assert catalog.Keys == KeysAfter(catalog, cursor) + rest;
  }

  datatype Candidacy = CandidateLost | NoIdentifier | Candidate(id: GenerationId, record: Record)
}
