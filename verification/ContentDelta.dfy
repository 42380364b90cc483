/** Bounded content deltas: which texts an index holds after a coalesced set of changes. */
module ContentDelta {
  import opened Core
  import R = Replay

  /**
   * Explicit extraction policy. `resolves` and `text` stand for the filesystem: whether the path
   * still leads to a small regular file under a root, and what its bytes decode to, if to text.
   */
  datatype Policy = Policy(
    extensions: set<string>, maxBytes: nat, resolves: Document -> bool, text: Document -> Option<string>)

  predicate Prepared(p: Policy, d: Document) {
    var m := d.content.metadata;
    && m.kind == File && m.availability == Online
    && d.content.extension.Some? && d.content.extension.value in p.extensions
    && m.size <= p.maxBytes && p.resolves(d)
  }

  /** The text an eligible document contributes. */
  function Wanted(p: Policy, d: Document): Option<string> {
    if Prepared(p, d) then p.text(d) else None
  }

  /** Same object, kind, size, known modification time and availability. */
  predicate SourceUnchanged(a: Document, b: Document) {
    && a.content.identity.key == b.content.identity.key
    && a.content.metadata.kind == b.content.metadata.kind
    && a.content.metadata.size == b.content.metadata.size
    && a.content.metadata.modified.Some?
    && a.content.metadata.modified == b.content.metadata.modified
    && a.content.metadata.availability == b.content.metadata.availability
  }

  /** What the filesystem promises: one object of one kind, size and known modification time has one text. */
  ghost predicate Consistent(p: Policy) {
    forall a: Document, b: Document :: SameSource(a, b) && Prepared(p, a) && Prepared(p, b) ==> p.text(a) == p.text(b)
  }

  ghost predicate SameSource(a: Document, b: Document) {
    var m, n := a.content.metadata, b.content.metadata;
    && a.content.identity.key == b.content.identity.key && m.kind == n.kind && m.size == n.size
    && m.modified.Some? && m.modified == n.modified && m.availability == n.availability
  }

  /** The stored hash is that of `text`, and hashing is taken to be injective. */
  datatype Stored = Stored(document: Document, text: string)

  type ContentIndex = map<DocumentId, Stored>

  datatype Summary = Summary(
    catalog: nat, same: nat, metadataOnly: nat, unchangedHash: nat,
    added: nat, updated: nat, removed: nat, evicted: nat, skipped: nat)

  const EMPTY_SUMMARY := Summary(0, 0, 0, 0, 0, 0, 0, 0, 0)

  datatype Verdict = Drop | Unchanged | MetadataOnly | SameHash | Rewrite(text: string)

  /** What one changed document does to its stored entry. */
  function Judge(p: Policy, prior: Option<Stored>, d: Document): Verdict {
    if !Prepared(p, d) then Drop
    else if prior.Some? && prior.value.document == d then Unchanged
    else if prior.Some? && SourceUnchanged(prior.value.document, d) then MetadataOnly
    else match p.text(d)
      case None => Drop
      case Some(t) => if prior.Some? && prior.value.text == t then SameHash else Rewrite(t)
  }

  function Upserted(p: Policy, ix: ContentIndex, d: Document): ContentIndex {
    match Judge(p, R.Find(ix, DocId(d)), d)
    case Drop => ix - {DocId(d)}
    case Rewrite(t) => ix[DocId(d) := Stored(d, t)]
    case _ => ix
  }

  function Counted(p: Policy, ix: ContentIndex, d: Document, s: Summary): Summary {
    var seen := s.(catalog := s.catalog + 1);
    match Judge(p, R.Find(ix, DocId(d)), d)
    case Drop =>
      if DocId(d) in ix then seen.(skipped := s.skipped + 1, evicted := s.evicted + 1)
      else seen.(skipped := s.skipped + 1)
    case Unchanged => seen.(same := s.same + 1)
    case MetadataOnly => seen.(metadataOnly := s.metadataOnly + 1)
    case SameHash => seen.(unchangedHash := s.unchangedHash + 1)
    case Rewrite(_) =>
      if DocId(d) in ix then seen.(updated := s.updated + 1) else seen.(added := s.added + 1)
  }

  function UpsertAll(p: Policy, ix: ContentIndex, docs: seq<Document>): ContentIndex {
    if docs == [] then ix else Upserted(p, UpsertAll(p, ix, docs[..|docs| - 1]), docs[|docs| - 1])
  }

  function CountAll(p: Policy, ix: ContentIndex, docs: seq<Document>): Summary {
    if docs == [] then EMPTY_SUMMARY
    else Counted(p, ix, docs[|docs| - 1], CountAll(p, ix, docs[..|docs| - 1]))
  }

  ghost predicate DistinctIds(docs: seq<Document>, deletions: seq<DocumentId>) {
    && (forall i, j :: 0 <= i < j < |docs| ==> DocId(docs[i]) != DocId(docs[j]))
    && (forall i, j :: 0 <= i < j < |deletions| ==> deletions[i] != deletions[j])
    && (forall i, j :: 0 <= i < |docs| && 0 <= j < |deletions| ==> DocId(docs[i]) != deletions[j])
  }

  ghost function IdsOf(docs: seq<Document>): set<DocumentId> {
    set i | 0 <= i < |docs| :: DocId(docs[i])
  }

  lemma {:induction false} UntouchedFind(p: Policy, ix: ContentIndex, docs: seq<Document>, id: DocumentId)
    requires forall i :: 0 <= i < |docs| ==> DocId(docs[i]) != id
    ensures R.Find(UpsertAll(p, ix, docs), id) == R.Find(ix, id)
  {
    if docs != [] {
      UntouchedFind(p, ix, docs[..|docs| - 1], id);
    }
  }

  // ----- What a delta means for the stored texts

  function TextAt(ix: ContentIndex, id: DocumentId): Option<string> {
    if id in ix then Some(ix[id].text) else None
  }

  /** The text a catalog asks for under one identity. */
  function WantedAt(p: Policy, catalog: R.Index, id: DocumentId): Option<string> {
    if id in catalog then Wanted(p, catalog[id]) else None
  }

  /** Every entry holds the text of an eligible document stored under its own identity. */
  ghost predicate IndexSound(p: Policy, ix: ContentIndex) {
    forall id :: id in ix ==>
      DocId(ix[id].document) == id && Wanted(p, ix[id].document) == Some(ix[id].text)
  }

  /** Whatever shortcut is taken, the entry afterwards holds the text the document asks for. */
  lemma UpsertedText(p: Policy, ix: ContentIndex, d: Document)
    requires Consistent(p) && IndexSound(p, ix)
    ensures IndexSound(p, Upserted(p, ix, d))
    ensures TextAt(Upserted(p, ix, d), DocId(d)) == Wanted(p, d)
  {
    var prior := R.Find(ix, DocId(d));
    if prior.Some? && Prepared(p, d) {
      assert Wanted(p, prior.value.document) == Some(prior.value.text);
    }
  }

  /**
   * The text is current, the stored document need not be: it is exactly when the entry is new,
   * already equal, or both its source and its text have changed.
   */
  lemma StoredDocumentExact(p: Policy, ix: ContentIndex, d: Document)
    requires Consistent(p) && IndexSound(p, ix) && Wanted(p, d).Some?
    ensures var id := DocId(d);
      && id in Upserted(p, ix, d)
      && (Upserted(p, ix, d)[id].document == d <==>
           || id !in ix || ix[id].document == d
           || (!SameSource(ix[id].document, d) && ix[id].text != Wanted(p, d).value))
  {
    UpsertedText(p, ix, d);
  }

  /** A renamed file keeps its old name in the index. */
  lemma RenameKeepsOldDocument()
    ensures exists p, ix, d ::
      && Consistent(p) && IndexSound(p, ix) && Wanted(p, d).Some?
      && DocId(d) in Upserted(p, ix, d) && Upserted(p, ix, d)[DocId(d)].document != d
  {
    var p := Policy({"txt"}, 10, _ => true, _ => Some("text"));
    var content := Content(
      Identity(FileKey(1, 1), 7, 7), "a.txt", "a.txt", Some("txt"), Metadata(File, 4, None, Some(1), false, Online));
    var before := Document(content, 1);
    var d := Document(content.(name := "b.txt", path := "b.txt"), 2);
    var ix: ContentIndex := map[7 := Stored(before, "text")];
    StoredDocumentExact(p, ix, d);
  }

  lemma {:induction false} UpsertAllText(p: Policy, ix: ContentIndex, docs: seq<Document>)
    requires Consistent(p) && IndexSound(p, ix) && DistinctIds(docs, [])
    ensures IndexSound(p, UpsertAll(p, ix, docs))
    ensures forall i :: 0 <= i < |docs| ==> TextAt(UpsertAll(p, ix, docs), DocId(docs[i])) == Wanted(p, docs[i])
  {
    if docs != [] {
      var front, last := docs[..|docs| - 1], docs[|docs| - 1];
      UpsertAllText(p, ix, front);
      UpsertedText(p, UpsertAll(p, ix, front), last);
      forall i | 0 <= i < |front| ensures TextAt(UpsertAll(p, ix, docs), DocId(docs[i])) == Wanted(p, docs[i]) {
        assert DocId(docs[i]) != DocId(last) && front[i] == docs[i];
      }
    }
  }

  // ----- What a summary accounts for

  /** How many of these documents contribute no text. */
  function Textless(p: Policy, docs: seq<Document>): nat {
    if docs == [] then 0
    else Textless(p, docs[..|docs| - 1]) + if Wanted(p, docs[|docs| - 1]).None? then 1 else 0
  }

  lemma UpsertedSize(p: Policy, ix: ContentIndex, d: Document)
    ensures var id, verdict, next := DocId(d), Judge(p, R.Find(ix, DocId(d)), d), Upserted(p, ix, d);
      |next| == |ix| + (if verdict.Rewrite? && id !in ix then 1 else 0) - (if verdict.Drop? && id in ix then 1 else 0)
  {
    var id := DocId(d);
    assert (ix - {id}).Keys == ix.Keys - {id};
    assert |(ix - {id}).Keys| == |ix - {id}|;
  }

  /** A known document without a text is dropped, whatever shortcut its entry would allow. */
  lemma DroppedExactly(p: Policy, ix: ContentIndex, d: Document)
    requires Consistent(p) && IndexSound(p, ix)
    ensures Judge(p, R.Find(ix, DocId(d)), d).Drop? <==> Wanted(p, d).None?
  {
    UpsertedText(p, ix, d);
  }

  /** Each document is counted once, and the index grew and shrank by what the summary says. */
  ghost predicate Accounts(p: Policy, ix: ContentIndex, next: ContentIndex, docs: seq<Document>, s: Summary) {
    && s.catalog == |docs| == s.same + s.metadataOnly + s.unchangedHash + s.added + s.updated + s.skipped
    && s.skipped == Textless(p, docs) && s.evicted <= s.skipped && s.removed == 0
    && |next| == |ix| + s.added - s.evicted
  }

  /** One document more, against the entry it finds. */
  lemma OneMoreAccounts(p: Policy, ix: ContentIndex, writer: ContentIndex, docs: seq<Document>, d: Document, s: Summary)
    requires Accounts(p, ix, writer, docs, s) && R.Find(writer, DocId(d)) == R.Find(ix, DocId(d))
    requires Judge(p, R.Find(ix, DocId(d)), d).Drop? <==> Wanted(p, d).None?
    ensures Accounts(p, ix, Upserted(p, writer, d), docs + [d], Counted(p, ix, d, s))
  {
    hide Judge, Wanted, DocId;
    UpsertedSize(p, writer, d);
    assert (docs + [d])[..|docs|] == docs;
  }

  /**
   * Every document is accounted for once, the skipped ones are those without a text, and the index
   * grows by what was added and shrinks by what was evicted.
   */
  lemma {:induction false} SummaryAccounts(p: Policy, ix: ContentIndex, docs: seq<Document>)
    requires Consistent(p) && IndexSound(p, ix) && DistinctIds(docs, [])
    ensures Accounts(p, ix, UpsertAll(p, ix, docs), docs, CountAll(p, ix, docs))
  {
    if docs != [] {
      hide Accounts, Upserted, Counted, Judge, Wanted, IndexSound, Consistent, DocId;
      var front, last := docs[..|docs| - 1], docs[|docs| - 1];
      SummaryAccounts(p, ix, front);
      UntouchedFind(p, ix, front, DocId(last));
      DroppedExactly(p, ix, last);
      OneMoreAccounts(p, ix, UpsertAll(p, ix, front), front, last, CountAll(p, ix, front));
      assert front + [last] == docs;
    }
  }

  lemma OneMoreId(docs: seq<Document>, i: nat)
    requires i < |docs|
    ensures IdsOf(docs[..i + 1]) == IdsOf(docs[..i]) + {DocId(docs[i])}
    ensures DistinctIds(docs[..i], []) && DocId(docs[i]) !in IdsOf(docs[..i]) ==> DistinctIds(docs[..i + 1], [])
  {
    var more := docs[..i + 1];
    assert forall j :: 0 <= j < i ==> more[j] == docs[..i][j];
    assert more[i] == docs[i];
    forall x | x in IdsOf(docs[..i]) ensures x in IdsOf(more) {
      var j :| 0 <= j < i && DocId(docs[..i][j]) == x;
      assert DocId(more[j]) == x;
    }
    forall j | 0 <= j < i ensures DocId(more[j]) in IdsOf(docs[..i]) {
      assert DocId(docs[..i][j]) == DocId(more[j]);
    }
  }

  datatype DeltaResult = Applied(summary: Summary, generation: nat) | DuplicateDocument

  class ContentIndexFile {
    /** The last committed generation of this index. */
    var index: ContentIndex
    /** Commit stamp of that generation. */
    var generation: nat

    /** Open the committed state found on disk. */
    constructor (index: ContentIndex, generation: nat)
      ensures this.index == index && this.generation == generation
    {
      this.index, this.generation := index, generation;
    }

    /**
     * One idempotent commit. Prior entries are looked up in the committed snapshot, which is the
     * writer's own view because no identity may appear twice.
     */
    method ApplyDelta(p: Policy, upserts: seq<Document>, deletions: seq<DocumentId>) returns (r: DeltaResult)
      modifies this
      ensures r.DuplicateDocument? <==> !DistinctIds(upserts, deletions)
      ensures r.DuplicateDocument? ==> index == old(index) && generation == old(generation)
      ensures r.Applied? ==>
        && index == UpsertAll(p, old(index), upserts) - (set x | x in deletions)
        && r.generation == generation > old(generation)
        && r.summary == CountAll(p, old(index), upserts).(removed := |set x | x in deletions && x in old(index)|)
    {
      var seen: set<DocumentId> := {};
      var writer := index;
      var summary := EMPTY_SUMMARY;
      assert upserts[..0] == [];
      for i := 0 to |upserts|
        invariant index == old(index) && generation == old(generation)
        invariant DistinctIds(upserts[..i], []) && seen == IdsOf(upserts[..i])
        invariant writer == UpsertAll(p, index, upserts[..i]) && summary == CountAll(p, index, upserts[..i])
      {
        var d := upserts[i];
        if DocId(d) in seen {
          assert exists j :: 0 <= j < i && DocId(upserts[j]) == DocId(d);
          return DuplicateDocument;
        }
        forall j | 0 <= j < i ensures DocId(upserts[j]) != DocId(d) {
          assert DocId(upserts[..i][j]) in seen;
        }
        UntouchedFind(p, index, upserts[..i], DocId(d));
        OneMoreId(upserts, i);
        assert upserts[..i + 1][..i] == upserts[..i];
        seen := seen + {DocId(d)};
        summary := Counted(p, index, d, summary);
        var prior := R.Find(index, DocId(d));
        match Judge(p, prior, d) {
          case Drop => writer := writer - {DocId(d)};
          case Rewrite(text) => writer := writer[DocId(d) := Stored(d, text)];
          case _ =>
        }
      }
      assert upserts[..|upserts|] == upserts;
      r := DeleteAll(upserts, deletions, seen, writer, summary);
    }

    method DeleteAll(
      ghost upserts: seq<Document>, deletions: seq<DocumentId>, upserted: set<DocumentId>,
      written: ContentIndex, counted: Summary) returns (r: DeltaResult)
      requires DistinctIds(upserts, []) && upserted == IdsOf(upserts)
      modifies this
      ensures r.DuplicateDocument? <==> !DistinctIds(upserts, deletions)
      ensures r.DuplicateDocument? ==> index == old(index) && generation == old(generation)
      ensures r.Applied? ==>
        && index == written - (set x | x in deletions)
        && r.generation == generation > old(generation)
        && r.summary == counted.(removed := |set x | x in deletions && x in old(index)|)
    {
      var gone: set<DocumentId> := {};
      var removed: set<DocumentId> := {};
      for i := 0 to |deletions|
        invariant index == old(index) && generation == old(generation)
        invariant gone == set x | x in deletions[..i]
        invariant removed == set x | x in deletions[..i] && x in index
        invariant DistinctIds(upserts, deletions[..i])
      {
        var id := deletions[i];
        if id in upserted || id in gone {
          if id in gone {
            assert exists j :: 0 <= j < i && deletions[j] == id;
          }
          return DuplicateDocument;
        }
        assert deletions[..i + 1] == deletions[..i] + [id];
        gone := gone + {id};
        if id in index {
          removed := removed + {id};
        }
      }
      assert deletions[..|deletions|] == deletions;
      index, generation := written - gone, generation + 1;
      return Applied(counted.(removed := |removed|), generation);
    }
  }
}
