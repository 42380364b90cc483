/** A materialized index as a map from document identity to document, fed by logged mutations. */
module Replay {
  import opened Core

  type Index = map<DocumentId, Document>

  /** Delete by identity, then add the supplied document if there is one. */
  function Write(ix: Index, m: IndexMutation): Index {
    match m
    case Upsert(d) => ix[DocId(d) := d]
    case Delete(id, _) => ix - {id}
  }

  /** An upsert's document identity is the one derived from its link. */
  ghost predicate WellIdentified(rows: seq<SequencedMutation>) {
    forall i :: 0 <= i < |rows| && rows[i].mutation.Upsert? ==>
      DocId(rows[i].mutation.document) == DocumentIdForLink(rows[i].mutation.document.content.identity.link)
  }

  function Run(ix: Index, rows: seq<SequencedMutation>): Index {
    if rows == [] then ix else Write(Run(ix, rows[..|rows| - 1]), rows[|rows| - 1].mutation)
  }

  function Find<V>(ix: map<DocumentId, V>, id: DocumentId): Option<V> {
    if id in ix then Some(ix[id]) else None
  }

  /** The value the last mutation of `id` leaves; `None` when no mutation names it. */
  function LastWrite(rows: seq<SequencedMutation>, id: DocumentId): Option<Option<Document>> {
    if rows == [] then None
    else if Target(rows[|rows| - 1].mutation) == id then Some(Effect(rows[|rows| - 1].mutation))
    else LastWrite(rows[..|rows| - 1], id)
  }

  /** Replay is last-writer-wins, identity by identity. */
  lemma {:induction false} RunFind(ix: Index, rows: seq<SequencedMutation>, id: DocumentId)
    ensures Find(Run(ix, rows), id) ==
            match LastWrite(rows, id) case None => Find(ix, id) case Some(effect) => effect
  {
    if rows != [] {
      RunFind(ix, rows[..|rows| - 1], id);
    }
  }

  lemma SameFind<V>(a: map<DocumentId, V>, b: map<DocumentId, V>)
    requires forall id :: Find(a, id) == Find(b, id)
    ensures a == b
  {
    forall id ensures id in a <==> id in b {
      assert Find(a, id) == Find(b, id);
    }
    forall id | id in a ensures a[id] == b[id] {
      assert Find(a, id) == Find(b, id);
    }
  }

  lemma {:induction false} LastWriteConcat(a: seq<SequencedMutation>, b: seq<SequencedMutation>, id: DocumentId)
    ensures LastWrite(a + b, id) == if LastWrite(b, id).Some? then LastWrite(b, id) else LastWrite(a, id)
    decreases |b|
  {
    if b == [] {
      assert a + b == a;
    } else {
      assert (a + b)[..|a + b| - 1] == a + b[..|b| - 1];
      LastWriteConcat(a, b[..|b| - 1], id);
    }
  }

  lemma RunConcat(ix: Index, a: seq<SequencedMutation>, b: seq<SequencedMutation>)
    ensures Run(ix, a + b) == Run(Run(ix, a), b)
  {
    forall id ensures Find(Run(ix, a + b), id) == Find(Run(Run(ix, a), b), id) {
      RunFind(ix, a + b, id);
      RunFind(Run(ix, a), b, id);
      RunFind(ix, a, id);
      LastWriteConcat(a, b, id);
    }
    SameFind(Run(ix, a + b), Run(Run(ix, a), b));
  }

  /** Applying a prefix early changes nothing once the whole log is applied. */
  lemma RunAgain(ix: Index, a: seq<SequencedMutation>, b: seq<SequencedMutation>)
    ensures Run(Run(ix, a), a + b) == Run(ix, a + b)
  {
    forall id ensures Find(Run(Run(ix, a), a + b), id) == Find(Run(ix, a + b), id) {
      RunFind(Run(ix, a), a + b, id);
      RunFind(ix, a + b, id);
      RunFind(ix, a, id);
      LastWriteConcat(a, b, id);
    }
    SameFind(Run(Run(ix, a), a + b), Run(ix, a + b));
  }
}
