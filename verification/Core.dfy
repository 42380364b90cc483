/** Portable identities, documents and projection mutations shared by every component. */
module Core {

  datatype Option<+T> = None | Some(value: T)

  // Sixteen-byte identities are compared bytewise by the store, which is the order of the
  // natural numbers they encode.
  type VolumeId = nat
  type FileId = nat
  type LinkId = nat
  type DocumentId = nat

  datatype FileKey = FileKey(volume: VolumeId, file: FileId)

  datatype FileKind = File | Directory | Symlink | Special | Other

  datatype Availability = Online | Offline | Unknown

  datatype Metadata = Metadata(
    kind: FileKind, size: nat, created: Option<int>, modified: Option<int>, hidden: bool,
    availability: Availability)

  /** Stable object, link and document identity of one projection. */
  datatype Identity = Identity(key: FileKey, link: LinkId, document: DocumentId)

  /** Everything a projection carries except its version: what its fingerprint digests. */
  datatype Content = Content(
    identity: Identity, name: string, path: string, extension: Option<string>, metadata: Metadata)

  datatype Document = Document(content: Content, version: nat)

  function DocId(document: Document): DocumentId {
    document.content.identity.document
  }

  /** A document identity is the link identity's own bytes. */
  function DocumentIdForLink(link: LinkId): DocumentId {
    link
  }

  datatype IndexMutation =
    | Upsert(document: Document)
    | Delete(documentId: DocumentId, version: nat)

  datatype SequencedMutation = SequencedMutation(sequence: nat, mutation: IndexMutation)

  function Target(m: IndexMutation): DocumentId {
    match m
    case Upsert(d) => DocId(d)
    case Delete(id, _) => id
  }

  function Effect(m: IndexMutation): Option<Document> {
    match m
    case Upsert(d) => Some(d)
    case Delete(_, _) => None
  }

  /** Smallest element of a nonempty set of identities. */
  ghost function Min(s: set<nat>): (m: nat)
    requires s != {}
    ensures m in s && forall x :: x in s ==> m <= x
  {
    var x :| x in s;
    if s == {x} then x else
      var rest := Min(s - {x});
      assert s == (s - {x}) + {x};
      if x < rest then x else rest
  }

  /** The elements of a set in ascending order: `ORDER BY id`. */
  ghost function Ascending(s: set<nat>): seq<nat> {
    if s == {} then [] else [Min(s)] + Ascending(s - {Min(s)})
  }

  ghost predicate StrictlyAscending(r: seq<nat>) {
    forall i, j :: 0 <= i < j < |r| ==> r[i] < r[j]
  }

  lemma {:induction false} AscendingEnumerates(s: set<nat>)
    ensures |Ascending(s)| == |s|
    ensures forall x :: x in Ascending(s) <==> x in s
    ensures StrictlyAscending(Ascending(s))
  {
    if s != {} {
      var m := Min(s);
      var rest := s - {m};
      AscendingEnumerates(rest);
      assert s == rest + {m};
      var tail := Ascending(rest);
      assert Ascending(s) == [m] + tail;
      forall x | x in tail ensures m < x {
        assert x in rest;
      }
      AscendingCons(m, tail);
    }
  }

  lemma AscendingCons(m: nat, tail: seq<nat>)
    requires StrictlyAscending(tail) && forall x :: x in tail ==> m < x
    ensures StrictlyAscending([m] + tail)
  {
    var all := [m] + tail;
    forall i, j | 0 <= i < j < |all| ensures all[i] < all[j] {
      assert all[j] == tail[j - 1] && tail[j - 1] in tail;
      if i > 0 {
        assert all[i] == tail[i - 1];
      }
    }
  }

  ghost function Max(s: set<nat>): (m: nat)
    requires s != {}
    ensures m in s && forall x :: x in s ==> x <= m
  {
    var x :| x in s;
    if s == {x} then x else
      var rest := Max(s - {x});
      assert s == (s - {x}) + {x};
      if rest < x then x else rest
  }

  /** An observation generation paired with a row identity. */
  datatype Aged = Aged(observed: nat, id: nat)

  predicate Older(a: Aged, b: Aged) {
    a.observed < b.observed || (a.observed == b.observed && a.id < b.id)
  }

  ghost function Oldest(s: set<Aged>): (m: Aged)
    requires s != {}
    ensures m in s && forall x :: x in s ==> x == m || Older(m, x)
  {
    var x :| x in s;
    if s == {x} then x else
      var rest := Oldest(s - {x});
      assert s == (s - {x}) + {x};
      if Older(x, rest) then x else rest
  }

  /** The elements of a set, oldest observation first: `ORDER BY observation_generation, id`. */
  ghost function ByAge(s: set<Aged>): seq<Aged> {
    if s == {} then [] else [Oldest(s)] + ByAge(s - {Oldest(s)})
  }

  lemma {:induction false} ByAgeEnumerates(s: set<Aged>)
    ensures |ByAge(s)| == |s|
    ensures forall x :: x in ByAge(s) <==> x in s
  {
    if s != {} {
      var m := Oldest(s);
      var rest := s - {m};
      ByAgeEnumerates(rest);
      assert s == rest + {m};
    }
  }

  /** A subset is no larger, and of the same size only if it is the whole set. */
  lemma SubsetSize<T>(a: set<T>, b: set<T>)
    requires a <= b
    ensures |a| <= |b| && (|a| == |b| <==> a == b)
  {
    assert b == a + (b - a);
    assert |b| == |a| + |b - a|;
  }

  /** `LIMIT n`. */
  function Limit<T>(s: seq<T>, n: nat): (r: seq<T>)
    ensures r <= s && |r| == if |s| <= n then |s| else n
  {
    if |s| <= n then s else s[..n]
  }
}
