/** Which links the catalog shows, and under which path. */
module CatalogPaths {
  import opened Core
  import opened Schema
  import opened PathResolution
  import opened GraphSpec
  import opened GraphTables
  import opened Replay
  import opened Catalog
  import opened Maintenance

  // ----- Paths and extensions

  /** Joining pins each separator: parts are joined apart and then to each other. */
  lemma {:induction false} JoinSplits(a: seq<string>, b: seq<string>)
    requires a != [] && b != []
    ensures Join(a + b) == Join(a) + "/" + Join(b)
  {
    if |a| == 1 {
      assert (a + b)[1..] == b;
    } else {
      assert (a + b)[1..] == a[1..] + b;
      JoinSplits(a[1..], b);
    }
  }

  lemma {:induction false} LastDotExact(name: string)
    ensures match LastDot(name)
      case None => '.' !in name
      case Some(i) => i < |name| && name[i] == '.' && '.' !in name[i + 1..]
  {
    if name != "" && name[|name| - 1] != '.' {
      var front := name[..|name| - 1];
      LastDotExact(front);
      if LastDot(front).Some? {
        var i := LastDot(front).value;
        assert name[i + 1..] == front[i + 1..] + [name[|name| - 1]];
      } else {
        assert name == front + [name[|name| - 1]];
      }
    }
  }

  lemma DotUnique(name: string, i: nat, j: nat)
    requires i < |name| && name[i] == '.' && '.' !in name[i + 1..]
    requires j < |name| && name[j] == '.' && '.' !in name[j + 1..]
    ensures i == j
  {
    assert forall k :: i < k < |name| ==> name[k] in name[i + 1..];
    assert forall k :: j < k < |name| ==> name[k] in name[j + 1..];
  }

  /** An extension is what follows the last dot, and is never empty. */
  lemma ExtensionExact(name: string, extension: string)
    ensures ExtensionOf(name) == Some(extension) <==>
      extension != "" && '.' !in extension && exists stem :: name == stem + "." + extension
  {
    LastDotExact(name);
    if ExtensionOf(name) == Some(extension) {
      var i := LastDot(name).value;
      assert name == name[..i] + "." + extension;
    }
    forall stem: string | extension != "" && '.' !in extension && name == stem + "." + extension
      ensures ExtensionOf(name) == Some(extension)
    {
      assert name[|stem|] == '.' && name[|stem| + 1..] == extension;
      DotUnique(name, |stem|, LastDot(name).value);
    }
  }

  // ----- What the catalog should show of one link

  /** Some boundary-free chain of sole parents within the limit leads from the link to a root. */
  ghost predicate Rooted(links: Links, l: LinkId) {
    exists chain :: Reaches(links, l, PATH_DEPTH_LIMIT, chain)
  }

  ghost predicate PathFollows(links: Links, l: LinkId, path: string) {
    forall chain :: Reaches(links, l, PATH_DEPTH_LIMIT, chain) ==> path == Join(NamesFromRoot(links, chain))
  }

  /**
   * A link has a document exactly when it is rooted. The document's path is the names along its
   * chain, and the rest of it is the join of link, object and volume as they are now.
   */
  ghost predicate Shows(db: Db, l: LinkId) {
    && (l in db.docs <==> Rooted(db.links, l))
    && (l in db.docs ==> PathFollows(db.links, l, db.docs[l].path)) && Fresh(db, l)
  }

  /** A shown document has its object's own availability on a volume that is online, and no other. */
  lemma ShownAvailability(db: Db, l: LinkId)
    requires Shows(db, l) && l in db.docs
    ensures var row := db.docs[l];
      && row.key in db.objects && row.key.volume in db.volumes
      && row.fingerprint.metadata.availability ==
         match db.volumes[row.key.volume].state
         case VolumeOnline => db.objects[row.key].metadata.availability
         case VolumeOffline => Offline
         case NeedsReconciliation => Unknown
  {
    hide Rooted, PathFollows;
  }

  /** Exactly the rooted links derive a document, with the names along their chain as its path. */
  lemma DeriveExact(db: Db, l: LinkId)
    requires TablesSound(db)
    ensures var r := Derive(db.volumes, db.objects, db.links, l);
      && r.Ok? && (r.value.Some? <==> Rooted(db.links, l))
      && (r.value.Some? ==> PathFollows(db.links, l, r.value.value.path))
  {
    hide TablesSound, Resolve;
    DeriveSucceeds(db, l);
    ResolveExact(db.links, l, PATH_DEPTH_LIMIT);
  }

  lemma SyncShows(db: Db, l: LinkId, version: nat, mode: OutboxMode)
    requires TablesSound(db) && RowsShaped(db.docs)
    ensures var r := Sync(db, l, version, mode); r.Ok? && Shows(r.value, l)
  {
    hide TablesSound, Derive, Fresh, Rooted, PathFollows;
    SyncFresh(db, l, version, mode);
    DeriveExact(db, l);
    DeriveShape(db, l);
    ProjectRow(db, l, Derive(db.volumes, db.objects, db.links, l).value, version, mode);
  }

  /** What a link shows depends on the graph and its own row. */
  lemma ShowsSame(a: Db, b: Db, l: LinkId)
    requires Shows(a, l) && a.links == b.links && a.objects == b.objects && Find(a.docs, l) == Find(b.docs, l)
    requires a.volumes.Keys == b.volumes.Keys
    requires forall v :: v in a.volumes ==> a.volumes[v].state == b.volumes[v].state
    ensures Shows(b, l)
  {
    hide Rooted, PathFollows;
  }

  lemma {:induction false} SyncAllShows(db: Db, ls: seq<LinkId>, version: nat, mode: OutboxMode)
    requires TablesSound(db) && RowsShaped(db.docs)
    ensures var r := SyncAll(db, ls, version, mode); r.Ok? && forall l :: l in ls ==> Shows(r.value, l)
  {
    hide TablesSound, RowsShaped, Shows, Sync;
    SyncAllFresh(db, ls, version, mode);
    if ls != [] {
      var front, last := ls[..|ls| - 1], ls[|ls| - 1];
      SyncAllFresh(db, front, version, mode);
      SyncAllShows(db, front, version, mode);
      var prior := SyncAll(db, front, version, mode).value;
      SameTables(db, prior);
      SyncFresh(prior, last, version, mode);
      SyncShows(prior, last, version, mode);
      var next := Sync(prior, last, version, mode).value;
      forall l | l in ls ensures Shows(next, l) {
        if l != last {
          assert l in front;
          ShowsSame(prior, next, l);
        }
      }
    }
  }

  lemma SameTables(a: Db, b: Db)
    requires TablesSound(a) && SameGraph(a, b)
    ensures TablesSound(b)
  {
  }

  // ----- Batches

  /** Links a mutation speaks of: the one it writes or removes, or every link of its object. */
  ghost predicate Concerns(m: GraphMutation, links: Links, l: LinkId) {
    match m
    case UpsertLink(link, _) => l == link.id
    case RemoveLink(id, _) => l == id
    case UpsertObject(o) => l in links && links[l].key == o.key
    case TombstoneObject(key) => l in links && links[l].key == key
    case _ => false
  }

  lemma {:induction false} ConcernedCollected(db: Db, ms: seq<GraphMutation>, g: nat, v: VolumeId, l: LinkId)
    requires TablesSound(db) && ApplyAll(Tx(db, {}), ms, g).Ok?
    requires forall i :: 0 <= i < |ms| ==> InVolume(ms[i], v)
    ensures var tx := ApplyAll(Tx(db, {}), ms, g).value;
      (exists m :: m in ms && Concerns(m, tx.db.links, l)) ==> l in tx.affected
    ensures var tx := ApplyAll(Tx(db, {}), ms, g).value;
      !SameLink(db, tx.db, l) ==> l in tx.affected
  {
    hide TablesSound, Apply;
    if ms != [] {
      var front, last := ms[..|ms| - 1], ms[|ms| - 1];
      ConcernedCollected(db, front, g, v, l);
      ApplyAllKeeps(Tx(db, {}), front, g, v);
      var prior := ApplyAll(Tx(db, {}), front, g).value;
      var tx := ApplyAll(Tx(db, {}), ms, g).value;
      ApplyKeeps(prior.db, last, g, v);
      forall m | m in ms && Concerns(m, tx.db.links, l) ensures l in tx.affected {
        assert ms == front + [last];
        if l !in Affected(prior.db, last) {
          assert SameLink(prior.db, tx.db, l);
          if m in front {
            assert Concerns(m, prior.db.links, l);
          } else {
            assert Concerns(last, prior.db.links, l);
          }
        }
      }
    }
  }

  /**
   * After a committed batch the catalog shows exactly what it should of every link that the batch
   * wrote, removed or changed, and of every link of an object that it observed.
   */
  lemma BatchShows(db: Db, b: Batch, mode: OutboxMode, l: LinkId)
    requires CatalogSound(db) && ApplyBatch(db, b, mode).Ok?
    ensures var next := ApplyBatch(db, b, mode).value;
      !SameLink(db, next, l) || (exists m :: m in b.mutations && Concerns(m, next.links, l)) ==> Shows(next, l)
    ensures l in Mutated(db, b).value.affected ==> Shows(ApplyBatch(db, b, mode).value, l)
  {
    hide TablesSound, RowsShaped, FaithfulExcept, ApplyAll, SyncAll, Shows, Concerns;
    var g := Generation(db, b.volume) + 1;
    var tx := Mutated(db, b).value;
    ConcernedCollected(db, b.mutations, g, b.volume, l);
    ApplyAllKeepsFaithful(db, b.mutations, g, b.volume);
    AscendingEnumerates(tx.affected);
    var ls := Ascending(tx.affected);
    SyncAllFresh(tx.db, ls, g, mode);
    SyncAllShows(tx.db, ls, g, mode);
    if l in tx.affected {
      ShowsSame(SyncAll(tx.db, ls, g, mode).value, ApplyBatch(db, b, mode).value, l);
    }
  }

  // ----- Refresh pages

  /** Links of a refresh job at or before its new position. */
  ghost predicate Passed(cursor: Option<LinkId>, pending: bool, l: LinkId) {
    pending ==> cursor.Some? && l <= cursor.value
  }

  ghost function UpTo(s: set<nat>, bound: nat): set<nat> {
    set x | x in s && x <= bound
  }

  /** The job moved on to one of its links, or ended; it took `maximum` links exactly when it goes on. */
  ghost predicate PageTaken(
    ahead: set<LinkId>, from: Option<LinkId>, to: Option<LinkId>, pending: bool, maximum: nat)
  {
    if pending then
      && to.Some? && to.value in ahead && |UpTo(ahead, to.value)| == maximum
    else to == from && |ahead| < maximum
  }

  lemma UpToMin(s: set<nat>)
    requires s != {}
    ensures |UpTo(s, Min(s))| == 1
  {
    assert UpTo(s, Min(s)) == {Min(s)};
  }

  lemma UpToRest(s: set<nat>, bound: nat)
    requires s != {} && bound in s - {Min(s)}
    ensures |UpTo(s, bound)| == |UpTo(s - {Min(s)}, bound)| + 1
  {
    assert UpTo(s, bound) == UpTo(s - {Min(s)}, bound) + {Min(s)};
  }

  /** Up to its own last element, an ascending enumeration lists each element once. */
  lemma {:induction false} PrefixSize(s: set<nat>, k: nat)
    requires k < |s|
    ensures |Ascending(s)| == |s| && |UpTo(s, Ascending(s)[k])| == k + 1
  {
    hide StrictlyAscending, UpTo;
    AscendingEnumerates(s);
    var m := Min(s);
    var rest := s - {m};
    assert Ascending(s) == [m] + Ascending(rest);
    if k == 0 {
      UpToMin(s);
    } else {
      PrefixSize(rest, k - 1);
      var bound := Ascending(rest)[k - 1];
      AscendingEnumerates(rest);
      assert bound in rest;
      UpToRest(s, bound);
    }
  }

  lemma PrefixListed(all: seq<nat>, n: nat, x: nat)
    requires StrictlyAscending(all) && 0 < n <= |all|
    ensures x in all[..n] <==> x in all && x <= all[n - 1]
  {
    if x in all && x <= all[n - 1] {
      var i :| 0 <= i < |all| && all[i] == x;
      assert i < n;
      assert all[..n][i] == x;
    }
    if x in all[..n] {
      var i :| 0 <= i < n && all[i] == x;
    }
  }

  lemma FullPage(ahead: set<LinkId>, maximum: nat)
    requires 0 < maximum <= |ahead|
    ensures |Ascending(ahead)| == |ahead|
    ensures PageTaken(ahead, None, Some(Ascending(ahead)[maximum - 1]), true, maximum)
    ensures forall l :: l in Ascending(ahead)[..maximum] <==> l in ahead && l <= Ascending(ahead)[maximum - 1]
  {
    hide StrictlyAscending, Ascending, UpTo;
    AscendingEnumerates(ahead);
    PrefixSize(ahead, maximum - 1);
    ListedTo(ahead, Ascending(ahead), maximum);
  }

  lemma ListedTo(s: set<nat>, all: seq<nat>, n: nat)
    requires StrictlyAscending(all) && 0 < n <= |all| && forall x :: x in all <==> x in s
    ensures all[n - 1] in s && forall x :: x in all[..n] <==> x in s && x <= all[n - 1]
  {
    hide StrictlyAscending;
    assert all[n - 1] in all;
    forall x ensures x in all[..n] <==> x in s && x <= all[n - 1] {
      PrefixListed(all, n, x);
    }
  }

  lemma PageIsNext(ahead: set<LinkId>, from: Option<LinkId>, maximum: nat)
    requires maximum > 0
    ensures var page := Limit(Ascending(ahead), maximum);
      var pending := |page| >= maximum;
      var to := if pending then Some(page[|page| - 1]) else from;
      PageTaken(ahead, from, to, pending, maximum) && forall l :: l in page <==> l in ahead && Passed(to, pending, l)
  {
    hide StrictlyAscending, Ascending;
    AscendingEnumerates(ahead);
    var page := Limit(Ascending(ahead), maximum);
    if maximum <= |ahead| {
      FullPage(ahead, maximum);
      assert page == Ascending(ahead)[..maximum];
    } else {
      assert page == Ascending(ahead);
    }
  }

  /** Documents of the volume that its refresh has yet to reach. */
  ghost function DocsAhead(db: Db, v: VolumeId, cursor: Option<LinkId>): set<LinkId> {
    set l | l in db.docs && db.docs[l].key.volume == v && Beyond(cursor, l)
  }

  /** Links of the volume that a path refresh has yet to reach. */
  ghost function LinksAhead(db: Db, v: VolumeId, cursor: Option<LinkId>): set<LinkId> {
    set l | l in db.links && db.links[l].key.volume == v && Beyond(cursor, l)
  }

  /**
   * One volume refresh takes the next documents of the lowest pending volume, and shows each as it
   * should be; the job ends exactly when none lies beyond.
   */
  lemma RefreshVolumeShows(db: Db, maximum: nat, v: VolumeId)
    requires CatalogSound(db) && RefreshVolume(db, maximum).Ok? && maximum > 0
    requires v in PendingVolumes(db) && forall w :: w in PendingVolumes(db) ==> v <= w
    ensures var next := RefreshVolume(db, maximum).value;
      var ahead, job := DocsAhead(db, v, db.volumeJobs[v].cursor), next.volumeJobs[v];
      && next.volumeJobs == db.volumeJobs[v := job] && job.generation == db.volumeJobs[v].generation
      && PageTaken(ahead, db.volumeJobs[v].cursor, job.cursor, job.pending, maximum)
      && forall l :: l in ahead && Passed(job.cursor, job.pending, l) ==> Shows(next, l)
  {
    hide TablesSound, RowsShaped, FaithfulExcept, SyncAll, Shows, Ascending, PageTaken;
    assert v == Min(PendingVolumes(db));
    var cursor := db.volumeJobs[v].cursor;
    var page := VolumeRefreshPage(db, v, cursor, maximum);
    var ahead := DocsAhead(db, v, cursor);
    assert page == Limit(Ascending(ahead), maximum);
    PageIsNext(ahead, cursor, maximum);
    SyncAllFresh(db, page, Generation(db, v), Durable);
    SyncAllShows(db, page, Generation(db, v), Durable);
    var synced, next := SyncAll(db, page, Generation(db, v), Durable).value, RefreshVolume(db, maximum).value;
    forall l | l in page ensures Shows(next, l) {
      ShowsSame(synced, next, l);
    }
  }

  /** The job taken is the oldest one that is pending. */
  lemma {:induction false} FirstPendingExact(jobs: seq<PathJob>)
    ensures FirstPending(jobs) <= |jobs| && (FirstPending(jobs) < |jobs| ==> jobs[FirstPending(jobs)].pending)
    ensures forall i :: 0 <= i < FirstPending(jobs) ==> !jobs[i].pending
  {
    if jobs != [] && !jobs[0].pending {
      FirstPendingExact(jobs[1..]);
      forall i | 0 <= i < FirstPending(jobs) ensures !jobs[i].pending {
        if i > 0 {
          assert jobs[i] == jobs[1..][i - 1];
        }
      }
    }
  }

  /** The same of one path refresh: it takes links, documents or not. */
  lemma RefreshPathsShows(db: Db, maximum: nat)
    requires CatalogSound(db) && RefreshPaths(db, maximum).Ok?
    requires maximum > 0 && FirstPending(db.pathJobs) < |db.pathJobs|
    ensures var next := RefreshPaths(db, maximum).value;
      var j := FirstPending(db.pathJobs);
      var v := db.pathJobs[j].root.volume;
      var ahead, job := LinksAhead(db, v, db.pathJobs[j].cursor), next.pathJobs[j];
      && next.pathJobs == db.pathJobs[j := job] && job.root == db.pathJobs[j].root
      && PageTaken(ahead, db.pathJobs[j].cursor, job.cursor, job.pending, maximum)
      && (forall l :: l in ahead && Passed(job.cursor, job.pending, l) ==> Shows(next, l))
      && (forall l :: l !in ahead || !Passed(job.cursor, job.pending, l) ==> Find(next.docs, l) == Find(db.docs, l))
  {
    hide TablesSound, RowsShaped, FaithfulExcept, SyncAll, Shows, Ascending, PageTaken;
    var j := FirstPending(db.pathJobs);
    FirstPendingExact(db.pathJobs);
    var v, cursor := db.pathJobs[j].root.volume, db.pathJobs[j].cursor;
    var page := PathRefreshPage(db, v, cursor, maximum);
    var ahead := LinksAhead(db, v, cursor);
    assert page == Limit(Ascending(ahead), maximum);
    PageIsNext(ahead, cursor, maximum);
    SyncAllFresh(db, page, Generation(db, v), Durable);
    SyncAllShows(db, page, Generation(db, v), Durable);
    var synced, next := SyncAll(db, page, Generation(db, v), Durable).value, RefreshPaths(db, maximum).value;
    forall l | l in page ensures Shows(next, l) {
      ShowsSame(synced, next, l);
    }
  }
}
