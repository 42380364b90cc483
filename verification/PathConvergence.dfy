/** Deferred path refreshes: which links they bring up to date, when, and what queues them. */
module PathConvergence {
  import opened Core
  import opened Schema
  import opened PathResolution
  import opened GraphSpec
  import opened GraphTables
  import opened Replay
  import opened Catalog
  import opened Maintenance
  import opened CatalogPaths

  ghost function PathRefreshes(db: Db, maxima: seq<nat>): Result<Db> {
    if maxima == [] then Ok(db) else
      match PathRefreshes(db, maxima[..|maxima| - 1])
      case Err(e) => Err(e)
      case Ok(prior) => RefreshPaths(prior, maxima[|maxima| - 1])
  }

  ghost predicate AllPositive(maxima: seq<nat>) {
    forall i :: 0 <= i < |maxima| ==> maxima[i] > 0
  }

  // ----- What a job has yet to reach

  ghost predicate AheadOf(db: Db, job: PathJob, l: LinkId) {
    job.pending && l in LinksAhead(db, job.root.volume, job.cursor)
  }

  /** Some pending refresh has yet to reach the link. */
  ghost predicate Awaited(db: Db, l: LinkId) {
    exists i :: 0 <= i < |db.pathJobs| && AheadOf(db, db.pathJobs[i], l)
  }

  ghost predicate NothingPending(jobs: seq<PathJob>) {
    forall i :: 0 <= i < |jobs| ==> !jobs[i].pending
  }

  ghost predicate SameNormalized(a: Db, b: Db) {
    a.links == b.links && a.objects == b.objects && a.volumes == b.volumes && |a.pathJobs| == |b.pathJobs|
  }

  /** A link is shown once it was awaited and no longer is, stays shown, and is otherwise left alone. */
  ghost predicate Advanced(a: Db, b: Db, l: LinkId) {
    && (Awaited(b, l) ==> Awaited(a, l))
    && (Awaited(a, l) && !Awaited(b, l) ==> Shows(b, l))
    && (Shows(a, l) ==> Shows(b, l))
    && (!Awaited(a, l) ==> Find(b.docs, l) == Find(a.docs, l))
  }

  lemma IdleRefresh(db: Db, maximum: nat)
    requires FirstPending(db.pathJobs) >= |db.pathJobs|
    ensures RefreshPaths(db, maximum) == Ok(db)
  {
  }

  lemma StepAwaits(db: Db, next: Db, l: LinkId, j: nat)
    requires db.links == next.links && j < |db.pathJobs| && |next.pathJobs| == |db.pathJobs|
    requires next.pathJobs == db.pathJobs[j := next.pathJobs[j]]
    requires AheadOf(next, next.pathJobs[j], l) ==> AheadOf(db, db.pathJobs[j], l)
    ensures Awaited(next, l) ==> Awaited(db, l)
    ensures Awaited(db, l) && !Awaited(next, l) ==>
      AheadOf(db, db.pathJobs[j], l) && !AheadOf(next, next.pathJobs[j], l)
  {
    hide LinksAhead;
    SameAhead(db, next, l);
    if Awaited(next, l) {
      var i :| 0 <= i < |next.pathJobs| && AheadOf(next, next.pathJobs[i], l);
      assert AheadOf(db, db.pathJobs[i], l);
    }
    if Awaited(db, l) && !AheadOf(db, db.pathJobs[j], l) {
      var i :| 0 <= i < |db.pathJobs| && AheadOf(db, db.pathJobs[i], l);
      assert AheadOf(next, next.pathJobs[i], l);
    }
  }

  lemma SameAhead(a: Db, b: Db, l: LinkId)
    requires a.links == b.links
    ensures forall job :: AheadOf(a, job, l) <==> AheadOf(b, job, l)
  {
  }

  /** Passing a link and having it behind are the same for a job that moves within what is ahead. */
  lemma PassedIsBehind(db: Db, from: PathJob, to: PathJob, maximum: nat, l: LinkId)
    requires from.pending && from.root == to.root
    requires PageTaken(LinksAhead(db, from.root.volume, from.cursor), from.cursor, to.cursor, to.pending, maximum)
    ensures AheadOf(db, to, l) ==> AheadOf(db, from, l)
    ensures AheadOf(db, from, l) && !AheadOf(db, to, l) ==> Passed(to.cursor, to.pending, l)
    ensures AheadOf(db, to, l) ==> !Passed(to.cursor, to.pending, l)
  {
  }

  lemma RefreshAdvances(db: Db, maximum: nat, l: LinkId)
    requires CatalogSound(db) && maximum > 0 && RefreshPaths(db, maximum).Ok?
    ensures var next := RefreshPaths(db, maximum).value;
      CatalogSound(next) && SameNormalized(db, next) && Advanced(db, next, l)
  {
    hide CatalogSound, Shows, RefreshPaths, PageTaken, Awaited, AheadOf, LinksAhead;
    RefreshPathsKeeps(db, maximum);
    var next, j := RefreshPaths(db, maximum).value, FirstPending(db.pathJobs);
    FirstPendingExact(db.pathJobs);
    if j < |db.pathJobs| {
      RefreshPathsShows(db, maximum);
      var from, to := db.pathJobs[j], next.pathJobs[j];
      PassedIsBehind(db, from, to, maximum, l);
      SameAhead(db, next, l);
      StepAwaits(db, next, l, j);
      AheadIsListed(db, j, l);
      if Find(next.docs, l) == Find(db.docs, l) && Shows(db, l) {
        ShowsSame(db, next, l);
      }
    } else {
      IdleRefresh(db, maximum);
    }
  }

  lemma AheadIsListed(db: Db, j: nat, l: LinkId)
    requires j < |db.pathJobs| && db.pathJobs[j].pending
    ensures AheadOf(db, db.pathJobs[j], l) <==>
      l in LinksAhead(db, db.pathJobs[j].root.volume, db.pathJobs[j].cursor)
    ensures AheadOf(db, db.pathJobs[j], l) ==> Awaited(db, l)
  {
  }

  lemma {:induction false} RefreshesAdvance(db: Db, maxima: seq<nat>, l: LinkId)
    requires CatalogSound(db) && AllPositive(maxima) && PathRefreshes(db, maxima).Ok?
    ensures var next := PathRefreshes(db, maxima).value;
      CatalogSound(next) && SameNormalized(db, next) && Advanced(db, next, l)
  {
    hide CatalogSound, Shows, RefreshPaths, Awaited;
    if maxima != [] {
      var front := maxima[..|maxima| - 1];
      RefreshesAdvance(db, front, l);
      RefreshAdvances(PathRefreshes(db, front).value, maxima[|maxima| - 1], l);
    }
  }

  /**
   * Convergence, exactly: once undisturbed refreshes have left no job pending, the catalog shows a
   * link as it should be if and only if it did before or some job had yet to reach the link.
   */
  lemma PathsConverge(db: Db, maxima: seq<nat>, l: LinkId)
    requires CatalogSound(db) && AllPositive(maxima) && PathRefreshes(db, maxima).Ok?
    requires NothingPending(PathRefreshes(db, maxima).value.pathJobs)
    ensures Shows(PathRefreshes(db, maxima).value, l) <==> Shows(db, l) || Awaited(db, l)
  {
    hide CatalogSound, Shows, PathRefreshes, LinksAhead;
    RefreshesAdvance(db, maxima, l);
    var next := PathRefreshes(db, maxima).value;
    assert !Awaited(next, l);
    if Shows(next, l) && !Awaited(db, l) {
      ShowsSame(next, db, l);
    }
  }

  // ----- The end of all jobs

  /** Calls that a job still takes at most. */
  ghost function Cost(db: Db, job: PathJob): nat {
    if job.pending then 1 + |LinksAhead(db, job.root.volume, job.cursor)| else 0
  }

  ghost function Work(db: Db, jobs: seq<PathJob>): nat {
    if jobs == [] then 0 else Work(db, jobs[..|jobs| - 1]) + Cost(db, jobs[|jobs| - 1])
  }

  lemma {:induction false} WorkUpdated(db: Db, jobs: seq<PathJob>, j: nat, job: PathJob)
    requires j < |jobs|
    ensures Work(db, jobs[j := job]) + Cost(db, jobs[j]) == Work(db, jobs) + Cost(db, job)
  {
    hide Cost;
    var front := jobs[..|jobs| - 1];
    if j == |jobs| - 1 {
      assert jobs[j := job][..|jobs| - 1] == front;
    } else {
      assert jobs[j := job][..|jobs| - 1] == front[j := job];
      WorkUpdated(db, front, j, job);
    }
  }

  lemma {:induction false} NoWorkNothingPending(db: Db, jobs: seq<PathJob>)
    requires Work(db, jobs) == 0
    ensures NothingPending(jobs)
  {
    if jobs != [] {
      NoWorkNothingPending(db, jobs[..|jobs| - 1]);
    }
  }

  lemma {:induction false} WorkSame(a: Db, b: Db, jobs: seq<PathJob>)
    requires a.links == b.links
    ensures Work(a, jobs) == Work(b, jobs)
  {
    if jobs != [] {
      WorkSame(a, b, jobs[..|jobs| - 1]);
      var job := jobs[|jobs| - 1];
      assert LinksAhead(a, job.root.volume, job.cursor) == LinksAhead(b, job.root.volume, job.cursor);
    }
  }

  lemma CostFalls(db: Db, from: PathJob, to: PathJob, maximum: nat)
    requires from.pending && from.root == to.root && maximum > 0
    requires PageTaken(LinksAhead(db, from.root.volume, from.cursor), from.cursor, to.cursor, to.pending, maximum)
    ensures Cost(db, to) < Cost(db, from)
  {
    if to.pending {
      var ahead := LinksAhead(db, from.root.volume, from.cursor);
      var taken := UpTo(ahead, to.cursor.value);
      assert LinksAhead(db, to.root.volume, to.cursor) == ahead - taken;
      assert ahead == (ahead - taken) + taken;
    }
  }

  lemma RefreshWorks(db: Db, maximum: nat)
    requires CatalogSound(db) && maximum > 0 && RefreshPaths(db, maximum).Ok?
    ensures var next := RefreshPaths(db, maximum).value;
      NothingPending(db.pathJobs) || Work(next, next.pathJobs) < Work(db, db.pathJobs)
    ensures NothingPending(db.pathJobs) ==> RefreshPaths(db, maximum).value == db
  {
    hide CatalogSound, Shows, RefreshPaths, PageTaken, Cost, LinksAhead, Work;
    var next, j := RefreshPaths(db, maximum).value, FirstPending(db.pathJobs);
    FirstPendingExact(db.pathJobs);
    if j < |db.pathJobs| {
      RefreshPathsKeeps(db, maximum);
      RefreshPathsShows(db, maximum);
      CostFalls(db, db.pathJobs[j], next.pathJobs[j], maximum);
      WorkUpdated(db, db.pathJobs, j, next.pathJobs[j]);
      WorkSame(db, next, next.pathJobs);
    } else {
      IdleRefresh(db, maximum);
    }
  }

  /** A number of positive calls fixed in advance leaves no job pending. */
  lemma {:induction false} RefreshesEnd(db: Db, maxima: seq<nat>)
    requires CatalogSound(db) && AllPositive(maxima) && PathRefreshes(db, maxima).Ok?
    ensures var next := PathRefreshes(db, maxima).value;
      NothingPending(next.pathJobs) || Work(next, next.pathJobs) + |maxima| <= Work(db, db.pathJobs)
    ensures |maxima| >= Work(db, db.pathJobs) ==> NothingPending(PathRefreshes(db, maxima).value.pathJobs)
  {
    hide CatalogSound, RefreshPaths, Work, NothingPending, SameNormalized, Advanced;
    if maxima != [] {
      var front := maxima[..|maxima| - 1];
      RefreshesEnd(db, front);
      RefreshesAdvance(db, front, 0);
      RefreshWorks(PathRefreshes(db, front).value, maxima[|maxima| - 1]);
    }
    var next := PathRefreshes(db, maxima).value;
    if Work(next, next.pathJobs) == 0 {
      NoWorkNothingPending(next, next.pathJobs);
    }
  }

  // ----- What queues a refresh

  /** The mutation moves, renames or removes an existing link of a directory. */
  ghost predicate MovesDirectory(db: Db, m: GraphMutation) {
    match m
    case UpsertLink(link, _) =>
      && link.id in db.links && db.links[link.id].key == link.key && link.key in db.objects
      && (db.links[link.id].parent != link.parent || db.links[link.id].name != link.name)
      && db.objects[link.key].metadata.kind == Directory
    case RemoveLink(id, key) => id in db.links && key in db.objects && db.objects[key].metadata.kind == Directory
    case _ => false
  }

  function KeyOf(m: GraphMutation): FileKey
    requires m.UpsertLink? || m.RemoveLink?
  {
    if m.UpsertLink? then m.link.key else m.key
  }

  /** Queued jobs stay as they are; new ones start from the beginning, at most one a root. */
  ghost predicate JobsGrow(a: seq<PathJob>, b: seq<PathJob>) {
    && a <= b
    && forall i :: |a| <= i < |b| ==> b[i].pending && b[i].cursor.None? && !PendingRoot(a, b[i].root)
  }

  lemma {:induction false} ClearingQueuesNothing(db: Db, rows: seq<(LinkId, FileKey)>, g: nat)
    requires TablesSound(db) && Bound(db, rows)
    ensures RemoveLinkRows(db, rows, g).Ok? && RemoveLinkRows(db, rows, g).value.pathJobs == db.pathJobs
    decreases rows
  {
    RemoveLinkRowsKeeps(db, rows, g);
    if rows != [] {
      RemoveLinkRowKeeps(db, rows[0].0, rows[0].1, g, false);
      var next := RemoveLinkRow(db, rows[0].0, rows[0].1, g, false).value;
      BoundTail(db, next, rows);
      ClearingQueuesNothing(next, rows[1..], g);
    }
  }

  lemma EnqueuedPending(db: Db, root: FileKey, g: nat)
    ensures PendingRoot(EnqueuePathRefresh(db, root, g).pathJobs, root)
    ensures JobsGrow(db.pathJobs, EnqueuePathRefresh(db, root, g).pathJobs)
  {
    var next := EnqueuePathRefresh(db, root, g);
    if !PendingRoot(db.pathJobs, root) {
      assert next.pathJobs[|db.pathJobs|].root == root;
    }
  }

  lemma WriteQueues(db: Db, link: LinkSnapshot, boundary: bool, g: nat)
    requires WriteLink(db, link, boundary, g).Ok?
    ensures var next := WriteLink(db, link, boundary, g).value;
      && JobsGrow(db.pathJobs, next.pathJobs)
      && (MovesDirectory(db, UpsertLink(link, boundary)) ==> PendingRoot(next.pathJobs, link.key))
  {
    EnqueuedPending(db, link.key, g);
  }

  /** Moving or removing a directory leaves a refresh of its volume pending. */
  lemma ApplyQueues(db: Db, m: GraphMutation, g: nat)
    requires TablesSound(db) && Apply(db, m, g).Ok?
    ensures var next := Apply(db, m, g).value;
      && JobsGrow(db.pathJobs, next.pathJobs)
      && (MovesDirectory(db, m) ==> PendingRoot(next.pathJobs, KeyOf(m)))
  {
    match m {
      case UpsertLink(link, boundary) =>
        hide TablesSound, WriteLink, JobsGrow, PendingRoot, StaleConflicts;
        var conflicts := StaleConflicts(db, link);
        StaleConflictsBound(db, link);
        ClearingQueuesNothing(db, conflicts, g);
        RemoveLinkRowsKeeps(db, conflicts, g);
        var cleared := RemoveLinkRows(db, conflicts, g).value;
        OwnRowStays(db, link);
        assert SameMetadata(db, cleared, link.key);
        WriteQueues(cleared, link, boundary, g);
      case RemoveLink(id, key) => EnqueuedPending(DropLink(db, id, key), key, g);
      case _ =>
    }
  }

  /** A link still bound to its object is no stale conflict of its own. */
  lemma OwnRowStays(db: Db, link: LinkSnapshot)
    ensures link.id in db.links && db.links[link.id].key == link.key ==> link.id !in Ids(StaleConflicts(db, link))
  {
  }

  lemma GrowTransitive(a: seq<PathJob>, b: seq<PathJob>, c: seq<PathJob>)
    requires JobsGrow(a, b) && JobsGrow(b, c)
    ensures JobsGrow(a, c)
  {
    forall root | PendingRoot(a, root) ensures PendingRoot(b, root) {
      StaysPending(a, b, root);
    }
  }

  lemma StaysPending(a: seq<PathJob>, b: seq<PathJob>, root: FileKey)
    requires JobsGrow(a, b) && PendingRoot(a, root)
    ensures PendingRoot(b, root)
  {
    var i :| 0 <= i < |a| && a[i].pending && a[i].root == root;
    assert b[i] == a[i];
  }

  /** The state in which mutation `i` of a batch is applied. */
  ghost function Reached(db: Db, b: Batch, i: nat): Result<Tx>
    requires i <= |b.mutations|
  {
    ApplyAll(Tx(db, {}), b.mutations[..i], Generation(db, b.volume) + 1)
  }

  lemma ReachedNext(db: Db, b: Batch, i: nat)
    requires i < |b.mutations| && Reached(db, b, i + 1).Ok?
    ensures Reached(db, b, i).Ok?
    ensures Reached(db, b, i + 1) == ApplyOne(Reached(db, b, i).value, b.mutations[i], Generation(db, b.volume) + 1)
  {
    assert b.mutations[..i + 1][..i] == b.mutations[..i];
  }

  lemma {:induction false} ReachedEarlier(db: Db, b: Batch, i: nat, n: nat)
    requires i <= n <= |b.mutations| && Reached(db, b, n).Ok?
    ensures Reached(db, b, i).Ok?
  {
    if i < n {
      ReachedNext(db, b, n - 1);
      ReachedEarlier(db, b, i, n - 1);
    }
  }

  lemma ReachedSound(db: Db, b: Batch, i: nat)
    requires TablesSound(db) && ValidBatch(b) && i <= |b.mutations| && Reached(db, b, i).Ok?
    ensures TablesSound(Reached(db, b, i).value.db)
  {
    ApplyAllKeeps(Tx(db, {}), b.mutations[..i], Generation(db, b.volume) + 1, b.volume);
  }

  /** After `n` mutations, a directory moved by an earlier one still has its refresh pending. */
  lemma {:induction false} MutationsQueue(db: Db, b: Batch, i: nat, n: nat)
    requires TablesSound(db) && ValidBatch(b) && i <= n <= |b.mutations| && Reached(db, b, n).Ok?
    ensures JobsGrow(db.pathJobs, Reached(db, b, n).value.db.pathJobs)
    ensures Reached(db, b, i).Ok?
    ensures i < n && MovesDirectory(Reached(db, b, i).value.db, b.mutations[i]) ==>
      PendingRoot(Reached(db, b, n).value.db.pathJobs, KeyOf(b.mutations[i]))
  {
    hide TablesSound, JobsGrow, PendingRoot;
    ReachedEarlier(db, b, i, n);
    if n == 0 {
      NothingGrows(db.pathJobs);
    } else {
      var g := Generation(db, b.volume) + 1;
      ReachedNext(db, b, n - 1);
      ReachedSound(db, b, n - 1);
      var prior := Reached(db, b, n - 1).value.db;
      MutationsQueue(db, b, if i < n then i else 0, n - 1);
      ApplyQueues(prior, b.mutations[n - 1], g);
      GrowTransitive(db.pathJobs, prior.pathJobs, Reached(db, b, n).value.db.pathJobs);
      if i < n - 1 && MovesDirectory(Reached(db, b, i).value.db, b.mutations[i]) {
        StaysPending(prior.pathJobs, Reached(db, b, n).value.db.pathJobs, KeyOf(b.mutations[i]));
      }
    }
  }

  lemma NothingGrows(jobs: seq<PathJob>)
    ensures JobsGrow(jobs, jobs)
  {
  }

  /** A job for the root that was not pending before is new, so all links of the volume await it. */
  lemma NewJobAwaited(a: seq<PathJob>, db: Db, root: FileKey, l: LinkId)
    requires JobsGrow(a, db.pathJobs) && PendingRoot(db.pathJobs, root) && !PendingRoot(a, root)
    requires l in db.links && db.links[l].key.volume == root.volume
    ensures Awaited(db, l)
  {
    var i :| 0 <= i < |db.pathJobs| && db.pathJobs[i].pending && db.pathJobs[i].root == root;
    assert forall k :: 0 <= k < |a| ==> a[k] == db.pathJobs[k];
    assert i >= |a|;
    assert AheadOf(db, db.pathJobs[i], l);
  }

  /**
   * A batch that moves, renames or removes a directory leaves a refresh of it pending, and every
   * job queued before as it was. Unless that refresh was already pending, every link of the volume
   * then awaits it.
   */
  lemma BatchQueues(db: Db, b: Batch, mode: OutboxMode, i: nat, l: LinkId)
    requires CatalogSound(db) && ApplyBatch(db, b, mode).Ok? && i < |b.mutations|
    ensures Reached(db, b, i).Ok?
    ensures MovesDirectory(Reached(db, b, i).value.db, b.mutations[i]) ==>
      var next, root := ApplyBatch(db, b, mode).value, KeyOf(b.mutations[i]);
      && JobsGrow(db.pathJobs, next.pathJobs) && PendingRoot(next.pathJobs, root)
      && (!PendingRoot(db.pathJobs, root) && l in next.links && next.links[l].key.volume == b.volume ==>
           Awaited(next, l))
  {
    hide TablesSound, RowsShaped, FaithfulExcept, JobsGrow, PendingRoot, Awaited, ApplyAll, SyncAll, Ascending;
    var n, g := |b.mutations|, Generation(db, b.volume) + 1;
    assert b.mutations[..n] == b.mutations;
    MutationsQueue(db, b, i, n);
    ApplyAllKeepsFaithful(db, b.mutations, g, b.volume);
    var tx := Mutated(db, b).value;
    SyncAllFresh(tx.db, Ascending(tx.affected), g, mode);
    var next := ApplyBatch(db, b, mode).value;
    assert next.pathJobs == tx.db.pathJobs && next.links == tx.db.links;
    if MovesDirectory(Reached(db, b, i).value.db, b.mutations[i]) {
      MovedInVolume(Reached(db, b, i).value.db, b.mutations[i], b.volume);
      var root := KeyOf(b.mutations[i]);
      if !PendingRoot(db.pathJobs, root) && l in next.links && next.links[l].key.volume == b.volume {
        NewJobAwaited(db.pathJobs, next, root, l);
      }
    }
  }

  lemma MovedInVolume(db: Db, m: GraphMutation, v: VolumeId)
    requires MovesDirectory(db, m) && InVolume(m, v)
    ensures KeyOf(m).volume == v
  {
  }

  /**
   * Descendants of a moved directory converge: after a batch that moves it, with no refresh of it
   * under way before, enough undisturbed refreshes show every link of the volume as it should be.
   */
  lemma MovedDirectoryConverges(db: Db, b: Batch, mode: OutboxMode, i: nat, maxima: seq<nat>, l: LinkId)
    requires CatalogSound(db) && ApplyBatch(db, b, mode).Ok? && i < |b.mutations| && Reached(db, b, i).Ok?
    requires MovesDirectory(Reached(db, b, i).value.db, b.mutations[i])
    requires !PendingRoot(db.pathJobs, KeyOf(b.mutations[i])) && AllPositive(maxima)
    requires var next := ApplyBatch(db, b, mode).value;
      && PathRefreshes(next, maxima).Ok? && |maxima| >= Work(next, next.pathJobs)
      && l in next.links && next.links[l].key.volume == b.volume
    ensures Shows(PathRefreshes(ApplyBatch(db, b, mode).value, maxima).value, l)
  {
    hide CatalogSound, ApplyBatch, Awaited, PendingRoot, MovesDirectory, Work, PathRefreshes, JobsGrow,
      NothingPending, TrackedExcept, QuietBatch, Shows, Reached;
    BatchKeepsCatalog(db, b, mode);
    BatchQueues(db, b, mode, i, l);
    RefreshesEnd(ApplyBatch(db, b, mode).value, maxima);
    PathsConverge(ApplyBatch(db, b, mode).value, maxima, l);
  }
}
