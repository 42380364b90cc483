/** What the controller gets done: every volume has its turn, and a scan it can read is mirrored. */
module ControllerProgress {
  import opened Core
  import opened Schema
  import opened GraphSpec
  import opened GraphRuns
  import opened Observation
  import opened Controller
  import W = ObservationSweeps

  /** Observation steps in a row. */
  ghost predicate Follows(states: seq<World>, outs: seq<Outside>, maximum: nat) {
    && |states| == |outs| + 1
    && forall i :: 0 <= i < |outs| ==>
         && (states[i].active.Some? ==> states[i].active.value.run < |states[i].runs|)
         && states[i + 1] == StepWorld(states[i], maximum, outs[i])
  }

  /** Discovery finds these volumes, or nothing new. */
  ghost predicate Finds(outs: seq<Outside>, volumes: seq<VolumeId>) {
    forall i :: 0 <= i < |outs| ==> outs[i].discovered in {None, Some(volumes)}
  }

  // ----- Turns

  /** Steps that visit a volume rather than read on with an active scan. */
  ghost function Turns(states: seq<World>, n: nat): nat
    requires n <= |states|
  {
    if n == 0 then 0 else Turns(states, n - 1) + if states[n - 1].active.None? then 1 else 0
  }

  ghost function At(w: World): nat
    requires w.volumes != []
  {
    if w.cursor >= |w.volumes| then 0 else w.cursor
  }

  lemma Wraps(a: nat, k: nat, n: nat)
    requires n > 0
    ensures ((a + k) % n + 1) % n == (a + k + 1) % n
  {
    var q, r := (a + k) / n, (a + k) % n;
    assert a + k == q * n + r;
    if r + 1 < n {
      assert a + k + 1 == q * n + (r + 1);
      Remainder(a + k + 1, q, r + 1, n);
      Remainder(r + 1, 0, r + 1, n);
    } else {
      assert a + k + 1 == (q + 1) * n + 0;
      Remainder(a + k + 1, q + 1, 0, n);
      Remainder(r + 1, 1, 0, n);
    }
  }

  lemma Remainder(x: nat, q: nat, r: nat, n: nat)
    requires r < n && x == q * n + r
    ensures x % n == r
  {
    var d := x / n - q;
    assert d * n + x % n == r;
    Multiple(d, n);
  }

  lemma Multiple(d: int, n: nat)
    ensures d > 0 ==> d * n >= n
    ensures d < 0 ==> d * n <= -1 * n
  {
  }

  /** The cursor counts turns, and a turn visits the volume at the cursor. */
  lemma {:induction false} CursorCountsTurns(
    states: seq<World>, outs: seq<Outside>, maximum: nat, volumes: seq<VolumeId>, n: nat)
    requires Follows(states, outs, maximum) && Finds(outs, volumes) && volumes != [] && n <= |outs|
    requires states[0].volumes == volumes && states[0].cursor < |volumes|
    ensures states[n].volumes == volumes
    ensures states[n].cursor == (states[0].cursor + Turns(states, n)) % |volumes|
    ensures n < |outs| && states[n].active.None? ==>
      && Refresh(states[n], outs[n]).volumes == volumes
      && Visited(states[n], outs[n]) == volumes[states[n].cursor]
  {
    hide StepWorld;
    if n == 0 {
      Remainder(states[0].cursor, 0, states[0].cursor, |volumes|);
    } else {
      CursorCountsTurns(states, outs, maximum, volumes, n - 1);
      var w := states[n - 1];
      assert outs[n - 1].discovered in {None, Some(volumes)};
      assert states[n] == StepWorld(w, maximum, outs[n - 1]);
      if w.active.Some? {
        ReadKeepsPlace(w, maximum, outs[n - 1]);
      } else {
        VisitKeepsPlace(w, maximum, outs[n - 1]);
        Wraps(states[0].cursor, Turns(states, n - 1), |volumes|);
      }
    }
    if n < |outs| {
      assert outs[n].discovered in {None, Some(volumes)};
    }
  }

  lemma ReadKeepsPlace(w: World, maximum: nat, outside: Outside)
    requires w.active.Some? && w.active.value.run < |w.runs|
    ensures StepWorld(w, maximum, outside).volumes == w.volumes && StepWorld(w, maximum, outside).cursor == w.cursor
  {
    hide ApplyScanPage;
  }

  lemma VisitKeepsPlace(w: World, maximum: nat, outside: Outside)
    requires w.active.None? && w.volumes != [] && outside.discovered in {None, Some(w.volumes)}
    requires w.cursor < |w.volumes|
    ensures var next := StepWorld(w, maximum, outside);
      next.volumes == w.volumes && next.cursor == (w.cursor + 1) % |w.volumes|
  {
    hide FinalizeScan, ApplyBatch;
    assert Refresh(w, outside).volumes == w.volumes && Refresh(w, outside).cursor == w.cursor;
  }

  /** Every turn number comes up. */
  lemma {:induction false} TurnComes(states: seq<World>, n: nat, k: nat) returns (i: nat)
    requires n <= |states| && k < Turns(states, n)
    ensures i < n && states[i].active.None? && Turns(states, i) == k
  {
    if Turns(states, n - 1) > k {
      i := TurnComes(states, n - 1, k);
    } else {
      i := n - 1;
    }
  }

  /** As many turns as there are volumes visit each of them, wherever the cursor stood. */
  lemma EveryVolumeVisited(
    states: seq<World>, outs: seq<Outside>, maximum: nat, volumes: seq<VolumeId>, j: nat) returns (i: nat)
    requires Follows(states, outs, maximum) && Finds(outs, volumes) && j < |volumes|
    requires states[0].volumes == volumes && states[0].cursor < |volumes|
    requires Turns(states, |outs|) >= |volumes|
    ensures i < |outs| && states[i].active.None? && Refresh(states[i], outs[i]).volumes == volumes
    ensures Visited(states[i], outs[i]) == volumes[j]
  {
    hide StepWorld, Finds, Refresh;
    var k := TurnOf(states[0].cursor, j, |volumes|);
    i := TurnComes(states, |outs|, k);
    hide Follows;
    CursorCountsTurns(states, outs, maximum, volumes, i);
  }

  /** The turn at which a cursor comes by. */
  lemma TurnOf(c: nat, j: nat, n: nat) returns (k: nat)
    requires c < n && j < n
    ensures k < n && (c + k) % n == j
  {
    k := if j >= c then j - c else j + n - c;
    Remainder(c + k, if j >= c then 0 else 1, j, n);
  }

  // ----- What a turn does

  /** A volume without a checkpoint, or in need of reconciliation, gets a session at its turn. */
  lemma TurnBegins(w: World, v: VolumeId, maximum: nat, outside: Outside)
    requires v !in w.db.sessions
    requires v !in w.db.checkpoints || (v in w.db.volumes && w.db.volumes[v].state == NeedsReconciliation)
    ensures var next := VisitVolume(w, v, maximum, outside);
      && v in next.db.sessions && next.db.sessions[v].phase == Scanning && next.active == w.active
      && next.db.sessions[v].mode == (if v in w.db.checkpoints then Reconcile else Initial)
      && v in next.db.volumes && next.db.volumes[v].state == NeedsReconciliation && next.db.links == w.db.links
  {
    hide ReadIncremental, HandleSession;
  }

  /** The controller watches one volume and visits it now. */
  ghost predicate Watching(w: World, outside: Outside, v: VolumeId) {
    w.volumes == [v] && outside.discovered in {None, Some([v])}
  }

  lemma OneVolumeTurn(w: World, maximum: nat, outside: Outside, v: VolumeId)
    requires Watching(w, outside, v) && w.active.None?
    ensures var next := StepWorld(w, maximum, outside);
      exists at :: next == VisitVolume(w.(cursor := at), v, Clamp(maximum), outside)
    ensures StepWorld(w, maximum, outside).volumes == [v]
  {
    hide FinalizeScan, ApplyBatch;
    var current := Refresh(w, outside);
    assert current.volumes == [v];
    var moved := w.(cursor := 0);
    assert StepWorld(w, maximum, outside) == VisitVolume(moved, v, Clamp(maximum), outside);
  }

  /** An unfinished scan starts over on a new handle, and with an empty snapshot. */
  lemma TurnStarts(w: World, maximum: nat, outside: Outside, v: VolumeId)
    requires WorldSound(w) && Watching(w, outside, v) && w.active.None?
    requires v in w.db.sessions && w.db.sessions[v].phase == Scanning && outside.started && !outside.dies
    ensures var next := StepWorld(w, maximum, outside);
      && next.db == BeginScan(w.db, v, w.db.sessions[v].mode) && next.volumes == [v]
      && next.active.Some? && next.active.value.volume == v && next.active.value.run < |next.runs|
  {
    OneVolumeTurn(w, maximum, outside, v);
  }

  /** The handle delivers this page. */
  ghost predicate Delivers(outside: Outside, events: seq<FilesystemEvent>, final: Option<ProviderCheckpoint>) {
    && !outside.dies && outside.page.Some? && outside.page.value.events == events
    && outside.page.value.complete == final.Some?
    && (final.Some? ==> outside.page.value.checkpoint == final)
  }

  lemma PageStep(w: World, maximum: nat, outside: Outside, v: VolumeId, events: seq<FilesystemEvent>)
    requires w.active.Some? && w.active.value.volume == v && w.active.value.run < |w.runs|
    requires Delivers(outside, events, None) && ApplyScanPage(w.db, v, events).Ok?
    ensures var next := StepWorld(w, maximum, outside);
      && next.db == ApplyScanPage(w.db, v, events).value && next.volumes == w.volumes
      && next.active == w.active && next.active.value.run < |next.runs|
  {
    hide ApplyScanPage;
  }

  lemma LastPageStep(
    w: World, maximum: nat, outside: Outside, v: VolumeId, events: seq<FilesystemEvent>, cp: ProviderCheckpoint)
    requires w.active.Some? && w.active.value.volume == v && w.active.value.run < |w.runs|
    requires Delivers(outside, events, Some(cp)) && ApplyScanPage(w.db, v, events).Ok?
    requires StageCheckpoint(ApplyScanPage(w.db, v, events).value, v, cp).Ok?
    ensures var next := StepWorld(w, maximum, outside);
      && next.db == StageCheckpoint(ApplyScanPage(w.db, v, events).value, v, cp).value
      && next.volumes == w.volumes && next.active.None?
  {
    hide ApplyScanPage, StageCheckpoint;
  }

  lemma SweepStep(w: World, maximum: nat, outside: Outside, v: VolumeId)
    requires Watching(w, outside, v) && w.active.None?
    requires v in w.db.sessions && w.db.sessions[v].phase != Scanning
    requires FinalizeScan(w.db, v, Clamp(maximum)).Ok?
    ensures var next := StepWorld(w, maximum, outside);
      next.db == FinalizeScan(w.db, v, Clamp(maximum)).value.db && next.volumes == [v] && next.active.None?
  {
    hide FinalizeScan;
    OneVolumeTurn(w, maximum, outside, v);
  }

  // ----- A whole scan

  /** After a start, the pages come one after the other, the last one with the final checkpoint. */
  ghost predicate ScanDelivered(outs: seq<Outside>, pages: seq<seq<FilesystemEvent>>, cp: ProviderCheckpoint) {
    && pages != [] && |outs| >= 1 + |pages| && outs[0].started && !outs[0].dies
    && forall i :: 0 <= i < |pages| ==> Delivers(outs[1 + i], pages[i], if i + 1 < |pages| then None else Some(cp))
  }

  lemma {:induction false} PagesRead(
    states: seq<World>, outs: seq<Outside>, maximum: nat, v: VolumeId, pages: seq<seq<FilesystemEvent>>,
    cp: ProviderCheckpoint, n: nat)
    requires Follows(states, outs, maximum) && ScanDelivered(outs, pages, cp) && Finds(outs, [v]) && n < |pages|
    requires WorldSound(states[0]) && states[0].volumes == [v] && states[0].active.None?
    requires v in states[0].db.sessions && states[0].db.sessions[v].phase == Scanning
    requires RunPages(BeginScan(states[0].db, v, states[0].db.sessions[v].mode), v, pages[..n]).Ok?
    ensures var w := states[1 + n];
      && w.db == RunPages(BeginScan(states[0].db, v, states[0].db.sessions[v].mode), v, pages[..n]).value
      && w.volumes == [v] && w.active.Some? && w.active.value.volume == v && w.active.value.run < |w.runs|
  {
    hide StepWorld, WorldSound, ApplyScanPage, Delivers;
    if n == 0 {
      assert outs[0].discovered in {None, Some([v])};
      TurnStarts(states[0], maximum, outs[0], v);
      assert states[1] == StepWorld(states[0], maximum, outs[0]);
    } else {
      assert pages[..n][..n - 1] == pages[..n - 1];
      PagesRead(states, outs, maximum, v, pages, cp, n - 1);
      assert Delivers(outs[1 + (n - 1)], pages[n - 1], None);
      PageStep(states[n], maximum, outs[n], v, pages[n - 1]);
      assert states[n + 1] == StepWorld(states[n], maximum, outs[n]);
    }
  }

  /** Past its last page, the session sweeps for the snapshot of all pages. */
  ghost predicate Staged(w: World, v: VolumeId, cutoff: nat, cp: ProviderCheckpoint, s: Snapshot) {
    && Sound(w.db) && SweepsSince(w.db, v, cutoff, cp) && Mirrors(w.db, v, cutoff, s)
    && w.volumes == [v] && w.active.None?
  }

  lemma ScanStaged(
    states: seq<World>, outs: seq<Outside>, maximum: nat, v: VolumeId, pages: seq<seq<FilesystemEvent>>,
    cp: ProviderCheckpoint)
    requires Follows(states, outs, maximum) && ScanDelivered(outs, pages, cp) && Finds(outs, [v]) && cp.volume == v
    requires WorldSound(states[0]) && states[0].volumes == [v] && states[0].active.None?
    requires v in states[0].db.sessions && states[0].db.sessions[v].phase == Scanning
    requires RunPages(BeginScan(states[0].db, v, states[0].db.sessions[v].mode), v, pages).Ok?
    ensures Staged(states[1 + |pages|], v, Generation(states[0].db, v) + 1, cp, ObservePages(NOTHING_SEEN, pages))
  {
    hide StepWorld, ApplyScanPage, Delivers, Mirrors, Sound;
    var db, n := states[0].db, |pages| - 1;
    var begun, cutoff := BeginScan(db, v, db.sessions[v].mode), Generation(db, v) + 1;
    BeginMirrorsNothing(db, v, db.sessions[v].mode);
    PagesMirrored(begun, v, pages, cutoff);
    var read := RunPages(begun, v, pages).value;
    PagesRead(states, outs, maximum, v, pages, cp, n);
    assert Delivers(outs[1 + n], pages[n], Some(cp));
    assert StageCheckpoint(read, v, cp).Ok?;
    StageMirrors(read, v, cp, cutoff, ObservePages(NOTHING_SEEN, pages));
    LastPageStep(states[1 + n], maximum, outs[1 + n], v, pages[n], cp);
    assert states[2 + n] == StepWorld(states[1 + n], maximum, outs[1 + n]);
  }

  /** Sweeping ends within the calls that are left, with the snapshot. */
  lemma {:induction false} SweepsEnd(
    states: seq<World>, outs: seq<Outside>, maximum: nat, v: VolumeId, from: nat, cutoff: nat,
    cp: ProviderCheckpoint, s: Snapshot) returns (k: nat)
    requires Follows(states, outs, maximum) && Finds(outs, [v]) && from < |states|
    requires Staged(states[from], v, cutoff, cp, s)
    requires from + W.CallsLeft(states[from].db, v) <= |outs|
    ensures from < k <= from + W.CallsLeft(states[from].db, v) && Completed(states[k].db, v, cp, s)
    decreases |states| - from
  {
    hide StepWorld, Sound, Mirrors, FinalizeScan, Completed, W.CallsLeft;
    var w := states[from];
    W.FinalizeCounts(w.db, v, Clamp(maximum));
    FinalizeStepMirrors(w.db, v, Clamp(maximum), cutoff, cp, s);
    CallsPositive(w.db, v);
    assert outs[from].discovered in {None, Some([v])};
    SweepStep(w, maximum, outs[from], v);
    assert states[from + 1] == StepWorld(w, maximum, outs[from]);
    var r := FinalizeScan(w.db, v, Clamp(maximum)).value;
    if r.completed {
      k := from + 1;
    } else {
      k := SweepsEnd(states, outs, maximum, v, from + 1, cutoff, cp, s);
    }
  }

  lemma CallsPositive(db: Db, v: VolumeId)
    requires v in db.sessions
    ensures W.CallsLeft(db, v) > 0
  {
  }

  /**
   * A controller watching one volume whose unfinished scan the provider now delivers page by page,
   * each page accepted, ends in a bounded number of further steps with exactly the links and
   * objects of those pages, online, at the provider's final checkpoint.
   */
  lemma ScanCompletes(
    states: seq<World>, outs: seq<Outside>, maximum: nat, v: VolumeId, pages: seq<seq<FilesystemEvent>>,
    cp: ProviderCheckpoint) returns (k: nat)
    requires Follows(states, outs, maximum) && ScanDelivered(outs, pages, cp) && Finds(outs, [v]) && cp.volume == v
    requires WorldSound(states[0]) && states[0].volumes == [v] && states[0].active.None?
    requires v in states[0].db.sessions && states[0].db.sessions[v].phase == Scanning
    requires RunPages(BeginScan(states[0].db, v, states[0].db.sessions[v].mode), v, pages).Ok?
    requires v in states[1 + |pages|].db.sessions ==>
      1 + |pages| + W.CallsLeft(states[1 + |pages|].db, v) <= |outs|
    ensures k <= |outs| && Completed(states[k].db, v, cp, ObservePages(NOTHING_SEEN, pages))
  {
    hide StepWorld, WorldSound, Sound, Mirrors, Completed, W.CallsLeft, ApplyScanPage, RunPages;
    ScanStaged(states, outs, maximum, v, pages, cp);
    k := SweepsEnd(states, outs, maximum, v, 1 + |pages|, Generation(states[0].db, v) + 1, cp,
                   ObservePages(NOTHING_SEEN, pages));
  }
}
