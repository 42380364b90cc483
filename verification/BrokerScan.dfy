/** The broker's scan stream: a bounded queue between a producer thread and paged reads. */
module BrokerScan {
  import opened Core
  import opened Schema
  import opened GraphSpec

  const MAX_ACTIVE_SCANS: nat := 4
  const SCAN_QUEUE_EVENTS: nat := 256
  const REPLAY_WINDOW_REQUESTS: nat := 4_096

  type Event = FilesystemEvent
  type Checkpoint = ProviderCheckpoint

  datatype ScanResult = Finished(checkpoint: Checkpoint) | Broken(error: nat) | StoppedSilently

  datatype Message = Emitted(event: Event) | Terminal(result: ScanResult)

  /**
   * One scan. `emission` and `result` are what its provider produces, `unsent` what its worker has
   * yet to send; `producing` is whether the worker still holds the sender.
   */
  datatype Scan = Scan(
    emission: seq<Event>, result: ScanResult, unsent: seq<Message>, producing: bool,
    queue: seq<Message>, pending: Option<ScanResult>, delivered: seq<Event>)

  function Messages(events: seq<Event>): seq<Message> {
    seq(|events|, i requires 0 <= i < |events| => Emitted(events[i]))
  }

  function NewScan(emission: seq<Event>, result: ScanResult): Scan {
    Scan(emission, result, Messages(emission) + [Terminal(result)], true, [], None, [])
  }

  /** Nothing is lost, duplicated or reordered between provider and reader. */
  ghost predicate Conserved(s: Scan) {
    && |s.queue| <= SCAN_QUEUE_EVENTS
    && (s.unsent == [] ==> !s.producing)
    && match s.pending
       case None => Messages(s.delivered) + s.queue + s.unsent == Messages(s.emission) + [Terminal(s.result)]
       case Some(r) => Concluded(s, r)
  }

  /** A terminal state in hand: every event was delivered, or the worker died without one. */
  ghost predicate Concluded(s: Scan, r: ScanResult) {
    || (s.delivered == s.emission && r == s.result && s.queue == [] && s.unsent == [])
    || (r == StoppedSilently && !s.producing && s.queue == [] && s.unsent != []
        && Messages(s.delivered) + s.unsent == Messages(s.emission) + [Terminal(s.result)])
  }

  // ----- Producer and consumer steps

  /** How far the worker runs before the reader's next look, and whether it dies there. */
  datatype Turn = Turn(sends: nat, dies: bool)

  /** Backpressure: a full queue holds the rest back; after its last message the sender is gone. */
  function Produce(s: Scan, t: Turn): Scan {
    if !s.producing then s else
      var room := SCAN_QUEUE_EVENTS - |s.queue|;
      var wanted := if t.sends <= |s.unsent| then t.sends else |s.unsent|;
      var n := if room < 0 then 0 else if wanted <= room then wanted else room;
      s.(queue := s.queue + s.unsent[..n], unsent := s.unsent[n..], producing := n < |s.unsent| && !t.dies)
  }

  lemma ProduceKeeps(s: Scan, t: Turn)
    requires Conserved(s)
    ensures Conserved(Produce(s, t)) && Produce(s, t).pending == s.pending
    ensures Produce(s, t).delivered == s.delivered
  {
    if s.producing && s.pending.None? {
      var u := Produce(s, t);
      var n := |s.unsent| - |u.unsent|;
      assert s.unsent == s.unsent[..n] + s.unsent[n..];
      assert Messages(s.delivered) + u.queue + u.unsent == Messages(s.delivered) + s.queue + s.unsent;
    }
  }

  /** Taking one message from the queue, or seeing that the sender is gone. */
  function Receive(s: Scan): (Scan, Option<Message>) {
    if s.queue != [] then
      match s.queue[0]
      case Emitted(e) => (s.(queue := s.queue[1..], delivered := s.delivered + [e]), Some(s.queue[0]))
      case Terminal(r) => (s.(queue := s.queue[1..], pending := Some(r)), Some(s.queue[0]))
    else if s.producing then (s, None)
    else (s.(pending := Some(StoppedSilently)), Some(Terminal(StoppedSilently)))
  }

  lemma HeadOf(s: Scan)
    requires Conserved(s) && s.pending.None? && s.queue + s.unsent != []
    ensures var all := Messages(s.emission) + [Terminal(s.result)];
      |s.delivered| < |all| && (s.queue + s.unsent)[0] == all[|s.delivered|]
  {
    var all := Messages(s.delivered) + s.queue + s.unsent;
    assert all == Messages(s.delivered) + (s.queue + s.unsent);
    assert all[|s.delivered|] == (s.queue + s.unsent)[0];
  }

  /** Delivered events alone never make up a whole program: its terminal is still to come. */
  lemma NeverAllEvents(delivered: seq<Event>, rest: seq<Message>, emission: seq<Event>, result: ScanResult)
    requires Messages(delivered) + rest == Messages(emission) + [Terminal(result)]
    ensures rest != [] && delivered <= emission
  {
    var all := Messages(emission) + [Terminal(result)];
    assert |delivered| + |rest| == |all|;
    assert all[|emission|] == Terminal(result);
    forall i | 0 <= i < |delivered| ensures i < |emission| && delivered[i] == emission[i] {
      assert all[i] == (Messages(delivered) + rest)[i] == Emitted(delivered[i]);
    }
  }

  lemma ReceiveKeeps(s: Scan)
    requires Conserved(s) && s.pending.None?
    ensures var (t, m) := Receive(s);
      && Conserved(t)
      && (m.None? ==> t == s && s.producing)
      && (m.Some? && m.value.Emitted? ==> t.pending.None? && t.delivered == s.delivered + [m.value.event])
      && (m.Some? && m.value.Terminal? ==> t.pending == Some(m.value.result) && t.delivered == s.delivered)
  {
    var (t, m) := Receive(s);
    var all := Messages(s.emission) + [Terminal(s.result)];
    if s.queue != [] {
      HeadOf(s);
      assert s.queue[0] == (s.queue + s.unsent)[0];
      if s.queue[0].Emitted? {
        assert Messages(t.delivered) == Messages(s.delivered) + [s.queue[0]];
        assert Messages(t.delivered) + t.queue + t.unsent == Messages(s.delivered) + s.queue + s.unsent;
      } else {
        assert |s.delivered| == |s.emission|;
        assert |Messages(s.delivered) + s.queue + s.unsent| == |all|;
        forall i | 0 <= i < |s.emission| ensures s.delivered[i] == s.emission[i] {
          assert all[i] == Emitted(s.delivered[i]) == Emitted(s.emission[i]);
        }
        assert s.delivered == s.emission;
        assert |s.queue| + |s.unsent| == 1;
      }
    } else if !s.producing {
      assert Messages(s.delivered) + s.queue + s.unsent == Messages(s.delivered) + s.unsent;
      NeverAllEvents(s.delivered, s.unsent, s.emission, s.result);
    }
  }

  // ----- Any interleaving

  datatype StreamStep = Worker(turn: Turn) | Look

  function Stepped(s: Scan, step: StreamStep): Scan {
    match step
    case Worker(t) => Produce(s, t)
    case Look => if s.pending.None? then Receive(s).0 else s
  }

  function AfterSteps(s: Scan, steps: seq<StreamStep>): Scan {
    if steps == [] then s else Stepped(AfterSteps(s, steps[..|steps| - 1]), steps[|steps| - 1])
  }

  /**
   * Under every interleaving of worker and reader, delivered, queued and unsent messages make up
   * the provider's program, and its checkpoint is in hand only once every event is delivered.
   */
  lemma {:induction false} InterleavingConserves(emission: seq<Event>, result: ScanResult, steps: seq<StreamStep>)
    ensures var s := AfterSteps(NewScan(emission, result), steps);
      && Conserved(s) && s.emission == emission && s.result == result && s.delivered <= emission
      && (s.pending.Some? && s.pending.value.Finished? ==> s.delivered == emission && s.pending.value == result)
  {
    if steps == [] {
      NewScanConserved(emission, result);
    } else {
      InterleavingConserves(emission, result, steps[..|steps| - 1]);
      var prior := AfterSteps(NewScan(emission, result), steps[..|steps| - 1]);
      match steps[|steps| - 1] {
        case Worker(t) => ProduceKeeps(prior, t);
        case Look =>
          if prior.pending.None? {
            ReceiveKeeps(prior);
          }
      }
    }
    DeliveredPrefix(AfterSteps(NewScan(emission, result), steps));
  }

  /** The worker's turn, then a look, over and over. */
  function Rounds(turns: seq<Turn>): seq<StreamStep> {
    if turns == [] then [] else Rounds(turns[..|turns| - 1]) + [Worker(turns[|turns| - 1])] + [Look]
  }

  lemma AfterStep(s: Scan, steps: seq<StreamStep>, step: StreamStep)
    ensures AfterSteps(s, steps + [step]) == Stepped(AfterSteps(s, steps), step)
  {
    assert (steps + [step])[..|steps|] == steps;
  }

  /** A worker that sends something leaves something to be read, so a look takes the next message. */
  lemma RoundDelivers(s: Scan, t: Turn)
    requires Conserved(s) && s.pending.None? && (s.producing || s.unsent == []) && t.sends > 0 && !t.dies
    ensures var u := Receive(Produce(s, t)).0;
      if |s.delivered| < |s.emission|
      then && u.pending.None? && u.delivered == s.emission[..|s.delivered| + 1]
           && Conserved(u) && u.emission == s.emission && u.result == s.result && (u.producing || u.unsent == [])
      else u.delivered == s.emission && u.pending == Some(s.result)
  {
    var all := Messages(s.emission) + [Terminal(s.result)];
    assert |Messages(s.delivered) + s.queue + s.unsent| == |all|;
    DeliveredPrefix(s);
    ProduceKeeps(s, t);
    var p := Produce(s, t);
    assert p.queue != [];
    HeadOf(p);
    assert p.queue[0] == (p.queue + p.unsent)[0] == all[|s.delivered|];
    ReceiveKeeps(p);
  }

  /**
   * While the worker lives and sends at least one message a round, each round delivers exactly the
   * next event, and the round after the last event its result.
   */
  lemma {:induction false} EveryRoundDelivers(emission: seq<Event>, result: ScanResult, turns: seq<Turn>)
    requires forall i :: 0 <= i < |turns| ==> turns[i].sends > 0 && !turns[i].dies
    ensures var s := AfterSteps(NewScan(emission, result), Rounds(turns));
      if |turns| <= |emission|
      then && s.delivered == emission[..|turns|] && s.pending.None? && Conserved(s)
           && s.emission == emission && s.result == result && (s.producing || s.unsent == [])
      else s.delivered == emission && s.pending == Some(result)
  {
    hide Produce, Receive, Conserved;
    var s := NewScan(emission, result);
    if turns == [] {
      NewScanConserved(emission, result);
    } else {
      var t, earlier := turns[|turns| - 1], turns[..|turns| - 1];
      EveryRoundDelivers(emission, result, earlier);
      AfterStep(s, Rounds(earlier), Worker(t));
      AfterStep(s, Rounds(earlier) + [Worker(t)], Look);
      var prior := AfterSteps(s, Rounds(earlier));
      if |earlier| <= |emission| {
        RoundDelivers(prior, t);
        ProduceKeeps(prior, t);
      } else {
        ProduceLeaves(prior, t);
      }
    }
  }

  lemma ProduceLeaves(s: Scan, t: Turn)
    ensures Produce(s, t).pending == s.pending && Produce(s, t).delivered == s.delivered
  {
  }

  // ----- One page

  /**
   * What one page is, whatever turns the worker took meanwhile: the next events, as many as fit.
   * A page with room left saw the end of the scan, or emptied the queue of a worker still at work.
   */
  ghost predicate PageRead(start: Scan, maximum: nat, scan: Scan, events: seq<Event>) {
    && Conserved(scan) && scan.emission == start.emission && scan.result == start.result
    && scan.delivered == start.delivered + events && |events| <= maximum
    && (start.pending.Some? ==> scan == start && events == [])
    && (|events| < maximum && scan.pending.None? ==> scan.queue == [] && scan.producing)
    && (!start.producing ==> !scan.producing && scan.unsent == start.unsent)
  }

  /**
   * The reading loop. Before each look the worker takes an arbitrary turn; the loop ends when the
   * page is full, a terminal state is in hand or nothing is there to be read yet.
   */
  method ReceivePage(start: Scan, maximum: nat, schedule: seq<Turn>)
    returns (scan: Scan, events: seq<Event>)
    requires Conserved(start)
    ensures PageRead(start, maximum, scan, events)
  {
    scan, events := start, [];
    var looks: nat := 0;
    var waiting := false;
    while |events| < maximum && scan.pending.None? && !waiting
      invariant Conserved(scan) && scan.emission == start.emission && scan.result == start.result
      invariant scan.delivered == start.delivered + events && |events| <= maximum
      invariant start.pending.Some? ==> scan == start && events == []
      invariant waiting ==> scan.pending.None? && scan.queue == [] && scan.producing
      invariant !start.producing ==> !scan.producing && scan.unsent == start.unsent
      decreases maximum - |events|, if scan.pending.None? then 1 else 0, if waiting then 0 else 1
    {
      if looks < |schedule| {
        ProduceKeeps(scan, schedule[looks]);
        scan := Produce(scan, schedule[looks]);
      }
      looks := looks + 1;
      ReceiveKeeps(scan);
      var (next, message) := Receive(scan);
      match message {
        case None => waiting := true;
        case Some(Emitted(event)) => events := events + [event];
        case Some(Terminal(_)) =>
      }
      scan := next;
    }
  }

  /** What looking for the requested volume gave. */
  datatype Discovery = ProviderFailed(error: nat) | VolumeMissing | VolumeFound

  datatype Interruption = RequestCancelled | DeadlineExceeded

  datatype Response =
    | Page(events: seq<Event>, checkpoint: Option<Checkpoint>, complete: bool, hasMore: bool)
    | ScanFailed(result: ScanResult)
    | NotFound
    | ResourceExhausted
    | ProviderError(error: nat)
    | Interrupted(interruption: Interruption)
    | ScanStarted(id: nat)
    | ScanCancelled(id: nat)

  /** How a terminal state is answered. */
  function Ended(result: ScanResult): Response {
    match result
    case Finished(checkpoint) => Page([], Some(checkpoint), true, false)
    case _ => ScanFailed(result)
  }

  /** An incomplete page: its scan goes on, and without any event there was none to hand out. */
  ghost predicate GoesOn(before: Scan, maximum: nat, after: Scan, r: Response) {
    && r.Page? && !r.complete && r.checkpoint.None? && r.hasMore
    && PageRead(before, maximum, after, r.events) && (r.events == [] ==> after.pending.None?)
  }

  /** The last answer of a scan: its own result after all its events, or that its worker died. */
  ghost predicate Ends(before: Scan, r: Response) {
    || (before.delivered == before.emission && r == Ended(before.result))
    || (r == ScanFailed(StoppedSilently) && before.unsent != [])
  }

  class BrokerService {
    const replay: ReplayWindow
    var scans: map<nat, Scan>
    var nextScanId: nat

    constructor ()
      ensures Sound() && scans == map[]
      ensures fresh(replay) && Guarded() && replay.admitted == []
    {
      replay := new ReplayWindow(REPLAY_WINDOW_REQUESTS);
      scans, nextScanId := map[], 1;
    }

    ghost predicate Guarded()
      reads replay
    {
      replay.Valid() && replay.capacity == REPLAY_WINDOW_REQUESTS
    }

    /** Replay protection in front of every operation: a repeated identifier is refused. */
    method AdmitRequest(id: string) returns (accepted: bool)
      requires Guarded()
      modifies replay
      ensures Guarded()
      ensures accepted <==> id !in Recent(old(replay.admitted), REPLAY_WINDOW_REQUESTS)
      ensures replay.admitted == if accepted then old(replay.admitted) + [id] else old(replay.admitted)
    {
      accepted := replay.Admit(id);
    }

    ghost predicate Sound()
      reads this
    {
      && |scans| <= MAX_ACTIVE_SCANS
      && forall id :: id in scans ==> id < nextScanId && Conserved(scans[id])
    }

    /**
     * Discovery, the second look at deadline and cancellation, then the scan limit: whichever fails
     * first is reported and starts nothing.
     */
    method StartScan(
      discovery: Discovery, interrupted: Option<Interruption>, emission: seq<Event>, result: ScanResult)
      returns (r: Response)
      requires Sound()
      modifies this
      ensures Sound()
      ensures match discovery
        case ProviderFailed(error) => r == ProviderError(error)
        case VolumeMissing => r == NotFound
        case VolumeFound =>
          if interrupted.Some? then r == Interrupted(interrupted.value)
          else if |old(scans)| >= MAX_ACTIVE_SCANS then r == ResourceExhausted
          else r.ScanStarted?
      ensures if r.ScanStarted?
        then r.id !in old(scans) && scans == old(scans)[r.id := NewScan(emission, result)]
        else scans == old(scans)
    {
      match discovery {
        case ProviderFailed(error) => return ProviderError(error);
        case VolumeMissing => return NotFound;
        case VolumeFound =>
      }
      if interrupted.Some? {
        return Interrupted(interrupted.value);
      }
      if |scans| >= MAX_ACTIVE_SCANS {
        return ResourceExhausted;
      }
      var id := nextScanId;
      nextScanId := nextScanId + 1;
      NewScanConserved(emission, result);
      scans := scans[id := NewScan(emission, result)];
      return ScanStarted(id);
    }

    /**
     * One bounded page. Events come out in emission order without loss; a complete page with a
     * checkpoint, or the provider's own failure, appears only after every event was delivered.
     */
    method ReadScanPage(id: nat, maximum: nat, schedule: seq<Turn>) returns (r: Response)
      requires Sound()
      modifies this
      ensures Sound()
      ensures r == NotFound <==> id !in old(scans)
      ensures r == NotFound ==> scans == old(scans)
      ensures forall other :: other in old(scans) && other != id ==> other in scans && scans[other] == old(scans)[other]
      ensures id in old(scans) && id in scans ==>
        && GoesOn(old(scans)[id], maximum, scans[id], r)
        && old(scans)[id].delivered + r.events <= old(scans)[id].emission
      ensures id in old(scans) && id !in scans ==> Ends(old(scans)[id], r)
      ensures id in old(scans) && old(scans)[id].pending.Some? ==>
        id !in scans && r == Ended(old(scans)[id].pending.value)
    {
      if id !in scans {
        return NotFound;
      }
      var scan, events := ReceivePage(scans[id], maximum, schedule);
      DeliveredPrefix(scan);
      if events == [] && scan.pending.Some? {
        scans := scans - {id};
        match scan.pending.value {
          case Finished(checkpoint) => return Page([], Some(checkpoint), true, false);
          case Broken(_) => return ScanFailed(scan.pending.value);
          case StoppedSilently => return ScanFailed(StoppedSilently);
        }
      }
      scans := scans[id := scan];
      return Page(events, None, false, true);
    }

    method CancelScan(id: nat) returns (r: Response)
      requires Sound()
      modifies this
      ensures Sound() && scans == old(scans) - {id}
      ensures r == if id in old(scans) then ScanCancelled(id) else NotFound
    {
      if id !in scans {
        return NotFound;
      }
      scans := scans - {id};
      return ScanCancelled(id);
    }
  }

  // ----- Progress

  /** A run of incomplete answers, each with room for an event. */
  ghost predicate IncompleteReads(scans: seq<Scan>, maxima: seq<nat>, answers: seq<Response>) {
    && |scans| == |answers| + 1 && |maxima| == |answers|
    && forall i :: 0 <= i < |answers| ==> maxima[i] > 0 && GoesOn(scans[i], maxima[i], scans[i + 1], answers[i])
  }

  /** Without a worker every incomplete answer shortens the queue. */
  lemma PageAdvances(before: Scan, maximum: nat, after: Scan, r: Response)
    requires Conserved(before) && !before.producing && maximum > 0 && GoesOn(before, maximum, after, r)
    ensures r.events != [] && before.pending.None?
    ensures after.pending.None? ==> |after.queue| + |r.events| == |before.queue|
    ensures after.pending.Some? ==> |r.events| <= |before.queue|
  {
    var all := Messages(before.emission) + [Terminal(before.result)];
    assert |Messages(before.delivered) + before.queue + before.unsent| == |all|;
    if after.pending.None? {
      assert |Messages(after.delivered) + after.queue + after.unsent| == |all|;
    } else if after.delivered != after.emission {
      assert |Messages(after.delivered) + after.unsent| == |all|;
    }
  }

  /**
   * Once the worker has sent what it will send, at most as many positive reads as there are queued
   * messages stay incomplete: the read after them ends the scan. What they hand out together are
   * the next events, and the whole emission before the scan's own result.
   */
  lemma {:induction false} ReadsTerminate(scans: seq<Scan>, maxima: seq<nat>, answers: seq<Response>)
    requires IncompleteReads(scans, maxima, answers) && Conserved(scans[0]) && !scans[0].producing
    ensures |answers| <= |scans[0].queue|
    ensures var last := scans[|answers|];
      && Conserved(last) && !last.producing && last.unsent == scans[0].unsent
      && last.emission == scans[0].emission && last.result == scans[0].result
      && last.delivered == scans[0].delivered + HandedOut(answers)
      && (last.pending.Some? ==> |HandedOut(answers)| <= |scans[0].queue|)
      && (last.pending.None? ==> |last.queue| + |HandedOut(answers)| == |scans[0].queue|)
      && |answers| <= |HandedOut(answers)|
  {
    if answers != [] {
      var n := |answers| - 1;
      ReadsTerminate(scans[..n + 1], maxima[..n], answers[..n]);
      assert GoesOn(scans[n], maxima[n], scans[n + 1], answers[n]);
      PageAdvances(scans[n], maxima[n], scans[n + 1], answers[n]);
    }
  }

  function HandedOut(answers: seq<Response>): seq<Event> {
    if answers == [] then [] else
      var last := answers[|answers| - 1];
      HandedOut(answers[..|answers| - 1]) + if last.Page? then last.events else []
  }

  lemma NewScanConserved(emission: seq<Event>, result: ScanResult)
    ensures Conserved(NewScan(emission, result))
  {
    var s := NewScan(emission, result);
    assert Messages(s.delivered) + s.queue + s.unsent == Messages(emission) + [Terminal(result)];
  }

  /** What has been delivered is always a prefix of the emission. */
  lemma DeliveredPrefix(s: Scan)
    requires Conserved(s)
    ensures s.delivered <= s.emission
  {
    if s.pending.None? {
      assert Messages(s.delivered) + (s.queue + s.unsent) == Messages(s.delivered) + s.queue + s.unsent;
      NeverAllEvents(s.delivered, s.queue + s.unsent, s.emission, s.result);
    } else if s.delivered != s.emission {
      NeverAllEvents(s.delivered, s.unsent, s.emission, s.result);
    }
  }

  // ----- Replay protection

  /** The most recent `n` elements. */
  function Recent<T>(s: seq<T>, n: nat): seq<T> {
    if |s| <= n then s else s[|s| - n..]
  }

  class ReplayWindow {
    const capacity: nat
    var order: seq<string>
    var present: set<string>
    /** Every identifier ever admitted. */
    ghost var admitted: seq<string>

    constructor (capacity: nat)
      ensures this.capacity == capacity && Valid() && admitted == []
    {
      this.capacity := capacity;
      order, present, admitted := [], {}, [];
    }

    ghost predicate Valid()
      reads this
    {
      && order == Recent(admitted, capacity)
      && (forall x :: x in present <==> x in order)
      && (forall i, j :: 0 <= i < j < |order| ==> order[i] != order[j])
    }

    /** Rejected exactly when it is among the last `capacity` admitted identifiers. */
    method Admit(id: string) returns (accepted: bool)
      requires Valid()
      modifies this
      ensures Valid()
      ensures accepted <==> id !in Recent(old(admitted), capacity)
      ensures admitted == if accepted then old(admitted) + [id] else old(admitted)
    {
      if id in present {
        return false;
      }
      admitted := admitted + [id];
      present := present + {id};
      order := order + [id];
      if |order| > capacity {
        var expired := order[0];
        ghost var all := order;
        present := present - {expired};
        order := order[1..];
        assert forall x :: x in all <==> x == expired || x in order;
        assert expired !in order;
      }
      return true;
    }
  }
}
