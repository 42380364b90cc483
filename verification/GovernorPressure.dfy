/** When sustained load pauses background work, on every sequence of calls with trusted telemetry. */
module GovernorPressure {
  import opened Core
  import opened Governor

  // ----- One evaluation, from the reported fields

  /**
   * The mode a trusted state goes to, from what is reported, who is active and how long load and
   * quiet have lasted; `more` is one when the evaluation ends a window.
   */
  ghost function Decided(c: Config, s: State, o: Observation, w: Workload, hold: nat, more: nat): Mode {
    if Starved(c, o) || (Overloaded(c, o) && s.pressureStreak + more >= c.pressureWindows) then Pressure
    else if w.userActive || hold > 0 then Active
    else if o.energySaver || o.power == BatteryPower then Battery
    else if Overloaded(c, o) || s.recoveryStreak + more < c.recoveryWindows || s.cooldown > more then
      s.mode
    else Wanted(o, w)
  }

  /** Boosted work needs an idle user, a backlog and mains power that is known to be there. */
  ghost function Wanted(o: Observation, w: Workload): Mode {
    if w.userIdle && w.backlog > 0 && o.power == Ac then IdleBoost else Balanced
  }

  /** An evaluation in a trusted state decides by that table. */
  lemma EvaluationDecides(c: Config, s: State, counted: bool)
    requires Trusted(s)
    ensures var t := Evaluate(c, s, counted);
      && t.workload == s.workload && t.observation == s.observation
      && t.mode == Decided(c, s, s.observation, s.workload, s.hold, if counted then 1 else 0)
  {
    hide Critical, Pressured, Starved, Overloaded;
    DangersRead(c, s.observation);
  }

  /** Every window, and every idle report that cancels no boost, decides by that table. */
  lemma CallDecides(c: Config, s: State, call: Call)
    requires Trusted(s) && (Counted(call) || call.ReportIdle?)
    ensures var t := Next(c, s, call);
      var idle := call.ReportIdle? && call.idle.Some? && call.idle.value >= c.idleAfterMillis;
      var w := if call.ReportIdle? then s.workload.(userIdle := idle) else s.workload;
      && t.workload == w && t.observation == Reported(s, call)
      && t.mode == if call.ReportIdle? then
                     if s.mode == IdleBoost && !idle then Balanced else Decided(c, s, s.observation, w, s.hold, 0)
                   else Decided(c, s, Reported(s, call), w, if s.hold > 0 then s.hold - 1 else 0, 1)
  {
    hide Evaluate, Starved, Overloaded;
    match call {
      case Observed(o) =>
        EvaluationDecides(c, s.(observation := o, available := true, hold := Decremented(s.hold)), true);
      case ReportIdle(idle) =>
        EvaluationDecides(c, s.(workload := s.workload.(userIdle := AtLeast(idle, c.idleAfterMillis))), false);
      case AdvanceWindow => EvaluationDecides(c, s.(hold := Decremented(s.hold)), true);
      case _ => assert false;
    }
  }

  // ----- Runs of overload

  /** Calls that end a policy window. */
  predicate Counted(call: Call) {
    call.Observed? || call.AdvanceWindow?
  }

  /** What is on record once the call has reported. */
  ghost function Reported(s: State, call: Call): Observation {
    if call.Observed? then call.observation else s.observation
  }

  /** Telemetry stays, and whatever it reports is overload. */
  ghost predicate LoadedCalls(c: Config, calls: seq<Call>) {
    forall i :: 0 <= i < |calls| ==>
      !calls[i].ResourceUnavailable? && (calls[i].Observed? ==> Overloaded(c, calls[i].observation))
  }

  /** Overload is on record from the first call on. */
  ghost predicate LoadedRun(c: Config, s: State, calls: seq<Call>) {
    && Trusted(s) && LoadedCalls(c, calls)
    && (Overloaded(c, s.observation) || (calls != [] && calls[0].Observed?))
  }

  /** Windows of overload short of memory starvation. */
  ghost function LoadedWindows(c: Config, s: State, calls: seq<Call>): nat {
    if calls == [] then 0 else
      var last := calls[|calls| - 1];
      LoadedWindows(c, s, calls[..|calls| - 1]) +
      if Counted(last) && !Starved(c, After(c, s, calls).observation) then 1 else 0
  }

  /** No observation of the run reports starvation. */
  ghost predicate NeverStarved(c: Config, s: State, calls: seq<Call>) {
    && ((calls != [] && calls[0].Observed?) || !Starved(c, s.observation))
    && forall i :: 0 <= i < |calls| && calls[i].Observed? ==> !Starved(c, calls[i].observation)
  }

  /** The mode an overloaded window gives when the streak is still short. */
  ghost function Tolerated(before: Mode, t: State): Mode {
    if t.workload.userActive || t.hold > 0 then Active
    else if t.observation.energySaver || t.observation.power == BatteryPower then Battery
    else before
  }

  /** One overloaded window: starvation pauses at once and uncounted, a full streak pauses, no other does. */
  ghost predicate Weighed(c: Config, s: State, t: State) {
    if Starved(c, t.observation)
    then t.mode == Pressure && t.reason == CriticalMemory && t.pressureStreak == s.pressureStreak
    else
      && t.pressureStreak == Saturated(s.pressureStreak)
      && if t.pressureStreak >= c.pressureWindows then t.mode == Pressure && t.reason == SystemPressure
         else t.mode == Tolerated(s.mode, t)
  }

  lemma LoadedWindow(c: Config, s: State, call: Call)
    requires Trusted(s) && Counted(call)
    requires Overloaded(c, Reported(s, call))
    ensures var t := Next(c, s, call);
      && Trusted(t) && Weighed(c, s, t) && t.workload == s.workload
      && t.observation == Reported(s, call)
  {
    hide Critical, Pressured, Starved, Overloaded;
    DangersRead(c, Reported(s, call));
  }

  /** Between windows the streak stands still, and only starvation or a full streak pauses for pressure. */
  lemma BetweenWindows(c: Config, s: State, call: Call)
    requires Trusted(s) && !Counted(call) && !call.ResourceUnavailable?
    ensures var t := Next(c, s, call);
      && Trusted(t) && t.observation == s.observation
      && (Overloaded(c, s.observation) ==> t.pressureStreak == s.pressureStreak)
      && (t.mode == Pressure != s.mode ==>
           Starved(c, s.observation) || (Overloaded(c, s.observation) && s.pressureStreak >= c.pressureWindows))
  {
    hide Critical, Pressured, Starved, Overloaded;
    DangersRead(c, s.observation);
  }

  /** The streak counts exactly the overloaded windows. */
  lemma {:induction false} LoadCounted(c: Config, s: State, calls: seq<Call>)
    requires LoadedRun(c, s, calls)
    ensures var t := After(c, s, calls);
      && Trusted(t) && (calls != [] ==> Overloaded(c, t.observation))
      && t.pressureStreak == Smaller(255, s.pressureStreak + LoadedWindows(c, s, calls))
  {
    hide Overloaded, Starved, Next;
    if calls != [] {
      var earlier, call := calls[..|calls| - 1], calls[|calls| - 1];
      var prior := After(c, s, earlier);
      if earlier != [] || Overloaded(c, s.observation) {
        LoadCounted(c, s, earlier);
      }
      if Counted(call) {
        LoadedWindow(c, prior, call);
      } else {
        BetweenWindows(c, prior, call);
      }
    }
  }

  /** Before the last window of a loaded run, telemetry is trusted and overload about to be weighed. */
  lemma BeforeLast(c: Config, s: State, calls: seq<Call>, call: Call)
    requires LoadedRun(c, s, calls + [call]) && Counted(call)
    ensures Trusted(After(c, s, calls)) && Overloaded(c, Reported(After(c, s, calls), call))
  {
    hide Next, Overloaded, Trusted;
    var all := calls + [call];
    assert call == all[|calls|] && forall i :: 0 <= i < |calls| ==> calls[i] == all[i];
    if calls != [] || Overloaded(c, s.observation) {
      LoadCounted(c, s, calls);
    }
  }

  /**
   * Which window of overload pauses: at the end of a window, the mode is Pressure at once under
   * starvation, and otherwise from the window on that completes the streak; a window short of
   * that leaves the mode to the user, the battery or what it was.
   */
  lemma PressurePausesExactly(c: Config, s: State, calls: seq<Call>, call: Call)
    requires LoadedRun(c, s, calls + [call]) && Counted(call)
    ensures var before := After(c, s, calls);
      var t := After(c, s, calls + [call]);
      var streak := s.pressureStreak + LoadedWindows(c, s, calls + [call]);
      && (if Starved(c, t.observation) then t.mode == Pressure && t.reason == CriticalMemory
          else if streak >= c.pressureWindows then t.mode == Pressure && t.reason == SystemPressure
          else t.mode == Tolerated(before.mode, t))
      && (Starved(c, t.observation) || streak >= c.pressureWindows ==> PausedState(t))
  {
    hide Next, After, Overloaded, Starved, Tolerated;
    LoadCounted(c, s, calls + [call]);
    BeforeLast(c, s, calls, call);
    AfterOne(c, s, calls, call);
    LoadedWindow(c, After(c, s, calls), call);
  }

  function CountedCalls(calls: seq<Call>): nat {
    if calls == [] then 0
    else CountedCalls(calls[..|calls| - 1]) + if Counted(calls[|calls| - 1]) then 1 else 0
  }

  lemma EarlierLoaded(c: Config, s: State, calls: seq<Call>)
    requires calls != [] && LoadedRun(c, s, calls) && (|calls| > 1 || !calls[0].Observed?)
    ensures var earlier := calls[..|calls| - 1];
      LoadedRun(c, s, earlier) && (NeverStarved(c, s, calls) ==> NeverStarved(c, s, earlier))
  {
    hide Overloaded, Starved;
    var earlier := calls[..|calls| - 1];
    assert forall i :: 0 <= i < |earlier| ==> earlier[i] == calls[i];
  }

  lemma WeighReports(c: Config, s: State, counted: bool)
    ensures Weigh(c, s, counted).observation == s.observation
  {
    hide Critical, Pressured, Desired, Ripe;
  }

  lemma EvaluateReports(c: Config, s: State, counted: bool)
    ensures Evaluate(c, s, counted).observation == s.observation
  {
    hide Weigh;
    WeighReports(c, Recover(c, if counted then CountWindow(s) else s, counted), counted);
  }

  lemma NextReports(c: Config, s: State, call: Call)
    requires !call.ResourceUnavailable?
    ensures Next(c, s, call).observation == Reported(s, call)
  {
    hide Evaluate;
    match call {
      case Observed(o) =>
        EvaluateReports(c, s.(observation := o, available := true, hold := Decremented(s.hold)), true);
      case ReportIdle(idle) =>
        EvaluateReports(c, s.(workload := s.workload.(userIdle := AtLeast(idle, c.idleAfterMillis))), false);
      case AdvanceWindow => EvaluateReports(c, s.(hold := Decremented(s.hold)), true);
      case _ =>
    }
  }

  lemma {:induction false} UnstarvedAfter(c: Config, s: State, calls: seq<Call>)
    requires LoadedRun(c, s, calls) && NeverStarved(c, s, calls)
    ensures !Starved(c, After(c, s, calls).observation)
  {
    hide Next, Starved, Overloaded;
    if calls != [] {
      var earlier, call := calls[..|calls| - 1], calls[|calls| - 1];
      NextReports(c, After(c, s, earlier), call);
      if !call.Observed? {
        EarlierLoaded(c, s, calls);
        UnstarvedAfter(c, s, earlier);
      }
    }
  }

  /** Where nothing is starved, every window counts. */
  lemma {:induction false} NeverStarvedAfter(c: Config, s: State, calls: seq<Call>)
    requires LoadedRun(c, s, calls) && NeverStarved(c, s, calls)
    ensures !Starved(c, After(c, s, calls).observation) && LoadedWindows(c, s, calls) == CountedCalls(calls)
  {
    hide After, Starved, LoadedRun, NeverStarved;
    UnstarvedAfter(c, s, calls);
    if |calls| > 1 || (calls != [] && !calls[0].Observed?) {
      EarlierLoaded(c, s, calls);
      NeverStarvedAfter(c, s, calls[..|calls| - 1]);
    } else if calls != [] {
      assert calls[..|calls| - 1] == [];
      StartsAt(c, s);
    }
  }

  lemma StartsAt(c: Config, s: State)
    ensures After(c, s, []) == s && LoadedWindows(c, s, []) == 0 && CountedCalls([]) == 0
  {
  }

  /** Short of the streak and of starvation, nothing enters Pressure. */
  lemma {:induction false} NotBefore(c: Config, s: State, calls: seq<Call>)
    requires LoadedRun(c, s, calls) && NeverStarved(c, s, calls) && s.mode != Pressure
    requires s.pressureStreak + CountedCalls(calls) < c.pressureWindows
    ensures After(c, s, calls).mode != Pressure
  {
    hide Next, Overloaded, Starved, Trusted, PausedState;
    if calls != [] {
      var earlier, call := calls[..|calls| - 1], calls[|calls| - 1];
      assert earlier + [call] == calls;
      if earlier != [] || !call.Observed? {
        NotBefore(c, s, earlier);
        NeverStarvedAfter(c, s, earlier);
        LoadCounted(c, s, earlier);
      }
      NeverStarvedAfter(c, s, calls);
      if Counted(call) {
        PressurePausesExactly(c, s, earlier, call);
      } else {
        BetweenWindows(c, After(c, s, earlier), call);
      }
    }
  }

  /**
   * Overload without starvation, from a mode other than Pressure and a streak of zero: at the end
   * of a window background work is under pressure if and only if that window is at least the
   * configured one, counting every window and no other call; it is then paused.
   */
  lemma OverloadPausesAtWindow(c: Config, s: State, calls: seq<Call>, call: Call)
    requires LoadedRun(c, s, calls + [call]) && NeverStarved(c, s, calls + [call]) && Counted(call)
    requires s.mode != Pressure && s.pressureStreak == 0
    ensures var t := After(c, s, calls + [call]);
      && (t.mode == Pressure <==> CountedCalls(calls + [call]) >= Larger(1, c.pressureWindows))
      && (t.mode == Pressure ==> PausedState(t))
  {
    hide After, Overloaded, Starved, Tolerated;
    var all := calls + [call];
    assert all[..|all| - 1] == calls && all[|all| - 1] == call;
    NeverStarvedAfter(c, s, all);
    PressurePausesExactly(c, s, calls, call);
    if CountedCalls(all) < c.pressureWindows {
      NotBefore(c, s, all);
    }
  }

  /**
   * Overloaded windows in a row are not enough by themselves: a starved one pauses without being
   * counted, so on battery the next may resume work. As many counted windows always pause.
   */
  lemma StarvedWindowUncounted()
    ensures exists c: Config, o: Observation, p: Observation ::
      && c.pressureWindows == 2 && Overloaded(c, o) && Overloaded(c, p)
      && var t := After(c, Initial(), [Observed(o), Observed(p)]);
         t.mode == Battery && !PausedState(t)
  {
    hide After, Next;
    var c, o, p := TOLERANT, STARVED, LOW;
    var none: seq<Call> := [];
    StarvedThenLow();
    StartsAt(c, Initial());
    AfterOne(c, Initial(), none, Observed(o));
    AfterOne(c, Initial(), none + [Observed(o)], Observed(p));
    assert none + [Observed(o)] + [Observed(p)] == [Observed(o), Observed(p)];
    assert Overloaded(c, o) && Overloaded(c, p);
    var t := After(c, Initial(), [Observed(o), Observed(p)]);
    assert t.mode == Battery && !PausedState(t);
  }

  const TOLERANT: Config := Config(75, 1_000, 500, 9_000, 9_000, 2, 1, 0, 3, 0)
  const STARVED: Observation := Observation(Some(100), None, None, BatteryPower, false)
  const LOW: Observation := Observation(Some(800), None, None, BatteryPower, false)

  lemma StarvedThenLow()
    ensures var t := Next(TOLERANT, Next(TOLERANT, Initial(), Observed(STARVED)), Observed(LOW));
      t.mode == Battery && !PausedState(t)
  {
    var first := Next(TOLERANT, Initial(), Observed(STARVED));
    assert Trusted(first) && first.mode == Pressure && first.pressureStreak == 0 && first.hold == 0
           && !first.workload.userActive;
    hide Next;
    LoadedWindow(TOLERANT, first, Observed(LOW));
  }

  // ----- The exact end of a telemetry loss

  /** Windows alone, the first one bringing telemetry back. */
  ghost predicate WindowsBack(calls: seq<Call>) {
    (forall i :: 0 <= i < |calls| ==> Counted(calls[i])) && (calls != [] ==> calls[0].Observed?)
  }

  /** A window with telemetry counts towards the end of the loss, and ends it at the last one. */
  lemma RecoveryWindow(c: Config, s: State, call: Call)
    requires Counted(call) && (call.Observed? || s.available)
    ensures var t := Next(c, s, call);
      && t.available
      && (t.recovering <==> s.recovering && Saturated(s.recoveryStreak) < c.recoveryWindows)
      && (t.recovering ==> t.recoveryStreak == Saturated(s.recoveryStreak))
  {
    hide Weigh;
    var o := s.(observation := Reported(s, call), available := true, hold := Decremented(s.hold));
    var u := Recover(c, CountWindow(o), true);
    if !u.recovering {
      WeighLeavesLoss(c, u, true);
      WeighLeavesTelemetry(c, u, true);
    }
  }

  lemma WeighLeavesTelemetry(c: Config, s: State, counted: bool)
    ensures Weigh(c, s, counted).available == s.available
  {
    hide Critical, Pressured, Desired, Ripe;
  }

  /** Lost telemetry is trusted again exactly from window max(1, R) with telemetry on. */
  lemma {:induction false} RecoversExactly(c: Config, s: State, calls: seq<Call>)
    requires WindowsBack(calls)
    ensures var t := After(c, Next(c, s, ResourceUnavailable), calls);
      && (t.recovering <==> |calls| < Larger(1, c.recoveryWindows)) && (t.recovering ==> t.recoveryStreak == |calls|)
      && (t.available <==> calls != [])
  {
    hide Evaluate;
    if calls != [] {
      var earlier, call := calls[..|calls| - 1], calls[|calls| - 1];
      RecoversExactly(c, s, earlier);
      RecoveryWindow(c, After(c, Next(c, s, ResourceUnavailable), earlier), call);
    }
  }
}
