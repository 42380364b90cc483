/** The resource governor as a deterministic state machine over its reports and windows. */
module Governor {
  import opened Core

  const U64_LIMIT: nat := 0xFFFF_FFFF_FFFF_FFFF
  const MIB: nat := 1_024 * 1_024

  type Small = x: nat | x <= 255
  type Large = x: nat | x <= U64_LIMIT

  datatype Mode = Active | Balanced | IdleBoost | Pressure | Battery

  datatype Intensity = Paused | Minimal | Normal | Elevated

  datatype Reason =
    | Startup | UserActive | SearchSla | SystemPressure | CriticalMemory | TelemetryUnavailable
    | OnBattery | EnergySaver | BalancedWork | IdleBacklog

  datatype Power = Ac | BatteryPower | UnknownPower

  datatype Observation = Observation(
    memory: Option<nat>, cpu: Option<nat>, disk: Option<nat>, power: Power, energySaver: bool)

  const NO_OBSERVATION := Observation(None, None, None, UnknownPower, false)

  datatype Workload = Workload(userActive: bool, userIdle: bool, backlog: nat)

  datatype Config = Config(
    slaMillis: nat, lowMemory: nat, criticalMemory: nat, highCpu: nat, highDisk: nat,
    pressureWindows: Small, recoveryWindows: Small, cooldownWindows: Small, holdWindows: Small,
    idleAfterMillis: nat)

  datatype Budget = Budget(
    batchMutations: nat, batches: nat, runMillis: nat, heapBytes: nat, pageSize: nat,
    concurrency: nat, intensity: Intensity, paused: bool)

  datatype Decision = Decision(mode: Mode, budget: Budget, reason: Reason, transitions: Large)

  /**
   * Auxiliary history. `sinceChange` counts windows after the last mode change, `viaRecovery`
   * tells whether that change ended a telemetry loss, and `sinceLoss` counts windows observed
   * since telemetry was last lost.
   */
  datatype History = History(changed: bool, viaRecovery: bool, sinceChange: nat, lost: bool, sinceLoss: nat)

  datatype State = State(
    mode: Mode, reason: Reason, observation: Observation, available: bool, recovering: bool,
    workload: Workload, pressureStreak: Small, recoveryStreak: Small, cooldown: Small, hold: Small,
    transitions: Large, history: History)

  function Initial(): State {
    State(Balanced, Startup, NO_OBSERVATION, true, false, Workload(false, false, 0), 0, 0, 0, 0, 0,
          History(false, false, 0, false, 0))
  }

  function Saturated(x: Small): Small {
    if x < 255 then x + 1 else 255
  }

  function Decremented(x: Small): Small {
    if x > 0 then x - 1 else 0
  }

  function BudgetOf(mode: Mode, energySaver: bool): Budget {
    match mode
    case Active => Budget(0, 0, 0, 32 * MIB, 1_000, 0, Paused, true)
    case Balanced => Budget(5_000, 20, 5_000, 64 * MIB, 5_000, 1, Normal, false)
    case IdleBoost => Budget(10_000, 100, 30_000, 128 * MIB, 10_000, 1, Elevated, false)
    case Pressure => Budget(128, 0, 0, 32 * MIB, 500, 0, Paused, true)
    case Battery =>
      if energySaver then Budget(0, 0, 0, 32 * MIB, 1_000, 0, Paused, true)
      else Budget(256, 1, 250, 32 * MIB, 1_000, 1, Minimal, false)
  }

  function DecisionOf(s: State): Decision {
    Decision(s.mode, BudgetOf(s.mode, s.observation.energySaver), s.reason, s.transitions)
  }

  // ----- Transitions

  function Transition(c: Config, s: State, mode: Mode, reason: Reason): State {
    if s.mode == mode then s.(reason := reason)
    else s.(
      mode := mode, reason := reason, cooldown := c.cooldownWindows,
      transitions := if s.transitions < U64_LIMIT then s.transitions + 1 else U64_LIMIT,
      history := s.history.(changed := true, viaRecovery := false, sinceChange := 0))
  }

  function CountWindow(s: State): State {
    s.(history := s.history.(
      sinceChange := s.history.sinceChange + 1,
      sinceLoss := if s.available then s.history.sinceLoss + 1 else s.history.sinceLoss))
  }

  /** One more healthy window. */
  function CountHealthy(s: State, counted: bool): State {
    if counted then s.(recoveryStreak := Saturated(s.recoveryStreak), cooldown := Decremented(s.cooldown)) else s
  }

  /** Telemetry is back; enough counted windows end the fail-closed pause. */
  function Recover(c: Config, s: State, counted: bool): State {
    if !s.recovering then s else
      var t := CountHealthy(s, counted);
      if t.recoveryStreak < c.recoveryWindows then Transition(c, t, Pressure, TelemetryUnavailable)
      else
        var u := Transition(c, t.(recovering := false, recoveryStreak := 0), Balanced, BalancedWork);
        u.(history := u.history.(viaRecovery := true))
  }

  predicate AtMost(x: Option<nat>, bound: nat) {
    x.Some? && x.value <= bound
  }

  predicate AtLeast(x: Option<nat>, bound: nat) {
    x.Some? && x.value >= bound
  }

  predicate Critical(c: Config, o: Observation) {
    AtMost(o.memory, c.criticalMemory)
  }

  predicate Pressured(c: Config, o: Observation) {
    AtMost(o.memory, c.lowMemory) || AtLeast(o.cpu, c.highCpu) || AtLeast(o.disk, c.highDisk)
  }

  function CountPressure(c: Config, s: State, counted: bool): State {
    if Pressured(c, s.observation)
    then s.(pressureStreak := if counted then Saturated(s.pressureStreak) else s.pressureStreak, recoveryStreak := 0)
    else s.(pressureStreak := 0)
  }

  /** The protective rules in order; `None` when none applies and the window is quiet. */
  function Protect(c: Config, s: State): Option<State> {
    if Pressured(c, s.observation) && s.pressureStreak >= c.pressureWindows
    then Some(Transition(c, s, Pressure, SystemPressure))
    else if s.workload.userActive || s.hold > 0
    then Some(Transition(c, s.(recoveryStreak := 0), Active, UserActive))
    else if s.observation.energySaver then Some(Transition(c, s, Battery, EnergySaver))
    else if s.observation.power == BatteryPower then Some(Transition(c, s, Battery, OnBattery))
    else if Pressured(c, s.observation) then Some(s)
    else None
  }

  function Desired(s: State): (Mode, Reason) {
    if s.workload.userIdle && s.workload.backlog > 0 && s.observation.power == Ac
    then (IdleBoost, IdleBacklog) else (Balanced, BalancedWork)
  }

  predicate Ripe(c: Config, s: State) {
    s.recoveryStreak >= c.recoveryWindows && s.cooldown == 0
  }

  /** A hysteretic relaxation, or a refreshed reason. */
  function Relax(c: Config, s: State): State {
    var desired := Desired(s);
    if s.mode == desired.0 then s.(reason := desired.1)
    else if Ripe(c, s) then Transition(c, s, desired.0, desired.1).(recoveryStreak := 0)
    else s
  }

  function Weigh(c: Config, s: State, counted: bool): State {
    if Critical(c, s.observation) then Transition(c, s, Pressure, CriticalMemory) else
      var t := CountPressure(c, s, counted);
      match Protect(c, t)
      case Some(protected) => protected
      case None => Relax(c, CountHealthy(t, counted))
  }

  function Evaluate(c: Config, s: State, counted: bool): State {
    var t := if counted then CountWindow(s) else s;
    if !t.available then Transition(c, t, Pressure, TelemetryUnavailable) else
      var u := Recover(c, t, counted);
      if u.recovering then u else Weigh(c, u, counted)
  }

  // ----- Calls

  datatype Call =
    | BeginInteractive
    | SearchLatency(millis: nat)
    | Observed(observation: Observation)
    | ResourceUnavailable
    | ReportWorkload(workload: Workload)
    | ReportBacklog(backlog: nat)
    | ReportIdle(idle: Option<nat>)
    | AdvanceWindow

  predicate Trusted(s: State) {
    s.available && !s.recovering
  }

  function Forgotten(s: State): State {
    s.(observation := NO_OBSERVATION, available := false, recovering := true,
       workload := s.workload.(userIdle := false), pressureStreak := 0, recoveryStreak := 0, hold := 0,
       history := s.history.(lost := true, sinceLoss := 0))
  }

  function Lost(c: Config, s: State): State {
    Transition(c, Forgotten(s), Pressure, TelemetryUnavailable)
  }

  function CancelBoost(c: Config, s: State): State {
    Transition(c, s.(recoveryStreak := 0), Balanced, BalancedWork)
  }

  function Next(c: Config, s: State, call: Call): State {
    match call
    case BeginInteractive =>
      var t := s.(hold := c.holdWindows);
      if Trusted(s) then Transition(c, t, Active, UserActive) else t
    case SearchLatency(millis) =>
      var t := s.(hold := c.holdWindows);
      if Trusted(s) then Transition(c, t, Active, if millis > c.slaMillis then SearchSla else UserActive) else t
    case Observed(o) => Evaluate(c, s.(observation := o, available := true, hold := Decremented(s.hold)), true)
    case ResourceUnavailable => Lost(c, s)
    case ReportWorkload(w) =>
      var t := s.(workload := w);
      if w.userActive && Trusted(s) then Transition(c, t.(hold := c.holdWindows), Active, UserActive) else t
    case ReportBacklog(n) =>
      var t := s.(workload := s.workload.(backlog := n));
      if n == 0 && s.mode == IdleBoost then CancelBoost(c, t) else t
    case ReportIdle(idle) =>
      var trusted := AtLeast(idle, c.idleAfterMillis);
      var t := s.(workload := s.workload.(userIdle := trusted));
      if !trusted && s.mode == IdleBoost then CancelBoost(c, t) else Evaluate(c, t, false)
    case AdvanceWindow => Evaluate(c, s.(hold := Decremented(s.hold)), true)
  }

  function After(c: Config, s: State, calls: seq<Call>): State {
    if calls == [] then s else Next(c, After(c, s, calls[..|calls| - 1]), calls[|calls| - 1])
  }

  // ----- Danger, read off the reported fields

  ghost predicate Starved(c: Config, o: Observation) {
    o.memory.Some? && o.memory.value <= c.criticalMemory
  }

  ghost predicate Overloaded(c: Config, o: Observation) {
    || (o.memory.Some? && o.memory.value <= c.lowMemory)
    || (o.cpu.Some? && o.cpu.value >= c.highCpu)
    || (o.disk.Some? && o.disk.value >= c.highDisk)
  }

  lemma DangersRead(c: Config, o: Observation)
    ensures Critical(c, o) == Starved(c, o) && Pressured(c, o) == Overloaded(c, o)
  {
  }

  // ----- Safety on every call sequence

  predicate PausedState(s: State) {
    DecisionOf(s).budget.paused
  }

  /** A paused budget admits nothing, and only a paused budget admits nothing. */
  lemma PausedAdmitsNothing(mode: Mode, energySaver: bool)
    ensures var b := BudgetOf(mode, energySaver);
      && (b.paused <==> b.batches == 0) && (b.paused <==> b.runMillis == 0)
      && (b.paused <==> b.concurrency == 0) && (b.paused <==> b.intensity == Paused)
  {
  }

  /** Each danger confines the mode to those whose budget is paused. */
  ghost predicate Safe(c: Config, s: State) {
    && (!s.available ==> s.recovering)
    && (s.recovering ==> s.mode == Pressure)
    && (Starved(c, s.observation) ==> s.mode in {Pressure, Active})
    && (s.hold > 0 || s.workload.userActive ==> s.mode in {Pressure, Active})
    && (s.observation.energySaver ==> s.mode in {Pressure, Active, Battery})
    && (s.mode == IdleBoost ==> s.observation.power != BatteryPower)
  }

  /** Boosted work is trusted idle work with a backlog. */
  ghost predicate BoostTrusted(s: State) {
    s.mode == IdleBoost ==> s.workload.userIdle && s.workload.backlog > 0
  }

  lemma WeighSafe(c: Config, s: State, counted: bool)
    requires Trusted(s)
    ensures Safe(c, Weigh(c, s, counted))
    ensures BoostTrusted(s) ==> BoostTrusted(Weigh(c, s, counted))
  {
    hide Critical, Pressured, Starved, Overloaded;
    DangersRead(c, s.observation);
  }

  lemma EvaluateSafe(c: Config, s: State, counted: bool)
    requires (!s.available ==> s.recovering) && (s.recovering ==> s.mode == Pressure)
    ensures Safe(c, Evaluate(c, s, counted))
    ensures BoostTrusted(s) ==> BoostTrusted(Evaluate(c, s, counted))
  {
    hide Weigh;
    var t := if counted then CountWindow(s) else s;
    if t.available && !Recover(c, t, counted).recovering {
      WeighSafe(c, Recover(c, t, counted), counted);
    }
  }

  lemma NextSafe(c: Config, s: State, call: Call)
    requires Safe(c, s)
    ensures Safe(c, Next(c, s, call))
    ensures BoostTrusted(s) && !call.ReportWorkload? ==> BoostTrusted(Next(c, s, call))
  {
    match call {
      case Observed(o) =>
        EvaluateSafe(c, s.(observation := o, available := true, hold := Decremented(s.hold)), true);
      case ReportIdle(idle) =>
        EvaluateSafe(c, s.(workload := s.workload.(userIdle := AtLeast(idle, c.idleAfterMillis))), false);
      case AdvanceWindow => EvaluateSafe(c, s.(hold := Decremented(s.hold)), true);
      case _ =>
    }
  }

  /** After a workload report, boosted work is still trusted exactly under this condition. */
  lemma WorkloadKeepsTrustExactly(c: Config, s: State, w: Workload)
    requires Safe(c, s)
    ensures BoostTrusted(Next(c, s, ReportWorkload(w))) <==>
      s.mode != IdleBoost || w.userActive || (w.userIdle && w.backlog > 0)
  {
  }

  lemma {:induction false} RunSafe(c: Config, calls: seq<Call>)
    ensures Safe(c, After(c, Initial(), calls))
    ensures (forall i :: 0 <= i < |calls| ==> !calls[i].ReportWorkload?) ==> BoostTrusted(After(c, Initial(), calls))
  {
    if calls != [] {
      RunSafe(c, calls[..|calls| - 1]);
      NextSafe(c, After(c, Initial(), calls[..|calls| - 1]), calls[|calls| - 1]);
    }
  }

  /**
   * On every call sequence: missing or unrecovered telemetry, critical memory, energy saver, an
   * unexpired hold and an active user each pause background work, and without workload reports
   * boosting implies trusted idleness, a backlog and no battery.
   */
  lemma GovernorSafety(c: Config, calls: seq<Call>)
    ensures var s := After(c, Initial(), calls);
      && (!s.available || s.recovering ==> PausedState(s))
      && (Starved(c, s.observation) || s.observation.energySaver ==> PausedState(s))
      && (s.hold > 0 || s.workload.userActive ==> PausedState(s))
      && (s.mode == IdleBoost && (forall i :: 0 <= i < |calls| ==> !calls[i].ReportWorkload?) ==>
           s.workload.userIdle && s.workload.backlog > 0 && s.observation.power != BatteryPower)
  {
    RunSafe(c, calls);
  }

  lemma AfterOne(c: Config, s: State, calls: seq<Call>, call: Call)
    ensures After(c, s, calls + [call]) == Next(c, After(c, s, calls), call)
  {
    assert (calls + [call])[..|calls|] == calls;
  }

  /** A workload report can leave boosted work running with nobody idle and nothing to do. */
  lemma WorkloadBreaksTrust()
    ensures exists c, calls: seq<Call>, w ::
      BoostTrusted(After(c, Initial(), calls)) && !BoostTrusted(After(c, Initial(), calls + [ReportWorkload(w)]))
  {
    hide After, Next;
    var none: seq<Call> := [];
    var calls := none + [ReportBacklog(5)] + [ReportIdle(Some(10))] + [INVITING];
    Boosted();
    var w := Workload(false, false, 0);
    AfterOne(EAGER, Initial(), calls, ReportWorkload(w));
    WorkloadKeepsTrustExactly(EAGER, After(EAGER, Initial(), calls), w);
    assert BoostTrusted(After(EAGER, Initial(), calls));
  }

  const EAGER: Config := Config(75, 1_000, 500, 9_000, 9_000, 2, 1, 0, 3, 0)
  const INVITING: Call := Observed(Observation(Some(9_000), Some(0), Some(0), Ac, false))

  /** A backlog, an idle user and one healthy window are enough for an eager governor to boost. */
  lemma Boosted()
    ensures var none: seq<Call> := [];
      var s := After(EAGER, Initial(), none + [ReportBacklog(5)] + [ReportIdle(Some(10))] + [INVITING]);
      s.mode == IdleBoost && s.workload == Workload(false, true, 5) && Safe(EAGER, s)
  {
    hide After, Next;
    var none: seq<Call> := [];
    var backlog := none + [ReportBacklog(5)];
    var idle := backlog + [ReportIdle(Some(10))];
    AfterOne(EAGER, Initial(), none, ReportBacklog(5));
    AfterOne(EAGER, Initial(), backlog, ReportIdle(Some(10)));
    AfterOne(EAGER, Initial(), idle, INVITING);
    NothingCalled(EAGER);
    RunSafe(EAGER, idle + [INVITING]);
    BoostsAtOnce();
  }

  lemma BoostsAtOnce()
    ensures var s := Next(EAGER, Next(EAGER, Next(EAGER, Initial(), ReportBacklog(5)), ReportIdle(Some(10))), INVITING);
      s.mode == IdleBoost && s.workload == Workload(false, true, 5)
  {
    var s := Next(EAGER, Initial(), ReportBacklog(5));
    assert s == Initial().(workload := Workload(false, false, 5));
    var idle := Next(EAGER, s, ReportIdle(Some(10)));
    assert idle == Initial().(workload := Workload(false, true, 5), reason := BalancedWork);
  }

  lemma NothingCalled(c: Config)
    ensures After(c, Initial(), []) == Initial()
  {
  }

  // ----- Hysteresis: the cooldown

  ghost function Grace(s: State): nat {
    if s.history.viaRecovery then 1 else 0
  }

  /** The cooldown still to run covers the windows not yet seen since the last mode change. */
  ghost predicate Cooled(c: Config, s: State) {
    s.history.changed ==> s.history.sinceChange + s.cooldown + Grace(s) >= c.cooldownWindows
  }

  /** Room for the one window about to be counted. */
  ghost predicate CooledForOne(c: Config, s: State, counted: bool) {
    s.history.changed && counted ==> s.history.sinceChange + s.cooldown + Grace(s) >= c.cooldownWindows + 1
  }

  /** The state in which an evaluation relaxes the mode, if it does. */
  function Relaxing(c: Config, s: State, counted: bool): Option<State> {
    var t := if counted then CountWindow(s) else s;
    if !t.available then None else
      var u := Recover(c, t, counted);
      if u.recovering || Critical(c, u.observation) then None else
        var v := CountPressure(c, u, counted);
        if Protect(c, v).Some? then None else
          var q := CountHealthy(v, counted);
          if q.mode != Desired(q).0 && Ripe(c, q) then Some(q) else None
  }

  function RelaxingCall(c: Config, s: State, call: Call): Option<State> {
    match call
    case Observed(o) => Relaxing(c, s.(observation := o, available := true, hold := Decremented(s.hold)), true)
    case AdvanceWindow => Relaxing(c, s.(hold := Decremented(s.hold)), true)
    case ReportIdle(idle) =>
      var trusted := AtLeast(idle, c.idleAfterMillis);
      if !trusted && s.mode == IdleBoost then None
      else Relaxing(c, s.(workload := s.workload.(userIdle := trusted)), false)
    case _ => None
  }

  /** Work resumes or grows only by a relaxation, by recovered telemetry or by a cancelled boost. */
  lemma OnlyRelaxationLoosens(c: Config, s: State, call: Call)
    requires Safe(c, s)
    ensures var next := Next(c, s, call);
      next.mode != s.mode && (next.mode ==
          IdleBoost || (next.mode == Balanced && s.mode != IdleBoost && !s.recovering)) ==>
        RelaxingCall(c, s, call).Some?
  {
    hide Evaluate, Relaxing;
    match call {
      case Observed(o) =>
        EvaluateLoosens(c, s.(observation := o, available := true, hold := Decremented(s.hold)), true);
      case ReportIdle(idle) =>
        EvaluateLoosens(c, s.(workload := s.workload.(userIdle := AtLeast(idle, c.idleAfterMillis))), false);
      case AdvanceWindow => EvaluateLoosens(c, s.(hold := Decremented(s.hold)), true);
      case _ =>
    }
  }

  lemma EvaluateLoosens(c: Config, s: State, counted: bool)
    requires s.recovering ==> s.mode == Pressure
    ensures var next := Evaluate(c, s, counted);
      next.mode != s.mode && (next.mode ==
          IdleBoost || (next.mode == Balanced && s.mode != IdleBoost && !s.recovering)) ==>
        Relaxing(c, s, counted).Some?
  {
    hide Pressured, Critical, Ripe;
  }

  lemma RecoverCooled(c: Config, s: State, counted: bool)
    requires Cooled(c, s) && CooledForOne(c, s, counted) && (s.recovering ==> s.mode == Pressure)
    ensures var u := Recover(c, s, counted); Cooled(c, u) && (u.recovering || CooledForOne(c, u, counted))
  {
  }

  lemma WeighCooled(c: Config, s: State, counted: bool)
    requires Cooled(c, s) && CooledForOne(c, s, counted)
    ensures Cooled(c, Weigh(c, s, counted))
    ensures Cooled(c, CountHealthy(CountPressure(c, s, counted), counted))
  {
    hide Critical, Pressured, Desired;
  }

  lemma EvaluateCooled(c: Config, s: State, counted: bool)
    requires Cooled(c, s) && (s.recovering ==> s.mode == Pressure)
    ensures Cooled(c, Evaluate(c, s, counted))
    ensures Relaxing(c, s, counted).Some? ==> Cooled(c, Relaxing(c, s, counted).value)
  {
    var t := if counted then CountWindow(s) else s;
    RecoverCooled(c, t, counted);
    if t.available && !Recover(c, t, counted).recovering {
      WeighCooled(c, Recover(c, t, counted), counted);
    }
  }

  lemma NextCooled(c: Config, s: State, call: Call)
    requires Safe(c, s) && Cooled(c, s)
    ensures Cooled(c, Next(c, s, call))
    ensures RelaxingCall(c, s, call).Some? ==> Cooled(c, RelaxingCall(c, s, call).value)
  {
    hide Evaluate, Relaxing;
    match call {
      case Observed(o) =>
        EvaluateCooled(c, s.(observation := o, available := true, hold := Decremented(s.hold)), true);
      case ReportIdle(idle) =>
        EvaluateCooled(c, s.(workload := s.workload.(userIdle := AtLeast(idle, c.idleAfterMillis))), false);
      case AdvanceWindow => EvaluateCooled(c, s.(hold := Decremented(s.hold)), true);
      case _ =>
    }
  }

  lemma {:induction false} RunCooled(c: Config, calls: seq<Call>)
    ensures Cooled(c, After(c, Initial(), calls))
  {
    if calls != [] {
      RunCooled(c, calls[..|calls| - 1]);
      RunSafe(c, calls[..|calls| - 1]);
      NextCooled(c, After(c, Initial(), calls[..|calls| - 1]), calls[|calls| - 1]);
    }
  }

  /**
   * A hysteretic relaxation comes at least `cooldownWindows` counted windows after the previous
   * mode change, one fewer when that change was the telemetry recovery: the window that ends the
   * loss is then counted a second time against the new cooldown.
   */
  lemma CooldownRespected(c: Config, calls: seq<Call>, call: Call)
    ensures var s := After(c, Initial(), calls);
      var q := RelaxingCall(c, s, call);
      q.Some? && q.value.history.changed ==>
        q.value.history.sinceChange + (if q.value.history.viaRecovery then 1 else 0) >= c.cooldownWindows
  {
    RunCooled(c, calls);
    RunSafe(c, calls);
    NextCooled(c, After(c, Initial(), calls), call);
  }

  /** The missing window is real: recovery and boost can fall into one and the same window. */
  lemma RecoveryShortensCooldown()
    ensures exists c, calls: seq<Call>, call ::
      var q := RelaxingCall(c, After(c, Initial(), calls), call);
      q.Some? && q.value.history.changed && q.value.history.sinceChange < c.cooldownWindows
  {
    var c := Config(75, 1_000, 500, 9_000, 9_000, 2, 1, 1, 3, 0);
    var none: seq<Call> := [];
    var lost := none + [ReportBacklog(5)] + [ResourceUnavailable];
    var idle := lost + [ReportIdle(Some(10))];
    AfterOne(c, Initial(), none, ReportBacklog(5));
    AfterOne(c, Initial(), none + [ReportBacklog(5)], ResourceUnavailable);
    AfterOne(c, Initial(), lost, ReportIdle(Some(10)));
    var s := After(c, Initial(), idle);
    assert s.mode == Pressure && s.recovering && s.workload == Workload(false, true, 5);
    var call := Observed(Observation(Some(9_000), Some(0), Some(0), Ac, false));
    var q := RelaxingCall(c, After(c, Initial(), idle), call);
    assert q.Some? && q.value.history.changed && q.value.history.sinceChange < c.cooldownWindows;
  }

  // ----- Hysteresis: telemetry loss

  ghost predicate LossCounted(c: Config, s: State) {
    && (s.recovering ==> s.history.lost && s.recoveryStreak <= s.history.sinceLoss)
    && (s.history.lost && !s.recovering ==> s.history.sinceLoss >= c.recoveryWindows)
  }

  /** Recovery aside, an evaluation leaves the loss and its count alone. */
  lemma WeighLeavesLoss(c: Config, s: State, counted: bool)
    requires !s.recovering
    ensures var t := Weigh(c, s, counted);
      t.recovering == s.recovering && t.history.lost == s.history.lost && t.history.sinceLoss == s.history.sinceLoss
  {
    hide Pressured, Critical, Desired, Ripe;
  }

  lemma EvaluateLoss(c: Config, s: State, counted: bool)
    requires LossCounted(c, s)
    ensures LossCounted(c, Evaluate(c, s, counted))
  {
    hide Weigh;
    var t := if counted then CountWindow(s) else s;
    if t.available {
      var u := Recover(c, t, counted);
      assert LossCounted(c, u);
      if !u.recovering {
        WeighLeavesLoss(c, u, counted);
      }
    }
  }

  lemma {:induction false} RunLoss(c: Config, calls: seq<Call>)
    ensures LossCounted(c, After(c, Initial(), calls))
  {
    if calls != [] {
      var s, call := After(c, Initial(), calls[..|calls| - 1]), calls[|calls| - 1];
      RunLoss(c, calls[..|calls| - 1]);
      hide Evaluate;
      match call {
        case Observed(o) =>
          EvaluateLoss(c, s.(observation := o, available := true, hold := Decremented(s.hold)), true);
        case ReportIdle(idle) =>
          EvaluateLoss(c, s.(workload := s.workload.(userIdle := AtLeast(idle, c.idleAfterMillis))), false);
        case AdvanceWindow => EvaluateLoss(c, s.(hold := Decremented(s.hold)), true);
        case _ =>
      }
    }
  }

  /** Lost telemetry pauses work until `recoveryWindows` counted windows have been observed again. */
  lemma LossPausesLongEnough(c: Config, calls: seq<Call>)
    ensures var s := After(c, Initial(), calls);
      s.history.lost && s.history.sinceLoss < c.recoveryWindows ==> s.mode == Pressure && PausedState(s)
  {
    RunLoss(c, calls);
    RunSafe(c, calls);
  }

  // ----- Hysteresis: the exact end of an interactive hold

  function Windows(c: Config, s: State, n: nat): State {
    if n == 0 then s else Next(c, Windows(c, s, n - 1), AdvanceWindow)
  }

  /** Trusted telemetry, no pressure, mains or unknown power, and no active user. */
  ghost predicate Calm(c: Config, s: State) {
    && Trusted(s) && !Starved(c, s.observation) && !Overloaded(c, s.observation)
    && !s.observation.energySaver && s.observation.power != BatteryPower && !s.workload.userActive
  }

  function Larger(a: int, b: int): int {
    if a < b then b else a
  }

  function Smaller(a: int, b: int): int {
    if a < b then a else b
  }

  /** Windows needed once the hold has expired. */
  function Need(c: Config, streak: nat, cooldown: nat): nat {
    Larger(1, Larger(c.recoveryWindows - streak, cooldown))
  }

  /** A window within the hold only runs it down and clears the streak. */
  lemma HeldWindow(c: Config, s: State)
    requires Calm(c, s) && s.mode == Active && s.hold > 1
    ensures var t := Next(c, s, AdvanceWindow);
      && Calm(c, t) && t.mode == Active && t.hold == s.hold - 1 && t.cooldown == s.cooldown
      && t.recoveryStreak == 0 && Desired(t) == Desired(s)
  {
  }

  /** A window without a hold counts towards both conditions, and relaxes once both are met. */
  lemma FreeWindow(c: Config, s: State)
    requires Calm(c, s) && s.mode != Desired(s).0 && s.hold <= 1
    ensures var t := Next(c, s, AdvanceWindow);
      if Saturated(s.recoveryStreak) >= c.recoveryWindows && Decremented(s.cooldown) == 0
      then t.mode == Desired(s).0
      else Freer(c, s, t, Saturated(s.recoveryStreak), Decremented(s.cooldown), s.history.sinceChange + 1)
  {
    hide Critical, Pressured, Starved, Overloaded;
    DangersRead(c, s.observation);
  }

  /** The same mode, waiting for the same one, with the given counters. */
  ghost predicate Freer(c: Config, s: State, t: State, streak: nat, cooldown: nat, since: nat) {
    && Calm(c, t) && t.mode == s.mode && t.hold <= 1 && Desired(t) == Desired(s)
    && t.recoveryStreak == streak && t.cooldown == cooldown
    && t.history == s.history.(sinceChange := since, sinceLoss := t.history.sinceLoss)
  }

  lemma {:induction false} HoldPhase(c: Config, s: State, n: nat)
    requires Calm(c, s) && s.mode == Active && n < s.hold
    ensures var t := Windows(c, s, n);
      && Calm(c, t) && t.mode == Active && t.hold == s.hold - n && t.cooldown == s.cooldown
      && t.recoveryStreak == (if n == 0 then s.recoveryStreak else 0) && Desired(t) == Desired(s)
  {
    hide Next, Calm, Desired;
    if n > 0 {
      HoldPhase(c, s, n - 1);
      HeldWindow(c, Windows(c, s, n - 1));
    }
  }

  /** Without a hold, the streak builds and the cooldown runs down together. */
  ghost predicate Released(c: Config, s: State, t: State, n: nat) {
    Freer(c, s, t, Smaller(255, s.recoveryStreak + n), Larger(0, s.cooldown - n), s.history.sinceChange + n)
  }

  lemma {:induction false} ReleasePhase(c: Config, s: State, n: nat)
    requires Calm(c, s) && s.mode != Desired(s).0 && s.hold <= 1
    ensures n < Need(c, s.recoveryStreak, s.cooldown) ==> Released(c, s, Windows(c, s, n), n)
    ensures n == Need(c, s.recoveryStreak, s.cooldown) ==> Windows(c, s, n).mode == Desired(s).0
  {
    hide Next, Calm, Desired;
    if 0 < n <= Need(c, s.recoveryStreak, s.cooldown) {
      ReleasePhase(c, s, n - 1);
      FreeWindow(c, Windows(c, s, n - 1));
    }
  }

  lemma {:induction false} WindowsAdd(c: Config, s: State, m: nat, n: nat)
    ensures Windows(c, s, m + n) == Windows(c, Windows(c, s, m), n)
  {
    hide Next;
    if n > 0 {
      WindowsAdd(c, s, m, n - 1);
    }
  }

  /** The window at which a request's protection ends, from a calm state. */
  function ReleaseWindow(c: Config, s: State): nat {
    var held := if c.holdWindows > 0 then c.holdWindows - 1 else 0;
    var streak := if c.holdWindows >= 2 then 0 else s.recoveryStreak;
    var cooldown := if s.mode == Active then s.cooldown else c.cooldownWindows;
    held + Need(c, streak, cooldown)
  }

  /** Protection has just begun: Active, with the whole hold ahead and the counters as they were. */
  ghost predicate JustProtected(c: Config, s: State, t: State) {
    && Calm(c, t) && t.mode == Active && t.hold == c.holdWindows && t.recoveryStreak == s.recoveryStreak
    && t.cooldown == if s.mode == Active then s.cooldown else c.cooldownWindows
  }

  lemma ProtectionEnds(c: Config, s: State, t: State, n: nat)
    requires JustProtected(c, s, t)
    ensures n < ReleaseWindow(c, s) ==> Windows(c, t, n).mode == Active
    ensures n == ReleaseWindow(c, s) ==> Windows(c, t, n).mode == Desired(t).0 != Active
  {
    hide Evaluate, Windows;
    var held := if c.holdWindows > 0 then c.holdWindows - 1 else 0;
    if held == 0 {
      ReleasePhase(c, t, n);
    } else if n < held {
      HoldPhase(c, t, n);
    } else {
      HoldPhase(c, t, held);
      ReleasePhase(c, Windows(c, t, held), n - held);
      WindowsAdd(c, t, held, n - held);
    }
  }

  /**
   * After a request or a reported search in a calm state, quiet windows keep the mode Active up to
   * the release window and leave it exactly there, for the mode the workload then asks for. With a
   * hold of at least two windows and from any other mode, that is window H - 1 + max(R, C, 1).
   */
  lemma ActiveReleasedExactly(c: Config, s: State, call: Call, n: nat)
    requires Calm(c, s) && (call.BeginInteractive? || call.SearchLatency?)
    ensures var t := Next(c, s, call);
      && (n < ReleaseWindow(c, s) ==> Windows(c, t, n).mode == Active)
      && (n == ReleaseWindow(c, s) ==> Windows(c, t, n).mode == Desired(s).0 != Active)
      && (t.reason == SearchSla <==> call.SearchLatency? && call.millis > c.slaMillis)
    ensures s.mode != Active && c.holdWindows >= 2 ==>
      ReleaseWindow(c, s) == c.holdWindows - 1 + Larger(1, Larger(c.recoveryWindows, c.cooldownWindows))
  {
    hide Evaluate, Windows;
    ProtectionEnds(c, s, Next(c, s, call), n);
  }

  /** The same when an active user is reported and then gone. */
  lemma UserReleasedExactly(c: Config, s: State, active: Workload, gone: Workload, n: nat)
    requires Calm(c, s) && active.userActive && !gone.userActive
    ensures var u := Next(c, s, ReportWorkload(active));
      var t := Next(c, u, ReportWorkload(gone));
      && u.mode == Active && t.workload == gone
      && (n < ReleaseWindow(c, s) ==> Windows(c, t, n).mode == Active)
      && (n == ReleaseWindow(c, s) ==> Windows(c, t, n).mode == Desired(t).0 != Active)
  {
    hide Evaluate, Windows;
    ProtectionEnds(c, s, Next(c, Next(c, s, ReportWorkload(active)), ReportWorkload(gone)), n);
  }

  // ----- Hysteresis: the first boost after a telemetry recovery

  /** An observation under which trusted idle work with a backlog wants to boost. */
  ghost predicate Inviting(c: Config, s: State, o: Observation) {
    && !Starved(c, o) && !Overloaded(c, o) && !o.energySaver && o.power == Ac
    && !s.workload.userActive && s.workload.userIdle && s.workload.backlog > 0 && s.hold <= 1
  }

  /** The observation that ends a telemetry loss. */
  ghost predicate EndsLoss(c: Config, s: State) {
    s.recovering && s.mode == Pressure && Saturated(s.recoveryStreak) >= c.recoveryWindows
  }

  /** The recovering window restarts the cooldown and counts against it at once. */
  lemma RecoveringWindow(c: Config, s: State, o: Observation)
    requires EndsLoss(c, s) && Inviting(c, s, o)
    ensures var t := Next(c, s, Observed(o));
      if c.recoveryWindows <= 1 && c.cooldownWindows <= 1
      then t.mode == IdleBoost && RelaxingCall(c, s, Observed(o)).Some?
           && RelaxingCall(c, s, Observed(o)).value.history.sinceChange == 0
      else
        && Calm(c, t) && t.mode == Balanced && t.hold == 0 && Desired(t).0 == IdleBoost
        && t.recoveryStreak == 1 && t.cooldown == Decremented(c.cooldownWindows)
        && t.history.changed && t.history.viaRecovery && t.history.sinceChange == 0
  {
  }

  /** Counted windows between a recovery and the boost that follows it when nothing interferes. */
  function BoostWindow(c: Config): nat {
    Larger(1, Larger(c.recoveryWindows, c.cooldownWindows)) - 1
  }

  /** A window that changes the mode to a wanted boost is a relaxation. */
  lemma BoostRelaxes(c: Config, s: State)
    requires Calm(c, s) && s.mode == Balanced && s.hold <= 1 && Desired(s).0 == IdleBoost
    requires Next(c, s, AdvanceWindow).mode == IdleBoost
    ensures var q := RelaxingCall(c, s, AdvanceWindow);
      q.Some? && q.value.history ==
        s.history.(sinceChange := s.history.sinceChange + 1, sinceLoss := q.value.history.sinceLoss)
  {
  }

  /**
   * After a telemetry recovery, quiet windows boost at exactly window max(1, R, C) - 1. That is
   * short of the cooldown if and only if the cooldown is at least the recovery windows and one.
   */
  lemma RecoveredBoostExactly(c: Config, s: State, o: Observation, n: nat)
    requires EndsLoss(c, s) && Inviting(c, s, o)
    ensures var t := Next(c, s, Observed(o));
      && (n < BoostWindow(c) ==>
           && Windows(c, t, n).mode == Balanced && Windows(c, t, n).history.viaRecovery
           && Windows(c, t, n).history.sinceChange == n)
      && (n == BoostWindow(c) ==> Windows(c, t, n).mode == IdleBoost)
    ensures BoostWindow(c) < c.cooldownWindows <==> c.cooldownWindows >= Larger(1, c.recoveryWindows)
  {
    hide Evaluate, Relaxing;
    var t := Next(c, s, Observed(o));
    RecoveringWindow(c, s, o);
    if t.mode != IdleBoost {
      assert BoostWindow(c) == Need(c, t.recoveryStreak, t.cooldown);
      hide Windows, Next;
      ReleasePhase(c, t, n);
    }
  }

  /** The state in which that boost relaxes the mode. */
  ghost function BoostState(c: Config, s: State, o: Observation): Option<State> {
    if BoostWindow(c) == 0 then RelaxingCall(c, s, Observed(o))
    else RelaxingCall(c, Windows(c, Next(c, s, Observed(o)), BoostWindow(c) - 1), AdvanceWindow)
  }

  /** The relaxation itself meets the cooldown under exactly that condition. */
  lemma RecoveredCooldownExact(c: Config, s: State, o: Observation)
    requires EndsLoss(c, s) && Inviting(c, s, o)
    ensures var q := BoostState(c, s, o);
      && q.Some? && q.value.history.sinceChange == BoostWindow(c)
      && (q.value.history.sinceChange < c.cooldownWindows <==> c.cooldownWindows >= Larger(1, c.recoveryWindows))
  {
    hide Next, RelaxingCall, Windows, Calm, Desired, EndsLoss, Inviting;
    RecoveringWindow(c, s, o);
    var t := Next(c, s, Observed(o));
    var w := BoostWindow(c);
    RecoveredBoostExactly(c, s, o, w);
    if w > 0 {
      assert w == Need(c, t.recoveryStreak, t.cooldown);
      WaitsToBoost(c, t, w);
      BoostRelaxes(c, Windows(c, t, w - 1));
    }
  }

  /** One window before the boost, everything is still as it was but the counters. */
  lemma WaitsToBoost(c: Config, t: State, w: nat)
    requires Calm(c, t) && t.mode == Balanced && t.hold <= 1 && Desired(t).0 == IdleBoost
    requires 0 < w == Need(c, t.recoveryStreak, t.cooldown)
    ensures var u := Windows(c, t, w - 1);
      && Calm(c, u) && u.mode == Balanced && u.hold <= 1 && Desired(u).0 == IdleBoost
      && u.history.sinceChange == t.history.sinceChange + w - 1 && Next(c, u, AdvanceWindow).mode == IdleBoost
  {
    hide Next, Calm, Desired;
    ReleasePhase(c, t, w - 1);
    ReleasePhase(c, t, w);
  }
}
