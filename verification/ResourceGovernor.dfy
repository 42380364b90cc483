/** The governor object: its fields, updated step by step, follow the state machine. */
module ResourceGovernors {
  import opened Core
  import opened Governor

  const NANOS_PER_MILLI: nat := 1_000_000

  /** Whole milliseconds rounded up, saturating at the 64-bit limit. */
  function MillisCeil(nanos: nat): (r: nat)
    ensures r <= U64_LIMIT
    ensures nanos <= r * NANOS_PER_MILLI || r == U64_LIMIT
    ensures r > 0 ==> (r - 1) * NANOS_PER_MILLI < nanos
  {
    var whole := if nanos / NANOS_PER_MILLI > U64_LIMIT then U64_LIMIT else nanos / NANOS_PER_MILLI;
    if nanos % NANOS_PER_MILLI != 0 && whole < U64_LIMIT then whole + 1 else whole
  }

  class ResourceGovernor {
    const config: Config
    var mode: Mode
    var reason: Reason
    var observation: Observation
    var resourceAvailable: bool
    var recoveryRequired: bool
    var workload: Workload
    var pressureStreak: Small
    var recoveryStreak: Small
    var cooldownRemaining: Small
    var interactiveRemaining: Small
    var transitionSequence: Large
    ghost var history: History

    constructor (config: Config)
      ensures this.config == config && View() == Initial()
    {
      this.config := config;
      mode, reason, observation := Balanced, Startup, NO_OBSERVATION;
      resourceAvailable, recoveryRequired, workload := true, false, Workload(false, false, 0);
      pressureStreak, recoveryStreak, cooldownRemaining, interactiveRemaining := 0, 0, 0, 0;
      transitionSequence, history := 0, History(false, false, 0, false, 0);
    }

    ghost function View(): State
      reads this
    {
      State(mode, reason, observation, resourceAvailable, recoveryRequired, workload, pressureStreak,
            recoveryStreak, cooldownRemaining, interactiveRemaining, transitionSequence, history)
    }

    /** What callers see; reading it changes nothing. */
    method Decide() returns (d: Decision)
      ensures d == DecisionOf(View())
    {
      d := Decision(mode, BudgetOf(mode, observation.energySaver), reason, transitionSequence);
    }

    method ChangeMode(next: Mode, why: Reason)
      modifies this
      ensures View() == Transition(config, old(View()), next, why)
    {
      if mode != next {
        mode := next;
        if transitionSequence < U64_LIMIT {
          transitionSequence := transitionSequence + 1;
        }
        cooldownRemaining := config.cooldownWindows;
        history := history.(changed := true, viaRecovery := false, sinceChange := 0);
      }
      reason := why;
    }

    method CountHealthyWindow(counted: bool)
      modifies this
      ensures View() == CountHealthy(old(View()), counted)
    {
      if counted {
        recoveryStreak := Saturated(recoveryStreak);
        cooldownRemaining := Decremented(cooldownRemaining);
      }
    }

    method RecoverTelemetry(counted: bool)
      modifies this
      ensures View() == Recover(config, old(View()), counted)
    {
      if recoveryRequired {
        CountHealthyWindow(counted);
        if recoveryStreak < config.recoveryWindows {
          ChangeMode(Pressure, TelemetryUnavailable);
          return;
        }
        recoveryRequired := false;
        recoveryStreak := 0;
        ChangeMode(Balanced, BalancedWork);
        history := history.(viaRecovery := true);
      }
    }

    /** `settled` when a protective rule decided this evaluation. */
    method ApplyProtection(counted: bool) returns (settled: bool)
      modifies this
      ensures var counting := CountPressure(config, old(View()), counted);
        && (settled <==> Protect(config, counting).Some?)
        && View() == if settled then Protect(config, counting).value else counting
    {
      var pressured := Pressured(config, observation);
      if pressured {
        if counted {
          pressureStreak := Saturated(pressureStreak);
        }
        recoveryStreak := 0;
        if pressureStreak >= config.pressureWindows {
          ChangeMode(Pressure, SystemPressure);
          return true;
        }
      } else {
        pressureStreak := 0;
      }
      if workload.userActive || interactiveRemaining > 0 {
        recoveryStreak := 0;
        ChangeMode(Active, UserActive);
        return true;
      }
      if observation.energySaver {
        ChangeMode(Battery, EnergySaver);
        return true;
      }
      if observation.power == BatteryPower {
        ChangeMode(Battery, OnBattery);
        return true;
      }
      return pressured;
    }

    method RelaxMode()
      modifies this
      ensures View() == Relax(config, old(View()))
    {
      var boost := workload.userIdle && workload.backlog > 0 && observation.power == Ac;
      var desired, why := if boost then IdleBoost else Balanced, if boost then IdleBacklog else BalancedWork;
      if mode == desired {
        reason := why;
      } else if recoveryStreak >= config.recoveryWindows && cooldownRemaining == 0 {
        ChangeMode(desired, why);
        recoveryStreak := 0;
      }
    }

    method Reevaluate(counted: bool)
      modifies this
      ensures View() == Evaluate(config, old(View()), counted)
    {
      hide Transition, Recover, CountPressure, Protect, Relax, CountHealthy;
      if counted {
        history := history.(
          sinceChange := history.sinceChange + 1,
          sinceLoss := if resourceAvailable then history.sinceLoss + 1 else history.sinceLoss);
      }
      if !resourceAvailable {
        ChangeMode(Pressure, TelemetryUnavailable);
        return;
      }
      RecoverTelemetry(counted);
      if recoveryRequired {
        return;
      }
      if AtMost(observation.memory, config.criticalMemory) {
        ChangeMode(Pressure, CriticalMemory);
        return;
      }
      var settled := ApplyProtection(counted);
      if !settled {
        CountHealthyWindow(counted);
        RelaxMode();
      }
    }

    method BeginInteractiveRequest() returns (d: Decision)
      modifies this
      ensures View() == Next(config, old(View()), BeginInteractive) && d == DecisionOf(View())
    {
      interactiveRemaining := config.holdWindows;
      if resourceAvailable && !recoveryRequired {
        ChangeMode(Active, UserActive);
      }
      d := Decide();
    }

    method ReportSearchLatency(nanos: nat) returns (d: Decision)
      modifies this
      ensures View() == Next(config, old(View()), SearchLatency(MillisCeil(nanos))) && d == DecisionOf(View())
    {
      interactiveRemaining := config.holdWindows;
      if resourceAvailable && !recoveryRequired {
        ChangeMode(Active, if MillisCeil(nanos) > config.slaMillis then SearchSla else UserActive);
      }
      d := Decide();
    }

    method ReportSystemPressure(seen: Observation) returns (d: Decision)
      modifies this
      ensures View() == Next(config, old(View()), Observed(seen)) && d == DecisionOf(View())
    {
      hide Evaluate;
      observation := seen;
      resourceAvailable := true;
      interactiveRemaining := Decremented(interactiveRemaining);
      Reevaluate(true);
      d := Decide();
    }

    method ForgetTelemetry()
      modifies this
      ensures View() == Forgotten(old(View()))
    {
      observation := NO_OBSERVATION;
      resourceAvailable, recoveryRequired := false, true;
      workload := workload.(userIdle := false);
      pressureStreak, recoveryStreak, interactiveRemaining := 0, 0, 0;
      history := history.(lost := true, sinceLoss := 0);
    }

    method ReportResourceUnavailable() returns (d: Decision)
      modifies this
      ensures View() == Next(config, old(View()), ResourceUnavailable) && d == DecisionOf(View())
    {
      hide Transition;
      ForgetTelemetry();
      ChangeMode(Pressure, TelemetryUnavailable);
      d := Decide();
    }

    method ReportWorkloadState(state: Workload) returns (d: Decision)
      modifies this
      ensures View() == Next(config, old(View()), ReportWorkload(state)) && d == DecisionOf(View())
    {
      workload := state;
      if state.userActive && resourceAvailable && !recoveryRequired {
        interactiveRemaining := config.holdWindows;
        ChangeMode(Active, UserActive);
      }
      d := Decide();
    }

    method ReportBacklogSize(backlog: nat) returns (d: Decision)
      modifies this
      ensures View() == Next(config, old(View()), ReportBacklog(backlog)) && d == DecisionOf(View())
    {
      workload := workload.(backlog := backlog);
      if backlog == 0 && mode == IdleBoost {
        recoveryStreak := 0;
        ChangeMode(Balanced, BalancedWork);
      }
      d := Decide();
    }

    method ReportUserIdleDuration(millis: Option<nat>) returns (d: Decision)
      modifies this
      ensures View() == Next(config, old(View()), ReportIdle(millis)) && d == DecisionOf(View())
    {
      hide Evaluate;
      workload := workload.(userIdle := AtLeast(millis, config.idleAfterMillis));
      if !workload.userIdle && mode == IdleBoost {
        recoveryStreak := 0;
        ChangeMode(Balanced, BalancedWork);
      } else {
        Reevaluate(false);
      }
      d := Decide();
    }

    method AdvancePolicyWindow() returns (d: Decision)
      modifies this
      ensures View() == Next(config, old(View()), AdvanceWindow) && d == DecisionOf(View())
    {
      hide Evaluate;
      interactiveRemaining := Decremented(interactiveRemaining);
      Reevaluate(true);
      d := Decide();
    }
  }
}
