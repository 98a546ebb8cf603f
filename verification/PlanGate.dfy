/** Fail-closed aggregation of the six plan checks, and the plan-level entry point. */
module PlanGate {
  import opened Prelude
  import opened Aggregation
  import opened PlanContract
  import opened PlanChecks
  import opened TaskGraph

  function DidNotRun(name: PlanCheckName): PlanCheckResult { FailedCheck(name, PlanConfigMissing) }

  function Held(checks: seq<PlanCheckResult>, name: PlanCheckName): PlanCheckResult {
    match WorstOf(checks, name)
    case None => DidNotRun(name)
    case Some(worst) => worst
  }

  function InOrder(checks: seq<PlanCheckResult>): seq<PlanCheckResult> {
    [Held(checks, TasksAuthorised), Held(checks, DependenciesSound), Held(checks, PlanConsistent),
     Held(checks, CoverageComplete), Held(checks, ExposureWithinLimits), Held(checks, PlanRisk)]
  }

  /** plan_gate._ordered */
  method Ordered(checks: seq<PlanCheckResult>) returns (ordered: seq<PlanCheckResult>)
    ensures ordered == InOrder(checks)
  {
    var worst: map<PlanCheckName, PlanCheckResult> := map[];
    for i := 0 to |checks|
      invariant forall name :: name in worst <==> WorstOf(checks[..i], name).Some?
      invariant forall name :: name in worst ==> WorstOf(checks[..i], name) == Some(worst[name])
    {
      var check := checks[i];
      assert checks[..i + 1][..i] == checks[..i];
      if check.name !in worst || Severity(check.state) > Severity(worst[check.name].state) {
        worst := worst[check.name := check];
      }
    }
    assert checks[..|checks|] == checks;
    ordered := [];
    for i := 0 to |PLAN_CHECK_ORDER|
      invariant |ordered| == i
      invariant forall j :: 0 <= j < i ==> ordered[j] == Held(checks, PLAN_CHECK_ORDER[j])
    {
      var name := PLAN_CHECK_ORDER[i];
      ordered := ordered + [if name in worst then worst[name] else DidNotRun(name)];
    }
  }

  predicate AnyFailed(checks: seq<PlanCheckResult>) {
    exists c :: c in checks && c.state == Failed
  }

  predicate UnpermittedWarn(check: PlanCheckResult, config: PlanConfig) {
    check.state == Warn && check.name !in config.warnAllowed
  }

  /** The tier of record; a plan whose risk nobody classified is high risk. */
  function TierOf(ordered: seq<PlanCheckResult>): RiskTier
    requires |ordered| == 6
  {
    if ordered[5].tier.Some? then ordered[5].tier.value else High
  }

  function DecisionOf(ordered: seq<PlanCheckResult>, config: PlanConfig): Decision
    requires |ordered| == 6
  {
    if AnyFailed(ordered) || TierOf(ordered) == High || exists c :: c in ordered && UnpermittedWarn(c, config)
    then NeedsHuman
    else if exists c :: c in ordered && c.state == Warn then ExecuteFlagged
    else Execute
  }

  function BlockingNames(ordered: seq<PlanCheckResult>, config: PlanConfig): set<PlanCheckName>
    requires |ordered| == 6
  {
    (set c | c in ordered && c.state == Failed :: c.name)
    + (if TierOf(ordered) == High then {PlanRisk} else {})
    + (if AnyFailed(ordered) || TierOf(ordered) == High then {}
       else set c | c in ordered && UnpermittedWarn(c, config) :: c.name)
  }

  function MissingConfigResult(): PlanResult {
    PlanResult(NeedsHuman, High,
      [DidNotRun(TasksAuthorised), DidNotRun(DependenciesSound), DidNotRun(PlanConsistent),
       DidNotRun(CoverageComplete), DidNotRun(ExposureWithinLimits), DidNotRun(PlanRisk)],
      PLAN_CHECK_ORDER)
  }

  function AggregateResult(checks: seq<PlanCheckResult>, config: Option<PlanConfig>): PlanResult {
    match config
    case None => MissingConfigResult()
    case Some(c) =>
      var ordered := InOrder(checks);
      PlanResult(DecisionOf(ordered, c), TierOf(ordered), ordered, Pick(PLAN_CHECK_ORDER, BlockingNames(ordered, c)))
  }

  /** aggregate_plan */
  method AggregatePlan(checks: seq<PlanCheckResult>, config: Option<PlanConfig>) returns (result: PlanResult)
    ensures result == AggregateResult(checks, config)
  {
    if config.None? {
      return MissingConfigResult();
    }
    var c := config.value;
    var ordered := Ordered(checks);
    var decision, blocking := Decide(ordered, c);
    return PlanResult(decision, TierOf(ordered), ordered, Pick(PLAN_CHECK_ORDER, blocking));
  }

  /** Rules 2 to 5. */
  method Decide(ordered: seq<PlanCheckResult>, config: PlanConfig)
    returns (decision: Decision, blocking: set<PlanCheckName>)
    requires |ordered| == 6
    ensures decision == DecisionOf(ordered, config)
    ensures blocking == BlockingNames(ordered, config)
  {
    var failures := set r | r in ordered && r.state == Failed;
    var warnings := set r | r in ordered && r.state == Warn;
    var highRiskBlocks := TierOf(ordered) == High;
    blocking := set r | r in failures :: r.name;
    assert forall r :: r in failures <==> r in ordered && r.state == Failed;
    assert forall r :: r in warnings <==> r in ordered && r.state == Warn;
    if failures != {} {
      decision := NeedsHuman;
      if highRiskBlocks && PlanRisk !in blocking {
        blocking := blocking + {PlanRisk};
      }
    } else if highRiskBlocks {
      decision := NeedsHuman;
      blocking := {PlanRisk};
    } else if warnings != {} {
      var unpermitted := set r | r in warnings && r.name !in config.warnAllowed;
      assert forall r :: r in unpermitted <==> r in ordered && UnpermittedWarn(r, config);
      if unpermitted != {} {
        decision := NeedsHuman;
        blocking := set r | r in unpermitted :: r.name;
      } else {
        ghost var r :| r in warnings;
        assert r in ordered && r.state == Warn;
        decision := ExecuteFlagged;
      }
    } else {
      decision := Execute;
    }
  }

  // ---------------------------------------------------------------- the entry point

  ghost function Verdicts(plan: Plan, coverage: Coverage, exposure: Exposure, config: PlanConfig): seq<PlanCheckResult> {
    [ByCode(TasksAuthorised, TasksAuthorisedCode(plan.tasks)),
     ByCode(DependenciesSound, DependenciesCode(plan.tasks)),
     ByCode(PlanConsistent, ConsistencyCode(plan.tasks, config)),
     ByCode(CoverageComplete, CoverageCode(plan.tasks, coverage)),
     ByCode(ExposureWithinLimits, ExposureCode(plan.tasks, exposure, config)),
     RiskResult(plan.tasks, exposure, config)]
  }

  ghost function Evaluation(plan: Plan, coverage: Coverage, exposure: Exposure, config: Option<PlanConfig>): PlanResult {
    AggregateResult(if config.None? then [] else Verdicts(plan, coverage, exposure, config.value), config)
  }

  /** evaluate_plan */
  method EvaluatePlan(plan: Plan, coverage: Coverage, exposure: Exposure, config: Option<PlanConfig>)
    returns (result: PlanResult)
    ensures result == Evaluation(plan, coverage, exposure, config)
  {
    if config.None? {
      result := AggregatePlan([], None);
      return;
    }
    var authorised := ByCode(TasksAuthorised, TasksAuthorisedCode(plan.tasks));
    var sound := CheckDependencies(plan.tasks);
    var consistent := CheckConsistency(plan.tasks, config.value);
    var complete := ByCode(CoverageComplete, CoverageCode(plan.tasks, coverage));
    var within := ByCode(ExposureWithinLimits, ExposureCode(plan.tasks, exposure, config.value));
    var risk := ClassifyPlan(plan.tasks, exposure, config.value);
    result := AggregatePlan([authorised, sound, consistent, complete, within, risk], config);
  }

  // ---------------------------------------------------------------- laws

  /** The five judging checks all pass. */
  ghost predicate AllPass(plan: Plan, coverage: Coverage, exposure: Exposure, config: PlanConfig) {
    && TasksAuthorisedCode(plan.tasks) == Ok
    && DependenciesCode(plan.tasks) == Ok
    && ConsistencyCode(plan.tasks, config) == Ok
    && CoverageCode(plan.tasks, coverage) == Ok
    && ExposureCode(plan.tasks, exposure, config) == Ok
  }

  lemma OnlyReportsAreHeld(checks: seq<PlanCheckResult>)
    requires |checks| == 6 && forall i :: 0 <= i < 6 ==> checks[i].name == PLAN_CHECK_ORDER[i]
    ensures InOrder(checks) == checks
  {
    forall i | 0 <= i < 6 ensures Held(checks, PLAN_CHECK_ORDER[i]) == checks[i] {
      WorstIsWorst(checks, PLAN_CHECK_ORDER[i]);
      assert checks[i] in checks;
      forall c | c in checks && c.name == PLAN_CHECK_ORDER[i] ensures c == checks[i] {
        var j :| 0 <= j < 6 && checks[j] == c;
        assert Rank(PLAN_CHECK_ORDER[j]) == j && Rank(PLAN_CHECK_ORDER[i]) == i;
      }
    }
  }

  /** Which checks are named as blocking when each was reported once and none warns. */
  lemma BlockingOfOnlyReports(checks: seq<PlanCheckResult>, config: PlanConfig, i: nat)
    requires |checks| == 6
    requires forall j :: 0 <= j < 6 ==> checks[j].name == PLAN_CHECK_ORDER[j] && checks[j].state != Warn
    requires i < 6
    ensures PLAN_CHECK_ORDER[i] in AggregateResult(checks, Some(config)).blocking <==>
              (checks[i].state == Failed || (i == 5 && TierOf(checks) == High))
  {
    OnlyReportsAreHeld(checks);
    FailedByPosition(checks, i);
    NamesWithoutWarnings(checks, config, PLAN_CHECK_ORDER[i]);
    assert PLAN_CHECK_ORDER[i] in PLAN_CHECK_ORDER && Rank(PLAN_CHECK_ORDER[i]) == i;
  }

  lemma NamesWithoutWarnings(checks: seq<PlanCheckResult>, config: PlanConfig, name: PlanCheckName)
    requires |checks| == 6 && forall c :: c in checks ==> c.state != Warn
    ensures name in BlockingNames(checks, config) <==>
              ((exists c :: c in checks && c.name == name && c.state == Failed) ||
               (name == PlanRisk && TierOf(checks) == High))
  {
  }

  lemma FailedByPosition(checks: seq<PlanCheckResult>, i: nat)
    requires |checks| == 6 && forall j :: 0 <= j < 6 ==> checks[j].name == PLAN_CHECK_ORDER[j]
    requires i < 6
    ensures (exists c :: c in checks && c.name == PLAN_CHECK_ORDER[i] && c.state == Failed) <==> checks[i].state == Failed
  {
    assert checks[i] in checks;
    if c :| c in checks && c.name == PLAN_CHECK_ORDER[i] && c.state == Failed {
      var j :| 0 <= j < 6 && checks[j] == c;
      assert Rank(PLAN_CHECK_ORDER[j]) == j && Rank(PLAN_CHECK_ORDER[i]) == i;
    }
  }

  function Rank(name: PlanCheckName): (i: nat)
    ensures i < 6 && PLAN_CHECK_ORDER[i] == name
  {
    match name
    case TasksAuthorised => 0
    case DependenciesSound => 1
    case PlanConsistent => 2
    case CoverageComplete => 3
    case ExposureWithinLimits => 4
    case PlanRisk => 5
  }

  /** A plan is admitted exactly when configuration exists, all checks pass and the aggregate is not
      high risk; since no plan check ever warns, it is never admitted under a flag. */
  lemma AdmitsExactly(plan: Plan, coverage: Coverage, exposure: Exposure, config: Option<PlanConfig>)
    ensures var r := Evaluation(plan, coverage, exposure, config);
            && r.decision != ExecuteFlagged
            && (r.Admissible() <==>
                  (config.Some? && AllPass(plan, coverage, exposure, config.value) &&
                   PlanTier(plan.tasks, exposure, config.value) != High))
  {
    if config.Some? {
      VerdictStates(plan, coverage, exposure, config.value);
      VerdictDecision(Verdicts(plan, coverage, exposure, config.value), config.value);
    }
  }

  lemma VerdictStates(plan: Plan, coverage: Coverage, exposure: Exposure, config: PlanConfig)
    ensures var checks := Verdicts(plan, coverage, exposure, config);
            && (forall i :: 0 <= i < 6 ==> checks[i].name == PLAN_CHECK_ORDER[i] && checks[i].state != Warn)
            && (AllPass(plan, coverage, exposure, config) <==>
                  (checks[0].state == Passed && checks[1].state == Passed && checks[2].state == Passed &&
                   checks[3].state == Passed && checks[4].state == Passed))
            && checks[5].state == Passed && checks[5].tier == Some(PlanTier(plan.tasks, exposure, config))
  {
  }

  lemma VerdictDecision(checks: seq<PlanCheckResult>, config: PlanConfig)
    requires |checks| == 6 && forall i :: 0 <= i < 6 ==> checks[i].name == PLAN_CHECK_ORDER[i] && checks[i].state != Warn
    requires checks[5].state == Passed && checks[5].tier.Some?
    ensures var d := AggregateResult(checks, Some(config)).decision;
            && d != ExecuteFlagged
            && (d == Execute <==>
                  (checks[5].tier.value != High && checks[0].state == Passed && checks[1].state == Passed &&
                   checks[2].state == Passed && checks[3].state == Passed && checks[4].state == Passed))
  {
    OnlyReportsAreHeld(checks);
    forall c | c in checks ensures c.state == Passed || c.state == Failed {
    }
    forall i | 0 <= i < 6 && checks[i].state != Passed ensures AnyFailed(checks) {
      assert checks[i] in checks;
    }
  }

  /** Failing closed: without configuration, when some check was not reported or failed, or when nobody
      classified the risk, a human is needed. */
  lemma FailsClosed(checks: seq<PlanCheckResult>, config: Option<PlanConfig>)
    requires || config.None?
             || (exists name :: !Reported(checks, name))
             || (exists c :: c in checks && c.state == Failed)
             || (forall c :: c in checks && c.name == PlanRisk ==> c.tier.None?)
    ensures AggregateResult(checks, config).decision == NeedsHuman
  {
    if config.Some? {
      var ordered := InOrder(checks);
      WorstIsWorst(checks, PlanRisk);
      if name :| !Reported(checks, name) {
        WorstIsWorst(checks, name);
        assert ordered[Rank(name)] in ordered && ordered[Rank(name)].state == Failed;
      } else if c :| c in checks && c.state == Failed {
        WorstIsWorst(checks, c.name);
        assert ordered[Rank(c.name)] in ordered && ordered[Rank(c.name)].state == Failed;
      }
    }
  }

  /** `lower` knows at least what `exposure` knows, and no known figure is larger. */
  predicate NoLarger(lower: Exposure, exposure: Exposure) {
    && NoLargerFigure(lower.totalInr, exposure.totalInr)
    && NoLargerFigure(lower.passengers, exposure.passengers)
    && NoLargerFigure(lower.rooms, exposure.rooms)
    && NoLargerFigure(lower.externalEffects, exposure.externalEffects)
    && lower.unresolvedCohorts == exposure.unresolvedCohorts
  }

  predicate NoLargerFigure(lower: Option<int>, figure: Option<int>) {
    figure.Some? ==> lower.Some? && lower.value <= figure.value
  }

  /** Lowering known exposure figures never turns an admissible plan inadmissible. */
  lemma LoweringExposureKeepsAdmission(
    plan: Plan, coverage: Coverage, exposure: Exposure, lower: Exposure, config: Option<PlanConfig>)
    requires NoLarger(lower, exposure)
    requires Evaluation(plan, coverage, exposure, config).Admissible()
    ensures Evaluation(plan, coverage, lower, config).Admissible()
  {
    AdmitsExactly(plan, coverage, exposure, config);
    LoweringKeepsExposure(plan.tasks, exposure, lower, config.value);
    AdmitsExactly(plan, coverage, lower, config);
  }

  lemma LoweringKeepsExposure(tasks: seq<TaskOutcome>, exposure: Exposure, lower: Exposure, config: PlanConfig)
    requires NoLarger(lower, exposure)
    requires ExposureCode(tasks, exposure, config) == Ok && PlanTier(tasks, exposure, config) != High
    ensures ExposureCode(tasks, lower, config) == Ok && PlanTier(tasks, lower, config) != High
  {
  }

  /** Every admitted plan is non-empty, can be run in some order, never waits for a hard-blocked
      task, and commits to no (action, target) pair twice. */
  lemma AdmittedPlansAreRunnable(plan: Plan, coverage: Coverage, exposure: Exposure, config: Option<PlanConfig>)
    requires DistinctIds(plan.tasks) && Evaluation(plan, coverage, exposure, config).Admissible()
    ensures plan.tasks != [] && forall t :: t in plan.tasks ==> !t.HardBlocked()
    ensures exists order :: RunsInOrder(plan.tasks, order)
    ensures NoChainToABlock(plan.tasks)
    ensures NoRepeats(Commitments(plan.tasks))
  {
    AdmitsExactly(plan, coverage, exposure, config);
    DependenciesPassExactly(plan.tasks);
  }
}
