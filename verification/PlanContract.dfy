/** Plan-level entities: what the plan gate is given, and what it returns. */
module PlanContract {
  import opened Prelude
  import opened Aggregation

  datatype PlanCheckName =
    | TasksAuthorised
    | DependenciesSound
    | PlanConsistent
    | CoverageComplete
    | ExposureWithinLimits
    | PlanRisk

  const PLAN_CHECK_ORDER: seq<PlanCheckName> :=
    [TasksAuthorised, DependenciesSound, PlanConsistent, CoverageComplete, ExposureWithinLimits, PlanRisk]

  datatype PlanReasonCode =
    | Ok
    | TaskNotAuthorised
    | TaskEvaluationMissing
    | DependencyCycle
    | DependencyUnknown
    | DependencyBlocked
    | DuplicateTask
    | MutuallyExclusiveTasks
    | CoverageNotDeclared
    | CoverageIncomplete
    | ExposureUnknown
    | ExposureLimitBreached
    | PlanTooLarge
    | HumanApprovalRequired
    | PlanConfigMissing
    | PlanEmpty

  /** `tier` is set by PlanRisk alone; that check may pass while its tier still blocks. */
  type PlanCheckResult = Report<PlanCheckName, PlanReasonCode>

  /** One task's action-level result, as the plan gate sees it. */
  datatype TaskOutcome = TaskOutcome(
    taskId: string,
    actionType: ActionName,
    targetRefs: seq<string>,
    dependsOn: seq<string>,
    decision: Decision,
    riskTier: RiskTier,
    blockingKinds: seq<BlockingKind>,
    approvable: bool,
    evaluationId: Option<int>)
  {
    /** A block no approval can release. */
    predicate HardBlocked() {
      exists kind :: kind in blockingKinds && (kind == Evidence || kind == Conflict)
    }
  }

  /** `deferred` maps an impacted ref to the stated reason for leaving it alone. */
  datatype Coverage = Coverage(declared: bool, impactedRefs: seq<string>, deferred: map<string, string>)

  /** None means "not established", never zero. */
  datatype Exposure = Exposure(
    totalInr: Option<int>,
    passengers: Option<int>,
    rooms: Option<int>,
    externalEffects: Option<int>,
    unresolvedCohorts: seq<string>)

  datatype PlanLimits = PlanLimits(
    maxTotalInr: int,
    maxPassengers: int,
    maxRooms: int,
    maxHighRiskActions: int,
    maxExternalEffects: int,
    maxTasks: int)

  datatype PlanEscalation = PlanEscalation(
    exposureFraction: real,
    passengersFraction: real,
    highRiskActionCount: int,
    externalEffectCount: int)

  datatype PlanConfig = PlanConfig(
    limits: PlanLimits,
    escalation: PlanEscalation,
    warnAllowed: set<PlanCheckName>,
    mutuallyExclusive: seq<seq<ActionName>>)
  {
    function ExclusivePairs(): set<set<ActionName>> {
      set pair | pair in mutuallyExclusive && |pair| == 2 :: {pair[0], pair[1]}
    }
  }

  datatype Plan = Plan(group: string, tasks: seq<TaskOutcome>)

  datatype PlanResult = PlanResult(
    decision: Decision,
    tier: RiskTier,
    checks: seq<PlanCheckResult>,
    blocking: seq<PlanCheckName>)
  {
    /** May proceed to per-action authorisation; not the same as "may execute". */
    predicate Admissible() { decision != NeedsHuman }
  }
}
