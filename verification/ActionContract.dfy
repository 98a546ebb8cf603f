/** Entities of the action-level gate. */
module ActionContract {
  import opened Prelude
  import opened Aggregation
  import opened Values

  datatype CheckName =
    | EvidenceComplete
    | SourcesFresh
    | EntitiesValid
    | PolicyCompliant
    | NoConflicts
    | ActionRisk

  const CHECK_ORDER: seq<CheckName> :=
    [EvidenceComplete, SourcesFresh, EntitiesValid, PolicyCompliant, NoConflicts, ActionRisk]

  datatype ReasonCode =
    | Ok
    | MissingEvidence
    | SourceStale
    | SourceMissingTimestamp
    | EntityNotFound
    | EntityStateMismatch
    | PolicyConstraintBreach
    | PolicyPackUnavailable
    | DuplicateAction
    | CapacityUnavailable
    | HumanApprovalRequired
    | UnknownActionType
    | UnknownRuleOperator
    | ConfigMissing
    | MissingRequiredFact

  type CheckResult = Report<CheckName, ReasonCode>

  datatype AssuranceResult = AssuranceResult(
    decision: Decision,
    tier: RiskTier,
    checks: seq<CheckResult>,
    blocking: seq<CheckName>)

  datatype FreshnessLimits = FreshnessLimits(
    metarMinutes: int,
    tafMinutes: int,
    flightStatusMinutes: int,
    policyPackDays: int)

  datatype AssuranceConfig = AssuranceConfig(
    freshness: FreshnessLimits,
    riskTiers: map<ActionName, RiskTier>,
    warnAllowed: map<ActionName, seq<CheckName>>,
    highRiskRequiresHuman: bool)
  {
    /** An action the config does not name is high risk. */
    function TierFor(action: ActionName): RiskTier {
      if action in riskTiers then riskTiers[action] else High
    }

    predicate WarnPermitted(action: ActionName, check: CheckName) {
      action in warnAllowed && check in warnAllowed[action]
    }
  }

  /** Actions asserting a legal entitlement: their policy requirements may not be empty. */
  predicate PolicyBearing(action: ActionName) { action == Known(EvaluateEntitlements) }

  /** "<kind>:<identifier>", parsed. */
  datatype SourceKey = SourceKey(kind: SourceKind, identifier: string)

  datatype SourceKind = Metar | Taf | FlightStatus | PolicyPack | OtherKind(text: string)

  /** An observation time in seconds; `aware` when it carries a timezone. */
  datatype Stamp = Stamp(aware: bool, seconds: int)

  datatype Constraint = Constraint(
    appliesTo: Option<seq<ActionName>>,
    unsatisfiable: bool,
    packUnavailable: bool,
    op: Operator,
    field: Path,
    expected: Value,
    soft: bool)

  datatype TaskState =
    | PendingTask
    | ProposedTask
    | AssuredTask
    | NeedsHumanTask
    | RejectedTask
    | ExecutingTask
    | SucceededTask
    | FailedTask
    | SkippedTask
    | UnrecognisedTask(text: string)

  /** What already touches the entities an action would touch. */
  datatype LedgerEntry =
    | Capacity(ref: string, available: Option<int>)
    | Work(action: Option<ActionName>, targets: seq<string>, state: TaskState)

  datatype GateInputs = GateInputs(
    action: ActionName,
    requiredFacts: seq<Path>,
    providedFacts: Value,
    sources: map<SourceKey, Option<Stamp>>,
    referencedRefs: seq<string>,
    resolved: map<string, Value>,
    payload: Value,
    constraints: seq<Constraint>,
    targetRefs: seq<string>,
    outstanding: seq<LedgerEntry>)
}
