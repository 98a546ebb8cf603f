/** Fail-closed aggregation of the six action checks, and the gate's entry point. */
module ActionGate {
  import opened Prelude
  import opened Aggregation
  import opened Values
  import opened ActionContract
  import opened ActionChecks

  // ---------------------------------------------------------------- the checks of record

  predicate HardFail(code: ReasonCode) {
    code == ConfigMissing || code == UnknownActionType || code == UnknownRuleOperator
  }

  /** Three reason codes are a FAIL whatever state was reported. */
  function Coerce(check: CheckResult): CheckResult {
    if HardFail(check.code) then check.(state := Failed) else check
  }

  function Coerced(checks: seq<CheckResult>): (r: seq<CheckResult>)
    ensures |r| == |checks| && forall i :: 0 <= i < |r| ==> r[i] == Coerce(checks[i])
  {
    seq(|checks|, i requires 0 <= i < |checks| => Coerce(checks[i]))
  }

  function DidNotRun(name: CheckName): CheckResult { FailedCheck(name, MissingEvidence) }

  /** The report that counts for a check. */
  function Held(checks: seq<CheckResult>, name: CheckName): CheckResult {
    match WorstOf(Coerced(checks), name)
    case None => DidNotRun(name)
    case Some(worst) => worst
  }

  /** The six reports that count, in CHECK_ORDER. */
  function InOrder(checks: seq<CheckResult>): seq<CheckResult> {
    [Held(checks, EvidenceComplete), Held(checks, SourcesFresh), Held(checks, EntitiesValid),
     Held(checks, PolicyCompliant), Held(checks, NoConflicts), Held(checks, ActionRisk)]
  }

  /** gate._ordered: one dict pass, then the six checks in their fixed order. */
  method Ordered(checks: seq<CheckResult>) returns (ordered: seq<CheckResult>)
    ensures ordered == InOrder(checks)
  {
    var worst: map<CheckName, CheckResult> := map[];
    for i := 0 to |checks|
      invariant forall name :: name in worst <==> WorstOf(Coerced(checks)[..i], name).Some?
      invariant forall name :: name in worst ==> WorstOf(Coerced(checks)[..i], name) == Some(worst[name])
    {
      var candidate := Coerce(checks[i]);
      assert Coerced(checks)[..i + 1][..i] == Coerced(checks)[..i];
      assert Coerced(checks)[..i + 1][i] == candidate;
      if candidate.name !in worst || Severity(candidate.state) > Severity(worst[candidate.name].state) {
        worst := worst[candidate.name := candidate];
      }
    }
    assert Coerced(checks)[..|checks|] == Coerced(checks);
    ordered := [];
    for i := 0 to |CHECK_ORDER|
      invariant |ordered| == i
      invariant forall j :: 0 <= j < i ==> ordered[j] == Held(checks, CHECK_ORDER[j])
    {
      var name := CHECK_ORDER[i];
      ordered := ordered + [if name in worst then worst[name] else DidNotRun(name)];
    }
  }

  // ---------------------------------------------------------------- aggregation

  function RejectedAction(): CheckResult { Report(ActionRisk, Failed, UnknownActionType, Some(High)) }

  /** The six checks that go on the record. */
  function Recorded(checks: seq<CheckResult>, action: ActionName): seq<CheckResult> {
    if action.Known? then InOrder(checks) else InOrder(checks)[5 := RejectedAction()]
  }

  /** The classification of record, with the config as fallback when no tier was reported. */
  function TierOf(checks: seq<CheckResult>, action: ActionName, config: AssuranceConfig): RiskTier {
    if action.Unknown? then High
    else
      match Held(checks, ActionRisk).tier
      case Some(tier) => tier
      case None => config.TierFor(action)
  }

  predicate HighRiskBlocks(checks: seq<CheckResult>, action: ActionName, config: AssuranceConfig) {
    action.Known? && TierOf(checks, action, config) == High && config.highRiskRequiresHuman
  }

  predicate AnyFailed(checks: seq<CheckResult>) {
    exists c :: c in checks && c.state == Failed
  }

  predicate UnpermittedWarn(check: CheckResult, action: ActionName, config: AssuranceConfig) {
    check.state == Warn && !config.WarnPermitted(action, check.name)
  }

  function DecisionOf(
    recorded: seq<CheckResult>, highRiskBlocks: bool, action: ActionName, config: AssuranceConfig): Decision
  {
    if AnyFailed(recorded) || highRiskBlocks || exists c :: c in recorded && UnpermittedWarn(c, action, config)
    then NeedsHuman
    else if exists c :: c in recorded && c.state == Warn then ExecuteFlagged
    else Execute
  }

  /** The checks named as blocking: every failure; the risk check when high risk blocks; an
      untolerated warning only when nothing graver blocks. */
  function BlockingNames(
    recorded: seq<CheckResult>, highRiskBlocks: bool, action: ActionName, config: AssuranceConfig): set<CheckName>
  {
    (set c | c in recorded && c.state == Failed :: c.name)
    + (if highRiskBlocks then {ActionRisk} else {})
    + (if AnyFailed(recorded) || highRiskBlocks then {}
       else set c | c in recorded && UnpermittedWarn(c, action, config) :: c.name)
  }

  /** [name for name in CHECK_ORDER if name in names] */
  function InCheckOrder(names: set<CheckName>): seq<CheckName> {
    Pick(CHECK_ORDER, names)
  }

  function MissingConfigResult(): AssuranceResult {
    AssuranceResult(NeedsHuman, High,
      [FailedCheck(EvidenceComplete, ConfigMissing), FailedCheck(SourcesFresh, ConfigMissing),
       FailedCheck(EntitiesValid, ConfigMissing), FailedCheck(PolicyCompliant, ConfigMissing),
       FailedCheck(NoConflicts, ConfigMissing), FailedCheck(ActionRisk, ConfigMissing)],
      CHECK_ORDER)
  }

  function AggregateResult(checks: seq<CheckResult>, action: ActionName, config: Option<AssuranceConfig>): AssuranceResult {
    match config
    case None => MissingConfigResult()
    case Some(c) =>
      var recorded := Recorded(checks, action);
      var high := HighRiskBlocks(checks, action, c);
      AssuranceResult(
        DecisionOf(recorded, high, action, c),
        TierOf(checks, action, c),
        recorded,
        InCheckOrder(BlockingNames(recorded, high, action, c)))
  }

  /** gate.aggregate: the ordered rules, branch by branch. */
  method Aggregate(checks: seq<CheckResult>, action: ActionName, config: Option<AssuranceConfig>)
    returns (result: AssuranceResult)
    ensures result == AggregateResult(checks, action, config)
  {
    if config.None? {
      return MissingConfigResult();
    }
    var c := config.value;
    var ordered := Ordered(checks);

    if action.Unknown? {
      ordered := ordered[5 := RejectedAction()];
      assert ordered[5] in ordered;
      var failed := set r | r in ordered && r.state == Failed :: r.name;
      return AssuranceResult(NeedsHuman, High, ordered, InCheckOrder(failed));
    }

    var classified := ordered[5];
    var tier := if classified.tier.Some? then classified.tier.value else c.TierFor(action);
    var highRiskBlocks := tier == High && c.highRiskRequiresHuman;
    var decision, blocking := Decide(ordered, highRiskBlocks, action, c);
    return AssuranceResult(decision, tier, ordered, InCheckOrder(blocking));
  }

  /** Rules 2 to 5. */
  method Decide(ordered: seq<CheckResult>, highRiskBlocks: bool, action: ActionName, config: AssuranceConfig)
    returns (decision: Decision, blocking: set<CheckName>)
    ensures decision == DecisionOf(ordered, highRiskBlocks, action, config)
    ensures blocking == BlockingNames(ordered, highRiskBlocks, action, config)
  {
    var failures := set r | r in ordered && r.state == Failed;
    var warnings := set r | r in ordered && r.state == Warn;
    blocking := set r | r in failures :: r.name;
    assert forall r :: r in failures <==> r in ordered && r.state == Failed;
    assert forall r :: r in warnings <==> r in ordered && r.state == Warn;
    if failures != {} {
      decision := NeedsHuman;
      if highRiskBlocks && ActionRisk !in blocking {
        blocking := blocking + {ActionRisk};
      }
    } else if highRiskBlocks {
      decision := NeedsHuman;
      blocking := {ActionRisk};
    } else if warnings != {} {
      var unpermitted := set r | r in warnings && !config.WarnPermitted(action, r.name);
      assert forall r :: r in unpermitted <==> r in ordered && UnpermittedWarn(r, action, config);
      if unpermitted != {} {
        decision := NeedsHuman;
        blocking := set r | r in unpermitted :: r.name;
      } else {
        ghost var r :| r in warnings;
        assert r in ordered && r.state == Warn;
        decision := ExecuteFlagged;
      }
    } else {
      decision := Execute;
    }
  }

  // ---------------------------------------------------------------- the entry point

  /** A passing check of a policy-bearing action that verified nothing is refused. */
  function Guarded(check: CheckResult, inputs: GateInputs): CheckResult {
    if !PolicyBearing(inputs.action) || check.state != Passed then check
    else if check.name == EvidenceComplete && inputs.requiredFacts == [] then FailedCheck(check.name, MissingRequiredFact)
    else if check.name == PolicyCompliant && inputs.constraints == [] then FailedCheck(check.name, PolicyConstraintBreach)
    else check
  }

  /** _refuse_vacuous */
  method RefuseVacuous(checks: seq<CheckResult>, inputs: GateInputs) returns (refused: seq<CheckResult>)
    ensures |refused| == |checks|
    ensures forall i :: 0 <= i < |checks| ==> refused[i] == Guarded(checks[i], inputs)
  {
    if !PolicyBearing(inputs.action) {
      return checks;
    }
    refused := [];
    for i := 0 to |checks|
      invariant |refused| == i
      invariant forall j :: 0 <= j < i ==> refused[j] == Guarded(checks[j], inputs)
    {
      var check := checks[i];
      if check.state != Passed || check.name !in {EvidenceComplete, PolicyCompliant} {
        refused := refused + [check];
        continue;
      }
      var supplied := if check.name == EvidenceComplete then inputs.requiredFacts != [] else inputs.constraints != [];
      if supplied {
        refused := refused + [check];
        continue;
      }
      var code := if check.name == EvidenceComplete then MissingRequiredFact else PolicyConstraintBreach;
      refused := refused + [FailedCheck(check.name, code)];
    }
  }

  /** The six verdicts on one set of inputs, after the vacuity guard. */
  ghost function GateChecks(inputs: GateInputs, now: Stamp, config: AssuranceConfig): seq<CheckResult> {
    [Guarded(EvidenceVerdict(inputs.requiredFacts, inputs.providedFacts), inputs),
     SourcesVerdict(inputs.sources, now, config, inputs.action),
     EntitiesVerdict(inputs.referencedRefs, inputs.resolved),
     Guarded(PolicyVerdict(inputs.action, inputs.payload, inputs.constraints), inputs),
     ConflictsVerdict(inputs.action, inputs.targetRefs, inputs.outstanding),
     RiskVerdict(inputs.action, config)]
  }

  ghost function Evaluation(inputs: GateInputs, now: Stamp, config: Option<AssuranceConfig>): AssuranceResult {
    AggregateResult(if config.None? then [] else GateChecks(inputs, now, config.value), inputs.action, config)
  }

  /** The guard leaves the other four checks alone. */
  lemma OnlyTwoAreGuarded(inputs: GateInputs, now: Stamp, config: AssuranceConfig)
    ensures var checks := GateChecks(inputs, now, config);
            Guarded(checks[1], inputs) == checks[1] && Guarded(checks[2], inputs) == checks[2] &&
            Guarded(checks[4], inputs) == checks[4] && Guarded(checks[5], inputs) == checks[5]
  {
  }

  /** The six check calls and the vacuity guard. */
  method RunChecks(inputs: GateInputs, now: Stamp, config: AssuranceConfig) returns (checks: seq<CheckResult>)
    ensures checks == GateChecks(inputs, now, config)
  {
    var evidence := EvidenceVerdict(inputs.requiredFacts, inputs.providedFacts);
    var sources := CheckSources(inputs.sources, now, config, inputs.action);
    var entities := CheckEntities(inputs.referencedRefs, inputs.resolved);
    var policy := CheckPolicy(inputs.action, inputs.payload, inputs.constraints);
    var conflicts := CheckConflicts(inputs.action, inputs.targetRefs, inputs.outstanding);
    checks := RefuseVacuous(
      [evidence, sources, entities, policy, conflicts, RiskVerdict(inputs.action, config)], inputs);
    OnlyTwoAreGuarded(inputs, now, config);
  }

  /** gate.evaluate */
  method Evaluate(inputs: GateInputs, now: Stamp, config: Option<AssuranceConfig>) returns (result: AssuranceResult)
    ensures result == Evaluation(inputs, now, config)
  {
    if config.None? {
      result := Aggregate([], inputs.action, None);
      return;
    }
    var checks := RunChecks(inputs, now, config.value);
    result := Aggregate(checks, inputs.action, config);
  }
}
