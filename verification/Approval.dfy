/** What a human approval may and may not release. */
module Approval {
  import opened Prelude
  import opened Aggregation
  import opened ActionContract
  import opened Blocking
  import PlanContract
  import PlanChecks
  import PlanGate
  import ActionChecks
  import ActionGate
  import GateLaws

  datatype Refusal =
    | NotApprovableEvidence
    | NotApprovableConflict
    | NothingToApprove
    | PlanHashMismatch
    | TierNotCovered
    | HighRiskNeedsOwnDecision
    | TaskNotInScope

  datatype Verdict = Permitted | Refused(refusal: Refusal)

  // ---------------------------------------------------------------- may this be approved?

  /** may_approve_action */
  function MayApproveAction(result: AssuranceResult): Verdict {
    if result.decision != NeedsHuman then Refused(NothingToApprove)
    else
      var kinds := KindsOf(result.checks);
      if kinds == [Risk] then Permitted
      else if Conflict in kinds then Refused(NotApprovableConflict)
      else Refused(NotApprovableEvidence)
  }

  ghost predicate OnlyAsksForApproval(checks: seq<CheckResult>) {
    && (exists c :: c in checks && c.code == HumanApprovalRequired)
    && forall c :: c in checks && c.state == Failed ==> c.code == HumanApprovalRequired
  }

  /** What the answer says of the record. A clash is named before missing evidence. */
  lemma AnswerMeaning(result: AssuranceResult)
    ensures var answer, checks := MayApproveAction(result), result.checks;
            var asked := result.decision == NeedsHuman;
            var clash := exists c :: c in checks && c.state == Failed && Clashes(c.code);
            && (answer == Refused(NothingToApprove) <==> !asked)
            && (answer == Refused(NotApprovableConflict) <==> asked && clash)
            && (answer == Permitted <==> asked && OnlyAsksForApproval(checks))
            && answer in {Permitted, Refused(NothingToApprove), Refused(NotApprovableConflict), Refused(NotApprovableEvidence)}
  {
    KindsMeaning(result.checks);
    ApprovableMeansRiskOnly(result);
  }

  predicate BlockedBeyondRisk(result: PlanContract.PlanResult) {
    exists name :: name in result.blocking && name != PlanContract.PlanRisk
  }

  /** may_approve_plan */
  function MayApprovePlan(result: PlanContract.PlanResult): Verdict {
    if result.decision != NeedsHuman then Refused(NothingToApprove)
    else if BlockedBeyondRisk(result) then Refused(NotApprovableEvidence)
    else Permitted
  }

  /** A gate result that failed any check, for want of evidence or by conflict, is approvable by nobody. */
  lemma ApprovalNeverCoversAFailure(inputs: GateInputs, now: Stamp, config: Option<AssuranceConfig>)
    ensures var r := ActionGate.Evaluation(inputs, now, config);
            MayApproveAction(r).Permitted? <==>
              (r.decision == NeedsHuman && config.Some? && inputs.action.Known? &&
               config.value.TierFor(inputs.action) == High && !ActionGate.AnyFailed(r.checks))
  {
    if config.None? {
      var r := ActionGate.Evaluation(inputs, now, config);
      ApprovableMeansRiskOnly(r);
      assert r.checks[0] in r.checks;
    } else {
      RiskOnlyRecord(inputs, now, config.value);
    }
  }

  /** In terms of what the gate was given: an operator may approve an action that is high risk, or not
      listed, when nothing is missing, gone, undated, breached or in conflict. A human must be needed at
      all, because high risk asks for one or because of a warning the config does not tolerate. */
  lemma ActionApprovableExactly(inputs: GateInputs, now: Stamp, config: Option<AssuranceConfig>)
    ensures MayApproveAction(ActionGate.Evaluation(inputs, now, config)).Permitted? <==>
              && config.Some? && NoFailure(inputs, now, config.value)
              && (inputs.action in config.value.riskTiers ==> config.value.riskTiers[inputs.action] == High)
              && (config.value.highRiskRequiresHuman || Untolerated(inputs, config.value))
  {
    ApprovalNeverCoversAFailure(inputs, now, config);
    if config.Some? && inputs.action.Known? {
      RecordOfVerdicts(inputs, now, config.value);
      FailuresMeaning(inputs, now, config.value);
      GateLaws.ExecutesExactly(inputs, now, config);
      GateLaws.FlagsExactly(inputs, now, config);
    }
  }

  /** Nothing that the checks look at fails; a source may be stale where that is tolerated, and a soft
      constraint may be breached. */
  ghost predicate NoFailure(inputs: GateInputs, now: Stamp, config: AssuranceConfig) {
    && inputs.action.Known?
    && GateLaws.EveryFactPresent(inputs) && GateLaws.EveryRefResolves(inputs)
    && GateLaws.NothingConflicts(inputs) && GateLaws.RequirementsDerived(inputs)
    && (GateLaws.EverySourceUsable(inputs, now, config) || GateLaws.StalenessTolerated(inputs, now, config))
    && SoftBreachesOnly(inputs)
  }

  ghost predicate SoftBreachesOnly(inputs: GateInputs) {
    forall c :: c in inputs.constraints ==>
      GateLaws.Met(c, inputs.action, inputs.payload) || GateLaws.SoftlyBreached(c, inputs.payload)
  }

  /** A soft breach the config does not tolerate for this action. */
  ghost predicate Untolerated(inputs: GateInputs, config: AssuranceConfig) {
    !GateLaws.EveryConstraintHolds(inputs) && !GateLaws.Tolerates(config, inputs.action, PolicyCompliant)
  }

  lemma FailuresMeaning(inputs: GateInputs, now: Stamp, config: AssuranceConfig)
    requires inputs.action.Known?
    ensures ActionGate.AnyFailed(ActionGate.GateChecks(inputs, now, config)) <==> !NoFailure(inputs, now, config)
  {
    var checks := ActionGate.GateChecks(inputs, now, config);
    GateLaws.SourcesVerdictMeaning(inputs, now, config);
    GateLaws.OtherVerdictsMeaning(inputs, now, config);
    PolicyFailureMeaning(inputs, now, config);
    AnyOfSix(checks);
  }

  lemma AnyOfSix(checks: seq<CheckResult>)
    requires |checks| == 6
    ensures ActionGate.AnyFailed(checks) <==>
              (checks[0].state == Failed || checks[1].state == Failed || checks[2].state == Failed ||
               checks[3].state == Failed || checks[4].state == Failed || checks[5].state == Failed)
  {
    assert checks[0] in checks && checks[1] in checks && checks[2] in checks && checks[3] in checks && checks[4] in checks
           && checks[5] in checks;
  }

  lemma PolicyFailureMeaning(inputs: GateInputs, now: Stamp, config: AssuranceConfig)
    ensures ActionGate.GateChecks(inputs, now, config)[3].state == Failed <==>
              !SoftBreachesOnly(inputs) || (inputs.action == Known(EvaluateEntitlements) && inputs.constraints == [])
  {
    ActionChecks.WorstPolicyRankIsWorst(inputs.constraints, inputs.action, inputs.payload);
    forall c | c in inputs.constraints
      ensures ActionChecks.PolicyRank(c, inputs.action, inputs.payload) <= ActionChecks.RANK_SOFT_BREACH <==>
                GateLaws.Met(c, inputs.action, inputs.payload) || GateLaws.SoftlyBreached(c, inputs.payload)
    {
      GateLaws.RankMeaning(c, inputs.action, inputs.payload);
    }
  }

  lemma RiskOnlyRecord(inputs: GateInputs, now: Stamp, config: AssuranceConfig)
    ensures var r := ActionGate.Evaluation(inputs, now, Some(config));
            IsApprovable(r) <==>
              inputs.action.Known? && config.TierFor(inputs.action) == High && !ActionGate.AnyFailed(r.checks)
  {
    RecordOfVerdicts(inputs, now, config);
    ApprovableMeansRiskOnly(ActionGate.Evaluation(inputs, now, Some(config)));
  }

  /** The record of an evaluation: the six verdicts, the last replaced for an unknown action. Only
      the risk verdict asks for approval, and it does so without failing. */
  lemma RecordOfVerdicts(inputs: GateInputs, now: Stamp, config: AssuranceConfig)
    ensures var r, checks := ActionGate.Evaluation(inputs, now, Some(config)), ActionGate.GateChecks(inputs, now, config);
            && r.checks == (if inputs.action.Known? then checks else checks[5 := ActionGate.RejectedAction()])
            && (inputs.action.Unknown? ==> ActionGate.AnyFailed(r.checks))
            && (forall c :: c in r.checks && c.state == Failed ==> c.code != HumanApprovalRequired)
            && ((exists c :: c in r.checks && c.code == HumanApprovalRequired) <==>
                  (inputs.action.Known? && config.TierFor(inputs.action) == High))
  {
    var checks := ActionGate.GateChecks(inputs, now, config);
    var recorded := ActionGate.Recorded(checks, inputs.action);
    forall i | 0 <= i < 6 ensures ActionGate.Held(checks, CHECK_ORDER[i]) == checks[i] {
      GateLaws.VerdictIsHeld(inputs, now, config, i);
    }
    assert ActionGate.InOrder(checks) == checks by {
      assert ActionGate.Held(checks, CHECK_ORDER[0]) == checks[0] && ActionGate.Held(checks, CHECK_ORDER[1]) == checks[1]
        && ActionGate.Held(checks, CHECK_ORDER[2]) == checks[2] && ActionGate.Held(checks, CHECK_ORDER[3]) == checks[3]
        && ActionGate.Held(checks, CHECK_ORDER[4]) == checks[4] && ActionGate.Held(checks, CHECK_ORDER[5]) == checks[5];
    }
    assert recorded[5] in recorded;
    CodesOfVerdicts(inputs, now, config);
    forall c | c in recorded
      ensures c.code == HumanApprovalRequired <==>
                c == checks[5] && inputs.action.Known? && checks[5].code == HumanApprovalRequired
    {
      var i :| 0 <= i < 6 && recorded[i] == c;
    }
  }

  lemma CodesOfVerdicts(inputs: GateInputs, now: Stamp, config: AssuranceConfig)
    ensures var checks := ActionGate.GateChecks(inputs, now, config);
            && (forall i :: 0 <= i < 5 ==> checks[i].code != HumanApprovalRequired)
            && checks[5].state == Passed
            && (checks[5].code == HumanApprovalRequired <==> config.TierFor(inputs.action) == High)
  {
  }

  /** A plan is approvable exactly when its aggregate is high risk and nothing else is wrong with it. */
  lemma PlanApprovableExactly(
    plan: PlanContract.Plan, coverage: PlanContract.Coverage, exposure: PlanContract.Exposure,
    config: Option<PlanContract.PlanConfig>)
    ensures MayApprovePlan(PlanGate.Evaluation(plan, coverage, exposure, config)).Permitted? <==>
              (config.Some? && PlanGate.AllPass(plan, coverage, exposure, config.value) &&
               PlanChecks.PlanTier(plan.tasks, exposure, config.value) == High)
  {
    var r := PlanGate.Evaluation(plan, coverage, exposure, config);
    PlanGate.AdmitsExactly(plan, coverage, exposure, config);
    if config.None? {
      assert PlanContract.PLAN_CHECK_ORDER[0] in r.blocking;
    } else {
      OtherBlocks(plan, coverage, exposure, config.value);
    }
  }

  lemma OtherBlocks(
    plan: PlanContract.Plan, coverage: PlanContract.Coverage, exposure: PlanContract.Exposure, config: PlanContract.PlanConfig)
    ensures BlockedBeyondRisk(PlanGate.Evaluation(plan, coverage, exposure, Some(config))) <==>
              !PlanGate.AllPass(plan, coverage, exposure, config)
  {
    BlockedOnlyOnRisk(PlanGate.Verdicts(plan, coverage, exposure, config), config);
    FiveVerdicts(plan, coverage, exposure, config);
  }

  lemma FiveVerdicts(
    plan: PlanContract.Plan, coverage: PlanContract.Coverage, exposure: PlanContract.Exposure, config: PlanContract.PlanConfig)
    ensures var checks := PlanGate.Verdicts(plan, coverage, exposure, config);
            (exists i :: 0 <= i < 5 && checks[i].state != Passed) <==> !PlanGate.AllPass(plan, coverage, exposure, config)
  {
    var checks := PlanGate.Verdicts(plan, coverage, exposure, config);
    assert (exists i :: 0 <= i < 5 && checks[i].state != Passed) <==>
      checks[0].state != Passed || checks[1].state != Passed || checks[2].state != Passed ||
      checks[3].state != Passed || checks[4].state != Passed;
  }

  lemma BlockedOnlyOnRisk(checks: seq<PlanContract.PlanCheckResult>, config: PlanContract.PlanConfig)
    requires |checks| == 6
    requires forall i :: 0 <= i < 6 ==> checks[i].name == PlanContract.PLAN_CHECK_ORDER[i] && checks[i].state != Warn
    requires checks[5].state == Passed
    ensures BlockedBeyondRisk(PlanGate.AggregateResult(checks, Some(config))) <==>
              exists i :: 0 <= i < 5 && checks[i].state != Passed
  {
    var blocking := PlanGate.AggregateResult(checks, Some(config)).blocking;
    forall i: nat | i < 6
      ensures PlanContract.PLAN_CHECK_ORDER[i] in blocking <==>
                (checks[i].state == Failed || (i == 5 && PlanGate.TierOf(checks) == High))
    {
      PlanGate.BlockingOfOnlyReports(checks, config, i);
    }
    if i :| 0 <= i < 5 && checks[i].state != Passed {
      assert PlanContract.PLAN_CHECK_ORDER[i] in blocking && PlanContract.PLAN_CHECK_ORDER[i] != PlanContract.PlanRisk;
    }
    if name :| name in blocking && name != PlanContract.PlanRisk {
      assert PlanContract.PLAN_CHECK_ORDER[PlanGate.Rank(name)] == name;
    }
  }

  // ---------------------------------------------------------------- projection into the plan

  /** task_outcome_from */
  function TaskOutcomeFrom(
    taskId: string, action: ActionName, result: AssuranceResult, targetRefs: seq<string>, dependsOn: seq<string>,
    evaluationId: Option<int>): PlanContract.TaskOutcome
  {
    PlanContract.TaskOutcome(taskId, action, targetRefs, dependsOn, result.decision, result.tier,
                             KindsOf(result.checks), IsApprovable(result), evaluationId)
  }

  /** A task of a plan together with the gate evaluation it was projected from. */
  datatype EvaluatedTask = EvaluatedTask(
    taskId: string, targetRefs: seq<string>, dependsOn: seq<string>, evaluationId: Option<int>,
    inputs: GateInputs, now: Stamp, config: Option<AssuranceConfig>)
  {
    ghost function Result(): AssuranceResult { ActionGate.Evaluation(inputs, now, config) }

    ghost function Outcome(): PlanContract.TaskOutcome {
      TaskOutcomeFrom(taskId, inputs.action, Result(), targetRefs, dependsOn, evaluationId)
    }

    /** The gate lets the task through, or an operator may. */
    ghost predicate Releasable() { Result().decision != NeedsHuman || MayApproveAction(Result()).Permitted? }
  }

  ghost function Outcomes(tasks: seq<EvaluatedTask>): seq<PlanContract.TaskOutcome> {
    seq(|tasks|, i requires 0 <= i < |tasks| => tasks[i].Outcome())
  }

  /** The plan's authorisation check passes exactly for non-empty plans in which every task either
      passed its own gate or may still be approved; and whatever may be approved failed no check. */
  lemma AuthorisedExactly(tasks: seq<EvaluatedTask>)
    ensures PlanChecks.TasksAuthorisedCode(Outcomes(tasks)) == PlanContract.Ok <==>
              tasks != [] && forall t :: t in tasks ==> t.Releasable()
    ensures forall t :: t in tasks && t.Releasable() ==> !ActionGate.AnyFailed(t.Result().checks)
  {
    var outcomes := Outcomes(tasks);
    AuthorisedByTask(outcomes);
    forall i | 0 <= i < |tasks|
      ensures tasks[i].Releasable() <==> Runnable(outcomes[i])
      ensures tasks[i].Releasable() ==> !ActionGate.AnyFailed(tasks[i].Result().checks)
    {
      ReleasableTask(tasks[i]);
    }
    if forall t :: t in tasks ==> t.Releasable() {
      forall i | 0 <= i < |outcomes| ensures Runnable(outcomes[i]) {
        assert tasks[i] in tasks;
      }
    }
  }

  /** Neither blocked beyond approval nor projected without an evaluation. */
  predicate Runnable(task: PlanContract.TaskOutcome) {
    !task.HardBlocked() && !(task.blockingKinds == [] && task.decision == NeedsHuman)
  }

  lemma AuthorisedByTask(tasks: seq<PlanContract.TaskOutcome>)
    ensures PlanChecks.TasksAuthorisedCode(tasks) == PlanContract.Ok <==>
              tasks != [] && forall i :: 0 <= i < |tasks| ==> Runnable(tasks[i])
  {
    if i :| 0 <= i < |tasks| && !Runnable(tasks[i]) {
      assert tasks[i] in tasks;
    }
  }

  lemma ReleasableTask(t: EvaluatedTask)
    ensures t.Releasable() <==> Runnable(t.Outcome())
    ensures t.Releasable() ==> !ActionGate.AnyFailed(t.Result().checks)
  {
    ApprovalNeverCoversAFailure(t.inputs, t.now, t.config);
    ExecutableHasNoFailure(t.inputs, t.now, t.config);
    ReleasableResult(t.Result(), t.Outcome());
  }

  lemma ReleasableResult(r: AssuranceResult, task: PlanContract.TaskOutcome)
    requires task.decision == r.decision && task.blockingKinds == KindsOf(r.checks)
    requires r.decision != NeedsHuman ==> !ActionGate.AnyFailed(r.checks)
    ensures (r.decision != NeedsHuman || MayApproveAction(r).Permitted?) <==> Runnable(task)
  {
    KindsMembership(r.checks);
    assert task.HardBlocked() <==> Evidence in task.blockingKinds || Conflict in task.blockingKinds;
  }

  /** Of a task projected from a gate result, being blocked beyond approval and having failed a check
      are the same. */
  lemma BlockedMeansFailed(t: EvaluatedTask)
    ensures t.Outcome().HardBlocked() <==> ActionGate.AnyFailed(t.Result().checks)
  {
    FailuresAskNoApproval(t.inputs, t.now, t.config);
    FailuresAreHard(t.Result().checks);
    HardBlockedByKind(t.Result().checks, t.Outcome());
  }

  lemma FailuresAskNoApproval(inputs: GateInputs, now: Stamp, config: Option<AssuranceConfig>)
    ensures forall c :: c in ActionGate.Evaluation(inputs, now, config).checks && c.state == Failed ==>
              c.code != HumanApprovalRequired
  {
    if config.Some? {
      RecordOfVerdicts(inputs, now, config.value);
    }
  }

  lemma HardBlockedByKind(checks: seq<CheckResult>, task: PlanContract.TaskOutcome)
    requires task.blockingKinds == KindsOf(checks)
    ensures task.HardBlocked() <==> KindPresent(checks, Evidence) || KindPresent(checks, Conflict)
  {
    KindsMembership(checks);
    assert task.HardBlocked() <==> Evidence in task.blockingKinds || Conflict in task.blockingKinds;
  }

  lemma FailuresAreHard(checks: seq<CheckResult>)
    requires forall c :: c in checks && c.state == Failed ==> c.code != HumanApprovalRequired
    ensures ActionGate.AnyFailed(checks) <==> KindPresent(checks, Evidence) || KindPresent(checks, Conflict)
  {
    if c :| c in checks && c.state == Failed {
      assert KindFor(c.code) == Evidence || KindFor(c.code) == Conflict;
    }
  }

  lemma ExecutableHasNoFailure(inputs: GateInputs, now: Stamp, config: Option<AssuranceConfig>)
    ensures var r := ActionGate.Evaluation(inputs, now, config);
            r.decision != NeedsHuman ==> !ActionGate.AnyFailed(r.checks)
  {
  }

  // ---------------------------------------------------------------- does a plan approval reach a task?

  datatype ScopeKind = ActionScope | PlanScope

  datatype Scope = Scope(kind: ScopeKind, planHash: Option<string>, coversTiers: seq<RiskTier>, coveredTaskIds: seq<string>)

  datatype ApprovalPolicy = ApprovalPolicy(highRiskAlwaysSeparate: bool, boundToPlanHash: bool)

  /** plan_approval_covers */
  function PlanApprovalCovers(
    approval: Scope, task: PlanContract.TaskOutcome, planHash: string, policy: ApprovalPolicy): Verdict
  {
    if approval.kind != PlanScope then Refused(TaskNotInScope)
    else if policy.boundToPlanHash && approval.planHash != Some(planHash) then Refused(PlanHashMismatch)
    else if approval.coveredTaskIds != [] && task.taskId !in approval.coveredTaskIds then Refused(TaskNotInScope)
    else if task.riskTier == High && policy.highRiskAlwaysSeparate then Refused(HighRiskNeedsOwnDecision)
    else if task.riskTier !in approval.coversTiers then Refused(TierNotCovered)
    else if task.HardBlocked() then Refused(NotApprovableEvidence)
    else Permitted
  }

  /** tasks_still_needing_own_decision */
  function StillNeedingOwnDecision(
    approval: Scope, tasks: seq<PlanContract.TaskOutcome>, planHash: string, policy: ApprovalPolicy): seq<string>
  {
    if tasks == [] then []
    else
      var front := StillNeedingOwnDecision(approval, tasks[..|tasks| - 1], planHash, policy);
      var last := tasks[|tasks| - 1];
      if last.decision == NeedsHuman && PlanApprovalCovers(approval, last, planHash, policy).Refused?
      then front + [last.taskId] else front
  }

  /** A task no plan approval reaches. */
  predicate BeyondPlanApproval(task: PlanContract.TaskOutcome, policy: ApprovalPolicy) {
    task.HardBlocked() || (task.riskTier == High && policy.highRiskAlwaysSeparate)
  }

  /** After any plan approval, every hard-blocked task that needs a human is still on the operator's desk,
      and every high-risk one where high risk is always separate; and nothing is there without need. */
  lemma {:induction false} DeskKeepsWhatApprovalCannotRelease(
    approval: Scope, tasks: seq<PlanContract.TaskOutcome>, planHash: string, policy: ApprovalPolicy)
    ensures var desk := StillNeedingOwnDecision(approval, tasks, planHash, policy);
            && (forall t :: t in tasks && t.decision == NeedsHuman && BeyondPlanApproval(t, policy) ==> t.taskId in desk)
            && (forall id :: id in desk ==> exists t :: t in tasks && t.taskId == id && t.decision == NeedsHuman)
            && |desk| <= |tasks|
  {
    if tasks != [] {
      var front := tasks[..|tasks| - 1];
      DeskKeepsWhatApprovalCannotRelease(approval, front, planHash, policy);
      assert tasks == front + [tasks[|tasks| - 1]];
    }
  }
}
