/** What the plan gate's verdicts mean in terms of the plan, its declared coverage, its exposure and the
    configured limits. */
module PlanMeaning {
  import opened Prelude
  import opened Aggregation
  import opened PlanContract
  import opened TaskGraph
  import opened PlanChecks
  import opened PlanGate
  import Approval

  // ---------------------------------------------------------------- what is asked of a plan

  /** There is something to do, each task was evaluated, and none is held by evidence or by a conflict. */
  ghost predicate TasksReleasable(tasks: seq<TaskOutcome>) {
    && tasks != []
    && forall t :: t in tasks ==>
         && Evidence !in t.blockingKinds && Conflict !in t.blockingKinds
         && (t.decision == NeedsHuman ==> t.blockingKinds != [])
  }

  ghost predicate DependenciesExist(tasks: seq<TaskOutcome>) {
    forall t, dep :: t in tasks && dep in t.dependsOn ==> exists u :: u in tasks && u.taskId == dep
  }

  /** No task targets an entity twice, and no two tasks of one action share a target. */
  ghost predicate NothingTwice(tasks: seq<TaskOutcome>) {
    && (forall t :: t in tasks ==> NoRepeats(t.targetRefs))
    && forall i, j, ref :: 0 <= i < j < |tasks| && SameAction(tasks[i], tasks[j]) && ref in tasks[i].targetRefs ==>
         ref !in tasks[j].targetRefs
  }

  predicate SameAction(t: TaskOutcome, u: TaskOutcome) { t.actionType == u.actionType }

  /** No entity is targeted by both actions of a configured pair. */
  ghost predicate NothingExcluded(tasks: seq<TaskOutcome>, config: PlanConfig) {
    forall pair, t, u, ref :: Excludes(config, pair, t, u) && t in tasks && u in tasks && ref in t.targetRefs ==>
      ref !in u.targetRefs
  }

  predicate Excludes(config: PlanConfig, pair: seq<ActionName>, t: TaskOutcome, u: TaskOutcome) {
    pair in config.mutuallyExclusive && |pair| == 2 && t.actionType == pair[0] && u.actionType == pair[1]
  }

  ghost predicate Targeted(tasks: seq<TaskOutcome>, ref: string) {
    exists t :: t in tasks && ref in t.targetRefs
  }

  predicate SaysSomething(reason: string) { exists k :: 0 <= k < |reason| && !IsSpace(reason[k]) }

  /** Every impacted entity is targeted or deferred, and every deferral has a stated reason. */
  ghost predicate AccountedFor(tasks: seq<TaskOutcome>, coverage: Coverage) {
    && (forall ref :: ref in coverage.impactedRefs ==> Targeted(tasks, ref) || ref in coverage.deferred)
    && forall ref :: ref in coverage.deferred ==> SaysSomething(coverage.deferred[ref])
  }

  ghost function HighPositions(tasks: seq<TaskOutcome>): set<int> {
    set i | 0 <= i < |tasks| && tasks[i].riskTier == High
  }

  predicate Established(exposure: Exposure) {
    exposure.totalInr.Some? && exposure.passengers.Some? && exposure.rooms.Some? && exposure.externalEffects.Some?
  }

  /** Each figure within its own limit. */
  ghost predicate WithinBudget(tasks: seq<TaskOutcome>, exposure: Exposure, limits: PlanLimits)
    requires Established(exposure)
  {
    && exposure.totalInr.value <= limits.maxTotalInr
    && exposure.passengers.value <= limits.maxPassengers
    && exposure.rooms.value <= limits.maxRooms
    && exposure.externalEffects.value <= limits.maxExternalEffects
    && |HighPositions(tasks)| <= limits.maxHighRiskActions
  }

  /** No aggregate figure reaches the point from which the whole plan counts as high risk. */
  ghost predicate BelowEscalation(tasks: seq<TaskOutcome>, exposure: Exposure, config: PlanConfig) {
    var limits, escalation := config.limits, config.escalation;
    && (exposure.totalInr.Some? ==> exposure.totalInr.value as real < limits.maxTotalInr as real * escalation.exposureFraction)
    && (exposure.passengers.Some? ==>
          exposure.passengers.value as real < limits.maxPassengers as real * escalation.passengersFraction)
    && |HighPositions(tasks)| < escalation.highRiskActionCount
    && (exposure.externalEffects.Some? ==> exposure.externalEffects.value < escalation.externalEffectCount)
    && (exposure.externalEffects.None? ==> 0 < escalation.externalEffectCount)
  }

  // ---------------------------------------------------------------- counting and committing

  lemma {:induction false} HighRiskCountCounts(tasks: seq<TaskOutcome>)
    ensures HighRiskCount(tasks) == |HighPositions(tasks)|
  {
    if tasks != [] {
      var n := |tasks| - 1;
      var front := tasks[..n];
      HighRiskCountCounts(front);
      assert HighPositions(tasks) == HighPositions(front) + if tasks[n].riskTier == High then {n} else {};
    }
  }

  lemma {:induction false} CommitmentsMeaning(tasks: seq<TaskOutcome>, action: ActionName, ref: string)
    ensures (action, ref) in Commitments(tasks) <==> exists t :: t in tasks && t.actionType == action && ref in t.targetRefs
  {
    if tasks != [] {
      var front, last := tasks[..|tasks| - 1], tasks[|tasks| - 1];
      CommitmentsMeaning(front, action, ref);
      assert tasks == front + [last];
      TaskCommitmentsMeaning(last, action, ref);
    }
  }

  lemma TaskCommitmentsMeaning(task: TaskOutcome, action: ActionName, ref: string)
    ensures (action, ref) in TaskCommitments(task) <==> task.actionType == action && ref in task.targetRefs
  {
    var pairs := TaskCommitments(task);
    if task.actionType == action && ref in task.targetRefs {
      var k :| 0 <= k < |task.targetRefs| && task.targetRefs[k] == ref;
      assert pairs[k] == (action, ref);
    }
  }

  lemma JoinedRepeats<T>(a: seq<T>, b: seq<T>)
    ensures NoRepeats(a + b) <==> NoRepeats(a) && NoRepeats(b) && forall x :: x in b ==> x !in a
  {
    var both := a + b;
    forall i | 0 <= i < |a| ensures both[i] == a[i] {
    }
    forall i | 0 <= i < |b| ensures both[|a| + i] == b[i] {
    }
    if NoRepeats(both) {
      forall i, j | 0 <= i < j < |b| ensures b[i] != b[j] {
        assert both[|a| + i] != both[|a| + j];
      }
      forall i, j | 0 <= i < j < |a| ensures a[i] != a[j] {
        assert both[i] != both[j];
      }
      forall x | x in b ensures x !in a {
        var j :| 0 <= j < |b| && b[j] == x;
        assert forall i :: 0 <= i < |a| ==> both[i] != both[|a| + j];
      }
    } else {
      var i, j :| 0 <= i < j < |both| && both[i] == both[j];
      if j < |a| {
        assert a[i] == a[j];
      } else if i < |a| {
        assert b[j - |a|] in b && b[j - |a|] == a[i];
      } else {
        assert b[i - |a|] == b[j - |a|];
      }
    }
  }

  lemma TaskRepeats(task: TaskOutcome)
    ensures NoRepeats(TaskCommitments(task)) <==> NoRepeats(task.targetRefs)
  {
    var pairs := TaskCommitments(task);
    forall i, j | 0 <= i < j < |pairs| ensures pairs[i] == pairs[j] <==> task.targetRefs[i] == task.targetRefs[j] {
    }
  }

  /** The last task repeats nothing of the earlier ones. */
  ghost predicate NothingAgain(front: seq<TaskOutcome>, last: TaskOutcome) {
    forall i, ref :: 0 <= i < |front| && front[i].actionType == last.actionType && ref in front[i].targetRefs ==>
      ref !in last.targetRefs
  }

  lemma NothingAgainMeaning(front: seq<TaskOutcome>, last: TaskOutcome)
    ensures NothingAgain(front, last) <==> forall c :: c in TaskCommitments(last) ==> c !in Commitments(front)
  {
    if NothingAgain(front, last) {
      forall c | c in TaskCommitments(last) ensures c !in Commitments(front) {
        CommitmentsMeaning(front, c.0, c.1);
        TaskCommitmentsMeaning(last, c.0, c.1);
      }
    } else {
      var i, ref :| 0 <= i < |front| && front[i].actionType == last.actionType && ref in front[i].targetRefs
                    && ref in last.targetRefs;
      CommitmentsMeaning(front, last.actionType, ref);
      TaskCommitmentsMeaning(last, last.actionType, ref);
    }
  }

  lemma NothingTwiceOfOneMore(front: seq<TaskOutcome>, last: TaskOutcome)
    ensures NothingTwice(front + [last]) <==>
              NothingTwice(front) && NoRepeats(last.targetRefs) && NothingAgain(front, last)
  {
    var tasks := front + [last];
    forall i | 0 <= i < |front| ensures tasks[i] == front[i] && tasks[i] in tasks {
    }
    assert tasks[|front|] == last && last in tasks;
    if NothingTwice(tasks) {
      forall t | t in front ensures NoRepeats(t.targetRefs) {
        assert t in tasks;
      }
      forall i, ref | 0 <= i < |front| && front[i].actionType == last.actionType && ref in front[i].targetRefs
        ensures ref !in last.targetRefs
      {
        assert SameAction(tasks[i], tasks[|front|]);
      }
    }
  }

  lemma {:induction false} NothingTwiceMeaning(tasks: seq<TaskOutcome>)
    ensures NoRepeats(Commitments(tasks)) <==> NothingTwice(tasks)
  {
    if tasks != [] {
      var front, last := tasks[..|tasks| - 1], tasks[|tasks| - 1];
      NothingTwiceMeaning(front);
      JoinedRepeats(Commitments(front), TaskCommitments(last));
      TaskRepeats(last);
      NothingAgainMeaning(front, last);
      NothingTwiceOfOneMore(front, last);
      assert tasks == front + [last];
    }
  }

  ghost predicate BothTarget(tasks: seq<TaskOutcome>, pair: seq<ActionName>, ref: string)
    requires |pair| == 2
  {
    (exists t :: t in tasks && t.actionType == pair[0] && ref in t.targetRefs) &&
    (exists u :: u in tasks && u.actionType == pair[1] && ref in u.targetRefs)
  }

  lemma AllTargetMeaning(tasks: seq<TaskOutcome>, pair: seq<ActionName>, ref: string)
    requires |pair| == 2
    ensures AllTarget(tasks, {pair[0], pair[1]}, ref) <==> BothTarget(tasks, pair, ref)
  {
    CommitmentsMeaning(tasks, pair[0], ref);
    CommitmentsMeaning(tasks, pair[1], ref);
  }

  lemma NothingExcludedMeaning(tasks: seq<TaskOutcome>, config: PlanConfig)
    ensures ExclusiveClash(tasks, config) <==> !NothingExcluded(tasks, config)
  {
    if ExclusiveClash(tasks, config) {
      var ref, both :| both in config.ExclusivePairs() && ref in TargetsOf(tasks) && AllTarget(tasks, both, ref);
      var pair :| pair in config.mutuallyExclusive && |pair| == 2 && both == {pair[0], pair[1]};
      AllTargetMeaning(tasks, pair, ref);
      var t :| t in tasks && t.actionType == pair[0] && ref in t.targetRefs;
      var u :| u in tasks && u.actionType == pair[1] && ref in u.targetRefs;
      assert Excludes(config, pair, t, u);
    }
    if !NothingExcluded(tasks, config) {
      var pair, t, u, ref :|
        Excludes(config, pair, t, u) && t in tasks && u in tasks && ref in t.targetRefs && ref in u.targetRefs;
      AllTargetMeaning(tasks, pair, ref);
      CommitmentsMeaning(tasks, pair[0], ref);
      assert {pair[0], pair[1]} in config.ExclusivePairs() && (pair[0], ref).1 in TargetsOf(tasks);
    }
  }

  // ---------------------------------------------------------------- what each check reports

  /** The record holds the six verdicts as judged, and names as blocking the checks that failed and a high
      aggregate risk. */
  lemma RecordedAsJudged(plan: Plan, coverage: Coverage, exposure: Exposure, config: PlanConfig)
    ensures var r, checks := Evaluation(plan, coverage, exposure, Some(config)), Verdicts(plan, coverage, exposure, config);
            && r.checks == checks && r.tier == PlanTier(plan.tasks, exposure, config)
            && forall i :: 0 <= i < 6 ==>
                 (PLAN_CHECK_ORDER[i] in r.blocking <==> checks[i].state == Failed || (i == 5 && r.tier == High))
  {
    var checks := Verdicts(plan, coverage, exposure, config);
    VerdictStates(plan, coverage, exposure, config);
    OnlyReportsAreHeld(checks);
    forall i | 0 <= i < 6
      ensures PLAN_CHECK_ORDER[i] in AggregateResult(checks, Some(config)).blocking <==>
                checks[i].state == Failed || (i == 5 && TierOf(checks) == High)
    {
      BlockingOfOnlyReports(checks, config, i);
    }
  }

  lemma TasksReported(plan: Plan, coverage: Coverage, exposure: Exposure, config: PlanConfig)
    ensures var r := Evaluation(plan, coverage, exposure, Some(config)).checks[0];
            && r.name == TasksAuthorised && (r.state == Passed <==> r.code == Ok) && (r.state == Failed <==> r.code != Ok)
            && (r.code == PlanEmpty <==> plan.tasks == [])
            && (r.code == TaskEvaluationMissing <==>
                  exists t :: t in plan.tasks && t.decision == NeedsHuman && t.blockingKinds == [])
            && (r.code == Ok <==> TasksReleasable(plan.tasks))
            && r.code in {PlanEmpty, TaskEvaluationMissing, TaskNotAuthorised, Ok}
  {
    RecordedAsJudged(plan, coverage, exposure, config);
    ReleasableMeaning(plan.tasks);
  }

  lemma ReleasableMeaning(tasks: seq<TaskOutcome>)
    ensures var code := TasksAuthorisedCode(tasks);
            && (code == Ok <==> TasksReleasable(tasks)) && (code == PlanEmpty <==> tasks == [])
            && (code == TaskEvaluationMissing <==> exists t :: t in tasks && t.decision == NeedsHuman && t.blockingKinds == [])
            && code in {PlanEmpty, TaskEvaluationMissing, TaskNotAuthorised, Ok}
  {
    forall t: TaskOutcome ensures t.HardBlocked() <==> Evidence in t.blockingKinds || Conflict in t.blockingKinds {
    }
  }

  /** A dependency on the id of a task that evidence or a conflict holds. */
  ghost predicate WaitsForABlock(tasks: seq<TaskOutcome>) {
    exists t, u :: t in tasks && u in tasks && u.taskId in t.dependsOn
                   && (Evidence in u.blockingKinds || Conflict in u.blockingKinds)
  }

  lemma DependenciesReported(plan: Plan, coverage: Coverage, exposure: Exposure, config: PlanConfig)
    ensures var r := Evaluation(plan, coverage, exposure, Some(config)).checks[1];
            && r.name == DependenciesSound && (r.state == Passed <==> r.code == Ok) && (r.state == Failed <==> r.code != Ok)
            && (r.code == DependencyUnknown <==> !DependenciesExist(plan.tasks))
            && (r.code == DependencyCycle <==> DependenciesExist(plan.tasks) && !Schedulable(EdgesOf(plan.tasks)))
            && (r.code == Ok <==>
                  DependenciesExist(plan.tasks) && Schedulable(EdgesOf(plan.tasks)) && !WaitsForABlock(plan.tasks))
            && r.code in {DependencyUnknown, DependencyCycle, DependencyBlocked, Ok}
  {
    RecordedAsJudged(plan, coverage, exposure, config);
    WaitingMeaning(plan.tasks);
  }

  lemma WaitingMeaning(tasks: seq<TaskOutcome>)
    ensures DependsOnNoBlock(tasks) <==> !WaitsForABlock(tasks)
    ensures DependenciesKnown(tasks) <==> DependenciesExist(tasks)
  {
    forall t: TaskOutcome ensures t.HardBlocked() <==> Evidence in t.blockingKinds || Conflict in t.blockingKinds {
    }
    if !DependsOnNoBlock(tasks) {
      var t, dep :| t in tasks && dep in t.dependsOn && IsHardBlocked(tasks, dep);
      var u :| u in tasks && u.taskId == dep && u.HardBlocked();
      assert u.taskId in t.dependsOn;
    }
    if t, u :| t in tasks && u in tasks && u.taskId in t.dependsOn
               && (Evidence in u.blockingKinds || Conflict in u.blockingKinds) {
      assert u.HardBlocked() && IsHardBlocked(tasks, u.taskId);
    }
    KnownMeaning(tasks);
  }

  lemma KnownMeaning(tasks: seq<TaskOutcome>)
    ensures DependenciesKnown(tasks) <==> DependenciesExist(tasks)
  {
    if DependenciesKnown(tasks) {
      forall t, dep | t in tasks && dep in t.dependsOn ensures exists u :: u in tasks && u.taskId == dep {
        assert IsTask(tasks, dep);
      }
    }
    if DependenciesExist(tasks) {
      forall t, dep | t in tasks && dep in t.dependsOn ensures IsTask(tasks, dep) {
        var u :| u in tasks && u.taskId == dep;
      }
    }
  }

  lemma ConsistencyReported(plan: Plan, coverage: Coverage, exposure: Exposure, config: PlanConfig)
    ensures var r := Evaluation(plan, coverage, exposure, Some(config)).checks[2];
            && r.name == PlanConsistent && (r.state == Passed <==> r.code == Ok) && (r.state == Failed <==> r.code != Ok)
            && (r.code == DuplicateTask <==> !NothingTwice(plan.tasks))
            && (r.code == Ok <==> NothingTwice(plan.tasks) && NothingExcluded(plan.tasks, config))
            && r.code in {DuplicateTask, MutuallyExclusiveTasks, Ok}
  {
    RecordedAsJudged(plan, coverage, exposure, config);
    NothingTwiceMeaning(plan.tasks);
    NothingExcludedMeaning(plan.tasks, config);
  }

  lemma CoverageReported(plan: Plan, coverage: Coverage, exposure: Exposure, config: PlanConfig)
    ensures var r := Evaluation(plan, coverage, exposure, Some(config)).checks[3];
            && r.name == CoverageComplete && (r.state == Passed <==> r.code == Ok) && (r.state == Failed <==> r.code != Ok)
            && (r.code == CoverageNotDeclared <==> !coverage.declared)
            && (r.code == Ok <==> coverage.declared && AccountedFor(plan.tasks, coverage))
            && r.code in {CoverageNotDeclared, CoverageIncomplete, Ok}
  {
    RecordedAsJudged(plan, coverage, exposure, config);
    CoverageMeaning(plan.tasks, coverage);
  }

  lemma CoverageMeaning(tasks: seq<TaskOutcome>, coverage: Coverage)
    ensures CoverageCode(tasks, coverage) == Ok <==> coverage.declared && AccountedFor(tasks, coverage)
  {
    var addressed := set t, ref | t in tasks && ref in t.targetRefs :: ref;
    forall ref ensures ref in addressed <==> Targeted(tasks, ref) {
    }
    forall reason ensures Blank(reason) <==> !SaysSomething(reason) {
      SayingMeaning(reason);
    }
  }

  lemma SayingMeaning(reason: string)
    ensures Blank(reason) <==> !SaysSomething(reason)
  {
  }

  ghost predicate ExposureOk(tasks: seq<TaskOutcome>, exposure: Exposure, limits: PlanLimits) {
    && exposure.unresolvedCohorts == [] && |tasks| <= limits.maxTasks
    && Established(exposure) && WithinBudget(tasks, exposure, limits)
  }

  lemma ExposureMeaning(tasks: seq<TaskOutcome>, exposure: Exposure, config: PlanConfig)
    ensures var code, known, small :=
              ExposureCode(tasks, exposure, config), exposure.unresolvedCohorts == [], |tasks| <= config.limits.maxTasks;
            && (code == ExposureUnknown <==> !known || (small && !Established(exposure)))
            && (code == PlanTooLarge <==> known && !small)
            && (code == Ok <==> ExposureOk(tasks, exposure, config.limits))
            && code in {ExposureUnknown, PlanTooLarge, ExposureLimitBreached, Ok}
  {
    HighRiskCountCounts(tasks);
    if exposure.unresolvedCohorts == [] && Established(exposure) {
      LimitsMeaning(tasks, exposure, config);
    }
  }

  lemma LimitsMeaning(tasks: seq<TaskOutcome>, exposure: Exposure, config: PlanConfig)
    requires Established(exposure) && exposure.unresolvedCohorts == []
    ensures |tasks| <= config.limits.maxTasks ==>
              ExposureCode(tasks, exposure, config) ==
                if WithinBudget(tasks, exposure, config.limits) then Ok else ExposureLimitBreached
  {
    HighRiskCountCounts(tasks);
  }

  /** Unknown figures, a plan too large and each figure above its own limit are told apart. */
  lemma ExposureReported(plan: Plan, coverage: Coverage, exposure: Exposure, config: PlanConfig)
    ensures var r := Evaluation(plan, coverage, exposure, Some(config)).checks[4];
            var known, small := exposure.unresolvedCohorts == [], |plan.tasks| <= config.limits.maxTasks;
            && r.name == ExposureWithinLimits && (r.state == Passed <==> r.code == Ok) && (r.state == Failed <==> r.code != Ok)
            && (r.code == ExposureUnknown <==> !known || (small && !Established(exposure)))
            && (r.code == PlanTooLarge <==> known && !small)
            && (r.code == Ok <==>
                  known && small && Established(exposure) && WithinBudget(plan.tasks, exposure, config.limits))
            && r.code in {ExposureUnknown, PlanTooLarge, ExposureLimitBreached, Ok}
  {
    RecordedAsJudged(plan, coverage, exposure, config);
    ExposureMeaning(plan.tasks, exposure, config);
  }

  /** The aggregate is high risk when a task is, when a figure reaches its point of escalation, or when the
      exposure was not established; else it is the highest tier among the tasks. It never fails. */
  lemma RiskReported(plan: Plan, coverage: Coverage, exposure: Exposure, config: PlanConfig)
    ensures var r := Evaluation(plan, coverage, exposure, Some(config)).checks[5];
            var tasks := plan.tasks;
            var low := && tasks != [] && (forall t :: t in tasks ==> t.riskTier != High) && BelowEscalation(tasks, exposure, config)
                       && exposure.totalInr.Some? && exposure.unresolvedCohorts == [];
            && r.name == PlanRisk && r.state == Passed && r.tier.Some?
            && (r.tier.value == High <==> !low)
            && (r.tier.value == Medium <==> low && exists t :: t in tasks && t.riskTier == Medium)
            && (r.code == HumanApprovalRequired <==> r.tier.value == High && tasks != [])
            && r.code in {HumanApprovalRequired, Ok}
  {
    RecordedAsJudged(plan, coverage, exposure, config);
    TierMeaning(plan.tasks, exposure, config);
  }

  lemma EscalationMeaning(tasks: seq<TaskOutcome>, exposure: Exposure, config: PlanConfig)
    ensures Escalates(tasks, exposure, config) <==>
              !(BelowEscalation(tasks, exposure, config) && exposure.totalInr.Some? && exposure.unresolvedCohorts == [])
  {
    HighRiskCountCounts(tasks);
  }

  lemma TierMeaning(tasks: seq<TaskOutcome>, exposure: Exposure, config: PlanConfig)
    ensures PlanTier(tasks, exposure, config) != High <==>
              (tasks != [] && (forall t :: t in tasks ==> t.riskTier != High) && BelowEscalation(tasks, exposure, config)
               && exposure.totalInr.Some? && exposure.unresolvedCohorts == [])
    ensures PlanTier(tasks, exposure, config) == Medium ==> exists t :: t in tasks && t.riskTier == Medium
    ensures PlanTier(tasks, exposure, config) == Low ==> forall t :: t in tasks ==> t.riskTier == Low
  {
    EscalationMeaning(tasks, exposure, config);
  }

  // ---------------------------------------------------------------- admission

  /** No task is held by evidence or a conflict, every dependency exists and the plan has an order, nothing is
      committed twice or excludes something else, every impacted entity is accounted for, and the
      exposure is established and within each limit. */
  ghost predicate Sound(plan: Plan, coverage: Coverage, exposure: Exposure, config: PlanConfig) {
    && TasksReleasable(plan.tasks)
    && DependenciesExist(plan.tasks) && Schedulable(EdgesOf(plan.tasks))
    && NothingTwice(plan.tasks) && NothingExcluded(plan.tasks, config)
    && coverage.declared && AccountedFor(plan.tasks, coverage)
    && exposure.unresolvedCohorts == [] && |plan.tasks| <= config.limits.maxTasks
    && Established(exposure) && WithinBudget(plan.tasks, exposure, config.limits)
  }

  lemma SoundMeansAllPass(plan: Plan, coverage: Coverage, exposure: Exposure, config: PlanConfig)
    ensures Sound(plan, coverage, exposure, config) <==> AllPass(plan, coverage, exposure, config)
  {
    ReleasableMeaning(plan.tasks);
    DependenciesMeaning(plan.tasks);
    NothingTwiceMeaning(plan.tasks);
    NothingExcludedMeaning(plan.tasks, config);
    CoverageMeaning(plan.tasks, coverage);
    ExposureMeaning(plan.tasks, exposure, config);
  }

  /** Exactly which plans are admitted: the sound ones whose tasks are all below high risk, and whose
      figures are all below their points of escalation. */
  lemma AdmittedExactly(plan: Plan, coverage: Coverage, exposure: Exposure, config: Option<PlanConfig>)
    ensures Evaluation(plan, coverage, exposure, config).Admissible() <==>
              && config.Some? && Sound(plan, coverage, exposure, config.value)
              && (forall t :: t in plan.tasks ==> t.riskTier != High)
              && BelowEscalation(plan.tasks, exposure, config.value)
  {
    AdmitsExactly(plan, coverage, exposure, config);
    if config.Some? {
      SoundMeansAllPass(plan, coverage, exposure, config.value);
      TierMeaning(plan.tasks, exposure, config.value);
    }
  }

  /** And which an operator may approve: the other sound ones. */
  lemma ApprovableExactly(plan: Plan, coverage: Coverage, exposure: Exposure, config: Option<PlanConfig>)
    ensures Approval.MayApprovePlan(Evaluation(plan, coverage, exposure, config)).Permitted? <==>
              && config.Some? && Sound(plan, coverage, exposure, config.value)
              && ((exists t :: t in plan.tasks && t.riskTier == High) || !BelowEscalation(plan.tasks, exposure, config.value))
  {
    Approval.PlanApprovableExactly(plan, coverage, exposure, config);
    if config.Some? {
      SoundMeansAllPass(plan, coverage, exposure, config.value);
      TierMeaning(plan.tasks, exposure, config.value);
    }
  }

  lemma DependenciesMeaning(tasks: seq<TaskOutcome>)
    ensures DependenciesCode(tasks) == Ok <==>
              DependenciesExist(tasks) && Schedulable(EdgesOf(tasks)) && !WaitsForABlock(tasks)
    ensures TasksReleasable(tasks) ==> !WaitsForABlock(tasks)
  {
    WaitingMeaning(tasks);
  }

  /** With distinct ids, what is asked of the dependencies is that the tasks can be run in some order, each
      after all it depends on. */
  lemma OrderExactly(tasks: seq<TaskOutcome>)
    requires DistinctIds(tasks)
    ensures DependenciesExist(tasks) && Schedulable(EdgesOf(tasks)) <==> exists order :: RunsInOrder(tasks, order)
  {
    KnownMeaning(tasks);
    if DependenciesKnown(tasks) && Schedulable(EdgesOf(tasks)) {
      var ids :| Schedule(EdgesOf(tasks), ids);
      var order := ScheduleRunsTheTasks(tasks, ids);
    }
    if order :| RunsInOrder(tasks, order) {
      RunningOrderIsASchedule(tasks, order);
    }
  }
}
