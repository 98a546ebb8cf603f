# A verified model of the disruption-response backend

The backend plans and carries out the response to an airline disruption. What it may do by itself is decided
by a stack of gates; what it does is spread over concurrent requests, an event stream and recorded
assessments. This project models those parts and proves what they guarantee for every input, every reachable
state and every run.

`dafny verify dfyconfig.toml` checks the whole project.

## The parts

**Decision assurance.** An action is proposed with facts, sources, references, a payload, derived constraints
and a ledger of outstanding work. Six checks report on it (`ActionChecks`), and the gate (`ActionGate`) keeps
the worst report of each check, lets three reason codes fail whatever was reported, refuses to pass a policy
check that verified nothing, and decides: execute, execute flagged, or ask a human. From the reason codes on
the record it is derived why a human is needed (`Blocking`), and from that whether an operator may approve
(`Approval`). `Authorship` adds constraints no payload satisfies when a model claims what only the system may
claim. Each gate result becomes a task of a plan, and a second gate (`PlanChecks`, `PlanGate`) judges the plan
as a whole: authorisation, the dependency graph (`TaskGraph`, a depth-first search for a cycle), consistency,
coverage, exposure and aggregate risk; `PlanMeaning` says what its verdicts mean for the plan and its
exposure. A plan approval is bound to the plan's canonical identity (`PlanIdentity`). `GateLaws` holds the
laws of the action gate, `ConflictLedger` what follows for a ledger grown through the conflict check.

**The event stream.** `StreamStore` says what each command of the in-memory consumer-group client does to its
contents, `StreamClient` is the client object itself, and `StreamRuns` proves what holds over every run of
commands, of any number of consumers, reads that raise included.

**Scenario lifecycle.** `AdvisoryLocks` is the locking protocol around create and start requests,
`ScenarioLifecycle` the whole machine: any number of requests, each a sequence of separately committed steps,
with other workflows opening and closing incidents in between, with failures and cancellations at any point,
answers lost after a commit, and with lock keys that may collide. `ScenarioHistory` relates what a request
ends with to the run behind it, and `ScenarioStarts` says which starts are refused and which go through.

**Plan reflection, cascade figures, crew legs.** `ProposalReflection` narrows a proposed plan in two passes,
`ReflectionMeaning` says what survives and what is found, `CascadeRollup` folds recorded assessments into
group figures, and `LegWalk` is the recursive query over pairing legs.

Where the source loops or updates state in place, the model is a method with a loop or a class, proved equal
to a function of its inputs or of its old state; the laws are lemmas about that function. Files without a loop
in the source are functions and lemmas.

## Where code, documentation and expectation part

- The documentation of `reflect` speaks of cycles, but the code removes only self-dependencies. The model
  follows the code: `CyclesSurviveExactly` says which cycles survive, `LongerCyclesSurvive` shows one.
- Nothing rejects repeated task ids, and the dependency dict keeps the last entry. `TrustedExactly` says for
  which task lists a pass can be trusted whatever the dependencies are: those in which every repeated id is
  hard-blocked, hence, where no task is hard-blocked, those with distinct ids. `RepeatedIdHidesACycle` shows a
  hidden cycle. The theorems about execution orders are for distinct ids, those about the search itself for
  all task lists.
- Reports of the risk check with different tiers make the decision depend on their order.
  `OrderMattersExactly` says precisely when, `DisagreeingTiersMakeOrderMatter` shows an instance.
- The two implementations of the approval rule are not equivalent: `TwinsDifferExactly` says where each says
  yes alone, over all approvals, tiers and policies; `DataCoversAlone` and `GateCoversAlone` show one each. On
  tasks projected from gate results and under the default policy only an empty hash and an approval that lists
  no task are left: `TwinsAgreeExactly`.
- A read that meets a missing group raises after it has advanced the streams before it, whose entries are then
  pending for a consumer that never saw them. `StrandsExactly` says which streams, from what is known before
  the call; `LostExactly` says that nothing else loses entries, group by group.
- `open_group` says that `opened_incident_ids` lists only what the call created, but it also lists an active
  incident it found. `ListsCreatedExactly` says for which runs the list is what was created,
  `ReusedIncidentIsListed` shows one for which it is not.
- A start opens "one canonical incident per declared member", but the membership query has a row for each
  incident of the group, and the result lists them all. `OneEntryPerMemberExactly` says when it lists one for
  each member, `TwoIncidentsOfOneFlight` shows a run that leads to two.
- A create request can fail after its commit, and then its scenario is on record. `WroteExactlyIfCommitted`
  says when a request that is over has written, `AnswerCanBeLost` shows such a failure, and `RetryIsAnswered`
  that asking again gets the scenario.
- Mechanisms without a listed precedence rank alike, so their order of recording matters:
  `MechanismDependsOnOrderExactly`.
- The conflict check protects the ledger only while finished work is not revived: `RevivalIsSafeExactly`,
  `RevivalDoublesACommitment`.

## Modelling decisions

- Closed sets of strings (actions, states, operators, source kinds, mechanisms) are datatypes, each with a
  case for any other text where the source accepts one. Timestamps are whole seconds, numbers are reals:
  rounding, NaN and infinities are not modelled. Values are those JSON can carry.
- Digests are opaque. Lock keys are an arbitrary function of what they stand for; the plan digest needs to
  tell apart only the two plans a statement is about.
- A stream id "n-0" is its n. The clock is a function giving a reading for each entry handed out.
- The lifecycle machine takes one step for each read or committed write of a request. One database read is one
  step, the membership query included, whose rows may come in any order, so between any two of them others may
  act. The incident a start ends up with for a flight is the active one of that flight if there is one, a new
  one otherwise, as backend/app/orchestrator/engine.py:280-330 has it.

## Model

| member | source | states |
|---|---|---|
| TaskGraph.FindCycle | backend/app/assurance/plan_checks.py:146-175 | for every task list: what it returns is a real closed walk over dependency edges; it returns nothing exactly when the graph has no closed walk, and exactly when some dependency order of all its nodes exists |
| TaskGraph.CycleSearch.Walk | backend/app/assurance/plan_checks.py:153-170 | one visit of the search, which ends on every graph: a non-empty result is a closed walk; after an empty one the node is done, path and visiting set are as before, and everything finished so far is in dependency order; the visiting set is always the path, so the fallback index is never used |
| TaskGraph.CycleSearch.Finish | backend/app/assurance/plan_checks.py:167-170 | leaving a node whose dependencies are done keeps the search's invariant and extends the dependency order by it |
| TaskGraph.CycleSearch.constructor | backend/app/assurance/plan_checks.py:148-151 | the search starts in a valid state with nothing visited |
| TaskGraph.LastListIsKept | backend/app/assurance/plan_checks.py:148 | of the tasks of one id the dict keeps the list of the last |
| TaskGraph.EdgesOfDistinct | backend/app/assurance/plan_checks.py:148 | with distinct ids the dependency dict keeps every task's own list |
| TaskGraph.WalkDescends | backend/app/assurance/plan_checks.py:153-165 | along any walk of edges the position in a dependency order strictly falls |
| TaskGraph.ScheduleForbidsCycles | backend/app/assurance/plan_checks.py:146-147 | a graph with a dependency order has no closed walk |
| PlanChecks.CheckDependencies | backend/app/assurance/plan_checks.py:100-143 | the verdict for every task list: unknown dependency first, then cycle (with a closed walk to show for it), then dependency on a task blocked on evidence or conflict, else pass |
| PlanChecks.DependenciesPassExactly | backend/app/assurance/plan_checks.py:100-143 | with distinct ids the check passes if and only if all tasks can be arranged, each once, with every dependency before its dependant, and no chain of dependencies of any length leads to a hard-blocked task |
| PlanChecks.ChainsFollowDirectDependencies | backend/app/assurance/plan_checks.py:110-114 | looking at direct dependencies only is enough to exclude chains of any length to a hard-blocked task |
| PlanChecks.TrustedExactly | backend/app/assurance/plan_checks.py:100-143 | for every task list: whatever the tasks depend on, a pass means no cycle among all declared dependencies, if and only if every repeated id is hard-blocked; where no task is hard-blocked, if and only if the ids are distinct |
| PlanChecks.HidingLists | backend/app/assurance/plan_checks.py:148 | for every task list with a repeated id that is not hard-blocked there are dependencies with which the check passes over a declared cycle |
| PlanChecks.RepeatedIdHidesACycle | backend/app/assurance/plan_checks.py:148 | concretely: a self-dependent task fails alone and passes when a later task repeats its id |
| PlanChecks.CheckConsistency | backend/app/assurance/plan_checks.py:181-230 | fails for a repeated (action, target) commitment, else for a configured exclusive pair on one entity, else passes, for every plan |
| PlanChecks.ActionsByRef | backend/app/assurance/plan_checks.py:211-214 | the index holds, for each targeted entity, exactly the actions committed to it |
| PlanChecks.ClassifyPlan | backend/app/assurance/plan_checks.py:359-429 | never fails; the tier is high for an empty plan, for any escalation (share of limit, count of high-risk actions or external effects, anything not established) or high-risk task, else the worst task's |
| PlanChecks.AggregateRiskDominates | backend/app/assurance/plan_checks.py:359-429 | the plan is never a lesser risk than any of its tasks, and one more task never makes a plan a lesser risk |
| PlanGate.Ordered | backend/app/assurance/plan_gate.py:102-113 | six reports in fixed order, each the worst of its name, a failure when nobody reported |
| PlanGate.AggregatePlan | backend/app/assurance/plan_gate.py:116-199 | the five ordered rules, for every list of reports and with or without configuration |
| PlanGate.Decide | backend/app/assurance/plan_gate.py:153-184 | decision and blocking checks: any failure, a high aggregate, or an untolerated warning needs a human |
| PlanGate.FailsClosed | backend/app/assurance/plan_gate.py:102-184 | without configuration, with a check unreported or failed, or with nobody having classified the risk, a human is needed, whatever else was reported |
| PlanGate.EvaluatePlan | backend/app/assurance/plan_gate.py:202-242 | the result is the aggregation of the six verdicts on the plan |
| PlanGate.AdmitsExactly | backend/app/assurance/plan_gate.py:202-242 | a plan is admitted if and only if configuration exists, all five judging checks pass and the aggregate tier is not high; it is never admitted under a flag |
| PlanGate.LoweringExposureKeepsAdmission | backend/app/assurance/plan_checks.py:287-429 | lowering known exposure figures, or learning more of them, never turns an admitted plan away |
| PlanGate.AdmittedPlansAreRunnable | backend/app/assurance/plan_gate.py:202-242 | an admitted plan with distinct ids is non-empty, has an execution order, never waits for a hard-blocked task and commits to no (action, target) twice |
| PlanGate.BlockingOfOnlyReports | backend/app/assurance/plan_gate.py:151-190 | when each check reported once without a warning, exactly the failed checks block, and the risk check also when the tier is high |
| PlanMeaning.TasksReported | backend/app/assurance/plan_checks.py:58-94 | in every evaluation, what the record says of authorisation: no tasks, a task that needs a human for no recorded reason, else a task held by evidence or a conflict, else pass, each if and only if |
| PlanMeaning.DependenciesReported | backend/app/assurance/plan_checks.py:100-143 | likewise of dependencies: one that names no task, else no order of the graph, else one on a task held by evidence or a conflict |
| PlanMeaning.CommitmentsMeaning | backend/app/assurance/plan_checks.py:190-199 | the committed pairs are exactly those of some task's action and one of its targets |
| PlanMeaning.NothingTwiceMeaning | backend/app/assurance/plan_checks.py:190-199 | no committed pair repeats if and only if no task names a target twice and no two positions of one action share a target |
| PlanMeaning.ConsistencyReported | backend/app/assurance/plan_checks.py:181-230 | likewise of consistency: a pair committed twice, else an entity targeted by both actions of a configured pair |
| PlanMeaning.CoverageReported | backend/app/assurance/plan_checks.py:236-281 | likewise of coverage: not declared, else an impacted entity neither targeted nor deferred, or a deferral without a reason |
| PlanMeaning.HighRiskCountCounts | backend/app/assurance/plan_checks.py:328 | the count of high-risk actions is the number of positions with a high-risk task |
| PlanMeaning.ExposureReported | backend/app/assurance/plan_checks.py:287-353 | likewise of exposure: unresolved cohorts or an unknown figure, too many tasks, and each figure against its own limit |
| PlanMeaning.RiskReported | backend/app/assurance/plan_checks.py:359-429 | likewise of risk: the tier is high if and only if there is no task, a high-risk one, a figure at its point of escalation or exposure not established; medium if and only if not high and some task is medium; the check itself never fails |
| PlanMeaning.RecordedAsJudged | backend/app/assurance/plan_gate.py:202-242 | the record holds the six verdicts as judged, and names as blocking exactly the failed ones and, for a high tier, the risk check |
| PlanMeaning.AdmittedExactly | backend/app/assurance/plan_gate.py:202-242 | a plan is admitted if and only if there is configuration, no task is held, dependencies exist and have an order, nothing is committed twice or excluded, every impacted entity is targeted or deferred with reasons, all figures are known and each within its own limit, no task is high risk and each point of escalation is unmet |
| PlanMeaning.ApprovableExactly | backend/app/assurance/approval.py:141-167 | an operator may approve exactly the plans that fail only the last two of these |
| PlanMeaning.OrderExactly | backend/app/assurance/plan_checks.py:100-175 | with distinct ids, the dependencies exist and have an order if and only if the tasks themselves can be arranged, each after all it depends on |
| Values.Lookup | backend/app/assurance/checks.py:49-56 | the loop finds exactly the value the dotted path leads to, or that a segment is absent |
| Values.OrderedNegates | backend/app/assurance/checks.py:322-351 | the order comparisons are total where they are defined: each is the negation of its opposite, nested lists included |
| Values.OppositeOperators | backend/app/assurance/checks.py:322-351 | opposite operators are never both satisfied, and neither is when the values cannot be compared |
| Values.SameIsReflexive | backend/app/assurance/checks.py:325-328 | every value, however nested, equals itself |
| Values.ItemsAreMembers | backend/app/assurance/checks.py:337-345 | an item of a list passes "in" and fails "not_in" and "disjoint_from" against that list |
| Values.DisjointExcludesMembership | backend/app/assurance/checks.py:341-345 | two lists count as disjoint if and only if no left item is a member of the right list |
| Values.NumberOrder | backend/app/assurance/checks.py:325-336 | on numbers the five comparisons are <, <=, >, >= and == |
| Values.BoolsAreNumbers | backend/app/assurance/checks.py:325-336 | a bool compares as 0 or 1, on either side |
| Values.OnlyLikeIsOrdered | backend/app/assurance/checks.py:322-351 | values of different kinds cannot be ordered, nor can nulls or dicts |
| Values.TextOrder | backend/app/assurance/checks.py:325-336 | on texts: a proper prefix comes first, else the first different character decides |
| Values.ListOrder | backend/app/assurance/checks.py:325-336 | on lists: the first unequal items decide, else the lengths |
| Values.EqualityOfParts | backend/app/assurance/checks.py:325-328 | lists and dicts are equal item by item, and null equals only null |
| Values.DifferentKindsDiffer | backend/app/assurance/checks.py:325-328 | values of different kinds, bool and number apart, are unequal |
| Values.MembershipMeaning | backend/app/assurance/checks.py:337-340 | "in": an equal item of a list, a part of a text, a key of a dict |
| Values.TotalAgainstLimit | backend/app/assurance/checks.py:346-348 | the sum of no items is 0, one more item lowers what is left of the limit by itself, and what is no number cannot be summed |
| Values.PathsCompose | backend/app/assurance/checks.py:49-56 | a longer path is looked up from where its front leads |
| Values.OneSegment | backend/app/assurance/checks.py:49-56 | one segment leads to the entry of that key, and only in a dict that has it |
| ActionChecks.CheckSources | backend/app/assurance/checks.py:138-251 | the worst fault over all sources decides; it is a warning if and only if the worst faults are all known staleness the config tolerates |
| ActionChecks.CheckEntities | backend/app/assurance/checks.py:257-300 | an unresolved reference is reported before a mismatched state, and a pass means every reference resolves in the expected state |
| ActionChecks.JudgeConstraint | backend/app/assurance/checks.py:381-465 | one constraint raises a problem if and only if it applies and does not hold, with the rank and code of what is wrong |
| ActionChecks.CheckPolicy | backend/app/assurance/checks.py:354-479 | the most serious problem over all constraints decides; only soft breaches alone are a warning |
| ActionChecks.CheckConflicts | backend/app/assurance/checks.py:492-561 | duplicate work that still counts is reported before exhausted capacity, and a pass means neither exists |
| GateLaws.SourcesReported | backend/app/assurance/checks.py:138-251 | what CheckSources reports: a source of an unknown kind, else one without a usable timestamp, else one from the future or older than the limit of its own kind, each limit in its own unit |
| GateLaws.EntitiesMeaning | backend/app/assurance/checks.py:257-300 | what CheckEntities reports: a reference that is unknown, null, false or says it does not exist, else one whose state changed |
| GateLaws.PolicyReported | backend/app/assurance/checks.py:354-479 | what CheckPolicy reports: unsupported operator, missing policy pack, unmeetable constraint, missing field, breach, soft breach, the first of these that occurs; only the last is a warning |
| GateLaws.ConflictsMeaning | backend/app/assurance/checks.py:492-561 | what CheckConflicts reports: work of the same action, neither failed, rejected nor skipped, with a common target or unscoped, else a target whose capacity is unknown or exhausted |
| Prelude.Dedupe | backend/app/assurance/checks.py:68-77 | every item once, at its first place, nothing lost |
| Prelude.FirstOccurrencesIsASet | backend/app/assurance/checks.py:68-77 | the deduplicated list has the same members and no repeats |
| Aggregation.WorstIsWorst | backend/app/assurance/gate.py:202-207 | the report held for a name is one of its reports and none is more severe; there is one exactly when something was reported |
| Aggregation.FirstWorstIsKept | backend/app/assurance/gate.py:202-207 | of equally severe reports the first one is held |
| ActionGate.Ordered | backend/app/assurance/gate.py:196-209 | the dict pass yields the worst coerced report of each of the six checks, in order, a failure for an absent one |
| ActionGate.Aggregate | backend/app/assurance/gate.py:221-328 | the ordered rules: missing configuration and unknown action first, then decision, tier of record and blocking names |
| ActionGate.Decide | backend/app/assurance/gate.py:283-317 | rules two to five for every list of recorded checks |
| ActionGate.RefuseVacuous | backend/app/assurance/gate.py:349-386 | position by position, a passing evidence or policy check of a policy-bearing action with nothing to verify becomes a failure, and nothing else changes |
| ActionGate.RunChecks | backend/app/assurance/gate.py:444-463 | the six checks with the vacuity guard yield the six guarded verdicts on the inputs |
| ActionGate.Evaluate | backend/app/assurance/gate.py:389-484 | the result is the aggregation of the six guarded verdicts on the inputs, and without configuration no check is consulted |
| GateLaws.RecordIsTheWorstOfEachCheck | backend/app/assurance/gate.py:176-209 | always six checks in order; each is a coerced report of its name that no other exceeds, a failure if none, the rejection for an unknown action |
| GateLaws.FailsClosed | backend/app/assurance/gate.py:176-209 | without configuration, for an unknown action, with a check unreported, a report failed or a hard-fail code on any report, a human is needed, whatever else was reported |
| GateLaws.DecisionByState | backend/app/assurance/gate.py:280-317 | the decision depends only on the six recorded states and on whether high risk blocks: a human is needed exactly when something stops, execution is unflagged exactly when all pass |
| GateLaws.BlockingIffHumanNeeded | backend/app/assurance/gate.py:284-324 | a check is named as blocking if and only if a human is needed, unknown actions and missing configuration included |
| GateLaws.BlockingNamesTheCulprits | backend/app/assurance/gate.py:283-324 | the blocking list has no repeats, names every failure on the record, and otherwise only what stops the action or the blocking risk |
| GateLaws.GraverIsNeverMorePermissive | backend/app/assurance/gate.py:196-317 | reports that count every check at least as severely never lead to a more permissive decision |
| GateLaws.OrderOfReportsIsImmaterial | backend/app/assurance/gate.py:196-317 | when the risk reports agree on the tier, permuting the reports does not change the decision |
| GateLaws.OrderMattersExactly | backend/app/assurance/gate.py:202-207 | some other order of the reports leads to another decision if and only if nothing but the tier could stop the action and two equally grave risk reports disagree on whether it is high |
| GateLaws.DisagreeingTiersMakeOrderMatter | backend/app/assurance/gate.py:202-207 | two orders of the same reports, one executed, one sent to a human |
| GateLaws.RaisingASeverity | backend/app/assurance/gate.py:196-317 | making any one report more severe never makes the decision more permissive |
| GateLaws.AddingAReport | backend/app/assurance/gate.py:196-317 | one more report for a reported check never makes the decision more permissive |
| GateLaws.ExecutesExactly | backend/app/assurance/gate.py:389-484 | an action executes unflagged if and only if configuration exists, the action is known, every required fact is there, every source is of a known kind and fresh, every reference resolves, every applicable constraint holds, nothing conflicts, the vacuity guard is met and the tier does not block |
| GateLaws.FlagsExactly | backend/app/assurance/gate.py:389-484 | it executes flagged if and only if the same holds except for tolerated staleness or tolerated soft breaches, of which there is at least one |
| GateLaws.VacuousIsRefused | backend/app/assurance/gate.py:349-386 | an entitlement evaluated without required facts fails for a missing fact, without constraints for a breach, though the checks themselves would have passed |
| GateLaws.LimitIsEnforced | backend/app/assurance/checks.py:441-462 | an evaluation with a hard maximum in scope and a numeric field above it needs a human, whatever else is given |
| GateLaws.WithinLimitIsNoObstacle | backend/app/assurance/checks.py:441-462 | a maximum whose field is within it changes no decision |
| GateLaws.TierOfRecord | backend/app/assurance/gate.py:281-284 | the tier on the record of an evaluation is high without configuration, for an unknown action and for one the configuration does not list, the configured one else |
| Blocking.BlockingKinds | backend/app/assurance/blocking.py:78-90 | the kinds of the failures, and risk for any demand for approval, in fixed order |
| Blocking.KindsMeaning | backend/app/assurance/blocking.py:40-90 | a conflict is a failure for duplicate action, exhausted capacity or constraint breach, evidence any other failure but a demand for approval, risk a demand for approval whether failed or not; at most once each, in that order |
| Blocking.ApprovableMeansRiskOnly | backend/app/assurance/blocking.py:93-100 | approvable if and only if every failure is a demand for approval and some check makes one |
| Approval.ApprovalNeverCoversAFailure | backend/app/assurance/approval.py:110-138 | of gate results, an operator may approve exactly those that need a human for a known, configured, high-risk action with no failed check, warnings notwithstanding |
| Approval.AnswerMeaning | backend/app/assurance/approval.py:110-138 | which answer is given, read off the record: nothing to approve, a clash, missing evidence, or permitted, each if and only if |
| Approval.ActionApprovableExactly | backend/app/assurance/approval.py:110-138 | in terms of the inputs: approvable if and only if the action is known and high risk or unlisted, every fact, reference and source is usable or tolerably stale, nothing conflicts, at most soft constraints are breached, and high risk or an untolerated warning asks for a human |
| Approval.PlanApprovableExactly | backend/app/assurance/approval.py:141-167 | a plan is approvable if and only if configuration exists, all five judging checks pass and the aggregate is high risk |
| Approval.AuthorisedExactly | backend/app/assurance/plan_checks.py:58-94 | for tasks projected from gate results the authorisation check passes if and only if the plan is non-empty and every task is executable or approvable; and no such task failed any check |
| Approval.BlockedMeansFailed | backend/app/assurance/plan_contract.py:112-115 | a task projected from a gate result is blocked on evidence or conflict if and only if that result failed some check |
| Approval.DeskKeepsWhatApprovalCannotRelease | backend/app/assurance/approval.py:230-249 | after a plan approval every hard-blocked task that needs a human is still listed, and every high-risk one where high risk is always separate; and nothing is listed that needs none |
| Authorship.AuthorshipConstraints | backend/app/assurance/authorship.py:180-238 | constraints are added if and only if a model asserted a field reserved for every action or for this one, cited evidence outside the known set where corroboration is required, or the rules are unavailable; each is unsatisfiable |
| Authorship.RefusalIsFinal | backend/app/assurance/checks.py:388-398 | one such constraint and, whatever the other inputs, a human is needed, a failure is on the record and no operator may approve |
| Authorship.EvaluateProposal | backend/app/assurance/gate.py:389-484 | an overreaching model proposal always ends unapprovable with a human; without overreach the result is the one the deterministic author gets |
| ConflictLedger.CheckIsExact | backend/app/assurance/checks.py:492-561 | capacity permitting, the check passes a live action if and only if appending it leaves no two live entries of one action type overlapping or unscoped |
| ConflictLedger.StepKeeps | backend/app/assurance/checks.py:487-561 | appending through the check and moving entries that do not come back to life keep the ledger free of double commitments |
| ConflictLedger.NoRunCommitsTwice | backend/app/assurance/checks.py:487-561 | no run of such steps reaches a double commitment |
| ConflictLedger.RevivalIsSafeExactly | backend/app/assurance/checks.py:487-489 | finished work may come back to life without a double commitment if and only if the check against the other entries finds no duplicate |
| ConflictLedger.RevivalDoublesACommitment | backend/app/assurance/checks.py:487-489 | a run in which failed work is repeated, after which reviving it would commit twice |
| PlanIdentity.SortedAlike | backend/app/assurance/plan_contract.py:168-191 | two lists sort alike if and only if they are equal as multisets |
| PlanIdentity.IdentityIsShape | backend/app/assurance/plan_contract.py:168-191 | equal identity if and only if equal group and, task by task in order, equal id and action and multiset-equal targets and dependencies |
| PlanIdentity.ApprovalCoversOnlyWhatWasApproved | backend/app/assurance/approval.py:173-227 | a bound approval reaches a task only if the current plan has the approved shape, and never a high-risk or hard-blocked one under the default policy |
| PlanIdentity.ShapeChangesVoidTheApproval | backend/app/assurance/approval.py:187-196 | a bound plan approval is refused for its hash if and only if the shape changed |
| PlanIdentity.TwinsDifferExactly | backend/app/db/plan_identity.py:93-139 | over all approvals, tasks, hashes, policies and failed-check flags: exactly where the data layer covers what the gate's rule refuses, and exactly where the gate's rule covers what the data layer refuses |
| PlanIdentity.DataCoversAlone | backend/app/db/plan_identity.py:93-139 | an approval for low tiers that lists a medium task: the data layer covers it, the gate's rule does not |
| PlanIdentity.GateCoversAlone | backend/app/assurance/approval.py:197-201 | an approval that lists no task: the gate's rule covers every unblocked task of its tiers, the data layer none |
| PlanIdentity.TwinsAgreeExactly | backend/app/db/plan_identity.py:93-139 | on tasks projected from gate results, with the flag read off their records: the rules agree if and only if a check failed or none of those differences applies; under the default policy the data layer covers exactly what the gate's rule does for a non-empty hash and a non-empty list |
| StreamClient.InMemoryStreamClient.constructor | backend/app/events/inmemory.py:50-57 | a new client is valid and empty |
| StreamClient.InMemoryStreamClient.XAdd | backend/app/events/inmemory.py:74-78 | appends one entry under the next id and changes nothing else |
| StreamClient.InMemoryStreamClient.XGroupCreate | backend/app/events/inmemory.py:80-96 | raises if and only if the group exists, or the stream is missing and may not be made, and then changes nothing; else the new group starts at the tail or the head |
| StreamClient.InMemoryStreamClient.XReadGroup | backend/app/events/inmemory.py:98-120 | new contents, returned batches and whether it raises, for every list of streams and every count, the partial effect of a read that raises included |
| StreamClient.InMemoryStreamClient.DeliverNext | backend/app/events/inmemory.py:111-117 | one stream: the batch after the cursor, the cursor behind it, one pending entry for each delivered one |
| StreamClient.InMemoryStreamClient.MarkPending | backend/app/events/inmemory.py:114-117 | the inner loop: the batch becomes pending for the reader, cursor and other groups unchanged |
| StreamClient.InMemoryStreamClient.XAck | backend/app/events/inmemory.py:122-126 | removes the named pending entries and returns how many different ones there were |
| StreamClient.InMemoryStreamClient.XClaim | backend/app/events/inmemory.py:159-182 | takes over, in the order asked for, what has been idle long enough, stamps and counts it, and returns its payloads |
| StreamStore.AckRemovesNamed | backend/app/events/inmemory.py:122-126 | popping id by id leaves the pending entries that were not named |
| StreamStore.AckCountsPending | backend/app/events/inmemory.py:122-126 | the number of successful pops is the number of different named ids that were pending, repeats notwithstanding |
| StreamStore.BatchTakes | backend/app/events/inmemory.py:111-112 | how much a read takes for every count: all without a limit or with 0, at most a positive limit, and for a negative count what the slice bound leaves |
| StreamStore.CreatedExactly | backend/app/events/inmemory.py:80-96 | a group that is not there is created if and only if its stream exists or may be made; entries, other groups and other streams stay, and a group that is there stays as it is |
| StreamRuns.HandOutContents | backend/app/events/inmemory.py:114-117 | delivered entries, and only they, become pending for the reader, delivered once; the others stay as they are |
| StreamRuns.ClaimContents | backend/app/events/inmemory.py:169-182 | a claim changes no key, adds one delivery for each taking, stamps what it takes, and takes only what was idle long enough |
| StreamRuns.ClaimTakesExactly | backend/app/events/inmemory.py:171-182 | an id is taken if and only if it was asked for, is pending and has been idle long enough; what is not taken stays as it was |
| StreamRuns.ClaimChangesHands | backend/app/events/inmemory.py:171-179 | what a claim takes becomes the claiming consumer's, and nothing else changes hands |
| StreamRuns.AdvanceKeeps | backend/app/events/inmemory.py:74-182 | every command, a raising read included, keeps: ids unique across streams, cursors in range, and for each group delivered ids split disjointly into pending and acknowledged, each pending one delivered once more than claimed |
| StreamRuns.PlayKeeps | backend/app/events/inmemory.py:74-182 | over every run of commands, of any length and with any reads that raise, the same account is kept from whatever state it holds in |
| StreamRuns.EveryRunIsAccounted | backend/app/events/inmemory.py:74-182 | that account holds after every run of commands from an empty client; and for every group that no raising read stranded entries of, what the reads returned is its stream from start to cursor, in order, whatever happened to other groups and streams |
| StreamRuns.StreamsAreAppendOnly | backend/app/events/inmemory.py:74-78 | over every run a stream only grows at its end |
| StreamRuns.AckedIsNeverHandedAgain | backend/app/events/inmemory.py:98-182 | once acknowledged in a group, an entry is never delivered or claimed there again, after any further run |
| StreamRuns.OneWinnerPerIdleWindow | backend/app/events/inmemory.py:159-182 | after a claim takes an entry, and whatever happens in between, no claim takes it before it has been idle for that claim's minimum |
| StreamRuns.TakenEntriesAreReturned | backend/app/events/inmemory.py:171-182 | in every reachable state each pending id has its entry in the stream, so a claim returns all it takes |
| StreamRuns.DeliveredCanBeClaimed | backend/app/events/inmemory.py:159-182 | in every state a run keeps, an entry delivered in a group and not acknowledged there is pending, and a claim takes and returns it once it has been idle long enough |
| StreamRuns.OtherGroupsUntouched | backend/app/events/inmemory.py:80-182 | a command leaves every group it is not addressed to as it was |
| StreamRuns.NewGroupSees | backend/app/events/inmemory.py:94-96 | a new group reads all its stream already held when it starts at the head, and none of it when it starts at the tail |
| StreamRuns.AddReadAckRoundTrip | backend/app/events/inmemory.py:74-126 | adding, reading and acknowledging an entry returns exactly that entry and leaves the group as it was, one entry further on |
| StreamRuns.ReadRaisesExactly | backend/app/events/inmemory.py:107-110 | a read raises if and only if the group is missing on one of its streams |
| StreamRuns.ReadStopsAtMissing | backend/app/events/inmemory.py:107-110 | a raising read has done exactly what reading the streams before the first missing group does |
| StreamRuns.ReadMovesExactly | backend/app/events/inmemory.py:107-119 | a read that does not raise moves a group if and only if it lists its stream and the group had something to read there; otherwise the group is unchanged |
| StreamRuns.StrandsExactly | backend/app/events/inmemory.py:107-119 | for every list of streams: a read raises after handing out a stream's entries if and only if the group is missing on some stream, the stream comes before the first such, and it has something to read |
| StreamRuns.ReadStrandsExactly | backend/app/events/inmemory.py:107-119 | a read strands something if and only if some stream lacks the group, all earlier ones have it, and one of those has something to read |
| StreamRuns.StrandedArePending | backend/app/events/inmemory.py:111-117 | what is stranded is pending for the consumer that never received it |
| StreamRuns.LostExactly | backend/app/events/inmemory.py:98-120 | in every state a run keeps, a command adds to the groups that lost entries exactly those whose entries a raising read strands |
| StreamRuns.RaisingReadStrandsEntries | backend/app/events/inmemory.py:107-117 | concretely, for two streams: a raising read has advanced the earlier one and left its batch pending although nothing was returned |
| AdvisoryLocks.SortedKeys | backend/app/api/scenarios.py:91 | the deduplicated keys in strictly ascending order |
| AdvisoryLocks.StepKeeps | backend/app/api/scenarios.py:95-116 | every step, cancellation while acquiring and a connection lost while releasing included, keeps: a key is owned by exactly the request that took it and has not given it back |
| AdvisoryLocks.MutualExclusion | backend/app/api/scenarios.py:79-116 | two requests that need a common key are never inside together |
| AdvisoryLocks.FinishedHoldsNothing | backend/app/api/scenarios.py:101-116 | however a request ended, it left no lock behind |
| AdvisoryLocks.SomeoneCanMove | backend/app/api/scenarios.py:91-100 | whenever some request is unfinished, some request can take its next forward step |
| AdvisoryLocks.StepDoesWork | backend/app/api/scenarios.py:91-116 | every step brings its request nearer to its end and moves no other |
| ScenarioLifecycle.RecordedCreate | backend/app/api/scenarios.py:145-170 | the first creation recorded under the key that is for another payload or has a stored result decides: refused in the one case, replayed in the other; nothing if there is none |
| ScenarioLifecycle.StepKeeps | backend/app/api/scenarios.py:391-575 | every step of every request and of other workflows keeps the invariant of log, locks and requests |
| ScenarioLifecycle.ReachableIsOk | backend/app/api/scenarios.py:391-575 | the invariant holds in every reachable state, for any lock-key function |
| ScenarioLifecycle.OneScenarioPerKey | backend/app/api/scenarios.py:145-170 | in every reachable state all requests under one key that were answered or committed sent the same payload and have the same scenario, and one of them created it |
| ScenarioLifecycle.ReuseWritesNothing | backend/app/api/scenarios.py:160-170 | a create request that is over wrote nothing if and only if it did not commit, so a refused or replayed one wrote nothing; a refusal means the key was recorded for another payload |
| ScenarioLifecycle.RetryIsAnswered | backend/app/api/scenarios.py:402-405 | in every reachable state a request with the key and payload of a committed one, its answer lost or not, gets that scenario in its first step and writes nothing |
| ScenarioLifecycle.OneStartPerScenario | backend/app/api/scenarios.py:500-575 | in every reachable state all starts of a scenario that were answered or went through have the one recorded result; its incidents are the group's own, for declared members only and at least one for each; its actor is the recorded requester |
| ScenarioLifecycle.OpenedIdsExactly | backend/app/orchestrator/group.py:156-159 | in every reachable state, what a start lists as opened are members, among them all incidents it created, and none that another request created |
| ScenarioLifecycle.OneMoreOpening | backend/app/orchestrator/group.py:183-225 | one row of the membership query: its incident is taken and not listed as opened, or one is opened or found and listed; a listed one is new if and only if the flight had no active incident |
| ScenarioLifecycle.OpeningIsActive | backend/app/orchestrator/engine.py:298-335 | whether opened or found, the incident taken for a member is an active one of its flight |
| ScenarioLifecycle.RowsExist | backend/app/db/scenario_queries.py:462-483 | the membership query has rows for every state: one for each incident of the group for a member, and one for each member without any |
| ScenarioLifecycle.OverlappingStartsExclude | backend/app/api/scenarios.py:507-513 | two starts that share the scenario or a member flight are never inside together |
| ScenarioLifecycle.NoDeadlock | backend/app/api/scenarios.py:79-121 | in every reachable state with an unfinished request some request can move forward, without anything failing |
| ScenarioLifecycle.RequestsEnd | backend/app/api/scenarios.py:391-575 | every step a request takes leaves it less to do in a well-founded order, and no step of others leaves it more |
| ScenarioLifecycle.EndedRequestsHoldNothing | backend/app/api/scenarios.py:101-116 | a request that ended has an outcome and holds no lock |
| ScenarioHistory.SnapshotBehind | backend/app/orchestrator/group.py:161-213 | behind every start past its membership query there is the turn that took it, and the start lists an incident for each of its rows, in order |
| ScenarioHistory.RowsDoubleExactly | backend/app/db/scenario_queries.py:462-483 | two rows share a flight if and only if two incidents of the group are for that member |
| ScenarioHistory.OneEntryPerMemberExactly | backend/app/orchestrator/group.py:161-213 | a start that went through lists no flight twice, hence one incident for each member, if and only if at its membership query no member flight had two incidents in the group |
| ScenarioHistory.TwoIncidentsOfOneFlight | backend/app/orchestrator/group.py:183-213 | a run of another workflow's steps and a start's turns, all enabled, after which the start is about to record two incidents of its one member |
| ScenarioHistory.ListsCreatedExactly | backend/app/orchestrator/group.py:156-159 | a start that went through lists as opened exactly what it created, if and only if at no turn of its run a member shown without an incident had an active one |
| ScenarioHistory.ReusedIncidentIsListed | backend/app/orchestrator/group.py:215-225 | a run in which another workflow opens the incident after the membership query: the start lists it as opened |
| ScenarioHistory.CommitTells | backend/app/api/scenarios.py:484 | a create request counts as committed if and only if its run has the turn of its commit |
| ScenarioHistory.WroteExactlyIfCommitted | backend/app/api/scenarios.py:397-494 | a create request that is over, answered, refused or failed, wrote something if and only if its commit came before its end |
| ScenarioHistory.AnswerCanBeLost | backend/app/api/scenarios.py:107-116 | an unlock that raises after the commit: the request fails with its scenario on record |
| ScenarioStarts.HeldFlightRefuses | backend/app/api/scenarios.py:290-317 | in every run: if at a start's check turn an active incident of a member flight belongs to another group or to none, the start ends refused, with nothing recorded and nothing opened, whatever comes later |
| ScenarioStarts.ConflictExactly | backend/app/api/scenarios.py:290-336 | in every run: a start ends in a conflict if and only if that was so at its check turn, or an incident it lists was foreign at its ownership turn, and no error while its locks were given back replaced the refusal |
| ScenarioStarts.CheckedFirst | backend/app/api/scenarios.py:518 | a start that went through, or recorded or opened anything, had its check turn before, and then no active incident of a member flight was foreign |
| ScenarioStarts.UnopposedStartGoesThrough | backend/app/api/scenarios.py:500-575 | from every reachable state in which a start is about to begin, its scenario was not started and has members, and no active incident of a member flight is foreign, the turns of its own body lead to the start, with the group's own incidents for all members, an active one for each member that had none |
| ScenarioStarts.OneActivePerFlight | backend/app/models/workflow.py:150-156 | in every reachable state a flight has at most one active incident, whoever opened it |
| ScenarioStarts.RestartIsAnswered | backend/app/api/scenarios.py:514-516 | in every reachable state a start of a started scenario gets the recorded result in its first turn and writes nothing |
| ScenarioStarts.ReuseIsRefused | backend/app/api/scenarios.py:160-167 | in every reachable state a request with the key of a committed one and another payload is refused in its first turn and writes nothing |
| ScenarioStarts.NewKeyCreates | backend/app/api/scenarios.py:397-494 | from every reachable state in which a creation with an unused key is about to begin, three turns of its own body create a new group of exactly the declared flights and record it |
| ProposalReflection.Reflect | backend/app/agents/reflection.py:80-178 | surviving tasks, findings and rejection for every proposal, and that it raises exactly when a task would be kept with a blank allowed target |
| ProposalReflection.Reflection.constructor | backend/app/agents/reflection.py:46-54 | an outcome starts empty and not rejected |
| ProposalReflection.Reflection.FirstPass | backend/app/agents/reflection.py:93-142 | the tasks kept and the findings of the first pass |
| ProposalReflection.Reflection.SecondPass | backend/app/agents/reflection.py:144-170 | every kept task's dependencies are overwritten with those that survive, everything dropped is a finding |
| ProposalReflection.Reflection.Relink | backend/app/agents/reflection.py:146-170 | the same for one task, the others unchanged |
| ProposalReflection.KeepsFirstValidInOrder | backend/app/agents/reflection.py:93-142 | exactly the first valid proposal of each action is kept, in proposal order |
| ProposalReflection.NothingIsDroppedSilently | backend/app/agents/reflection.py:93-142 | the number of proposed tasks is the number kept plus the first-pass findings |
| ProposalReflection.SurvivingEdges | backend/app/agents/reflection.py:144-170 | surviving dependencies name other surviving actions and were proposed |
| ProposalReflection.AcyclicStaysAcyclic | backend/app/agents/reflection.py:80-178 | every cycle of the result was in the proposal, without a self-dependency in it |
| ProposalReflection.CyclesSurviveExactly | backend/app/agents/reflection.py:144-170 | a walk is a cycle of the result if and only if it is one over the first valid proposals, with no self-dependency as a step |
| ProposalReflection.LongerCyclesSurvive | backend/app/agents/reflection.py:147-170 | two tasks that depend on each other both survive |
| ProposalReflection.ReflectionIsIdempotent | backend/app/agents/reflection.py:80-178 | reflecting a surviving plan changes nothing and finds nothing |
| ReflectionMeaning.SurvivorsExactly | backend/app/agents/reflection.py:93-170 | the surviving plan position by position: a proposal is kept if and only if its action is available, all its targets are allowed and no earlier one of that action has only allowed targets; it keeps its inputs, gets the allowed targets, and depends on what it named among the survivors, itself apart |
| ReflectionMeaning.NothingInventedSurvives | backend/app/agents/reflection.py:117-128 | an action survives if and only if it is available and some proposal of it has only allowed targets |
| ReflectionMeaning.OneMoreProposal | backend/app/agents/reflection.py:93-142 | what one more proposal adds: one finding, for no service, else duplicate, else invented target, or the task itself |
| ReflectionMeaning.CleanRetryIsKept | backend/app/agents/reflection.py:117-130 | a proposal with an invented target gets exactly that finding, and the next clean proposal of its action is kept |
| ReflectionMeaning.OneMoreDependency | backend/app/agents/reflection.py:146-170 | what one more dependency adds: a finding for a self-dependency, else one for an action that did not survive, or the dependency itself |
| ReflectionMeaning.DependenciesKeepTheirOrder | backend/app/agents/reflection.py:144-170 | exactly the dependencies on other survivors stay, in their order and as often as listed, and each other has one finding |
| ReflectionMeaning.NoEdgeIsDroppedSilently | backend/app/agents/reflection.py:144-170 | over all kept tasks, the dependencies that stay and the findings add up to those proposed |
| ReflectionMeaning.RejectedExactly | backend/app/agents/reflection.py:172-178 | nothing survives, and the plan is rejected with that finding, if and only if every proposal of an available action names a target that is not allowed |
| CascadeRollup.RollUp | backend/app/db/scenario_queries.py:697-747 | both loops together compute the fold of the recorded payloads |
| CascadeRollup.UnionBookings | backend/app/db/scenario_queries.py:697-705 | the loop collects exactly the bookings that occur in some payload |
| CascadeRollup.BestImpacts | backend/app/db/scenario_queries.py:707-731 | the nested loops hold one impact for each pairing at risk |
| CascadeRollup.TakeImpacts | backend/app/db/scenario_queries.py:712-731 | the inner loop continues from what is held |
| CascadeRollup.FoldIsAHomomorphism | backend/app/db/scenario_queries.py:697-747 | rolling up two batches together is rolling up each and merging |
| CascadeRollup.BestIsLeast | backend/app/db/scenario_queries.py:727-731 | a pairing is listed if and only if some impact puts it at risk, under an impact no other for it precedes |
| CascadeRollup.HeldIsNotOutranked | backend/app/db/scenario_queries.py:567-575 | positioning outranks onward duty, that second pairing, that operating, that a downstream flight, and each of these what is not listed: no recorded impact outranks the one held, and one that outranks all others is held |
| CascadeRollup.RecordingAgainChangesNothing | backend/app/db/scenario_queries.py:697-747 | recording an assessment again changes no figure |
| CascadeRollup.MechanismIgnoresOrder | backend/app/db/scenario_queries.py:567-575 | with the listed mechanisms the order of recording does not matter |
| CascadeRollup.FoldIgnoresOrder | backend/app/db/scenario_queries.py:697-747 | permuting the recorded payloads changes no booking, pairing or assessed count, and with the listed mechanisms no pairing's mechanism |
| CascadeRollup.MechanismDependsOnOrderExactly | backend/app/db/scenario_queries.py:727-731 | the order can change a pairing's mechanism if and only if two of its impacts of least precedence name different ones, which takes two unlisted mechanisms |
| CascadeRollup.UnlistedMechanismsDependOnOrder | backend/app/db/scenario_queries.py:728-730 | two orders of the same two impacts with different results |
| CascadeRollup.UnionAtMostSum | backend/app/db/scenario_queries.py:651-652 | the union of bookings never counts more than the sum of the incidents' counts |
| CascadeRollup.CompleteMeansEveryIncidentAssessed | backend/app/db/scenario_queries.py:549-556 | comparing counts says: there are incidents, each was assessed both ways, and every declared flight has one |
| LegWalk.WaveAdvances | backend/app/db/scenario_queries.py:350-357 | each round of the recursive query leaves the earliest legs behind, so it ends |
| LegWalk.RowMeaning | backend/app/db/scenario_queries.py:344-357 | a row is produced if and only if a leg of the starting set leads to it over consecutive orders in that many steps |
| LegWalk.ReachesAffectedPairings | backend/app/db/scenario_queries.py:258-272 | the query reports exactly the pairings with a leg on an affected flight, the ones the loader selects |
| LegWalk.CountLegsFrom | backend/app/db/scenario_queries.py:359-362 | a pairing numbered 1 to n has n - m + 1 legs of order m or more |
| LegWalk.ClosedForm | backend/app/db/scenario_queries.py:358-366 | for a pairing numbered 1 to n, first touched at m, n - m + 1 legs are reached and the forward depth is n - m |

## Left out

- Routing, sessions, response models, logging, configuration files and their digests: parsed data and rows are
  given as values.
- LLM agents, providers, prompts and the frontend: network calls, text and display.
- Reasons, evidence reference lists and the version and hash stamped on results: states, codes, kinds, tiers
  and blocking names are kept.
- `GateInputs.from_task`, which sorts a task's inputs into fields and payload, and the older key names of
  ledger entries and constraints: the model starts from the fields as resolved.
- Values outside JSON (tuples, sets, timestamps in payloads), float rounding, NaN, and texts that are equal
  only after Unicode normalisation.
- The wording order of problems inside one check: it reaches free text only.
- The interpreter's recursion limit, which a dependency chain of about a thousand tasks would meet in the
  cycle search.
- StreamClient.InMemoryStreamClient: groups and pending entries are map values rather than shared objects, so
  aliasing of a group object is not captured; the blocking timeout of a read, and `xpending_range`, `xrange`,
  `exists`, `set` and the dead-letter helpers are not modelled.
- AdvisoryLocks.StepKeeps: a lock connection lost while a body runs is no step of the machine. The database
  then frees the keys under the running body, and the exclusion proved here, of bodies and of what they write,
  is not promised from then on; the source notices only when it releases.
- Locks on other databases than PostgreSQL, where the source takes none: the machine always locks.
- ScenarioLifecycle.OneStartPerScenario: does not promise exactly one incident for each member, because the
  source lists every incident of the group; `OneEntryPerMemberExactly` says when it is one.
- A recorded start without a stored result, which the source takes for none: every start here records one.
- Fields of scenarios, groups and responses that no rule of the lifecycle reads; a start records its members'
  incidents in one list.
- A start of an unknown scenario: it ends before any lock, and leaves no trace in the machine.
- CascadeRollup.RollUp: passenger, hotel and flight counts, which are single queries, and the sorting of
  lists.
- LegWalk.ClosedForm: rows are a set, as the counts are over distinct legs and a maximum.
- Routing of candidates, what-if comparison, seeding and reset, and the policy mirror: conjunctions over data
  with no state of their own.
