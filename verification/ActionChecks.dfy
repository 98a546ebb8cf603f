/** The six action checks. Each that accumulates in a loop is a method, tied to a declarative
    verdict over the same inputs. */
module ActionChecks {
  import opened Prelude
  import opened Aggregation
  import opened Values
  import opened ActionContract

  function PassedCheck(name: CheckName): CheckResult { Report(name, Passed, Ok, None) }

  function FailedCheck(name: CheckName, code: ReasonCode): CheckResult { Report(name, Failed, code, None) }

  // ---------------------------------------------------------------- 1. evidence

  predicate FactsPresent(required: seq<Path>, facts: Value) {
    forall path :: path in required ==> !Absent(Resolve(facts, path))
  }

  function EvidenceVerdict(required: seq<Path>, facts: Value): CheckResult {
    if FactsPresent(required, facts) then PassedCheck(EvidenceComplete)
    else FailedCheck(EvidenceComplete, MissingRequiredFact)
  }

  // ---------------------------------------------------------------- 2. freshness

  /** Maximum age in seconds for a source kind; None for a kind without a configured limit. */
  function LimitSeconds(kind: SourceKind, limits: FreshnessLimits): Option<int> {
    match kind
    case Metar => Some(limits.metarMinutes * 60)
    case Taf => Some(limits.tafMinutes * 60)
    case FlightStatus => Some(limits.flightStatusMinutes * 60)
    case PolicyPack => Some(limits.policyPackDays * 1440 * 60)
    case OtherKind(_) => None
  }

  datatype SourceFault = NoFault | Stale | FutureDated | NoTimestamp | NoLimit

  function FaultOf(key: SourceKey, stamp: Option<Stamp>, now: Stamp, limits: FreshnessLimits): SourceFault {
    match LimitSeconds(key.kind, limits)
    case None => NoLimit
    case Some(limit) =>
      if stamp.None? || !stamp.value.aware then NoTimestamp
      else
        var age := now.seconds - stamp.value.seconds;
        if age < 0 then FutureDated else if age > limit then Stale else NoFault
  }

  function SourceRank(fault: SourceFault): nat {
    match fault
    case NoFault => 0
    case Stale => 1
    case FutureDated => 1
    case NoTimestamp => 2
    case NoLimit => 3
  }

  function SourceCode(rank: nat): ReasonCode {
    if rank == 3 then ConfigMissing else if rank == 2 then SourceMissingTimestamp else SourceStale
  }

  ghost predicate SomeSource(sources: map<SourceKey, Option<Stamp>>, now: Stamp, limits: FreshnessLimits, rank: nat) {
    exists key :: key in sources && SourceRank(FaultOf(key, sources[key], now, limits)) == rank
  }

  ghost predicate SomeFutureDated(sources: map<SourceKey, Option<Stamp>>, now: Stamp, limits: FreshnessLimits) {
    exists key :: key in sources && FaultOf(key, sources[key], now, limits) == FutureDated
  }

  /** The worst fault decides; only known staleness, and nothing else at that rank, may be tolerated. */
  ghost function SourcesVerdict(
    sources: map<SourceKey, Option<Stamp>>, now: Stamp, config: AssuranceConfig, action: ActionName): CheckResult
  {
    if SomeSource(sources, now, config.freshness, 3) then FailedCheck(SourcesFresh, ConfigMissing)
    else if SomeSource(sources, now, config.freshness, 2) then FailedCheck(SourcesFresh, SourceMissingTimestamp)
    else if SomeSource(sources, now, config.freshness, 1) then
      if !SomeFutureDated(sources, now, config.freshness) && config.WarnPermitted(action, SourcesFresh)
      then Report(SourcesFresh, Warn, SourceStale, None)
      else FailedCheck(SourcesFresh, SourceStale)
    else PassedCheck(SourcesFresh)
  }

  datatype SourceProblem = SourceProblem(rank: nat, code: ReasonCode, downgradable: bool)

  /** sources_fresh. The source reads its dict in key order; no order matters to the verdict. */
  method CheckSources(sources: map<SourceKey, Option<Stamp>>, now: Stamp, config: AssuranceConfig, action: ActionName)
    returns (r: CheckResult)
    ensures r == SourcesVerdict(sources, now, config, action)
  {
    var problems: seq<SourceProblem> := [];
    var left := sources.Keys;
    while left != {}
      invariant left <= sources.Keys
      invariant forall p :: p in problems <==>
        exists key :: key in sources.Keys - left && ProblemFor(key, sources[key], now, config.freshness) == Some(p)
    {
      var key :| key in left;
      ghost var before := problems;
      var problem := ProblemFor(key, sources[key], now, config.freshness);
      if problem.Some? {
        problems := problems + [problem.value];
        assert problem.value in problems;
      }
      left := left - {key};
    }
    forall key | key in sources
      ensures var p := ProblemFor(key, sources[key], now, config.freshness); p.None? || p.value in problems
    {
    }
    if problems == [] {
      return PassedCheck(SourcesFresh);
    }
    var worstRank := problems[0].rank;
    for i := 1 to |problems|
      invariant forall j :: 0 <= j < i ==> problems[j].rank <= worstRank
      invariant exists j :: 0 <= j < i && problems[j].rank == worstRank
    {
      if problems[i].rank > worstRank {
        worstRank := problems[i].rank;
      }
    }
    var downgradable := forall p :: p in problems && p.rank == worstRank ==> p.downgradable;
    var state := if downgradable && config.WarnPermitted(action, SourcesFresh) then Warn else Failed;
    RanksAreFaults(sources, now, config.freshness, problems, worstRank);
    return Report(SourcesFresh, state, SourceCode(worstRank), None);
  }

  function ProblemFor(key: SourceKey, stamp: Option<Stamp>, now: Stamp, limits: FreshnessLimits): Option<SourceProblem> {
    var fault := FaultOf(key, stamp, now, limits);
    if fault == NoFault then None
    else Some(SourceProblem(SourceRank(fault), SourceCode(SourceRank(fault)), fault == Stale))
  }

  lemma RanksAreFaults(
    sources: map<SourceKey, Option<Stamp>>, now: Stamp, limits: FreshnessLimits, problems: seq<SourceProblem>, worst: nat)
    requires forall p :: p in problems <==>
               exists key :: key in sources && ProblemFor(key, sources[key], now, limits) == Some(p)
    requires exists p :: p in problems && p.rank == worst
    requires forall p :: p in problems ==> p.rank <= worst
    ensures 1 <= worst <= 3 && SomeSource(sources, now, limits, worst)
    ensures forall rank :: worst < rank <= 3 ==> !SomeSource(sources, now, limits, rank)
    ensures (forall p :: p in problems && p.rank == worst ==> p.downgradable) <==>
              worst == 1 && !SomeFutureDated(sources, now, limits)
  {
    forall key | key in sources
      ensures SourceRank(FaultOf(key, sources[key], now, limits)) <= worst
      ensures FaultOf(key, sources[key], now, limits) == FutureDated ==> SourceProblem(1, SourceStale, false) in problems
    {
      var p := ProblemFor(key, sources[key], now, limits);
      if p.Some? { assert p.value in problems; }
    }
    var p :| p in problems && p.rank == worst;
    var key :| key in sources && ProblemFor(key, sources[key], now, limits) == Some(p);
    assert SourceRank(FaultOf(key, sources[key], now, limits)) == worst;
  }

  // ---------------------------------------------------------------- 3. entities

  predicate NotFound(ref: string, resolved: map<string, Value>) {
    || ref !in resolved
    || resolved[ref] == Null
    || resolved[ref] == Bool(false)
    || (resolved[ref].Dict? && "exists" in resolved[ref].entries && resolved[ref].entries["exists"] == Bool(false))
  }

  predicate Mismatched(ref: string, resolved: map<string, Value>) {
    && !NotFound(ref, resolved)
    && resolved[ref].Dict?
    && "state_matches" in resolved[ref].entries
    && resolved[ref].entries["state_matches"] == Bool(false)
  }

  function EntitiesVerdict(refs: seq<string>, resolved: map<string, Value>): CheckResult {
    if exists ref :: ref in refs && NotFound(ref, resolved) then FailedCheck(EntitiesValid, EntityNotFound)
    else if exists ref :: ref in refs && Mismatched(ref, resolved) then FailedCheck(EntitiesValid, EntityStateMismatch)
    else PassedCheck(EntitiesValid)
  }

  /** entities_valid */
  method CheckEntities(refs: seq<string>, resolved: map<string, Value>) returns (r: CheckResult)
    ensures r == EntitiesVerdict(refs, resolved)
  {
    var notFound: seq<string> := [];
    var mismatched: seq<string> := [];
    for i := 0 to |refs|
      invariant notFound == [] <==> forall j :: 0 <= j < i ==> !NotFound(refs[j], resolved)
      invariant mismatched == [] <==> forall j :: 0 <= j < i ==> !Mismatched(refs[j], resolved)
    {
      var ref := refs[i];
      if ref !in resolved || resolved[ref] == Null || resolved[ref] == Bool(false) {
        notFound := notFound + [ref];
      } else if resolved[ref].Dict? {
        var entries := resolved[ref].entries;
        if "exists" in entries && entries["exists"] == Bool(false) {
          notFound := notFound + [ref];
        } else if "state_matches" in entries && entries["state_matches"] == Bool(false) {
          mismatched := mismatched + [ref];
        }
      }
    }
    if notFound != [] {
      return FailedCheck(EntitiesValid, EntityNotFound);
    }
    if mismatched != [] {
      return FailedCheck(EntitiesValid, EntityStateMismatch);
    }
    return PassedCheck(EntitiesValid);
  }

  // ---------------------------------------------------------------- 4. policy

  const RANK_SOFT_BREACH := 1
  const RANK_BREACH := 2
  const RANK_MISSING_FACT := 3
  const RANK_UNSATISFIABLE := 4
  const RANK_PACK_UNAVAILABLE := 5
  const RANK_UNKNOWN_OPERATOR := 6

  predicate Applies(c: Constraint, action: ActionName) {
    c.appliesTo.None? || action in c.appliesTo.value
  }

  /** What the payload must satisfy for a constraint to raise no problem. */
  predicate Holds(c: Constraint, payload: Value) {
    && !c.unsatisfiable && !c.packUnavailable
    && !c.op.Unsupported?
    && var actual := Resolve(payload, c.field);
       if c.op == Required then !Absent(actual)
       else if c.op == Forbidden then Absent(actual)
       else !Absent(actual) && Compare(c.op, actual.value, c.expected) == Some(true)
  }

  /** How serious the problem raised by one constraint is; 0 for none. */
  function PolicyRank(c: Constraint, action: ActionName, payload: Value): nat {
    if !Applies(c, action) || Holds(c, payload) then 0
    else if c.unsatisfiable then RANK_UNSATISFIABLE
    else if c.packUnavailable then RANK_PACK_UNAVAILABLE
    else if c.op.Unsupported? then RANK_UNKNOWN_OPERATOR
    else if c.op != Forbidden && Absent(Resolve(payload, c.field)) then RANK_MISSING_FACT
    else if c.soft then RANK_SOFT_BREACH
    else RANK_BREACH
  }

  function PolicyCode(rank: nat): ReasonCode {
    if rank == RANK_UNKNOWN_OPERATOR then UnknownRuleOperator
    else if rank == RANK_PACK_UNAVAILABLE then PolicyPackUnavailable
    else if rank == RANK_MISSING_FACT then MissingRequiredFact
    else PolicyConstraintBreach
  }

  function WorstPolicyRank(constraints: seq<Constraint>, action: ActionName, payload: Value): nat {
    if constraints == [] then 0
    else
      var last := PolicyRank(constraints[|constraints| - 1], action, payload);
      var front := WorstPolicyRank(constraints[..|constraints| - 1], action, payload);
      if last > front then last else front
  }

  lemma {:induction false} WorstPolicyRankIsWorst(constraints: seq<Constraint>, action: ActionName, payload: Value)
    ensures forall c :: c in constraints ==> PolicyRank(c, action, payload) <= WorstPolicyRank(constraints, action, payload)
    ensures WorstPolicyRank(constraints, action, payload) == 0 ||
            exists c :: c in constraints && PolicyRank(c, action, payload) == WorstPolicyRank(constraints, action, payload)
  {
    if constraints != [] {
      var front, last := constraints[..|constraints| - 1], constraints[|constraints| - 1];
      WorstPolicyRankIsWorst(front, action, payload);
      assert constraints == front + [last];
      assert last in constraints;
    }
  }

  function PolicyVerdict(action: ActionName, payload: Value, constraints: seq<Constraint>): CheckResult {
    var worst := WorstPolicyRank(constraints, action, payload);
    if worst == 0 then PassedCheck(PolicyCompliant)
    else Report(PolicyCompliant, if worst == RANK_SOFT_BREACH then Warn else Failed, PolicyCode(worst), None)
  }

  datatype PolicyProblem = PolicyProblem(rank: nat, code: ReasonCode)

  /** policy_compliant */
  method CheckPolicy(action: ActionName, payload: Value, constraints: seq<Constraint>) returns (r: CheckResult)
    ensures r == PolicyVerdict(action, payload, constraints)
  {
    var problems: seq<PolicyProblem> := [];
    for i := 0 to |constraints|
      invariant forall p :: p in problems ==> p.code == PolicyCode(p.rank) && p.rank > 0
      invariant WorstProblem(problems) == WorstPolicyRank(constraints[..i], action, payload)
    {
      assert constraints[..i + 1][..i] == constraints[..i];
      var problem := JudgeConstraint(constraints[i], action, payload);
      if problem.Some? {
        assert (problems + [problem.value])[..|problems|] == problems;
        problems := problems + [problem.value];
      }
    }
    assert constraints[..|constraints|] == constraints;
    if problems == [] {
      return PassedCheck(PolicyCompliant);
    }
    var worstRank := problems[0].rank;
    assert problems[..1] == [problems[0]];
    for i := 1 to |problems|
      invariant worstRank == WorstProblem(problems[..i])
    {
      assert problems[..i + 1][..i] == problems[..i];
      if problems[i].rank > worstRank {
        worstRank := problems[i].rank;
      }
    }
    assert problems[..|problems|] == problems;
    WorstProblemIsPositive(problems);
    var state := if worstRank == RANK_SOFT_BREACH then Warn else Failed;
    return Report(PolicyCompliant, state, PolicyCode(worstRank), None);
  }

  ghost function WorstProblem(problems: seq<PolicyProblem>): nat {
    if problems == [] then 0
    else
      var last := problems[|problems| - 1].rank;
      var front := WorstProblem(problems[..|problems| - 1]);
      if last > front then last else front
  }

  lemma WorstProblemIsPositive(problems: seq<PolicyProblem>)
    requires problems != [] && forall p :: p in problems ==> p.rank > 0
    ensures WorstProblem(problems) > 0
  {
    assert problems[|problems| - 1] in problems;
  }

  /** The loop body of policy_compliant: its branches in the source's order. */
  method JudgeConstraint(c: Constraint, action: ActionName, payload: Value) returns (problem: Option<PolicyProblem>)
    ensures problem.None? <==> PolicyRank(c, action, payload) == 0
    ensures problem.Some? ==> problem.value.rank == PolicyRank(c, action, payload)
                              && problem.value.code == PolicyCode(problem.value.rank)
  {
    if c.appliesTo.Some? && action !in c.appliesTo.value {
      return None;
    }
    if c.unsatisfiable {
      return Some(PolicyProblem(RANK_UNSATISFIABLE, PolicyConstraintBreach));
    }
    if c.packUnavailable {
      return Some(PolicyProblem(RANK_PACK_UNAVAILABLE, PolicyPackUnavailable));
    }
    if c.op.Unsupported? {
      return Some(PolicyProblem(RANK_UNKNOWN_OPERATOR, UnknownRuleOperator));
    }
    var actual := Lookup(payload, c.field);
    var rank := if c.soft then RANK_SOFT_BREACH else RANK_BREACH;
    if c.op == Required {
      return if Absent(actual) then Some(PolicyProblem(RANK_MISSING_FACT, MissingRequiredFact)) else None;
    }
    if c.op == Forbidden {
      return if Absent(actual) then None else Some(PolicyProblem(rank, PolicyConstraintBreach));
    }
    if Absent(actual) {
      return Some(PolicyProblem(RANK_MISSING_FACT, MissingRequiredFact));
    }
    var outcome := Compare(c.op, actual.value, c.expected);
    if outcome.None? || !outcome.value {
      return Some(PolicyProblem(rank, PolicyConstraintBreach));
    }
    return None;
  }

  // ---------------------------------------------------------------- 5. conflicts

  /** A prior attempt in one of these states does not block a fresh one; any other state does. */
  predicate NonBlocking(state: TaskState) { state == FailedTask || state == RejectedTask || state == SkippedTask }

  /** Prior work of the same action type that still counts: overlapping, or unscoped on either side. */
  predicate Duplicates(entry: LedgerEntry, action: ActionName, targets: seq<string>) {
    && entry.Work? && entry.action == Some(action) && !NonBlocking(entry.state)
    && (entry.targets == [] || targets == [] || exists ref :: ref in targets && ref in entry.targets)
  }

  predicate Exhausts(entry: LedgerEntry, targets: seq<string>) {
    && entry.Capacity? && entry.ref in targets
    && (entry.available.None? || entry.available.value <= 0)
  }

  function ConflictsVerdict(action: ActionName, targets: seq<string>, outstanding: seq<LedgerEntry>): CheckResult {
    if exists e :: e in outstanding && Duplicates(e, action, targets) then FailedCheck(NoConflicts, DuplicateAction)
    else if exists e :: e in outstanding && Exhausts(e, targets) then FailedCheck(NoConflicts, CapacityUnavailable)
    else PassedCheck(NoConflicts)
  }

  /** no_conflicts */
  method CheckConflicts(action: ActionName, targets: seq<string>, outstanding: seq<LedgerEntry>) returns (r: CheckResult)
    ensures r == ConflictsVerdict(action, targets, outstanding)
  {
    var requested := Dedupe(targets);
    assert requested == [] <==> targets == [] by {
      if targets != [] { assert targets[0] in requested; }
      if requested != [] { assert requested[0] in targets; }
    }
    var duplicates: seq<string> := [];
    var exhausted: seq<string> := [];
    for i := 0 to |outstanding|
      invariant duplicates == [] <==> forall j :: 0 <= j < i ==> !Duplicates(outstanding[j], action, targets)
      invariant exhausted == [] <==> forall j :: 0 <= j < i ==> !Exhausts(outstanding[j], targets)
    {
      match outstanding[i]
      case Capacity(ref, available) =>
        if ref in requested && (available.None? || available.value <= 0) {
          exhausted := exhausted + [ref];
        }
      case Work(priorAction, existing, state) =>
        if priorAction == Some(action) && !NonBlocking(state) {
          if existing == [] || requested == [] {
            duplicates := duplicates + if requested != [] then requested else ["*"];
          } else {
            var overlap := Overlap(requested, existing);
            duplicates := duplicates + overlap;
          }
        }
    }
    if duplicates != [] {
      return FailedCheck(NoConflicts, DuplicateAction);
    }
    if exhausted != [] {
      return FailedCheck(NoConflicts, CapacityUnavailable);
    }
    return PassedCheck(NoConflicts);
  }

  method Overlap(requested: seq<string>, existing: seq<string>) returns (common: seq<string>)
    ensures forall ref :: ref in common <==> ref in requested && ref in existing
    ensures common != [] <==> exists ref :: ref in requested && ref in existing
  {
    common := [];
    for i := 0 to |requested|
      invariant forall ref :: ref in common <==> ref in requested[..i] && ref in existing
    {
      if requested[i] in existing {
        common := common + [requested[i]];
      }
    }
    assert requested[..|requested|] == requested;
    if common != [] { assert common[0] in common; }
  }

  // ---------------------------------------------------------------- 6. risk tier

  /** action_risk: classifies and never fails. */
  function RiskVerdict(action: ActionName, config: AssuranceConfig): CheckResult {
    var tier := config.TierFor(action);
    Report(ActionRisk, Passed, if tier == High then HumanApprovalRequired else Ok, Some(tier))
  }
}
